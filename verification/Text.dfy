/**
 Strings as the platform handles them: Unicode white space trimming, keys joined with a
 separator character, decimal version numbers and the code-point order used for sorting.
 */
module Text {

  /** The characters that Go's `strings.TrimSpace` removes (Unicode White_Space). */
  predicate IsSpace(c: char) {
    '\t' <= c <= '\r' || c == ' ' || c == '\U{85}' || c == '\U{A0}' || c == '\U{1680}'
    || '\U{2000}' <= c <= '\U{200A}' || c == '\U{2028}' || c == '\U{2029}' || c == '\U{202F}'
    || c == '\U{205F}' || c == '\U{3000}'
  }

  function TrimLeft(s: string): (r: string)
    ensures r != "" ==> !IsSpace(r[0])
  {
    if s != "" && IsSpace(s[0]) then TrimLeft(s[1..]) else s
  }

  function TrimRight(s: string): (r: string)
    ensures r != "" ==> s != "" && r[0] == s[0] && !IsSpace(r[|r| - 1])
  {
    if s != "" && IsSpace(s[|s| - 1]) then TrimRight(s[..|s| - 1]) else s
  }

  function Trim(s: string): (r: string)
    ensures r != "" ==> !IsSpace(r[0]) && !IsSpace(r[|r| - 1])
  {
    TrimRight(TrimLeft(s))
  }

  /** Nothing but white space, `strings.TrimSpace(s) == ""`. */
  predicate Blank(s: string) { forall i | 0 <= i < |s| :: IsSpace(s[i]) }

  lemma BlankMeansTrimmedEmpty(s: string)
    ensures Blank(s) <==> Trim(s) == ""
  {
    TrimLeftBlank(s);
    if Trim(s) == "" {
      TrimRightBlank(TrimLeft(s));
    }
  }

  lemma {:induction false} TrimLeftBlank(s: string)
    ensures Blank(s) <==> TrimLeft(s) == ""
  {
    if s != "" {
      TrimLeftBlank(s[1..]);
      assert s == [s[0]] + s[1..];
    }
  }

  lemma {:induction false} TrimRightBlank(s: string)
    requires TrimRight(s) == ""
    ensures Blank(s)
  {
    if s != "" {
      TrimRightBlank(s[..|s| - 1]);
    }
  }

  /** Key builders trim arguments that their callers trimmed already; that changes nothing. */
  lemma TrimIdempotent(s: string)
    ensures Trim(Trim(s)) == Trim(s)
  {
    TrimFixed(Trim(s));
  }

  lemma TrimFixed(s: string)
    requires s != "" ==> !IsSpace(s[0]) && !IsSpace(s[|s| - 1])
    ensures Trim(s) == s
  {}

  lemma {:induction false} TrimLeftCuts(s: string) returns (a: string)
    ensures s == a + TrimLeft(s) && Blank(a)
  {
    a := "";
    if s != "" && IsSpace(s[0]) {
      a := TrimLeftCuts(s[1..]);
      a := [s[0]] + a;
    }
  }

  lemma {:induction false} TrimRightCuts(s: string) returns (b: string)
    ensures s == TrimRight(s) + b && Blank(b)
  {
    b := "";
    if s != "" && IsSpace(s[|s| - 1]) {
      b := TrimRightCuts(s[..|s| - 1]);
      b := b + [s[|s| - 1]];
    }
  }

  /** What trimming cuts off is white space, so the rest is the text between its first and last other character. */
  lemma TrimExactly(s: string) returns (a: string, b: string)
    ensures s == a + Trim(s) + b && Blank(a) && Blank(b)
    ensures Trim(s) != "" ==> !IsSpace(Trim(s)[0]) && !IsSpace(Trim(s)[|Trim(s)| - 1])
  {
    a := TrimLeftCuts(s);
    b := TrimRightCuts(TrimLeft(s));
  }

  /** White space: the characters with the Unicode property White_Space. */
  lemma SpaceSet(c: char)
    ensures IsSpace(c) <==>
      c in {'\t', '\n', '\U{0B}', '\U{0C}', '\r', ' ', '\U{85}', '\U{A0}', '\U{1680}', '\U{2000}', '\U{2001}',
            '\U{2002}', '\U{2003}', '\U{2004}', '\U{2005}', '\U{2006}', '\U{2007}', '\U{2008}', '\U{2009}', '\U{200A}',
            '\U{2028}', '\U{2029}', '\U{202F}', '\U{205F}', '\U{3000}'}
  {}

  /** The parts joined by one separator, as in `fmt.Sprintf("%s:%s:%s", ...)`. */
  function Join(sep: char, parts: seq<string>): string
    requires parts != []
  {
    if |parts| == 1 then parts[0] else parts[0] + [sep] + Join(sep, parts[1..])
  }

  ghost predicate Splittable(sep: char, parts: seq<string>) {
    forall i | 0 <= i < |parts| - 1 :: sep !in parts[i]
  }

  /** A joined key determines its parts when all of them but the last are free of the separator. */
  lemma {:induction false} JoinInjective(sep: char, a: seq<string>, b: seq<string>)
    requires |a| == |b| > 0
    requires Splittable(sep, a) && Splittable(sep, b)
    requires Join(sep, a) == Join(sep, b)
    ensures a == b
  {
    if |a| > 1 {
      SplitUnique(sep, a[0], Join(sep, a[1..]), b[0], Join(sep, b[1..]));
      JoinInjective(sep, a[1..], b[1..]);
      assert a == [a[0]] + a[1..] && b == [b[0]] + b[1..];
    }
  }

  lemma SplitUnique(sep: char, x: string, r: string, y: string, q: string)
    requires sep !in x && sep !in y
    requires x + [sep] + r == y + [sep] + q
    ensures x == y && r == q
  {
    var s := x + [sep] + r;
    assert s[|x|] == sep && s[|y|] == sep;
    assert (forall i | 0 <= i < |x| :: x[i] == s[i]) && (forall i | 0 <= i < |y| :: y[i] == s[i]);
    assert |x| == |y|;
    assert x == s[..|x|] && y == s[..|y|];
    assert r == s[|x| + 1..] && q == s[|y| + 1..];
  }

  lemma {:induction false} JoinFree(sep: char, parts: seq<string>, c: char)
    requires parts != [] && c != sep && forall i | 0 <= i < |parts| :: c !in parts[i]
    ensures c !in Join(sep, parts)
  {
    if |parts| > 1 {
      JoinFree(sep, parts[1..], c);
    }
  }

  /** The two-part map keys of the registries: `fmt.Sprintf("%s:%s", TrimSpace(a), TrimSpace(b))`. */
  function PairKey(a: string, b: string): string { Trim(a) + ":" + Trim(b) }

  /** Trimmed and not blank, as the registries store names. */
  predicate Proper(s: string) { s != "" && Trim(s) == s }

  /** The text of a pair key also splits at the colon at `i` into two proper names. */
  predicate SecondSplit(a: string, b: string, i: nat) {
    var key := a + ":" + b;
    i < |key| && i != |a| && key[i] == ':' && Proper(key[..i]) && Proper(key[i + 1..])
  }

  /** Another pair of proper names has the same key. */
  predicate Ambiguous(a: string, b: string) { exists i | 0 <= i < |a| + 1 + |b| :: SecondSplit(a, b, i) }

  /** A key that is not ambiguous belongs to one pair of names. */
  lemma PairKeyUnique(a: string, b: string, c: string, d: string)
    requires Proper(a) && Proper(b) && Proper(c) && Proper(d)
    requires !Ambiguous(a, b) && PairKey(a, b) == PairKey(c, d)
    ensures a == c && b == d
  {
    var key := a + ":" + b;
    assert key == c + ":" + d;
    assert key[..|c|] == c && key[|c| + 1..] == d && key[|c|] == ':';
    assert key[..|a|] == a && key[|a| + 1..] == b;
    assert !SecondSplit(a, b, |c|);
  }

  lemma SecondSplitPair(a: string, b: string, i: nat) returns (c: string, d: string)
    requires Proper(a) && Proper(b) && SecondSplit(a, b, i)
    ensures Proper(c) && Proper(d) && c != a && PairKey(c, d) == PairKey(a, b)
  {
    var key := a + ":" + b;
    c, d := key[..i], key[i + 1..];
    assert c + ":" + d == key;
  }

  predicate IsDigit(c: char) { '0' <= c <= '9' }

  function Dec(n: nat): (s: string)
    ensures s != "" && forall i | 0 <= i < |s| :: IsDigit(s[i])
    ensures n < 10 <==> |s| == 1
  {
    if n < 10 then [('0' as int + n) as char] else Dec(n / 10) + [('0' as int + n % 10) as char]
  }

  lemma {:induction false} DecInjective(m: nat, n: nat)
    requires Dec(m) == Dec(n)
    ensures m == n
  {
    if m >= 10 {
      var x, y := Dec(m / 10), Dec(n / 10);
      assert Dec(m)[..|Dec(m)| - 1] == x && Dec(n)[..|Dec(n)| - 1] == y;
      DecInjective(m / 10, n / 10);
      assert Dec(m)[|Dec(m)| - 1] == Dec(n)[|Dec(n)| - 1];
    }
  }

  /** `%d` of a number that may be negative. */
  function Signed(n: int): string { if n < 0 then "-" + Dec(-n) else Dec(n) }

  lemma SignedInjective(m: int, n: int)
    requires Signed(m) == Signed(n)
    ensures m == n
  {
    var x, y := Signed(m), Signed(n);
    assert m < 0 ==> x[0] == '-' && x[1..] == Dec(-m);
    assert n < 0 ==> y[0] == '-' && y[1..] == Dec(-n);
    if m < 0 && n < 0 {
      DecInjective(-m, -n);
    } else if m >= 0 && n >= 0 {
      DecInjective(m, n);
    }
  }

  /** `fmt.Sprintf("%s:v%d", base, version)`. */
  function VersionKey(base: string, version: nat): string { base + ":v" + Dec(version) }

  /** A number after a mark that is not a digit can be told from what precedes it. */
  lemma NumberedInjective(b: string, mark: char, m: nat, c: string, n: nat)
    requires !IsDigit(mark) && b + [mark] + Dec(m) == c + [mark] + Dec(n)
    ensures b == c && m == n
  {
    var x, y, s := Dec(m), Dec(n), b + [mark] + Dec(m);
    assert s[|s| - |x| - 1] == mark && s[|s| - |y| - 1] == mark;
    assert (forall i | |s| - |x| <= i < |s| :: IsDigit(s[i])) && (forall i | |s| - |y| <= i < |s| :: IsDigit(s[i]));
    assert |x| == |y|;
    assert x == s[|s| - |x|..] && y == s[|s| - |y|..];
    DecInjective(m, n);
    assert b == s[..|b|] && c == s[..|c|];
  }

  /** A version key determines both its base and its version, whatever the base contains. */
  lemma VersionKeyInjective(b: string, m: nat, c: string, n: nat)
    requires VersionKey(b, m) == VersionKey(c, n)
    ensures b == c && m == n
  {
    assert VersionKey(b, m) == (b + ":") + ['v'] + Dec(m) && VersionKey(c, n) == (c + ":") + ['v'] + Dec(n);
    NumberedInjective(b + ":", 'v', m, c + ":", n);
    assert b == (b + ":")[..|b|] && c == (c + ":")[..|c|];
  }

  /** Code-point order: Python's `str` comparison, and Go's byte order on UTF-8. */
  predicate Less(a: string, b: string) {
    b != "" && (a == "" || a[0] < b[0] || (a[0] == b[0] && Less(a[1..], b[1..])))
  }

  ghost predicate AgreeTo(a: string, b: string, i: nat) { i <= |a| && i <= |b| && a[..i] == b[..i] }

  /** The first differing character decides, and a proper prefix comes first. */
  lemma {:induction false} LessExactly(a: string, b: string)
    ensures Less(a, b) <==> exists i: nat :: AgreeTo(a, b, i) && i < |b| && (i == |a| || a[i] < b[i])
  {
    if b != "" && a != "" && a[0] == b[0] {
      LessExactly(a[1..], b[1..]);
      if i: nat :| AgreeTo(a[1..], b[1..], i) && i < |b[1..]| && (i == |a[1..]| || a[1..][i] < b[1..][i]) {
        assert a[..i + 1] == [a[0]] + a[1..][..i] && b[..i + 1] == [b[0]] + b[1..][..i];
        assert AgreeTo(a, b, i + 1);
      }
      if i: nat :| AgreeTo(a, b, i) && i < |b| && (i == |a| || a[i] < b[i]) {
        assert i > 0 ==> a[1..][..i - 1] == a[..i][1..] && b[1..][..i - 1] == b[..i][1..];
        assert i > 0 ==> AgreeTo(a[1..], b[1..], i - 1);
      }
    } else {
      assert AgreeTo(a, b, 0);
    }
  }

  lemma {:induction false} LessTrichotomy(a: string, b: string)
    ensures a == b || Less(a, b) || Less(b, a)
    ensures !(Less(a, b) && Less(b, a))
  {
    if a != "" && b != "" {
      LessTrichotomy(a[1..], b[1..]);
      assert a == [a[0]] + a[1..] && b == [b[0]] + b[1..];
    }
  }

  lemma {:induction false} LessTransitive(a: string, b: string, c: string)
    requires Less(a, b) && Less(b, c)
    ensures Less(a, c)
  {
    if a != "" && a[0] == b[0] == c[0] {
      LessTransitive(a[1..], b[1..], c[1..]);
    }
  }

  /** Whether `part` occurs in `s`, as `strings.Contains`. */
  predicate Contains(s: string, part: string) {
    exists i | 0 <= i <= |s| :: part <= s[i..]
  }

  lemma ContainsExactly(s: string, part: string)
    ensures Contains(s, part) <==> exists x, y :: s == x + part + y
  {
    if Contains(s, part) {
      var i :| 0 <= i <= |s| && part <= s[i..];
      assert s == s[..i] + part + s[i + |part|..];
    }
    if x, y :| s == x + part + y {
      assert s[|x|..] == part + y;
    }
  }

  predicate EndsWith(s: string, suffix: string) {
    |s| >= |suffix| && s[|s| - |suffix|..] == suffix
  }

  lemma StartsWith(s: string, prefix: string)
    ensures prefix <= s <==> exists x :: s == prefix + x
  {
    if prefix <= s {
      assert s == prefix + s[|prefix|..];
    }
  }

  lemma EndsWithExactly(s: string, suffix: string)
    ensures EndsWith(s, suffix) <==> exists x :: s == x + suffix
  {
    if EndsWith(s, suffix) {
      assert s == s[..|s| - |suffix|] + suffix;
    }
  }

  function Zeros(n: nat): (s: string)
    ensures |s| == n && forall i | 0 <= i < n :: s[i] == '0'
  {
    if n == 0 then "" else Zeros(n - 1) + "0"
  }

  /** A SHA-256 digest as text: 64 lower-case hexadecimal characters. */
  predicate HexDigest(d: string) {
    |d| == 64 && forall i | 0 <= i < |d| :: IsDigit(d[i]) || 'a' <= d[i] <= 'f'
  }

  lemma HexDigestExactly(d: string)
    ensures HexDigest(d) <==> |d| == 64 && forall c | c in d :: c in "0123456789abcdef"
  {
    HexSet();
    assert (forall c | c in d :: c in "0123456789abcdef") <==> forall i | 0 <= i < |d| :: d[i] in "0123456789abcdef";
  }

  lemma HexSet()
    ensures forall c :: c in "0123456789abcdef" <==> IsDigit(c) || 'a' <= c <= 'f'
  {
    assert "0123456789abcdef"[..] == ['0', '1', '2', '3', '4', '5', '6', '7', '8', '9', 'a', 'b', 'c', 'd', 'e', 'f'];
  }

  /** Every digest is 64 lower-case hexadecimal characters. */
  ghost predicate HexHash(hash: string -> string) { forall x :: HexDigest(hash(x)) }
}
