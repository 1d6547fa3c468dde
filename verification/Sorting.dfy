/**
 Library sorting: a sort promises a sorted permutation and, for equal keys, no particular order
 (Go's `sort.Slice` is not stable).  What the platform relies on is when that promise leaves
 exactly one possible result.
 */
module Sorting {
  import Text

  ghost predicate Sorted<T(!new)>(less: (T, T) -> bool, s: seq<T>) {
    forall i, j | 0 <= i < j < |s| :: InOrder(less, s, i, j)
  }

  ghost predicate InOrder<T(!new)>(less: (T, T) -> bool, s: seq<T>, i: nat, j: nat) {
    i < j < |s| && !less(s[j], s[i])
  }

  /** A strict order whose incomparability is transitive, as `sort.Slice` demands of its comparison. */
  ghost predicate WeakOrder<T(!new)>(less: (T, T) -> bool) {
    forall x, y, z :: WeakOrderAt(less, x, y, z)
  }

  ghost predicate WeakOrderAt<T(!new)>(less: (T, T) -> bool, x: T, y: T, z: T) {
    !(less(x, y) && less(y, x)) && (less(x, z) ==> less(x, y) || less(y, z))
  }

  /** Elements that the order does not separate are equal. */
  ghost predicate Separates<T(!new)>(less: (T, T) -> bool, s: seq<T>) {
    forall x, y | x in s && y in s :: x == y || less(x, y) || less(y, x)
  }

  method Sort<T(!new)>(less: (T, T) -> bool, s: seq<T>) returns (r: seq<T>)
    requires WeakOrder(less)
    ensures Sorted(less, r) && multiset(r) == multiset(s)
  {
    r := [];
    for n := 0 to |s|
      invariant Sorted(less, r) && multiset(r) == multiset(s[..n])
    {
      var k := |r|;
      while k > 0 && less(s[n], r[k - 1])
        invariant 0 <= k <= |r|
        invariant forall i | k <= i < |r| :: less(s[n], r[i])
      {
        k := k - 1;
      }
      assert s[..n + 1] == s[..n] + [s[n]];
      InsertSorted(less, r, k, s[n]);
      r := r[..k] + [s[n]] + r[k..];
    }
    assert s[..|s|] == s;
  }

  lemma InsertSorted<T(!new)>(less: (T, T) -> bool, r: seq<T>, k: nat, x: T)
    requires WeakOrder(less) && Sorted(less, r) && k <= |r|
    requires forall i | k <= i < |r| :: less(x, r[i])
    requires k > 0 ==> !less(x, r[k - 1])
    ensures Sorted(less, r[..k] + [x] + r[k..])
    ensures multiset(r[..k] + [x] + r[k..]) == multiset(r) + multiset{x}
  {
    var q := r[..k] + [x] + r[k..];
    assert multiset(q) == multiset(r) + multiset{x} by {
      assert r == r[..k] + r[k..];
    }
    forall i, j | 0 <= i < j < |q| ensures InOrder(less, q, i, j) {
      if j == k {
        assert i < k - 1 ==> InOrder(less, r, i, k - 1);
        assert WeakOrderAt(less, x, r[k - 1], r[i]);
      } else if i == k {
        assert WeakOrderAt(less, x, r[j - 1], x);
      } else {
        assert InOrder(less, r, if i < k then i else i - 1, if j < k then j else j - 1);
      }
    }
  }

  /** Sorting any rearrangement of `a` gives the same sequence. */
  lemma {:induction false} SortedUnique<T(!new)>(less: (T, T) -> bool, a: seq<T>, b: seq<T>)
    requires multiset(a) == multiset(b)
    requires Sorted(less, a) && Sorted(less, b) && Separates(less, a)
    ensures a == b
    decreases |a|
  {
    assert |multiset(a)| == |a| && |multiset(b)| == |b|;
    if a != [] {
      HeadsAgree(less, a, b);
      TailContents(a);
      TailContents(b);
      SortedTail(less, a);
      SortedTail(less, b);
      SortedUnique(less, a[1..], b[1..]);
      assert a == [a[0]] + a[1..] && b == [b[0]] + b[1..];
    }
  }

  lemma HeadsAgree<T(!new)>(less: (T, T) -> bool, a: seq<T>, b: seq<T>)
    requires multiset(a) == multiset(b) && a != [] && b != []
    requires Sorted(less, a) && Sorted(less, b) && Separates(less, a)
    ensures a[0] == b[0]
  {
    assert a[0] in multiset(b) && b[0] in multiset(a);
    var j :| 0 <= j < |b| && b[j] == a[0];
    var i :| 0 <= i < |a| && a[i] == b[0];
    assert (i > 0 ==> InOrder(less, a, 0, i)) && (j > 0 ==> InOrder(less, b, 0, j));
  }

  lemma SortedTail<T(!new)>(less: (T, T) -> bool, s: seq<T>)
    requires Sorted(less, s) && s != []
    ensures Sorted(less, s[1..])
  {
    forall i, j | 0 <= i < j < |s| - 1 ensures InOrder(less, s[1..], i, j) {
      assert InOrder(less, s, i + 1, j + 1);
    }
  }

  lemma TailContents<T>(s: seq<T>)
    requires s != []
    ensures multiset(s[1..]) == multiset(s) - multiset{s[0]}
    ensures forall x | x in s[1..] :: x in s
  {
    assert s == [s[0]] + s[1..];
  }

  /** Comparison of two elements by a string key. */
  function ByKey<T>(key: T -> string): (T, T) -> bool {
    (a: T, b: T) => Text.Less(key(a), key(b))
  }

  lemma ByKeyWeakOrder<T(!new)>(key: T -> string)
    ensures WeakOrder(ByKey(key))
  {
    var less := ByKey(key);
    forall x, y, z ensures WeakOrderAt(less, x, y, z) {
      Text.LessTrichotomy(key(x), key(y));
      if Text.Less(key(y), key(x)) && less(x, z) {
        Text.LessTransitive(key(y), key(x), key(z));
      }
    }
  }

  ghost predicate StrictlySorted<T(!new)>(less: (T, T) -> bool, s: seq<T>) {
    forall i, j | 0 <= i < j < |s| :: less(s[i], s[j])
  }

  /** Two strictly sorted sequences with the same elements are the same sequence. */
  lemma {:induction false} StrictlySortedUnique<T(!new)>(less: (T, T) -> bool, a: seq<T>, b: seq<T>)
    requires forall x, y :: !(less(x, y) && less(y, x))
    requires StrictlySorted(less, a) && StrictlySorted(less, b)
    requires forall x :: x in a <==> x in b
    ensures a == b
  {
    assert (a != [] ==> a[0] in b) && (b != [] ==> b[0] in a);
    if a != [] {
      var i :| 0 <= i < |a| && a[i] == b[0];
      var j :| 0 <= j < |b| && b[j] == a[0];
      forall x ensures x in a[1..] <==> x in b[1..] {
        StrictTail(less, a, x);
        StrictTail(less, b, x);
      }
      StrictlySortedUnique(less, a[1..], b[1..]);
      assert a == [a[0]] + a[1..] && b == [b[0]] + b[1..];
    }
  }

  lemma StrictTail<T(!new)>(less: (T, T) -> bool, s: seq<T>, x: T)
    requires forall x, y :: !(less(x, y) && less(y, x))
    requires StrictlySorted(less, s) && s != []
    ensures x in s[1..] <==> x in s && x != s[0]
  {
    assert s == [s[0]] + s[1..];
    if x in s[1..] {
      var i :| 0 <= i < |s| - 1 && s[1..][i] == x;
      assert less(s[0], s[i + 1]);
    }
  }
}
