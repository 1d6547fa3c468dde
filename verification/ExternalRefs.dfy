/**
 External references: a map from external to internal identifiers per tenant and system, and a second
 map back.  Both are keyed by text joined with colons; `strings.ToUpper` is an abstract function.
 */
module ExternalRefs {
  import opened Results
  import opened Text

  type Upper = string -> string

  datatype Ref = Ref(tenant: string, system: string, externalId: string, internalId: string)

  datatype RefError =
    | EmptyTenantId | BlankSystem | TooShort | TooLong | Enumeration | BlankIdentifier | DuplicateRef | ConflictingRef
    | NotFound
    | CrossTenantMapping

  datatype State = State(forward: map<string, Ref>, reverse: map<string, string>)

  const Empty: State := State(map[], map[])

  /** The key of an identifier of one tenant and system; both maps build their keys this way. */
  function Key(upper: Upper, tenant: string, system: string, id: string): string {
    Join(':', [Trim(tenant), upper(Trim(system)), Trim(id)])
  }

  const WILDCARDS: string := "*?%<>$\\/;\"'"

  predicate AllSame(s: string) { forall i | 1 <= i < |s| :: s[i] == s[0] }

  function IdFault(id: string): Option<RefError> {
    if |id| < 3 then Some(TooShort)
    else if |id| > 128 then Some(TooLong)
    else if (exists i | 0 <= i < |id| :: id[i] in WILDCARDS) || AllSame(id) then Some(Enumeration)
    else None
  }

  datatype Registration = Registration(tenant: string, system: string, externalId: string, internalId: string)

  /** The reference as it is stored. */
  function Normal(upper: Upper, r: Registration): Ref {
    Ref(Trim(r.tenant), upper(Trim(r.system)), Trim(r.externalId), Trim(r.internalId))
  }

  function ForwardKey(upper: Upper, x: Ref): string { Key(upper, x.tenant, x.system, x.externalId) }

  function ReverseKey(upper: Upper, x: Ref): string { Key(upper, x.tenant, x.system, x.internalId) }

  function ArgumentFault(x: Ref): Option<RefError> {
    if x.tenant == "" then Some(EmptyTenantId)
    else if x.system == "" then Some(BlankSystem)
    else if IdFault(x.externalId).Some? then IdFault(x.externalId)
    else if x.internalId == "" then Some(BlankIdentifier)
    else None
  }

  function MappingFault(upper: Upper, s: State, x: Ref): Option<RefError> {
    var f, r := ForwardKey(upper, x), ReverseKey(upper, x);
    if f in s.forward then if s.forward[f].internalId == x.internalId then None else Some(DuplicateRef)
    else if r in s.reverse && s.reverse[r] != x.externalId then Some(ConflictingRef)
    else None
  }

  function Fault(upper: Upper, s: State, r: Registration): Option<RefError> {
    var x := Normal(upper, r);
    if ArgumentFault(x).Some? then ArgumentFault(x) else MappingFault(upper, s, x)
  }

  function Add(upper: Upper, s: State, x: Ref): State {
    var f, r := ForwardKey(upper, x), ReverseKey(upper, x);
    if f in s.forward then s else State(s.forward[f := x], s.reverse[r := x.externalId])
  }

  function Step(upper: Upper, s: State, r: Registration): State {
    if Fault(upper, s, r).Some? then s else Add(upper, s, Normal(upper, r))
  }

  function Run(upper: Upper, s: State, ops: seq<Registration>): State
    decreases |ops|
  {
    if ops == [] then s else Run(upper, Step(upper, s, ops[0]), ops[1..])
  }

  function ResolveExternal(upper: Upper, s: State, tenant: string, system: string,
      externalId: string): Result<string, RefError> {
    var f := Key(upper, Trim(tenant), upper(Trim(system)), Trim(externalId));
    if Trim(tenant) == "" then Err(EmptyTenantId)
    else if f !in s.forward then Err(NotFound)
    else if s.forward[f].tenant != Trim(tenant) then Err(CrossTenantMapping)
    else Ok(s.forward[f].internalId)
  }

  function ResolveInternal(upper: Upper, s: State, tenant: string, system: string,
      internalId: string): Result<string, RefError> {
    var r := Key(upper, Trim(tenant), upper(Trim(system)), Trim(internalId));
    if Trim(tenant) == "" then Err(EmptyTenantId)
    else if r !in s.reverse then Err(NotFound)
    else Ok(s.reverse[r])
  }

  // ---- nothing accepted ever changes ----

  /** Whatever the identifiers contain, an entry of either map is never changed or removed. */
  lemma {:induction false} MappingsNeverChange(upper: Upper, s: State, ops: seq<Registration>, k: string)
    ensures k in s.forward ==> k in Run(upper, s, ops).forward && Run(upper, s, ops).forward[k] == s.forward[k]
    ensures k in s.reverse ==> k in Run(upper, s, ops).reverse && Run(upper, s, ops).reverse[k] == s.reverse[k]
    decreases |ops|
  {
    if ops != [] {
      StepKeeps(upper, s, ops[0], k);
      MappingsNeverChange(upper, Step(upper, s, ops[0]), ops[1..], k);
    }
  }

  lemma StepKeeps(upper: Upper, s: State, r: Registration, k: string)
    ensures k in s.forward ==> k in Step(upper, s, r).forward && Step(upper, s, r).forward[k] == s.forward[k]
    ensures k in s.reverse ==> k in Step(upper, s, r).reverse && Step(upper, s, r).reverse[k] == s.reverse[k]
  {
    WriteKeeps(upper, s, Normal(upper, r), k);
  }

  lemma WriteKeeps(upper: Upper, s: State, x: Ref, k: string)
    ensures MappingFault(upper, s, x).None? ==>
      && (k in s.forward ==> k in Add(upper, s, x).forward && Add(upper, s, x).forward[k] == s.forward[k])
      && (k in s.reverse ==> k in Add(upper, s, x).reverse && Add(upper, s, x).reverse[k] == s.reverse[k])
  {}

  // ---- keys of the pairs in use ----

  /** A tenant and a system, as callers give them. */
  type Pair = (string, string)

  /** The system as it appears in keys. */
  function System(upper: Upper, u: Pair): string { upper(Trim(upper(Trim(u.1)))) }

  /** What the keys of a pair's identifiers start with. */
  function Prefix(upper: Upper, u: Pair): string { Trim(u.0) + ":" + System(upper, u) + ":" }

  ghost predicate SameNames(upper: Upper, u: Pair, v: Pair) {
    Trim(u.0) == Trim(v.0) && System(upper, u) == System(upper, v)
  }

  /** A registration under the pair can be accepted. */
  ghost predicate Registrable(upper: Upper, u: Pair) { Trim(u.0) != "" && upper(Trim(u.1)) != "" }

  /** One prefix is another, or continues it with something other than white space. */
  predicate Extends(p: string, q: string) { p <= q && (|p| < |q| ==> !IsSpace(q[|p|])) }

  ghost predicate Apart(upper: Upper, u: Pair, v: Pair) {
    Trim(u.0) != "" && Registrable(upper, v) && !SameNames(upper, u, v) ==>
      !Extends(Prefix(upper, u), Prefix(upper, v)) && !Extends(Prefix(upper, v), Prefix(upper, u))
  }

  /** No prefix of a pair in use extends that of another under which references can be registered. */
  ghost predicate Separated(upper: Upper, uses: iset<Pair>) {
    forall u, v | u in uses && v in uses :: Apart(upper, u, v)
  }

  lemma JoinThree(a: string, b: string, c: string)
    ensures Join(':', [a, b, c]) == a + ":" + b + ":" + c
  {
    assert [a, b, c][1..] == [b, c] && [b, c][1..] == [c];
    assert Join(':', [c]) == c;
    assert Join(':', [b, c]) == b + ":" + c;
    assert a + ":" + (b + ":" + c) == a + ":" + b + ":" + c;
  }

  lemma KeyText(upper: Upper, u: Pair, id: string)
    ensures Key(upper, Trim(u.0), upper(Trim(u.1)), Trim(id)) == Prefix(upper, u) + Trim(id)
  {
    TrimIdempotent(u.0);
    TrimIdempotent(id);
    JoinThree(Trim(u.0), System(upper, u), Trim(id));
  }

  lemma PrefixOfSum(p: string, x: string, q: string, y: string)
    requires p + x == q + y && |p| <= |q|
    ensures p <= q && x == q[|p|..] + y
  {
    var s := p + x;
    assert p == s[..|p|] && q == s[..|q|];
    assert x == s[|p|..] && y == s[|q|..];
    assert s[|p|..] == s[|p|..|q|] + s[|q|..];
  }

  /** In separated use, a key tells the pair and the identifier. */
  lemma KeysTellApart(upper: Upper, u: Pair, v: Pair, x: string, y: string)
    requires Apart(upper, u, v) && Trim(u.0) != "" && Registrable(upper, v) && Trim(x) == x && Trim(y) == y
    requires Prefix(upper, u) + x == Prefix(upper, v) + y
    ensures SameNames(upper, u, v) && x == y
  {
    var p, q := Prefix(upper, u), Prefix(upper, v);
    if |p| <= |q| {
      PrefixOfSum(p, x, q, y);
    } else {
      PrefixOfSum(q, y, p, x);
    }
  }

  // ---- the two maps are inverse ----

  ghost predicate Trimmed(x: Ref) {
    Trim(x.tenant) == x.tenant && Trim(x.externalId) == x.externalId && Trim(x.internalId) == x.internalId
  }

  ghost predicate Fits(upper: Upper, u: Pair, x: Ref) {
    Registrable(upper, u) && x.tenant == Trim(u.0) && x.system == upper(Trim(u.1)) && Trimmed(x)
  }

  ghost predicate FromUse(upper: Upper, uses: iset<Pair>, x: Ref) { exists u :: u in uses && Fits(upper, u, x) }

  lemma FitsKeys(upper: Upper, u: Pair, x: Ref)
    requires Fits(upper, u, x)
    ensures ForwardKey(upper, x) == Prefix(upper, u) + x.externalId
      && ReverseKey(upper, x) == Prefix(upper, u) + x.internalId
  {
    KeyText(upper, u, x.externalId);
    KeyText(upper, u, x.internalId);
  }

  ghost predicate ForwardValid(upper: Upper, uses: iset<Pair>, s: State, f: string) {
    f in s.forward ==>
      && var x := s.forward[f];
        && FromUse(upper, uses, x) && ForwardKey(upper, x) == f
        && ReverseKey(upper, x) in s.reverse && s.reverse[ReverseKey(upper, x)] == x.externalId
  }

  ghost predicate ReverseValid(upper: Upper, s: State, r: string) {
    r in s.reverse ==> exists f :: PointsBack(upper, s, f, r)
  }

  ghost predicate PointsBack(upper: Upper, s: State, f: string, r: string) {
    f in s.forward && r in s.reverse && ReverseKey(upper, s.forward[f]) == r && s.forward[f].externalId == s.reverse[r]
  }

  /** Each map holds the inverse entries of the other, all from pairs in use. */
  ghost predicate Valid(upper: Upper, uses: iset<Pair>, s: State) {
    (forall f :: ForwardValid(upper, uses, s, f)) && (forall r :: ReverseValid(upper, s, r))
  }

  lemma AddValid(upper: Upper, uses: iset<Pair>, s: State, x: Ref)
    requires Valid(upper, uses, s) && FromUse(upper, uses, x) && MappingFault(upper, s, x).None?
    ensures Valid(upper, uses, Add(upper, s, x))
  {
    var t, f, r := Add(upper, s, x), ForwardKey(upper, x), ReverseKey(upper, x);
    if f !in s.forward {
      forall g ensures ForwardValid(upper, uses, t, g) {
        assert ForwardValid(upper, uses, s, g);
      }
      forall q ensures ReverseValid(upper, t, q) {
        assert ReverseValid(upper, s, q);
        if q == r {
          assert PointsBack(upper, t, f, q);
        } else if q in t.reverse {
          var g :| PointsBack(upper, s, g, q);
          assert PointsBack(upper, t, g, q);
        }
      }
    }
  }

  lemma NormalFits(upper: Upper, r: Registration)
    requires ArgumentFault(Normal(upper, r)).None?
    ensures Fits(upper, (r.tenant, r.system), Normal(upper, r))
  {
    TrimIdempotent(r.tenant);
    TrimIdempotent(r.externalId);
    TrimIdempotent(r.internalId);
  }

  ghost predicate Within(ops: seq<Registration>, uses: iset<Pair>) {
    forall i | 0 <= i < |ops| :: (ops[i].tenant, ops[i].system) in uses
  }

  lemma StepValid(upper: Upper, uses: iset<Pair>, s: State, r: Registration)
    requires Valid(upper, uses, s) && (r.tenant, r.system) in uses
    ensures Valid(upper, uses, Step(upper, s, r))
  {
    if Fault(upper, s, r).None? {
      NormalFits(upper, r);
      AddValid(upper, uses, s, Normal(upper, r));
    }
  }

  lemma {:induction false} RunValid(upper: Upper, uses: iset<Pair>, s: State, ops: seq<Registration>)
    requires Valid(upper, uses, s) && Within(ops, uses)
    ensures Valid(upper, uses, Run(upper, s, ops))
    decreases |ops|
  {
    if ops != [] {
      StepValid(upper, uses, s, ops[0]);
      RunValid(upper, uses, Step(upper, s, ops[0]), ops[1..]);
    }
  }

  lemma ForwardThenBack(upper: Upper, uses: iset<Pair>, s: State, u: Pair, e: string, i: string)
    requires Valid(upper, uses, s) && Separated(upper, uses) && u in uses && Trim(e) == e && Trim(i) == i
    requires ResolveExternal(upper, s, u.0, u.1, e) == Ok(i)
    ensures ResolveInternal(upper, s, u.0, u.1, i) == Ok(e)
  {
    KeyText(upper, u, e);
    KeyText(upper, u, i);
    var f := Prefix(upper, u) + e;
    assert ForwardValid(upper, uses, s, f);
    var x := s.forward[f];
    var v :| v in uses && Fits(upper, v, x);
    FitsKeys(upper, v, x);
    assert Apart(upper, u, v);
    KeysTellApart(upper, u, v, e, x.externalId);
  }

  lemma BackThenForward(upper: Upper, uses: iset<Pair>, s: State, u: Pair, e: string, i: string)
    requires Valid(upper, uses, s) && Separated(upper, uses) && u in uses && Trim(e) == e && Trim(i) == i
    requires ResolveInternal(upper, s, u.0, u.1, i) == Ok(e)
    ensures ResolveExternal(upper, s, u.0, u.1, e) == Ok(i)
  {
    KeyText(upper, u, e);
    KeyText(upper, u, i);
    var r := Prefix(upper, u) + i;
    assert ReverseValid(upper, s, r);
    var f :| PointsBack(upper, s, f, r);
    assert ForwardValid(upper, uses, s, f);
    var x := s.forward[f];
    var v :| v in uses && Fits(upper, v, x);
    FitsKeys(upper, v, x);
    assert Apart(upper, u, v);
    KeysTellApart(upper, u, v, i, x.internalId);
  }

  // ---- exactly when ----

  ghost predicate InverseAt(upper: Upper, s: State, u: Pair, e: string, i: string) {
    ResolveExternal(upper, s, u.0, u.1, e) == Ok(i) <==> ResolveInternal(upper, s, u.0, u.1, i) == Ok(e)
  }

  /** After any registrations under pairs in use, each resolver undoes the other on pairs in use. */
  ghost predicate InverseOver(upper: Upper, uses: iset<Pair>) {
    forall ops, u, e, i | Within(ops, uses) && u in uses && Trim(e) == e && Trim(i) == i ::
      InverseAt(upper, Run(upper, Empty, ops), u, e, i)
  }

  lemma SeparatedInverse(upper: Upper, uses: iset<Pair>, ops: seq<Registration>, u: Pair, e: string, i: string)
    requires Separated(upper, uses) && Within(ops, uses) && u in uses && Trim(e) == e && Trim(i) == i
    ensures InverseAt(upper, Run(upper, Empty, ops), u, e, i)
  {
    RunValid(upper, uses, Empty, ops);
    var s := Run(upper, Empty, ops);
    if ResolveExternal(upper, s, u.0, u.1, e) == Ok(i) {
      ForwardThenBack(upper, uses, s, u, e, i);
    }
    if ResolveInternal(upper, s, u.0, u.1, i) == Ok(e) {
      BackThenForward(upper, uses, s, u, e, i);
    }
  }

  /** The store after one accepted registration from empty. */
  lemma FirstRegistered(upper: Upper, v: Pair, x: string, i: string)
    requires Registrable(upper, v) && Trim(x) == x && Trim(i) == i != "" && IdFault(x).None?
    ensures
      var s := Run(upper, Empty, [Registration(v.0, v.1, x, i)]);
      && s.forward == map[Prefix(upper, v) + x := Ref(Trim(v.0), upper(Trim(v.1)), x, i)]
      && s.reverse == map[Prefix(upper, v) + i := x]
  {
    var r := Registration(v.0, v.1, x, i);
    NormalFits(upper, r);
    FitsKeys(upper, v, Normal(upper, r));
    assert [r][1..] == [];
    assert Run(upper, Empty, [r]) == Run(upper, Step(upper, Empty, r), []);
  }

  /**
   When the prefix of `v` extends that of `u`, an identifier registered under `v` resolves under `u`,
   for another tenant as well: the reverse resolver does not look at the tenant.  It does not resolve back.
   */
  lemma LongerPrefixLeaks(upper: Upper, u: Pair, v: Pair, x: string, i: string)
    requires Trim(u.0) != "" && Registrable(upper, v) && !SameNames(upper, u, v)
      && Extends(Prefix(upper, u), Prefix(upper, v))
    requires Trim(x) == x && Trim(i) == i != "" && IdFault(x).None?
    ensures
      var s, rest := Run(upper, Empty, [Registration(v.0, v.1, x, i)]), Prefix(upper, v)[|Prefix(upper, u)|..];
      && Trim(rest + i) == rest + i
      && ResolveInternal(upper, s, u.0, u.1, rest + i) == Ok(x)
      && (ResolveExternal(upper, s, u.0, u.1, x) == if rest == "" then Err(CrossTenantMapping) else Err(NotFound))
  {
    var p, q := Prefix(upper, u), Prefix(upper, v);
    var rest := q[|p|..];
    RestTrimmed(p, q, i);
    FirstRegistered(upper, v, x, i);
    KeyText(upper, u, rest + i);
    KeyText(upper, u, x);
    assert rest != "" ==> |p + x| != |q + x|;
    if rest == "" {
      SamePrefixOtherTenant(upper, u, v);
    }
  }

  lemma RestTrimmed(p: string, q: string, i: string)
    requires Extends(p, q) && Trim(i) == i != ""
    ensures q == p + q[|p|..] && q + i == p + (q[|p|..] + i) && Trim(q[|p|..] + i) == q[|p|..] + i
  {
    TrimFixed(q[|p|..] + i);
  }

  lemma SamePrefixSameTenant(upper: Upper, u: Pair, v: Pair)
    requires Prefix(upper, u) == Prefix(upper, v) && Trim(u.0) == Trim(v.0)
    ensures SameNames(upper, u, v)
  {
    var p, n := Prefix(upper, u), |Trim(u.0)| + 1;
    assert p[n..|p| - 1] == System(upper, u) && Prefix(upper, v)[n..|p| - 1] == System(upper, v);
  }

  lemma SamePrefixOtherTenant(upper: Upper, u: Pair, v: Pair)
    requires Prefix(upper, u) == Prefix(upper, v) && !SameNames(upper, u, v)
    ensures Trim(u.0) != Trim(v.0)
  {
    if Trim(u.0) == Trim(v.0) {
      SamePrefixSameTenant(upper, u, v);
    }
  }

  /** When the prefix of `u` properly extends that of `v`, an internal identifier under `v` can be read under `u`. */
  lemma ShorterPrefixLeaks(upper: Upper, u: Pair, v: Pair, x: string, i: string)
    requires Trim(u.0) != "" && Registrable(upper, v) && Extends(Prefix(upper, v), Prefix(upper, u))
    requires |Prefix(upper, v)| < |Prefix(upper, u)|
    requires Trim(x) == x && Trim(i) == i != "" && IdFault(x).None?
    ensures
      var rest := Prefix(upper, u)[|Prefix(upper, v)|..];
      var s := Run(upper, Empty, [Registration(v.0, v.1, x, rest + i)]);
      ResolveInternal(upper, s, u.0, u.1, i) == Ok(x) && ResolveExternal(upper, s, u.0, u.1, x) == Err(NotFound)
  {
    var p, q := Prefix(upper, u), Prefix(upper, v);
    var rest := p[|q|..];
    RestTrimmed(q, p, i);
    FirstRegistered(upper, v, x, rest + i);
    KeyText(upper, u, i);
    KeyText(upper, u, x);
    assert |p + x| != |q + x|;
  }

  lemma SampleId()
    ensures IdFault("abc").None? && Trim("abc") == "abc" && Trim("i") == "i"
  {
    TrimFixed("abc");
    TrimFixed("i");
    assert "abc"[1] != "abc"[0];
    assert forall j | 0 <= j < 3 :: "abc"[j] !in WILDCARDS;
  }

  lemma Breaks(upper: Upper, uses: iset<Pair>, ops: seq<Registration>, u: Pair, e: string, i: string)
    requires Within(ops, uses) && u in uses && Trim(e) == e && Trim(i) == i
    requires !InverseAt(upper, Run(upper, Empty, ops), u, e, i)
    ensures !InverseOver(upper, uses)
  {}

  lemma LongerBreaks(upper: Upper, uses: iset<Pair>, u: Pair, v: Pair)
    requires u in uses && v in uses && Trim(u.0) != "" && Registrable(upper, v) && !SameNames(upper, u, v)
    requires Extends(Prefix(upper, u), Prefix(upper, v))
    ensures !InverseOver(upper, uses)
  {
    SampleId();
    var id, ops := Prefix(upper, v)[|Prefix(upper, u)|..] + "i", [Registration(v.0, v.1, "abc", "i")];
    LongerPrefixLeaks(upper, u, v, "abc", "i");
    Breaks(upper, uses, ops, u, "abc", id);
  }

  lemma ShorterBreaks(upper: Upper, uses: iset<Pair>, u: Pair, v: Pair)
    requires u in uses && v in uses && Trim(u.0) != "" && Registrable(upper, v)
    requires Extends(Prefix(upper, v), Prefix(upper, u)) && |Prefix(upper, v)| < |Prefix(upper, u)|
    ensures !InverseOver(upper, uses)
  {
    SampleId();
    var ops := [Registration(v.0, v.1, "abc", Prefix(upper, u)[|Prefix(upper, v)|..] + "i")];
    ShorterPrefixLeaks(upper, u, v, "abc", "i");
    Breaks(upper, uses, ops, u, "abc", "i");
  }

  lemma NotApartBreaks(upper: Upper, uses: iset<Pair>, u: Pair, v: Pair)
    requires u in uses && v in uses && !Apart(upper, u, v)
    ensures !InverseOver(upper, uses)
  {
    if Extends(Prefix(upper, u), Prefix(upper, v)) {
      LongerBreaks(upper, uses, u, v);
    } else {
      ShorterBreaks(upper, uses, u, v);
    }
  }

  /** The resolvers are inverse over the pairs in use exactly when those pairs are separated. */
  lemma InverseExactly(upper: Upper, uses: iset<Pair>)
    ensures InverseOver(upper, uses) <==> Separated(upper, uses)
  {
    if Separated(upper, uses) {
      forall ops, u, e, i | Within(ops, uses) && u in uses && Trim(e) == e && Trim(i) == i
        ensures InverseAt(upper, Run(upper, Empty, ops), u, e, i)
      {
        SeparatedInverse(upper, uses, ops, u, e, i);
      }
    } else {
      var u, v :| u in uses && v in uses && !Apart(upper, u, v);
      NotApartBreaks(upper, uses, u, v);
    }
  }

  /** No colon in the tenant or in the system as it appears in keys. */
  ghost predicate ColonFree(upper: Upper, u: Pair) { ':' !in Trim(u.0) && ':' !in System(upper, u) }

  lemma ColonFreeApart(upper: Upper, u: Pair, v: Pair)
    requires ColonFree(upper, u) && ColonFree(upper, v) && Prefix(upper, u) <= Prefix(upper, v)
    ensures SameNames(upper, u, v)
  {
    var rest := Prefix(upper, v)[|Prefix(upper, u)|..];
    assert Prefix(upper, v) == Prefix(upper, u) + rest;
    TwoColons(Trim(u.0), System(upper, u), rest, Trim(v.0), System(upper, v));
  }

  lemma TwoColons(a: string, b: string, rest: string, c: string, d: string)
    requires ':' !in a && ':' !in b && ':' !in c && ':' !in d && a + ":" + b + ":" + rest == c + ":" + d + ":"
    ensures a == c && b == d
  {
    assert a + ":" + b + ":" + rest == a + [':'] + (b + [':'] + rest);
    assert c + ":" + d + ":" == c + [':'] + (d + [':'] + "");
    SplitUnique(':', a, b + [':'] + rest, c, d + [':'] + "");
    SplitUnique(':', b, rest, d, "");
  }

  /** In particular names without colons are separated. */
  lemma ResolversAreInverse(upper: Upper)
    ensures InverseOver(upper, iset u: Pair | ColonFree(upper, u))
  {
    var uses := iset u: Pair | ColonFree(upper, u);
    forall u, v | u in uses && v in uses ensures Apart(upper, u, v) {
      if Extends(Prefix(upper, u), Prefix(upper, v)) {
        ColonFreeApart(upper, u, v);
      } else if Extends(Prefix(upper, v), Prefix(upper, u)) {
        ColonFreeApart(upper, v, u);
      }
    }
    InverseExactly(upper, uses);
  }

  /** The external identifiers that are accepted, exactly: 3 to 128 characters, no wildcard, not all the same. */
  lemma IdAcceptedExactly(id: string)
    ensures IdFault(id).None? <==>
      && 3 <= |id| <= 128 && (exists i, j | 0 <= i < |id| && 0 <= j < |id| :: id[i] != id[j])
      && forall c | c in id :: c !in {'*', '?', '%', '<', '>', '$', '\\', '/', ';', '"', '\''}
  {
    WildcardSet();
    AllSameExactly(id);
    assert (exists i | 0 <= i < |id| :: id[i] in WILDCARDS) <==> exists c | c in id :: c in WILDCARDS;
  }

  lemma AllSameExactly(s: string)
    ensures AllSame(s) <==> forall i, j | 0 <= i < |s| && 0 <= j < |s| :: s[i] == s[j]
  {
    if AllSame(s) {
      assert forall i | 0 <= i < |s| :: i == 0 || s[i] == s[0];
    } else {
      var i :| 1 <= i < |s| && s[i] != s[0];
    }
  }

  lemma WildcardSet()
    ensures forall c :: c in WILDCARDS <==> c in {'*', '?', '%', '<', '>', '$', '\\', '/', ';', '"', '\''}
  {}

  /** The identifier is free or already resolves to this one. */
  ghost predicate FreeOr(r: Result<string, RefError>, id: string) { r == Err(NotFound) || r == Ok(id) }

  /** Under separated pairs a registration is accepted exactly when well formed and neither side is mapped otherwise. */
  lemma RegisteredExactly(upper: Upper, uses: iset<Pair>, s: State, r: Registration)
    requires Valid(upper, uses, s) && Separated(upper, uses) && (r.tenant, r.system) in uses
    ensures Fault(upper, s, r).None? <==>
      && Trim(r.tenant) != "" && upper(Trim(r.system)) != "" && IdFault(Trim(r.externalId)).None?
      && Trim(r.internalId) != ""
      && FreeOr(ResolveExternal(upper, s, r.tenant, r.system, r.externalId), Trim(r.internalId))
      && FreeOr(ResolveInternal(upper, s, r.tenant, r.system, r.internalId), Trim(r.externalId))
  {
    var u, x := (r.tenant, r.system), Normal(upper, r);
    var f, q := ForwardKey(upper, x), ReverseKey(upper, x);
    if ArgumentFault(x).Some? {
      return;
    }
    NormalFits(upper, r);
    FitsKeys(upper, u, x);
    KeyText(upper, u, r.externalId);
    KeyText(upper, u, r.internalId);
    TrimIdempotent(r.externalId);
    TrimIdempotent(r.internalId);
    if f in s.forward {
      assert ForwardValid(upper, uses, s, f);
      var y := s.forward[f];
      var v :| v in uses && Fits(upper, v, y);
      FitsKeys(upper, v, y);
      assert Apart(upper, u, v);
      KeysTellApart(upper, u, v, x.externalId, y.externalId);
      assert y.internalId == x.internalId ==> ReverseKey(upper, y) == q;
    }
  }

  /** An accepted registration under separated pairs resolves both ways in every later state. */
  lemma AcceptedResolvesForever(upper: Upper, uses: iset<Pair>, s: State, r: Registration, ops: seq<Registration>)
    requires Valid(upper, uses, s) && Separated(upper, uses) && (r.tenant, r.system) in uses && Fault(upper, s, r).None?
    ensures var t := Run(upper, Step(upper, s, r), ops);
      && ResolveExternal(upper, t, r.tenant, r.system, r.externalId) == Ok(Trim(r.internalId))
      && ResolveInternal(upper, t, r.tenant, r.system, r.internalId) == Ok(Trim(r.externalId))
  {
    var u, x, p := Step(upper, s, r), Normal(upper, r), (r.tenant, r.system);
    var f := ForwardKey(upper, x);
    NormalFits(upper, r);
    FitsKeys(upper, p, x);
    KeyText(upper, p, r.externalId);
    KeyText(upper, p, r.internalId);
    StepValid(upper, uses, s, r);
    assert ForwardValid(upper, uses, u, f);
    var y := u.forward[f];
    var v :| v in uses && Fits(upper, v, y);
    FitsKeys(upper, v, y);
    assert Apart(upper, p, v);
    KeysTellApart(upper, p, v, x.externalId, y.externalId);
    MappingsNeverChange(upper, u, ops, f);
    MappingsNeverChange(upper, u, ops, ReverseKey(upper, x));
  }

  /** Tenant "a:B" registers under system "C"; tenant "a" reads it back under system "B". */
  lemma InternalCrossesTenants(upper: Upper, x: string, i: string)
    requires upper("B") == "B" && upper("C") == "C" && Trim(x) == x && Trim(i) == i != "" && IdFault(x).None?
    ensures
      var s := Run(upper, Empty, [Registration("a:B", "C", x, i)]);
      ResolveInternal(upper, s, "a", "B", "C:" + i) == Ok(x) && ResolveExternal(upper, s, "a", "B", x) == Err(NotFound)
  {
    TrimFixed("a");
    TrimFixed("a:B");
    TrimFixed("B");
    TrimFixed("C");
    var u, v := ("a", "B"), ("a:B", "C");
    assert Prefix(upper, u) == "a:B:" && Prefix(upper, v) == "a:B:C:";
    assert "a:B:C:"[..4] == "a:B:" && "a:B:C:"[4..] == "C:" && !IsSpace('C');
    LongerPrefixLeaks(upper, u, v, x, i);
  }

  /**
   Registering under system `b:c` makes `c:x` resolve under system `b` of the same tenant, where it does not resolve
   back.
   */
  lemma ColonsBreakTheInverse(upper: Upper, a: string, b: string, c: string, x: string, i: string)
    requires Trim(a) == a && Trim(b) == b && Trim(x) == x && Trim(i) == i
    requires Trim(b + ":" + c) == b + ":" + c && Trim(c + ":" + x) == c + ":" + x
    requires upper(b + ":" + c) == b + ":" + c && upper(b) == b
    requires ArgumentFault(Ref(a, b + ":" + c, x, i)).None?
    ensures
      var s := Run(upper, Empty, [Registration(a, b + ":" + c, x, i)]);
      ResolveExternal(upper, s, a, b, c + ":" + x) == Ok(i) && ResolveInternal(upper, s, a, b, i) == Err(NotFound)
  {
    var u, v := (a, b), (a, b + ":" + c);
    FirstRegistered(upper, v, x, i);
    KeyText(upper, u, c + ":" + x);
    KeyText(upper, u, i);
    Regroup(a, b, c, x);
    assert |Prefix(upper, v) + i| != |Prefix(upper, u) + i|;
  }

  lemma Regroup(a: string, b: string, c: string, x: string)
    ensures a + ":" + (b + ":" + c) + ":" + x == a + ":" + b + ":" + (c + ":" + x)
  {}

  method ValidateExternalId(id: string) returns (fault: Option<RefError>)
    ensures fault == IdFault(Trim(id))
  {
    var t := Trim(id);
    if |t| < 3 {
      return Some(TooShort);
    }
    if |t| > 128 {
      return Some(TooLong);
    }
    if exists i | 0 <= i < |t| :: t[i] in WILDCARDS {
      return Some(Enumeration);
    }
    var allSame, i := true, 1;
    while i < |t|
      invariant 1 <= i <= |t|
      invariant allSame <==> forall j | 1 <= j < i :: t[j] == t[0]
    {
      if t[i] != t[0] {
        allSame := false;
        break;
      }
      i := i + 1;
    }
    if allSame {
      return Some(Enumeration);
    }
    return None;
  }

  class ExternalRefRegistry {
    var forward: map<string, Ref>
    var reverse: map<string, string>

    ghost function Model(): State
      reads this
    {
      State(forward, reverse)
    }

    constructor ()
      ensures Model() == Empty
    {
      forward, reverse := map[], map[];
    }

    method RegisterExternalRef(upper: Upper, tenant: string, system: string, externalId: string, internalId: string)
      returns (fault: Option<RefError>)
      modifies this
      ensures fault == Fault(upper, old(Model()), Registration(tenant, system, externalId, internalId))
      ensures Model() == Step(upper, old(Model()), Registration(tenant, system, externalId, internalId))
    {
      var x := Ref(Trim(tenant), upper(Trim(system)), Trim(externalId), Trim(internalId));
      TrimIdempotent(externalId);
      if x.tenant == "" {
        return Some(EmptyTenantId);
      }
      if x.system == "" {
        return Some(BlankSystem);
      }
      var bad := ValidateExternalId(x.externalId);
      if bad.Some? {
        return bad;
      }
      if x.internalId == "" {
        return Some(BlankIdentifier);
      }
      fault := Store(upper, x);
    }

    method Store(upper: Upper, x: Ref) returns (fault: Option<RefError>)
      modifies this
      ensures fault == MappingFault(upper, old(Model()), x)
      ensures Model() == if fault.Some? then old(Model()) else Add(upper, old(Model()), x)
    {
      var f, r := Key(upper, x.tenant, x.system, x.externalId), Key(upper, x.tenant, x.system, x.internalId);
      if f in forward {
        if forward[f].internalId == x.internalId {
          return None;
        }
        return Some(DuplicateRef);
      }
      if r in reverse && reverse[r] != x.externalId {
        return Some(ConflictingRef);
      }
      forward := forward[f := x];
      reverse := reverse[r := x.externalId];
      return None;
    }
  }
}
