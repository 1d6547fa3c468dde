/**
 Export manifests of committed evidence: their items, total and root digest, and the verification of
 a manifest against a set of payloads.
 */
module ExportManifest {
  import opened Results
  import opened Text
  import opened Clock
  import opened Sorting
  import opened CustodyChain
  import opened Evidence

  datatype Item = Item(
      id: string, original: bool, parent: string, derivation: string, media: string, size: int, digest: string)

  datatype Manifest = Manifest(
      exportId: string, tenant: string, exporter: string, items: seq<Item>, root: string, total: int)

  function ItemOf(r: Record): Item { Item(r.id, r.original, r.parent, r.derivation, r.media, r.size, r.digest) }

  /** An item describes its record; two records of the same description have the same item. */
  lemma ItemDescribes(r: Record)
    ensures
      var it := ItemOf(r);
      && it.id == r.id && it.original == r.original && it.parent == r.parent && it.derivation == r.derivation
      && it.media == r.media && it.size == r.size && it.digest == r.digest
  {}

  /** The items list what the first identifiers of an export stand for, all of them committed. */
  ghost predicate ItemsAre(m: Manager, tenant: string, ids: seq<string>, items: seq<Item>) {
    |items| <= |ids| && forall i | 0 <= i < |items| :: ItemIs(m, (tenant, ids[i]), items[i])
  }

  ghost predicate ItemIs(m: Manager, k: Key, it: Item) { Exportable(m, k.0, k.1) && it == ItemOf(m.records[k]) }

  function TotalSize(items: seq<Item>): int {
    if items == [] then 0 else TotalSize(items[..|items| - 1]) + items[|items| - 1].size
  }

  // ---- the root digest ----

  function LineParts(it: Item): seq<string> {
    [it.id, if it.original then "ORIGINAL" else "DERIVED", it.parent, it.digest, Signed(it.size)]
  }

  function Line(it: Item): string { Join(':', LineParts(it)) + "\n" }

  function Lines(items: seq<Item>): string {
    if items == [] then "" else Lines(items[..|items| - 1]) + Line(items[|items| - 1])
  }

  function ById(): (Item, Item) -> bool { ByKey((it: Item) => it.id) }

  /** `root` is the digest of the lines of `items` in some order sorted by identifier. */
  ghost predicate IsRoot(hash: Hash, items: seq<Item>, root: string) {
    exists sorted :: SortedFrom(items, sorted) && root == hash(Lines(sorted))
  }

  ghost predicate SortedFrom(items: seq<Item>, sorted: seq<Item>) {
    Sorted(ById(), sorted) && multiset(sorted) == multiset(items)
  }

  /** Items with the same identifier are the same item. */
  ghost predicate Consistent(items: seq<Item>) { forall x, y | x in items && y in items :: x.id == y.id ==> x == y }

  /** The root digest does not depend on the order of the items. */
  lemma RootIgnoresOrder(hash: Hash, a: seq<Item>, b: seq<Item>, r: string, q: string)
    requires Consistent(a) && multiset(a) == multiset(b)
    requires IsRoot(hash, a, r) && IsRoot(hash, b, q)
    ensures r == q
  {
    var x :| SortedFrom(a, x) && r == hash(Lines(x));
    var y :| SortedFrom(b, y) && q == hash(Lines(y));
    forall u, v | u in x && v in x ensures u == v || ById()(u, v) || ById()(v, u) {
      assert u in multiset(a) && v in multiset(a);
      LessTrichotomy(u.id, v.id);
    }
    SortedUnique(ById(), x, y);
  }

  /** Fields that cannot be taken for a separator. */
  ghost predicate Plain(it: Item) {
    && ':' !in it.id && ':' !in it.parent && ':' !in it.digest
    && '\n' !in it.id && '\n' !in it.parent && '\n' !in it.digest
  }

  /** What a line tells: all of an item but its derivation and media type. */
  ghost predicate SameLine(x: Item, y: Item) {
    x.id == y.id && x.original == y.original && x.parent == y.parent && x.digest == y.digest && x.size == y.size
  }

  lemma LineOnce(it: Item)
    requires Plain(it)
    ensures '\n' !in Join(':', LineParts(it)) && Splittable(':', LineParts(it))
  {
    SignedPlain(it.size);
    JoinFree(':', LineParts(it), '\n');
  }

  lemma SignedPlain(n: int)
    ensures '\n' !in Signed(n)
  {
    assert '\n' !in Dec(if n < 0 then -n else n);
  }

  lemma LineBinds(x: Item, y: Item)
    requires Plain(x) && Plain(y) && Join(':', LineParts(x)) == Join(':', LineParts(y))
    ensures SameLine(x, y)
  {
    LineOnce(x);
    LineOnce(y);
    var p, q := LineParts(x), LineParts(y);
    JoinInjective(':', p, q);
    assert p[0] == q[0] && p[1] == q[1] && p[2] == q[2] && p[3] == q[3] && p[4] == q[4];
    assert p[1][0] == q[1][0];
    SignedInjective(x.size, y.size);
  }

  lemma {:induction false} LinesFirst(items: seq<Item>)
    requires items != []
    ensures Lines(items) == Line(items[0]) + Lines(items[1..])
  {
    var n := |items| - 1;
    if n > 0 {
      LinesFirst(items[..n]);
      assert items[..n][1..] == items[1..][..n - 1];
    }
  }

  lemma HeadsBind(x: seq<Item>, y: seq<Item>)
    requires x != [] && y != [] && Plain(x[0]) && Plain(y[0]) && Lines(x) == Lines(y)
    ensures SameLine(x[0], y[0]) && Lines(x[1..]) == Lines(y[1..])
  {
    LinesFirst(x);
    LinesFirst(y);
    LineOnce(x[0]);
    LineOnce(y[0]);
    LineSplits(Join(':', LineParts(x[0])), Lines(x[1..]), Join(':', LineParts(y[0])), Lines(y[1..]));
    LineBinds(x[0], y[0]);
  }

  lemma LineSplits(a: string, r: string, b: string, q: string)
    requires '\n' !in a && '\n' !in b && a + "\n" + r == b + "\n" + q
    ensures a == b && r == q
  {
    assert a + "\n" + r == a + ['\n'] + r && b + "\n" + q == b + ['\n'] + q;
    SplitUnique('\n', a, r, b, q);
  }

  ghost predicate AllPlain(items: seq<Item>) { forall i | 0 <= i < |items| :: Plain(items[i]) }

  ghost predicate SameLineAt(x: seq<Item>, y: seq<Item>, i: nat) { i < |x| && i < |y| && SameLine(x[i], y[i]) }

  lemma {:induction false} LinesBind(x: seq<Item>, y: seq<Item>, i: nat)
    requires AllPlain(x) && AllPlain(y) && Lines(x) == Lines(y)
    ensures |x| == |y| && (i < |x| ==> SameLineAt(x, y, i))
    decreases |x|
  {
    if x != [] && y != [] {
      HeadsBind(x, y);
      LinesBind(x[1..], y[1..], if i > 0 then i - 1 else 0);
    } else {
      if x != [] { LinesFirst(x); }
      if y != [] { LinesFirst(y); }
    }
  }

  /**
   Equal roots mean, item by item in identifier order, the same identifier, kind, parent, digest and size, given no
   collision and plain fields.  The media type and the derivation are not covered.
   */
  lemma RootBindsItems(hash: Hash, a: seq<Item>, b: seq<Item>, root: string) returns (x: seq<Item>, y: seq<Item>)
    requires IsRoot(hash, a, root) && IsRoot(hash, b, root)
    requires (forall it | it in a :: Plain(it)) && (forall it | it in b :: Plain(it))
    requires forall u, v | SortedFrom(a, u) && SortedFrom(b, v)
      && hash(Lines(u)) == hash(Lines(v)) :: Lines(u) == Lines(v)
    ensures SortedFrom(a, x) && SortedFrom(b, y) && |x| == |y| && forall i | 0 <= i < |x| :: SameLineAt(x, y, i)
  {
    x :| SortedFrom(a, x) && root == hash(Lines(x));
    y :| SortedFrom(b, y) && root == hash(Lines(y));
    assert forall i | 0 <= i < |x| :: x[i] in multiset(a);
    assert forall i | 0 <= i < |y| :: y[i] in multiset(b);
    LinesBind(x, y, 0);
    forall i | 0 <= i < |x| ensures SameLineAt(x, y, i) {
      LinesBind(x, y, i);
    }
  }

  method ComputeRootDigest(hash: Hash, items: seq<Item>) returns (root: string)
    ensures IsRoot(hash, items, root)
  {
    ByKeyWeakOrder((it: Item) => it.id);
    var sorted := Sort(ById(), items);
    var text := "";
    for n := 0 to |sorted|
      invariant text == Lines(sorted[..n])
    {
      assert sorted[..n + 1][..n] == sorted[..n];
      text := text + Line(sorted[n]);
    }
    assert sorted[..|sorted|] == sorted;
    assert SortedFrom(items, sorted);
    root := hash(text);
  }

  // ---- verification ----

  predicate Matches(env: Env, it: Item, payloads: map<string, Payload>) {
    it.id in payloads && |payloads[it.id]| == it.size && env.digest(payloads[it.id]) == it.digest
  }

  ghost predicate AllMatch(env: Env, items: seq<Item>, payloads: map<string, Payload>) {
    forall i | 0 <= i < |items| :: Matches(env, items[i], payloads)
  }

  /** The manifest is not empty, its root is right and all payloads match. */
  ghost predicate Verifies(env: Env, man: Manifest, payloads: map<string, Payload>) {
    man.items != [] && IsRoot(env.hash, man.items, man.root) && AllMatch(env, man.items, payloads)
  }

  /** Two manifests that verify under one root list the same lines, and at least one. */
  lemma VerifiedItemsBound(env: Env, a: Manifest, b: Manifest, p: map<string, Payload>, q: map<string, Payload>)
    returns (x: seq<Item>, y: seq<Item>)
    requires Verifies(env, a, p) && Verifies(env, b, q) && a.root == b.root
    requires (forall it | it in a.items :: Plain(it)) && (forall it | it in b.items :: Plain(it))
    requires forall u, v | SortedFrom(a.items, u) && SortedFrom(b.items, v)
      && env.hash(Lines(u)) == env.hash(Lines(v)) :: Lines(u) == Lines(v)
    ensures SortedFrom(a.items, x) && SortedFrom(b.items, y) && |x| == |y| > 0
    ensures forall i | 0 <= i < |x| :: SameLineAt(x, y, i)
  {
    x, y := RootBindsItems(env.hash, a.items, b.items, a.root);
    assert |x| == |multiset(x)| == |multiset(a.items)| == |a.items|;
  }

  /** Accepts only what verifies, and all of it when no two items contradict each other. */
  method VerifyExportManifest(env: Env, man: Manifest, payloads: map<string, Payload>) returns (ok: bool)
    ensures ok ==> Verifies(env, man, payloads)
    ensures Consistent(man.items) && Verifies(env, man, payloads) ==> ok
  {
    if |man.items| == 0 {
      return false;
    }
    var root := ComputeRootDigest(env.hash, man.items);
    if man.root != root {
      if Consistent(man.items) && IsRoot(env.hash, man.items, man.root) {
        RootIgnoresOrder(env.hash, man.items, man.items, man.root, root);
      }
      return false;
    }
    for n := 0 to |man.items|
      invariant forall i | 0 <= i < n :: Matches(env, man.items[i], payloads)
    {
      if !Matches(env, man.items[n], payloads) {
        return false;
      }
    }
    return true;
  }

  // ---- what a manifest proves ----

  /** The manifest that a successful export returns. */
  ghost predicate Exports(env: Env, m: Manager, op: Op, man: Manifest) {
    && op.Export? && ExportArgumentFault(op).None?
    && |man.items| == |op.items| && ItemsAre(m, Trim(op.tenant), op.items, man.items)
       && man.total == TotalSize(man.items) && IsRoot(env.hash, man.items, man.root)
    && man.tenant == Trim(op.tenant) && man.exportId == Trim(op.id) && man.exporter == op.actor
  }

  lemma ExportedItem(env: Env, t: Trace, op: Op, man: Manifest, i: nat)
    requires Valid(env, t) && Exports(env, t.m, op, man) && i < |man.items|
    ensures var k := (man.tenant, man.items[i].id);
      && k in t.m.records && t.m.records[k].committed && man.items[i] == ItemOf(t.m.records[k])
      && CommitValid(env, t.m.records[k], t.paid, k)
  {
    assert ItemIs(t.m, (Trim(op.tenant), op.items[i]), man.items[i]);
    assert RecordValid(env, t, (Trim(op.tenant), op.items[i]));
  }

  lemma ExportedConsistent(env: Env, t: Trace, op: Op, man: Manifest)
    requires Valid(env, t) && Exports(env, t.m, op, man)
    ensures Consistent(man.items) && man.items != []
  {
    forall x, y | x in man.items && y in man.items && x.id == y.id ensures x == y {
      var i :| 0 <= i < |man.items| && man.items[i] == x;
      var j :| 0 <= j < |man.items| && man.items[j] == y;
      ExportedItem(env, t, op, man, i);
      ExportedItem(env, t, op, man, j);
    }
  }

  /** `payloads` holds what each item was committed with. */
  ghost predicate SuppliedWith(t: Trace, man: Manifest, payloads: map<string, Payload>) {
    forall i | 0 <= i < |man.items| :: Supplied(t, man, payloads, man.items[i].id)
  }

  ghost predicate Supplied(t: Trace, man: Manifest, payloads: map<string, Payload>, id: string) {
    (man.tenant, id) in t.paid && id in payloads && payloads[id] == t.paid[(man.tenant, id)]
  }

  /**
   With the committed payloads a manifest verifies exactly when every derived item was committed at its declared size.
   */
  lemma ManifestVerifiesExactly(env: Env, t: Trace, op: Op, man: Manifest, payloads: map<string, Payload>)
    requires Valid(env, t) && Exports(env, t.m, op, man) && SuppliedWith(t, man, payloads)
    ensures Verifies(env, man, payloads) <==>
      forall i | 0 <= i < |man.items| :: man.items[i].original || |payloads[man.items[i].id]| == man.items[i].size
  {
    ExportedConsistent(env, t, op, man);
    forall i | 0 <= i < |man.items|
      ensures Matches(env, man.items[i], payloads) <==>
        man.items[i].original || |payloads[man.items[i].id]| == man.items[i].size
    {
      ExportedItem(env, t, op, man, i);
      assert Supplied(t, man, payloads, man.items[i].id);
    }
  }

  /** No other payloads verify, short of a collision with a committed payload. */
  lemma OnlyCommittedPayloadsVerify(env: Env, t: Trace, op: Op, man: Manifest, payloads: map<string, Payload>)
    requires Valid(env, t) && Exports(env, t.m, op, man) && Verifies(env, man, payloads)
    requires forall id, k | id in payloads && k in t.paid :: env.digest(payloads[id]) == env.digest(t.paid[k]) ==>
      payloads[id] == t.paid[k]
    ensures SuppliedWith(t, man, payloads)
  {
    forall i | 0 <= i < |man.items| ensures Supplied(t, man, payloads, man.items[i].id) {
      ExportedItem(env, t, op, man, i);
      assert Matches(env, man.items[i], payloads);
    }
  }

  /**
   A manifest stays what it was: after any further calls the same export has the same items and committed payloads.
   */
  lemma {:induction false} ManifestOutlivesRuns(env: Env, t: Trace, op: Op, man: Manifest, ops: seq<Op>, i: nat)
    requires Valid(env, t) && Exports(env, t.m, op, man) && i < |man.items|
    ensures var u, k := Run(env, t, ops), (man.tenant, man.items[i].id);
      k in u.m.records && man.items[i] == ItemOf(u.m.records[k]) && k in t.paid && k in u.paid && u.paid[k] == t.paid[k]
  {
    ExportedItem(env, t, op, man, i);
    CommittedForever(env, t, ops, (man.tenant, man.items[i].id));
  }

  /**
   Committing a derived object does not look at its size: the declared size is kept, and no manifest of it verifies
   with that payload.
   */
  lemma DerivedSizeUnchecked(env: Env, m: Manager, op: Op, payloads: map<string, Payload>)
    requires op.CommitDerived? && KeyOf(op) in m.records
    requires var rec := m.records[KeyOf(op)];
      !rec.original && !rec.committed && env.digest(op.payload) == rec.digest && |op.payload| != rec.size
    ensures Judge(env, m, op).error == None && Exportable(Step(env, m, op), KeyOf(op).0, KeyOf(op).1)
    ensures var rec := Step(env, m, op).records[KeyOf(op)];
      rec.id in payloads && payloads[rec.id] == op.payload ==> !Matches(env, ItemOf(rec), payloads)
  {}
}
