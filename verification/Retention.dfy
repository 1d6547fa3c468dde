/**
 Retention policies, legal holds with their per-record index, and backup and restore of a record
 store with its holds.  The JSON encoding of an archive and SHA-256 are abstract functions.
 */
module Retention {
  import opened Results
  import opened Text
  import opened Clock
  import RecordAudit

  datatype Policy = Policy(id: string, tenant: string, kind: string, period: Duration, createdAt: Time)

  datatype Hold = Hold(
    id: string, tenant: string, record: string, reason: string, placedBy: string, placedAt: Time, active: bool,
    releasedAt: Option<Time>, releasedBy: string)

  datatype RetentionError =
    | BlankPolicyId | BlankTenantId | BlankRecordType | DuplicatePolicy | BlankHoldId | BlankRecordId | DuplicateHoldId
    | RecordNotFound | HoldNotFound | CrossTenantAccess | ActiveLegalHold | RetentionPeriodActive | NotEncodable
    | BackupTampered

  /** `index` lists, under each record key, the holds placed on the record. */
  datatype Manager = Manager(
    store: RecordAudit.Store, policies: map<string, Policy>, holds: map<string, Hold>, index: map<string, seq<string>>)

  function HoldKey(h: Hold): string { PairKey(h.tenant, h.record) }

  // ---- the operations ----

  function PolicyFault(m: Manager, p: Policy): Option<RetentionError> {
    if Trim(p.id) == "" then Some(BlankPolicyId)
    else if Trim(p.tenant) == "" then Some(BlankTenantId)
    else if Trim(p.kind) == "" then Some(BlankRecordType)
    else if PairKey(p.tenant, p.kind) in m.policies then Some(DuplicatePolicy)
    else None
  }

  function AddPolicy(m: Manager, p: Policy): Manager {
    var stored := p.(id := Trim(p.id), tenant := Trim(p.tenant), kind := Trim(p.kind));
    m.(policies := m.policies[PairKey(p.tenant, p.kind) := stored])
  }

  function PlaceFault(m: Manager, h: Hold): Option<RetentionError> {
    if Trim(h.id) == "" then Some(BlankHoldId)
    else if Trim(h.tenant) == "" then Some(BlankTenantId)
    else if Trim(h.record) == "" then Some(BlankRecordId)
    else if Trim(h.id) in m.holds then Some(DuplicateHoldId)
    else if HoldKey(h) !in m.store.records then Some(RecordNotFound)
    else None
  }

  function Placed(h: Hold): Hold {
    Hold(Trim(h.id), Trim(h.tenant), Trim(h.record), Trim(h.reason), Trim(h.placedBy), h.placedAt, true, None, "")
  }

  function Indexed(m: Manager, key: string): seq<string> { if key in m.index then m.index[key] else [] }

  function AddHold(m: Manager, key: string, h: Hold): Manager {
    m.(holds := m.holds[h.id := h], index := m.index[key := Indexed(m, key) + [h.id]])
  }

  function ReleaseFault(m: Manager, tenant: string, id: string): Option<RetentionError> {
    if Trim(id) !in m.holds then Some(HoldNotFound)
    else if m.holds[Trim(id)].tenant != Trim(tenant) then Some(CrossTenantAccess)
    else None
  }

  function Released(m: Manager, id: string, actor: string, now: Time): Manager
    requires id in m.holds
  {
    m.(holds := m.holds[id := m.holds[id].(active := false, releasedAt := Some(now), releasedBy := actor)])
  }

  /** Calls on the manager and on the record store it shares. */
  datatype Op =
    | PolicyOp(p: Policy)
    | PlaceOp(h: Hold)
    | ReleaseOp(tenant: string, id: string, actor: string, now: Time)
    | RecordOp(r: RecordAudit.Op)
    | AskOp(tenant: string, record: string, at: Time)

  function Step(m: Manager, op: Op): Manager {
    match op
    case PolicyOp(p) => if PolicyFault(m, p).Some? then m else AddPolicy(m, p)
    case PlaceOp(h) => if PlaceFault(m, h).Some? then m else AddHold(m, HoldKey(h), Placed(h))
    case ReleaseOp(tenant, id, actor, now) => if ReleaseFault(m, tenant, id).Some? then m
      else Released(m, Trim(id), Trim(actor), now)
    case RecordOp(r) => m.(store := RecordAudit.Step(m.store, r))
    case AskOp(_, _, _) => m
  }

  function Run(m: Manager, ops: seq<Op>): Manager
    decreases |ops|
  {
    if ops == [] then m else Run(Step(m, ops[0]), ops[1..])
  }

  // ---- deletion ----

  predicate HoldActive(m: Manager, id: string) { id in m.holds && m.holds[id].active }

  /** The retention rule on its own. */
  predicate Retained(m: Manager, tenant: string, key: string, at: Time)
    requires key in m.store.records
  {
    var rec := m.store.records[key];
    var policy := PairKey(tenant, rec.kind);
    policy in m.policies && m.policies[policy].period > 0 && at < rec.createdAt + m.policies[policy].period
  }

  /** Why a record may not be deleted, read off the index. */
  function DeleteFault(m: Manager, tenant: string, record: string, at: Time): Option<RetentionError> {
    var key := PairKey(tenant, record);
    if key !in m.store.records then Some(RecordNotFound)
    else if exists i | 0 <= i < |Indexed(m, key)| :: HoldActive(m, Indexed(m, key)[i]) then Some(ActiveLegalHold)
    else if Retained(m, tenant, key, at) then Some(RetentionPeriodActive)
    else None
  }

  /** Some hold in the whole register is active on the record. */
  ghost predicate Held(m: Manager, key: string) {
    exists id :: HoldActive(m, id) && HoldKey(m.holds[id]) == key
  }

  /** The same question answered by a scan over every hold. */
  ghost function ScanFault(m: Manager, tenant: string, record: string, at: Time): Option<RetentionError> {
    var key := PairKey(tenant, record);
    if key !in m.store.records then Some(RecordNotFound)
    else if Held(m, key) then Some(ActiveLegalHold)
    else if Retained(m, tenant, key, at) then Some(RetentionPeriodActive)
    else None
  }

  // ---- the index ----

  ghost predicate HoldIndexed(m: Manager, id: string) {
    id in m.holds ==> m.holds[id].id == id && (m.holds[id].active ==> id in Indexed(m, HoldKey(m.holds[id])))
  }

  ghost predicate IndexSound(m: Manager, key: string, id: string) {
    id in Indexed(m, key) ==> id in m.holds && HoldKey(m.holds[id]) == key
  }

  /** Every active hold is listed under its record, and nothing is listed under another record. */
  ghost predicate Valid(m: Manager) {
    (forall id :: HoldIndexed(m, id)) && (forall key, id :: IndexSound(m, key, id))
  }

  lemma AddHoldValid(m: Manager, key: string, h: Hold)
    requires Valid(m) && h.id !in m.holds && HoldKey(h) == key
    ensures Valid(AddHold(m, key, h))
  {
    var t := AddHold(m, key, h);
    forall id ensures HoldIndexed(t, id) {
      assert HoldIndexed(m, id);
    }
    forall k, id ensures IndexSound(t, k, id) {
      assert IndexSound(m, k, id);
    }
  }

  lemma ReleasedValid(m: Manager, id: string, actor: string, now: Time)
    requires Valid(m) && id in m.holds
    ensures Valid(Released(m, id, actor, now))
  {
    var t := Released(m, id, actor, now);
    forall j ensures HoldIndexed(t, j) {
      assert HoldIndexed(m, j);
    }
    forall k, j ensures IndexSound(t, k, j) {
      assert IndexSound(m, k, j);
    }
  }

  lemma SameHoldsValid(m: Manager, t: Manager)
    requires Valid(m) && t.holds == m.holds && t.index == m.index
    ensures Valid(t)
  {
    forall j ensures HoldIndexed(t, j) {
      assert HoldIndexed(m, j);
    }
    forall k, j ensures IndexSound(t, k, j) {
      assert IndexSound(m, k, j);
    }
  }

  lemma StepValid(m: Manager, op: Op)
    requires Valid(m)
    ensures Valid(Step(m, op))
  {
    match op {
      case PlaceOp(h) =>
        if PlaceFault(m, h).None? {
          TrimIdempotent(h.tenant);
          TrimIdempotent(h.record);
          AddHoldValid(m, HoldKey(h), Placed(h));
        }
      case ReleaseOp(tenant, id, actor, now) =>
        if ReleaseFault(m, tenant, id).None? {
          ReleasedValid(m, Trim(id), Trim(actor), now);
        }
      case _ => SameHoldsValid(m, Step(m, op));
    }
  }

  lemma {:induction false} RunValid(m: Manager, ops: seq<Op>)
    requires Valid(m)
    ensures Valid(Run(m, ops))
    decreases |ops|
  {
    if ops != [] {
      StepValid(m, ops[0]);
      RunValid(Step(m, ops[0]), ops[1..]);
    }
  }

  /** The index answers as the full scan would. */
  lemma IndexAgreesWithScan(m: Manager, tenant: string, record: string, at: Time)
    requires Valid(m)
    ensures DeleteFault(m, tenant, record, at) == ScanFault(m, tenant, record, at)
  {
    var key := PairKey(tenant, record);
    var list := Indexed(m, key);
    if i :| 0 <= i < |list| && HoldActive(m, list[i]) {
      assert IndexSound(m, key, list[i]);
    }
    if Held(m, key) {
      var id :| HoldActive(m, id) && HoldKey(m.holds[id]) == key;
      assert HoldIndexed(m, id);
      assert id in list;
    }
  }

  /** No call in the sequence releases the hold. */
  ghost predicate Unreleased(ops: seq<Op>, id: string) {
    forall i | 0 <= i < |ops| && ops[i].ReleaseOp? :: Trim(ops[i].id) != id
  }

  /** An active hold blocks deletion of its record, whatever else happens, until it is released. */
  lemma {:induction false} HoldBlocksUntilReleased(m: Manager, ops: seq<Op>, id: string, tenant: string,
      record: string, at: Time)
    requires Valid(m) && HoldActive(m, id) && HoldKey(m.holds[id]) == PairKey(tenant, record)
    requires PairKey(tenant, record) in m.store.records && Unreleased(ops, id)
    ensures DeleteFault(Run(m, ops), tenant, record, at) == Some(ActiveLegalHold)
    decreases |ops|
  {
    if ops == [] {
      IndexAgreesWithScan(m, tenant, record, at);
    } else {
      StepValid(m, ops[0]);
      HoldOutlastsStep(m, ops[0], id, PairKey(tenant, record));
      HoldBlocksUntilReleased(Step(m, ops[0]), ops[1..], id, tenant, record, at);
    }
  }

  lemma HoldOutlastsStep(m: Manager, op: Op, id: string, key: string)
    requires HoldActive(m, id) && key in m.store.records && (op.ReleaseOp? ==> Trim(op.id) != id)
    ensures HoldActive(Step(m, op), id) && HoldKey(Step(m, op).holds[id]) == HoldKey(m.holds[id])
      && key in Step(m, op).store.records
  {
    if op.RecordOp? {
      RecordsStay(m.store, op.r, key);
    }
  }

  lemma RecordsStay(s: RecordAudit.Store, r: RecordAudit.Op, key: string)
    requires key in s.records
    ensures key in RecordAudit.Step(s, r).records
  {}

  // ---- the retention rule over runs ----

  /** A record declared at `since` with this kind is stored under the key. */
  ghost predicate Declared(m: Manager, key: string, kind: string, since: Time) {
    key in m.store.records && m.store.records[key].kind == kind && m.store.records[key].createdAt == since
  }

  /** A policy of this period stands for the tenant and kind. */
  ghost predicate Ruled(m: Manager, tenant: string, kind: string, period: Duration) {
    PairKey(tenant, kind) in m.policies && m.policies[PairKey(tenant, kind)].period == period
  }

  lemma StoreKeepsOrigin(s: RecordAudit.Store, r: RecordAudit.Op, key: string)
    requires key in s.records
    ensures key in RecordAudit.Step(s, r).records
    ensures RecordAudit.Step(s, r).records[key].kind == s.records[key].kind
    ensures RecordAudit.Step(s, r).records[key].createdAt == s.records[key].createdAt
  {
    if RecordAudit.Fault(s, r).None? {
      WriteKeepsOrigin(s, r, key);
    }
  }

  lemma WriteKeepsOrigin(s: RecordAudit.Store, r: RecordAudit.Op, key: string)
    requires key in s.records && RecordAudit.StateFault(s, r).None?
    ensures key in RecordAudit.Applied(s, r).records
    ensures RecordAudit.Applied(s, r).records[key].kind == s.records[key].kind
    ensures RecordAudit.Applied(s, r).records[key].createdAt == s.records[key].createdAt
  {}

  lemma StepKeepsRule(m: Manager, op: Op, key: string, tenant: string, kind: string, since: Time, period: Duration)
    ensures Declared(m, key, kind, since) ==> Declared(Step(m, op), key, kind, since)
    ensures Ruled(m, tenant, kind, period) ==> Ruled(Step(m, op), tenant, kind, period)
  {
    if op.RecordOp? && key in m.store.records {
      StoreKeepsOrigin(m.store, op.r, key);
    }
  }

  /** The creation time and kind of a record and the period of a policy never change. */
  lemma {:induction false} RunKeepsRule(
    m: Manager, ops: seq<Op>, key: string, tenant: string, kind: string, since: Time, period: Duration)
    ensures Declared(m, key, kind, since) ==> Declared(Run(m, ops), key, kind, since)
    ensures Ruled(m, tenant, kind, period) ==> Ruled(Run(m, ops), tenant, kind, period)
    decreases |ops|
  {
    if ops != [] {
      StepKeepsRule(m, ops[0], key, tenant, kind, since, period);
      RunKeepsRule(Step(m, ops[0]), ops[1..], key, tenant, kind, since, period);
    }
  }

  /** Why a record may not be deleted, in terms of its creation, the policy's period and the holds. */
  lemma DeletedExactly(m: Manager, tenant: string, record: string, kind: string, since: Time, at: Time)
    requires Valid(m) && Declared(m, PairKey(tenant, record), kind, since)
    ensures
      var period := if PairKey(tenant, kind) in m.policies then m.policies[PairKey(tenant, kind)].period else 0;
      DeleteFault(m, tenant, record, at) ==
        if Held(m, PairKey(tenant, record)) then Some(ActiveLegalHold)
        else if period > 0 && at - since < period then Some(RetentionPeriodActive)
        else None
  {
    IndexAgreesWithScan(m, tenant, record, at);
  }

  /**
   Once a record is declared and a policy of a positive period stands for its tenant and kind, then after any further
   calls it is blocked while held, blocked until the period has passed since its declaration, and deletable from
   then on.
   */
  lemma RetainedUntilPeriodPassed(m: Manager, d: RecordAudit.Op, between: seq<Op>, p: Policy, ops: seq<Op>, at: Time)
    requires Valid(m) && d.Declare? && RecordAudit.Fault(m.store, d).None?
    requires PolicyFault(Run(Step(m, RecordOp(d)), between), p).None? && p.period > 0
    requires Trim(p.tenant) == Trim(d.tenant) && Trim(p.kind) == Trim(d.kind)
    ensures
      var u := Run(Step(Run(Step(m, RecordOp(d)), between), PolicyOp(p)), ops);
      DeleteFault(u, d.tenant, d.id, at) ==
        if Held(u, PairKey(d.tenant, d.id)) then Some(ActiveLegalHold)
        else if at < d.now + p.period then Some(RetentionPeriodActive)
        else None
  {
    var key, kind := PairKey(d.tenant, d.id), Trim(d.kind);
    var m1 := Step(m, RecordOp(d));
    var m2 := Run(m1, between);
    var m3 := Step(m2, PolicyOp(p));
    NewlyDeclared(m, d);
    TrimIdempotent(d.kind);
    StepValid(m, RecordOp(d));
    RunValid(m1, between);
    StepValid(m2, PolicyOp(p));
    RunValid(m3, ops);
    RunKeepsRule(m1, between, key, d.tenant, kind, d.now, p.period);
    StepKeepsRule(m2, PolicyOp(p), key, d.tenant, kind, d.now, p.period);
    assert PairKey(d.tenant, kind) == PairKey(p.tenant, p.kind);
    RunKeepsRule(m3, ops, key, d.tenant, kind, d.now, p.period);
    DeletedExactly(Run(m3, ops), d.tenant, d.id, kind, d.now, at);
  }

  lemma NewlyDeclared(m: Manager, d: RecordAudit.Op)
    requires d.Declare? && RecordAudit.Fault(m.store, d).None?
    ensures Declared(Step(m, RecordOp(d)), PairKey(d.tenant, d.id), Trim(d.kind), d.now)
  {}

  /** A policy is accepted exactly with its names and once for a tenant and kind, and leaves the others as they are. */
  lemma PolicyExactly(m: Manager, p: Policy)
    ensures
      var u, k := Step(m, PolicyOp(p)), PairKey(p.tenant, p.kind);
      if Trim(p.id) != "" && Trim(p.tenant) != "" && Trim(p.kind) != "" && k !in m.policies then
        && u.policies.Keys == m.policies.Keys + {k} && (forall j | j in m.policies :: u.policies[j] == m.policies[j])
        && u.policies[k].id == Trim(p.id) && u.policies[k].tenant == Trim(p.tenant)
        && u.policies[k].kind == Trim(p.kind) && u.policies[k].period == p.period
        && u == m.(policies := u.policies)
      else u == m && PolicyFault(m, p).Some?
  {}

  /** A hold is in force from its placing to its release, which records who released it. */
  lemma HoldLifetime(m: Manager, h: Hold, tenant: string, id: string, actor: string, now: Time)
    ensures PlaceFault(m, h).None? <==>
      && Trim(h.id) != "" && Trim(h.tenant) != "" && Trim(h.record) != "" && Trim(h.id) !in m.holds
      && PairKey(h.tenant, h.record) in m.store.records
    ensures PlaceFault(m, h).None? ==>
      var u := Step(m, PlaceOp(h));
      && Trim(h.id) in u.holds && u.holds[Trim(h.id)].active && u.holds[Trim(h.id)].tenant == Trim(h.tenant)
      && u.holds[Trim(h.id)].record == Trim(h.record) && u.holds[Trim(h.id)].reason == Trim(h.reason)
      && u.holds[Trim(h.id)].placedBy == Trim(h.placedBy) && u.holds[Trim(h.id)].placedAt == h.placedAt
    ensures
      var released := Trim(id) in m.holds && m.holds[Trim(id)].tenant == Trim(tenant);
      var u := Step(m, ReleaseOp(tenant, id, actor, now));
      && (ReleaseFault(m, tenant, id).None? <==> released)
      && (Respond(m, ReleaseOp(tenant, id, actor, now)) == Answered(None) <==> released)
      && (forall k | k in m.holds && !(released && k == Trim(id)) :: k in u.holds && u.holds[k] == m.holds[k])
      && (released ==>
            && !u.holds[Trim(id)].active && u.holds[Trim(id)].releasedBy == Trim(actor)
            && u.holds[Trim(id)].releasedAt == Some(now))
  {}

  // ---- by names ----

  const Start: Manager := Manager(RecordAudit.Empty, map[], map[], map[])

  ghost predicate HeldByName(m: Manager, tenant: string, record: string) {
    exists id :: HoldActive(m, id) && m.holds[id].tenant == tenant && m.holds[id].record == record
  }

  /** Holds carry proper names. */
  ghost predicate ProperHold(m: Manager, id: string) {
    id in m.holds ==> Proper(m.holds[id].tenant) && Proper(m.holds[id].record)
  }

  lemma StepProper(m: Manager, op: Op, id: string)
    requires ProperHold(m, id)
    ensures ProperHold(Step(m, op), id)
  {
    if op.PlaceOp? && PlaceFault(m, op.h).None? {
      TrimIdempotent(op.h.tenant);
      TrimIdempotent(op.h.record);
    }
  }

  lemma {:induction false} RunProper(m: Manager, ops: seq<Op>, id: string)
    requires ProperHold(m, id)
    ensures ProperHold(Run(m, ops), id)
    decreases |ops|
  {
    if ops != [] {
      StepProper(m, ops[0], id);
      RunProper(Step(m, ops[0]), ops[1..], id);
    }
  }

  /** Whatever was called before, a record is held under its key just when a hold names it. */
  ghost predicate NamesAgree(ops: seq<Op>, tenant: string, record: string) {
    Held(Run(Start, ops), PairKey(tenant, record)) <==> HeldByName(Run(Start, ops), tenant, record)
  }

  lemma UnambiguousNames(ops: seq<Op>, tenant: string, record: string)
    requires Proper(tenant) && Proper(record) && !Ambiguous(tenant, record)
    ensures NamesAgree(ops, tenant, record)
  {
    var m := Run(Start, ops);
    if id :| HoldActive(m, id) && HoldKey(m.holds[id]) == PairKey(tenant, record) {
      RunProper(Start, ops, id);
      PairKeyUnique(tenant, record, m.holds[id].tenant, m.holds[id].record);
    }
    if id :| HoldActive(m, id) && m.holds[id].tenant == tenant && m.holds[id].record == record {
      assert HoldKey(m.holds[id]) == PairKey(tenant, record);
    }
  }

  function SampleHold(tenant: string, record: string): Hold { Hold("h", tenant, record, "", "", 0, true, None, "") }

  lemma FirstHold(m: Manager, c: string, d: string)
    requires Proper(c) && Proper(d) && m.holds == map[] && PairKey(c, d) in m.store.records
    ensures Step(m, PlaceOp(SampleHold(c, d))).holds == map["h" := SampleHold(c, d)]
  {
    TrimFixed("h");
    TrimFixed("");
  }

  lemma OneHold(m: Manager, h: Hold, tenant: string, record: string)
    requires m.holds == map["h" := h] && h.active && h.tenant != tenant && HoldKey(h) == PairKey(tenant, record)
    ensures Held(m, PairKey(tenant, record)) && !HeldByName(m, tenant, record)
  {
    assert HoldActive(m, "h") && HoldKey(m.holds["h"]) == PairKey(tenant, record);
  }

  lemma TwoSteps(m: Manager, a: Op, b: Op)
    ensures Run(m, [a, b]) == Step(Step(m, a), b)
  {
    assert [a, b][1..] == [b] && [b][1..] == [];
    assert Run(m, [a, b]) == Run(Step(m, a), [b]) && Run(Step(m, a), [b]) == Run(Step(Step(m, a), b), []);
  }

  /** Tenant `c` holds a record of another tenant whose key text splits the same way. */
  lemma SecondSplitHolds(tenant: string, record: string, c: string, d: string)
    requires Proper(tenant) && Proper(record) && Proper(c) && Proper(d) && c != tenant
      && PairKey(c, d) == PairKey(tenant, record)
    ensures
      var ops := [RecordOp(RecordAudit.SampleDeclaration(tenant, record)), PlaceOp(SampleHold(c, d))];
      Held(Run(Start, ops), PairKey(tenant, record)) && !HeldByName(Run(Start, ops), tenant, record)
  {
    DeclaredRecord(tenant, record);
    HeldAcross(RecordAudit.SampleDeclaration(tenant, record), tenant, record, c, d);
  }

  lemma HeldAcross(r: RecordAudit.Op, tenant: string, record: string, c: string, d: string)
    requires Proper(c) && Proper(d) && c != tenant && PairKey(c, d) == PairKey(tenant, record)
    requires PairKey(tenant, record) in RecordAudit.Step(RecordAudit.Empty, r).records
    ensures
      var ops := [RecordOp(r), PlaceOp(SampleHold(c, d))];
      Held(Run(Start, ops), PairKey(tenant, record)) && !HeldByName(Run(Start, ops), tenant, record)
  {
    var a, b := RecordOp(r), PlaceOp(SampleHold(c, d));
    FirstHold(Step(Start, a), c, d);
    OneHold(Step(Step(Start, a), b), SampleHold(c, d), tenant, record);
    TwoSteps(Start, a, b);
  }

  lemma DeclaredRecord(tenant: string, record: string)
    requires Proper(tenant) && Proper(record)
    ensures PairKey(tenant, record) in RecordAudit.Step(RecordAudit.Empty,
      RecordAudit.SampleDeclaration(tenant, record)).records
  {
    RecordAudit.SamplesAccepted(tenant, record);
  }

  /** Holds by key and by name agree in every run exactly when the key text has no second split. */
  lemma NamesAgreeExactly(tenant: string, record: string)
    requires Proper(tenant) && Proper(record)
    ensures (forall ops :: NamesAgree(ops, tenant, record)) <==> !Ambiguous(tenant, record)
  {
    if Ambiguous(tenant, record) {
      var i :| 0 <= i < |tenant| + 1 + |record| && SecondSplit(tenant, record, i);
      var c, d := SecondSplitPair(tenant, record, i);
      SecondSplitHolds(tenant, record, c, d);
      assert !NamesAgree([RecordOp(RecordAudit.SampleDeclaration(tenant, record)), PlaceOp(SampleHold(c, d))], tenant,
        record);
    } else {
      forall ops ensures NamesAgree(ops, tenant, record) {
        UnambiguousNames(ops, tenant, record);
      }
    }
  }

  // ---- backup and restore ----

  datatype Contents = Contents(
    records: map<string, RecordAudit.Record>, snapshots: map<string, seq<RecordAudit.Snapshot>>,
      log: seq<RecordAudit.AuditEntry>,
    policies: map<string, Policy>, holds: map<string, Hold>)

  datatype Archive = Archive(contents: Contents, digest: string)

  datatype Codec = Codec(encode: Contents -> Option<string>, hash: string -> string)

  function ContentsOf(m: Manager): Contents {
    Contents(m.store.records, m.store.snapshots, m.store.log, m.policies, m.holds)
  }

  function Digest(c: Codec, x: Contents): Option<string> {
    var text := c.encode(x);
    if text.None? then None else Some(c.hash(text.value))
  }

  function RestoreFault(c: Codec, a: Archive): Option<RetentionError> {
    var digest := Digest(c, a.contents);
    if digest.None? then Some(NotEncodable) else if digest.value != a.digest then Some(BackupTampered) else None
  }

  /** `index` lists exactly the active holds, each under its record, in some order. */
  ghost predicate Rebuilt(holds: map<string, Hold>, index: map<string, seq<string>>) {
    forall key, id :: RebuiltAt(holds, index, key, id)
  }

  ghost predicate RebuiltAt(holds: map<string, Hold>, index: map<string, seq<string>>, key: string, id: string) {
    key in index && id in index[key] <==> exists k :: Lists(holds, k, key, id)
  }

  ghost predicate Lists(holds: map<string, Hold>, k: string, key: string, id: string) {
    k in holds && holds[k].active && HoldKey(holds[k]) == key && holds[k].id == id
  }

  /** A rebuilt index lists an identifier under a record exactly when an active hold of that name is on the record. */
  lemma RebuiltExactly(holds: map<string, Hold>, index: map<string, seq<string>>, key: string, id: string)
    requires Rebuilt(holds, index)
    ensures key in index && id in index[key] <==>
      exists k :: k in holds && holds[k].active && holds[k].id == id && PairKey(holds[k].tenant, holds[k].record) == key
  {
    assert RebuiltAt(holds, index, key, id);
    if k :| k in holds && holds[k].active && holds[k].id == id && PairKey(holds[k].tenant, holds[k].record) == key {
      assert Lists(holds, k, key, id);
    }
  }

  /** `t` is `m` after restoring `a`; the audit counter is not part of an archive. */
  ghost predicate RestoredTo(m: Manager, a: Archive, t: Manager) {
    && ContentsOf(t) == a.contents && t.store.counter == m.store.counter
    && Rebuilt(a.contents.holds, t.index)
  }

  /** A manager restored from the backup of a sound one is sound, though its index differs. */
  lemma RestoredValid(m: Manager, m': Manager, a: Archive, t: Manager)
    requires Valid(m) && a.contents == ContentsOf(m) && RestoredTo(m', a, t)
    ensures Valid(t)
  {
    forall id ensures HoldIndexed(t, id) {
      assert HoldIndexed(m, id);
      if id in t.holds && t.holds[id].active {
        assert Lists(t.holds, id, HoldKey(t.holds[id]), id);
        assert RebuiltAt(t.holds, t.index, HoldKey(t.holds[id]), id);
      }
    }
    forall key, id ensures IndexSound(t, key, id) {
      assert RebuiltAt(t.holds, t.index, key, id);
      if id in Indexed(t, key) {
        var k :| Lists(t.holds, k, key, id);
        assert HoldIndexed(m, k);
      }
    }
  }

  // ---- what a caller observes ----

  datatype Answer = Answered(fault: Option<RetentionError>) | StoreAnswered(fault': Option<RecordAudit.StoreError>)

  function Respond(m: Manager, op: Op): Answer {
    match op
    case PolicyOp(p) => Answered(PolicyFault(m, p))
    case PlaceOp(h) => Answered(PlaceFault(m, h))
    case ReleaseOp(tenant, id, _, _) => Answered(ReleaseFault(m, tenant, id))
    case RecordOp(r) => StoreAnswered(RecordAudit.Fault(m.store, r))
    case AskOp(tenant, record, at) => Answered(DeleteFault(m, tenant, record, at))
  }

  function Answers(m: Manager, ops: seq<Op>): seq<Answer>
    decreases |ops|
  {
    if ops == [] then [] else [Respond(m, ops[0])] + Answers(Step(m, ops[0]), ops[1..])
  }

  /** Managers that differ at most in their index, audit log and counter. */
  ghost predicate Alike(m: Manager, t: Manager) {
    && m.store.records == t.store.records && m.store.snapshots == t.store.snapshots
    && m.policies == t.policies && m.holds == t.holds
  }

  lemma AlikeScan(m: Manager, t: Manager, tenant: string, record: string, at: Time)
    requires Alike(m, t)
    ensures ScanFault(m, tenant, record, at) == ScanFault(t, tenant, record, at)
  {
    var key := PairKey(tenant, record);
    assert forall id :: HoldActive(m, id) <==> HoldActive(t, id);
    assert Held(m, key) <==> Held(t, key);
  }

  lemma StoreStepAlike(a: RecordAudit.Store, b: RecordAudit.Store, r: RecordAudit.Op)
    requires a.records == b.records && a.snapshots == b.snapshots
    ensures RecordAudit.Fault(a, r) == RecordAudit.Fault(b, r)
    ensures RecordAudit.Step(a, r).records == RecordAudit.Step(b, r).records
    ensures RecordAudit.Step(a, r).snapshots == RecordAudit.Step(b, r).snapshots
  {
    StoreWriteAlike(a, b, r);
  }

  lemma StoreWriteAlike(a: RecordAudit.Store, b: RecordAudit.Store, r: RecordAudit.Op)
    requires a.records == b.records && a.snapshots == b.snapshots
    ensures RecordAudit.StateFault(a, r) == RecordAudit.StateFault(b, r)
    ensures RecordAudit.StateFault(a, r).None? ==>
      && RecordAudit.Applied(a, r).records == RecordAudit.Applied(b, r).records
      && RecordAudit.Applied(a, r).snapshots == RecordAudit.Applied(b, r).snapshots
  {}

  lemma StepAlike(m: Manager, t: Manager, op: Op)
    requires Valid(m) && Valid(t) && Alike(m, t)
    ensures Respond(m, op) == Respond(t, op) && Alike(Step(m, op), Step(t, op))
  {
    match op {
      case RecordOp(r) => StoreStepAlike(m.store, t.store, r);
      case AskOp(tenant, record, at) =>
        AlikeScan(m, t, tenant, record, at);
        IndexAgreesWithScan(m, tenant, record, at);
        IndexAgreesWithScan(t, tenant, record, at);
      case _ =>
    }
  }

  lemma {:induction false} AlikeForever(m: Manager, t: Manager, ops: seq<Op>)
    requires Valid(m) && Valid(t) && Alike(m, t)
    ensures Answers(m, ops) == Answers(t, ops)
    decreases |ops|
  {
    if ops != [] {
      StepAlike(m, t, ops[0]);
      StepValid(m, ops[0]);
      StepValid(t, ops[0]);
      AlikeForever(Step(m, ops[0]), Step(t, ops[0]), ops[1..]);
    }
  }

  /** After backup and restore, into any manager, every later sequence of calls is answered as without the restore. */
  lemma RestoreIsInvisible(m: Manager, m': Manager, a: Archive, t: Manager, ops: seq<Op>)
    requires Valid(m) && a.contents == ContentsOf(m) && RestoredTo(m', a, t)
    ensures Answers(t, ops) == Answers(m, ops)
  {
    RestoredValid(m, m', a, t);
    AlikeForever(t, m, ops);
  }

  /** An archive altered under its old digest is refused, unless the alteration collides. */
  lemma TamperingIsRefused(c: Codec, a: Archive, altered: Contents)
    requires RestoreFault(c, a).None? && c.encode(altered) != c.encode(a.contents)
    requires c.encode(altered).Some? ==>
      (c.hash(c.encode(altered).value) == c.hash(c.encode(a.contents).value) ==>
        c.encode(altered).value == c.encode(a.contents).value)
    ensures RestoreFault(c, Archive(altered, a.digest)).Some?
  {}

  class RetentionManager {
    const store: RecordAudit.RecordStore
    var policies: map<string, Policy>
    var holds: map<string, Hold>
    var index: map<string, seq<string>>

    ghost function Model(): Manager
      reads this, store
    {
      Manager(store.Model(), policies, holds, index)
    }

    constructor (store: RecordAudit.RecordStore)
      ensures this.store == store
      ensures Model() == Manager(store.Model(), map[], map[], map[]) && Valid(Model())
    {
      this.store := store;
      policies, holds, index := map[], map[], map[];
    }

    method RegisterRetentionPolicy(p: Policy) returns (fault: Option<RetentionError>)
      modifies this`policies
      ensures fault == PolicyFault(old(Model()), p)
      ensures Model() == Step(old(Model()), PolicyOp(p))
    {
      if Trim(p.id) == "" {
        return Some(BlankPolicyId);
      }
      if Trim(p.tenant) == "" {
        return Some(BlankTenantId);
      }
      if Trim(p.kind) == "" {
        return Some(BlankRecordType);
      }
      var key := PairKey(p.tenant, p.kind);
      if key in policies {
        return Some(DuplicatePolicy);
      }
      policies := policies[key := Policy(Trim(p.id), Trim(p.tenant), Trim(p.kind), p.period, p.createdAt)];
      return None;
    }

    method PlaceLegalHold(h: Hold) returns (fault: Option<RetentionError>)
      requires Valid(Model())
      modifies this`holds, this`index
      ensures fault == PlaceFault(old(Model()), h)
      ensures Model() == Step(old(Model()), PlaceOp(h)) && Valid(Model())
    {
      StepValid(Model(), PlaceOp(h));
      var id := Trim(h.id);
      if id == "" {
        return Some(BlankHoldId);
      }
      if Trim(h.tenant) == "" {
        return Some(BlankTenantId);
      }
      if Trim(h.record) == "" {
        return Some(BlankRecordId);
      }
      if id in holds {
        return Some(DuplicateHoldId);
      }
      var key := PairKey(h.tenant, h.record);
      if key !in store.records {
        return Some(RecordNotFound);
      }
      holds := holds[id := Placed(h)];
      index := index[key := (if key in index then index[key] else []) + [id]];
      return None;
    }

    method ReleaseLegalHold(tenant: string, id: string, actor: string, now: Time)
      returns (fault: Option<RetentionError>)
      requires Valid(Model())
      modifies this`holds
      ensures fault == ReleaseFault(old(Model()), tenant, id)
      ensures Model() == Step(old(Model()), ReleaseOp(tenant, id, actor, now)) && Valid(Model())
    {
      StepValid(Model(), ReleaseOp(tenant, id, actor, now));
      var key := Trim(id);
      if key !in holds {
        return Some(HoldNotFound);
      }
      var h := holds[key];
      if h.tenant != Trim(tenant) {
        return Some(CrossTenantAccess);
      }
      holds := holds[key := h.(active := false, releasedAt := Some(now), releasedBy := Trim(actor))];
      return None;
    }

    /** Reading only the index, it answers as a scan over all holds plus the retention rule. */
    method CanDelete(tenant: string, record: string, at: Time) returns (fault: Option<RetentionError>)
      requires Valid(Model())
      ensures fault == DeleteFault(Model(), tenant, record, at)
      ensures fault == ScanFault(Model(), tenant, record, at)
    {
      IndexAgreesWithScan(Model(), tenant, record, at);
      var key := PairKey(tenant, record);
      if key !in store.records {
        return Some(RecordNotFound);
      }
      var rec := store.records[key];
      if key in index {
        var ids := index[key];
        for n := 0 to |ids|
          invariant forall i | 0 <= i < n :: !HoldActive(Model(), ids[i])
        {
          if ids[n] in holds && holds[ids[n]].active {
            assert HoldActive(Model(), Indexed(Model(), key)[n]);
            return Some(ActiveLegalHold);
          }
        }
      }
      var policy := PairKey(tenant, rec.kind);
      if policy in policies && policies[policy].period > 0 && at < rec.createdAt + policies[policy].period {
        return Some(RetentionPeriodActive);
      }
      return None;
    }

    method CreateSyntheticBackup(c: Codec) returns (r: Result<Archive, RetentionError>)
      ensures r.Ok? <==> c.encode(ContentsOf(Model())).Some?
      ensures r.Ok? ==> r.value.contents == ContentsOf(Model()) && RestoreFault(c, r.value).None?
    {
      var contents := Contents(store.records, store.snapshots, store.log, policies, holds);
      var digest := Digest(c, contents);
      if digest.None? {
        return Err(NotEncodable);
      }
      return Ok(Archive(contents, digest.value));
    }

    method RestoreSyntheticBackup(c: Codec, a: Archive) returns (fault: Option<RetentionError>)
      modifies this, store
      ensures fault == RestoreFault(c, a)
      ensures if fault.Some? then Model() == old(Model()) else RestoredTo(old(Model()), a, Model())
    {
      var digest := Digest(c, a.contents);
      if digest.None? {
        return Some(NotEncodable);
      }
      if digest.value != a.digest {
        return Some(BackupTampered);
      }
      store.records, store.snapshots, store.log := a.contents.records, a.contents.snapshots, a.contents.log;
      policies := a.contents.policies;
      holds := a.contents.holds;
      index := RebuildIndex(a.contents.holds);
      return None;
    }
  }

  /** The holds are visited in no particular order. */
  method RebuildIndex(holds: map<string, Hold>) returns (index: map<string, seq<string>>)
    ensures Rebuilt(holds, index)
  {
    index := map[];
    var todo := holds.Keys;
    while todo != {}
      invariant todo <= holds.Keys
      invariant forall key, id :: RebuiltFrom(holds, todo, index, key, id)
    {
      var k :| k in todo;
      ghost var before, rest := index, todo;
      var h := holds[k];
      todo := todo - {k};
      if h.active {
        var key := HoldKey(h);
        index := index[key := (if key in index then index[key] else []) + [h.id]];
      }
      forall key, id ensures RebuiltFrom(holds, todo, index, key, id) {
        assert RebuiltFrom(holds, rest, before, key, id);
        VisitedOne(holds, rest, k, key, id);
      }
    }
    forall key, id ensures RebuiltAt(holds, index, key, id) {
      assert RebuiltFrom(holds, {}, index, key, id);
    }
  }

  ghost predicate VisitedLists(holds: map<string, Hold>, todo: set<string>, key: string, id: string) {
    exists k :: k !in todo && Lists(holds, k, key, id)
  }

  ghost predicate RebuiltFrom(holds: map<string, Hold>, todo: set<string>, index: map<string, seq<string>>,
      key: string, id: string) {
    key in index && id in index[key] <==> VisitedLists(holds, todo, key, id)
  }

  lemma VisitedOne(holds: map<string, Hold>, todo: set<string>, k: string, key: string, id: string)
    requires k in todo
    ensures VisitedLists(holds, todo - {k}, key, id) <==> VisitedLists(holds, todo, key, id) || Lists(holds, k, key, id)
  {
    if Lists(holds, k, key, id) {
      assert k !in todo - {k};
    }
  }
}
