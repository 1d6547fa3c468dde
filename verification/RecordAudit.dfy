/**
 The record store: declarations, immutable version snapshots, lifecycle states and the append-only
 audit journal.
 */
module RecordAudit {
  import opened Results
  import opened Text
  import opened Clock

  datatype LifecycleState = Draft | Accepted | Archived | OtherState(text: string)

  datatype Record = Record(
      id: string, tenant: string, kind: string, version: string, state: LifecycleState, createdAt: Time)

  datatype Snapshot = Snapshot(
      id: string, tenant: string, version: string, digest: string, declaredBy: string, state: LifecycleState)

  datatype Event = Declared | Versioned | StateChanged | AccessDenied

  datatype AuditEntry = AuditEntry(
    number: nat, event: Event, tenant: string, record: string, actor: string, correlation: string, causation: string,
    prior: Option<LifecycleState>, current: Option<LifecycleState>, version: string)

  datatype StoreError =
    | BlankTenantId | BlankId | BlankRecordType | BlankVersion | BlankActor | InvalidDigest | InvalidCorrelationId
    | InvalidCausationId | DuplicateRecord | RecordNotFound | RecordArchived | DuplicateVersion | InvalidTransition

  datatype Store = Store(
      records: map<string, Record>, snapshots: map<string, seq<Snapshot>>, log: seq<AuditEntry>, counter: nat)

  const Empty: Store := Store(map[], map[], [], 0)

  datatype Op =
    | Declare(tenant: string, id: string, actor: string, correlation: string, causation: string, kind: string,
        version: string, digest: string, now: Time)
    | NewVersion(tenant: string, id: string, actor: string, correlation: string, causation: string, version: string,
        digest: string)
    | Transition(tenant: string, id: string, actor: string, correlation: string, causation: string,
        target: LifecycleState)
    | Deny(tenant: string, id: string, actor: string, correlation: string, causation: string)

  function Key(op: Op): string { PairKey(op.tenant, op.id) }

  predicate HasVersion(list: seq<Snapshot>, v: string) { exists i | 0 <= i < |list| :: list[i].version == v }

  function TrackingFault(op: Op): Option<StoreError> {
    if !("corr_" <= Trim(op.correlation)) then Some(InvalidCorrelationId)
    else if !("caus_" <= Trim(op.causation)) then Some(InvalidCausationId)
    else None
  }

  function ArgumentFault(op: Op): Option<StoreError> {
    if Trim(op.tenant) == "" then Some(BlankTenantId)
    else if Trim(op.id) == "" then Some(BlankId)
    else if op.Declare? && Trim(op.kind) == "" then Some(BlankRecordType)
    else if (op.Declare? || op.NewVersion?) && Trim(op.version) == "" then Some(BlankVersion)
    else if Trim(op.actor) == "" then Some(BlankActor)
    else if (op.Declare? || op.NewVersion?) && !HexDigest(op.digest) then Some(InvalidDigest)
    else TrackingFault(op)
  }

  predicate MayMove(from: LifecycleState, to: LifecycleState) {
    (from == Draft && (to == Accepted || to == Archived)) || (from == Accepted && to == Archived)
  }

  function StateFault(s: Store, op: Op): Option<StoreError> {
    var k := Key(op);
    match op
    case Declare(_, _, _, _, _, _, _, _, _) => if k in s.records then Some(DuplicateRecord) else None
    case NewVersion(_, _, _, _, _, version, _) =>
      if k !in s.records then Some(RecordNotFound)
      else if s.records[k].state == Archived then Some(RecordArchived)
      else if k in s.snapshots && HasVersion(s.snapshots[k], Trim(version)) then Some(DuplicateVersion)
      else None
    case Transition(_, _, _, _, _, target) =>
      if k !in s.records then Some(RecordNotFound)
      else if s.records[k].state == target then None
      else if s.records[k].state == Archived then Some(RecordArchived)
      else if !MayMove(s.records[k].state, target) then Some(InvalidTransition)
      else None
    case Deny(_, _, _, _, _) => None
  }

  function Fault(s: Store, op: Op): Option<StoreError> {
    if ArgumentFault(op).Some? then ArgumentFault(op) else StateFault(s, op)
  }

  function Entry(op: Op, number: nat, event: Event, prior: Option<LifecycleState>, current: Option<LifecycleState>,
      version: string): AuditEntry {
    AuditEntry(number, event, Trim(op.tenant), Trim(op.id), Trim(op.actor), Trim(op.correlation), Trim(op.causation),
      prior, current, version)
  }

  function NewSnapshot(op: Op, state: LifecycleState): Snapshot
    requires op.Declare? || op.NewVersion?
  {
    Snapshot(Trim(op.id), Trim(op.tenant), Trim(op.version), Trim(op.digest), Trim(op.actor), state)
  }

  function Append(s: Store, e: AuditEntry): Store { s.(log := s.log + [e], counter := s.counter + 1) }

  function Declaration(s: Store, op: Op): Store
    requires op.Declare?
  {
    var k := Key(op);
    var rec := Record(Trim(op.id), Trim(op.tenant), Trim(op.kind), Trim(op.version), Accepted, op.now);
    Append(s.(records := s.records[k := rec], snapshots := s.snapshots[k := [NewSnapshot(op, Accepted)]]),
           Entry(op, s.counter + 1, Declared, None, Some(Accepted), Trim(op.version)))
  }

  function Versioning(s: Store, op: Op): Store
    requires op.NewVersion? && Key(op) in s.records
  {
    var k, rec := Key(op), s.records[Key(op)];
    var list := if k in s.snapshots then s.snapshots[k] else [];
    Append(s.(records := s.records[k := rec.(version := Trim(op.version))],
              snapshots := s.snapshots[k := list + [NewSnapshot(op, rec.state)]]),
           Entry(op, s.counter + 1, Versioned, Some(rec.state), Some(rec.state), Trim(op.version)))
  }

  function Moving(s: Store, op: Op): Store
    requires op.Transition? && Key(op) in s.records
  {
    var k, rec := Key(op), s.records[Key(op)];
    if rec.state == op.target then s
    else
      Append(s.(records := s.records[k := rec.(state := op.target)]),
             Entry(op, s.counter + 1, StateChanged, Some(rec.state), Some(op.target), rec.version))
  }

  function Denial(s: Store, op: Op): Store { Append(s, Entry(op, s.counter + 1, AccessDenied, None, None, "")) }

  function Applied(s: Store, op: Op): Store
    requires StateFault(s, op).None?
  {
    match op
    case Declare(_, _, _, _, _, _, _, _, _) => Declaration(s, op)
    case NewVersion(_, _, _, _, _, _, _) => Versioning(s, op)
    case Transition(_, _, _, _, _, _) => Moving(s, op)
    case Deny(_, _, _, _, _) => Denial(s, op)
  }

  function Step(s: Store, op: Op): Store { if Fault(s, op).Some? then s else Applied(s, op) }

  /** Every accepted change leaves one journal entry, which names the record, the actor and the call's tracking. */
  lemma JournalledExactly(s: Store, op: Op)
    requires Fault(s, op).None?
    ensures
      var u := Step(s, op);
      if op.Transition? && op.target == s.records[Key(op)].state then u == s
      else
        && |u.log| == |s.log| + 1 && u.log[..|s.log|] == s.log && u.counter == s.counter + 1
        && var e := u.log[|s.log|];
           && e.number == u.counter && e.tenant == Trim(op.tenant) && e.record == Trim(op.id)
           && e.actor == Trim(op.actor) && e.correlation == Trim(op.correlation) && e.causation == Trim(op.causation)
           && (op.Declare? || op.NewVersion? ==> e.version == Trim(op.version))
  {}

  /** A declaration or new version stores its snapshot last, as given; the record keeps kind and creation. */
  lemma WrittenExactly(s: Store, op: Op)
    requires Fault(s, op).None? && (op.Declare? || op.NewVersion?)
    ensures
      var u, k := Step(s, op), Key(op);
      && k in u.records && k in u.snapshots && u.snapshots[k] != []
      && var rec, x := u.records[k], u.snapshots[k][|u.snapshots[k]| - 1];
         && x.id == Trim(op.id) && x.tenant == Trim(op.tenant) && x.version == Trim(op.version) == rec.version
         && x.digest == Trim(op.digest) && x.declaredBy == Trim(op.actor) && x.state == rec.state
         && (op.Declare? ==>
               && rec.id == Trim(op.id) && rec.tenant == Trim(op.tenant) && rec.kind == Trim(op.kind)
               && rec.state == Accepted && rec.createdAt == op.now && |u.snapshots[k]| == 1)
         && (op.NewVersion? ==> rec == s.records[k].(version := Trim(op.version)))
  {}

  function Run(s: Store, ops: seq<Op>): Store
    decreases |ops|
  {
    if ops == [] then s else Run(Step(s, ops[0]), ops[1..])
  }

  ghost predicate Tracked(op: Op) {
    Trim(op.tenant) != "" && Trim(op.id) != "" && Trim(op.actor) != ""
    && "corr_" <= Trim(op.correlation) && "caus_" <= Trim(op.causation)
  }

  /** The calls that are accepted, exactly. */
  lemma AcceptedExactly(s: Store, op: Op)
    ensures op.Declare? ==> (Fault(s, op).None? <==>
      Tracked(op) && Trim(op.kind) != "" && Trim(op.version) != "" && HexDigest(op.digest) && Key(op) !in s.records)
    ensures op.NewVersion? ==> (Fault(s, op).None? <==>
      && Tracked(op) && Trim(op.version) != "" && HexDigest(op.digest)
      && Key(op) in s.records && s.records[Key(op)].state != Archived
      && (Key(op) in s.snapshots ==> forall x | x in s.snapshots[Key(op)] :: x.version != Trim(op.version)))
    ensures op.Transition? ==> (Fault(s, op).None? <==>
      && Tracked(op) && Key(op) in s.records
      && (s.records[Key(op)].state, op.target) in
           {(s.records[Key(op)].state, s.records[Key(op)].state), (Draft, Accepted), (Draft, Archived),
             (Accepted, Archived)})
    ensures op.Deny? ==> (Fault(s, op).None? <==> Tracked(op))
  {
    ArgumentsExactly(op);
    StateExactly(s, op);
  }

  lemma ArgumentsExactly(op: Op)
    ensures ArgumentFault(op).None? <==>
      && Tracked(op) && (op.Declare? ==> Trim(op.kind) != "")
      && (op.Declare? || op.NewVersion? ==> Trim(op.version) != "" && HexDigest(op.digest))
  {}

  lemma StateExactly(s: Store, op: Op)
    ensures op.NewVersion? ==> (StateFault(s, op).None? <==>
      && Key(op) in s.records && s.records[Key(op)].state != Archived
      && (Key(op) in s.snapshots ==> forall x | x in s.snapshots[Key(op)] :: x.version != Trim(op.version)))
    ensures op.Transition? ==> (StateFault(s, op).None? <==>
      && Key(op) in s.records
      && (s.records[Key(op)].state, op.target) in
           {(s.records[Key(op)].state, s.records[Key(op)].state), (Draft, Accepted), (Draft, Archived),
             (Accepted, Archived)})
  {}

  // ---- replaying the journal ----

  predicate About(e: AuditEntry, k: string) { PairKey(e.tenant, e.record) == k }

  /** The journal entries under one record key. */
  function Trail(log: seq<AuditEntry>, k: string): seq<AuditEntry> {
    if log == [] then []
    else
      var n := |log| - 1;
      Trail(log[..n], k) + (if About(log[n], k) then [log[n]] else [])
  }

  /** What a trail tells of its record: nothing yet, or its state and its versions; or that it does not add up. */
  datatype View = Absent | Present(state: LifecycleState, versions: seq<string>) | Inconsistent

  function Read(v: View, e: AuditEntry): View {
    match e.event
    case AccessDenied => v
    case Declared => if v == Absent && e.prior == None && e.current.Some? then Present(e.current.value, [e.version])
      else Inconsistent
    case Versioned =>
      if v.Present? && e.prior == e.current == Some(v.state) && e.version !in v.versions
        then v.(versions := v.versions + [e.version]) else Inconsistent
    case StateChanged =>
      if v.Present? && e.prior == Some(v.state) && e.current.Some? && v.versions != []
        && e.version == v.versions[|v.versions| - 1]
      then v.(state := e.current.value) else Inconsistent
  }

  function Replay(trail: seq<AuditEntry>): View {
    if trail == [] then Absent else Read(Replay(trail[..|trail| - 1]), trail[|trail| - 1])
  }

  function VersionNames(list: seq<Snapshot>): (names: seq<string>)
    ensures |names| == |list| && forall i | 0 <= i < |list| :: names[i] == list[i].version
  {
    seq(|list|, i requires 0 <= i < |list| => list[i].version)
  }

  /** What the store holds under a key. */
  function Stored(s: Store, k: string): View {
    if k in s.records && k in s.snapshots then Present(s.records[k].state, VersionNames(s.snapshots[k])) else Absent
  }

  ghost predicate RecordMatches(k: string, rec: Record, list: seq<Snapshot>) {
    && list != [] && list[|list| - 1].version == rec.version
    && PairKey(rec.tenant, rec.id) == k && Distinct(VersionNames(list))
  }

  ghost predicate KeyValid(s: Store, k: string) {
    && (k in s.records <==> k in s.snapshots)
    && (k in s.records ==> RecordMatches(k, s.records[k], s.snapshots[k]))
    && Replay(Trail(s.log, k)) == Stored(s, k)
  }

  ghost predicate Distinct(names: seq<string>) {
    forall i, j :: DistinctAt(names, i, j)
  }

  ghost predicate DistinctAt(names: seq<string>, i: nat, j: nat) { i < j < |names| ==> names[i] != names[j] }

  ghost predicate Numbered(log: seq<AuditEntry>) { forall i | 0 <= i < |log| :: log[i].number == i + 1 }

  ghost predicate Valid(s: Store) {
    s.counter == |s.log| && Numbered(s.log) && forall k :: KeyValid(s, k)
  }

  // ---- every step keeps it ----

  lemma TrailAppend(log: seq<AuditEntry>, e: AuditEntry, k: string)
    ensures Trail(log + [e], k) == Trail(log, k) + (if About(e, k) then [e] else [])
    ensures Replay(Trail(log + [e], k)) == if About(e, k) then Read(Replay(Trail(log, k)), e) else Replay(Trail(log, k))
  {
    assert (log + [e])[..|log|] == log;
    var t := Trail(log, k);
    assert (t + [e])[..|t|] == t;
    assert t + [] == t;
  }

  /** An entry about other keys, or that tells nothing new, leaves a key as it was. */
  lemma KeyKept(s: Store, t: Store, e: AuditEntry, k: string)
    requires KeyValid(s, k) && t.log == s.log + [e] && (About(e, k) ==> e.event == AccessDenied)
    requires (k in t.records <==> k in s.records) && (k in t.snapshots <==> k in s.snapshots)
    requires k in s.records ==> t.records[k] == s.records[k] && t.snapshots[k] == s.snapshots[k]
    ensures KeyValid(t, k)
  {
    TrailAppend(s.log, e, k);
  }

  lemma KeyRewritten(s: Store, t: Store, e: AuditEntry, k: string)
    requires KeyValid(s, k) && t.log == s.log + [e] && About(e, k)
    requires k in t.records && k in t.snapshots && RecordMatches(k, t.records[k], t.snapshots[k])
    requires Read(Stored(s, k), e) == Stored(t, k)
    ensures KeyValid(t, k)
  {
    TrailAppend(s.log, e, k);
  }

  /** One appended entry, with the record it is about rewritten to match. */
  lemma WriteValid(s: Store, k: string, rec: Record, list: seq<Snapshot>, e: AuditEntry)
    requires Valid(s) && About(e, k) && e.number == s.counter + 1
    requires RecordMatches(k, rec, list)
    requires Read(Stored(s, k), e) == Present(rec.state, VersionNames(list))
    ensures Valid(Append(s.(records := s.records[k := rec], snapshots := s.snapshots[k := list]), e))
  {
    var t := Append(s.(records := s.records[k := rec], snapshots := s.snapshots[k := list]), e);
    forall j ensures KeyValid(t, j) {
      assert KeyValid(s, j);
      if j == k {
        KeyRewritten(s, t, e, k);
      } else {
        KeyKept(s, t, e, j);
      }
    }
  }

  lemma EntryAbout(op: Op, number: nat, event: Event, prior: Option<LifecycleState>, current: Option<LifecycleState>,
      version: string)
    ensures About(Entry(op, number, event, prior, current, version), Key(op))
  {
    TrimIdempotent(op.tenant);
    TrimIdempotent(op.id);
  }

  lemma DistinctAppend(list: seq<Snapshot>, x: Snapshot)
    requires Distinct(VersionNames(list)) && !HasVersion(list, x.version)
    ensures Distinct(VersionNames(list + [x])) && VersionNames(list + [x]) == VersionNames(list) + [x.version]
    ensures x.version !in VersionNames(list)
  {
    var a, b := VersionNames(list), VersionNames(list + [x]);
    assert b == a + [x.version];
    forall i: nat, j: nat ensures DistinctAt(b, i, j) {
      assert DistinctAt(a, i, j);
    }
  }

  lemma DeclareValid(s: Store, op: Op)
    requires Valid(s) && op.Declare? && StateFault(s, op).None?
    ensures Valid(Declaration(s, op))
  {
    var k, x := Key(op), NewSnapshot(op, Accepted);
    var rec := Record(Trim(op.id), Trim(op.tenant), Trim(op.kind), Trim(op.version), Accepted, op.now);
    var e := Entry(op, s.counter + 1, Declared, None, Some(Accepted), Trim(op.version));
    assert KeyValid(s, k);
    TrimIdempotent(op.tenant);
    TrimIdempotent(op.id);
    DistinctAppend([], x);
    assert [] + [x] == [x] && VersionNames([x]) == [e.version];
    WriteValid(s, k, rec, [x], e);
  }

  lemma NewVersionValid(s: Store, op: Op)
    requires Valid(s) && op.NewVersion? && StateFault(s, op).None?
    ensures Valid(Versioning(s, op))
  {
    var k := Key(op);
    assert KeyValid(s, k);
    var rec, list := s.records[k], s.snapshots[k];
    var e := Entry(op, s.counter + 1, Versioned, Some(rec.state), Some(rec.state), Trim(op.version));
    EntryAbout(op, e.number, e.event, e.prior, e.current, e.version);
    DistinctAppend(list, NewSnapshot(op, rec.state));
    WriteValid(s, k, rec.(version := Trim(op.version)), list + [NewSnapshot(op, rec.state)], e);
  }

  lemma TransitionRead(k: string, rec: Record, list: seq<Snapshot>, e: AuditEntry, target: LifecycleState)
    requires RecordMatches(k, rec, list)
    requires e.event == StateChanged && e.prior == Some(rec.state) && e.current == Some(target)
      && e.version == rec.version
    ensures RecordMatches(k, rec.(state := target), list)
    ensures Read(Present(rec.state, VersionNames(list)), e) == Present(target, VersionNames(list))
  {}

  lemma TransitionValid(s: Store, op: Op)
    requires Valid(s) && op.Transition? && StateFault(s, op).None?
    ensures Valid(Moving(s, op))
  {
    var k := Key(op);
    assert KeyValid(s, k);
    var rec, list := s.records[k], s.snapshots[k];
    if rec.state != op.target {
      var e := Entry(op, s.counter + 1, StateChanged, Some(rec.state), Some(op.target), rec.version);
      EntryAbout(op, e.number, e.event, e.prior, e.current, e.version);
      assert s.snapshots[k := list] == s.snapshots;
      TransitionRead(k, rec, list, e, op.target);
      WriteValid(s, k, rec.(state := op.target), list, e);
    }
  }

  lemma DenyValid(s: Store, op: Op)
    requires Valid(s) && op.Deny?
    ensures Valid(Denial(s, op))
  {
    var e, t := Entry(op, s.counter + 1, AccessDenied, None, None, ""), Denial(s, op);
    forall k ensures KeyValid(t, k) {
      assert KeyValid(s, k);
      KeyKept(s, t, e, k);
    }
  }

  lemma StepValid(s: Store, op: Op)
    requires Valid(s)
    ensures Valid(Step(s, op))
  {
    if Fault(s, op).None? {
      match op {
        case Declare(_, _, _, _, _, _, _, _, _) => DeclareValid(s, op);
        case NewVersion(_, _, _, _, _, _, _) => NewVersionValid(s, op);
        case Transition(_, _, _, _, _, _) => TransitionValid(s, op);
        case Deny(_, _, _, _, _) => DenyValid(s, op);
      }
    }
  }

  lemma {:induction false} RunValid(s: Store, ops: seq<Op>)
    requires Valid(s)
    ensures Valid(Run(s, ops))
    decreases |ops|
  {
    if ops != [] {
      StepValid(s, ops[0]);
      RunValid(Step(s, ops[0]), ops[1..]);
    }
  }

  /** For every run, each record's trail replays to its stored state and to all its version names in order. */
  lemma JournalReplaysToStore(ops: seq<Op>, k: string)
    ensures var s := Run(Empty, ops);
      && Numbered(s.log)
      && Replay(Trail(s.log, k)) == Stored(s, k)
      && (k in s.records ==>
            && k in s.snapshots && s.snapshots[k] != []
            && s.snapshots[k][|s.snapshots[k]| - 1].version == s.records[k].version
               && Distinct(VersionNames(s.snapshots[k])))
  {
    forall j ensures KeyValid(Empty, j) {}
    RunValid(Empty, ops);
    assert KeyValid(Run(Empty, ops), k);
  }

  /** Snapshots and journal only grow, and an archived record is frozen with its snapshots. */
  lemma {:induction false} NothingIsRewritten(s: Store, ops: seq<Op>, k: string)
    requires Valid(s)
    ensures s.log <= Run(s, ops).log
    ensures k in s.records ==>
      && k in s.snapshots && k in Run(s, ops).snapshots && s.snapshots[k] <= Run(s, ops).snapshots[k]
      && (s.records[k].state == Archived ==>
            k in Run(s, ops).records && Run(s, ops).records[k] == s.records[k]
              && Run(s, ops).snapshots[k] == s.snapshots[k])
    decreases |ops|
  {
    assert KeyValid(s, k);
    if ops != [] {
      StepValid(s, ops[0]);
      NothingIsRewritten(Step(s, ops[0]), ops[1..], k);
      if Fault(s, ops[0]).None? {
        StepExtends(s, ops[0], k);
      }
    }
  }

  lemma StepExtends(s: Store, op: Op, k: string)
    requires Valid(s) && StateFault(s, op).None?
    ensures s.log <= Applied(s, op).log
    ensures k in s.records ==>
      && k in Applied(s, op).records && k in s.snapshots && k in Applied(s, op).snapshots
         && s.snapshots[k] <= Applied(s, op).snapshots[k]
      && (s.records[k].state == Archived ==>
         Applied(s, op).records[k] == s.records[k] && Applied(s, op).snapshots[k] == s.snapshots[k])
  {
    assert KeyValid(s, k);
  }

  ghost predicate StoresVersion(s: Store, op: Op, n: nat)
    requires op.Declare? || op.NewVersion?
  {
    && Key(op) in s.records && Key(op) in s.snapshots && n < |s.snapshots[Key(op)]|
    && s.snapshots[Key(op)][n].version == Trim(op.version) && s.snapshots[Key(op)][n].digest == op.digest
    && s.snapshots[Key(op)][n].declaredBy == Trim(op.actor)
  }

  lemma WrittenVersion(s: Store, op: Op, n: nat)
    requires (op.Declare? || op.NewVersion?) && StateFault(s, op).None? && Trim(op.digest) == op.digest
    requires n == if op.NewVersion? && Key(op) in s.snapshots then |s.snapshots[Key(op)]| else 0
    ensures StoresVersion(Applied(s, op), op, n)
  {}

  /** A version once accepted can be read back in every later state, with its payload digest. */
  lemma AcceptedVersionForever(s: Store, op: Op, ops: seq<Op>, n: nat)
    requires Valid(s) && (op.Declare? || op.NewVersion?) && Fault(s, op).None?
    requires n == if op.NewVersion? && Key(op) in s.snapshots then |s.snapshots[Key(op)]| else 0
    ensures StoresVersion(Run(Step(s, op), ops), op, n)
  {
    DigestTrimmed(op.digest);
    WrittenVersion(s, op, n);
    StepValid(s, op);
    VersionStays(Step(s, op), op, ops, n);
  }

  lemma VersionStays(s: Store, op: Op, ops: seq<Op>, n: nat)
    requires Valid(s) && (op.Declare? || op.NewVersion?) && StoresVersion(s, op, n)
    ensures StoresVersion(Run(s, ops), op, n)
  {
    NothingIsRewritten(s, ops, Key(op));
    RunValid(s, ops);
    assert KeyValid(Run(s, ops), Key(op));
  }

  lemma DigestTrimmed(d: string)
    requires HexDigest(d)
    ensures Trim(d) == d
  {
    TrimFixed(d);
  }

  // ---- trails by name ----

  predicate Mentions(e: AuditEntry, tenant: string, id: string) { e.tenant == tenant && e.record == id }

  /** The entries that name exactly this tenant and record. */
  function NamedTrail(log: seq<AuditEntry>, tenant: string, id: string): seq<AuditEntry> {
    if log == [] then []
    else
      var n := |log| - 1;
      NamedTrail(log[..n], tenant, id) + (if Mentions(log[n], tenant, id) then [log[n]] else [])
  }

  /** Journal entries carry proper names. */
  ghost predicate ProperNames(log: seq<AuditEntry>) {
    forall i | 0 <= i < |log| :: Proper(log[i].tenant) && Proper(log[i].record)
  }

  lemma TrimmedIsProper(s: string)
    requires Trim(s) != ""
    ensures Proper(Trim(s))
  {
    TrimIdempotent(s);
  }

  lemma StepNames(s: Store, op: Op)
    requires ProperNames(s.log)
    ensures ProperNames(Step(s, op).log)
  {
    if Fault(s, op).None? {
      TrimmedIsProper(op.tenant);
      TrimmedIsProper(op.id);
      EntryNames(s, op);
    }
  }

  lemma EntryNames(s: Store, op: Op)
    requires StateFault(s, op).None?
    ensures Applied(s, op).log == s.log
      || exists e :: Applied(s, op).log == s.log + [e] && Mentions(e, Trim(op.tenant), Trim(op.id))
  {
    if Applied(s, op).log != s.log {
      var e := Applied(s, op).log[|s.log|];
      assert Applied(s, op).log == s.log + [e];
    }
  }

  lemma {:induction false} RunNames(s: Store, ops: seq<Op>)
    requires ProperNames(s.log)
    ensures ProperNames(Run(s, ops).log)
    decreases |ops|
  {
    if ops != [] {
      StepNames(s, ops[0]);
      RunNames(Step(s, ops[0]), ops[1..]);
    }
  }

  lemma {:induction false} NamedTrailIsTrail(log: seq<AuditEntry>, tenant: string, id: string)
    requires ProperNames(log) && Proper(tenant) && Proper(id) && !Ambiguous(tenant, id)
    ensures NamedTrail(log, tenant, id) == Trail(log, PairKey(tenant, id))
  {
    if log != [] {
      var n := |log| - 1;
      NamedTrailIsTrail(log[..n], tenant, id);
      if About(log[n], PairKey(tenant, id)) {
        PairKeyUnique(tenant, id, log[n].tenant, log[n].record);
      }
    }
  }

  function SampleDeclaration(tenant: string, id: string): Op {
    Declare(tenant, id, "u", "corr_1", "caus_1", "k", "v1", Zeros(64), 0)
  }

  function SampleVersion(tenant: string, id: string): Op {
    NewVersion(tenant, id, "u", "corr_1", "caus_1", "v2", Zeros(64))
  }

  lemma SampleWords()
    ensures Trim("u") == "u" && Trim("k") == "k" && Trim("v1") == "v1" && Trim("v2") == "v2"
    ensures "corr_" <= Trim("corr_1") && "caus_" <= Trim("caus_1")
  {
    TrimFixed("u");
    TrimFixed("k");
    TrimFixed("v1");
    TrimFixed("v2");
    TrimFixed("corr_1");
    TrimFixed("caus_1");
  }

  lemma SamplesAccepted(tenant: string, id: string)
    requires Proper(tenant) && Proper(id)
    ensures ArgumentFault(SampleDeclaration(tenant, id)).None? && ArgumentFault(SampleVersion(tenant, id)).None?
    ensures Trim("v1") == "v1" && Trim("v2") == "v2"
  {
    SampleWords();
    assert HexDigest(Zeros(64));
  }

  /** Another tenant versions the record under the same key, and its journal entry is missing from the named trail. */
  lemma SecondSplitLosesEntry(tenant: string, id: string, c: string, d: string)
    requires Proper(tenant) && Proper(id) && Proper(c) && Proper(d) && c != tenant
      && PairKey(c, d) == PairKey(tenant, id)
    ensures
      var s := Run(Empty, [SampleDeclaration(tenant, id), SampleVersion(c, d)]);
      && PairKey(tenant, id) in s.records && s.records[PairKey(tenant, id)].version == "v2"
      && |s.log| == 2 && Trail(s.log, PairKey(tenant, id)) == s.log && NamedTrail(s.log, tenant, id) == s.log[..1]
  {
    var a, b := SampleDeclaration(tenant, id), SampleVersion(c, d);
    SamplesAccepted(tenant, id);
    SamplesAccepted(c, d);
    var s := Step(Empty, a);
    var u := Step(s, b);
    SampleSteps(tenant, id, c, d);
    TwoSteps(a, b);
    TwoEntries(u.log, tenant, id);
  }

  lemma SampleSteps(tenant: string, id: string, c: string, d: string)
    requires Proper(tenant) && Proper(id) && Proper(c) && Proper(d) && PairKey(c, d) == PairKey(tenant, id)
    requires ArgumentFault(SampleDeclaration(tenant, id)).None? && ArgumentFault(SampleVersion(c, d)).None?
    requires Trim("v1") == "v1" && Trim("v2") == "v2"
    ensures
      var u := Step(Step(Empty, SampleDeclaration(tenant, id)), SampleVersion(c, d));
      && PairKey(tenant, id) in u.records && u.records[PairKey(tenant, id)].version == "v2"
      && |u.log| == 2 && Mentions(u.log[0], tenant, id) && Mentions(u.log[1], c, d)
  {
    var a := SampleDeclaration(tenant, id);
    var s := Step(Empty, a);
    assert s == Declaration(Empty, a);
    assert !HasVersion(s.snapshots[PairKey(tenant, id)], "v2");
    assert Step(s, SampleVersion(c, d)) == Versioning(s, SampleVersion(c, d));
  }

  lemma TwoSteps(a: Op, b: Op)
    ensures Run(Empty, [a, b]) == Step(Step(Empty, a), b)
  {
    assert [a, b][1..] == [b] && [b][1..] == [];
    assert Run(Empty, [a, b]) == Run(Step(Empty, a), [b]);
    assert Run(Step(Empty, a), [b]) == Run(Step(Step(Empty, a), b), []);
  }

  lemma TwoEntries(log: seq<AuditEntry>, tenant: string, id: string)
    requires |log| == 2 && Mentions(log[0], tenant, id) && !Mentions(log[1], tenant, id)
      && About(log[1], PairKey(tenant, id))
    ensures Trail(log, PairKey(tenant, id)) == log && NamedTrail(log, tenant, id) == log[..1]
  {
    assert log[..1][..0] == [] && log[..1] == [log[0]] && log == [log[0]] + [log[1]];
    assert Trail(log[..1], PairKey(tenant, id)) == [log[0]] && NamedTrail(log[..1], tenant, id) == [log[0]];
  }

  ghost predicate TrailComplete(ops: seq<Op>, tenant: string, id: string) {
    NamedTrail(Run(Empty, ops).log, tenant, id) == Trail(Run(Empty, ops).log, PairKey(tenant, id))
  }

  /**
   The trail by names is the whole trail of the record in every reachable store exactly when the key has no second
   split.
   */
  lemma NamedTrailExactly(tenant: string, id: string)
    requires Proper(tenant) && Proper(id)
    ensures (forall ops :: TrailComplete(ops, tenant, id)) <==> !Ambiguous(tenant, id)
  {
    if Ambiguous(tenant, id) {
      var i :| 0 <= i < |tenant| + 1 + |id| && SecondSplit(tenant, id, i);
      var c, d := SecondSplitPair(tenant, id, i);
      SecondSplitLosesEntry(tenant, id, c, d);
      assert !TrailComplete([SampleDeclaration(tenant, id), SampleVersion(c, d)], tenant, id);
    } else {
      forall ops ensures TrailComplete(ops, tenant, id) {
        RunNames(Empty, ops);
        NamedTrailIsTrail(Run(Empty, ops).log, tenant, id);
      }
    }
  }

  /** Tenant "a:b" versions the record "b:c" of tenant "a", whose trail does not show it. */
  lemma ColonSplitsTrail()
    ensures
      var s := Run(Empty, [SampleDeclaration("a", "b:c"), SampleVersion("a:b", "c")]);
      && PairKey("a", "b:c") in s.records && s.records[PairKey("a", "b:c")].version == "v2"
      && |s.log| == 2 && NamedTrail(s.log, "a", "b:c") == s.log[..1]
  {
    TrimFixed("a");
    TrimFixed("b:c");
    TrimFixed("a:b");
    TrimFixed("c");
    assert "a" + ":" + "b:c" == "a:b" + ":" + "c";
    SecondSplitLosesEntry("a", "b:c", "a:b", "c");
  }

  class RecordStore {
    var records: map<string, Record>
    var snapshots: map<string, seq<Snapshot>>
    var log: seq<AuditEntry>
    var counter: nat

    ghost function Model(): Store
      reads this
    {
      Store(records, snapshots, log, counter)
    }

    constructor ()
      ensures Model() == Empty
    {
      records, snapshots, log, counter := map[], map[], [], 0;
    }

    method DeclareLocked(op: Op) returns (fault: Option<StoreError>)
      requires op.Declare?
      modifies this
      ensures fault == StateFault(old(Model()), op)
      ensures Model() == if fault.Some? then old(Model()) else Applied(old(Model()), op)
    {
      var key := PairKey(op.tenant, op.id);
      if key in records {
        return Some(DuplicateRecord);
      }
      counter := counter + 1;
      records := records[key :=
        Record(Trim(op.id), Trim(op.tenant), Trim(op.kind), Trim(op.version), Accepted, op.now)];
      snapshots := snapshots[key := [NewSnapshot(op, Accepted)]];
      log := log + [Entry(op, counter, Declared, None, Some(Accepted), Trim(op.version))];
      return None;
    }

    method FindVersion(list: seq<Snapshot>, v: string) returns (found: bool)
      ensures found <==> HasVersion(list, v)
    {
      for n := 0 to |list|
        invariant forall i | 0 <= i < n :: list[i].version != v
      {
        if list[n].version == v {
          return true;
        }
      }
      return false;
    }

    method VersionLocked(op: Op) returns (fault: Option<StoreError>)
      requires op.NewVersion?
      modifies this
      ensures fault == StateFault(old(Model()), op)
      ensures Model() == if fault.Some? then old(Model()) else Applied(old(Model()), op)
    {
      var key := PairKey(op.tenant, op.id);
      if key !in records {
        return Some(RecordNotFound);
      }
      var rec := records[key];
      if rec.state == Archived {
        return Some(RecordArchived);
      }
      var history := if key in snapshots then snapshots[key] else [];
      var taken := FindVersion(history, Trim(op.version));
      if taken {
        return Some(DuplicateVersion);
      }
      counter := counter + 1;
      records := records[key := rec.(version := Trim(op.version))];
      snapshots := snapshots[key := history + [NewSnapshot(op, rec.state)]];
      log := log + [Entry(op, counter, Versioned, Some(rec.state), Some(rec.state), Trim(op.version))];
      return None;
    }

    method TransitionLocked(op: Op) returns (fault: Option<StoreError>)
      requires op.Transition?
      modifies this
      ensures fault == StateFault(old(Model()), op)
      ensures Model() == if fault.Some? then old(Model()) else Applied(old(Model()), op)
    {
      var key := PairKey(op.tenant, op.id);
      if key !in records {
        return Some(RecordNotFound);
      }
      var rec := records[key];
      if rec.state == op.target {
        return None;
      }
      if rec.state == Archived {
        return Some(RecordArchived);
      }
      match rec.state {
        case Draft =>
          if op.target != Accepted && op.target != Archived {
            return Some(InvalidTransition);
          }
        case Accepted =>
          if op.target != Archived {
            return Some(InvalidTransition);
          }
        case _ => return Some(InvalidTransition);
      }
      counter := counter + 1;
      records := records[key := rec.(state := op.target)];
      log := log + [Entry(op, counter, StateChanged, Some(rec.state), Some(op.target), rec.version)];
      return None;
    }

    method DenyLocked(op: Op) returns (fault: Option<StoreError>)
      requires op.Deny?
      modifies this
      ensures fault == StateFault(old(Model()), op)
      ensures Model() == if fault.Some? then old(Model()) else Applied(old(Model()), op)
    {
      counter := counter + 1;
      log := log + [Entry(op, counter, AccessDenied, None, None, "")];
      return None;
    }

    /** Every writing operation checks its arguments first and then takes its step under the lock. */
    method Perform(op: Op) returns (fault: Option<StoreError>)
      modifies this
      ensures fault == Fault(old(Model()), op)
      ensures Model() == Step(old(Model()), op)
    {
      fault := ArgumentFault(op);
      if fault.None? {
        match op {
          case Declare(_, _, _, _, _, _, _, _, _) => fault := DeclareLocked(op);
          case NewVersion(_, _, _, _, _, _, _) => fault := VersionLocked(op);
          case Transition(_, _, _, _, _, _) => fault := TransitionLocked(op);
          case Deny(_, _, _, _, _) => fault := DenyLocked(op);
        }
      }
    }

    method GetAuditTrail(tenant: string, id: string) returns (r: Result<seq<AuditEntry>, StoreError>)
      ensures r.Ok? <==> Trim(tenant) != "" && Trim(id) != "" && PairKey(tenant, id) in records
      ensures r.Ok? ==> r.value == NamedTrail(log, Trim(tenant), Trim(id))
    {
      if Trim(tenant) == "" {
        return Err(BlankTenantId);
      }
      if Trim(id) == "" {
        return Err(BlankId);
      }
      if PairKey(tenant, id) !in records {
        return Err(RecordNotFound);
      }
      var t, name := Trim(tenant), Trim(id);
      var trail := [];
      for n := 0 to |log|
        invariant trail == NamedTrail(log[..n], t, name)
      {
        assert log[..n + 1][..n] == log[..n];
        if log[n].tenant == t && log[n].record == name {
          trail := trail + [log[n]];
        }
      }
      assert log[..|log|] == log;
      return Ok(trail);
    }
  }
}
