/**
 The publication lifecycle: drafts that are reviewed, approved, published within a window and finally
 withdrawn, replaced or superseded, with an audit ledger that records every transition.
 */
module PublicationLifecycle {
  import opened Results
  import opened Text
  import opened Clock
  import opened Publication

  datatype LifecycleState = Draft | UnderReview | Approved | Published | Expired | Withdrawn | Replaced | Superseded

  datatype Managed = Managed(
    id: string, tenant: string, version: int, state: LifecycleState, approval: Approval, window: Window,
      contentDigest: string,
    successor: string, withdrawalReason: string, withdrawnBy: string, replacementReason: string)

  /** `from` is none for the registration of a draft. */
  datatype AuditRecord = AuditRecord(
    number: nat, tenant: string, snapshot: string, version: int, from: Option<LifecycleState>, to: LifecycleState,
    actor: string, role: string, at: Time, reason: string, approvalId: string)

  datatype State = State(snapshots: map<string, Managed>, ledger: seq<AuditRecord>, sequence: nat)

  const Empty: State := State(map[], [], 0)

  const NO_APPROVAL: Approval := Approval("", "", "", 0, "", "", "", 0)

  predicate Authorized(role: string) { role == "AUDITOR" || role == "TENANT_ADMIN" }

  predicate IsStale(a: Approval, now: Time) {
    a.approvedAt == 0 || (now >= a.approvedAt && Sub(now, a.approvedAt) > a.maxAge)
  }

  predicate IsExpired(w: Window, now: Time) { now >= w.expires }

  predicate IsEffective(w: Window, now: Time) { now >= w.from }

  function EffectiveState(x: Managed, now: Time): LifecycleState {
    if x.state == Published && IsExpired(x.window, now) then Expired else x.state
  }

  datatype Op =
    | Register(tenant: string, id: string, version: int, digest: string, creator: string, now: Time)
    | Submit(tenant: string, id: string, actor: string, role: string, now: Time)
    | Approve(tenant: string, id: string, evidence: Approval, now: Time)
    | Publish(tenant: string, id: string, actor: string, role: string, window: Window, now: Time)
    | Withdraw(tenant: string, id: string, actor: string, role: string, reason: string, now: Time)
    | Replace(tenant: string, id: string, successor: string, actor: string, role: string, reason: string, now: Time)
    | Supersede(tenant: string, id: string, successor: string, actor: string, role: string, now: Time)

  function Key(op: Op): string { PairKey(op.tenant, op.id) }

  function RegisterFault(s: State, op: Op): Option<PublicationError>
    requires op.Register?
  {
    if Trim(op.tenant) == "" then Some(BlankTenantId)
    else if Trim(op.id) == "" then Some(BlankSnapshotId)
    else if Trim(op.digest) == "" then Some(BlankDigest)
    else if op.version <= 0 then Some(InvalidVersion)
    else if Key(op) in s.snapshots then Some(SnapshotExists)
    else None
  }

  /** Arguments refused before the snapshot is looked up. */
  function ArgumentFault(op: Op): Option<PublicationError> {
    match op
    case Withdraw(_, _, _, role, reason, _) =>
      if Trim(reason) == "" then Some(MissingReason) else if !Authorized(role) then Some(UnauthorizedReviewer) else None
    case Replace(_, _, successor, _, _, reason, _) =>
      if Trim(successor) == "" then Some(BlankSuccessorId) else if Trim(reason) == "" then Some(MissingReason) else None
    case Supersede(_, _, successor, _, _, _) => if Trim(successor) == "" then Some(BlankSuccessorId) else None
    case _ => None
  }

  function TransitionFault(x: Managed, op: Op): Option<PublicationError> {
    match op
    case Register(_, _, _, _, _, _) => None
    case Submit(_, _, _, _, _) => if x.state != Draft then Some(IllegalTransition) else None
    case Approve(_, _, evidence, now) =>
      if x.state != UnderReview then Some(NotUnderReview)
      else if !Authorized(evidence.role) then Some(UnauthorizedReviewer)
      else if IsStale(evidence, now) then Some(StaleApproval)
      else if evidence.contentDigest != x.contentDigest then Some(DigestMismatch)
      else None
    case Publish(_, _, _, role, window, now) =>
      if x.state == Published then Some(DuplicateTransition)
      else if x.state != Approved then Some(IllegalTransition)
      else if !Authorized(role) then Some(UnauthorizedPublish)
      else if IsStale(x.approval, now) then Some(StaleApproval)
      else if !WindowValid(window) then Some(InvalidWindow)
      else if IsExpired(window, now) then Some(SnapshotExpired)
      else None
    case Withdraw(_, _, _, _, _, _) =>
      if x.state == Withdrawn then Some(DuplicateTransition)
      else if x.state != Published && x.state != Approved then Some(IllegalTransition)
      else None
    case Replace(_, _, _, _, _, _, _) => if x.state != Published then Some(IllegalTransition) else None
    case Supersede(_, _, _, _, _, _) => if x.state != Published then Some(IllegalTransition) else None
  }

  function Fault(s: State, op: Op): Option<PublicationError> {
    if op.Register? then RegisterFault(s, op)
    else if ArgumentFault(op).Some? then ArgumentFault(op)
    else if Key(op) !in s.snapshots then Some(SnapshotNotFound)
    else TransitionFault(s.snapshots[Key(op)], op)
  }

  function NewDraft(op: Op): Managed
    requires op.Register?
  {
    Managed(Trim(op.id), Trim(op.tenant), op.version, Draft, NO_APPROVAL, Window(0, 0), Trim(op.digest), "", "", "", "")
  }

  function Moved(x: Managed, op: Op): Managed {
    match op
    case Register(_, _, _, _, _, _) => x
    case Submit(_, _, _, _, _) => x.(state := UnderReview)
    case Approve(_, _, evidence, _) => x.(state := Approved, approval := evidence)
    case Publish(_, _, _, _, window, _) => x.(state := Published, window := window)
    case Withdraw(_, _, actor, _, reason, _) =>
      x.(state := Withdrawn, withdrawalReason := Trim(reason), withdrawnBy := actor)
    case Replace(_, _, successor, _, _, reason, _) =>
      x.(state := Replaced, successor := Trim(successor), replacementReason := Trim(reason))
    case Supersede(_, _, successor, _, _, _) => x.(state := Superseded, successor := Trim(successor))
  }

  function Entry(x: Managed, from: Option<LifecycleState>, op: Op, number: nat): AuditRecord {
    var e := AuditRecord(number, x.tenant, x.id, x.version, from, x.state, "", "", op.now, "", "");
    match op
    case Register(_, _, _, _, creator, _) =>
      e.(actor := creator, role := "CREATOR", reason := "Initial draft registration")
    case Submit(_, _, actor, role, _) => e.(actor := actor, role := role, reason := "Submitted for publication review")
    case Approve(_, _, evidence, _) =>
      e.(actor := evidence.approver, role := evidence.role, reason := evidence.notes, approvalId := evidence.id)
    case Publish(_, _, actor, role, _, _) =>
      e.(actor := actor, role := role, reason := "Published within authorized effective window",
         approvalId := x.approval.id)
    case Withdraw(_, _, actor, role, reason, _) => e.(actor := actor, role := role, reason := Trim(reason))
    case Replace(_, _, _, actor, role, reason, _) => e.(actor := actor, role := role, reason := Trim(reason))
    case Supersede(_, _, successor, actor, role, _) =>
      e.(actor := actor, role := role, reason := "Superseded by version " + Trim(successor))
  }

  function Put(s: State, k: string, x: Managed, e: AuditRecord): State {
    State(s.snapshots[k := x], s.ledger + [e], s.sequence + 1)
  }

  function Step(s: State, op: Op): State {
    if Fault(s, op).Some? then s
    else if op.Register? then Put(s, Key(op), NewDraft(op), Entry(NewDraft(op), None, op, s.sequence + 1))
    else
      var x := s.snapshots[Key(op)];
      Put(s, Key(op), Moved(x, op), Entry(Moved(x, op), Some(x.state), op, s.sequence + 1))
  }

  function Run(s: State, ops: seq<Op>): State
    decreases |ops|
  {
    if ops == [] then s else Run(Step(s, ops[0]), ops[1..])
  }

  /** Who acted in a call, in which role. */
  ghost function ActorOf(op: Op): (string, string) {
    match op
    case Register(_, _, _, _, creator, _) => (creator, "CREATOR")
    case Approve(_, _, evidence, _) => (evidence.approver, evidence.role)
    case _ => (op.actor, op.role)
  }

  /** Every accepted call leaves one ledger entry: the next number, who acted, when, and from which state to which. */
  lemma RecordedExactly(s: State, op: Op)
    requires Fault(s, op).None?
    ensures
      var u, k := Step(s, op), Key(op);
      && k in u.snapshots && |u.ledger| == |s.ledger| + 1 && u.ledger[..|s.ledger|] == s.ledger
      && var e, x := u.ledger[|s.ledger|], u.snapshots[k];
         && e.number == s.sequence + 1 == u.sequence && (e.actor, e.role) == ActorOf(op) && e.at == op.now
         && e.tenant == x.tenant && e.snapshot == x.id && e.version == x.version && e.to == x.state
         && e.from == (if op.Register? then None else Some(s.snapshots[k].state))
         && (op.Withdraw? || op.Replace? ==> e.reason == Trim(op.reason))
         && (op.Approve? ==> e.reason == op.evidence.notes && e.approvalId == op.evidence.id)
         && (op.Supersede? ==> e.reason == "Superseded by version " + Trim(op.successor))
  {}

  /** What an accepted call writes into the snapshot; everything else in it stays. */
  lemma WrittenExactly(s: State, op: Op)
    requires Fault(s, op).None?
    ensures
      var x := Step(s, op).snapshots[Key(op)];
      && (op.Register? ==>
            && x.id == Trim(op.id) && x.tenant == Trim(op.tenant) && x.version == op.version && x.state == Draft
            && x.contentDigest == Trim(op.digest) && x.successor == "" && x.approval == NO_APPROVAL)
      && (!op.Register? ==>
            var was := s.snapshots[Key(op)];
            && (x.id, x.tenant, x.version, x.contentDigest) == (was.id, was.tenant, was.version, was.contentDigest)
            && x.approval == (if op.Approve? then op.evidence else was.approval)
            && x.window == (if op.Publish? then op.window else was.window)
            && x.successor == (if op.Replace? || op.Supersede? then Trim(op.successor) else was.successor)
            && x.withdrawnBy == (if op.Withdraw? then op.actor else was.withdrawnBy)
            && x.withdrawalReason == (if op.Withdraw? then Trim(op.reason) else was.withdrawalReason)
            && x.replacementReason == (if op.Replace? then Trim(op.reason) else was.replacementReason))
      && forall k | k in s.snapshots && k != Key(op) :: k in Step(s, op).snapshots
           && Step(s, op).snapshots[k] == s.snapshots[k]
  {}

  /** The snapshot that a transition finds is in one of these states. */
  ghost predicate Found(s: State, op: Op, states: set<LifecycleState>) {
    Key(op) in s.snapshots && s.snapshots[Key(op)].state in states
  }

  /** The calls that are accepted, exactly, apart from approval and publication, and the state they lead to. */
  lemma TransitionsExactly(s: State, op: Op)
    ensures op.Register? ==> (Fault(s, op).None? <==>
      && Trim(op.tenant) != "" && Trim(op.id) != "" && Trim(op.digest) != "" && op.version > 0
         && Key(op) !in s.snapshots)
    ensures op.Submit? ==> (Fault(s, op).None? <==> Found(s, op, {Draft}))
    ensures op.Withdraw? ==> (Fault(s, op).None? <==>
      Found(s, op, {Approved, Published}) && Trim(op.reason) != "" && op.role in {"AUDITOR", "TENANT_ADMIN"})
    ensures op.Replace? ==> (Fault(s, op).None? <==>
      Found(s, op, {Published}) && Trim(op.reason) != "" && Trim(op.successor) != "")
    ensures op.Supersede? ==> (Fault(s, op).None? <==> Found(s, op, {Published}) && Trim(op.successor) != "")
    ensures Fault(s, op).None? && !op.Register? ==>
      && Key(op) in Step(s, op).snapshots
      && Step(s, op).snapshots[Key(op)].state ==
           match op
           case Submit(_, _, _, _, _) => UnderReview
           case Approve(_, _, _, _) => Approved
           case Publish(_, _, _, _, _, _) => Published
           case Withdraw(_, _, _, _, _, _) => Withdrawn
           case Replace(_, _, _, _, _, _, _) => Replaced
           case Supersede(_, _, _, _, _, _) => Superseded
           case Register(_, _, _, _, _, _) => Draft
  {}

  // ---- the ledger of one snapshot ----

  predicate Concerns(e: AuditRecord, tenant: string, id: string) { e.tenant == tenant && e.snapshot == id }

  function History(ledger: seq<AuditRecord>, tenant: string, id: string): seq<AuditRecord> {
    if ledger == [] then []
    else
      var n := |ledger| - 1;
      History(ledger[..n], tenant, id) + (if Concerns(ledger[n], tenant, id) then [ledger[n]] else [])
  }

  /**
   The state that a history leads to when read entry by entry; none as soon as an entry does not continue from the
   last.
   */
  function Replay(h: seq<AuditRecord>): Option<Option<LifecycleState>> {
    if h == [] then Some(None)
    else
      var n := |h| - 1;
      if Replay(h[..n]) == Some(h[n].from) then Some(Some(h[n].to)) else None
  }

  function Rank(state: LifecycleState): nat {
    match state case Draft => 0 case UnderReview => 1 case Approved => 2 case Published => 3 case _ => 4
  }

  predicate Final(state: LifecycleState) { Rank(state) == 4 }

  /** What each recorded transition proves about the snapshot. */
  ghost predicate EntryValid(x: Managed, e: AuditRecord) {
    && e.version == x.version && Rank(e.to) <= Rank(x.state)
    && match e.to
       case Draft => e.from == None
       case UnderReview => e.from == Some(Draft)
       case Approved =>
         && e.from == Some(UnderReview)
         && Authorized(x.approval.role) && x.approval.contentDigest == x.contentDigest && !IsStale(x.approval, e.at)
         && e.approvalId == x.approval.id && e.role == x.approval.role && e.actor == x.approval.approver
       case Published =>
         && e.from == Some(Approved)
         && Authorized(e.role) && !IsStale(x.approval, e.at) && e.approvalId == x.approval.id
         && WindowValid(x.window) && e.at < x.window.expires
       case Expired => false
       case Withdrawn =>
         && (e.from == Some(Approved) || e.from == Some(Published))
         && Authorized(e.role) && e.reason == x.withdrawalReason != "" && e.actor == x.withdrawnBy
       case Replaced => e.from == Some(Published) && e.reason == x.replacementReason != "" && x.successor != ""
       case Superseded => e.from == Some(Published) && x.successor != ""
  }

  ghost predicate EntryValidAt(x: Managed, h: seq<AuditRecord>, i: nat) {
    i < |h| ==> EntryValid(x, h[i]) && h[i].from == (if i == 0 then None else Some(h[i - 1].to))
  }

  ghost predicate HistoryValid(x: Managed, h: seq<AuditRecord>) {
    && h != [] && h[|h| - 1].to == x.state
    && forall i :: EntryValidAt(x, h, i)
  }

  ghost predicate KeyValid(s: State, k: string) {
    k in s.snapshots ==>
      && PairKey(s.snapshots[k].tenant, s.snapshots[k].id) == k
      && HistoryValid(s.snapshots[k], History(s.ledger, s.snapshots[k].tenant, s.snapshots[k].id))
  }

  ghost predicate RecordValid(s: State, i: nat) {
    i < |s.ledger| ==>
      && s.ledger[i].number == i + 1
      && PairKey(s.ledger[i].tenant, s.ledger[i].snapshot) in s.snapshots
  }

  ghost predicate Valid(s: State) {
    && s.sequence == |s.ledger|
    && (forall k :: KeyValid(s, k))
    && (forall i :: RecordValid(s, i))
  }

  // ---- every step keeps it ----

  lemma HistoryAppend(ledger: seq<AuditRecord>, e: AuditRecord, tenant: string, id: string)
    ensures History(ledger + [e], tenant, id)
      == History(ledger, tenant, id) + (if Concerns(e, tenant, id) then [e] else [])
  {
    assert (ledger + [e])[..|ledger|] == ledger;
  }

  lemma {:induction false} NoHistory(ledger: seq<AuditRecord>, tenant: string, id: string)
    requires forall i | 0 <= i < |ledger| :: !Concerns(ledger[i], tenant, id)
    ensures History(ledger, tenant, id) == []
  {
    if ledger != [] {
      NoHistory(ledger[..|ledger| - 1], tenant, id);
    }
  }

  /** Earlier entries keep their meaning when a snapshot moves up. */
  lemma EntryKept(x: Managed, y: Managed, e: AuditRecord)
    requires EntryValid(x, e) && Rank(x.state) < Rank(y.state)
    requires y.version == x.version && y.contentDigest == x.contentDigest
    requires (Rank(x.state) >= 2 ==> y.approval == x.approval) && (Rank(x.state) >= 3 ==> y.window == x.window)
    ensures EntryValid(y, e)
  {}

  lemma HistoryExtended(x: Managed, y: Managed, h: seq<AuditRecord>, e: AuditRecord)
    requires HistoryValid(x, h) && EntryValid(y, e) && e.from == Some(x.state) && e.to == y.state
    requires Rank(x.state) < Rank(y.state) && y.version == x.version && y.contentDigest == x.contentDigest
    requires (Rank(x.state) >= 2 ==> y.approval == x.approval) && (Rank(x.state) >= 3 ==> y.window == x.window)
    ensures HistoryValid(y, h + [e])
  {
    var g := h + [e];
    forall i: nat ensures EntryValidAt(y, g, i) {
      if i < |h| {
        assert EntryValidAt(x, h, i);
        EntryKept(x, y, h[i]);
      }
    }
  }

  /** Writing one snapshot with its ledger entry. */
  lemma PutValid(s: State, k: string, x: Managed, e: AuditRecord)
    requires Valid(s) && PairKey(x.tenant, x.id) == k && Concerns(e, x.tenant, x.id) && e.number == s.sequence + 1
    requires HistoryValid(x, History(s.ledger, x.tenant, x.id) + [e])
    ensures Valid(Put(s, k, x, e))
  {
    var t := Put(s, k, x, e);
    forall j ensures KeyValid(t, j) {
      assert KeyValid(s, j);
      if j in t.snapshots {
        var tenant, id := t.snapshots[j].tenant, t.snapshots[j].id;
        HistoryAppend(s.ledger, e, tenant, id);
        assert j != k ==> History(t.ledger, tenant, id) == History(s.ledger, tenant, id);
      }
    }
    forall i: nat ensures RecordValid(t, i) {
      assert RecordValid(s, i);
    }
  }

  lemma DraftValid(s: State, op: Op)
    requires Valid(s) && op.Register? && RegisterFault(s, op).None?
    ensures Valid(Step(s, op))
  {
    var x := NewDraft(op);
    var e := Entry(x, None, op, s.sequence + 1);
    TrimIdempotent(op.tenant);
    TrimIdempotent(op.id);
    forall i | 0 <= i < |s.ledger| ensures !Concerns(s.ledger[i], x.tenant, x.id) {
      assert RecordValid(s, i);
    }
    NoHistory(s.ledger, x.tenant, x.id);
    assert [] + [e] == [e];
    forall i: nat ensures EntryValidAt(x, [e], i) {}
    PutValid(s, Key(op), x, e);
  }

  lemma EntryEarned(x: Managed, op: Op, number: nat)
    requires !op.Register? && ArgumentFault(op).None? && TransitionFault(x, op).None?
    ensures var y := Moved(x, op); EntryValid(y, Entry(y, Some(x.state), op, number))
  {}

  lemma MovedKeeps(x: Managed, op: Op)
    requires !op.Register? && TransitionFault(x, op).None?
    ensures var y := Moved(x, op);
      && Rank(x.state) < Rank(y.state)
      && y.tenant == x.tenant && y.id == x.id && y.version == x.version && y.contentDigest == x.contentDigest
      && (Rank(x.state) >= 2 ==> y.approval == x.approval) && (Rank(x.state) >= 3 ==> y.window == x.window)
  {}

  lemma MoveValid(s: State, op: Op)
    requires Valid(s) && !op.Register? && Fault(s, op).None?
    ensures Valid(Step(s, op))
  {
    var k := Key(op);
    var x := s.snapshots[k];
    var y := Moved(x, op);
    var e := Entry(y, Some(x.state), op, s.sequence + 1);
    assert KeyValid(s, k);
    EntryEarned(x, op, s.sequence + 1);
    MovedKeeps(x, op);
    HistoryExtended(x, y, History(s.ledger, x.tenant, x.id), e);
    PutValid(s, k, y, e);
  }

  lemma {:induction false} RunValid(s: State, ops: seq<Op>)
    requires Valid(s)
    ensures Valid(Run(s, ops))
    decreases |ops|
  {
    if ops != [] {
      if Fault(s, ops[0]).None? {
        if ops[0].Register? {
          DraftValid(s, ops[0]);
        } else {
          MoveValid(s, ops[0]);
        }
      }
      RunValid(Step(s, ops[0]), ops[1..]);
    }
  }

  // ---- what the invariant means ----

  lemma {:induction false} ReplayPrefix(x: Managed, h: seq<AuditRecord>, n: nat)
    requires HistoryValid(x, h) && 0 < n <= |h|
    ensures Replay(h[..n]) == Some(Some(h[n - 1].to))
    decreases n
  {
    assert EntryValidAt(x, h, n - 1);
    assert h[..n][..n - 1] == h[..n - 1];
    if n > 1 {
      ReplayPrefix(x, h, n - 1);
    }
  }

  /** Replaying a snapshot's ledger gives its stored state, for every run. */
  lemma LedgerReplaysToState(ops: seq<Op>, k: string)
    ensures var s := Run(Empty, ops);
      k in s.snapshots ==>
        Replay(History(s.ledger, s.snapshots[k].tenant, s.snapshots[k].id)) == Some(Some(s.snapshots[k].state))
  {
    RunValid(Empty, ops);
    var s := Run(Empty, ops);
    assert KeyValid(s, k);
    if k in s.snapshots {
      var h := History(s.ledger, s.snapshots[k].tenant, s.snapshots[k].id);
      ReplayPrefix(s.snapshots[k], h, |h|);
      assert h[..|h|] == h;
    }
  }

  /**
   A published snapshot went through exactly four steps, with a fresh, authorized, matching approval at both of the
   last two.
   */
  lemma PublishedMeansApproved(s: State, k: string)
    requires Valid(s) && k in s.snapshots && s.snapshots[k].state == Published
    ensures var x, h := s.snapshots[k], History(s.ledger, s.snapshots[k].tenant, s.snapshots[k].id);
      && |h| == 4 && h[0].to == Draft && h[1].to == UnderReview && h[2].to == Approved && h[3].to == Published
      && Authorized(x.approval.role) && x.approval.contentDigest == x.contentDigest
      && !IsStale(x.approval, h[2].at) && !IsStale(x.approval, h[3].at)
      && Authorized(h[3].role) && WindowValid(x.window) && h[3].at < x.window.expires
  {
    assert KeyValid(s, k);
    var x, h := s.snapshots[k], History(s.ledger, s.snapshots[k].tenant, s.snapshots[k].id);
    HistoryUpTo(x, h, |h| - 1);
  }

  /** A snapshot that was replaced or superseded was published first, with the same guarantees. */
  lemma ReplacedMeansPublished(s: State, k: string)
    requires Valid(s) && k in s.snapshots && (s.snapshots[k].state == Replaced || s.snapshots[k].state == Superseded)
    ensures var x, h := s.snapshots[k], History(s.ledger, s.snapshots[k].tenant, s.snapshots[k].id);
      && |h| == 5 && h[2].to == Approved && h[3].to == Published
      && Authorized(x.approval.role) && x.approval.contentDigest == x.contentDigest
      && !IsStale(x.approval, h[2].at) && !IsStale(x.approval, h[3].at) && x.successor != ""
  {
    assert KeyValid(s, k);
    var x, h := s.snapshots[k], History(s.ledger, s.snapshots[k].tenant, s.snapshots[k].id);
    var n := |h| - 1;
    assert EntryValidAt(x, h, n);
    assert n > 0 && h[n - 1].to == Published;
    HistoryUpTo(x, h, n - 1);
  }

  lemma HistoryUpTo(x: Managed, h: seq<AuditRecord>, n: nat)
    requires HistoryValid(x, h) && n < |h| && h[n].to == Published
    ensures n == 3 && h[0].to == Draft && h[1].to == UnderReview && h[2].to == Approved
    ensures EntryValid(x, h[2]) && EntryValid(x, h[3])
  {
    assert EntryValidAt(x, h, n);
    assert n > 0 && h[n - 1].to == Approved;
    assert EntryValidAt(x, h, n - 1);
    assert n > 1 && h[n - 2].to == UnderReview;
    assert EntryValidAt(x, h, n - 2);
    assert n > 2 && h[n - 3].to == Draft;
    assert EntryValidAt(x, h, n - 3);
  }

  /** Withdrawn, replaced and superseded snapshots never change again; the ledger only grows. */
  lemma {:induction false} FinalIsForever(s: State, ops: seq<Op>, k: string)
    requires k in s.snapshots && Final(s.snapshots[k].state)
    ensures k in Run(s, ops).snapshots && Run(s, ops).snapshots[k] == s.snapshots[k]
    ensures s.ledger <= Run(s, ops).ledger
    decreases |ops|
  {
    if ops != [] {
      assert Key(ops[0]) == k ==> Fault(s, ops[0]).Some?;
      FinalIsForever(Step(s, ops[0]), ops[1..], k);
    }
  }

  /** The step taken and the answer given: the stored snapshot, or the first fault. */
  ghost predicate Replies(s: State, op: Op, r: Result<Managed, PublicationError>, after: State) {
    && after == Step(s, op)
    && match Fault(s, op)
       case Some(e) => r == Err(e)
       case None => Key(op) in after.snapshots && r == Ok(after.snapshots[Key(op)])
  }

  class Controller {
    var snapshots: map<string, Managed>
    var ledger: seq<AuditRecord>
    var sequence: nat

    ghost function Model(): State
      reads this
    {
      State(snapshots, ledger, sequence)
    }

    constructor ()
      ensures Model() == Empty
    {
      snapshots, ledger, sequence := map[], [], 0;
    }

    /** Stores a snapshot and appends its audit record under the next number. */
    method Save(key: string, x: Managed, from: Option<LifecycleState>, actor: string, role: string, at: Time,
        reason: string, approvalId: string)
      modifies this
      ensures Model() == Put(old(Model()), key, x,
        AuditRecord(old(sequence) + 1, x.tenant, x.id, x.version, from, x.state, actor, role, at, reason, approvalId))
    {
      snapshots := snapshots[key := x];
      sequence := sequence + 1;
      ledger := ledger
        + [AuditRecord(sequence, x.tenant, x.id, x.version, from, x.state, actor, role, at, reason, approvalId)];
    }

    method RegisterDraft(tenant: string, id: string, version: int, digest: string, creator: string, now: Time)
      returns (r: Result<Managed, PublicationError>)
      modifies this
      ensures Replies(old(Model()), Register(tenant, id, version, digest, creator, now), r, Model())
    {
      var t, name, content := Trim(tenant), Trim(id), Trim(digest);
      if t == "" {
        return Err(BlankTenantId);
      }
      if name == "" {
        return Err(BlankSnapshotId);
      }
      if content == "" {
        return Err(BlankDigest);
      }
      if version <= 0 {
        return Err(InvalidVersion);
      }
      var key := PairKey(tenant, id);
      if key in snapshots {
        return Err(SnapshotExists);
      }
      var x := Managed(name, t, version, Draft, NO_APPROVAL, Window(0, 0), content, "", "", "", "");
      Save(key, x, None, creator, "CREATOR", now, "Initial draft registration", "");
      return Ok(x);
    }

    method SubmitForReview(tenant: string, id: string, actor: string, role: string, now: Time)
      returns (r: Result<Managed, PublicationError>)
      modifies this
      ensures Replies(old(Model()), Submit(tenant, id, actor, role, now), r, Model())
    {
      var key := PairKey(tenant, id);
      if key !in snapshots {
        return Err(SnapshotNotFound);
      }
      var x := snapshots[key];
      if x.state != Draft {
        return Err(IllegalTransition);
      }
      x := x.(state := UnderReview);
      Save(key, x, Some(Draft), actor, role, now, "Submitted for publication review", "");
      return Ok(x);
    }

    method ApproveSnapshot(tenant: string, id: string, evidence: Approval, now: Time)
      returns (r: Result<Managed, PublicationError>)
      modifies this
      ensures Replies(old(Model()), Approve(tenant, id, evidence, now), r, Model())
      ensures r.Ok? <==>
        && PairKey(tenant, id) in old(snapshots)
        && var x := old(snapshots)[PairKey(tenant, id)];
          && x.state == UnderReview && Authorized(evidence.role) && evidence.contentDigest == x.contentDigest
          && evidence.approvedAt != 0 && (now < evidence.approvedAt || Sub(now, evidence.approvedAt) <= evidence.maxAge)
    {
      var key := PairKey(tenant, id);
      if key !in snapshots {
        return Err(SnapshotNotFound);
      }
      var x := snapshots[key];
      if x.state != UnderReview {
        return Err(NotUnderReview);
      }
      if !Authorized(evidence.role) {
        return Err(UnauthorizedReviewer);
      }
      if IsStale(evidence, now) {
        return Err(StaleApproval);
      }
      if evidence.contentDigest != x.contentDigest {
        return Err(DigestMismatch);
      }
      x := x.(state := Approved, approval := evidence);
      Save(key, x, Some(UnderReview), evidence.approver, evidence.role, now, evidence.notes, evidence.id);
      return Ok(x);
    }

    method PublishSnapshot(tenant: string, id: string, actor: string, role: string, window: Window, now: Time)
      returns (r: Result<Managed, PublicationError>)
      modifies this
      ensures Replies(old(Model()), Publish(tenant, id, actor, role, window, now), r, Model())
      ensures r.Ok? <==>
        && PairKey(tenant, id) in old(snapshots)
        && var x := old(snapshots)[PairKey(tenant, id)];
          && x.state == Approved && Authorized(role) && !IsStale(x.approval, now)
          && window.from != 0 && window.expires != 0 && now < window.expires
          && 0 < window.expires - window.from <= MAX_WINDOW
    {
      var key := PairKey(tenant, id);
      if key !in snapshots {
        return Err(SnapshotNotFound);
      }
      var x := snapshots[key];
      if x.state == Published {
        return Err(DuplicateTransition);
      }
      if x.state != Approved {
        return Err(IllegalTransition);
      }
      if !Authorized(role) {
        return Err(UnauthorizedPublish);
      }
      if IsStale(x.approval, now) {
        return Err(StaleApproval);
      }
      if !WindowValid(window) {
        return Err(InvalidWindow);
      }
      if IsExpired(window, now) {
        return Err(SnapshotExpired);
      }
      x := x.(state := Published, window := window);
      Save(key, x, Some(Approved), actor, role, now, "Published within authorized effective window", x.approval.id);
      return Ok(x);
    }

    method WithdrawSnapshot(tenant: string, id: string, actor: string, role: string, reason: string, now: Time)
      returns (r: Result<Managed, PublicationError>)
      modifies this
      ensures Replies(old(Model()), Withdraw(tenant, id, actor, role, reason, now), r, Model())
    {
      var why := Trim(reason);
      if why == "" {
        return Err(MissingReason);
      }
      if !Authorized(role) {
        return Err(UnauthorizedReviewer);
      }
      var key := PairKey(tenant, id);
      if key !in snapshots {
        return Err(SnapshotNotFound);
      }
      var x := snapshots[key];
      if x.state == Withdrawn {
        return Err(DuplicateTransition);
      }
      if x.state != Published && x.state != Approved {
        return Err(IllegalTransition);
      }
      var prior := x.state;
      x := x.(state := Withdrawn, withdrawalReason := why, withdrawnBy := actor);
      Save(key, x, Some(prior), actor, role, now, why, "");
      return Ok(x);
    }

    method ReplaceSnapshot(tenant: string, id: string, successor: string, actor: string, role: string, reason: string,
        now: Time)
      returns (r: Result<Managed, PublicationError>)
      modifies this
      ensures Replies(old(Model()), Replace(tenant, id, successor, actor, role, reason, now), r, Model())
    {
      var next, why := Trim(successor), Trim(reason);
      if next == "" {
        return Err(BlankSuccessorId);
      }
      if why == "" {
        return Err(MissingReason);
      }
      var key := PairKey(tenant, id);
      if key !in snapshots {
        return Err(SnapshotNotFound);
      }
      var x := snapshots[key];
      if x.state != Published {
        return Err(IllegalTransition);
      }
      x := x.(state := Replaced, successor := next, replacementReason := why);
      Save(key, x, Some(Published), actor, role, now, why, "");
      return Ok(x);
    }

    method SupersedeSnapshot(tenant: string, id: string, successor: string, actor: string, role: string, now: Time)
      returns (r: Result<Managed, PublicationError>)
      modifies this
      ensures Replies(old(Model()), Supersede(tenant, id, successor, actor, role, now), r, Model())
    {
      var next := Trim(successor);
      if next == "" {
        return Err(BlankSuccessorId);
      }
      var key := PairKey(tenant, id);
      if key !in snapshots {
        return Err(SnapshotNotFound);
      }
      var x := snapshots[key];
      if x.state != Published {
        return Err(IllegalTransition);
      }
      x := x.(state := Superseded, successor := next);
      Save(key, x, Some(Published), actor, role, now, "Superseded by version " + next, "");
      return Ok(x);
    }

    method GetHistory(tenant: string, id: string) returns (r: Result<seq<AuditRecord>, PublicationError>)
      ensures r.Ok? <==> Trim(tenant) != "" && Trim(id) != ""
      ensures r.Ok? ==> r.value == History(ledger, Trim(tenant), Trim(id))
    {
      if Trim(tenant) == "" {
        return Err(BlankTenantId);
      }
      if Trim(id) == "" {
        return Err(BlankSnapshotId);
      }
      var t, s := Trim(tenant), Trim(id);
      var history := [];
      for n := 0 to |ledger|
        invariant history == History(ledger[..n], t, s)
      {
        assert ledger[..n + 1][..n] == ledger[..n];
        if ledger[n].tenant == t && ledger[n].snapshot == s {
          history := history + [ledger[n]];
        }
      }
      assert ledger[..|ledger|] == ledger;
      return Ok(history);
    }

    /** A snapshot is served exactly when it is stored as published and now is within its window. */
    method GetActivePublishedSnapshot(tenant: string, id: string, now: Time)
      returns (r: Result<Managed, PublicationError>)
      ensures r.Ok? <==>
        && PairKey(tenant, id) in snapshots
        && var x := snapshots[PairKey(tenant, id)];
          x.state == Published && x.window.from <= now < x.window.expires
      ensures r.Ok? ==> r.value == snapshots[PairKey(tenant, id)]
      ensures r == Err(SnapshotExpired) <==>
        && PairKey(tenant, id) in snapshots
        && var x := snapshots[PairKey(tenant, id)];
          x.state == Expired || (x.state == Published && x.window.expires <= now)
    {
      var key := PairKey(tenant, id);
      if key !in snapshots {
        return Err(SnapshotNotFound);
      }
      var x := snapshots[key];
      x := x.(state := EffectiveState(x, now));
      if x.state == Expired {
        return Err(SnapshotExpired);
      }
      if x.state == Withdrawn {
        return Err(SnapshotWithdrawn);
      }
      if x.state == Replaced || x.state == Superseded {
        return Err(IllegalTransition);
      }
      if x.state != Published {
        return Err(IllegalTransition);
      }
      if !IsEffective(x.window, now) {
        return Err(NotYetEffective);
      }
      return Ok(x);
    }
  }
}
