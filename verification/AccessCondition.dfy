/**
 Time-bounded access conditions of external users: sponsor changes, renewals and revocation, each of
 which advances the condition's generation and is recorded in an audit ledger.
 */
module AccessCondition {
  import opened Results
  import opened Text
  import opened Clock

  const MAX_ACCESS: Duration := 14 * DAY
  const MAX_EXTENSION: Duration := 7 * DAY

  datatype Status = Active | Suspended | Revoked

  datatype Condition = Condition(
    id: string, tenant: string, subject: string, project: string, site: string, sponsor: string, from: Time, to: Time,
    status: Status, generation: int, renewals: nat, lastRenewedAt: Time, revocationReason: string, revokedAt: Time)

  datatype ConditionError =
    | TrustedDeviceProhibited | BlankConditionId | BlankTenantId | BlankSubject | InvalidSubject | BlankProjectId
    | MissingSponsor
    | InvalidSponsor | InvalidTimeWindow | DurationExceeded | DuplicateConditionId | NotFound | Inactive
    | ExpiredCondition
    | SponsorUnchanged | AlreadyRevoked | SuspendedCondition | RenewalExceeded | BlankReason

  predicate UserPrefixed(s: string) { "usr_" <= s || "usr-" <= s }

  function SubjectFault(s: string): Option<ConditionError> {
    if Trim(s) == "" then Some(BlankSubject) else if !UserPrefixed(Trim(s)) then Some(InvalidSubject) else None
  }

  function SponsorFault(s: string): Option<ConditionError> {
    var t := Trim(s);
    if t == "" then Some(MissingSponsor)
    else if !UserPrefixed(t) || Contains(t, "_ext_") || Contains(t, "-ext-") || "usr_ext" <= t then Some(InvalidSponsor)
    else None
  }

  /** A condition as it is first built: active, first generation, at most fourteen days. */
  ghost predicate Fresh(c: Condition) {
    c.status == Active && c.generation == 1 && c.renewals == 0 && 0 < c.to - c.from <= MAX_ACCESS
  }

  method NewCondition(
    id: string, tenant: string, subject: string, project: string, site: string, sponsor: string, trustedDevice: bool,
    offline: bool, from: Time, to: Time) returns (r: Result<Condition, ConditionError>)
    ensures r.Ok? <==>
      && !trustedDevice && !offline && Trim(id) != "" && Trim(tenant) != "" && SubjectFault(subject).None?
      && Trim(project) != "" && SponsorFault(sponsor).None? && 0 < to - from <= MAX_ACCESS
    ensures r.Ok? ==>
      && Fresh(r.value) && r.value.from == from && r.value.to == to && r.value.id == Trim(id)
         && r.value.tenant == Trim(tenant)
      && r.value.subject == Trim(subject) && r.value.project == Trim(project) && r.value.site == Trim(site)
      && r.value.sponsor == Trim(sponsor)
  {
    if trustedDevice || offline {
      return Err(TrustedDeviceProhibited);
    }
    if Trim(id) == "" {
      return Err(BlankConditionId);
    }
    if Trim(tenant) == "" {
      return Err(BlankTenantId);
    }
    if SubjectFault(subject).Some? {
      return Err(SubjectFault(subject).value);
    }
    if Trim(project) == "" {
      return Err(BlankProjectId);
    }
    if SponsorFault(sponsor).Some? {
      return Err(SponsorFault(sponsor).value);
    }
    if to <= from {
      return Err(InvalidTimeWindow);
    }
    if Sub(to, from) > MAX_ACCESS {
      return Err(DurationExceeded);
    }
    return Ok(Condition(Trim(id), Trim(tenant), Trim(subject), Trim(project), Trim(site), Trim(sponsor), from, to,
      Active, 1, 0, 0, "", 0));
  }

  // ---- the registry ----

  datatype Transition = Created | SponsorChanged | Renewed | Deactivated

  datatype AuditRecord = AuditRecord(
    tenant: string, id: string, subject: string, transition: Transition, priorSponsor: string, newSponsor: string,
    priorGeneration: int, newGeneration: int, newValidTo: Time, newStatus: Status, actor: string, reason: string,
      at: Time)

  datatype State = State(conditions: map<string, Condition>, ledger: seq<AuditRecord>)

  const Empty: State := State(map[], [])

  datatype Op =
    | Create(tenant: string, id: string, actor: string, reason: string, at: Time, c: Condition)
    | Reassign(tenant: string, id: string, actor: string, reason: string, at: Time, sponsor: string)
    | Renew(tenant: string, id: string, actor: string, reason: string, at: Time, extension: Duration)
    | Deactivate(tenant: string, id: string, actor: string, reason: string, at: Time)

  function Key(op: Op): string { if op.Create? then PairKey(op.c.tenant, op.c.id) else PairKey(op.tenant, op.id) }

  predicate ValidAt(c: Condition, t: Time) { c.status == Active && c.from <= t <= c.to }

  function ChangeFault(c: Condition, op: Op): Option<ConditionError> {
    match op
    case Create(_, _, _, _, _, _) => None
    case Reassign(_, _, _, _, at, sponsor) =>
      if c.status != Active then Some(Inactive)
      else if !ValidAt(c, at) then Some(ExpiredCondition)
      else if SponsorFault(Trim(sponsor)).Some? then SponsorFault(Trim(sponsor))
      else if Trim(sponsor) == c.sponsor then Some(SponsorUnchanged)
      else None
    case Renew(_, _, _, _, _, extension) =>
      if c.status == Revoked then Some(AlreadyRevoked)
      else if c.status == Suspended then Some(SuspendedCondition)
      else if extension <= 0 || extension > MAX_EXTENSION then Some(RenewalExceeded)
      else None
    case Deactivate(_, _, _, reason, _) =>
      if c.status == Revoked then Some(AlreadyRevoked) else if Trim(reason) == "" then Some(BlankReason) else None
  }

  function Fault(s: State, op: Op): Option<ConditionError> {
    if op.Create? then
      if op.c.tenant == "" || op.c.id == "" then Some(BlankConditionId)
      else if Key(op) in s.conditions then Some(DuplicateConditionId)
      else None
    else if Key(op) !in s.conditions then Some(NotFound)
    else ChangeFault(s.conditions[Key(op)], op)
  }

  function Changed(c: Condition, op: Op): Condition {
    match op
    case Create(_, _, _, _, _, fresh') => fresh'
    case Reassign(_, _, _, _, _, sponsor) => c.(sponsor := Trim(sponsor), generation := c.generation + 1)
    case Renew(_, _, _, _, at, extension) =>
      c.(to := c.to + extension, status := Active, generation := c.generation + 1, renewals := c.renewals + 1,
        lastRenewedAt := at)
    case Deactivate(_, _, _, reason, at) =>
      c.(status := Revoked, generation := c.generation + 1, revokedAt := at, revocationReason := Trim(reason))
  }

  /** The ledger entry of a change from `c` to `d`; for a creation `c` is the new condition itself. */
  function Entry(c: Condition, d: Condition, op: Op): AuditRecord {
    var e := AuditRecord(d.tenant, d.id, d.subject, Created, "", "", c.generation, d.generation, 0, d.status,
      Trim(op.actor), Trim(op.reason), op.at);
    match op
    case Create(_, _, _, _, _, _) => e.(priorGeneration := 0, newValidTo := d.to)
    case Reassign(_, _, _, _, _, _) =>
      e.(transition := SponsorChanged, priorSponsor := c.sponsor, newSponsor := d.sponsor)
    case Renew(_, _, _, _, _, _) => e.(transition := Renewed, newValidTo := d.to)
    case Deactivate(_, _, _, _, _) => e.(transition := Deactivated)
  }

  function Put(s: State, k: string, d: Condition, e: AuditRecord): State { State(s.conditions[k := d], s.ledger + [e]) }

  function Step(s: State, op: Op): State {
    if Fault(s, op).Some? then s
    else
      var c := if op.Create? then op.c else s.conditions[Key(op)];
      Put(s, Key(op), Changed(c, op), Entry(c, Changed(c, op), op))
  }

  function Run(s: State, ops: seq<Op>): State
    decreases |ops|
  {
    if ops == [] then s else Run(Step(s, ops[0]), ops[1..])
  }

  /** The changes that are accepted, exactly, and what they change. */
  lemma ChangedExactly(c: Condition, op: Op)
    ensures op.Reassign? ==> (ChangeFault(c, op).None? <==>
      c.status == Active && c.from <= op.at <= c.to && SponsorFault(Trim(op.sponsor)).None?
        && Trim(op.sponsor) != c.sponsor)
    ensures op.Renew? ==> (ChangeFault(c, op).None? <==> c.status == Active && 0 < op.extension <= 7 * DAY)
    ensures op.Deactivate? ==> (ChangeFault(c, op).None? <==> c.status != Revoked && Trim(op.reason) != "")
    ensures !op.Create? ==>
      var d := Changed(c, op);
      && d.generation == c.generation + 1 && d.from == c.from && d.project == c.project && d.site == c.site
      && d.subject == c.subject && d.tenant == c.tenant && d.id == c.id
      && d.sponsor == (if op.Reassign? then Trim(op.sponsor) else c.sponsor)
      && d.to == c.to + (if op.Renew? then op.extension else 0)
      && d.renewals == c.renewals + (if op.Renew? then 1 else 0)
      && (op.Deactivate? ==> d.status == Revoked && d.revocationReason == Trim(op.reason) && d.revokedAt == op.at)
      && (op.Reassign? ==> d.status == c.status) && (op.Renew? ==> d.status == Active && d.lastRenewedAt == op.at)
  {}

  /** A condition is stored exactly under a new name, and subjects are user identifiers. */
  lemma CreatedExactly(s: State, op: Op, subject: string)
    requires op.Create?
    ensures
      var k := PairKey(op.c.tenant, op.c.id);
      if op.c.tenant != "" && op.c.id != "" && k !in s.conditions then
        Step(s, op).conditions == s.conditions[k := op.c] && |Step(s, op).ledger| == |s.ledger| + 1
      else Step(s, op) == s && Fault(s, op).Some?
    ensures SubjectFault(subject).None? <==> exists x :: Trim(subject) == "usr_" + x || Trim(subject) == "usr-" + x
  {
    StartsWith(Trim(subject), "usr_");
    StartsWith(Trim(subject), "usr-");
  }

  /** Every accepted call leaves one ledger entry, which names the condition and who changed it, why and when. */
  lemma RecordedExactly(s: State, op: Op)
    requires Fault(s, op).None?
    ensures
      var u := Step(s, op);
      && Key(op) in u.conditions && |u.ledger| == |s.ledger| + 1 && u.ledger[..|s.ledger|] == s.ledger
      && var e, d := u.ledger[|s.ledger|], u.conditions[Key(op)];
         && e.tenant == d.tenant && e.id == d.id && e.subject == d.subject && e.newGeneration == d.generation
         && e.newStatus == d.status && e.actor == Trim(op.actor) && e.reason == Trim(op.reason) && e.at == op.at
         && (op.Create? || op.Renew? ==> e.newValidTo == d.to)
         && (op.Reassign? ==> e.priorSponsor == s.conditions[Key(op)].sponsor && e.newSponsor == d.sponsor)
         && (!op.Create? ==> e.priorGeneration == s.conditions[Key(op)].generation)
         && e.transition == match op
                            case Create(_, _, _, _, _, _) => Created
                            case Reassign(_, _, _, _, _, _) => SponsorChanged
                            case Renew(_, _, _, _, _, _) => Renewed
                            case Deactivate(_, _, _, _, _) => Deactivated
  {}

  /** Internal sponsors: user identifiers without an external marker. */
  lemma SponsorExactly(s: string)
    ensures SponsorFault(s).None? <==>
      && (exists x :: Trim(s) == "usr_" + x || Trim(s) == "usr-" + x) && !(exists x :: Trim(s) == "usr_ext" + x)
      && !(exists x, y :: Trim(s) == x + "_ext_" + y) && !(exists x, y :: Trim(s) == x + "-ext-" + y)
  {
    var t := Trim(s);
    ContainsExactly(t, "_ext_");
    ContainsExactly(t, "-ext-");
    StartsWith(t, "usr_");
    StartsWith(t, "usr-");
    StartsWith(t, "usr_ext");
  }

  /** Only fresh conditions are created. */
  ghost predicate Feeds(ops: seq<Op>) { forall i | 0 <= i < |ops| && ops[i].Create? :: Fresh(ops[i].c) }

  // ---- the ledger of one condition ----

  predicate Concerns(e: AuditRecord, tenant: string, id: string) { e.tenant == tenant && e.id == id }

  function History(ledger: seq<AuditRecord>, tenant: string, id: string): seq<AuditRecord> {
    if ledger == [] then []
    else
      var n := |ledger| - 1;
      History(ledger[..n], tenant, id) + (if Concerns(ledger[n], tenant, id) then [ledger[n]] else [])
  }

  /** What a history tells: the sponsor is known once it was changed. */
  datatype View = Absent
    | Known(status: Status, generation: int, validTo: Time, renewals: nat, sponsor: Option<string>) | Inconsistent

  function Read(v: View, e: AuditRecord): View {
    match e.transition
    case Created =>
      if v == Absent && e.priorGeneration == 0 && e.newGeneration == 1 && e.newStatus == Active
        then Known(Active, 1, e.newValidTo, 0, None) else Inconsistent
    case SponsorChanged =>
      if Continues(v, e) && v.status == e.newStatus == Active && e.priorSponsor != e.newSponsor
         && (v.sponsor == None || v.sponsor == Some(e.priorSponsor))
      then v.(generation := e.newGeneration, sponsor := Some(e.newSponsor)) else Inconsistent
    case Renewed =>
      if Continues(v, e) && v.status == e.newStatus == Active && 0 < e.newValidTo - v.validTo <= MAX_EXTENSION
      then v.(generation := e.newGeneration, validTo := e.newValidTo, renewals := v.renewals + 1) else Inconsistent
    case Deactivated =>
      if Continues(v, e) && v.status != Revoked && e.newStatus == Revoked
      then v.(generation := e.newGeneration, status := Revoked) else Inconsistent
  }

  predicate Continues(v: View, e: AuditRecord) {
    v.Known? && e.priorGeneration == v.generation && e.newGeneration == v.generation + 1
  }

  function Replay(h: seq<AuditRecord>): View {
    if h == [] then Absent else Read(Replay(h[..|h| - 1]), h[|h| - 1])
  }

  ghost predicate Tells(v: View, c: Condition) {
    && v.Known? && v.status == c.status && v.generation == c.generation && v.validTo == c.to && v.renewals == c.renewals
    && (v.sponsor == None || v.sponsor == Some(c.sponsor))
  }

  /** The bound on a condition's validity; nothing suspends a condition. */
  ghost predicate Bounded(c: Condition) {
    c.status != Suspended && 0 < c.to - c.from <= MAX_ACCESS + MAX_EXTENSION * c.renewals
  }

  ghost predicate AllBounded(s: State) { forall k | k in s.conditions :: Bounded(s.conditions[k]) }

  lemma ChangeBounded(c: Condition, op: Op)
    requires Bounded(c) && !op.Create? && ChangeFault(c, op).None?
    ensures Bounded(Changed(c, op))
  {}

  lemma StepBounded(s: State, op: Op)
    requires AllBounded(s) && (op.Create? ==> Fresh(op.c))
    ensures AllBounded(Step(s, op))
  {
    if Fault(s, op).None? && !op.Create? {
      ChangeBounded(s.conditions[Key(op)], op);
    }
  }

  lemma {:induction false} RunBounded(s: State, ops: seq<Op>)
    requires AllBounded(s) && Feeds(ops)
    ensures AllBounded(Run(s, ops))
    decreases |ops|
  {
    if ops != [] {
      StepBounded(s, ops[0]);
      RunBounded(Step(s, ops[0]), ops[1..]);
    }
  }

  ghost predicate KeyValid(s: State, k: string) {
    k in s.conditions ==>
      && PairKey(s.conditions[k].tenant, s.conditions[k].id) == k
      && Tells(Replay(History(s.ledger, s.conditions[k].tenant, s.conditions[k].id)), s.conditions[k])
  }

  ghost predicate EntryValid(s: State, i: nat) {
    i < |s.ledger| ==> PairKey(s.ledger[i].tenant, s.ledger[i].id) in s.conditions
  }

  ghost predicate Valid(s: State) { (forall k :: KeyValid(s, k)) && (forall i :: EntryValid(s, i)) }

  // ---- every step keeps it ----

  lemma HistoryAppend(ledger: seq<AuditRecord>, e: AuditRecord, tenant: string, id: string)
    ensures History(ledger + [e], tenant, id)
      == History(ledger, tenant, id) + (if Concerns(e, tenant, id) then [e] else [])
    ensures Replay(History(ledger + [e], tenant, id))
      == if Concerns(e, tenant, id) then Read(Replay(History(ledger, tenant, id)), e)
        else Replay(History(ledger, tenant, id))
  {
    assert (ledger + [e])[..|ledger|] == ledger;
    var h := History(ledger, tenant, id);
    assert (h + [e])[..|h|] == h && h + [] == h;
  }

  lemma {:induction false} NoHistory(ledger: seq<AuditRecord>, tenant: string, id: string)
    requires forall i | 0 <= i < |ledger| :: !Concerns(ledger[i], tenant, id)
    ensures History(ledger, tenant, id) == []
  {
    if ledger != [] {
      NoHistory(ledger[..|ledger| - 1], tenant, id);
    }
  }

  lemma KeyKept(s: State, t: State, e: AuditRecord, j: string)
    requires KeyValid(s, j) && t.ledger == s.ledger + [e] && PairKey(e.tenant, e.id) != j
    requires (j in t.conditions <==> j in s.conditions) && (j in s.conditions ==> t.conditions[j] == s.conditions[j])
    ensures KeyValid(t, j)
  {
    if j in s.conditions {
      HistoryAppend(s.ledger, e, s.conditions[j].tenant, s.conditions[j].id);
    }
  }

  lemma KeyWritten(s: State, t: State, e: AuditRecord, k: string, d: Condition)
    requires t.ledger == s.ledger + [e] && k in t.conditions && t.conditions[k] == d && PairKey(d.tenant, d.id) == k
    requires Concerns(e, d.tenant, d.id) && Tells(Read(Replay(History(s.ledger, d.tenant, d.id)), e), d)
    ensures KeyValid(t, k)
  {
    HistoryAppend(s.ledger, e, d.tenant, d.id);
  }

  lemma PutValid(s: State, k: string, d: Condition, e: AuditRecord)
    requires Valid(s) && PairKey(d.tenant, d.id) == k && Concerns(e, d.tenant, d.id)
    requires Tells(Read(Replay(History(s.ledger, d.tenant, d.id)), e), d)
    ensures Valid(Put(s, k, d, e))
  {
    var t := Put(s, k, d, e);
    forall j ensures KeyValid(t, j) {
      if j == k {
        KeyWritten(s, t, e, k, d);
      } else {
        assert KeyValid(s, j);
        KeyKept(s, t, e, j);
      }
    }
    forall i: nat ensures EntryValid(t, i) {
      assert EntryValid(s, i);
    }
  }

  lemma CreateValid(s: State, op: Op)
    requires Valid(s) && op.Create? && Fresh(op.c) && Fault(s, op).None?
    ensures Valid(Step(s, op))
  {
    var c := op.c;
    forall i | 0 <= i < |s.ledger| ensures !Concerns(s.ledger[i], c.tenant, c.id) {
      assert EntryValid(s, i);
    }
    NoHistory(s.ledger, c.tenant, c.id);
    PutValid(s, Key(op), c, Entry(c, c, op));
  }

  lemma ChangeTold(c: Condition, op: Op, v: View)
    requires Tells(v, c) && c.status != Suspended && !op.Create? && ChangeFault(c, op).None?
    ensures var d := Changed(c, op); Tells(Read(v, Entry(c, d, op)), d)
  {}

  lemma ChangeValid(s: State, op: Op)
    requires Valid(s) && AllBounded(s) && !op.Create? && Fault(s, op).None?
    ensures Valid(Step(s, op))
  {
    var k := Key(op);
    var c := s.conditions[k];
    assert KeyValid(s, k);
    ChangeTold(c, op, Replay(History(s.ledger, c.tenant, c.id)));
    PutValid(s, k, Changed(c, op), Entry(c, Changed(c, op), op));
  }

  lemma {:induction false} RunValid(s: State, ops: seq<Op>)
    requires Valid(s) && AllBounded(s) && Feeds(ops)
    ensures Valid(Run(s, ops))
    decreases |ops|
  {
    if ops != [] {
      if Fault(s, ops[0]).None? {
        if ops[0].Create? {
          CreateValid(s, ops[0]);
        } else {
          ChangeValid(s, ops[0]);
        }
      }
      StepBounded(s, ops[0]);
      RunValid(Step(s, ops[0]), ops[1..]);
    }
  }

  // ---- what the invariant means ----

  lemma {:induction false} ReplayCounts(h: seq<AuditRecord>)
    requires Replay(h).Known?
    ensures Replay(h).generation == |h|
  {
    var n := |h| - 1;
    if Replay(h[..n]).Known? {
      ReplayCounts(h[..n]);
    } else {
      assert h[n].transition == Created && Replay(h[..n]) == Absent;
      AbsentIsEmpty(h[..n]);
    }
  }

  lemma AbsentIsEmpty(h: seq<AuditRecord>)
    requires Replay(h) == Absent
    ensures h == []
  {}

  /**
   For every run that creates fresh conditions: the time bound, the generation as entry count, the ledger's account.
   */
  lemma EveryConditionBounded(ops: seq<Op>, k: string)
    requires Feeds(ops)
    ensures var s := Run(Empty, ops);
      k in s.conditions ==>
        && 0 < s.conditions[k].to - s.conditions[k].from <= 14 * DAY + 7 * DAY * s.conditions[k].renewals
        && s.conditions[k].generation == |History(s.ledger, s.conditions[k].tenant, s.conditions[k].id)|
        && Tells(Replay(History(s.ledger, s.conditions[k].tenant, s.conditions[k].id)), s.conditions[k])
  {
    RunValid(Empty, ops);
    RunBounded(Empty, ops);
    var s := Run(Empty, ops);
    assert KeyValid(s, k);
    if k in s.conditions {
      ReplayCounts(History(s.ledger, s.conditions[k].tenant, s.conditions[k].id));
    }
  }

  lemma {:induction false} ConsistentPrefix(h: seq<AuditRecord>, n: nat)
    requires Replay(h) != Inconsistent && n <= |h|
    ensures Replay(h[..n]) != Inconsistent
    decreases |h|
  {
    if n < |h| {
      var m := |h| - 1;
      assert h[..m][..n] == h[..n];
      ConsistentPrefix(h[..m], n);
    } else {
      assert h[..n] == h;
    }
  }

  /** After a sponsor change the next one, whatever renewals lie between, starts from the sponsor it set. */
  lemma {:induction false} SponsorsLink(h: seq<AuditRecord>, i: nat, j: nat)
    requires Replay(h) != Inconsistent && i < j < |h|
    requires h[i].transition == h[j].transition == SponsorChanged
    requires forall x | i < x < j :: h[x].transition != SponsorChanged
    ensures h[j].priorSponsor == h[i].newSponsor && h[j].priorGeneration >= h[i].newGeneration
  {
    ConsistentPrefix(h, j + 1);
    assert h[..j + 1][..j] == h[..j];
    SponsorStays(h, i, j);
  }

  lemma {:induction false} SponsorStays(h: seq<AuditRecord>, i: nat, j: nat)
    requires Replay(h) != Inconsistent && i < j <= |h| && h[i].transition == SponsorChanged
    requires forall x | i < x < j :: h[x].transition != SponsorChanged
    ensures var v := Replay(h[..j]);
      v.Known? && v.sponsor == Some(h[i].newSponsor) && v.generation >= h[i].newGeneration
    decreases j
  {
    ConsistentPrefix(h, j);
    assert h[..j][..j - 1] == h[..j - 1];
    if j > i + 1 {
      SponsorStays(h, i, j - 1);
    }
  }

  /** A revoked condition never changes again. */
  lemma {:induction false} RevokedForever(s: State, ops: seq<Op>, k: string)
    requires k in s.conditions && s.conditions[k].status == Revoked
    ensures k in Run(s, ops).conditions && Run(s, ops).conditions[k] == s.conditions[k]
    decreases |ops|
  {
    if ops != [] {
      RevokedForever(Step(s, ops[0]), ops[1..], k);
    }
  }

  /** Generations never fall. */
  lemma {:induction false} GenerationsGrow(s: State, ops: seq<Op>, k: string)
    requires k in s.conditions
    ensures k in Run(s, ops).conditions && Run(s, ops).conditions[k].generation >= s.conditions[k].generation
    decreases |ops|
  {
    if ops != [] {
      GenerationsGrow(Step(s, ops[0]), ops[1..], k);
    }
  }

  // ---- access ----

  datatype Decision = Allowed | DefaultDeny | IdentityInactive | SessionStale

  predicate ScopeMatches(c: Condition, project: string, site: string) {
    Trim(project) != "" && Trim(project) == c.project && (c.site != "" ==> Trim(site) != "" && Trim(site) == c.site)
  }

  function Evaluate(s: State, tenant: string, id: string, project: string, site: string, session: int,
      at: Time): Decision {
    var k := PairKey(tenant, id);
    if k !in s.conditions then DefaultDeny
    else
      var c := s.conditions[k];
      if c.status == Revoked || c.status == Suspended || !ValidAt(c, at) then IdentityInactive
      else if !ScopeMatches(c, project, site) then DefaultDeny
      else if session < c.generation then SessionStale
      else Allowed
  }

  /** A condition reaches its project, on its site if it names one and anywhere else otherwise. */
  lemma ScopeExactly(c: Condition, project: string, site: string)
    requires Trim(c.project) == c.project != ""
    ensures ScopeMatches(c, project, site) <==> Trim(project) == c.project && c.site in {"", Trim(site)}
  {}

  /** A session that is once behind a condition's generation is denied in every later state, at any time and target. */
  lemma StaleForever(s: State, ops: seq<Op>, tenant: string, id: string, session: int, project: string, site: string,
      at: Time)
    requires PairKey(tenant, id) in s.conditions && session < s.conditions[PairKey(tenant, id)].generation
    ensures Evaluate(Run(s, ops), tenant, id, project, site, session, at) != Allowed
  {
    GenerationsGrow(s, ops, PairKey(tenant, id));
  }

  /** Every accepted change makes the sessions before it stale. */
  lemma ChangeMakesStale(s: State, op: Op, ops: seq<Op>, session: int, project: string, site: string, at: Time)
    requires !op.Create? && Fault(s, op).None? && session <= s.conditions[Key(op)].generation
    ensures Evaluate(Run(Step(s, op), ops), op.tenant, op.id, project, site, session, at) != Allowed
  {
    StaleForever(Step(s, op), ops, op.tenant, op.id, session, project, site, at);
  }

  /** The step taken and the answer given: the stored condition, or the first fault. */
  ghost predicate Replies(s: State, op: Op, r: Result<Condition, ConditionError>, after: State) {
    && after == Step(s, op)
    && match Fault(s, op)
       case Some(e) => r == Err(e)
       case None => Key(op) in after.conditions && r == Ok(after.conditions[Key(op)])
  }

  class ConditionRegistry {
    var conditions: map<string, Condition>
    var ledger: seq<AuditRecord>

    ghost function Model(): State
      reads this
    {
      State(conditions, ledger)
    }

    constructor ()
      ensures Model() == Empty
    {
      conditions, ledger := map[], [];
    }

    method CreateCondition(c: Condition, actor: string, reason: string, at: Time)
      returns (fault: Option<ConditionError>)
      modifies this
      ensures fault == Fault(old(Model()), Create(c.tenant, c.id, actor, reason, at, c))
      ensures Model() == Step(old(Model()), Create(c.tenant, c.id, actor, reason, at, c))
    {
      if c.tenant == "" || c.id == "" {
        return Some(BlankConditionId);
      }
      var key := PairKey(c.tenant, c.id);
      if key in conditions {
        return Some(DuplicateConditionId);
      }
      conditions := conditions[key := c];
      var e := AuditRecord(c.tenant, c.id, c.subject, Created, "", "", 0, c.generation, c.to, c.status,
                           Trim(actor), Trim(reason), at);
      ledger := ledger + [e];
      return None;
    }

    method Save(key: string, d: Condition, e: AuditRecord)
      modifies this
      ensures Model() == Put(old(Model()), key, d, e)
    {
      conditions := conditions[key := d];
      ledger := ledger + [e];
    }

    method ChangeSponsor(tenant: string, id: string, sponsor: string, actor: string, reason: string, at: Time)
      returns (r: Result<Condition, ConditionError>)
      modifies this
      ensures Replies(old(Model()), Reassign(tenant, id, actor, reason, at, sponsor), r, Model())
    {
      var key := PairKey(tenant, id);
      if key !in conditions {
        return Err(NotFound);
      }
      var c := conditions[key];
      if c.status != Active {
        return Err(Inactive);
      }
      if !ValidAt(c, at) {
        return Err(ExpiredCondition);
      }
      var next := Trim(sponsor);
      if SponsorFault(next).Some? {
        return Err(SponsorFault(next).value);
      }
      if next == c.sponsor {
        return Err(SponsorUnchanged);
      }
      var d := c.(sponsor := next, generation := c.generation + 1);
      Save(key, d, AuditRecord(d.tenant, d.id, d.subject, SponsorChanged, c.sponsor, next, c.generation, d.generation,
                               0, d.status, Trim(actor), Trim(reason), at));
      return Ok(d);
    }

    method RenewAccess(tenant: string, id: string, extension: Duration, actor: string, reason: string, at: Time)
      returns (r: Result<Condition, ConditionError>)
      modifies this
      ensures Replies(old(Model()), Renew(tenant, id, actor, reason, at, extension), r, Model())
      ensures r.Ok? <==>
        && PairKey(tenant, id) in old(conditions) && old(conditions)[PairKey(tenant, id)].status == Active
        && 0 < extension <= 7 * DAY
    {
      var key := PairKey(tenant, id);
      if key !in conditions {
        return Err(NotFound);
      }
      var c := conditions[key];
      if c.status == Revoked {
        return Err(AlreadyRevoked);
      }
      if c.status == Suspended {
        return Err(SuspendedCondition);
      }
      if extension <= 0 || extension > MAX_EXTENSION {
        return Err(RenewalExceeded);
      }
      var d := c.(to := c.to + extension, status := Active, generation := c.generation + 1, renewals := c.renewals + 1,
        lastRenewedAt := at);
      Save(key, d, AuditRecord(d.tenant, d.id, d.subject, Renewed, "", "", c.generation, d.generation, d.to, Active,
                               Trim(actor), Trim(reason), at));
      return Ok(d);
    }

    method DeactivateAccess(tenant: string, id: string, actor: string, reason: string, at: Time)
      returns (r: Result<Condition, ConditionError>)
      modifies this
      ensures Replies(old(Model()), Deactivate(tenant, id, actor, reason, at), r, Model())
    {
      var key := PairKey(tenant, id);
      if key !in conditions {
        return Err(NotFound);
      }
      var c := conditions[key];
      if c.status == Revoked {
        return Err(AlreadyRevoked);
      }
      var why := Trim(reason);
      if why == "" {
        return Err(BlankReason);
      }
      var d := c.(status := Revoked, generation := c.generation + 1, revokedAt := at, revocationReason := why);
      Save(key, d, AuditRecord(d.tenant, d.id, d.subject, Deactivated, "", "", c.generation, d.generation, 0, Revoked,
                               Trim(actor), why, at));
      return Ok(d);
    }

    method EvaluateConditionAccess(tenant: string, id: string, project: string, site: string, session: int, at: Time)
      returns (r: Decision)
      ensures r == Evaluate(Model(), tenant, id, project, site, session, at)
      ensures r == Allowed <==>
        && PairKey(tenant, id) in conditions
        && var c := conditions[PairKey(tenant, id)];
          && c.status == Active && c.from <= at && at <= c.to
          && ScopeMatches(c, project, site) && c.generation <= session
    {
      var key := PairKey(tenant, id);
      if key !in conditions {
        return DefaultDeny;
      }
      var c := conditions[key];
      if c.status == Revoked || c.status == Suspended {
        return IdentityInactive;
      }
      if !ValidAt(c, at) {
        return IdentityInactive;
      }
      if !ScopeMatches(c, project, site) {
        return DefaultDeny;
      }
      if session < c.generation {
        return SessionStale;
      }
      return Allowed;
    }

    method GetConditionHistory(tenant: string, id: string) returns (r: Result<seq<AuditRecord>, ConditionError>)
      ensures r.Ok? <==> Trim(tenant) != "" && Trim(id) != ""
      ensures r.Ok? ==> r.value == History(ledger, Trim(tenant), Trim(id))
    {
      if Trim(tenant) == "" {
        return Err(BlankTenantId);
      }
      if Trim(id) == "" {
        return Err(BlankConditionId);
      }
      var t, name := Trim(tenant), Trim(id);
      var results := [];
      for n := 0 to |ledger|
        invariant results == History(ledger[..n], t, name)
      {
        assert ledger[..n + 1][..n] == ledger[..n];
        if ledger[n].tenant == t && ledger[n].id == name {
          results := results + [ledger[n]];
        }
      }
      assert ledger[..|ledger|] == ledger;
      return Ok(results);
    }
  }
}
