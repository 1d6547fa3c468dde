/**
 One-hop, time-bounded delegation of a role, and access that relies on it.
 */
module Delegation {
  import opened Results
  import opened Text
  import opened Clock
  import opened AccessPolicy
  import opened AuthorizationMatrix

  datatype DelegationState = Active | Revoked

  datatype DelegationRecord = DelegationRecord(
    id: string, tenant: string, delegatorSubject: string, delegatorRole: Role, delegatorScope: Scope,
    delegateeSubject: string, delegatedRole: Role, delegatedScope: Scope, validFrom: Time, validTo: Time,
    approvalSource: string, isSubDelegation: bool, state: DelegationState, revokedBy: string, revokedAt: Time,
    revocationReason: string)

  datatype RecordError =
    | BlankDelegationId | BlankTenantId | InvalidDelegator | InvalidDelegatee | SelfDelegation | UnknownDelegationRole
    | BlankApprovalSource | InvalidDelegationWindow | DelegationTooLong | UnauthorizedChainDepth
    | Refused(rule: DelegationError) | DuplicateDelegationId | DelegationNotFound | DelegationRevoked | BlankRevoker
    | BlankReason

  datatype AuditRecord = AuditRecord(
    tenant: string, delegationId: string, delegator: string, delegatee: string, role: Role, scope: Scope,
    transition: string, actor: string, reason: string, recordedAt: Time)

  datatype Registry = Registry(delegations: map<string, DelegationRecord>, ledger: seq<AuditRecord>)

  predicate ValidAt(d: DelegationRecord, t: Time) { d.state == Active && d.validFrom <= t <= d.validTo }

  /** The grant that the delegatee exercises. */
  function ToGrant(d: DelegationRecord): Grant {
    Grant(d.delegateeSubject, d.tenant, d.delegatedRole, d.delegatedScope)
  }

  /** The grant that the delegator declares to hold. */
  function SourceGrant(d: DelegationRecord): Grant {
    Grant(d.delegatorSubject, d.tenant, d.delegatorRole, d.delegatorScope)
  }

  predicate IsUserId(subject: string) { "usr_" <= Trim(subject) || "usr-" <= Trim(subject) }

  const MAX_CHAIN_DEPTH := 1

  function NewDelegation(id: string, tenant: string, delegator: string, delegatorRole: Role, delegatorScope: Scope,
                         delegatee: string, delegatedRole: Role, delegatedScope: Scope, validFrom: Time, validTo: Time,
                         approvalSource: string, chainDepth: int, isSubDelegation: bool)
    : (r: Result<DelegationRecord, RecordError>)
    ensures r.Ok? ==> WellFormed(r.value)
  {
    TrimIdempotent(tenant);
    TrimIdempotent(delegator);
    if Trim(id) == "" then Err(BlankDelegationId)
    else if Trim(tenant) == "" then Err(BlankTenantId)
    else if !IsUserId(delegator) then Err(InvalidDelegator)
    else if !IsUserId(delegatee) then Err(InvalidDelegatee)
    else if Trim(delegator) == Trim(delegatee) then Err(SelfDelegation)
    else if delegatorRole.OtherRole? || delegatedRole.OtherRole? then Err(UnknownDelegationRole)
    else if Trim(approvalSource) == "" then Err(BlankApprovalSource)
    else if validTo <= validFrom then Err(InvalidDelegationWindow)
    else if Sub(validTo, validFrom) > MAX_DELEGATION then Err(DelegationTooLong)
    else if chainDepth > MAX_CHAIN_DEPTH || isSubDelegation then Err(UnauthorizedChainDepth)
    else Ok(DelegationRecord(
      Trim(id), Trim(tenant), Trim(delegator), delegatorRole, delegatorScope.(tenant := Trim(tenant)),
      Trim(delegatee), delegatedRole, delegatedScope.(tenant := Trim(tenant)), validFrom, validTo,
      Trim(approvalSource), false, Active, "", 0, ""))
  }

  /** What construction guarantees; fields are private, so every record outside the module satisfies it. */
  predicate WellFormed(d: DelegationRecord) {
    d.tenant != "" && Trim(d.tenant) == d.tenant && d.delegatorSubject != ""
      && Trim(d.delegatorSubject) == d.delegatorSubject
  }

  /** The delegations that can be built, exactly, and what they hold. */
  lemma DelegationBuiltExactly(
    id: string, tenant: string, delegator: string, delegatorRole: Role, delegatorScope: Scope, delegatee: string,
    delegatedRole: Role, delegatedScope: Scope, validFrom: Time, validTo: Time, approvalSource: string, depth: int,
    isSub: bool)
    ensures
      var r := NewDelegation(id, tenant, delegator, delegatorRole, delegatorScope, delegatee, delegatedRole,
                             delegatedScope, validFrom, validTo, approvalSource, depth, isSub);
      && (r.Ok? <==>
            && Trim(id) != "" && Trim(tenant) != "" && Trim(approvalSource) != ""
            && ("usr_" <= Trim(delegator) || "usr-" <= Trim(delegator))
            && ("usr_" <= Trim(delegatee) || "usr-" <= Trim(delegatee)) && Trim(delegator) != Trim(delegatee)
            && !delegatorRole.OtherRole? && !delegatedRole.OtherRole? && depth <= 1 && !isSub
            && 0 < validTo - validFrom <= 30 * DAY)
      && (r.Ok? ==>
            && r.value.id == Trim(id) && r.value.tenant == Trim(tenant)
            && r.value.approvalSource == Trim(approvalSource)
            && r.value.delegatorSubject == Trim(delegator) && r.value.delegatorRole == delegatorRole
            && r.value.delegatorScope == delegatorScope.(tenant := Trim(tenant))
            && r.value.delegateeSubject == Trim(delegatee) && r.value.delegatedRole == delegatedRole
            && r.value.delegatedScope == delegatedScope.(tenant := Trim(tenant))
            && r.value.validFrom == validFrom && r.value.validTo == validTo && r.value.state == Active)
  {}

  // ---- the registry steps ----

  function Key(tenant: string, id: string): string { PairKey(tenant, id) }

  function ToRequest(d: DelegationRecord): DelegationRequest {
    DelegationRequest(d.delegatorSubject, d.delegatorRole, d.delegatorScope, d.delegateeSubject, d.delegatedRole,
                      d.delegatedScope, d.validFrom, d.validTo, d.isSubDelegation)
  }

  function Entry(d: DelegationRecord, transition: string, actor: string, reason: string, at: Time): AuditRecord {
    AuditRecord(d.tenant, d.id, d.delegatorSubject, d.delegateeSubject, d.delegatedRole, d.delegatedScope, transition,
      actor, reason, at)
  }

  function CreateFault(r: Registry, d: DelegationRecord): Option<RecordError> {
    var rule := DelegationFault(ToRequest(d));
    if d.tenant == "" || d.id == "" then Some(BlankDelegationId)
    else if rule.Some? then Some(Refused(rule.value))
    else if Key(d.tenant, d.id) in r.delegations then Some(DuplicateDelegationId)
    else None
  }

  function Enroll(r: Registry, d: DelegationRecord, actor: string, reason: string, at: Time): Registry {
    if CreateFault(r, d).Some? then r
    else Registry(r.delegations[Key(d.tenant, d.id) := d],
                  r.ledger + [Entry(d, "DELEGATION_CREATED", Trim(actor), Trim(reason), at)])
  }

  function RevokeFault(r: Registry, tenant: string, id: string, actor: string, reason: string): Option<RecordError> {
    var key := Key(tenant, id);
    if key !in r.delegations then Some(DelegationNotFound)
    else if r.delegations[key].state == Revoked then Some(DelegationRevoked)
    else if Trim(actor) == "" then Some(BlankRevoker)
    else if Trim(reason) == "" then Some(BlankReason)
    else None
  }

  function RevokedCopy(d: DelegationRecord, actor: string, reason: string, at: Time): DelegationRecord {
    d.(state := Revoked, revokedBy := Trim(actor), revokedAt := at, revocationReason := Trim(reason))
  }

  function Append(ledger: seq<AuditRecord>, e: AuditRecord): seq<AuditRecord> {
    if e.tenant == "" || e.delegationId == "" then ledger else ledger + [e]
  }

  function Revoke(r: Registry, tenant: string, id: string, actor: string, reason: string, at: Time): Registry {
    if RevokeFault(r, tenant, id, actor, reason).Some? then r
    else
      var d := r.delegations[Key(tenant, id)];
      Registry(r.delegations[Key(tenant, id) := RevokedCopy(d, actor, reason, at)],
               Append(r.ledger, Entry(d, "DELEGATION_REVOKED", Trim(actor), Trim(reason), at)))
  }

  datatype Op =
    | CreateOp(d: DelegationRecord, actor: string, reason: string, at: Time)
    | RevokeOp(tenant: string, id: string, actor: string, reason: string, at: Time)

  function Step(r: Registry, op: Op): Registry {
    match op
    case CreateOp(d, actor, reason, at) => Enroll(r, d, actor, reason, at)
    case RevokeOp(tenant, id, actor, reason, at) => Revoke(r, tenant, id, actor, reason, at)
  }

  function Run(r: Registry, ops: seq<Op>): Registry
    decreases |ops|
  {
    if ops == [] then r else Run(Step(r, ops[0]), ops[1..])
  }

  /** Every registered delegation is well formed and passed the matrix. */
  ghost predicate Vetted(r: Registry) {
    forall k | k in r.delegations :: WellFormed(r.delegations[k])
      && DelegationFault(ToRequest(r.delegations[k])) == None
  }

  lemma StepVetted(r: Registry, op: Op)
    requires Vetted(r) && (op.CreateOp? ==> WellFormed(op.d))
    ensures Vetted(Step(r, op))
  {
    if op.RevokeOp? && RevokeFault(r, op.tenant, op.id, op.actor, op.reason).None? {
      var d := r.delegations[Key(op.tenant, op.id)];
      assert ToRequest(RevokedCopy(d, op.actor, op.reason, op.at)) == ToRequest(d);
    }
  }

  lemma {:induction false} RunVetted(r: Registry, ops: seq<Op>)
    requires Vetted(r) && forall i | 0 <= i < |ops| && ops[i].CreateOp? :: WellFormed(ops[i].d)
    ensures Vetted(Run(r, ops))
    decreases |ops|
  {
    if ops != [] {
      StepVetted(r, ops[0]);
      RunVetted(Step(r, ops[0]), ops[1..]);
    }
  }

  /** `b` is `a`, or `a` revoked by someone for a reason. */
  ghost predicate Later(a: DelegationRecord, b: DelegationRecord) {
    b == a
    || (a.state == Active && b.revokedBy != "" && b.revocationReason != ""
        && b == a.(state := Revoked, revokedBy := b.revokedBy, revokedAt := b.revokedAt,
                   revocationReason := b.revocationReason))
  }

  lemma StepLater(r: Registry, op: Op, k: string)
    requires k in r.delegations
    ensures k in Step(r, op).delegations && Later(r.delegations[k], Step(r, op).delegations[k])
    ensures r.ledger <= Step(r, op).ledger
  {}

  /** A registered delegation is never changed but by one revocation, which is final. */
  lemma {:induction false} RegisteredOrRevoked(r: Registry, ops: seq<Op>, k: string)
    requires k in r.delegations
    ensures k in Run(r, ops).delegations && Later(r.delegations[k], Run(r, ops).delegations[k])
    ensures r.delegations[k].state == Revoked ==> forall t :: !ValidAt(Run(r, ops).delegations[k], t)
    ensures r.ledger <= Run(r, ops).ledger
    decreases |ops|
  {
    if ops != [] {
      StepLater(r, ops[0], k);
      RegisteredOrRevoked(Step(r, ops[0]), ops[1..], k);
    }
  }

  /** The ledger grew by one entry, which names the delegation, its parties, role and scope, who did what and why. */
  ghost predicate Noted(before: seq<AuditRecord>, after: seq<AuditRecord>, d: DelegationRecord, transition: string,
      actor: string, reason: string, at: Time) {
    && |after| == |before| + 1 && after[..|before|] == before
    && var e := after[|before|];
       && e.tenant == d.tenant && e.delegationId == d.id && e.delegator == d.delegatorSubject
       && e.delegatee == d.delegateeSubject && e.role == d.delegatedRole && e.scope == d.delegatedScope
       && e.transition == transition && e.actor == Trim(actor) && e.reason == Trim(reason) && e.recordedAt == at
  }

  /** A delegation is stored, with its ledger entry, exactly under a new name and when the matrix accepts it. */
  lemma CreatedExactly(r: Registry, d: DelegationRecord, actor: string, reason: string, at: Time)
    ensures
      var u := Step(r, CreateOp(d, actor, reason, at));
      if d.tenant != "" && d.id != "" && Key(d.tenant, d.id) !in r.delegations && DelegationFault(ToRequest(d)) == None
      then
        && u.delegations == r.delegations[Key(d.tenant, d.id) := d]
        && Noted(r.ledger, u.ledger, d, "DELEGATION_CREATED", actor, reason, at)
      else u == r && CreateFault(r, d).Some?
  {}

  /** A revocation takes effect exactly on the named, unrevoked delegation, with its revoker and reason. */
  lemma RevokedExactly(r: Registry, tenant: string, id: string, actor: string, reason: string, at: Time, k: string)
    requires k in r.delegations
    ensures
      var u := Step(r, RevokeOp(tenant, id, actor, reason, at));
      var b := u.delegations[k];
      if k == Key(tenant, id) && r.delegations[k].state == Active && Trim(actor) != "" && Trim(reason) != "" then
        && b.state == Revoked && b.revokedBy == Trim(actor) && b.revokedAt == at && b.revocationReason == Trim(reason)
        && (b.tenant != "" && b.id != "" ==> Noted(r.ledger, u.ledger, b, "DELEGATION_REVOKED", actor, reason, at))
      else b == r.delegations[k]
  {}

  // ---- delegated access ----

  ghost predicate Lists(m: map<string, DelegationRecord>, tenant: string, subject: string, at: Time,
      list: seq<DelegationRecord>) {
    forall d :: d in list <==>
      && d in m.Values && d.tenant == tenant && d.delegateeSubject == subject
      && d.state == Active && d.validFrom <= at && at <= d.validTo
  }

  ghost function Grants(list: seq<DelegationRecord>): (gs: seq<Grant>)
    ensures |gs| == |list| && forall i | 0 <= i < |list| :: gs[i] == ToGrant(list[i])
  {
    seq(|list|, i requires 0 <= i < |list| => ToGrant(list[i]))
  }

  function Cleared(req: Request): Request { req.(delegated := false, delegator := "") }

  ghost predicate SomeInScope(list: seq<DelegationRecord>, req: Request) {
    exists d :: d in list && ScopeMatches(d.delegatedScope, req.target)
  }

  ghost predicate SomePermitting(list: seq<DelegationRecord>, req: Request) {
    exists d :: d in list && ScopeMatches(d.delegatedScope, req.target) && RolePermits(d.delegatedRole, req.action)
  }

  ghost function DelegatedDecision(p: Policy, list: seq<DelegationRecord>, req: Request): Decision {
    if !req.authenticated || Blank(req.subject) || Blank(req.tenant) then Deny(Unauthenticated)
    else if req.tenant != req.target.tenant then Deny(CrossTenant)
    else if list == [] then Deny(RoleNotGranted)
    else if !SomeInScope(list, req) then Deny(ScopeMismatch)
    else if !SomePermitting(list, req) then Deny(PrivilegeEscalation)
    else Evaluation(Isolated(p, Grants(list), Cleared(req)), Cleared(req))
  }

  lemma AllowingIsPermitting(list: seq<DelegationRecord>, req: Request, n: nat)
    requires AllowsAt(Grants(list), Cleared(req), n)
    ensures SomeInScope(list, req) && SomePermitting(list, req)
  {
    assert Grants(list)[n] == ToGrant(list[n]) && list[n] in list;
    assert ScopeMatches(list[n].delegatedScope, req.target) && RolePermits(list[n].delegatedRole, req.action);
  }

  /** Delegated access in the fields of request, policy and delegations in force. */
  lemma DelegatedAllowedExactly(p: Policy, list: seq<DelegationRecord>, req: Request)
    ensures DelegatedDecision(p, list, req) == Allow <==>
      && Known(req) && req.tenant == req.target.tenant && Member(p, req) && HasEntitlement(p, req)
      && (req.target.lifecycle == Archived ==> req.action == Read)
      && exists n: nat :: AllowsAt(Grants(list), Cleared(req), n)
  {
    var clean, gs := Cleared(req), Grants(list);
    BlankMeansTrimmedEmpty(req.subject);
    BlankMeansTrimmedEmpty(req.tenant);
    if gs != [] {
      IsolatedEvaluation(p, gs, clean);
      GateOpens(p, clean);
      assert InPerson(clean);
      GrantDecisionAllows(gs, clean);
    }
    if n: nat :| AllowsAt(gs, clean, n) {
      AllowingIsPermitting(list, req, n);
    }
  }

  /** The same request made by the delegator. */
  function OwnRequest(d: DelegationRecord, req: Request): Request {
    Request(d.delegatorSubject, d.tenant, true, req.target, req.action, false, "", req.entitlement)
  }

  /**
   The delegator's declared scope is usable for the target: no foreign object lock, and a project or site where the
   role needs one.
   */
  predicate SourceUsable(d: DelegationRecord, t: Target) {
    && (NeedsProject(d.delegatorRole) ==> NamesProjectOrSite(d.delegatorScope))
    && (d.delegatorScope.objectId == "" || d.delegatorScope.objectId == t.objectId)
  }

  lemma SingleGrantDecision(g: Grant, judge: Grant -> Verdict)
    ensures GrantDecision([g], judge) == Allow <==> judge(g) == Granted
  {
    if Passing(judge(g)) {
      LeadingIsFirst([g], judge, 0);
    }
    assert g in [g];
  }

  lemma IsolatedSingle(p: Policy, g: Grant, req: Request)
    ensures Evaluation(Isolated(p, [g], req), req) == Allow <==> Gate(p, req) == None && Judge(g, req) == Granted
  {
    IsolatedEvaluation(p, [g], req);
    SingleGrantDecision(g, JudgeFor(req));
  }

  lemma JudgeIgnoresCaller(g: Grant, a: Request, b: Request)
    requires a.target == b.target && a.action == b.action
    ensures Judge(g, a) == Judge(g, b)
  {}

  lemma SourceJudged(d: DelegationRecord, req: Request)
    requires DelegationFault(ToRequest(d)) == None && Judge(ToGrant(d), req) == Granted
    ensures Judge(SourceGrant(d), req) == Granted <==> SourceUsable(d, req.target)
  {
    AcceptedDelegationContained(ToRequest(d));
    PermissionsBoundActions(d.delegatorRole, d.delegatedRole);
  }

  lemma SourceGate(p: Policy, d: DelegationRecord, req: Request)
    requires WellFormed(d) && d.tenant == Trim(req.tenant) && Gate(p, Cleared(req)) == None
    requires MemberKey(d.tenant, d.delegatorSubject) in p.memberships
    requires p.memberships[MemberKey(d.tenant, d.delegatorSubject)] == ActiveMember
    ensures Gate(p, OwnRequest(d, req)) == None
  {
    BlankMeansTrimmedEmpty(d.delegatorSubject);
    BlankMeansTrimmedEmpty(d.tenant);
  }

  /** The delegator, as an active member holding just the declared role and scope, is allowed the same request. */
  ghost predicate SourceAllows(p: Policy, d: DelegationRecord, req: Request) {
    Evaluation(Isolated(p, [SourceGrant(d)], OwnRequest(d, req)), OwnRequest(d, req)) == Allow
  }

  lemma SourceAllowsExactly(p: Policy, d: DelegationRecord, req: Request)
    requires WellFormed(d) && DelegationFault(ToRequest(d)) == None
    requires d.tenant == Trim(req.tenant) && Gate(p, Cleared(req)) == None
    requires Judge(ToGrant(d), Cleared(req)) == Granted
    requires MemberKey(d.tenant, d.delegatorSubject) in p.memberships
    requires p.memberships[MemberKey(d.tenant, d.delegatorSubject)] == ActiveMember
    ensures SourceAllows(p, d, req) <==> SourceUsable(d, req.target)
  {
    SourceGate(p, d, req);
    IsolatedSingle(p, SourceGrant(d), OwnRequest(d, req));
    SourceJudged(d, Cleared(req));
    JudgeIgnoresCaller(SourceGrant(d), OwnRequest(d, req), Cleared(req));
  }

  /** The delegation that delegated access rests on. */
  lemma AllowingDelegation(p: Policy, list: seq<DelegationRecord>, req: Request) returns (d: DelegationRecord)
    requires DelegatedDecision(p, list, req) == Allow
    ensures d in list && Judge(ToGrant(d), Cleared(req)) == Granted && Gate(p, Cleared(req)) == None
  {
    var gs, clean := Grants(list), Cleared(req);
    IsolatedEvaluation(p, gs, clean);
    AllowMeansGranted(gs, JudgeFor(clean));
    var g :| g in gs && JudgeFor(clean)(g) == Granted;
    var i :| 0 <= i < |gs| && gs[i] == g;
    d := list[i];
  }

  /**
   Delegation never elevates: allowed delegated access rests on a registered, current, unrevoked
   delegation, and its delegator would be allowed the same request exactly when the declared
   source scope is usable for the target.
   */
  lemma DelegationNeverElevates(r: Registry, p: Policy, list: seq<DelegationRecord>, req: Request, at: Time)
    returns (d: DelegationRecord)
    requires Vetted(r) && Lists(r.delegations, Trim(req.tenant), Trim(req.subject), at, list)
    requires DelegatedDecision(p, list, req) == Allow
    ensures d in r.delegations.Values && d.state == Active && d.validFrom <= at <= d.validTo
    ensures d.tenant == Trim(req.tenant) && d.delegateeSubject == Trim(req.subject)
    ensures Judge(ToGrant(d), Cleared(req)) == Granted
    ensures MemberKey(d.tenant, d.delegatorSubject) in p.memberships
      && p.memberships[MemberKey(d.tenant, d.delegatorSubject)] == ActiveMember
      ==> (SourceAllows(p, d, req) <==> SourceUsable(d, req.target))
  {
    d := AllowingDelegation(p, list, req);
    var k :| k in r.delegations && r.delegations[k] == d;
    if MemberKey(d.tenant, d.delegatorSubject) in p.memberships
       && p.memberships[MemberKey(d.tenant, d.delegatorSubject)] == ActiveMember {
      SourceAllowsExactly(p, d, req);
    }
  }

  /** A manager without project who hands on company-wide reading. */
  function CompanyWideDelegation(): DelegationRecord {
    var scope := Scope("t", "c", "", "", "", "");
    DelegationRecord("d", "t", "usr_a", ProjectManager, scope, "usr_b", Viewer, scope, 0, DAY, "s", false, Active, "",
      0, "")
  }

  function CompanyWideRequest(): Request {
    Request("usr_b", "t", true, Target("t", "c", "p", "", "", "", ActiveRecord), Read, false, "", "")
  }

  function TwoMembers(): Policy {
    Policy(map[MemberKey("t", "usr_a") := ActiveMember][MemberKey("t", "usr_b") := ActiveMember], map[], map[])
  }

  lemma CompanyWideAccepted()
    ensures WellFormed(CompanyWideDelegation()) && DelegationFault(ToRequest(CompanyWideDelegation())) == None
    ensures Judge(ToGrant(CompanyWideDelegation()), CompanyWideRequest()) == Granted
  {
    TrimFixed("t");
    TrimFixed("usr_a");
    TrimFixed("usr_b");
  }

  lemma CompanyWideGate()
    ensures Gate(TwoMembers(), CompanyWideRequest()) == None
  {
    assert !IsSpace("t"[0]) && !IsSpace("usr_b"[0]);
    assert !Blank("t") && !Blank("usr_b");
  }

  /** Without a usable source scope delegation does elevate: the delegatee reads what the delegator may not. */
  lemma UnusableSourceElevates()
    ensures WellFormed(CompanyWideDelegation()) && DelegationFault(ToRequest(CompanyWideDelegation())) == None
    ensures DelegatedDecision(TwoMembers(), [CompanyWideDelegation()], CompanyWideRequest()) == Allow
    ensures !SourceAllows(TwoMembers(), CompanyWideDelegation(), CompanyWideRequest())
  {
    var p, d, req := TwoMembers(), CompanyWideDelegation(), CompanyWideRequest();
    CompanyWideAccepted();
    CompanyWideGate();
    TrimFixed("t");
    assert d in [d] && Cleared(req) == req;
    assert Grants([d]) == [ToGrant(d)];
    IsolatedSingle(p, ToGrant(d), req);
    SourceAllowsExactly(p, d, req);
  }

  class DelegationRegistry {
    var delegations: map<string, DelegationRecord>
    var ledger: seq<AuditRecord>

    ghost function Model(): Registry
      reads this
    {
      Registry(delegations, ledger)
    }

    constructor ()
      ensures Model() == Registry(map[], [])
    {
      delegations, ledger := map[], [];
    }

    method CreateDelegation(d: DelegationRecord, actor: string, reason: string, at: Time)
      returns (fault: Option<RecordError>)
      modifies this
      ensures fault == CreateFault(old(Model()), d)
      ensures Model() == Enroll(old(Model()), d, actor, reason, at)
    {
      if d.tenant == "" || d.id == "" {
        return Some(BlankDelegationId);
      }
      var rule := DelegationFault(ToRequest(d));
      if rule.Some? {
        return Some(Refused(rule.value));
      }
      var key := Key(d.tenant, d.id);
      if key in delegations {
        return Some(DuplicateDelegationId);
      }
      delegations := delegations[key := d];
      ledger := ledger + [Entry(d, "DELEGATION_CREATED", Trim(actor), Trim(reason), at)];
      return None;
    }

    method RevokeDelegation(tenant: string, id: string, actor: string, reason: string, at: Time)
      returns (fault: Option<RecordError>)
      modifies this
      ensures fault == RevokeFault(old(Model()), tenant, id, actor, reason)
      ensures Model() == Revoke(old(Model()), tenant, id, actor, reason, at)
    {
      var key := Key(tenant, id);
      if key !in delegations {
        return Some(DelegationNotFound);
      }
      var current := delegations[key];
      if current.state == Revoked {
        return Some(DelegationRevoked);
      }
      var revoker, why := Trim(actor), Trim(reason);
      if revoker == "" {
        return Some(BlankRevoker);
      }
      if why == "" {
        return Some(BlankReason);
      }
      var updated := current.(state := Revoked, revokedBy := revoker, revokedAt := at, revocationReason := why);
      delegations := delegations[key := updated];
      ledger := Append(ledger, Entry(current, "DELEGATION_REVOKED", revoker, why, at));
      return None;
    }

    method ListActiveDelegations(tenant: string, subject: string, at: Time) returns (list: seq<DelegationRecord>)
      ensures Lists(delegations, Trim(tenant), Trim(subject), at, list)
    {
      list := [];
      var keys := delegations.Keys;
      while keys != {}
        invariant keys <= delegations.Keys
        invariant forall d :: d in list <==>
          exists k :: k in delegations.Keys - keys && delegations[k] == d
            && d.tenant == Trim(tenant) && d.delegateeSubject == Trim(subject) && ValidAt(d, at)
      {
        var k :| k in keys;
        var d := delegations[k];
        if d.tenant == Trim(tenant) && d.delegateeSubject == Trim(subject) && ValidAt(d, at) {
          list := list + [d];
        }
        keys := keys - {k};
      }
      assert forall d :: d in delegations.Values <==> exists k :: k in delegations && delegations[k] == d;
    }
  }

  method EvaluateDelegatedAccess(registry: DelegationRegistry, evaluator: PolicyEvaluator, req: Request, at: Time)
    returns (r: Decision)
    ensures exists list ::
      Lists(registry.delegations, Trim(req.tenant), Trim(req.subject), at, list)
      && r == DelegatedDecision(evaluator.Model(), list, req)
  {
    var list := registry.ListActiveDelegations(req.tenant, req.subject, at);
    if !req.authenticated || Blank(req.subject) || Blank(req.tenant) {
      return Deny(Unauthenticated);
    }
    if req.tenant != req.target.tenant {
      return Deny(CrossTenant);
    }
    if |list| == 0 {
      return Deny(RoleNotGranted);
    }
    var scopeMatch, rolePermit := FindCover(list, req);
    if !scopeMatch {
      return Deny(ScopeMismatch);
    }
    if !rolePermit {
      return Deny(PrivilegeEscalation);
    }
    TrimIdempotent(req.tenant);
    TrimIdempotent(req.subject);
    var grants := seq(|list|, i requires 0 <= i < |list| => ToGrant(list[i]));
    assert grants == Grants(list);
    r := EvaluateIsolated(evaluator, grants, Cleared(req));
  }

  /** The search for a delegation that covers target and action, stopping at the first one. */
  method FindCover(list: seq<DelegationRecord>, req: Request) returns (scopeMatch: bool, rolePermit: bool)
    ensures scopeMatch <==> SomeInScope(list, req)
    ensures rolePermit <==> SomePermitting(list, req)
  {
    scopeMatch, rolePermit := false, false;
    for n := 0 to |list|
      invariant scopeMatch <==> exists j :: 0 <= j < n && ScopeMatches(list[j].delegatedScope, req.target)
      invariant forall j | 0 <= j < n ::
        !(ScopeMatches(list[j].delegatedScope, req.target) && RolePermits(list[j].delegatedRole, req.action))
      invariant !rolePermit
    {
      var d := list[n];
      if ScopeMatches(d.delegatedScope, req.target) {
        scopeMatch := true;
        assert list[n] in list;
        if RolePermits(d.delegatedRole, req.action) {
          rolePermit := true;
          return;
        }
      }
    }
  }
}
