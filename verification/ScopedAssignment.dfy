/**
 Time-bounded role assignments with segregation of duties, and access evaluated from them.
 */
module ScopedAssignment {
  import opened Results
  import opened Text
  import opened Clock
  import opened AccessPolicy
  import opened AuthorizationMatrix

  datatype AssignmentState = Active | Revoked

  datatype Assignment = Assignment(
    id: string, tenant: string, subject: string, role: Role, scope: Scope, validFrom: Time, validTo: Time,
    approvalSource: string, state: AssignmentState, revokedBy: string, revokedAt: Time, revocationReason: string)

  datatype AssignmentError =
    | BlankAssignmentId | BlankTenantId | BlankSubject | InvalidSubjectFormat | UnknownAssignmentRole
    | BlankApprovalSource | InvalidTimeWindow | ScopeTenantMismatch | DuplicateAssignmentId | RoleConflict
    | AssignmentNotFound | AlreadyRevoked | BlankRevoker | BlankReason

  datatype AuditRecord = AuditRecord(
    tenant: string, assignmentId: string, subject: string, role: Role, scope: Scope, transition: string,
    actor: string, reason: string, recordedAt: Time)

  datatype Registry = Registry(assignments: map<string, Assignment>, ledger: seq<AuditRecord>)

  predicate ValidAt(a: Assignment, t: Time) { a.state == Active && a.validFrom <= t <= a.validTo }

  function ToGrant(a: Assignment): Grant { Grant(a.subject, a.tenant, a.role, a.scope) }

  function Key(tenant: string, id: string): string { PairKey(tenant, id) }

  function SubjectFault(subject: string): Option<AssignmentError> {
    var s := Trim(subject);
    if s == "" then Some(BlankSubject)
    else if !("usr_" <= s) && !("usr-" <= s) then Some(InvalidSubjectFormat)
    else None
  }

  /** Construction of an assignment; the scope takes the assignment's tenant. */
  function NewAssignment(id: string, tenant: string, subject: string, role: Role, scope: Scope, validFrom: Time,
                         validTo: Time, approvalSource: string): (r: Result<Assignment, AssignmentError>)
    ensures r.Ok? ==> r.value.state == Active && r.value.validFrom < r.value.validTo
    ensures r.Ok? ==> r.value.scope.tenant == r.value.tenant == Trim(tenant) && r.value.tenant != "" && r.value.id != ""
  {
    if Trim(id) == "" then Err(BlankAssignmentId)
    else if Trim(tenant) == "" then Err(BlankTenantId)
    else if SubjectFault(subject).Some? then Err(SubjectFault(subject).value)
    else if role.OtherRole? then Err(UnknownAssignmentRole)
    else if Trim(approvalSource) == "" then Err(BlankApprovalSource)
    else if validTo <= validFrom then Err(InvalidTimeWindow)
    else if scope.tenant != "" && scope.tenant != Trim(tenant) then Err(ScopeTenantMismatch)
    else Ok(Assignment(Trim(id), Trim(tenant), Trim(subject), role, scope.(tenant := Trim(tenant)), validFrom, validTo,
                       Trim(approvalSource), Active, "", 0, ""))
  }

  /** The assignments that can be built, exactly, and what they hold. */
  lemma AssignmentBuiltExactly(id: string, tenant: string, subject: string, role: Role, scope: Scope, validFrom: Time,
                               validTo: Time, approvalSource: string)
    ensures
      var r := NewAssignment(id, tenant, subject, role, scope, validFrom, validTo, approvalSource);
      && (r.Ok? <==>
            && Trim(id) != "" && Trim(tenant) != "" && ("usr_" <= Trim(subject) || "usr-" <= Trim(subject))
            && !role.OtherRole? && Trim(approvalSource) != "" && validFrom < validTo
            && (scope.tenant == "" || scope.tenant == Trim(tenant)))
      && (r.Ok? ==>
            && r.value.id == Trim(id) && r.value.tenant == Trim(tenant)
            && r.value.subject == Trim(subject) && r.value.role == role
            && r.value.scope == scope.(tenant := Trim(tenant)) && r.value.validFrom == validFrom
            && r.value.validTo == validTo && r.value.approvalSource == Trim(approvalSource))
  {}

  // ---- conflicts ----

  /** The role pairs that segregation of duties keeps apart, including a role held twice. */
  predicate RolesConflict(held: Role, wanted: Role) {
    || held == wanted
    || (wanted == Inspector && held == Auditor) || (wanted == Auditor && held == Inspector)
    || (wanted == ProjectManager && held == Auditor) || (wanted == Auditor && held == ProjectManager)
    || (wanted == Contractor && held in {TenantAdmin, ProjectManager})
    || (wanted in {TenantAdmin, ProjectManager} && held == Contractor)
  }

  /**
   Order does not matter: a role twice, an auditor with inspector or manager, a contractor with manager or
   administrator.
   */
  lemma ConflictingRoles(a: Role, b: Role)
    ensures RolesConflict(a, b) <==>
      || a == b
      || {a, b} == {Auditor, Inspector} || {a, b} == {Auditor, ProjectManager}
      || {a, b} == {Contractor, ProjectManager} || {a, b} == {Contractor, TenantAdmin}
  {
    assert a in {a, b} && b in {a, b};
  }

  predicate SameHolder(a: Assignment, b: Assignment) { a.tenant == b.tenant && a.subject == b.subject }

  /** The two assignments must not be in force together. */
  predicate Incompatible(a: Assignment, b: Assignment) {
    SameHolder(a, b) && ScopesOverlap(a.scope, b.scope) && RolesConflict(a.role, b.role)
  }

  predicate Blocks(ex: Assignment, candidate: Assignment, at: Time) {
    ex.id != candidate.id && ValidAt(ex, at) && Incompatible(ex, candidate)
  }

  method CheckRoleConflict(existing: seq<Assignment>, candidate: Assignment, at: Time) returns (conflict: bool)
    ensures conflict <==> exists ex :: ex in existing && Blocks(ex, candidate, at)
  {
    for n := 0 to |existing|
      invariant forall j | 0 <= j < n :: !Blocks(existing[j], candidate, at)
    {
      var ex := existing[n];
      if ex.id == candidate.id || !SameHolder(ex, candidate) || !ValidAt(ex, at) {
        continue;
      }
      if ScopesOverlap(ex.scope, candidate.scope) && RolesConflict(ex.role, candidate.role) {
        assert existing[n] in existing;
        return true;
      }
    }
    return false;
  }

  // ---- the registry steps ----

  ghost predicate Blocked(m: map<string, Assignment>, a: Assignment, at: Time) {
    exists k :: k in m && Blocks(m[k], a, at)
  }

  function Entry(a: Assignment, transition: string, actor: string, reason: string, at: Time): AuditRecord {
    AuditRecord(a.tenant, a.id, a.subject, a.role, a.scope, transition, actor, reason, at)
  }

  ghost function RegisterFault(r: Registry, a: Assignment, at: Time): Option<AssignmentError> {
    if a.tenant == "" || a.id == "" then Some(BlankAssignmentId)
    else if Key(a.tenant, a.id) in r.assignments then Some(DuplicateAssignmentId)
    else if Blocked(r.assignments, a, at) then Some(RoleConflict)
    else None
  }

  ghost function Register(r: Registry, a: Assignment, actor: string, reason: string, at: Time): Registry {
    if RegisterFault(r, a, at).Some? then r
    else Registry(r.assignments[Key(a.tenant, a.id) := a],
                  r.ledger + [Entry(a, "ASSIGNMENT_CREATED", Trim(actor), Trim(reason), at)])
  }

  function RevokeFault(r: Registry, tenant: string, id: string, actor: string,
      reason: string): Option<AssignmentError> {
    var key := Key(tenant, id);
    if key !in r.assignments then Some(AssignmentNotFound)
    else if r.assignments[key].state == Revoked then Some(AlreadyRevoked)
    else if Trim(actor) == "" then Some(BlankRevoker)
    else if Trim(reason) == "" then Some(BlankReason)
    else None
  }

  function RevokedCopy(a: Assignment, actor: string, reason: string, at: Time): Assignment {
    a.(state := Revoked, revokedBy := Trim(actor), revokedAt := at, revocationReason := Trim(reason))
  }

  /** A ledger append refuses an entry without tenant or assignment identifier. */
  function Append(ledger: seq<AuditRecord>, e: AuditRecord): seq<AuditRecord> {
    if e.tenant == "" || e.assignmentId == "" then ledger else ledger + [e]
  }

  function Revoke(r: Registry, tenant: string, id: string, actor: string, reason: string, at: Time): Registry {
    if RevokeFault(r, tenant, id, actor, reason).Some? then r
    else
      var key := Key(tenant, id);
      var a := r.assignments[key];
      Registry(r.assignments[key := RevokedCopy(a, actor, reason, at)],
               Append(r.ledger, Entry(a, "ASSIGNMENT_REVOKED", Trim(actor), Trim(reason), at)))
  }

  // ---- segregation of duties ----

  ghost predicate Clash(a: Assignment, b: Assignment, t: Time) {
    ValidAt(a, t) && ValidAt(b, t) && Incompatible(a, b)
  }

  /** From `from` on, no two registered assignments are in force together against segregation of duties. */
  ghost predicate ConflictFree(m: map<string, Assignment>, from: Time) {
    forall j, k, t | j in m && k in m && j != k && from <= t :: !Clash(m[j], m[k], t)
  }

  ghost predicate Keyed(m: map<string, Assignment>) {
    forall k | k in m :: k == Key(m[k].tenant, m[k].id)
  }

  /** A registered assignment that starts later and will then be in force together with the new one. */
  predicate LatentClash(ex: Assignment, a: Assignment, at: Time) {
    && Incompatible(ex, a) && ex.state == Active && a.state == Active && at < ex.validFrom
    && Max(ex.validFrom, a.validFrom) <= Min(ex.validTo, a.validTo)
  }

  function Max(a: int, b: int): int { if a < b then b else a }

  function Min(a: int, b: int): int { if a < b then a else b }

  lemma IncompatibleSymmetric(a: Assignment, b: Assignment)
    ensures Incompatible(a, b) <==> Incompatible(b, a)
  {}

  lemma ClashAhead(ex: Assignment, a: Assignment, at: Time)
    requires ex.id != a.id && !Blocks(ex, a, at)
    ensures LatentClash(ex, a, at) <==> exists t :: at <= t && Clash(ex, a, t)
  {
    if LatentClash(ex, a, at) {
      assert Clash(ex, a, Max(ex.validFrom, a.validFrom));
    }
  }

  /**
   An accepted registration keeps the registry conflict-free exactly when no registered assignment
   with a later start will overlap the new one in time.
   */
  lemma RegistrationKeepsDutiesExactly(m: map<string, Assignment>, a: Assignment, at: Time)
    requires Keyed(m) && ConflictFree(m, at)
    requires Key(a.tenant, a.id) !in m && !Blocked(m, a, at)
    ensures ConflictFree(m[Key(a.tenant, a.id) := a], at) <==> !exists k :: k in m && LatentClash(m[k], a, at)
  {
    var key := Key(a.tenant, a.id);
    var n := m[key := a];
    if k :| k in m && LatentClash(m[k], a, at) {
      ClashAhead(m[k], a, at);
      var t :| at <= t && Clash(m[k], a, t);
      assert Clash(n[k], n[key], t);
    } else {
      forall j, k, t | j in n && k in n && j != k && at <= t ensures !Clash(n[j], n[k], t) {
        IncompatibleSymmetric(n[j], n[k]);
        if j == key && Clash(n[j], n[k], t) {
          ClashAhead(m[k], a, at);
          assert Clash(m[k], a, t);
        } else if k == key && Clash(n[j], n[k], t) {
          ClashAhead(m[j], a, at);
        }
      }
    }
  }

  datatype Op =
    | RegisterOp(a: Assignment, actor: string, reason: string, at: Time)
    | RevokeOp(tenant: string, id: string, actor: string, reason: string, at: Time)

  ghost function Step(r: Registry, op: Op): Registry {
    match op
    case RegisterOp(a, actor, reason, at) => Register(r, a, actor, reason, at)
    case RevokeOp(tenant, id, actor, reason, at) => Revoke(r, tenant, id, actor, reason, at)
  }

  ghost function Run(r: Registry, ops: seq<Op>): Registry
    decreases |ops|
  {
    if ops == [] then r else Run(Step(r, ops[0]), ops[1..])
  }

  /** Registration times do not decrease and nothing is registered before it starts. */
  ghost predicate Disciplined(ops: seq<Op>, last: Time) {
    ops == [] || match ops[0]
      case RegisterOp(a, _, _, at) => last <= at && a.validFrom <= at && Disciplined(ops[1..], at)
      case RevokeOp(_, _, _, _, _) => Disciplined(ops[1..], last)
  }

  /** The time of the last registration. */
  ghost function Horizon(ops: seq<Op>, last: Time): Time {
    if ops == [] then last
    else Horizon(ops[1..], if ops[0].RegisterOp? then ops[0].at else last)
  }

  ghost predicate Sound(r: Registry, last: Time) {
    && Keyed(r.assignments) && ConflictFree(r.assignments, last)
    && forall k | k in r.assignments :: r.assignments[k].validFrom <= last
  }

  lemma RegisterSound(r: Registry, a: Assignment, actor: string, reason: string, last: Time, at: Time)
    requires Sound(r, last) && last <= at && a.validFrom <= at
    ensures Sound(Register(r, a, actor, reason, at), at)
  {
    if RegisterFault(r, a, at).None? {
      RegistrationKeepsDutiesExactly(r.assignments, a, at);
    }
  }

  lemma RevokeSound(r: Registry, tenant: string, id: string, actor: string, reason: string, at: Time, last: Time)
    requires Sound(r, last)
    ensures Sound(Revoke(r, tenant, id, actor, reason, at), last)
  {
    var m, n := r.assignments, Revoke(r, tenant, id, actor, reason, at).assignments;
    forall j, k, t | j in n && k in n && j != k && last <= t ensures !Clash(n[j], n[k], t) {
      assert !Clash(m[j], m[k], t);
    }
  }

  /** Segregation of duties over every disciplined run, whatever is revoked in between. */
  lemma {:induction false} SegregationOfDuties(r: Registry, ops: seq<Op>, last: Time)
    requires Sound(r, last) && Disciplined(ops, last)
    ensures Sound(Run(r, ops), Horizon(ops, last))
    decreases |ops|
  {
    if ops != [] {
      match ops[0] {
        case RegisterOp(a, actor, reason, at) =>
          RegisterSound(r, a, actor, reason, last, at);
          SegregationOfDuties(Step(r, ops[0]), ops[1..], at);
        case RevokeOp(tenant, id, actor, reason, at) =>
          RevokeSound(r, tenant, id, actor, reason, at, last);
          SegregationOfDuties(Step(r, ops[0]), ops[1..], last);
      }
    }
  }

  /** A registration ahead of time defeats the check: both are accepted and later in force together. */
  lemma EarlyRegistrationDefeatsDuties(tenant: string, subject: string, scope: Scope)
    requires Trim(tenant) == tenant != ""
    ensures
      var a := Assignment("a", tenant, subject, Inspector, scope, 10, 20, "s", Active, "", 0, "");
      var b := a.(id := "b", role := Auditor);
      var r := Run(Registry(map[], []), [RegisterOp(a, "x", "y", 0), RegisterOp(b, "x", "y", 0)]);
      Key(tenant, "a") in r.assignments && Key(tenant, "b") in r.assignments
      && Clash(r.assignments[Key(tenant, "a")], r.assignments[Key(tenant, "b")], 10)
  {
    TrimFixed("a");
    TrimFixed("b");
    var a := Assignment("a", tenant, subject, Inspector, scope, 10, 20, "s", Active, "", 0, "");
    var b := a.(id := "b", role := Auditor);
    var ka, kb := Key(tenant, "a"), Key(tenant, "b");
    assert ka[|ka| - 1] == 'a' && kb[|kb| - 1] == 'b';
    var s0 := Registry(map[], []);
    var s1 := Register(s0, a, "x", "y", 0);
    assert RegisterFault(s0, a, 0) == None && RegisterFault(s1, b, 0) == None;
    var ops := [RegisterOp(a, "x", "y", 0), RegisterOp(b, "x", "y", 0)];
    assert Run(s0, ops) == Run(s1, ops[1..]) == Run(Register(s1, b, "x", "y", 0), ops[1..][1..]);
  }

  /** `b` is `a`, or `a` revoked by someone for a reason. */
  ghost predicate Later(a: Assignment, b: Assignment) {
    b == a
    || (a.state == Active && b.revokedBy != "" && b.revocationReason != ""
        && b == a.(state := Revoked, revokedBy := b.revokedBy, revokedAt := b.revokedAt,
                   revocationReason := b.revocationReason))
  }

  /** A registered assignment is never changed but by one revocation, which is final. */
  lemma {:induction false} RegisteredOrRevoked(r: Registry, ops: seq<Op>, k: string)
    requires k in r.assignments
    ensures k in Run(r, ops).assignments && Later(r.assignments[k], Run(r, ops).assignments[k])
    ensures r.assignments[k].state == Revoked ==> forall t :: !ValidAt(Run(r, ops).assignments[k], t)
    ensures r.ledger <= Run(r, ops).ledger
    decreases |ops|
  {
    if ops != [] {
      StepLater(r, ops[0], k);
      RegisteredOrRevoked(Step(r, ops[0]), ops[1..], k);
    }
  }

  lemma StepLater(r: Registry, op: Op, k: string)
    requires k in r.assignments
    ensures k in Step(r, op).assignments && Later(r.assignments[k], Step(r, op).assignments[k])
    ensures r.ledger <= Step(r, op).ledger
  {}

  /** A revocation takes effect exactly on the named, unrevoked assignment, with its revoker and reason. */
  lemma RevokedExactly(r: Registry, tenant: string, id: string, actor: string, reason: string, at: Time, k: string)
    requires k in r.assignments
    ensures
      var u := Step(r, RevokeOp(tenant, id, actor, reason, at));
      var b := u.assignments[k];
      if k == Key(tenant, id) && r.assignments[k].state == Active && Trim(actor) != "" && Trim(reason) != "" then
        && b.state == Revoked && b.revokedBy == Trim(actor) && b.revokedAt == at && b.revocationReason == Trim(reason)
        && (b.tenant != "" && b.id != "" ==> Noted(r.ledger, u.ledger, b, "ASSIGNMENT_REVOKED", actor, reason, at))
      else b == r.assignments[k]
  {}

  /** Same holder, a target that both scopes reach, and the same role or two that duties keep apart. */
  lemma IncompatibleExactly(a: Assignment, b: Assignment)
    ensures Incompatible(a, b) <==>
      && a.tenant == b.tenant && a.subject == b.subject
      && (exists t :: ScopeMatches(a.scope, t) && ScopeMatches(b.scope, t))
      && (a.role == b.role
          || {a.role, b.role} in {{Auditor, Inspector}, {Auditor, ProjectManager}, {Contractor, ProjectManager},
                                  {Contractor, TenantAdmin}})
  {
    OverlapExact(a.scope, b.scope);
    ConflictingRoles(a.role, b.role);
  }

  /** The ledger grew by one entry, which names the assignment, its holder, role and scope, who did what and why. */
  ghost predicate Noted(before: seq<AuditRecord>, after: seq<AuditRecord>, a: Assignment, transition: string,
      actor: string, reason: string, at: Time) {
    && |after| == |before| + 1 && after[..|before|] == before
    && var e := after[|before|];
       && e.tenant == a.tenant && e.assignmentId == a.id && e.subject == a.subject && e.role == a.role
       && e.scope == a.scope && e.transition == transition && e.actor == Trim(actor) && e.reason == Trim(reason)
       && e.recordedAt == at
  }

  /** A registration is accepted exactly under a new name that nothing in force under another one conflicts with. */
  lemma RegisteredExactly(r: Registry, a: Assignment, actor: string, reason: string, at: Time)
    ensures
      var u := Step(r, RegisterOp(a, actor, reason, at));
      if && a.tenant != "" && a.id != "" && Key(a.tenant, a.id) !in r.assignments
         && forall x | x in r.assignments.Values && x.id != a.id && Incompatible(x, a) ::
              x.state == Revoked || at < x.validFrom || x.validTo < at
      then
        && u.assignments == r.assignments[Key(a.tenant, a.id) := a]
        && Noted(r.ledger, u.ledger, a, "ASSIGNMENT_CREATED", actor, reason, at)
      else u == r && RegisterFault(r, a, at).Some?
  {
    if Blocked(r.assignments, a, at) {
      var k :| k in r.assignments && Blocks(r.assignments[k], a, at);
      assert r.assignments[k] in r.assignments.Values;
    }
  }

  // ---- access from assignments ----

  /** A listing, in any order, of the subject's assignments in force at `at`. */
  ghost predicate Lists(m: map<string, Assignment>, tenant: string, subject: string, at: Time, list: seq<Assignment>) {
    forall a :: a in list <==>
      && a in m.Values && a.tenant == tenant && a.subject == subject
      && a.state == Active && a.validFrom <= at && at <= a.validTo
  }

  ghost function Grants(list: seq<Assignment>): (gs: seq<Grant>)
    ensures |gs| == |list| && forall i | 0 <= i < |list| :: gs[i] == ToGrant(list[i])
  {
    seq(|list|, i requires 0 <= i < |list| => ToGrant(list[i]))
  }

  ghost function ScopedDecision(p: Policy, grants: seq<Grant>, req: Request): Decision {
    if !req.authenticated || Blank(req.subject) || Blank(req.tenant) then Deny(Unauthenticated)
    else if req.tenant != req.target.tenant then Deny(CrossTenant)
    else if grants == [] then Deny(RoleNotGranted)
    else Evaluation(Isolated(p, grants, req), req)
  }

  /** Off the archive, scoped access depends on the set of assignments, not on the order they are listed in. */
  lemma ScopedAccessIgnoresOrder(p: Policy, m: map<string, Assignment>, req: Request, at: Time, a: seq<Assignment>,
      b: seq<Assignment>)
    requires req.target.lifecycle != Archived
    requires Lists(m, Trim(req.tenant), Trim(req.subject), at, a)
      && Lists(m, Trim(req.tenant), Trim(req.subject), at, b)
    ensures ScopedDecision(p, Grants(a), req) == ScopedDecision(p, Grants(b), req)
  {
    var x, y := Grants(a), Grants(b);
    SameGrants(a, b);
    SameGrants(b, a);
    assert (x != [] ==> x[0] in y) && (y != [] ==> y[0] in x);
    if x != [] {
      IsolatedIgnoresOrder(p, x, y, req);
    }
  }

  /** Scoped access in the fields of request, policy and grants: some grant in force suits, and leads if archived. */
  lemma ScopedAllowedExactly(p: Policy, grants: seq<Grant>, req: Request)
    ensures ScopedDecision(p, grants, req) == Allow <==>
      && Known(req) && req.tenant == req.target.tenant && InPerson(req) && Member(p, req) && HasEntitlement(p, req)
      && (req.target.lifecycle == Archived ==> req.action == Read)
      && exists n: nat :: AllowsAt(grants, req, n)
  {
    BlankMeansTrimmedEmpty(req.subject);
    BlankMeansTrimmedEmpty(req.tenant);
    if grants != [] {
      IsolatedEvaluation(p, grants, req);
      GateOpens(p, req);
      GrantDecisionAllows(grants, req);
    }
  }

  lemma IsolatedIgnoresOrder(p: Policy, x: seq<Grant>, y: seq<Grant>, req: Request)
    requires req.target.lifecycle != Archived && x != [] && y != []
    requires forall g :: g in x <==> g in y
    ensures Evaluation(Isolated(p, x, req), req) == Evaluation(Isolated(p, y, req), req)
  {
    IsolatedEvaluation(p, x, req);
    IsolatedEvaluation(p, y, req);
    DecisionIgnoresOrder(x, y, req);
  }

  lemma SameGrants(a: seq<Assignment>, b: seq<Assignment>)
    requires forall x | x in a :: x in b
    ensures forall g | g in Grants(a) :: g in Grants(b)
  {
    forall g | g in Grants(a) ensures g in Grants(b) {
      var i :| 0 <= i < |a| && Grants(a)[i] == g;
      assert a[i] in b;
      var j :| 0 <= j < |b| && b[j] == a[i];
      assert Grants(b)[j] == g;
    }
  }

  class ScopedAssignmentRegistry {
    var assignments: map<string, Assignment>
    var ledger: seq<AuditRecord>

    ghost function Model(): Registry
      reads this
    {
      Registry(assignments, ledger)
    }

    constructor ()
      ensures Model() == Registry(map[], [])
    {
      assignments, ledger := map[], [];
    }

    method RegisterAssignment(a: Assignment, actor: string, reason: string, at: Time)
      returns (fault: Option<AssignmentError>)
      modifies this
      ensures fault == RegisterFault(old(Model()), a, at)
      ensures Model() == Register(old(Model()), a, actor, reason, at)
    {
      if a.tenant == "" || a.id == "" {
        return Some(BlankAssignmentId);
      }
      var key := Key(a.tenant, a.id);
      if key in assignments {
        return Some(DuplicateAssignmentId);
      }
      var existing: seq<Assignment> := [];
      var keys := assignments.Keys;
      while keys != {}
        invariant keys <= assignments.Keys && Model() == old(Model())
        invariant forall ex :: ex in existing <==>
          exists k :: k in assignments.Keys - keys && assignments[k] == ex && SameHolder(ex, a)
      {
        var k :| k in keys;
        if SameHolder(assignments[k], a) {
          existing := existing + [assignments[k]];
        }
        keys := keys - {k};
      }
      var conflict := CheckRoleConflict(existing, a, at);
      if conflict {
        return Some(RoleConflict);
      }
      assignments := assignments[key := a];
      ledger := ledger + [Entry(a, "ASSIGNMENT_CREATED", Trim(actor), Trim(reason), at)];
      return None;
    }

    method RevokeAssignment(tenant: string, id: string, actor: string, reason: string, at: Time)
      returns (fault: Option<AssignmentError>)
      modifies this
      ensures fault == RevokeFault(old(Model()), tenant, id, actor, reason)
      ensures Model() == Revoke(old(Model()), tenant, id, actor, reason, at)
    {
      var key := Key(tenant, id);
      if key !in assignments {
        return Some(AssignmentNotFound);
      }
      var current := assignments[key];
      if current.state == Revoked {
        return Some(AlreadyRevoked);
      }
      if Trim(actor) == "" {
        return Some(BlankRevoker);
      }
      if Trim(reason) == "" {
        return Some(BlankReason);
      }
      assignments := assignments[key := RevokedCopy(current, actor, reason, at)];
      ledger := Append(ledger, Entry(current, "ASSIGNMENT_REVOKED", Trim(actor), Trim(reason), at));
      return None;
    }

    method ListActiveAssignments(tenant: string, subject: string, at: Time) returns (list: seq<Assignment>)
      ensures Lists(assignments, Trim(tenant), Trim(subject), at, list)
    {
      list := [];
      var keys := assignments.Keys;
      while keys != {}
        invariant keys <= assignments.Keys
        invariant forall a :: a in list <==>
          exists k :: k in assignments.Keys - keys && assignments[k] == a
            && a.tenant == Trim(tenant) && a.subject == Trim(subject) && ValidAt(a, at)
      {
        var k :| k in keys;
        var a := assignments[k];
        if a.tenant == Trim(tenant) && a.subject == Trim(subject) && ValidAt(a, at) {
          list := list + [a];
        }
        keys := keys - {k};
      }
      assert forall a :: a in assignments.Values <==> exists k :: k in assignments && assignments[k] == a;
    }
  }

  method EvaluateScopedAccess(registry: ScopedAssignmentRegistry, evaluator: PolicyEvaluator, req: Request, at: Time)
    returns (r: Decision)
    ensures exists list ::
      Lists(registry.assignments, Trim(req.tenant), Trim(req.subject), at, list)
      && r == ScopedDecision(evaluator.Model(), Grants(list), req)
  {
    var list := registry.ListActiveAssignments(req.tenant, req.subject, at);
    if !req.authenticated || Blank(req.subject) || Blank(req.tenant) {
      return Deny(Unauthenticated);
    }
    if req.tenant != req.target.tenant {
      return Deny(CrossTenant);
    }
    if |list| == 0 {
      return Deny(RoleNotGranted);
    }
    TrimIdempotent(req.tenant);
    TrimIdempotent(req.subject);
    var grants := seq(|list|, i requires 0 <= i < |list| => ToGrant(list[i]));
    assert grants == Grants(list);
    r := EvaluateIsolated(evaluator, grants, req);
  }
}
