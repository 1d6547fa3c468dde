/**
 The default-deny policy evaluator: membership, entitlement, lifecycle and then the role grants
 of the subject, in list order.
 */
module AccessPolicy {
  import opened Results
  import opened Text

  datatype Role =
    TenantAdmin | ProjectManager | Inspector | Auditor | Viewer | Contractor | Support | OtherRole(name: string)

  datatype Action = Read | Create | Update | Delete | Export | OtherAction(name: string)

  datatype MembershipStatus = ActiveMember | SuspendedMember | InactiveMember | OtherStatus(name: string)

  datatype Lifecycle = ActiveRecord | Archived | OtherLifecycle(name: string)

  datatype Denial =
    | Unauthenticated | CrossTenant | InactiveMembership | UnknownRoleDenied | RoleNotGranted | ScopeMismatch
    | DirectObjectMismatch | ArchivedRecord | DelegationNotImplemented | MissingEntitlement | PrivilegeEscalation
    | DefaultDeny

  datatype Decision = Allow | Deny(reason: Denial)

  datatype Scope = Scope(tenant: string, company: string, project: string, site: string, area: string, objectId: string)

  datatype Grant = Grant(subject: string, tenant: string, role: Role, scope: Scope)

  datatype Target = Target(
    tenant: string, company: string, project: string, site: string, area: string, objectId: string,
      lifecycle: Lifecycle)

  datatype Request = Request(
    subject: string, tenant: string, authenticated: bool, target: Target, action: Action,
    delegated: bool, delegator: string, entitlement: string)

  // ---- one grant ----

  predicate RolePermits(role: Role, action: Action) {
    match role
    case TenantAdmin => true
    case ProjectManager => action in {Read, Create, Update, Export}
    case Inspector => action in {Read, Create, Update}
    case Auditor => action in {Read, Export}
    case Viewer => action == Read
    case Contractor => action in {Read, Create}
    case Support => action == Read
    case OtherRole(_) => false
  }

  predicate FieldMatches(granted: string, actual: string) { granted == "" || granted == actual }

  predicate ScopeMatches(scope: Scope, t: Target) {
    && FieldMatches(scope.tenant, t.tenant) && FieldMatches(scope.company, t.company)
    && FieldMatches(scope.project, t.project) && FieldMatches(scope.site, t.site) && FieldMatches(scope.area, t.area)
  }

  /** Roles that never reach a whole tenant or company. */
  predicate NeedsProject(role: Role) { role in {ProjectManager, Inspector, Contractor, Support} }

  predicate NamesProjectOrSite(scope: Scope) { !Blank(scope.project) || !Blank(scope.site) }

  datatype Verdict = UnknownRole | OutOfScope | WrongObject | NotPermitted | ArchiveBlocked | Granted

  /** The tests applied to one grant, in order. */
  function Judge(g: Grant, req: Request): Verdict {
    if g.role.OtherRole? then UnknownRole
    else if NeedsProject(g.role) && !NamesProjectOrSite(g.scope) then OutOfScope
    else if !ScopeMatches(g.scope, req.target) then OutOfScope
    else if g.scope.objectId != "" && g.scope.objectId != req.target.objectId then WrongObject
    else if !RolePermits(g.role, req.action) then NotPermitted
    else if req.target.lifecycle == Archived && g.role != Auditor && g.role != TenantAdmin then ArchiveBlocked
    else Granted
  }

  /** The verdict on each grant, for a given request. */
  function JudgeFor(req: Request): Grant -> Verdict {
    (g: Grant) => Judge(g, req)
  }

  // ---- a list of grants ----

  predicate Passing(v: Verdict) { v == ArchiveBlocked || v == Granted }

  ghost predicate Yields(grants: seq<Grant>, judge: Grant -> Verdict, v: Verdict) {
    exists g :: g in grants && judge(g) == v
  }

  /** The first grant that passes every test but the archive rule. */
  ghost function Leading(grants: seq<Grant>, judge: Grant -> Verdict): (r: Option<Grant>)
    ensures r.Some? ==> r.value in grants && Passing(judge(r.value))
    ensures r.None? <==> forall g | g in grants :: !Passing(judge(g))
  {
    if grants == [] then None
    else if Passing(judge(grants[0])) then Some(grants[0])
    else
      assert forall g | g in grants :: g == grants[0] || g in grants[1..];
      Leading(grants[1..], judge)
  }

  lemma {:induction false} LeadingIsFirst(grants: seq<Grant>, judge: Grant -> Verdict, n: nat)
    requires n < |grants| && Passing(judge(grants[n])) && forall j | 0 <= j < n :: !Passing(judge(grants[j]))
    ensures Leading(grants, judge) == Some(grants[n])
  {
    if n > 0 {
      LeadingIsFirst(grants[1..], judge, n - 1);
    }
  }

  /** The leading grant decides; without one, the most specific denial does. */
  ghost function GrantDecision(grants: seq<Grant>, judge: Grant -> Verdict): Decision {
    var leading := Leading(grants, judge);
    if grants == [] then Deny(RoleNotGranted)
    else if leading.Some? then if judge(leading.value) == Granted then Allow else Deny(ArchivedRecord)
    else Fallback(grants, judge)
  }

  ghost function Fallback(grants: seq<Grant>, judge: Grant -> Verdict): (d: Decision)
    ensures d != Allow
  {
    if Yields(grants, judge, UnknownRole) then Deny(UnknownRoleDenied)
    else if Yields(grants, judge, WrongObject) then Deny(DirectObjectMismatch)
    else if Yields(grants, judge, NotPermitted) then Deny(PrivilegeEscalation)
    else if Yields(grants, judge, OutOfScope) then Deny(ScopeMismatch)
    else Deny(DefaultDeny)
  }

  /** No grant passes while another is held back by the archive rule alone. */
  ghost predicate Unanimous(grants: seq<Grant>, judge: Grant -> Verdict) {
    !(Yields(grants, judge, Granted) && Yields(grants, judge, ArchiveBlocked))
  }

  lemma SameGrantsSameDecision(a: seq<Grant>, b: seq<Grant>, judge: Grant -> Verdict)
    requires forall g :: g in a <==> g in b
    requires Unanimous(a, judge)
    ensures GrantDecision(a, judge) == GrantDecision(b, judge)
  {
    assert (a != [] ==> a[0] in b) && (b != [] ==> b[0] in a);
    forall v ensures Yields(a, judge, v) <==> Yields(b, judge, v) {}
    var x, y := Leading(a, judge), Leading(b, judge);
    if x.Some? {
      assert Yields(a, judge, judge(x.value));
      assert y.Some? && Yields(b, judge, judge(y.value));
    }
  }

  /** Exactly when the list order matters: some grant passes and another is blocked by the archive rule alone. */
  lemma OrderMattersExactly(grants: seq<Grant>, judge: Grant -> Verdict)
    ensures Unanimous(grants, judge) <==>
      forall other | multiset(other) == multiset(grants) :: GrantDecision(other, judge) == GrantDecision(grants, judge)
  {
    if Unanimous(grants, judge) {
      forall other
        | multiset(other) == multiset(grants) ensures GrantDecision(other, judge) == GrantDecision(grants, judge) {
        forall g ensures g in grants <==> g in other {
          assert g in multiset(grants) <==> g in multiset(other);
        }
        SameGrantsSameDecision(grants, other, judge);
      }
    } else {
      var a, b := Reorderings(grants, judge);
    }
  }

  lemma Reorderings(grants: seq<Grant>, judge: Grant -> Verdict) returns (a: seq<Grant>, b: seq<Grant>)
    requires !Unanimous(grants, judge)
    ensures multiset(a) == multiset(b) == multiset(grants)
    ensures GrantDecision(a, judge) == Allow && GrantDecision(b, judge) == Deny(ArchivedRecord)
  {
    var g :| g in grants && judge(g) == Granted;
    var h :| h in grants && judge(h) == ArchiveBlocked;
    a := MoveToFront(grants, g);
    b := MoveToFront(grants, h);
  }

  lemma MoveToFront(grants: seq<Grant>, g: Grant) returns (other: seq<Grant>)
    requires g in grants
    ensures multiset(other) == multiset(grants) && other != [] && other[0] == g
  {
    var i :| 0 <= i < |grants| && grants[i] == g;
    assert grants == grants[..i] + [g] + grants[i + 1..];
    other := [g] + grants[..i] + grants[i + 1..];
  }

  /** Access rests on a grant that passes every test, and on nothing else when no grant is archive-blocked. */
  lemma AllowMeansGranted(grants: seq<Grant>, judge: Grant -> Verdict)
    ensures GrantDecision(grants, judge) == Allow ==> Yields(grants, judge, Granted)
    ensures Yields(grants, judge, Granted) && Unanimous(grants, judge) ==> GrantDecision(grants, judge) == Allow
  {
    var leading := Leading(grants, judge);
    if leading.Some? {
      assert Yields(grants, judge, judge(leading.value));
    }
  }

  lemma OffArchiveUnanimous(grants: seq<Grant>, req: Request)
    requires req.target.lifecycle != Archived
    ensures Unanimous(grants, JudgeFor(req))
  {}

  /** Off the archive, the decision depends on the set of grants only. */
  lemma DecisionIgnoresOrder(a: seq<Grant>, b: seq<Grant>, req: Request)
    requires req.target.lifecycle != Archived
    requires forall g :: g in a <==> g in b
    ensures GrantDecision(a, JudgeFor(req)) == GrantDecision(b, JudgeFor(req))
  {
    OffArchiveUnanimous(a, req);
    SameGrantsSameDecision(a, b, JudgeFor(req));
  }

  /** Off the archive, an added grant never removes access. */
  lemma MoreGrantsMoreAccess(a: seq<Grant>, b: seq<Grant>, req: Request)
    requires req.target.lifecycle != Archived
    requires forall g | g in a :: g in b
    requires GrantDecision(a, JudgeFor(req)) == Allow
    ensures GrantDecision(b, JudgeFor(req)) == Allow
  {
    AllowMeansGranted(a, JudgeFor(req));
    OffArchiveUnanimous(b, req);
    AllowMeansGranted(b, JudgeFor(req));
  }

  // ---- the evaluator ----

  datatype Policy = Policy(
    memberships: map<string, MembershipStatus>, assignments: map<string, seq<Grant>>,
    entitlements: map<string, map<string, bool>>)

  function MemberKey(tenant: string, subject: string): string { PairKey(tenant, subject) }

  function GrantsOf(p: Policy, req: Request): seq<Grant> { GrantsAt(p, MemberKey(req.tenant, req.subject)) }

  predicate Entitled(p: Policy, tenant: string, entitlement: string) {
    && Trim(tenant) in p.entitlements && entitlement in p.entitlements[Trim(tenant)]
    && p.entitlements[Trim(tenant)][entitlement]
  }

  /** The tests that precede the role grants. */
  function Gate(p: Policy, req: Request): Option<Denial> {
    var key := MemberKey(req.tenant, req.subject);
    if !req.authenticated || Blank(req.subject) || Blank(req.tenant) then Some(Unauthenticated)
    else if Blank(req.target.tenant) || Trim(req.tenant) != Trim(req.target.tenant) then Some(CrossTenant)
    else if req.delegated || !Blank(req.delegator) then Some(DelegationNotImplemented)
    else if key !in p.memberships || p.memberships[key] != ActiveMember then Some(InactiveMembership)
    else if req.entitlement != "" && !Entitled(p, req.tenant, req.entitlement) then Some(MissingEntitlement)
    else if req.target.lifecycle == Archived && req.action != Read then Some(ArchivedRecord)
    else None
  }

  ghost function Evaluation(p: Policy, req: Request): Decision {
    var gate := Gate(p, req);
    if gate.Some? then Deny(gate.value) else GrantDecision(GrantsOf(p, req), JudgeFor(req))
  }

  function WithGrant(p: Policy, g: Grant): Policy {
    var key := MemberKey(g.tenant, g.subject);
    p.(assignments := p.assignments[key := GrantsAt(p, key) + [g]])
  }

  function WithEntitlement(p: Policy, tenant: string, entitlement: string, enabled: bool): Policy {
    var held := if tenant in p.entitlements then p.entitlements[tenant] else map[];
    p.(entitlements := p.entitlements[tenant := held[entitlement := enabled]])
  }

  /** A grant appended behind the leading one does not change who leads. */
  lemma {:induction false} LeadingStays(grants: seq<Grant>, g: Grant, judge: Grant -> Verdict)
    requires Leading(grants, judge).Some?
    ensures Leading(grants + [g], judge) == Leading(grants, judge)
  {
    if !Passing(judge(grants[0])) {
      LeadingStays(grants[1..], g, judge);
      assert (grants + [g])[1..] == grants[1..] + [g];
    }
  }

  /** Granting a role to anyone never takes access away, to archived records or others: the new grant comes last. */
  lemma AddedGrantKeepsAccess(p: Policy, g: Grant, req: Request)
    requires Evaluation(p, req) == Allow
    ensures Evaluation(WithGrant(p, g), req) == Allow
  {
    var q := WithGrant(p, g);
    WithGrantExtends(p, g, MemberKey(g.tenant, g.subject), MemberKey(req.tenant, req.subject));
    assert Gate(q, req) == Gate(p, req);
    LeadingStays(GrantsOf(p, req), g, JudgeFor(req));
  }

  function GrantsAt(p: Policy, key: string): seq<Grant> { if key in p.assignments then p.assignments[key] else [] }

  lemma WithGrantExtends(p: Policy, g: Grant, at: string, key: string)
    requires at == MemberKey(g.tenant, g.subject)
    ensures WithGrant(p, g).memberships == p.memberships && WithGrant(p, g).entitlements == p.entitlements
    ensures GrantsAt(WithGrant(p, g), key) == GrantsAt(p, key) + (if key == at then [g] else [])
  {}

  // ---- what an answer means ----

  /** The permission table read by action: which roles may do what. */
  lemma RolesByAction(role: Role)
    ensures RolePermits(role, Read) <==> !role.OtherRole?
    ensures RolePermits(role, Create) <==> role in {TenantAdmin, ProjectManager, Inspector, Contractor}
    ensures RolePermits(role, Update) <==> role in {TenantAdmin, ProjectManager, Inspector}
    ensures RolePermits(role, Export) <==> role in {TenantAdmin, ProjectManager, Auditor}
    ensures RolePermits(role, Delete) <==> role == TenantAdmin
    ensures forall name :: RolePermits(role, OtherAction(name)) <==> role == TenantAdmin
  {}

  ghost predicate Known(req: Request) { req.authenticated && Trim(req.subject) != "" && Trim(req.tenant) != "" }

  ghost predicate AtHome(req: Request) { Trim(req.target.tenant) == Trim(req.tenant) }

  ghost predicate InPerson(req: Request) { !req.delegated && Trim(req.delegator) == "" }

  ghost predicate Member(p: Policy, req: Request) {
    var key := Trim(req.tenant) + ":" + Trim(req.subject);
    key in p.memberships && p.memberships[key] == ActiveMember
  }

  ghost predicate HasEntitlement(p: Policy, req: Request) {
    req.entitlement == ""
    || (Trim(req.tenant) in p.entitlements && req.entitlement in p.entitlements[Trim(req.tenant)]
        && p.entitlements[Trim(req.tenant)][req.entitlement])
  }

  ghost predicate Changes(req: Request) { req.target.lifecycle == Archived && req.action != Read }

  /** The caller's grants, as stored under tenant and subject. */
  ghost function Held(p: Policy, req: Request): seq<Grant> {
    var key := Trim(req.tenant) + ":" + Trim(req.subject);
    if key in p.assignments then p.assignments[key] else []
  }

  ghost predicate Reaches(s: Scope, t: Target) {
    && (s.tenant != "" ==> s.tenant == t.tenant) && (s.company != "" ==> s.company == t.company)
    && (s.project != "" ==> s.project == t.project) && (s.site != "" ==> s.site == t.site)
    && (s.area != "" ==> s.area == t.area)
  }

  /** The grant is of a known role that does not lack the project or site it needs, and covers the target's place. */
  ghost predicate InPlace(g: Grant, t: Target) {
    && !g.role.OtherRole? && Reaches(g.scope, t)
    && (g.role in {ProjectManager, Inspector, Contractor, Support} ==>
       Trim(g.scope.project) != "" || Trim(g.scope.site) != "")
  }

  ghost predicate OnObject(g: Grant, t: Target) { g.scope.objectId == "" || g.scope.objectId == t.objectId }

  /** The grant passes role, place, object and action. */
  ghost predicate Suits(g: Grant, req: Request) {
    InPlace(g, req.target) && OnObject(g, req.target) && RolePermits(g.role, req.action)
  }

  ghost predicate FirstSuiting(gs: seq<Grant>, req: Request, n: nat) {
    n < |gs| && Suits(gs[n], req) && forall j | 0 <= j < n :: !Suits(gs[j], req)
  }

  /** The first suiting grant is at `n` and may read an archived record, if the target is one. */
  ghost predicate AllowsAt(gs: seq<Grant>, req: Request, n: nat) {
    FirstSuiting(gs, req, n) && (req.target.lifecycle == Archived ==> gs[n].role in {Auditor, TenantAdmin})
  }

  lemma SuitsIsPassing(g: Grant, req: Request)
    ensures Suits(g, req) <==> Passing(Judge(g, req))
    ensures Suits(g, req) ==>
      (Judge(g, req) == Granted <==> (req.target.lifecycle == Archived ==> g.role in {Auditor, TenantAdmin}))
    ensures Judge(g, req) == UnknownRole <==> g.role.OtherRole?
    ensures Judge(g, req) == WrongObject <==> InPlace(g, req.target) && !OnObject(g, req.target)
    ensures Judge(g, req) == NotPermitted <==>
      InPlace(g, req.target) && OnObject(g, req.target) && !RolePermits(g.role, req.action)
  {
    BlankMeansTrimmedEmpty(g.scope.project);
    BlankMeansTrimmedEmpty(g.scope.site);
  }

  lemma GateOpens(p: Policy, req: Request)
    ensures Gate(p, req).None? <==>
      Known(req) && AtHome(req) && InPerson(req) && Member(p, req) && HasEntitlement(p, req) && !Changes(req)
    ensures GrantsOf(p, req) == Held(p, req)
  {
    BlankMeansTrimmedEmpty(req.subject);
    BlankMeansTrimmedEmpty(req.tenant);
    BlankMeansTrimmedEmpty(req.target.tenant);
    BlankMeansTrimmedEmpty(req.delegator);
  }

  lemma {:induction false} LeadingSuits(gs: seq<Grant>, req: Request, n: nat)
    requires FirstSuiting(gs, req, n)
    ensures Leading(gs, JudgeFor(req)) == Some(gs[n])
  {
    forall j | 0 <= j <= n ensures Suits(gs[j], req) <==> Passing(JudgeFor(req)(gs[j])) {
      SuitsIsPassing(gs[j], req);
    }
    LeadingIsFirst(gs, JudgeFor(req), n);
  }

  lemma {:induction false} SomeFirst(gs: seq<Grant>, req: Request, k: nat) returns (n: nat)
    requires k < |gs| && Suits(gs[k], req)
    ensures FirstSuiting(gs, req, n)
    decreases k
  {
    if j :| 0 <= j < k && Suits(gs[j], req) {
      n := SomeFirst(gs, req, j);
    } else {
      n := k;
    }
  }

  lemma FirstDecides(gs: seq<Grant>, req: Request, n: nat)
    requires FirstSuiting(gs, req, n)
    ensures GrantDecision(gs, JudgeFor(req)) == if AllowsAt(gs, req, n) then Allow else Deny(ArchivedRecord)
  {
    LeadingSuits(gs, req, n);
    SuitsIsPassing(gs[n], req);
  }

  lemma NoneSuits(gs: seq<Grant>, req: Request)
    requires forall k | 0 <= k < |gs| :: !Suits(gs[k], req)
    ensures GrantDecision(gs, JudgeFor(req)) !in {Allow, Deny(ArchivedRecord)}
  {
    forall g | g in gs ensures !Passing(JudgeFor(req)(g)) {
      SuitsIsPassing(g, req);
    }
  }

  /** The leading grant, by the fields of grants and request alone. */
  lemma GrantDecisionAllows(gs: seq<Grant>, req: Request)
    ensures GrantDecision(gs, JudgeFor(req)) == Allow <==> exists n: nat :: AllowsAt(gs, req, n)
  {
    if k :| 0 <= k < |gs| && Suits(gs[k], req) {
      var n := SomeFirst(gs, req, k);
      FirstDecides(gs, req, n);
      if m: nat :| AllowsAt(gs, req, m) {
        FirstDecides(gs, req, m);
      }
    } else {
      NoneSuits(gs, req);
    }
  }

  /**
   Exactly when access is allowed: the caller is known, of the target's tenant, there in person, an active member and
   entitled; an archived record is only read; and the first of the caller's grants that suits the request is an
   auditor's or a tenant administrator's if the record is archived.
   */
  lemma AllowedExactly(p: Policy, req: Request)
    ensures Evaluation(p, req) == Allow <==>
      && Known(req) && AtHome(req) && InPerson(req) && Member(p, req) && HasEntitlement(p, req)
      && (req.target.lifecycle == Archived ==> req.action == Read)
      && exists n: nat :: AllowsAt(Held(p, req), req, n)
  {
    GateOpens(p, req);
    GrantDecisionAllows(Held(p, req), req);
  }

  /** A new grant is the last of its holder's, and an entitlement is set for its tenant alone; nothing else changes. */
  lemma UpdatesExactly(p: Policy, g: Grant, tenant: string, entitlement: string, enabled: bool, req: Request)
    ensures
      var q := WithGrant(p, g);
      && (forall x :: Member(q, x) <==> Member(p, x)) && (HasEntitlement(q, req) <==> HasEntitlement(p, req))
      && Held(q, req) == Held(p, req)
         + if Trim(g.tenant) + ":" + Trim(g.subject) == Trim(req.tenant) + ":" + Trim(req.subject) then [g] else []
    ensures
      var q := WithEntitlement(p, tenant, entitlement, enabled);
      && (forall x :: Member(q, x) <==> Member(p, x)) && Held(q, req) == Held(p, req)
      && (HasEntitlement(q, req) <==>
            || req.entitlement == ""
            || if (Trim(req.tenant), req.entitlement) == (tenant, entitlement) then enabled else HasEntitlement(p, req))
  {}

  /** Before any grant is looked at, the first condition that fails gives the reason. */
  lemma RefusedBecause(p: Policy, req: Request)
    ensures Evaluation(p, req) == Deny(Unauthenticated) <==> !Known(req)
    ensures Evaluation(p, req) == Deny(CrossTenant) <==> Known(req) && !AtHome(req)
    ensures Evaluation(p, req) == Deny(DelegationNotImplemented) <==> Known(req) && AtHome(req) && !InPerson(req)
    ensures Evaluation(p, req) == Deny(InactiveMembership) <==>
      Known(req) && AtHome(req) && InPerson(req) && !Member(p, req)
    ensures Evaluation(p, req) == Deny(MissingEntitlement) <==>
      Known(req) && AtHome(req) && InPerson(req) && Member(p, req) && !HasEntitlement(p, req)
  {
    BlankMeansTrimmedEmpty(req.subject);
    BlankMeansTrimmedEmpty(req.tenant);
    BlankMeansTrimmedEmpty(req.target.tenant);
    BlankMeansTrimmedEmpty(req.delegator);
  }

  /** The archive rule is the reason exactly for a change, or when the first suiting grant is of another role. */
  lemma ArchivedBecause(p: Policy, req: Request)
    requires Known(req) && AtHome(req) && InPerson(req) && Member(p, req) && HasEntitlement(p, req)
    ensures Evaluation(p, req) == Deny(ArchivedRecord) <==>
      Changes(req) || exists n: nat :: FirstSuiting(Held(p, req), req, n) && !AllowsAt(Held(p, req), req, n)
  {
    GateOpens(p, req);
    var gs := Held(p, req);
    RefusedBecause(p, req);
    if k :| 0 <= k < |gs| && Suits(gs[k], req) {
      var n := SomeFirst(gs, req, k);
      FirstDecides(gs, req, n);
    } else {
      NoneSuits(gs, req);
    }
  }

  /** With no suiting grant, the most specific failing gives the reason. */
  lemma DeniedBecause(gs: seq<Grant>, req: Request)
    requires forall g | g in gs :: !Suits(g, req)
    ensures
      var d := GrantDecision(gs, JudgeFor(req));
      if gs == [] then d == Deny(RoleNotGranted)
      else if exists g :: g in gs && g.role.OtherRole? then d == Deny(UnknownRoleDenied)
      else if exists g :: g in gs && InPlace(g, req.target) && !OnObject(g, req.target)
        then d == Deny(DirectObjectMismatch)
      else if exists g :: g in gs && InPlace(g, req.target) && OnObject(g, req.target)
        then d == Deny(PrivilegeEscalation)
      else d == Deny(ScopeMismatch)
  {
    forall g | g in gs
      ensures !Passing(JudgeFor(req)(g))
      ensures JudgeFor(req)(g) == UnknownRole <==> g.role.OtherRole?
      ensures JudgeFor(req)(g) == WrongObject <==> InPlace(g, req.target) && !OnObject(g, req.target)
      ensures JudgeFor(req)(g) == NotPermitted <==> InPlace(g, req.target) && OnObject(g, req.target)
    {
      SuitsIsPassing(g, req);
    }
    if gs != [] {
      assert gs[0] in gs;
    }
  }

  class PolicyEvaluator {
    var memberships: map<string, MembershipStatus>
    var assignments: map<string, seq<Grant>>
    var entitlements: map<string, map<string, bool>>

    ghost function Model(): Policy
      reads this
    {
      Policy(memberships, assignments, entitlements)
    }

    constructor ()
      ensures Model() == Policy(map[], map[], map[])
    {
      memberships, assignments, entitlements := map[], map[], map[];
    }

    method SetMembership(tenant: string, subject: string, status: MembershipStatus)
      modifies this
      ensures Model() == old(Model()).(memberships := old(memberships)[MemberKey(tenant, subject) := status])
    {
      memberships := memberships[MemberKey(tenant, subject) := status];
    }

    method AddRoleAssignment(g: Grant)
      modifies this`assignments
      ensures Model() == WithGrant(old(Model()), g)
    {
      var key := MemberKey(g.tenant, g.subject);
      var held := if key in assignments then assignments[key] else [];
      assignments := assignments[key := held + [g]];
    }

    method SetEntitlement(tenant: string, entitlement: string, enabled: bool)
      modifies this`entitlements
      ensures Model() == WithEntitlement(old(Model()), Trim(tenant), Trim(entitlement), enabled)
    {
      var t := Trim(tenant);
      if t !in entitlements {
        entitlements := entitlements[t := map[]];
      }
      entitlements := entitlements[t := entitlements[t][Trim(entitlement) := enabled]];
    }

    method Evaluate(req: Request) returns (r: Decision)
      ensures r == Evaluation(Model(), req)
    {
      var gate := Gate(Policy(memberships, assignments, entitlements), req);
      if gate.Some? {
        return Deny(gate.value);
      }
      var grants := GrantsOf(Policy(memberships, assignments, entitlements), req);
      r := DecideGrants(grants, JudgeFor(req));
    }
  }

  /** The loop over the grants, with its four denial flags; `judge` applies the tests to one grant. */
  method DecideGrants(grants: seq<Grant>, judge: Grant -> Verdict) returns (r: Decision)
    ensures r == GrantDecision(grants, judge)
  {
    if |grants| == 0 {
      return Deny(RoleNotGranted);
    }
    var scopeMismatch, objectMismatch, escalation, unknownRole := false, false, false, false;
    for n := 0 to |grants|
      invariant forall j | 0 <= j < n :: !Passing(judge(grants[j]))
      invariant unknownRole <==> Yields(grants[..n], judge, UnknownRole)
      invariant objectMismatch <==> Yields(grants[..n], judge, WrongObject)
      invariant escalation <==> Yields(grants[..n], judge, NotPermitted)
      invariant scopeMismatch <==> Yields(grants[..n], judge, OutOfScope)
    {
      var g := grants[n];
      assert grants[..n + 1] == grants[..n] + [g];
      YieldsMore(grants[..n], g, judge);
      match judge(g)
      case UnknownRole => unknownRole := true;
      case OutOfScope => scopeMismatch := true;
      case WrongObject => objectMismatch := true;
      case NotPermitted => escalation := true;
      case ArchiveBlocked =>
        LeadingIsFirst(grants, judge, n);
        return Deny(ArchivedRecord);
      case Granted =>
        LeadingIsFirst(grants, judge, n);
        return Allow;
    }
    assert grants[..|grants|] == grants;
    if unknownRole { return Deny(UnknownRoleDenied); }
    if objectMismatch { return Deny(DirectObjectMismatch); }
    if escalation { return Deny(PrivilegeEscalation); }
    if scopeMismatch { return Deny(ScopeMismatch); }
    return Deny(DefaultDeny);
  }

  lemma YieldsMore(grants: seq<Grant>, g: Grant, judge: Grant -> Verdict)
    ensures forall v :: Yields(grants + [g], judge, v) <==> Yields(grants, judge, v) || judge(g) == v
  {
    forall v ensures Yields(grants + [g], judge, v) <==> Yields(grants, judge, v) || judge(g) == v {
      assert g in grants + [g];
      if h :| h in grants && judge(h) == v {
        assert h in grants + [g];
      }
    }
  }

  /** The scratch policy that inherits memberships and entitlements and holds only the given grants. */
  function Isolated(p: Policy, grants: seq<Grant>, req: Request): Policy {
    var key := MemberKey(req.tenant, req.subject);
    Policy(p.memberships, if grants == [] then map[] else map[key := grants], p.entitlements)
  }

  lemma IsolatedEvaluation(p: Policy, grants: seq<Grant>, req: Request)
    requires grants != []
    ensures Gate(Isolated(p, grants, req), req) == Gate(p, req)
    ensures GrantsOf(Isolated(p, grants, req), req) == grants
  {}

  lemma IsolatedGrows(p: Policy, grants: seq<Grant>, g: Grant, req: Request)
    requires MemberKey(g.tenant, g.subject) == MemberKey(req.tenant, req.subject)
    ensures WithGrant(Isolated(p, grants, req), g) == Isolated(p, grants + [g], req)
  {}

  /** Evaluates a request in a scratch evaluator that holds only the given grants of the caller. */
  method EvaluateIsolated(evaluator: PolicyEvaluator, grants: seq<Grant>, req: Request) returns (r: Decision)
    requires forall i | 0 <= i < |grants| ::
      MemberKey(grants[i].tenant, grants[i].subject) == MemberKey(req.tenant, req.subject)
    ensures r == Evaluation(Isolated(evaluator.Model(), grants, req), req)
  {
    ghost var base := evaluator.Model();
    var scratch := new PolicyEvaluator();
    scratch.memberships := evaluator.memberships;
    scratch.entitlements := evaluator.entitlements;
    AddGrants(scratch, base, grants, req);
    r := scratch.Evaluate(req);
  }

  method AddGrants(scratch: PolicyEvaluator, ghost base: Policy, grants: seq<Grant>, req: Request)
    requires forall i | 0 <= i < |grants| ::
      MemberKey(grants[i].tenant, grants[i].subject) == MemberKey(req.tenant, req.subject)
    requires scratch.Model() == Isolated(base, [], req)
    modifies scratch
    ensures scratch.Model() == Isolated(base, grants, req)
  {
    for n := 0 to |grants|
      invariant scratch.Model() == Isolated(base, grants[..n], req)
    {
      assert grants[..n + 1] == grants[..n] + [grants[n]];
      IsolatedGrows(base, grants[..n], grants[n], req);
      scratch.AddRoleAssignment(grants[n]);
    }
    assert grants[..|grants|] == grants;
  }
}
