/**
 The provisional authorization matrix: fine-grained permissions per role, scope comparison, and
 the rules a delegation must satisfy.
 */
module AuthorizationMatrix {
  import opened Results
  import opened Text
  import opened Clock
  import opened AccessPolicy

  datatype Permission =
    | TenantRead | TenantManage | CompanyRead | CompanyManage | ProjectRead | ProjectManage | SiteRead | SiteManage
    | AreaRead | AreaManage | ContractorLink
    | UserRead | UserManage | RoleAssign | SessionRevoke | DirectoryRead | DirectoryManage
    | InspectionRead | InspectionCreate | InspectionSubmit | InspectionReview | InspectionApprove
    | FindingCreate | FindingRemediate | FindingVerify
    | AuditRead | AuditExport | RecordArchive | LegalHoldManage
    | SnapshotStage | SnapshotPublish | SnapshotWithdraw
    | DelegationGrant | DelegationRevoke

  datatype RoleDefinition = RoleDefinition(permissions: set<Permission>, isProtected: bool, maxDelegationDays: nat)

  function Definition(role: Role): Option<RoleDefinition> {
    match role
    case TenantAdmin => Some(RoleDefinition(
      {TenantRead, TenantManage, CompanyRead, CompanyManage, ProjectRead, ProjectManage, SiteRead, SiteManage,
       AreaRead, AreaManage, ContractorLink, UserRead, UserManage, RoleAssign, SessionRevoke, DirectoryRead,
       DirectoryManage, InspectionRead, InspectionCreate, InspectionSubmit, InspectionReview, InspectionApprove,
       FindingCreate, FindingRemediate, FindingVerify, AuditRead, AuditExport, RecordArchive, LegalHoldManage,
       SnapshotStage, SnapshotPublish, SnapshotWithdraw, DelegationGrant, DelegationRevoke}, true, 0))
    case ProjectManager => Some(RoleDefinition(
      {ProjectRead, ProjectManage, SiteRead, SiteManage, AreaRead, AreaManage, ContractorLink, DirectoryRead,
       InspectionRead, InspectionCreate, InspectionSubmit, InspectionReview, InspectionApprove,
       FindingCreate, FindingRemediate, FindingVerify, RecordArchive, SnapshotStage,
       DelegationGrant, DelegationRevoke}, false, 14))
    case Inspector => Some(RoleDefinition(
      {ProjectRead, SiteRead, AreaRead, DirectoryRead, InspectionRead, InspectionCreate, InspectionSubmit,
       FindingCreate, FindingRemediate}, false, 7))
    case Auditor => Some(RoleDefinition(
      {TenantRead, CompanyRead, ProjectRead, SiteRead, AreaRead, DirectoryRead, InspectionRead, AuditRead,
       AuditExport}, false, 14))
    case Viewer => Some(RoleDefinition({ProjectRead, SiteRead, AreaRead, DirectoryRead, InspectionRead}, false, 30))
    case Contractor => Some(RoleDefinition(
      {SiteRead, AreaRead, DirectoryRead, InspectionRead, InspectionCreate, FindingRemediate}, false, 7))
    case Support => Some(RoleDefinition({ProjectRead, SiteRead, DirectoryRead, InspectionRead}, false, 3))
    case OtherRole(_) => None
  }

  // ---- scopes ----

  predicate FieldsOverlap(a: string, b: string) { a == "" || b == "" || a == b }

  predicate ScopesOverlap(a: Scope, b: Scope) {
    && FieldsOverlap(a.tenant, b.tenant) && FieldsOverlap(a.company, b.company)
    && FieldsOverlap(a.project, b.project) && FieldsOverlap(a.site, b.site) && FieldsOverlap(a.area, b.area)
  }

  predicate ScopeContains(outer: Scope, inner: Scope) {
    && FieldMatches(outer.tenant, inner.tenant) && FieldMatches(outer.company, inner.company)
    && FieldMatches(outer.project, inner.project) && FieldMatches(outer.site, inner.site)
    && FieldMatches(outer.area, inner.area)
  }

  function Either(a: string, b: string): string { if a != "" then a else b }

  /** Two scopes overlap exactly when some record is in both. */
  lemma OverlapExact(a: Scope, b: Scope)
    ensures ScopesOverlap(a, b) <==> exists t :: ScopeMatches(a, t) && ScopeMatches(b, t)
  {
    if ScopesOverlap(a, b) {
      var t := Target(Either(a.tenant, b.tenant), Either(a.company, b.company), Either(a.project, b.project),
                      Either(a.site, b.site), Either(a.area, b.area), "", ActiveRecord);
      assert ScopeMatches(a, t) && ScopeMatches(b, t);
    }
  }

  /** One scope contains another exactly when every record of the second is a record of the first. */
  lemma ContainmentExact(outer: Scope, inner: Scope)
    ensures ScopeContains(outer, inner) <==> forall t | ScopeMatches(inner, t) :: ScopeMatches(outer, t)
  {
    var t := Target(inner.tenant, inner.company, inner.project, inner.site, inner.area, "", ActiveRecord);
    assert ScopeMatches(inner, t);
    assert ScopeMatches(outer, t) <==> ScopeContains(outer, inner);
  }

  // ---- delegation rules ----

  const MAX_DELEGATION: Duration := 30 * DAY

  datatype DelegationRequest = DelegationRequest(
    delegatorSubject: string, delegatorRole: Role, delegatorScope: Scope,
    delegateeSubject: string, delegatedRole: Role, delegatedScope: Scope,
    validFrom: Time, validTo: Time, isSubDelegation: bool)

  datatype DelegationError =
    | MultiHopForbidden | SelfDelegationForbidden | InvalidWindow | DurationExceeded | UnregisteredRole
    | ProtectedNonDelegable | ExceedsSourceAuthority | ScopeExceedsSourceAuthority

  function DelegationFault(r: DelegationRequest): Option<DelegationError> {
    var delegator, delegated := Definition(r.delegatorRole), Definition(r.delegatedRole);
    var duration := Sub(r.validTo, r.validFrom);
    if r.isSubDelegation then Some(MultiHopForbidden)
    else if Trim(r.delegatorSubject) == Trim(r.delegateeSubject) then Some(SelfDelegationForbidden)
    else if r.validTo <= r.validFrom then Some(InvalidWindow)
    else if duration > MAX_DELEGATION then Some(DurationExceeded)
    else if delegator.None? then Some(UnregisteredRole)
    else if delegator.value.isProtected then Some(ProtectedNonDelegable)
    else if delegated.None? then Some(UnregisteredRole)
    else if delegated.value.isProtected then Some(ProtectedNonDelegable)
    else if delegator.value.maxDelegationDays > 0 && duration > delegator.value.maxDelegationDays * DAY
      then Some(DurationExceeded)
    else if !(delegated.value.permissions <= delegator.value.permissions) then Some(ExceedsSourceAuthority)
    else if !ScopeContains(r.delegatorScope, r.delegatedScope) then Some(ScopeExceedsSourceAuthority)
    else None
  }

  /** Both roles are delegable and the first holds every permission of the second. */
  predicate Covers(delegator: Role, delegated: Role) {
    var d, e := Definition(delegator), Definition(delegated);
    d.Some? && e.Some? && !d.value.isProtected && !e.value.isProtected && e.value.permissions <= d.value.permissions
  }

  /** Which delegable roles hold the permissions that tell roles apart. */
  lemma WhoHolds(role: Role)
    requires Definition(role).Some? && !Definition(role).value.isProtected
    ensures ProjectManage in Definition(role).value.permissions <==> role == ProjectManager
    ensures AuditExport in Definition(role).value.permissions <==> role == Auditor
    ensures InspectionSubmit in Definition(role).value.permissions <==> role in {ProjectManager, Inspector}
    ensures InspectionCreate in Definition(role).value.permissions <==> role in {ProjectManager, Inspector, Contractor}
    ensures ProjectRead in Definition(role).value.permissions <==> role != Contractor
    ensures AreaRead in Definition(role).value.permissions <==> role != Support
    ensures role in {ProjectManager, Inspector, Auditor, Viewer, Contractor, Support}
  {}

  /**
   The two permission tables agree: covering the permissions of a role covers its actions and its archive clearance.
   */
  lemma PermissionsBoundActions(delegator: Role, delegated: Role)
    requires Covers(delegator, delegated)
    ensures forall a | RolePermits(delegated, a) :: RolePermits(delegator, a)
    ensures delegated == Auditor ==> delegator == Auditor
  {
    WhoHolds(delegator);
    WhoHolds(delegated);
  }

  /** An accepted delegation hands on no action, no record and no clearance that the delegator's role and scope lack. */
  lemma AcceptedDelegationContained(r: DelegationRequest)
    requires DelegationFault(r) == None
    ensures Covers(r.delegatorRole, r.delegatedRole)
    ensures forall t | ScopeMatches(r.delegatedScope, t) :: ScopeMatches(r.delegatorScope, t)
    ensures 0 < r.validTo - r.validFrom <= 30 * DAY
  {
    ContainmentExact(r.delegatorScope, r.delegatedScope);
  }

  /** The roles whose permissions a role covers, itself among them; a protected role hands on nothing. */
  function MayHandOn(role: Role): set<Role> {
    match role
    case ProjectManager => {ProjectManager, Inspector, Contractor, Viewer, Support}
    case Inspector => {Inspector, Contractor, Viewer, Support}
    case Auditor => {Auditor, Viewer, Support}
    case Viewer => {Viewer, Support}
    case Contractor => {Contractor}
    case Support => {Support}
    case _ => {}
  }

  lemma HandedOnIsCovered(delegator: Role, delegated: Role)
    requires delegated in MayHandOn(delegator)
    ensures Covers(delegator, delegated)
  {}

  lemma CoversExactly(delegator: Role, delegated: Role)
    ensures Covers(delegator, delegated) <==> delegated in MayHandOn(delegator)
  {
    if delegated in MayHandOn(delegator) {
      HandedOnIsCovered(delegator, delegated);
    }
    if Covers(delegator, delegated) {
      CoveredIsHandedOn(delegator, delegated);
    }
  }

  lemma CoveredIsHandedOn(delegator: Role, delegated: Role)
    requires Covers(delegator, delegated)
    ensures delegated in MayHandOn(delegator)
  {
    WhoHolds(delegator);
    WhoHolds(delegated);
    var held, given := Definition(delegator).value.permissions, Definition(delegated).value.permissions;
    KeyPermissions(held, given);
  }

  lemma KeyPermissions(held: set<Permission>, given: set<Permission>)
    requires given <= held
    ensures forall p | p in given :: p in held
  {}

  /** How long a role may be handed on. */
  function MaxDays(role: Role): nat {
    match role
    case ProjectManager => 14 case Inspector => 7 case Auditor => 14 case Viewer => 30
    case Contractor => 7 case Support => 3 case _ => 0
  }

  /**
   The delegations that are accepted, exactly: first-hand, between two subjects, of a role that the delegator's covers,
   over targets that the delegator's scope holds, and for no longer than the delegator's role may be handed on.
   */
  lemma DelegationAcceptedExactly(r: DelegationRequest)
    ensures DelegationFault(r) == None <==>
      && !r.isSubDelegation && Trim(r.delegatorSubject) != Trim(r.delegateeSubject)
      && 0 < r.validTo - r.validFrom <= MaxDays(r.delegatorRole) * DAY
      && r.delegatedRole in MayHandOn(r.delegatorRole)
      && forall t | ScopeMatches(r.delegatedScope, t) :: ScopeMatches(r.delegatorScope, t)
  {
    CoversExactly(r.delegatorRole, r.delegatedRole);
    ContainmentExact(r.delegatorScope, r.delegatedScope);
  }
}
