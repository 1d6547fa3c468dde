# Verified model of the OSHE platform's registries and schedulers

A Dafny model of the parts of the platform whose correctness is not visible in any one function: the
mission rehearsal scheduler, the migration manifest's dependency checks, the authorization algebra, the
event outbox and dispatcher, the contract compatibility registry, the publication stores, the record,
retention and evidence modules, external references and access conditions.

Each locked method of a registry is one step. A module states its steps as functions on a value of the
registry's state, proves what every step and every run keeps, and gives a class whose methods update
fields in place and are proved to take exactly those steps. Where a promised property fails for some
inputs, a lemma shows the failing inputs and another gives the condition under which it holds.

| file | models |
|---|---|
| `Text.dfy`, `Sorting.dfy`, `Digraph.dfy`, `Clock.dfy`, `Results.dfy` | trimming, joined keys, decimal numbers; library sorting; walks and cycles; time |
| `MissionRehearsal.dfy` | batch scheduling of a task graph |
| `MigrationDag.dfy` | the precedence pass and the depth-first cycle search |
| `AccessPolicy.dfy`, `AuthorizationMatrix.dfy`, `ScopedAssignment.dfy`, `Delegation.dfy` | role tables, scopes, assignments, delegations and the default-deny evaluator |
| `EventOutbox.dfy`, `EventDispatcher.dfy` | transactions over one log; retries, quarantine, replay, export and restore |
| `CompatibilityRegistry.dfy` | contract histories, dependencies, owners and migrations |
| `Publication.dfy`, `ImmutablePublication.dfy`, `SnapshotRegistry.dfy`, `PublicationLifecycle.dfy` | sealed version chains, snapshot versions, the lifecycle and its ledger |
| `RecordAudit.dfy`, `Retention.dfy` | records with their journal; legal holds, backup and restore |
| `CustodyChain.dfy`, `Evidence.dfy`, `ExportManifest.dfy`, `EvidenceManager.dfy` | custody chains, evidence records, export manifests |
| `ExternalRefs.dfy`, `Idempotency.dfy`, `AccessCondition.dfy` | external references, idempotency keys, access conditions of external users |

`dafny verify dfyconfig.toml` checks everything.

Hashes, canonical JSON, and upper- and lower-casing are function parameters; no function is assumed
injective. A theorem that needs it assumes no collision between the inputs it compares.

## Model

| member | source | states |
|---|---|---|
| `MissionRehearsal.ValidateMission` | tools/mission_rehearsal.py:25-63 | accepts exactly the well-formed missions: roles, unique task ids, owner and report rules, write paths, dependencies on other listed tasks |
| `MissionRehearsal.AcceptedMissionExactly` | tools/mission_rehearsal.py:25-63 | an accepted mission, position by position: the schema version, both required roles, at least one task, every task accepted, no id twice, and every dependency the id of another task |
| `MissionRehearsal.AcceptedTaskExactly` | tools/mission_rehearsal.py:35-59 | an accepted task in its own fields: not hidden, a structured result, offline without a route, non-empty write paths, a visible owner whose name has no `Worker` in it, and the reporting line |
| `MissionRehearsal.TraceFollowsLine` | tools/mission_rehearsal.py:43-56 | in the trace of a valid mission every owner is visible and no worker, a lead reports to the PM Secretary, the PM Secretary to the PM, and the PM to no role |
| `MissionRehearsal.AssertDisjointWrites` | tools/mission_rehearsal.py:66-72 | passes exactly when no write path is listed twice in the batch, within one task or across two |
| `MissionRehearsal.DoneExact` | tools/mission_rehearsal.py:81-90 | a task is complete after k batches exactly when no dependency chain from it has more than k tasks |
| `MissionRehearsal.BatchIsLongestChain` | tools/mission_rehearsal.py:81-90 | the batch in which a task completes is the length of its longest dependency chain, and conversely |
| `MissionRehearsal.AcyclicMeansAllDone` | tools/mission_rehearsal.py:81-90 | all tasks complete within as many batches as there are tasks if the graph is acyclic, and never if it is cyclic |
| `MissionRehearsal.NoReadyTaskMeansCycle` | tools/mission_rehearsal.py:83-84 | an empty batch while tasks remain means a dependency cycle (pigeonhole) |
| `MissionRehearsal.TraceIndependentOfTaskOrder` | tools/mission_rehearsal.py:75-98 | missions with the same tasks in any order have the same trace |
| `MissionRehearsal.ReadyTasks` | tools/mission_rehearsal.py:82-82 | the ready tasks are exactly the remaining ones with completed dependencies, each once, sorted by id |
| `Text.LessExactly` | tools/mission_rehearsal.py:82-82 | the order of ids: one text precedes another exactly when it is a proper prefix, or at the first difference has the smaller character |
| `MissionRehearsal.CompleteBatch` | tools/mission_rehearsal.py:86-90 | the batch moves from remaining to completed and is appended to the trace in order, unless one of its tasks has no `report_to` key, which the trace reads |
| `MissionRehearsal.RunBatch` | tools/mission_rehearsal.py:81-90 | one round either shrinks the remaining tasks and keeps the trace exact, or fails for a cycle, a write overlap or a missing `report_to`, rightly |
| `MissionRehearsal.RunBatches` | tools/mission_rehearsal.py:81-90 | the loop terminates, and each of its four outcomes occurs exactly when it should; on success the trace is exact |
| `MissionRehearsal.Rehearse` | tools/mission_rehearsal.py:75-98 | success exactly for valid missions without a cycle, without a batch that writes a path twice and without a task lacking `report_to`; overlap and missing `report_to` exactly when the first bad batch is of that kind (overlap is tested first); cycle exactly when every batch that is reached completes and a cycle remains; on success the trace lists each task once with its longest-chain batch and every event follows the reporting line |
| `MissionRehearsal.AllReported` | tools/mission_rehearsal.py:87-88 | when no cycle exists every task is reached, so all batches can be reported exactly when every task has the key |
| `MissionRehearsal.ValidMissionMayLackReport` | tools/mission_rehearsal.py:55-55 | a valid, acyclic, conflict-free mission that fails: validation admits a PM task without the `report_to` key that the trace reads |
| `MissionRehearsal.ConflictExtends` | tools/mission_rehearsal.py:66-72 | one more task clashes exactly when it repeats a path of its own or lists one already written |
| `MigrationDag.PrecedencePass` | database/validate_migration_manifest.py:157-165 | the errors are exactly the unknown dependencies and those not listed earlier |
| `MigrationDag.ListingRulesOutCycles` | database/validate_migration_manifest.py:157-165 | a listing of all modules with dependencies first rules out cycles |
| `MigrationDag.SilentPassLeavesUnlisted` | database/validate_migration_manifest.py:157-165 | what a silent pass proves, exactly: the graph is cyclic just when the modules that the ordering does not list form a cycle among themselves |
| `MigrationDag.CyclesAreUnlisted` | database/validate_migration_manifest.py:157-185 | with dependencies listed first, every cycle runs through unlisted modules only |
| `MigrationDag.SilentPassRulesOutCycles` | database/validate_migration_manifest.py:157-165 | in particular a silent pass over an ordering that holds every key proves the graph acyclic |
| `MigrationDag.SilentPassMayMissCycle` | database/validate_migration_manifest.py:157-165 | a self-dependent module that is not in the ordering passes silently |
| `MigrationDag.CycleSearch.HasCycle` | database/validate_migration_manifest.py:168-178 | terminates; true only if a cycle exists; false restores `visiting` and leaves only finished, acyclic modules in `visited` |
| `MigrationDag.CycleSearch.Detect` | database/validate_migration_manifest.py:180-185 | a module is reported exactly when the dependency graph is cyclic, in whatever order the keys are visited |
| `MigrationDag.CheckDependencies` | database/validate_migration_manifest.py:157-185 | both checks together: exact each; after a silent pass the search reports exactly a cycle among the unlisted modules, and nothing when all keys are listed |
| `AccessPolicy.DecideGrants` | modules/identity-authorization/access_policy.go:297-365 | the loop with its denial flags decides by the first passing grant, else by the strongest flag |
| `AccessPolicy.LeadingIsFirst` | modules/identity-authorization/access_policy.go:307-348 | the deciding grant is the first in list order that passes every other test |
| `AccessPolicy.OrderMattersExactly` | modules/identity-authorization/access_policy.go:297-365 | the decision is the same for all permutations of the grants exactly when no passing grant competes with one blocked by the archive rule alone |
| `AccessPolicy.DecisionIgnoresOrder` | modules/identity-authorization/access_policy.go:251-366 | for targets that are not archived the decision depends on the set of grants only |
| `AccessPolicy.MoreGrantsMoreAccess` | modules/identity-authorization/access_policy.go:297-365 | for targets that are not archived more grants never remove access |
| `AccessPolicy.AddedGrantKeepsAccess` | modules/identity-authorization/access_policy.go:189-194 | granting any role to anyone keeps every access, to archived records too, because the new grant comes last |
| `AccessPolicy.AllowMeansGranted` | modules/identity-authorization/access_policy.go:297-365 | access always rests on a grant that passes every test |
| `AccessPolicy.RolesByAction` | modules/identity-authorization/access_policy.go:207-226 | the role table read by action |
| `AccessPolicy.AllowedExactly` | modules/identity-authorization/access_policy.go:251-366 | access is allowed exactly when the caller is authenticated, of the target's tenant, not delegated, an active member and entitled, an archived record is only read, and the first grant under the caller's key that passes role, project or site, scope, object and action is an auditor's or tenant administrator's where the record is archived |
| `AccessPolicy.RefusedBecause` | modules/identity-authorization/access_policy.go:251-290 | each denial before the grants occurs exactly when its condition is the first to fail |
| `AccessPolicy.DeniedBecause` | modules/identity-authorization/access_policy.go:351-365 | when no grant suits, the reason is that there is none, else an unknown role, else a wrong object, else a missing permission, else the scope, whatever the order of the grants |
| `AccessPolicy.ArchivedBecause` | modules/identity-authorization/access_policy.go:288-348 | the archive rule is the reason exactly for a change of an archived record, or when the first suiting grant is of another role than auditor or tenant administrator |
| `AccessPolicy.UpdatesExactly` | modules/identity-authorization/access_policy.go:189-205 | a new grant is the last of its holder's, an entitlement is set for its tenant alone, and nothing else changes for any request |
| `AccessPolicy.PolicyEvaluator.SetMembership` | modules/identity-authorization/access_policy.go:181-186 | records the membership under the trimmed tenant and subject |
| `AccessPolicy.PolicyEvaluator.AddRoleAssignment` | modules/identity-authorization/access_policy.go:189-194 | appends the grant to its subject's list |
| `AccessPolicy.PolicyEvaluator.SetEntitlement` | modules/identity-authorization/access_policy.go:197-205 | sets one entitlement of one tenant |
| `AccessPolicy.PolicyEvaluator.Evaluate` | modules/identity-authorization/access_policy.go:251-366 | the decision that `AccessPolicy.AllowedExactly`, `AccessPolicy.RefusedBecause`, `AccessPolicy.ArchivedBecause` and `AccessPolicy.DeniedBecause` spell out, on the stored memberships, grants and entitlements |
| `AccessPolicy.EvaluateIsolated` | modules/identity-authorization/scoped_assignment.go:551-571 | the scratch evaluator with the caller's membership, entitlements and only the given grants |
| `AuthorizationMatrix.OverlapExact` | modules/identity-authorization/authorization_matrix.go:468-485 | scopes overlap exactly when some target is matched by both |
| `AuthorizationMatrix.ContainmentExact` | modules/identity-authorization/authorization_matrix.go:488-505 | a scope contains another exactly when every target of the inner is a target of the outer |
| `AuthorizationMatrix.PermissionsBoundActions` | modules/identity-authorization/authorization_matrix.go:258-371 | covering the permissions of a role in the matrix covers its actions in the evaluator's independent table, and its archive clearance |
| `AuthorizationMatrix.AcceptedDelegationContained` | modules/identity-authorization/authorization_matrix.go:549-607 | an accepted request hands on no permission and no target beyond the delegator's, for at most thirty days |
| `AuthorizationMatrix.WhoHolds` | modules/identity-authorization/authorization_matrix.go:258-371 | which delegable roles hold each of the permissions that tell roles apart |
| `AuthorizationMatrix.CoversExactly` | modules/identity-authorization/authorization_matrix.go:258-371 | which roles a role can hand on, as a table: containment of the permission sets comes to exactly that |
| `AuthorizationMatrix.DelegationAcceptedExactly` | modules/identity-authorization/authorization_matrix.go:549-607 | accepted exactly when first-hand, between two different subjects, of a role in that table, over targets that the delegator's scope holds, and for no longer than the days of the delegator's role |
| `ScopedAssignment.NewAssignment` | modules/identity-authorization/scoped_assignment.go:182-225 | an accepted assignment is active, has a proper window and a scope of its own tenant |
| `ScopedAssignment.AssignmentBuiltExactly` | modules/identity-authorization/scoped_assignment.go:182-225 | the arguments that are accepted, exactly, and what the assignment then holds |
| `ScopedAssignment.CheckRoleConflict` | modules/identity-authorization/scoped_assignment.go:229-272 | refuses exactly when a valid assignment of the same holder conflicts on an overlapping scope |
| `ScopedAssignment.ConflictingRoles` | modules/identity-authorization/scoped_assignment.go:229-272 | the pairs of roles that conflict, exactly, in either order: equal ones, and four named pairs |
| `ScopedAssignment.IncompatibleExactly` | modules/identity-authorization/scoped_assignment.go:229-272 | two assignments conflict exactly when of the same tenant and subject, with a target that both scopes reach, and of conflicting roles |
| `ScopedAssignment.RegisteredExactly` | modules/identity-authorization/scoped_assignment.go:382-424 | a registration is accepted exactly under a new name when nothing in force under another name conflicts, and then stores the assignment and one ledger entry naming it, the actor and the reason |
| `ScopedAssignment.RegistrationKeepsDutiesExactly` | modules/identity-authorization/scoped_assignment.go:382-424 | after an accepted registration no two conflicting assignments are ever in force together from then on, exactly when no stored one clashes with it at a later time |
| `ScopedAssignment.SegregationOfDuties` | modules/identity-authorization/scoped_assignment.go:382-449 | over every run with nondecreasing registration times and no assignment ahead of its registration, no conflicting pair is in force from the last registration on, whatever is revoked |
| `ScopedAssignment.EarlyRegistrationDefeatsDuties` | modules/identity-authorization/scoped_assignment.go:229-272 | two conflicting assignments registered ahead of their start are both accepted and later in force together |
| `ScopedAssignment.RegisteredOrRevoked` | modules/identity-authorization/scoped_assignment.go:382-449 | over every run a stored assignment stays as it is or is revoked once, by a named actor for a reason; after that it is never in force again |
| `ScopedAssignment.RevokedExactly` | modules/identity-authorization/scoped_assignment.go:427-449 | a revocation takes effect exactly on the named assignment, not yet revoked, given an actor and a reason, and leaves one ledger entry |
| `ScopedAssignment.ScopedAccessIgnoresOrder` | modules/identity-authorization/scoped_assignment.go:530-572 | for targets that are not archived scoped access depends on the set of assignments only |
| `ScopedAssignment.ScopedAllowedExactly` | modules/identity-authorization/scoped_assignment.go:530-572 | scoped access in the fields of request, policy and assignments in force, as an if and only if |
| `ScopedAssignment.ScopedAssignmentRegistry.RegisterAssignment` | modules/identity-authorization/scoped_assignment.go:382-424 | one registration step, with the conflict check over the holder's assignments in arbitrary order |
| `ScopedAssignment.ScopedAssignmentRegistry.RevokeAssignment` | modules/identity-authorization/scoped_assignment.go:427-449 | one revocation step with its ledger entry |
| `ScopedAssignment.ScopedAssignmentRegistry.ListActiveAssignments` | modules/identity-authorization/scoped_assignment.go:466-486 | lists exactly the subject's assignments in force |
| `ScopedAssignment.EvaluateScopedAccess` | modules/identity-authorization/scoped_assignment.go:530-572 | the decision on some listing of the subject's assignments in force |
| `Delegation.NewDelegation` | modules/identity-authorization/delegation_control.go:217-286 | an accepted record is well formed |
| `Delegation.DelegationBuiltExactly` | modules/identity-authorization/delegation_control.go:217-286 | the arguments that are accepted, exactly, and what the record then holds |
| `Delegation.RunVetted` | modules/identity-authorization/delegation_control.go:423-484 | over every run each stored delegation is well formed and was accepted by the matrix |
| `Delegation.RegisteredOrRevoked` | modules/identity-authorization/delegation_control.go:423-484 | over every run a stored delegation stays as it is or is revoked once and for good |
| `Delegation.CreatedExactly` | modules/identity-authorization/delegation_control.go:423-459 | a delegation is stored, with one ledger entry naming its parties, the actor and the reason, exactly under a new name and when the matrix accepts it |
| `Delegation.RevokedExactly` | modules/identity-authorization/delegation_control.go:462-484 | a revocation takes effect exactly on the named delegation, not yet revoked, given an actor and a reason, and leaves one ledger entry |
| `Delegation.SourceAllowsExactly` | modules/identity-authorization/delegation_control.go:525-591 | where a delegation grants a request, the delegator's own role and scope are allowed it exactly when that scope has no object lock and names a project or site where the role needs one |
| `Delegation.DelegationNeverElevates` | modules/identity-authorization/delegation_control.go:525-591 | an allowed delegated request rests on a current, unrevoked delegation to the caller whose grant passes the request, and whose delegator, if an active member, would be allowed too exactly under that condition |
| `Delegation.UnusableSourceElevates` | modules/identity-authorization/delegation_control.go:525-591 | without the condition a delegatee reads what the delegator may not |
| `Delegation.DelegatedAllowedExactly` | modules/identity-authorization/delegation_control.go:525-591 | delegated access in the fields of request, policy and delegations in force, as an if and only if |
| `Delegation.DelegationRegistry.CreateDelegation` | modules/identity-authorization/delegation_control.go:423-459 | one creation step: duplicate and authority checks, storage and ledger entry |
| `Delegation.DelegationRegistry.RevokeDelegation` | modules/identity-authorization/delegation_control.go:462-484 | one revocation step |
| `Delegation.DelegationRegistry.ListActiveDelegations` | modules/identity-authorization/delegation_control.go:501-521 | lists exactly the delegatee's delegations in force |
| `Delegation.FindCover` | modules/identity-authorization/delegation_control.go:546-558 | the search finds a scope match, and a permitting one, exactly when there is one |
| `Delegation.EvaluateDelegatedAccess` | modules/identity-authorization/delegation_control.go:525-591 | the decision on some listing of the caller's delegations in force |
| `EventOutbox.IdAcceptedExactly` | modules/events-outbox-jobs/event_outbox.go:39-64 | accepted identifiers are exactly the prefix, an underscore and a non-empty payload of identifier characters |
| `EventOutbox.PublishedValid` | modules/events-outbox-jobs/event_outbox.go:307-338 | publishing a non-colliding batch keeps ids distinct, the id set exact and the numbers 1..n in log order |
| `EventOutbox.RunValid` | modules/events-outbox-jobs/event_outbox.go:216-355 | the same for every interleaving of any number of transactions |
| `EventOutbox.LogIsCommittedBatches` | modules/events-outbox-jobs/event_outbox.go:307-355 | the log is exactly the concatenation of the staging lists of the successful commits, so failed and rolled-back ones add nothing |
| `EventOutbox.BatchesAreOneTenant` | modules/events-outbox-jobs/event_outbox.go:216-303 | each committed batch belongs to one tenant |
| `EventOutbox.TenantReadsItsCommits` | modules/events-outbox-jobs/event_outbox.go:169-338 | over every run a tenant's reader returns exactly what its own successful commits staged, whole and in commit order |
| `EventOutbox.ForTenantMembers` | modules/events-outbox-jobs/event_outbox.go:169-189 | an event is among a tenant's exactly when it is committed and of that tenant |
| `EventOutbox.ClosedForever` | modules/events-outbox-jobs/event_outbox.go:342-355 | a closed transaction stays closed and empty |
| `EventOutbox.SortChangesNothing` | modules/events-outbox-jobs/event_outbox.go:153-189 | the readers' sorts leave the log order as it is |
| `EventOutbox.Outbox.BeginTx` | modules/events-outbox-jobs/event_outbox.go:138-149 | opens an empty transaction for a valid tenant |
| `EventOutbox.Outbox.Publish` | modules/events-outbox-jobs/event_outbox.go:326-331 | appends a batch with the next numbers and records its ids |
| `EventOutbox.Outbox.CommittedEvents` | modules/events-outbox-jobs/event_outbox.go:153-165 | returns the log |
| `EventOutbox.Outbox.CommittedEventsForTenant` | modules/events-outbox-jobs/event_outbox.go:169-189 | an event is returned exactly when it is committed and of the tenant, with increasing numbers, which fixes the list |
| `EventOutbox.AcceptedIsWellFormed` | modules/events-outbox-jobs/event_outbox.go:216-303 | an accepted event is new, of the transaction's tenant, and well formed in every field |
| `EventOutbox.StagedExactly` | modules/events-outbox-jobs/event_outbox.go:216-303 | an event can be staged exactly when the transaction is open, the tenant fits, the id is new and well formed, and every field is acceptable |
| `EventOutbox.StagedAsGiven` | modules/events-outbox-jobs/event_outbox.go:276-303 | a staged event carries each field as given, trimmed, the default version and time where none was given |
| `EventOutbox.OpensAndCloses` | modules/events-outbox-jobs/event_outbox.go:138-355 | transactions open exactly for tenant identifiers, staging adds one event, a successful commit and a rollback close, only commits touch the log, and no call touches another transaction |
| `Text.HexDigestExactly` | modules/events-outbox-jobs/event_outbox.go:67-79 | digests are exactly the 64 lower-case hexadecimal characters |
| `EventOutbox.OutboxTx.StageEvent` | modules/events-outbox-jobs/event_outbox.go:216-303 | one staging step: the checks in the source's order, then one staged envelope |
| `EventOutbox.OutboxTx.CommitAll` | modules/events-outbox-jobs/event_outbox.go:307-338 | publishes the whole staging list and closes, or changes nothing at all |
| `EventOutbox.OutboxTx.RollbackAll` | modules/events-outbox-jobs/event_outbox.go:342-355 | closes without publishing |
| `EventDispatcher.RunValid` | modules/events-outbox-jobs/event_dispatcher.go:124-250 | over every run attempts, limits, replays and states of every record fit together |
| `EventDispatcher.DeliveredIsFinal` | modules/events-outbox-jobs/event_dispatcher.go:124-250 | a delivered record never changes |
| `EventDispatcher.QuarantineLeftByReplayOnly` | modules/events-outbox-jobs/event_dispatcher.go:203-250 | quarantine is left exactly by an admitted replay whose handler succeeds |
| `EventDispatcher.HandlerCallsConserved` | modules/events-outbox-jobs/event_dispatcher.go:124-250 | over every run handler calls equal recorded attempts, and successes equal the delivered mark |
| `EventDispatcher.DeliveryBounds` | modules/events-outbox-jobs/event_dispatcher.go:124-250 | per consumer and event at most one success, and attempts at most the limit plus the replays |
| `EventDispatcher.DispatchedExactly` | modules/events-outbox-jobs/event_dispatcher.go:124-195 | a dispatch reaches the handler exactly for a registered consumer of the event's tenant, or of none, with attempts left |
| `EventDispatcher.RegistersExactly` | modules/events-outbox-jobs/event_dispatcher.go:97-117 | a consumer is registered exactly with a name and a handler; a registration without tenant keeps the old one |
| `EventDispatcher.ReplayedExactly` | modules/events-outbox-jobs/event_dispatcher.go:203-250 | a replay reaches the handler exactly for an identified caller of the record's tenant on a quarantined record |
| `EventDispatcher.AttemptOutcome` | modules/events-outbox-jobs/event_dispatcher.go:160-250 | what each handler call leaves in the record, delivered, retrying or quarantined, with time, error and counts, and the answer it gives |
| `EventDispatcher.OriginForever` | modules/events-outbox-jobs/event_dispatcher.go:124-250 | over every run a record keeps its event, consumer, tenant, limit and first attempt |
| `EventDispatcher.OriginOfRecord` | modules/events-outbox-jobs/event_dispatcher.go:124-195 | a record arises from a dispatch of its consumer and event, for that event's tenant |
| `EventDispatcher.RestoreInvertsExport` | modules/events-outbox-jobs/event_dispatcher.go:266-288 | restoring an export, listed in any order, into an empty dispatcher rebuilds the records |
| `EventDispatcher.RestartIsInvisible` | modules/events-outbox-jobs/event_dispatcher.go:266-288 | after that restart every later call sequence gets the same answers |
| `EventDispatcher.Dispatcher.RegisterConsumer` | modules/events-outbox-jobs/event_dispatcher.go:97-115 | one registration step |
| `EventDispatcher.Dispatcher.DispatchEvent` | modules/events-outbox-jobs/event_dispatcher.go:124-195 | one dispatch step and its answer |
| `EventDispatcher.Dispatcher.ReplayEvent` | modules/events-outbox-jobs/event_dispatcher.go:203-250 | one replay step and its answer |
| `EventDispatcher.Dispatcher.ExportState` | modules/events-outbox-jobs/event_dispatcher.go:266-275 | lists exactly the records |
| `EventDispatcher.Dispatcher.RestoreState` | modules/events-outbox-jobs/event_dispatcher.go:278-288 | overwrites the records key by key |
| `CompatibilityRegistry.PrecedenceIsLexicographic` | modules/contract-migration-governance/registry.go:88-108 | comparison is decided by the first differing component, as in section 11 of Semantic Versioning 2.0.0, is antisymmetric and zero only for equal versions |
| `CompatibilityRegistry.KeyTextInjective` | modules/contract-migration-governance/registry.go:167-169 | the key text of a valid kind determines name and kind |
| `CompatibilityRegistry.RunValid` | modules/contract-migration-governance/compatibility_registry.go:199-336 | over every run: histories strictly increase under one owner, every breaking step carries a migration from its exact predecessor to itself, every dependency resolves, the version dependency graph is acyclic |
| `CompatibilityRegistry.AddAcyclic` | modules/contract-migration-governance/compatibility_registry.go:255-274 | a new version with resolved dependencies cannot close a dependency cycle |
| `CompatibilityRegistry.NothingIsWithdrawn` | modules/contract-migration-governance/compatibility_registry.go:199-336 | histories only grow, owners stay, and what resolved once resolves in every later state |
| `CompatibilityRegistry.AcceptedForever` | modules/contract-migration-governance/compatibility_registry.go:199-336 | an accepted entry is found in every later state, as it was normalised |
| `CompatibilityRegistry.MajorGapIsBridged` | modules/contract-migration-governance/compatibility_registry.go:314-332 | between registered versions of different major numbers some step carries a migration |
| `CompatibilityRegistry.RegistrationAgreesWithEvaluation` | modules/contract-migration-governance/compatibility_registry.go:339-404 | for a strictly newer valid same-owner candidate with resolved dependencies, registration accepts exactly when the evaluation against the latest is not incompatible |
| `CompatibilityRegistry.EvaluationTable` | modules/contract-migration-governance/compatibility_registry.go:339-404 | the decision, direction, migration flag, path and error of an evaluation, for any two entries |
| `CompatibilityRegistry.NeighboursEvaluate` | modules/contract-migration-governance/compatibility_registry.go:199-404 | in every valid registry adjacent versions are never incompatible; a migration is required exactly when the major number rises or the direction is breaking or forward, and the path returned runs from the older to the newer version |
| `CompatibilityRegistry.EntryValidExactly` | modules/contract-migration-governance/compatibility_registry.go:118-154 | the entries that pass validation, exactly, in their own fields |
| `CompatibilityRegistry.NormalKeeps` | modules/contract-migration-governance/compatibility_registry.go:181-215 | what is stored is what was given, trimmed |
| `CompatibilityRegistry.AcceptedExactly` | modules/contract-migration-governance/compatibility_registry.go:199-336 | every registration that succeeds, exactly: admissible and first, a repetition, or newer and not incompatible |
| `CompatibilityRegistry.AgreementExactly` | modules/contract-migration-governance/compatibility_registry.go:199-404 | registration and evaluation of an admissible candidate agree exactly when it is newer than the latest, or repeats its metadata just when its digest is the same or it is not breaking, or is older and no repetition |
| `CompatibilityRegistry.EveryRunValid` | modules/contract-migration-governance/compatibility_registry.go:199-336 | the run invariant from the empty registry |
| `CompatibilityRegistry.SameVersionDisagrees` | modules/contract-migration-governance/compatibility_registry.go:356-404 | at the latest version a changed digest evaluates as compatible and is refused by registration |
| `CompatibilityRegistry.ValidateEntry` | modules/contract-migration-governance/compatibility_registry.go:118-154 | the first fault of an entry in the order of the checks |
| `CompatibilityRegistry.FindVersion` | modules/contract-migration-governance/compatibility_registry.go:295-306 | the first position of a version, none exactly when it is absent |
| `CompatibilityRegistry.Registry.CheckDependencies` | modules/contract-migration-governance/compatibility_registry.go:255-274 | passes exactly when every dependency names a registered version |
| `CompatibilityRegistry.Registry.Extend` | modules/contract-migration-governance/compatibility_registry.go:283-335 | the history checks in order, appending only an acceptable step |
| `CompatibilityRegistry.Registry.Register` | modules/contract-migration-governance/compatibility_registry.go:199-336 | one registration step, keeping the registry's invariant |
| `CompatibilityRegistry.Registry.GetLatest` | modules/contract-migration-governance/compatibility_registry.go:407-417 | returns the highest registered version |
| `CompatibilityRegistry.Registry.GetVersion` | modules/contract-migration-governance/compatibility_registry.go:420-435 | returns the one entry of that version, found exactly when it is registered |
| `Text.VersionKeyInjective` | modules/publication-snapshot/immutable_publication.go:141-147 | a version key determines base and version, so pairs may stand for it |
| `Publication.SignedText` | modules/publication-snapshot/publication_snapshot.go:270-282 | what a signature covers, and in which order: tenant, snapshot, version, source id and digest, payload digest and decision, trimmed and between bars |
| `Publication.ConcatInjective` | modules/publication-snapshot/immutable_publication.go:452-465 | concatenated digests determine their number and each of them |
| `ImmutablePublication.NextVersion` | modules/publication-snapshot/immutable_publication.go:189-211 | a submission that passes the checks is for the next version and names the last one |
| `ImmutablePublication.RunValid` | modules/publication-snapshot/immutable_publication.go:151-264 | over every run each chain holds exactly the versions 1..n, authentic, linked to their predecessors and listed in the lineage |
| `ImmutablePublication.SealedForever` | modules/publication-snapshot/immutable_publication.go:151-380 | apart from its successor link a stored version never changes |
| `ImmutablePublication.SubmittedIsSealed` | modules/publication-snapshot/immutable_publication.go:222-238 | the payload, source, approval, window and predecessor that were submitted are those of the next version in every later state |
| `ImmutablePublication.SuccessorsNamed` | modules/publication-snapshot/immutable_publication.go:151-264 | over every run each version names the signature of the next one and, unless a replacement was registered for it, its number and the mark of a superseded version; the last names none |
| `ImmutablePublication.LineageTells` | modules/publication-snapshot/immutable_publication.go:252-262 | the lineage index repeats the numbers and digests of the stored records, version by version |
| `ImmutablePublication.StoredExactly` | modules/publication-snapshot/immutable_publication.go:151-264 | a submission is accepted exactly when well formed, for the next version, and naming the last version and its signature |
| `ImmutablePublication.ReplacedExactly` | modules/publication-snapshot/immutable_publication.go:347-380 | a replacement changes one record, exactly as given |
| `ImmutablePublication.ReachableIsIntact` | modules/publication-snapshot/immutable_publication.go:383-476 | every reachable chain audits as intact |
| `ImmutablePublication.EveryRunAuditsIntact` | modules/publication-snapshot/immutable_publication.go:151-476 | the same from the empty store, with versions exactly 1..n |
| `ImmutablePublication.SignatureBinds` | modules/publication-snapshot/publication_snapshot.go:270-282 | equal signatures of authentic records mean equal signed fields, given no collision and pipe-free fields |
| `ImmutablePublication.LineageDigestBinds` | modules/publication-snapshot/immutable_publication.go:403-465 | two intact chains with equal lineage digests have the same length and per version the same tenant, snapshot, source id, source digest, payload digest and decision hash |
| `ImmutablePublication.CheckRecord` | modules/publication-snapshot/immutable_publication.go:419-450 | no finding exactly when sequence, predecessor link, payload digest and signature are right |
| `ImmutablePublication.IntactExactly` | modules/publication-snapshot/immutable_publication.go:403-458 | a chain is intact exactly when it numbers its records from 1 without a gap, each naming the number and signature of the one before it, with digests that fit its contents |
| `ImmutablePublication.SortVersions` | modules/publication-snapshot/immutable_publication.go:239-240 | sorting the version list changes nothing |
| `ImmutablePublication.PublicationStore.Insert` | modules/publication-snapshot/immutable_publication.go:238-261 | the writes: record, version list, successor link of the predecessor, lineage |
| `ImmutablePublication.PublicationStore.StorePublishedVersion` | modules/publication-snapshot/immutable_publication.go:151-264 | one store step, keeping every chain valid |
| `ImmutablePublication.PublicationStore.RegisterReplacement` | modules/publication-snapshot/immutable_publication.go:347-380 | changes only the successor link of one record |
| `ImmutablePublication.PublicationStore.AuditChain` | modules/publication-snapshot/immutable_publication.go:403-458 | on any contents, no findings exactly for an intact chain; the chained text is that of the records found |
| `ImmutablePublication.PublicationStore.ReconstructAuditTrail` | modules/publication-snapshot/immutable_publication.go:383-476 | verified exactly when intact, with the version count and the lineage digest |
| `ImmutablePublication.PublicationStore.GetLatest` | modules/publication-snapshot/immutable_publication.go:281-296 | returns version n of a chain 1..n |
| `SnapshotRegistry.RedactPayload` | modules/publication-snapshot/publication_snapshot.go:303-341 | succeeds exactly when no field is sensitive and, if strict, all are allowed; the result is the restriction to allowed fields and the count accounts for the rest |
| `SnapshotRegistry.RedactedExactly` | modules/publication-snapshot/publication_snapshot.go:303-341 | the accepted payload keeps each allowed field with its value and has no other |
| `SnapshotRegistry.SensitiveExactly` | modules/publication-snapshot/publication_snapshot.go:303-341 | a field is sensitive exactly when its lower-cased name contains one of eleven words or its text starts like a bearer or platform token |
| `SnapshotRegistry.NewDraftSnapshot` | modules/publication-snapshot/publication_snapshot.go:344-397 | succeeds exactly on valid arguments; the draft is sanitized and verifies |
| `SnapshotRegistry.RunValid` | modules/publication-snapshot/publication_snapshot.go:425-578 | from fresh drafts: versions 1..n, all below the latest superseded, the active index set exactly when the latest is published, and then naming it, every version sanitized, every version not withdrawn passing the integrity check |
| `SnapshotRegistry.EveryRunValid` | modules/publication-snapshot/publication_snapshot.go:425-578 | the same from the empty registry |
| `SnapshotRegistry.PublishedIsActive` | modules/publication-snapshot/publication_snapshot.go:440-552 | a version is published exactly when the active index names it |
| `SnapshotRegistry.PublishedExactly` | modules/publication-snapshot/publication_snapshot.go:441-578 | a publication is accepted exactly for a stored draft that a named reviewer approved |
| `SnapshotRegistry.VersionedExactly` | modules/publication-snapshot/publication_snapshot.go:482-552 | a new version is accepted exactly on an approved review of a published one, of a payload without sensitive fields and, if strict, without fields that are not allowed |
| `SnapshotRegistry.AcceptedOutcome` | modules/publication-snapshot/publication_snapshot.go:441-578 | what each accepted publication, new version and withdrawal leaves in the current snapshot |
| `SnapshotRegistry.ContentsForever` | modules/publication-snapshot/publication_snapshot.go:425-578 | contents never change; a superseded version is frozen whole, a withdrawn one stays withdrawn |
| `SnapshotRegistry.NothingSensitiveIsStored` | modules/publication-snapshot/publication_snapshot.go:80-92 | for the platform's own keyword and credential tests: no stored payload ever has a prohibited field name or a credential, or a field outside its allowlist |
| `SnapshotRegistry.NextVersion` | modules/publication-snapshot/publication_snapshot.go:495-544 | the checks in order with the error each returns, and the contents of a new version |
| `SnapshotRegistry.Registry.RegisterDraft` | modules/publication-snapshot/publication_snapshot.go:425-438 | one registration step for any snapshot of a new base key; a fresh draft keeps the registry valid |
| `SnapshotRegistry.Registry.PublishSnapshot` | modules/publication-snapshot/publication_snapshot.go:441-479 | one publication step and its exact error |
| `SnapshotRegistry.Registry.CreateNewVersion` | modules/publication-snapshot/publication_snapshot.go:482-552 | one versioning step: supersedes the published version and publishes the next, or returns the error of the first failing check |
| `SnapshotRegistry.Registry.WithdrawSnapshot` | modules/publication-snapshot/publication_snapshot.go:555-578 | one withdrawal step |
| `SnapshotRegistry.Registry.GetSnapshot` | modules/publication-snapshot/publication_snapshot.go:581-600 | through the active index or not, returns the latest version |
| `PublicationLifecycle.RunValid` | modules/publication-snapshot/publication_lifecycle.go:291-630 | over every run each ledger history chains from state to state, ends in the stored state, and each entry proves what its transition requires; entries are numbered 1..n |
| `PublicationLifecycle.LedgerReplaysToState` | modules/publication-snapshot/publication_lifecycle.go:237-260 | replaying a snapshot's history gives its stored state |
| `PublicationLifecycle.PublishedMeansApproved` | modules/publication-snapshot/publication_lifecycle.go:382-491 | a published snapshot went through exactly four steps with an authorized, digest-matching approval, stale neither at approval nor at publication, and a valid window not yet expired at publication |
| `PublicationLifecycle.ReplacedMeansPublished` | modules/publication-snapshot/publication_lifecycle.go:544-630 | a replaced or superseded snapshot was published with the same guarantees |
| `PublicationLifecycle.FinalIsForever` | modules/publication-snapshot/publication_lifecycle.go:494-630 | withdrawn, replaced and superseded snapshots never change; the ledger only grows |
| `PublicationLifecycle.TransitionsExactly` | modules/publication-snapshot/publication_lifecycle.go:291-630 | which calls are accepted from which state with which arguments, and the state each leads to |
| `PublicationLifecycle.RecordedExactly` | modules/publication-snapshot/publication_lifecycle.go:291-630 | every accepted call leaves one ledger entry: the next number, who acted in which role, when, why, and from which state to which |
| `PublicationLifecycle.WrittenExactly` | modules/publication-snapshot/publication_lifecycle.go:291-630 | what each accepted call writes into its snapshot, and that the rest of it and all other snapshots stay |
| `PublicationLifecycle.Controller.RegisterDraft` | modules/publication-snapshot/publication_lifecycle.go:291-343 | one registration step and its exact error |
| `PublicationLifecycle.Controller.SubmitForReview` | modules/publication-snapshot/publication_lifecycle.go:346-379 | one submission: the step and the first fault |
| `PublicationLifecycle.Controller.ApproveSnapshot` | modules/publication-snapshot/publication_lifecycle.go:382-432 | one approval, accepted exactly under review, by an authorized role, with a matching digest and evidence that is not stale |
| `PublicationLifecycle.Controller.PublishSnapshot` | modules/publication-snapshot/publication_lifecycle.go:435-491 | one publication, accepted exactly when approved, by an authorized role, with an approval that is still fresh and a window of at most 365 days that has not expired |
| `PublicationLifecycle.Controller.WithdrawSnapshot` | modules/publication-snapshot/publication_lifecycle.go:494-541 | one withdrawal: the step and the first fault |
| `PublicationLifecycle.Controller.ReplaceSnapshot` | modules/publication-snapshot/publication_lifecycle.go:544-588 | one replacement: the step and the first fault |
| `PublicationLifecycle.Controller.SupersedeSnapshot` | modules/publication-snapshot/publication_lifecycle.go:591-630 | one supersession: the step and the first fault |
| `PublicationLifecycle.Controller.GetHistory` | modules/publication-snapshot/publication_lifecycle.go:237-260 | the ledger entries that name the tenant and snapshot, in order |
| `PublicationLifecycle.Controller.GetActivePublishedSnapshot` | modules/publication-snapshot/publication_lifecycle.go:650-673 | a snapshot is served exactly when stored as published with the window open now; expiry is reported exactly when it is past |
| `RecordAudit.RunValid` | modules/records-audit/record_audit.go:120-400 | every step keeps journal, records and snapshots in agreement |
| `RecordAudit.JournalReplaysToStore` | modules/records-audit/record_audit.go:120-400 | for every run each record's journal replays to its state and to all its version names in order; numbers are 1..n, versions distinct, the last one current |
| `RecordAudit.NothingIsRewritten` | modules/records-audit/record_audit.go:204-360 | journal and snapshots only grow; an archived record is frozen |
| `RecordAudit.AcceptedVersionForever` | modules/records-audit/record_audit.go:169-285 | an accepted version can be read back in every later state with its digest and declarer |
| `RecordAudit.AcceptedExactly` | modules/records-audit/record_audit.go:120-400 | the declarations, versions, transitions and denials that are accepted, exactly |
| `RecordAudit.JournalledExactly` | modules/records-audit/record_audit.go:120-400 | every accepted change leaves one numbered journal entry naming record, actor and tracking; a transition to the current state changes nothing |
| `RecordAudit.WrittenExactly` | modules/records-audit/record_audit.go:120-400 | a declaration or new version stores its snapshot last, as given, and the record keeps its kind and creation |
| `RecordAudit.NamedTrailExactly` | modules/records-audit/record_audit.go:404-430 | for a proper tenant and record, the trail by names is the whole trail of the record in every reachable store exactly when its key text has no second split at a colon into two proper names |
| `RecordAudit.SecondSplitLosesEntry` | modules/records-audit/record_audit.go:204-285 | otherwise a run of two calls loses an entry: another tenant versions the record under the same key text and the trail by names does not show it |
| `RecordAudit.ColonSplitsTrail` | modules/records-audit/record_audit.go:103-105 | tenant `a:b` versions record `b:c` of tenant `a`, whose trail lacks the entry |
| `RecordAudit.RecordStore.DeclareLocked` | modules/records-audit/record_audit.go:148-199 | one declaration under the lock |
| `RecordAudit.RecordStore.VersionLocked` | modules/records-audit/record_audit.go:228-284 | one new version under the lock |
| `RecordAudit.RecordStore.TransitionLocked` | modules/records-audit/record_audit.go:305-359 | one state change under the lock, idempotent for the same state |
| `RecordAudit.RecordStore.DenyLocked` | modules/records-audit/record_audit.go:380-399 | one denied access under the lock |
| `RecordAudit.RecordStore.Perform` | modules/records-audit/record_audit.go:120-400 | argument checks, then the step |
| `RecordAudit.RecordStore.GetAuditTrail` | modules/records-audit/record_audit.go:404-430 | the entries that name the tenant and record, in order |
| `Retention.RunValid` | modules/records-audit/retention_export.go:114-214 | over every run every active hold is indexed under its record and nothing under another |
| `Retention.IndexAgreesWithScan` | modules/records-audit/retention_export.go:217-251 | the answer read off the index is that of a scan over all holds plus the retention rule |
| `Retention.HoldBlocksUntilReleased` | modules/records-audit/retention_export.go:147-251 | an active hold blocks deletion of its record at every time, whatever is called, until it is released |
| `Retention.RetainedUntilPeriodPassed` | modules/records-audit/retention_export.go:114-251 | after a declaration and a policy of a positive period for its tenant and kind, and after any further calls: blocked while held, blocked until the period has passed since the declaration, deletable from then on |
| `Retention.RunKeepsRule` | modules/records-audit/retention_export.go:114-251 | over every run creation time and kind of a record and the period of a policy never change |
| `Retention.DeletedExactly` | modules/records-audit/retention_export.go:217-251 | the answer in terms of creation time, period and holds |
| `Retention.HoldLifetime` | modules/records-audit/retention_export.go:147-214 | which holds can be placed and released, exactly, and what placing and releasing leaves |
| `Retention.PolicyExactly` | modules/records-audit/retention_export.go:114-144 | a policy is accepted exactly with its names and once for a tenant and kind, and leaves all others |
| `Retention.NamesAgreeExactly` | modules/records-audit/retention_export.go:147-251 | a record is held under its key just when an active hold names it, in every run, exactly when its key text has no second split |
| `Retention.RestoredValid` | modules/records-audit/retention_export.go:464-472 | the index rebuilt from active holds is sound though it differs from the one backed up |
| `Retention.RestoreIsInvisible` | modules/records-audit/retention_export.go:348-475 | after backup and restore, into any manager, every later sequence of record, policy, hold and deletion calls is answered as without the restore |
| `Retention.TamperingIsRefused` | modules/records-audit/retention_export.go:413-436 | altered contents under the old digest are refused unless they collide |
| `Retention.RetentionManager.RegisterRetentionPolicy` | modules/records-audit/retention_export.go:114-144 | one policy step |
| `Retention.RetentionManager.PlaceLegalHold` | modules/records-audit/retention_export.go:147-190 | one hold step, keeping the index sound |
| `Retention.RetentionManager.ReleaseLegalHold` | modules/records-audit/retention_export.go:193-214 | one release step, keeping the index sound |
| `Retention.RetentionManager.CanDelete` | modules/records-audit/retention_export.go:217-251 | the loop over the index gives the scan's answer, which `Retention.DeletedExactly` spells out |
| `Retention.RetentionManager.CreateSyntheticBackup` | modules/records-audit/retention_export.go:348-410 | the archive holds the contents and would be accepted by a restore |
| `Retention.RetentionManager.RestoreSyntheticBackup` | modules/records-audit/retention_export.go:413-475 | refused archives change nothing; accepted ones replace the contents and rebuild the index |
| `Retention.RebuildIndex` | modules/records-audit/retention_export.go:464-472 | whatever the order, the index lists exactly the active holds under their records |
| `Retention.RebuiltExactly` | modules/records-audit/retention_export.go:464-472 | an identifier is listed under a record exactly when an active hold of that name is on it |
| `CustodyChain.LinkedAppend` | modules/files-evidence/evidence_chain.go:168-198 | appending an event keeps the chain linked by previous digests |
| `CustodyChain.LastDigestBindsChain` | modules/files-evidence/evidence_chain.go:159-198 | the digest of the last event determines the length and every event of the chain, given no collisions and pipe-free fields |
| `Evidence.RunValid` | modules/files-evidence/evidence_chain.go:201-541 | over every run custody chains stay linked, committed objects were committed with a payload of their digest (originals also of their size), derived objects hang on committed originals |
| `Evidence.EveryRunValid` | modules/files-evidence/evidence_chain.go:201-541 | the same from the empty manager |
| `Evidence.CommittedForever` | modules/files-evidence/evidence_chain.go:266-541 | committed records never change, the others keep everything but their upload state, and custody chains only grow |
| `Evidence.RegisteredAsDeclared` | modules/files-evidence/evidence_chain.go:201-392 | what a registration declared is what every later state records, committed or not |
| `Evidence.OriginalRegisteredExactly` | modules/files-evidence/evidence_chain.go:201-263 | the originals that can be registered, exactly |
| `Evidence.DerivedRegisteredExactly` | modules/files-evidence/evidence_chain.go:311-392 | the derived objects that can be registered, exactly: from a committed original of the same tenant |
| `Evidence.CommittedExactly` | modules/files-evidence/evidence_chain.go:266-428 | a commitment is accepted exactly for an uncommitted object of its kind with the payload's digest, originals also of its size, and settles the record with its custody events |
| `Evidence.DuplicateExactly` | modules/files-evidence/evidence_chain.go:486-513 | a duplicate upload changes no record, conflicts exactly with a committed object of another digest, and is noted exactly when recognized |
| `Evidence.PackagedExactly` | modules/files-evidence/evidence_chain.go:619-645 | each exported item gets one custody event with its digest and the name of the export |
| `Evidence.TransferExactly` | modules/files-evidence/evidence_chain.go:431-481 | an interruption or resumption is accepted exactly for a known, uncommitted object, and sets its state |
| `Evidence.TamperCheckExactly` | modules/files-evidence/evidence_chain.go:517-541 | a check passes exactly for an object of the payload's digest; a custody event is left exactly on a mismatch |
| `ExportManifest.RootIgnoresOrder` | modules/files-evidence/evidence_chain.go:582-595 | the root digest is independent of the order of the items |
| `ExportManifest.RootBindsItems` | modules/files-evidence/evidence_chain.go:582-595 | equal roots mean, in identifier order, the same ids, kinds, parents, digests and sizes, given no collision and fields without colons and newlines; media type and derivation are not covered |
| `ExportManifest.ComputeRootDigest` | modules/files-evidence/evidence_chain.go:582-595 | the digest of the lines of the items sorted by id |
| `ExportManifest.VerifyExportManifest` | modules/files-evidence/evidence_chain.go:664-694 | verifies only non-empty manifests with the right root and matching payloads, and all of those without contradictory items |
| `ExportManifest.VerifiedItemsBound` | modules/files-evidence/evidence_chain.go:664-694 | two manifests that verify under one root list the same lines, and at least one, given no collision and plain fields |
| `ExportManifest.ExportedConsistent` | modules/files-evidence/evidence_chain.go:598-660 | a generated manifest is not empty and has no contradictory items, even when ids repeat |
| `ExportManifest.ManifestVerifiesExactly` | modules/files-evidence/evidence_chain.go:664-694 | with the committed payloads a generated manifest verifies exactly when every derived item was committed at its declared size |
| `ExportManifest.OnlyCommittedPayloadsVerify` | modules/files-evidence/evidence_chain.go:664-694 | no other payloads verify, given no collisions with committed ones |
| `ExportManifest.ManifestOutlivesRuns` | modules/files-evidence/evidence_chain.go:598-694 | after any further calls the items still describe the records and the committed payloads are the same |
| `ExportManifest.DerivedSizeUnchecked` | modules/files-evidence/evidence_chain.go:395-428 | a derived object is committed whatever its size, and then no manifest item of it matches that payload |
| `EvidenceManager.RecordEvent` | modules/files-evidence/evidence_chain.go:168-198 | the next event of a chain, which stays linked |
| `EvidenceManager.RecordEvents` | modules/files-evidence/evidence_chain.go:168-198 | several events in order |
| `EvidenceManager.EvidenceIntegrityManager.RegisterOriginal` | modules/files-evidence/evidence_chain.go:201-263 | one registration of an original: the step and the first fault |
| `EvidenceManager.EvidenceIntegrityManager.CommitOriginal` | modules/files-evidence/evidence_chain.go:266-308 | one commitment, accepted exactly for an uncommitted original whose digest and size the payload has; a wrong digest leaves a custody event |
| `EvidenceManager.EvidenceIntegrityManager.RegisterDerived` | modules/files-evidence/evidence_chain.go:311-392 | one registration of a derived object: the step and the first fault |
| `EvidenceManager.EvidenceIntegrityManager.CommitDerived` | modules/files-evidence/evidence_chain.go:395-428 | one commitment, accepted exactly for an uncommitted derived object whose digest the payload has, whatever its size |
| `EvidenceManager.EvidenceIntegrityManager.RecordTransferInterrupted` | modules/files-evidence/evidence_chain.go:431-455 | one interruption step |
| `EvidenceManager.EvidenceIntegrityManager.RecordTransferResumed` | modules/files-evidence/evidence_chain.go:458-481 | one resumption step |
| `EvidenceManager.EvidenceIntegrityManager.HandleDuplicateUpload` | modules/files-evidence/evidence_chain.go:486-513 | recognized exactly for a committed object whose digest, the payload's and the expected one agree |
| `EvidenceManager.EvidenceIntegrityManager.VerifyTamper` | modules/files-evidence/evidence_chain.go:517-541 | no error exactly when the object exists and has the payload's digest; a mismatch leaves a custody event |
| `EvidenceManager.EvidenceIntegrityManager.PackageItems` | modules/files-evidence/evidence_chain.go:619-645 | items, total and custody events up to the first item that is missing or uncommitted |
| `EvidenceManager.EvidenceIntegrityManager.GenerateExportManifest` | modules/files-evidence/evidence_chain.go:598-660 | succeeds exactly with a tenant, a name and items that are all committed; items describe the records, the total is the sum of their sizes; a failure keeps the events of the items before it |
| `EvidenceManager.ExportThenVerify` | modules/files-evidence/evidence_chain.go:598-694 | generating and then verifying with the committed payloads succeeds exactly when every derived item was committed at its declared size |
| `ExternalRefs.MappingsNeverChange` | modules/organization-tenancy/identifiers.go:316-367 | no entry of either map is ever changed or removed, whatever the identifiers contain |
| `ExternalRefs.KeysTellApart` | modules/organization-tenancy/identifiers.go:272-278 | keys of separated pairs determine the pair and the identifier |
| `ExternalRefs.RunValid` | modules/organization-tenancy/identifiers.go:316-367 | after any registrations each map holds entries that point back to the other, all from pairs in use |
| `ExternalRefs.InverseExactly` | modules/organization-tenancy/identifiers.go:371-414 | over the tenant and system pairs in use, each resolver undoes the other after every run exactly when no key prefix of a pair equals or continues, other than with white space, that of another pair under which references can be registered |
| `ExternalRefs.ResolversAreInverse` | modules/organization-tenancy/identifiers.go:371-414 | in particular for all tenants and systems without colons |
| `ExternalRefs.AcceptedResolvesForever` | modules/organization-tenancy/identifiers.go:316-414 | an accepted registration under separated pairs resolves both ways in every later state |
| `ExternalRefs.RegisteredExactly` | modules/organization-tenancy/identifiers.go:316-367 | under separated pairs a registration is accepted exactly when well formed and neither identifier is mapped otherwise |
| `ExternalRefs.LongerPrefixLeaks` | modules/organization-tenancy/identifiers.go:396-414 | otherwise an identifier registered under one pair resolves under the other, for another tenant as well since the reverse resolver does not look at the tenant, and does not resolve back |
| `ExternalRefs.InternalCrossesTenants` | modules/organization-tenancy/identifiers.go:396-414 | tenant `a` reads through system `B` what tenant `a:B` registered under system `C` |
| `ExternalRefs.ColonsBreakTheInverse` | modules/organization-tenancy/identifiers.go:272-278 | registering under system `b:c` makes `c:x` resolve under system `b`, where it does not resolve back |
| `ExternalRefs.ValidateExternalId` | modules/organization-tenancy/identifiers.go:281-308 | the first fault of an external identifier |
| `ExternalRefs.IdAcceptedExactly` | modules/organization-tenancy/identifiers.go:281-308 | accepted identifiers have 3 to 128 characters, not all the same and none a wildcard |
| `ExternalRefs.ExternalRefRegistry.RegisterExternalRef` | modules/organization-tenancy/identifiers.go:316-367 | one registration step and its exact error |
| `Idempotency.CreatedAtMostOnce` | modules/organization-tenancy/identifiers.go:201-246 | over every run at most one creation succeeds under a key, exactly when the key is recorded |
| `Idempotency.RecordedForever` | modules/organization-tenancy/identifiers.go:201-246 | a recorded result never changes |
| `Idempotency.EveryReplayReturnsTheFirstResult` | modules/organization-tenancy/identifiers.go:197-246 | after a creation, whatever happens in between, a call under the key replays its resource exactly when the payload is the same, and conflicts otherwise |
| `Idempotency.AnsweredExactly` | modules/organization-tenancy/identifiers.go:201-246 | a call creates, replays or conflicts, each exactly when it should |
| `Idempotency.OwnRecordExactly` | modules/organization-tenancy/identifiers.go:193-246 | a tenant and key find only what was created under them, in every run, exactly when their key text has no second split |
| `Idempotency.SecondSplitReplaysAcross` | modules/organization-tenancy/identifiers.go:193-246 | otherwise a call replays the resource of another tenant |
| `Idempotency.IdempotencyStore.EvaluateOrCreate` | modules/organization-tenancy/identifiers.go:201-246 | one call and its answer |
| `AccessCondition.NewCondition` | modules/identity-authorization/access_condition.go:185-237 | accepted exactly on valid arguments; fresh, at most fourteen days |
| `AccessCondition.EveryConditionBounded` | modules/identity-authorization/access_condition.go:327-542 | over every run of fresh conditions: validity at most 14 days plus 7 per renewal, generation equal to the number of ledger entries, and a ledger that replays to status, generation, expiry, renewals and sponsor |
| `AccessCondition.RunValid` | modules/identity-authorization/access_condition.go:327-542 | every step keeps ledger and conditions in agreement |
| `AccessCondition.SponsorsLink` | modules/identity-authorization/access_condition.go:376-432 | consecutive sponsor changes link the prior to the new sponsor |
| `AccessCondition.RevokedForever` | modules/identity-authorization/access_condition.go:493-542 | a revoked condition never changes |
| `AccessCondition.StaleForever` | modules/identity-authorization/access_condition.go:548-578 | a session once behind the generation is denied in every later state, at any time and target |
| `AccessCondition.ChangeMakesStale` | modules/identity-authorization/access_condition.go:376-578 | every accepted change makes all earlier sessions stale for good |
| `AccessCondition.ChangedExactly` | modules/identity-authorization/access_condition.go:376-542 | the sponsor changes, renewals and deactivations that are accepted, exactly, and every field they change |
| `AccessCondition.CreatedExactly` | modules/identity-authorization/access_condition.go:327-358 | a condition is stored exactly under a new name, with one ledger entry; subjects are user identifiers |
| `AccessCondition.RecordedExactly` | modules/identity-authorization/access_condition.go:327-542 | every accepted call leaves one ledger entry naming the condition, the change, who made it, why and when |
| `AccessCondition.SponsorExactly` | modules/identity-authorization/external_user_profile.go:96-109 | sponsors are user identifiers without a marker of external users |
| `AccessCondition.ScopeExactly` | modules/identity-authorization/access_condition.go:166-178 | a condition reaches its project, on its site if it names one |
| `AccessCondition.ConditionRegistry.CreateCondition` | modules/identity-authorization/access_condition.go:327-358 | one creation step |
| `AccessCondition.ConditionRegistry.ChangeSponsor` | modules/identity-authorization/access_condition.go:376-432 | one sponsor change: the step and the first fault |
| `AccessCondition.ConditionRegistry.RenewAccess` | modules/identity-authorization/access_condition.go:436-489 | one renewal, accepted exactly for an active condition and an extension of at most seven days |
| `AccessCondition.ConditionRegistry.DeactivateAccess` | modules/identity-authorization/access_condition.go:493-542 | one deactivation: the step and the first fault |
| `AccessCondition.ConditionRegistry.EvaluateConditionAccess` | modules/identity-authorization/access_condition.go:548-578 | allowed exactly when active, within the window, in scope and not behind the generation |
| `AccessCondition.ConditionRegistry.GetConditionHistory` | modules/identity-authorization/access_condition.go:282-302 | the entries that name the tenant and condition, in order |

## Left out

- Locks as such: one locked method is one step. Methods that return references into a store are modelled as returning copies.
- Creation and update timestamps, generated record identifiers, random tokens and error message texts that no later decision reads; the audit digest of lifecycle ledger entries.
- SHA-256, hexadecimal encoding, canonical JSON, case conversion, file name and media type checks of evidence: function parameters.
- 64-bit counters and sums are unbounded integers.
- String lengths count characters where the source counts bytes (digest and external identifier lengths); they agree on ASCII.
- Map iteration order is arbitrary in the model wherever the source ranges over a map.
- Keys: contract keys, publication version keys and evidence keys are pairs or tuples; `CompatibilityRegistry.KeyTextInjective` and `Text.VersionKeyInjective` justify the first two, nested maps the third. Every other joined key is kept as text.
- Aliasing of slices inside payloads; payload values are a string or an opaque JSON text.
- JSON type checks of missions (values of another type than expected; an absent `report_to` key is modelled) and of the migration manifest, and the manifest checks other than dependencies.
- `ValidateRoleAssignment`, audit trail readers of assignments and delegations, `PopulateEvaluator`, `ListAssignmentsByScope`: their checks and loops are those of `CheckRoleConflict`, the ledger readers and `ListActiveAssignments`.
- Restoring a dispatcher that already holds records: it overwrites newer records, so the single-success claim is between restores.
- Audit numbering after a restore into a fresh record store: the counter is not part of an archive.
- Integrity of withdrawn snapshots: withdrawal replaces the reviewer without recomputing the signature, so nothing is claimed for them.
- A lifecycle ledger shared between controllers or filled from outside: the controller's ledger starts empty and only the controller appends.
- Custody events appended by one call carry one time; export packages of records (`GenerateExportPackage`) and of snapshots (`NewExportPackage`).
- HTTP handlers and portals only decode requests and call the modules above; notifications, rendering, directory search, templates and incident intake are single-record checks without state shared between calls; tools that run git or scan files depend on input and output.
- AccessPolicy.MoreGrantsMoreAccess: stated for targets that are not archived; for archived ones the first otherwise passing grant decides, which `AccessPolicy.OrderMattersExactly` makes exact.
