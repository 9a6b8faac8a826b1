# Verified models of the PolarDB agentic server's stateful cores

Each Dafny module models one core of the server or of its release tooling and proves what that core
is relied on for. A core that changes objects step by step is a class, or a method with loops, whose
contract ties it to a specification function; the properties are then proved about that function, over
every interleaving or every run where the source is concurrent. What a step does is stated a second
time, without that function, on the states, the events, the rows or the syntax it deals with.

- `ManagedCredentials`: threads and tasks race to refresh one credential through a lock, a shared
  Future, a jittered refresh time and a failure back-off. A run is any interleaving of any number of
  callers with any non-decreasing clock readings.
- `KnowledgeBatch`, `KnowledgeSubjects`, `KnowledgeStore`, `KnowledgeStatus`, `KnowledgeAccess`,
  `KnowledgeReach`: knowledge grants. The plain object is a relation from subjects to resources. The
  tables hold shared scopes, binding rows, "everybody except" policies and the assignments that make
  subjects members of the agent. The batch, which also assigns the subjects it binds, the all-users
  endpoint, the status resolver and what a read may touch are all related to the relation.
  `KnowledgeReach` tells bound, partial and readable from the tables and the organisation alone.
- `SubjectScan`, `SubjectOptions`: the filtered, paginated scan of subject options, a client that follows
  its cursor, and the filter by status.
- `Visibility`: the visibility lists of the rows that bind PolarRAG instances.
- `BulkAssignment`: the background assignment of all users, its lease and its fence.
- `SchemaPolicy`: the migration check, a walk through `upgrade()` and its helpers with alias chains.
- `WorkerSupervisor`, `ServerLifecycle`: the supervisor coroutine of the dedicated pool worker, and the
  start, retry and stop of the servers. Each stretch of code between two awaits is one step.
- `DeclarationSecrets`: secret references in nested declarations.
- `EnterpriseIdentity`: the batched identity lookup and the selector resolver.
- `Versioning`: reading and rewriting release versions.

`Common` holds the Option and Result types.

## Where the code does less than one might expect

Each of these is proved, with the exact condition where there is one.

- A rebuild request that arrives while the supervisor awaits a build that then succeeds is dropped; its
  wake-up is not (`WorkerSupervisor.ForgottenIff`, `WorkerSupervisor.RequestDuringBuildIsDropped`).
- A retry that fails with an unrecoverable schema error shows that error for the rest of the run exactly
  when the deadline has not passed or shutdown was asked for; otherwise the timeout replaces it
  (`ServerLifecycle.RetryCodeKeptIff`). FAILED is not terminal (`ServerLifecycle.FailedCanRecover`).
- Deleting a group assignment can leave a manual scope without a binding
  (`KnowledgeStore.DeletionLeavesOrphan`); it leaves none exactly when every manual scope that binds the
  group binds another subject too (`KnowledgeStore.DeletionKeepsIff`).
- Binding a subject to one resource can give it, or those that belong to it, resources that no operation
  names, because it becomes a member of the agent (`KnowledgeAccess.BindingReachesUnnamed`). It does so
  exactly for resources that everybody has, subjects not excluded from them, and members gained by the
  batch (`KnowledgeAccess.UntouchedAfterBatch`).
- Unbinding a group can take a default away from a member nobody named
  (`KnowledgeAccess.UnbindingGroupReachesMember`). A batch takes a resource that everybody has from a
  subject exactly when external sync does not grant it and some key the subject falls under was unbound
  last, or was excluded before and is not named (`KnowledgeAccess.TakenByBatchIff`).
- A resource shown as bound can be unreadable: it is readable exactly when its instance is bound, its
  visibility row shows it, and the user is bound to it by something that is not stale
  (`KnowledgeAccess.ReadIffBoundAndVisible`).
- Unbinding and binding a knowledge base again restores the row exactly when the other type's exclusions
  do not name it (`Visibility.UnbindBindRestores`).
- A bulk assignment worker whose lease ran out, and that nobody replaced, still commits
  (`BulkAssignment.ExpiredWorkerCommits`). So an accepted unbind of all subjects can be undone by an
  earlier worker exactly when the row records a worker at the unbind
  (`BulkAssignment.UnbindCanBeUndoneIff`).
- An identity that is only spelled by a user's external id is listed for the user but cannot be selected
  (`EnterpriseIdentity.ListedIsSelectableIffExplicit`).
- In a declaration with the secret fields `x` and `x_from_env`, both referenced, the key `x_from_env`
  stays, as a secret. So a reference key survives exactly when it is a declared field itself
  (`DeclarationSecrets.ReferenceKeyCanStay`, `DeclarationSecrets.SectionResolved`).
- Chart.yaml is read back more loosely than it is rewritten: after a bump it reads as the new version
  exactly when no later line gives the key a value (`Versioning.ChartReadsNew`). Since
  `scripts/release/bump-version.py` verifies after writing, such a bump fails with the files changed.

## Model

| member | source | states |
|---|---|---|
| ManagedCredentials.ManagedCredentialsProvider.BeginRefresh | server/aliyun/managed_credentials.py:127-149 | who gets the cached credential, who joins the running attempt and who starts one; equal to the function the run theorems speak about |
| ManagedCredentials.ManagedCredentialsProvider.StoreCredentials | server/aliyun/managed_credentials.py:156-189 | the whole new state after a success: schedule, no back-off, no attempt in flight, its Future settled with the value |
| ManagedCredentials.ManagedCredentialsProvider.CompleteFailure | server/aliyun/managed_credentials.py:191-219 | the whole new state after a failure: the cached value and a back-off while it is unexpired, the error otherwise |
| ManagedCredentials.SingleFlight | server/aliyun/managed_credentials.py:71-139 | in every run at most one caller owns an attempt, `_inflight` is set exactly then and is its Future, and that is the only pending Future |
| ManagedCredentials.SettledExactlyOnce | server/aliyun/managed_credentials.py:151-219 | a settled Future was settled by exactly one step, also when the delegate returned an expired credential |
| ManagedCredentials.WaitersAgree | server/aliyun/managed_credentials.py:71-125 | all callers that wait on one attempt read the same outcome |
| ManagedCredentials.NoExpiredResult | server/aliyun/managed_credentials.py:237-251 | every returned credential was unexpired at a clock reading taken inside the call after its value was fixed |
| ManagedCredentials.ReturnedWasFetched | server/aliyun/managed_credentials.py:151-206 | every returned credential was handed out by the delegate in that run, unexpired at that moment |
| ManagedCredentials.RefreshSchedule | server/aliyun/managed_credentials.py:141-175 | no delegate call while the cached credential is unexpired and the refresh or retry time is ahead; the refresh time of a temporary credential is exactly 900 seconds before expiry plus the jitter, and at the latest one second before expiry |
| ManagedCredentials.ArrivalDecides | server/aliyun/managed_credentials.py:127-149 | in every run a new call gets the cached credential, joins the one attempt, or starts one, told from the two clock readings and the provider |
| ManagedCredentials.FailureHandsOutCache | server/aliyun/managed_credentials.py:191-206 | when a failure is recorded with an unexpired credential cached, the Future gets that credential, otherwise the error; the cache is untouched |
| ManagedCredentials.SuccessHandsOutFetched | server/aliyun/managed_credentials.py:151-176 | a stored credential is what the Future gets |
| ManagedCredentials.DelegateDecides | server/aliyun/managed_credentials.py:76-80 | the owner stores exactly what the delegate returned unexpired; an expired result, an error and a cancellation are recorded as failures |
| ManagedCredentials.CollectedIsReturned | server/aliyun/managed_credentials.py:81-85 | a call that collects a credential returns exactly it when it reads the clock before expiry, and fails otherwise |
| ManagedCredentials.CollectedErrorFails | server/aliyun/managed_credentials.py:81-85 | a call that collects an error fails |
| ManagedCredentials.WaitersGetTheCache | server/aliyun/managed_credentials.py:191-206 | over a run, whoever waits on an attempt that failed while the cache was good gets the cached credential |
| ManagedCredentials.ServedAfterFailureIff | server/aliyun/managed_credentials.py:141-149 | after a fallback, and until the next success or fallback, calls are served from the cache exactly before the refresh time or within the retry interval |
| ManagedCredentials.BackOff | server/aliyun/managed_credentials.py:198-206 | after a failure that fell back to the cache, no delegate call within the retry interval unless the credential expires or a refresh succeeds |
| ManagedCredentials.ServedFromCacheIffFresh | server/aliyun/managed_credentials.py:141-175 | after a success, a new call is served from the cache exactly before the scheduled refresh time |
| ManagedCredentials.NonExpiringFetchedOnce | server/aliyun/managed_credentials.py:156-175 | once a non-expiring credential is stored nothing is ever fetched again and every call returns it |
| ManagedCredentials.NoLostWaiter | server/aliyun/managed_credentials.py:71-125 | an unfinished call can step itself or waits for an owner that can |
| ManagedCredentials.StepsShrinkWork | server/aliyun/managed_credentials.py:71-125 | every step but an arrival shrinks the remaining work, so all calls finish |
| KnowledgeBatch.RunBatch | server/api/agent_knowledge_scopes.py:1690-1718 | the loops of the batch compute the fold of its operations over grants and policies |
| KnowledgeBatch.LastOperationDecidesGrant | server/api/agent_knowledge_scopes.py:1714-1718 | the last operation naming a subject and a resource decides the manual grant; unnamed pairs keep theirs |
| KnowledgeBatch.LastOperationDecidesExclusion | server/api/agent_knowledge_scopes.py:1697-1713 | under select-all, also when the batch made the policy explicit, the last operation decides the exclusion |
| KnowledgeBatch.ExclusionWithoutSelectAll | server/api/agent_knowledge_scopes.py:1706-1713 | without select-all an exclusion survives exactly when no operation binds the subject |
| KnowledgeBatch.PolicyAppears | server/api/agent_knowledge_scopes.py:1698-1705 | which resources have a policy after a batch, and that select-all flags of existing ones do not change |
| KnowledgeBatch.RepeatingBatchIsIdle | server/api/agent_knowledge_scopes.py:1690-1719 | sending the same batch again changes no grant |
| KnowledgeStore.AgentKnowledgeStore.SelectedManualResources | server/api/agent_knowledge_scopes.py:695-724 | for each selected subject exactly the resources it is granted by hand |
| KnowledgeStore.AgentKnowledgeStore.ReplaceSelectedManualBindings | server/api/agent_knowledge_scopes.py:727-810 | selected subjects end with exactly the desired resources through at most one scope each; all others, other agents and external scopes are unchanged, also with shared or duplicated scopes; no manual scope lacks a binding; a scope is created only for new content |
| KnowledgeStore.ReplacedGrants | server/api/agent_knowledge_scopes.py:727-810 | the rebinding of rows refines replacement in the relation of grants |
| KnowledgeStore.ExternalGrantsUnchanged | server/api/agent_knowledge_scopes.py:733-768 | changes confined to the manual scopes of an agent leave every external grant and every other agent's grants |
| KnowledgeSubjects.StandsForOne | server/api/agent_knowledge_scopes.py:683-692 | keys name users and group rows one to one, so the resolution of a request is determined |
| KnowledgeStore.AgentKnowledgeStore.ResolveSubjects | server/api/agent_knowledge_scopes.py:605-692 | subjects that the request binds are assigned, groups at most once; no other assignment changes; every key resolves to its user or row, or to nothing when it has none |
| KnowledgeStore.AgentKnowledgeStore.UpdateBatch | server/api/agent_knowledge_scopes.py:1662-1721 | the batch assigns exactly the subjects it binds; on the tables it equals its fold on the relation and leaves no manual scope unbound |
| KnowledgeStore.ShrunkGrants | server/api/agent_knowledge_scopes.py:1939-1949 | shrinking or deleting manual scopes removes exactly the pairs on the target resources |
| KnowledgeStore.AgentKnowledgeStore.UpdateAllUsers | server/api/agent_knowledge_scopes.py:1926-1950 | binding selects everybody and touches no grant; unbinding removes exactly the target resources from every manual grant; no manual scope loses its last binding and stays |
| KnowledgeStore.AgentKnowledgeStore.DeleteGroupAssignment | server/api/agent_polarrag_access.py:1087-1101 | removes the row and the bindings of the group and no scope, or nothing for an unknown row; no scope is left unbound exactly under the condition of DeletionKeepsIff |
| KnowledgeStore.DeletionKeepsIff | server/api/agent_polarrag_access.py:1098-1101 | every manual scope keeps a binding exactly when each one that binds the group binds another subject too |
| KnowledgeStore.DeletionLeavesOrphan | server/api/agent_polarrag_access.py:1098-1101 | such a deletion can leave a manual scope without a binding |
| KnowledgeStatus.StatusResolver.CachedOverlaps | server/api/agent_knowledge_scopes.py:1440-1454 | the memoised overlap test answers whether two subjects share a user, whatever was cached |
| KnowledgeStatus.StatusResolver.DefaultIndexes | server/api/agent_knowledge_scopes.py:1383-1397 | exactly the members of the agent |
| KnowledgeStatus.StatusResolver.Coverage | server/api/agent_knowledge_scopes.py:1400-1439 | the rows read give exactly the inherited and the external resources of a subject |
| KnowledgeStatus.CoverageMeaning | server/api/agent_knowledge_scopes.py:1347-1348 | filtering the grants to the requested resources loses nothing about them |
| KnowledgeStatus.StatusResolver.ExclusionIndexes | server/api/agent_knowledge_scopes.py:1471-1482 | the excluded and the partial subjects; partial ones are never excluded |
| KnowledgeStatus.StatusResolver.BoundIndexes | server/api/agent_knowledge_scopes.py:1483-1491 | exactly the subjects that are bound by the eager definition |
| KnowledgeStatus.StatusResolver.SourceIndexes | server/api/agent_knowledge_scopes.py:1508-1521 | exactly the subjects that hold the resource themselves or by default, and those not excluded that hold it by default or through others |
| KnowledgeStatus.StatusResolver.ResourceStatus | server/api/agent_knowledge_scopes.py:1492-1523 | BOUND, PARTIAL and UNBOUND follow from the bound and partial subjects; all index lists are the eager ones |
| KnowledgeStatus.StatusResolver.BindingStatus | server/api/agent_knowledge_scopes.py:1340-1524 | the lazy, cached answer equals the eager definition subject by subject, independent of the others in the request |
| KnowledgeReach.BoundMeaning | server/api/agent_knowledge_scopes.py:1383-1491 | bound, told from the tables and the organisation for every kind of subject: granted by sync to the subject or to a row that reaches it; or not excluded and had as everybody has it, or granted to the subject or to a row that reaches it |
| KnowledgeReach.MemberMeaning | server/api/agent_knowledge_scopes.py:1383-1397 | a subject belongs to the agent exactly when it is assigned itself, is built in, or a row reaches it |
| KnowledgeReach.ReachedMeaning | server/api/agent_knowledge_scopes.py:1400-1439 | what is inherited and what is external, told from the rows that reach the subject |
| KnowledgeReach.OriginMeaning | server/api/agent_knowledge_scopes.py:1508-1521 | which bound resources are said to be held directly and which through others, told from the tables |
| KnowledgeReach.PartialMeaning | server/api/agent_knowledge_scopes.py:1471-1482 | held in part: as everybody has it, not excluded, and something excluded lies below the subject or shares a member with it |
| KnowledgeReach.GroupHasWhatContainsIt | server/api/agent_knowledge_scopes.py:1417-1431 | a directory group has what is granted to its own row, to its whole source and to every group that contains it, by sync in any case and by hand unless it is excluded |
| KnowledgeReach.GroupHasNothingElse | server/api/agent_knowledge_scopes.py:1417-1431 | on a resource that is not selected for everybody nothing else binds a directory group |
| KnowledgeAccess.UnbindUnderSelectAll | server/api/agent_knowledge_scopes.py:1483-1491 | after an unbind under select-all a subject is bound exactly through external grants |
| KnowledgeAccess.BatchEndpoint | server/api/agent_knowledge_scopes.py:1656-1728 | the endpoint on the tables establishes the relation between the views before and after that the following rows speak about |
| KnowledgeAccess.MemberAfter | server/core/agent_access.py:323-374 | new assignments make a subject a member exactly when one of them admits it: itself, a group it falls under, or its source |
| KnowledgeAccess.UntouchedAfterBatch | server/api/agent_knowledge_scopes.py:1667-1719 | for a subject and a resource that no operation touches together, a batch takes nothing, and gives the resource exactly when everybody has it, the subject is not excluded, and the batch makes it a member |
| KnowledgeAccess.BatchLeavesOthersAlone | server/api/agent_knowledge_scopes.py:1667-1719 | a batch, also one that makes the LEGACY_ALL default explicit, changes the access of no untouched subject that it does not make a member |
| KnowledgeAccess.BindingReachesUnnamed | server/api/agent_knowledge_scopes.py:1667-1679 | binding a user without access to one resource gives it any other resource that everybody has |
| KnowledgeAccess.ExcludedAfterBatch | server/api/agent_knowledge_scopes.py:1697-1713 | under select-all a subject is excluded afterwards exactly when a key it falls under was unbound last, or was excluded and is not named |
| KnowledgeAccess.SelectAllAfterBatch | server/api/agent_knowledge_scopes.py:1662-1719 | access to a resource that everybody has, told from the state before: external, or no such key and a member, a new member or a user with an own grant |
| KnowledgeAccess.TakenByBatchIff | server/api/agent_knowledge_scopes.py:1692-1719 | a resource that everybody has is taken from a subject exactly when external sync does not grant it and such a key exists |
| KnowledgeAccess.GrantsDecideAfterBatch | server/api/agent_knowledge_scopes.py:1692-1719 | access to other resources, told likewise: external, or no key stays excluded and a grant that reaches the subject is bound last or kept |
| KnowledgeAccess.UnbindingGroupReachesMember | server/api/agent_knowledge_scopes.py:1711-1712 | a group's unbind takes a default from an unnamed member, an instance of TakenByBatchIff |
| KnowledgeAccess.ActivationDropsDefault | server/api/agent_knowledge_scopes.py:1699-1721 | activating scoped mode leaves only grants on resources without a policy |
| KnowledgeAccess.AllUsersAccess | server/api/agent_knowledge_scopes.py:1932-1949 | binding all users reaches every member; unbinding leaves only external grants |
| SubjectOptions.KeepsRowIsWanted | server/api/agent_knowledge_scopes.py:1627-1639 | the counts taken from the status response of a page keep exactly the rows the filter wants, whoever else is on the page |
| SubjectOptions.EarlyReturnAgrees | server/api/agent_knowledge_scopes.py:1557-1569 | under the guard of the early return the scan finds no row from any offset on |
| SubjectOptions.ListSubjectOptions | server/api/agent_knowledge_scopes.py:1557-1652 | with the early return or without, the wanted candidates from the offset on, in order, at most `limit`, and the position of the first one left out; empty and final under the guard |
| SubjectOptions.WantedAreShown | server/api/agent_knowledge_scopes.py:1584-1652 | the rows a client gets by following the cursor are exactly the candidates bound to some target, or lacking one or a part of one |
| KnowledgeAccess.DeniedIsExcluded | server/core/agent_knowledge_scope.py:104-112 | a read is denied by policy exactly when the status excludes the user |
| KnowledgeAccess.StatusIsEnforced | server/core/agent_knowledge_scope.py:102-165 | a user of the agent is shown as bound exactly when the allowed set of its knowledge scope has the resource |
| KnowledgeAccess.ResolveReadScope | server/core/agent_knowledge_scope.py:46-172 | the loops over policies and grants compute the allowed set, without stale external grants and within the bound instances, and the hidden resources |
| KnowledgeAccess.ReadIffBoundAndVisible | server/polarrag/access.py:69-91 | a knowledge base is readable exactly when its instance is bound, its row shows it and the user is bound to it by what is not stale |
| KnowledgeAccess.FreshStatusIsStatus | server/core/agent_knowledge_scope.py:140-165 | without a stale external grant that reaches the user, staleness changes nothing |
| KnowledgeReach.UserReads | server/core/agent_knowledge_scope.py:46-172 | what a user of the agent can read, from the tables to the knowledge base: bound instance, no visibility exclusion, explicit list, and a grant or default that reaches the user |
| SubjectScan.ScanPage | server/api/agent_knowledge_scopes.py:1609-1649 | one page of candidates adds its matching rows in order until the limit, and otherwise names the first row left out |
| SubjectScan.ListOptions | server/api/agent_knowledge_scopes.py:1584-1652 | the matching rows from the offset, in order, at most `limit`, and the position of the first one left out; it terminates |
| SubjectScan.FollowCursor | server/api/agent_knowledge_scopes.py:1640-1652 | following the cursor returns every matching row once and in order; non-final pages are full; cursors increase; it terminates |
| SubjectScan.ResumeIsExact | server/api/agent_knowledge_scopes.py:1640-1652 | the rows before a cursor and the page it names make up the whole answer |
| Visibility.UpdateSelected | server/api/agent_knowledge_scopes.py:1885-1908 | every binding row ends as if only its own resources had been edited, one after the other |
| Visibility.EditAllVisible | server/api/agent_knowledge_scopes.py:1885-1908 | bind makes exactly the named knowledge bases visible, unbind exactly them invisible |
| Visibility.DefaultStaysDynamic | server/api/agent_knowledge_scopes.py:1901-1907 | a null default stays null and a list stays a list, so later knowledge bases are unaffected |
| Visibility.EditAllIsEditSet | server/api/agent_knowledge_scopes.py:1885-1908 | the result depends only on the set of named knowledge bases, not on order or repetition |
| Visibility.LastRequestDecides | server/api/agent_knowledge_scopes.py:1885-1908 | over any sequence of edits the last one naming a knowledge base decides |
| Visibility.UnbindBindRestores | server/api/agent_knowledge_scopes.py:1893-1908 | unbind then bind gives the row back exactly when the other type does not exclude the id |
| Visibility.WellKeptStays | server/api/agent_knowledge_scopes.py:1893-1908 | edits of either kind keep exclusions to dynamic types |
| Visibility.TypeStatusMeaning | server/api/agent_knowledge_scopes.py:1776-1788 | the summary is BOUND exactly when everything of the type, now or later, is visible in every row, and UNBOUND when nothing is |
| Visibility.SetTypeMeaning | server/api/agent_knowledge_scopes.py:1801-1810 | the whole-type endpoint shows everything or nothing of its type and leaves the other alone |
| BulkAssignment.RunLoop | server/api/agent_polarrag_access.py:1594-1617 | the loop leaves the assignments of the specification and counts exactly the users that had no direct one |
| BulkAssignment.AssignAllMeaning | server/api/agent_polarrag_access.py:1602-1617 | every listed user is direct afterwards, direct rows keep their creator, nobody else changes |
| BulkAssignment.SecondRunIsIdle | server/api/agent_polarrag_access.py:1602-1617 | a second run over the same users changes nothing and reports zero |
| BulkAssignment.AgentRecord.Claim | server/api/agent_polarrag_access.py:1677-1701 | the conditional update succeeds exactly on a claimable row and then sets the whole row |
| BulkAssignment.AgentRecord.ReportFailure | server/api/agent_polarrag_access.py:1653-1665 | a failure is written only by the recorded worker |
| BulkAssignment.AgentRecord.RunWorker | server/api/agent_polarrag_access.py:1594-1646 | assignments, status and count change together or not at all |
| BulkAssignment.AgentRecord.UpdateAllSubjects | server/api/agent_polarrag_access.py:1516-1551 | refused exactly while a lease runs; binding adds every source once and all built-in users; unbinding empties users and groups |
| BulkAssignment.RunningIffOwned | server/api/agent_polarrag_access.py:1628-1665 | in every run the status is running exactly while a worker is recorded, and it has a lease |
| BulkAssignment.ClaimRespectsLease | server/api/agent_polarrag_access.py:1679-1700 | a claim succeeds exactly when nobody holds an unexpired lease |
| BulkAssignment.Fenced | server/api/agent_polarrag_access.py:1628-1666 | a worker that no longer owns the row changes nothing for the rest of the run |
| BulkAssignment.ActsOnce | server/api/agent_polarrag_access.py:1628-1666 | a worker takes effect at most once |
| BulkAssignment.CommitCountsTheMissing | server/api/agent_polarrag_access.py:1601-1646 | an effective commit makes its whole snapshot direct and reports how many were not |
| BulkAssignment.FailureIsShown | server/api/agent_polarrag_access.py:1648-1668 | a failure reported by the owner is what the row shows until the next claim: failed, with its error, no worker, no lease, nothing counted, and nothing assigned |
| BulkAssignment.CommitIsShown | server/api/agent_polarrag_access.py:1595-1645 | a commit of the owner is what the row shows until the next claim; the users without a direct assignment get one by the admin, everybody else and the groups stay |
| BulkAssignment.ClaimIsShown | server/api/agent_polarrag_access.py:1676-1700 | an accepted claim is what the row shows until the next claim or an action of its worker: running for an hour, count and error gone |
| BulkAssignment.AllSubjectsMeaning | server/api/agent_polarrag_access.py:1500-1560 | under an unexpired lease nothing changes; binding turns the built-in users on, adds every source and keeps groups and assignments; unbinding leaves no group and no assignment; the row stays |
| BulkAssignment.LeaseRunsOut | server/api/agent_polarrag_access.py:1683-1687 | from every reachable state some later claim succeeds |
| BulkAssignment.OwnerUndoesUnbind | server/api/agent_polarrag_access.py:1628-1646 | from any state with an expired owner, for any snapshot: the owner's commit after an accepted unbind assigns every user of it again |
| BulkAssignment.UnbindCanBeUndoneIff | server/api/agent_polarrag_access.py:1516-1551 | from any reachable state, some earlier worker can undo an accepted unbind in some continuation exactly when the row records a worker |
| BulkAssignment.ExpiredWorkerCommits | server/api/agent_polarrag_access.py:1628-1646 | a run in which a worker commits after its lease ran out and after an unbind |
| BulkAssignment.UnbindUndoneOnlyByExpiredOwner | server/api/agent_polarrag_access.py:1516-1551 | only the worker recorded with an expired lease at an unbind can bring assignments back |
| SchemaPolicy.ResolveAlias | scripts/ci/check_schema_policy.py:84-88 | the loop ends, also on cycles, with the name the specification gives |
| SchemaPolicy.ResolveFollowsChain | scripts/ci/check_schema_policy.py:84-88 | the result is the end of the alias chain, or the first name met twice |
| SchemaPolicy.UpgradePolicyVisitor.VisitCallee | scripts/ci/check_schema_policy.py:83-148 | one call adds its local violations and those of the helpers it newly reaches, each entered once |
| SchemaPolicy.UpgradePolicyVisitor.Visit | scripts/ci/check_schema_policy.py:102-150 | the walk of a node ends for any helper graph and explores exactly its calls and what they reach |
| SchemaPolicy.ExploredIsReported | scripts/ci/check_schema_policy.py:83-150 | a completed walk reports exactly the local violations of all calls reachable through helpers |
| SchemaPolicy.CollectNames | scripts/ci/check_schema_policy.py:170-187 | each alias stands for what the last import or assignment that binds it says; the external names are exactly those that an import from a package other than alembic and sqlalchemy brings in |
| SchemaPolicy.CollectHelpers | scripts/ci/check_schema_policy.py:165-169 | a helper name stands for the last function of that name; `upgrade` and `downgrade` are none |
| SchemaPolicy.Check | scripts/ci/check_schema_policy.py:153-191 | a pair is reported exactly when some call offends that way, told from the shape of the call and the name it resolves to, among the calls in scope and those of every reachable helper; each helper is entered at most once |
| SchemaPolicy.RejectedIffOffends | scripts/ci/check_schema_policy.py:93-148 | what one call is rejected for: external and dynamic names, prohibited operations, the four keywords of alter_column, unique indexes, non-null columns without a default, and SQL that is dynamic or matches a pattern |
| SchemaPolicy.ReportedIffOffends | scripts/ci/check_schema_policy.py:83-150 | a pair is reported exactly when an examined call offends that way |
| SchemaPolicy.CallsAreInside | scripts/ci/check_schema_policy.py:150 | the calls that a walk of a node looks at are exactly those written inside it, at any depth |
| SchemaPolicy.ScopeMeaning | scripts/ci/check_schema_policy.py:159-164 | a check starts from the calls inside `upgrade`, or inside the whole module when there is none |
| SchemaPolicy.TopPackageMeaning | scripts/ci/check_schema_policy.py:176-182 | the package that decides trust is the part of the dotted name before the first dot |
| SchemaPolicy.DroppedTableIsReported | scripts/ci/check_schema_policy.py:105-106 | an `upgrade` that drops a table is reported for it, at the line of the call |
| SchemaPolicy.OrderIndependent | scripts/ci/check_schema_policy.py:188-191 | visiting the same nodes in another order, or repeatedly, reports the same |
| WorkerSupervisor.DedicatedPoolWorkerSupervisor.StopWorkerBegin | server/app.py:223-234 | the worker is released and the flag lowered before the await; with no worker the stretch goes on |
| WorkerSupervisor.DedicatedPoolWorkerSupervisor.ReconcileBegin | server/app.py:245-251 | which of the four ways a pass takes |
| WorkerSupervisor.DedicatedPoolWorkerSupervisor.ReconcileWorker | server/app.py:253-271 | after a build or without one: stop, replace a finished worker, keep a live one, or start one |
| WorkerSupervisor.DedicatedPoolWorkerSupervisor.BuildReturned | server/app.py:236-242 | success clears the request, failure keeps it and ends the pass |
| WorkerSupervisor.DedicatedPoolWorkerSupervisor.Resumed | server/app.py:305-312 | after the wait: leave, or clear the wake event and start a pass |
| WorkerSupervisor.DedicatedPoolWorkerSupervisor.Drive | server/app.py:210-314 | the object, driven by any possible events, goes through the states of the run theorems |
| WorkerSupervisor.SupervisorSafety | server/app.py:223-314 | every run: one live worker at most, built only when none is live; between passes the flag is up exactly when the last pass saw the pool enabled, its build did not fail, and the last successful build (or the initial value) reported a client, and then the worker runs unless one finished since; failed builds stay pending; unanswered requests have the wake set; whoever is waited for was told to stop; nothing is left after stop |
| WorkerSupervisor.PassDecides | server/app.py:244-271 | a pass keeps a running worker that needs no rebuild, waits first for one that is to go, starts one at once only when none is held |
| WorkerSupervisor.StopLeadsOn | server/app.py:223-274 | once the old worker has finished the pass goes on with what it had decided |
| WorkerSupervisor.BuildDecides | server/app.py:236-282 | a build starts a worker exactly when it succeeds with a client; one that fails leaves the request and the earlier client |
| WorkerSupervisor.StopsOnceAsked | server/app.py:284-314 | once stop is asked for, the supervisor ends within seven stretches, and can always go on except while it waits for a worker that it told to stop |
| WorkerSupervisor.RunsUntilAsked | server/app.py:284-314 | it ends for no other reason than stop or cancellation |
| WorkerSupervisor.PassFollows | server/app.py:286-312 | any moment, so any request, before stop is followed by a pass within five stretches |
| WorkerSupervisor.ForgottenIff | server/app.py:245-251 | a rebuild request is forgotten exactly by a pass that begins disabled or by the success of a build it arrived during |
| WorkerSupervisor.RequestStaysPending | server/app.py:210-212 | a request outside a build stays pending until a build starts while the pool stays enabled |
| WorkerSupervisor.RequestDuringBuildIsDropped | server/app.py:250-251 | from any build with the pool enabled: the request is lost while its wake-up still causes a pass |
| ServerLifecycle.PasRuntime.StartEnd | server/runtime.py:43-71 | phase, error code and context for each outcome of entering the lifespan |
| ServerLifecycle.PasRuntime.StopBegin | server/runtime.py:73-81 | the context is exited at most once |
| ServerLifecycle.ServeWithSettings.RunFinally | server/serve.py:184-190 | every listener is told to exit, then waited for, then the runtime stopped |
| ServerLifecycle.ServeWithSettings.FirstStartReturned | server/serve.py:131-146 | what follows each outcome of the first start |
| ServerLifecycle.ServeWithSettings.RetryReturned | server/serve.py:157-170 | what follows each outcome of a retry, with the loop condition |
| ServerLifecycle.ServeWithSettings.GateStarted | server/serve.py:147-151 | the deadline is set and the retry loop entered, or left at once |
| ServerLifecycle.ServeWithSettings.Drive | server/serve.py:99-190 | the objects, driven by any possible events, go through the states of the run theorems |
| ServerLifecycle.LifecycleSafety | server/serve.py:24-190 | every run: business requests only while the context is held; entered at most once, exited exactly once if entered; no start is refused; READY and SETUP mean a held context and no error; all listeners are told to exit and have ended |
| ServerLifecycle.EndsOnceAsked | server/serve.py:149-190 | after shutdown or the death of a listener the coroutine ends within ten stretches |
| ServerLifecycle.RetryCodeKeptIff | server/serve.py:162-170 | an unrecoverable code stays on the gate for good exactly before the deadline or under shutdown |
| ServerLifecycle.FailedCanRecover | server/serve.py:157-161 | from any wait for the schema, FAILED included, a successful retry makes the runtime ready |
| ServerLifecycle.RetriesGoOn | server/serve.py:149-165 | from any wait, any number of recoverable failures before the deadline leads back to the wait each time, with the code and phase of the last one shown, the deadline and the closed gate unchanged |
| ServerLifecycle.SucceedsAfterFailures | server/serve.py:149-161 | any number of such failures can follow each other, and a success after them makes the runtime ready and opens the gate |
| ServerLifecycle.WaitBegins | server/serve.py:147-152 | the deadline is the reading once the gate listens plus the timeout; the wait begins exactly when the clock has not passed it, no shutdown was asked for and no listener is down |
| ServerLifecycle.WaitEndsAtDeadline | server/serve.py:166-170 | a recoverable failure at or after the deadline ends the wait, and the timeout is shown for the rest of the run |
| ServerLifecycle.SchemaIsWaitedForIff | server/serve.py:134-148 | a gate is started exactly for a missing or outdated schema; any other schema error waits for shutdown without one |
| ServerLifecycle.ManagementComesFirst | server/serve.py:112-134 | with a management port its listener comes up before the runtime is started; without one a schema error ends the coroutine |
| ServerLifecycle.FirstStartOutcomes | server/serve.py:127-183 | phase, error, context and next await for each outcome of the first start |
| ServerLifecycle.KeepsServing | server/serve.py:159-183 | a started runtime stays held, and every listener answers as before, until shutdown, the death of a listener or cancellation |
| ServerLifecycle.GateAnswers | server/serve.py:24-45 | over every run: everything is forwarded once the runtime was started; until then 200 for /livez, 503 with Retry-After for other paths, 1013 for websockets, and a code that reads as a failure only after retrying ended |
| DeclarationSecrets.SecretResolver.ReadSecretReference | server/cli.py:65-104 | the reader of one reference, its errors and its use of standard input |
| DeclarationSecrets.SecretResolver.Walk | server/cli.py:118-161 | the three passes over the dictionary equal the recursive specification and consume the same lines |
| DeclarationSecrets.DeclaredMeaning | server/cli.py:122-131 | a field is declared exactly when its path is secret and some reference key names it |
| DeclarationSecrets.SectionResolved | server/cli.py:118-161 | a result has exactly the sections of the input; in each, a declared field holds the text of its one reference, other reference keys are gone, nothing else stands at a secret path, and all other leaves are unchanged |
| DeclarationSecrets.RightStripMeaning | server/cli.py:95-104 | a file or line of input is cut to its longest prefix that does not end in a line break |
| DeclarationSecrets.PrefixIsDotted | server/cli.py:118-131 | the name of a nested field is the names on the way to it, joined by dots |
| DeclarationSecrets.ReferenceKeyCanStay | server/cli.py:133-155 | with `x` and `x_from_env` both secret and referenced, the key `x_from_env` stays and holds its own secret |
| DeclarationSecrets.SucceedsIff | server/cli.py:133-160 | resolving succeeds exactly when every section has no plaintext secret and one readable reference per declared field |
| DeclarationSecrets.WalkInOrder | server/cli.py:104-160 | the j-th standard-input field, nested sections first, holds the j-th line; the rest stays unread |
| EnterpriseIdentity.EnterpriseIdentitiesByUser | server/api/enterprise_user_identity.py:37-76 | batches of 500 give each id its per-user definition, strictly sorted; unknown ids get nothing |
| EnterpriseIdentity.LookUpBatch | server/api/enterprise_user_identity.py:47-70 | the two queries of one batch decide the same pairs as the whole tables |
| EnterpriseIdentity.PairsMeaning | server/api/enterprise_user_identity.py:37-76 | what is listed for a user, told from the tables: own rows under the last source with their key; for an OIDC user the identity that the external id spells with the first fitting source, unless a row holds it |
| EnterpriseIdentity.BeforeMeaning | server/api/enterprise_user_identity.py:71-75 | answers are sorted lexicographically |
| EnterpriseIdentity.SortedIsUnique | server/api/enterprise_user_identity.py:71-75 | a set of pairs has one sorted listing |
| EnterpriseIdentity.ResolveEnterpriseUserIds | server/api/enterprise_user_identity.py:13-31 | the answer is aligned with the input, duplicates included, and fails exactly for a missing source or an unmapped subject |
| EnterpriseIdentity.MapsIsUnique | server/api/enterprise_user_identity.py:18-31 | at most one user is mapped, so the answer is determined |
| EnterpriseIdentity.ListedIsSelectableIffExplicit | server/api/enterprise_user_identity.py:13-76 | a listed identity resolves back to its user exactly when it stands in the identity table |
| Versioning.VersionsAreTriples | scripts/release/versioning.py:12 | the accepted versions are exactly the renderings of three naturals, as in section 2 of Semantic Versioning 2.0.0 |
| Versioning.MatchLineMeaning | scripts/release/versioning.py:130-137 | a line holds a version exactly when it is the fixed text around that version |
| Versioning.ReplaceOneMeaning | scripts/release/versioning.py:184-197 | replacing succeeds exactly when one line holds the expected version and no other line matches |
| Versioning.ReplaceRoundTrip | scripts/release/versioning.py:184-197 | only the version changes, the text then reads as the new one, and replacing back gives the old text |
| Versioning.ReplaceCommutes | scripts/release/versioning.py:204-240 | two edits of one file by independent patterns compose in either order |
| Versioning.PlannedReplacements | scripts/release/versioning.py:200-240 | the loop over the locations equals rewriting the files one location after the other, and plans exactly the named files |
| Versioning.PlanRoundTrip | scripts/release/versioning.py:229-240 | planning back restores every text file exactly |
| Versioning.PlanReadsNew | scripts/release/versioning.py:229-240 | every location then reads as the new version |
| Versioning.BumpAndBack | scripts/release/versioning.py:23-127 | both for the repository's own table of locations |
| Versioning.ChartVersions | scripts/release/versioning.py:140-151 | the loop returns the last value of each key, and fails exactly when one is missing |
| Versioning.LooseMeaning | scripts/release/versioning.py:142-148 | a line gives a key a value exactly when it is the key, a colon, any spaces and the bare value, with or without a quote on either side |
| Versioning.ChartValueMeaning | scripts/release/versioning.py:141-148 | the last line that gives a key a value decides |
| Versioning.ChartEditsIndependent | scripts/release/versioning.py:214-223 | no line is rewritten as both version and appVersion |
| Versioning.ChartReadsNew | scripts/release/versioning.py:140-151 | a rewritten chart reads as the new version exactly when no later line gives the key a value |
| Versioning.ChartCanDisagree | scripts/release/versioning.py:140-151 | for any two versions a chart whose planned text still reads as the old one |

## Left out

- Request routing, schemas, audit rows and SQL. A handler is one atomic transaction over maps and sets; the row lock of `update(Agent)` serialises handlers of one agent. Splitting deletes and queries of the knowledge endpoints into chunks of 500 is not modelled.
- JSON encodings of sets beyond equality of the sets; `null` and `[]` exclusions are the same empty set.
- Who contains whom in the directory and which users a group assignment reaches are fixed functions of the knowledge models; membership of an agent is computed from them and from the assignments, which a batch adds to. Candidate listing, normalisation of identifiers and the validation errors of a batch are not modelled.
- BulkAssignment.CommitCountsTheMissing: a worker's whole transaction, from reading the existing assignments to its commit, is one atomic step; edits of assignments between the two are not modelled.
- The `users` category of the subject options, display names, labels, and the names of inheritance sources (which subjects have some is modelled).
- How staleness of an external grant is decided (server/core/agent_knowledge_scope.py:141-163) is a parameter of the read model; its manual-only variant, scopes limited to personal knowledge bases, and the access lists of the knowledge spaces themselves, are not part of it.
- Case-insensitive or locale-dependent comparison in a database; strings are equal when their characters are.
- Metrics and logs of the credential code, which are taken never to raise, and `KeyboardInterrupt` inside a synchronous refresh.
- The regular expressions for raw SQL are a parameter of `SchemaPolicy`; parse errors of a migration and its line numbers beyond those of the calls are left out.
- Cancellation while the supervisor or the servers already wait for a worker, a listener or the lifespan to end; cancellation at every other await is modelled.
- Errors other than a failed build inside a supervisor pass, and the polling interval.
- The management app's own requests; a failing exit of the lifespan context still counts as the exit.
- Secrets in lists, which the resolver does not walk, and permissions of secret files: a restricted, readable file is an entry of a map.
- Line endings: files are read and written as text, which translates them, so "restored" speaks of lines.
- Versions in `package.json`, `package-lock.json` and `pyproject.toml` as parsed data; overlapping matches of a general regular expression; digits other than ASCII. Every pattern is fixed lines, a prefix, a dotted version and a suffix.
- The rest of the repository: cloud clients, OAuth, Feishu, maintenance and release-evidence tools are I/O or finite tables.
