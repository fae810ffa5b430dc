# azure-k8s-role-assigner: a verified model

The controller keeps a table of Microsoft Entra app role assignments (service principal to set of
groups) equal to the groups that live Kubernetes RBAC objects refer to. This project models the parts
of it that have to be right together, and proves what they promise:

| files | what they cover |
|---|---|
| `Bindings`, `GoStrings` | which groups a binding names, and the filter that drops binding events |
| `ConvergencePass`, `StateReconciler` | one convergence pass: its writes, its effect under any order and any failures, its counters |
| `ReconcileSystem`, `PassRuns`, `Settling`, `Flapping`, `TornLists` | the two controllers, their queues, the mutex, the cache and the Azure table as one transition system over whole runs: nothing lost, nothing stuck, no outcome of a pass left out, and exactly when an assigned group can be lost again |
| `AzureRows`, `AzureRowPasses`, `AzureRowRefinement`, `GroupCache`, `AzureClient` | the Azure client over rows of assignments, and exactly when it behaves like the abstract table |
| `RowSystem`, `OwnRows`, `RowRounds` | the two controllers over Azure's own rows: exactly when nothing is lost, and that further rounds heal what a pass could not remove |
| `TargetIsolation`, `SharedPrincipals` | several reconcilers writing to one Azure side by side, on service principals of their own or shared |
| `ArgoCD`, `ArgoSystem`, `ArgoPassRuns`, `ServicePrincipals`, `TargetGrouping`, `TargetDesired`, `ParsedTargets` | Argo CD desired sets, watches, whole runs of an Argo CD reconciler, and the grouping of instances into targets, by spelling and by what the client makes of it |
| `Der`, `Base64`, `PemToJwks` | the PEM to JWKS script |

Code that changes state step by step is modelled as methods and classes, each proved equal to a function
of its inputs or of the old state; the theorems are lemmas about those functions. `dafny verify
dfyconfig.toml` checks everything.

## Assumptions

- A failed write leaves the table unchanged. A listing returns every row in one response. Any single
  call may fail at any time; which ones do is arbitrary.
- Graph ignores the case of the object id it is asked for and returns ids in lower case. In
  `ReconcileSystem` the directory does not change during a run, but every lookup may fail; `GroupCache`
  also covers a directory that changes.
- A lookup of a group the directory does not hold always fails; the code skips it by design, and the
  model does not count it as a failure.
- A change of an object and the event it raises are one step. An error return puts the work item back
  in the queue; resync timers are the `Resync` and `Requeue` actions, which may happen at any moment.
- In `ArgoSystem` each object is read at a moment of its own, but the lookups of a pass are one step and
  so are its listing and writes, because the directory is fixed and the service principals are not shared.
- Only this process writes to the managed role while it runs.
- `:|` and `if *` stand for Go's arbitrary map order and for calls that may fail. Ghost counters
  (`failures`, `asked`, `made`) record the calls that were made, so that a contract can tell a call that
  failed from one that was never issued.
- Names are sequences of characters. `ToLower` is written out for ASCII, which is all that can occur in
  a name that passes the UUID test.
- Rows hold identifiers in the lower-case hyphenated form; the client parses what it is configured with
  and compares parsed values. The service principals of one client are different objects in Azure.

## What was found

- `docs/ARCHITECTURE.md:111` promises that assignments made by other means are never touched. The code
  removes the first row of a principal, whatever its role (`internal/azure/client.go:149-155`), so a
  stale group that also holds another role can lose that other role: `OtherRoleRowDeleted`.
  `OtherRolesUntouchedIff` gives the exact condition under which the promise holds.
- `docs/ARCHITECTURE.md:111` also says a group still referenced by any binding stays assigned. The two
  binding lists are taken one after the other, RoleBindings first, so a group that moves from a
  ClusterRoleBinding to a RoleBinding in between can be removed although some binding carried it all
  the time: `TornListsRemoveCarriedGroup`. `NoFlapping` gives the exact condition over runs: every
  RoleBinding list together with every later ClusterRoleBinding list must show a spelling of the group
  that is cached by then. `SurvivesIffNotAtRisk` states it for passes in flight as well.
- A lookup that fails before the group was ever cached makes the group undesired for that pass, and an
  existing assignment of it is removed although a live binding carries it:
  `FailedLookupRemovesCarriedGroup`; at startup this can happen to every assigned group:
  `StartupCanLose`.
- The event filter compares names in lower case while the desired set is built from names as spelled;
  dropping events is sound exactly when lookups ignore case: `FilterSoundness`.
- A resource type installed after startup is read by later passes but never watched.
  `CoveredIffLateTypesHarmless` says exactly when that goes unnoticed, and `NothingStaleIffHarmless`
  that it is also exactly when a run can end with an empty queue and stale assignments.
- The grouping key joins service principals and role with `|`; identifiers that contain it can join two
  different targets: `KeyIff`, `KeyCollision`.
- The key goes by spelling while the client parses ids as UUIDs (`internal/azure/client.go:192,222`), so
  two instances that write one role id in upper and in lower case get two targets for one Azure target:
  `CaseSplitsTarget`. Their reconcilers then undo each other unless they want the same groups:
  `SplitTargetsFight`, `SplitTargetsPrune`. `GroupedByAzureIff` says exactly when grouping by spelling is
  grouping by Azure target; with ids in canonical form it is: `CanonicalAreAlike`.
- A remove deletes one row, so a group listed twice, or under another role first, is still managed after
  a pass that reported no failure: `RowsNoLostUpdate` says exactly when the latest pass leaves the rows
  in line, `RoundsConverge` that every further round helps until they are.
- Two reconcilers that share a service principal and a role undo each other's work unless they want the
  same groups; with different roles they get along unless one removes a group whose first row is the
  other's: `SharedPrincipalsFight`, `PruneSparesOtherRoleIff`.
- A DER key cut off inside its exponent is accepted with a shorter exponent: `TruncatedKey`,
  `TruncatedExponent`.

## Model

| member | source | states |
|---|---|---|
| GoStrings.ReservedPrefixesAreNotUuids | internal/controller/reconcile_state.go:253-267 | a name that passes the UUID test starts with neither reserved prefix, so the two prefix checks drop nothing the UUID check keeps |
| GoStrings.PrefixAndSuffix | internal/controller/argocd_controller.go:303-305 | the prefix and suffix tests are true exactly if something follows, or precedes, to make up the whole |
| GoStrings.UuidIgnoresCase | internal/controller/reconcile_state.go:235-238 | names that are lowered to the same text are both valid or both not |
| GoStrings.ToLowerByLetter | internal/controller/reconcile_state.go:237 | each letter of the upper-case alphabet becomes the one in its place in the lower-case alphabet, and every other ASCII character stays as it is |
| GoStrings.UuidForm | internal/controller/reconcile_state.go:235-238 | a name is valid if and only if it has 36 characters, hyphens in the four places and hexadecimal digits of either case elsewhere |
| GoStrings.CaseOfLetter | internal/controller/reconcile_state.go:235-238 | writing any letter of a valid name in the other case leaves it valid |
| GoStrings.ParsedUuidIff | internal/azure/client.go:179-196 | a text is parsed to a UUID if and only if it is that UUID, a URN of it, the UUID between two ASCII characters or its 32 digits, in any case |
| GoStrings.TrimSpaceIff | cmd/main.go:322 | what trimming leaves is exactly what stands between the spaces at both ends, for the 25 space characters written out |
| GoStrings.ParsedUuidIsCanonical | internal/azure/client.go:179-196 | every text the client accepts as an id stands for one lower-case hyphenated UUID, which stands for itself |
| Bindings.ExtractGroupsFromSubjects | internal/controller/reconcile_state.go:241-276 | the loop returns, once each, exactly the valid names of the subjects of kind Group |
| Bindings.GroupsInOrder | internal/controller/reconcile_state.go:241-276 | they come in the order in which they are first named |
| Bindings.SpellingsAre | internal/controller/reconcile_state.go:183-204 | a name is asked for if and only if it is a valid name of a Group subject of a binding with no deletion timestamp or a zero one |
| Bindings.DeletingBindingIsIgnored | internal/controller/reconcile_state.go:183-204 | a cluster asks for the same, for every lookup, when a binding with any other deletion timestamp is taken away |
| Bindings.DesiredAre | internal/controller/reconcile_state.go:169-232 | a group is desired if and only if some name a binding of either kind asks for resolves to it |
| Bindings.ManagedGroupSubjects | internal/controller/binding_events.go:64-81 | the filter's list has exactly the lower-cased valid names of the subjects of kind Group, which are those the extraction would find |
| Bindings.ManagedNamesAreLoweredCandidates | internal/controller/binding_events.go:74-80 | without any prefix check the filter sees the same names as the extraction, up to case, and sees none exactly when there is none |
| Bindings.SameStringSet | internal/controller/binding_events.go:83-96 | true exactly when the two lists have the same elements, whatever their order and repeats |
| Bindings.BindingGroupPredicate | internal/controller/binding_events.go:46-60 | the predicate on create, update and delete events decides exactly the event classes the soundness lemmas quantify over |
| Bindings.AcceptsIff | internal/controller/binding_events.go:46-60 | an event is accepted if and only if a binding that comes, goes or changes its deletion timestamp names a group, or any other update changes the groups it names up to case |
| Bindings.AnyChangeIsAnEvent | internal/controller/binding_events.go:43-60 | whatever becomes of one binding is an event of its kind |
| Bindings.OnlyOneBindingChanges | internal/controller/binding_events.go:43-60 | and an event changes that binding only |
| Bindings.SpellingsMatchFilter | internal/controller/binding_events.go:62-81 | what a binding contributes to the candidates, up to case, is what the filter compares, and a binding without managed subjects contributes nothing |
| Bindings.DroppedEventKeepsGroups | internal/controller/binding_events.go:43-56 | a dropped event leaves the candidates of both kinds of binding the same up to case |
| Bindings.DroppedEventKeepsDesired | internal/controller/reconcile_state.go:169-232 | when lookups ignore case, the desired set before and after a dropped event is the same |
| Bindings.FilterSoundness | internal/controller/binding_events.go:43-96 | every dropped event leaves the desired set of the whole cluster unchanged if and only if group lookup ignores case |
| ConvergencePass.PassEffect | internal/controller/reconcile_state.go:114-148 | issuing the writes of a pass in any order, with any of them failing, ends in one table that depends on the listing, the desired set and the failures only |
| ConvergencePass.PassBounds | internal/controller/reconcile_state.go:114-148 | per service principal the result lies between listed and desired, every deviation is owed to a failed write of that group, and it equals the desired set exactly when no write there failed |
| ConvergencePass.WriteShrinksDifference | internal/controller/reconcile_state.go:117-148 | a successful write of the pass removes exactly itself from the difference to the desired set |
| ConvergencePass.DistanceDuringPass | internal/controller/reconcile_state.go:114-148 | at every intermediate write the distance to the desired set is the starting distance minus the successful writes so far |
| ConvergencePass.ZeroDistance | internal/controller/reconcile_state.go:99-101 | the distance is zero exactly when every service principal has the desired groups, and then a pass issues no write |
| ConvergencePass.AssignmentsConserved | internal/controller/reconcile_state.go:109-148 | total assignments change by successful assigns minus successful removes, at any point of a pass |
| StateReconciler.StateReconciler.ResolveCandidateGroupIDs | internal/controller/reconcile_state.go:211-232 | every candidate is looked up; the result is the ids of exactly those whose lookup has succeeded, now or earlier, with an id |
| StateReconciler.StateReconciler.CollectCandidates | internal/controller/reconcile_state.go:170-204 | the candidates are the spellings of all live bindings of both kinds; an error is exactly one failed list |
| StateReconciler.StateReconciler.AddCandidates | internal/controller/reconcile_state.go:183-204 | a list of bindings adds exactly the spellings of those not being deleted |
| StateReconciler.StateReconciler.BuildKubernetesDesiredGroupIDs | internal/controller/reconcile_state.go:169-207 | the desired set is what the cache holds for the spellings of all live bindings, every one of them looked up |
| StateReconciler.StateReconciler.AssignMissing | internal/controller/reconcile_state.go:117-132 | the first inner loop calls exactly the assigns of one service principal and counts and records them exactly |
| StateReconciler.StateReconciler.RemoveStale | internal/controller/reconcile_state.go:134-147 | the second inner loop calls exactly the removes of one service principal and counts and records them exactly |
| StateReconciler.StateReconciler.Converge | internal/controller/reconcile_state.go:94-162 | a completed pass has called exactly its writes; the table, the two counters and the three reported sets are exactly what the failures imply; an error is a failed listing and changes nothing |
| StateReconciler.StateReconciler.ReconcileDesiredState | internal/controller/reconcile_state.go:76-162 | a whole pass converges on the groups of the listed bindings; on an error no assignment changes; the mutex is released on every path |
| StateReconciler.FinishedEnd | internal/controller/reconcile_state.go:109-159 | at the end of the loops `actualAfter` is the union of the groups really present, the two sets and counters are those of the writes made, and after equals before plus assigned minus removed |
| StateReconciler.ConvergedMeans | internal/controller/reconcile_state.go:109-159 | call by call: an assign is made exactly for a desired group that was not listed and a remove exactly for a listed one that is not desired; a group is there afterwards if and only if its assign succeeded or it was listed and no remove of it succeeded; the two sets, the union and the two counters are those of these calls |
| StateReconciler.ClusterSpellingsAre | internal/controller/reconcile_state.go:169-204 | the candidates are exactly the valid names of Group subjects of bindings of either kind that are not being deleted |
| ReconcileSystem.NoLostUpdate | internal/controller/reconcile_state.go:76-148 | in every run: with empty queues and no pass in flight, a pass has completed and no error is pending; if in the latest pass no write failed and every group the directory holds was found, every service principal has exactly the groups of the current bindings, although filtered events never reach a queue, bursts coalesce and bindings may name groups that do not exist |
| ReconcileSystem.InLineMeans | internal/controller/reconcile_state.go:109-148 | what that theorem ends with: every service principal is there, and has a group if and only if the directory holds it for a name that a live binding names |
| ReconcileSystem.StepKeepsInv | internal/controller/reconcile_state.go:82-148 | every step of either controller or the environment keeps the invariant that links filter, queues, mutex, lists, cache, snapshot and writes |
| ReconcileSystem.QuiescentIsConverged | internal/controller/reconcile_state.go:76-148 | the invariant alone gives the same in every quiescent state |
| ReconcileSystem.StepKeepsWork | internal/controller/rolebinding_controller.go:33-46 | until a pass has completed, and after every error return, some work item is queued or in flight |
| ReconcileSystem.EventMarksOrKeeps | internal/controller/binding_events.go:24-56 | an event either queues the work item of its controller or changes no group of any kind |
| ReconcileSystem.SnapshotCoherence | internal/controller/reconcile_state.go:82-148 | while a pass writes, the table is its listing with its own completed writes applied, what is left of the difference is what is still to do or has failed, and no other controller holds the mutex |
| ReconcileSystem.PassesAreSerial | internal/controller/reconcile_state.go:82-101 | whoever runs them, each pass took both lists no earlier than every earlier pass took its own, and left exactly the effect of one pass |
| ReconcileSystem.RemovedIffUnreferenced | internal/controller/reconcile_state.go:134-147 | a pass removes a group exactly when it was listed and no spelling that the pass found and that is cached stands for it |
| PassRuns.EveryPassIsARun | internal/controller/reconcile_state.go:76-162 | from every reachable state with the mutex free, a queued controller can take a pass in which any lookups fail that the cache does not answer, and any writes: it wants exactly what the cache then holds for the current bindings and leaves exactly the table those failures leave |
| PassRuns.StartupPass | internal/controller/binding_events.go:36-41 | at startup either controller may be the first to do so |
| PassRuns.EventsAtAnyTime | internal/controller/binding_events.go:24-60 | every change of the cluster and every resync may happen at any moment; an event queues its own controller if and only if the filter accepts it, and touches nothing else |
| PassRuns.AnyCallMayFail | internal/controller/reconcile_state.go:126-142 | every call may fail whenever it may succeed, but for a lookup the cache answers |
| PassRuns.ErrorReturn | internal/controller/reconcile_state.go:92-102 | an error return frees the mutex and queues the work item again, and changes nothing else |
| PassRuns.QueueMoves | internal/controller/reconcile_state.go:82-83 | a controller takes up its work item whenever it is idle and waits for the mutex |
| Flapping.SurvivesIffNotAtRisk | internal/controller/reconcile_state.go:134-147 | from any reachable state and for any way the cluster goes on, some run loses an assigned group if and only if a pass in flight or yet to come can hold a pair of lists without a cached spelling of it, or a pass is already about to remove it |
| Flapping.NoFlapping | internal/azure/client.go:76-103 | with no pass in flight, an assigned group can be lost if and only if some RoleBinding list and some later or equally late ClusterRoleBinding list show no spelling of it that is cached by now |
| Flapping.OneKindCarries | internal/azure/client.go:76-103 | while one kind of binding keeps carrying a spelling that is cached, a run can lose the group if and only if a pass in flight is at risk of removing it; with the mutex free no run can |
| Flapping.StartupCanLose | internal/controller/reconcile_state.go:214-220 | at startup every group already assigned can be lost without any change in the cluster |
| TornLists.TornListsRemoveCarriedGroup | internal/controller/reconcile_state.go:169-178 | a run in which a cached, assigned group is removed although some live binding carries it at every moment |
| TornLists.FailedLookupRemovesCarriedGroup | internal/controller/reconcile_state.go:214-220 | a run in which a group that the directory holds and a live binding carries all along loses its assignment to a failed first lookup |
| Settling.StepLowers | internal/controller/reconcile_state.go:76-162 | every step the process takes by itself lowers a well-founded measure, failed lookups and writes included, unless it ends a pass with an error |
| Settling.OutOfStepsIffQuiescent | internal/controller/reconcile_state.go:82-83 | in every reachable state the process has a step to take unless both controllers are idle with empty queues: the shared mutex never deadlocks |
| Settling.CleanRoundConverges | internal/controller/reconcile_state.go:66-76 | after any history, a resync followed by the process's own steps, in which every call succeeds that can, is out of steps only when Azure equals the desired set of the cluster |
| Settling.ARoundBringsInLine | internal/controller/reconcile_state.go:66-76 | such a round exists after every history |
| AzureRows.CreateSimulatesAssign | internal/azure/client.go:174-210 | on every table, a create, or "already exists", adds exactly the group to the listing and touches no row of another role |
| AzureRows.RemoveDeletesFirst | internal/azure/client.go:137-171 | a remove deletes exactly one row, the first one of the principal, or none if there is none |
| AzureRows.RemoveEffect | internal/azure/client.go:147-171 | after a remove, rows of other roles survive if and only if the first row is a managed one, the group is unlisted if and only if no later row of it is managed, and no other group is affected |
| AzureRowPasses.OtherRolesUntouchedIff | internal/azure/client.go:147-155 | a pass leaves every row of other roles alone if and only if no removed group's first row is one of another role |
| AzureRowPasses.OtherRoleRowDeleted | internal/azure/client.go:149-155 | a table on which a pass deletes another role's row and leaves the group managed |
| AzureRowPasses.PassProgress | internal/azure/client.go:137-210 | a fully successful pass on any table makes every desired group managed and deletes one row of an undesired principal for every stale group it found |
| AzureRowPasses.RepeatedPassesConverge | internal/azure/client.go:137-210 | on any table, more passes than there are rows of undesired principals make the managed listing equal to the desired set |
| AzureRowPasses.ConvergedStays | internal/azure/client.go:221-254 | once nothing is stale, the next pass makes the listing equal to the desired set and later passes keep it so |
| AzureRowRefinement.CallRefinesIff | internal/azure/client.go:110-210 | a create is always one write on the listing; a remove is if and only if no row of the group after its first holds the role |
| AzureRowRefinement.RowPassRefinesTablePass | internal/azure/client.go:110-254 | a whole pass on rows, in any order and with any failures, gives the listing the abstract pass gives if and only if, for every group a remove succeeds for, no row after its first holds the role; rows of other roles survive then |
| AzureRowRefinement.UniqueRowsRemovable | internal/azure/client.go:147-155 | where a principal has each role once, that condition says that Azure lists the managed row first, which it does if the principal has no other role |
| RowSystem.RowsNoLostUpdate | internal/azure/client.go:110-254 | for every run over rows in which Graph gives created rows new ids: with empty queues and no pass in flight a pass has completed, and if the latest was clean, the rows with the role are exactly those of the current bindings' groups if and only if each of that pass's removes could be made by deleting the first row it had listed for the group; earlier passes play no part |
| RowSystem.TrackStep | internal/azure/client.go:110-254 | every step over rows, whatever it deletes, keeps in step with a process over a table that is read afresh at each listing, and keeps exact account of what has become of every group's rows since |
| OwnRows.RowRunIsRun | internal/azure/client.go:110-254 | a run over rows in which every successful remove meets that condition is, step by step, a run over the listings |
| OwnRows.OwnedRunIsSafe | internal/azure/client.go:137-171 | every run meets the condition if the groups managed at the start and those the directory can return have no rows of other roles and none twice, whatever rows other principals have |
| OwnRows.OwnedRowsInLine | internal/azure/client.go:110-254 | and then quiescent and clean means in line |
| RowRounds.RoundsConverge | internal/controller/reconcile_state.go:66-76 | after any history over any rows, more clean rounds of the process than there are rows of undesired principals end with exactly the groups of the current bindings, without any condition on the removes |
| RowRounds.RoundsBringInLine | internal/controller/reconcile_state.go:66-76 | after every history the process can settle without failure and such rounds exist |
| RowRounds.RoundIsOnePass | internal/controller/reconcile_state.go:76-148 | a round is the effect of one clean pass, for the groups of the current bindings, on the rows it began with |
| GroupCache.CacheHoldsFirstFound | internal/azure/client.go:76-104 | the cache holds exactly the spellings ever found, each with the first group found for it, all of them accepted by uuid.Parse |
| GroupCache.LookupReturnsFirstFound | internal/azure/client.go:76-104 | a lookup returns the first group Graph ever returned for the spelling, whatever the directory does meanwhile |
| GroupCache.FirstFoundIff | internal/azure/client.go:76-104 | the first answer for a spelling is what Graph returned when asked for this very spelling, which uuid.Parse accepts, after having returned nothing for it before |
| GroupCache.ValidationOrderIrrelevant | internal/azure/client.go:78-88 | in every cache the code can build, looking in the cache before validating changes no outcome |
| GroupCache.CacheIsInvisible | internal/azure/client.go:76-104 | against an unchanging directory every lookup returns what it would return without a cache |
| AzureClient.Client.GetGroupByID | internal/azure/client.go:76-104 | returns the first group found for the spelling over all lookups so far, and asks Graph only for a spelling that uuid.Parse accepts and that is not cached; an error is a spelling it rejects or one failed call |
| AzureClient.Client.AssignGroupToServicePrincipal | internal/azure/client.go:110-123 | succeeds exactly when uuid.Parse accepts all three identifiers and the call did not fail; then a row with the parsed group and the parsed role id is there, put in under a new id unless it was there before, and nothing else has changed |
| AzureClient.Client.RemoveGroupFromServicePrincipal | internal/azure/client.go:127-171 | the scan and delete take away the first row of the principal and nothing else; a missing row is a success; a failed call changes nothing |
| AzureClient.Client.ListManagedAssignments | internal/azure/client.go:221-254 | exactly the configured service principals have an entry, with a group if and only if some row has it as principal and the parsed app role id as role; None exactly if uuid.Parse rejects the role or a call failed |
| AzureClient.Client.ClearCache | internal/azure/client.go:257-262 | afterwards the client has looked nothing up: every spelling is asked for again |
| TargetIsolation.InterleavingIsSequential | cmd/main.go:84-133 | with disjoint service principals every interleaving of any number of reconcilers ends in the table of running them one after another, where every listing also returns the same |
| TargetIsolation.ListsTheSameAlone | cmd/main.go:106-127 | running alone, a reconciler would have listed exactly what it listed in the interleaving |
| TargetIsolation.PassInParallel | cmd/main.go:84-133 | in any interleaving each reconciler's service principals end with exactly the effect of its own pass |
| SharedPrincipals.SharedPrincipalsFight | cmd/main.go:286-316 | after a clean pass, a satisfied reconciler stays satisfied if and only if on every shared service principal the other has its role and wants the same groups, or has another role and removes no group of it whose only row of its role is listed first |
| SharedPrincipals.PruneSparesOtherRoleIff | internal/azure/client.go:147-155 | a pass leaves the rows of another reconciler's role alone if and only if no removed group's first row holds that role |
| SharedPrincipals.OtherListingAfter | internal/azure/client.go:147-155 | the listing of another role after a pass is what it was, less the removed groups whose only row of that role is their first |
| ArgoCD.ExtractGroupsFromPolicy | internal/controller/argocd_controller.go:266-301 | the loop returns, once each, exactly the UUIDs granted by some line with three fields or more whose first is "g", up to surrounding spaces; bad records are skipped |
| ArgoCD.LineGroupIff | internal/controller/argocd_controller.go:279-292 | a line gives a group if and only if it has three fields or more, the first being "g" and the second that UUID up to surrounding spaces |
| ArgoCD.ExtractGroupsFromAppProject | internal/controller/argocd_controller.go:307-338 | the loop returns, once each, exactly the UUIDs in the group lists of well-formed roles |
| ArgoCD.ArgoCDReconciler.BuildAppProjectCandidateGroupIDs | internal/controller/argocd_controller.go:241-264 | exactly the groups of the live projects of the namespace; none if the type is not installed; None is one failed list |
| ArgoCD.ProjectCandidatesAre | internal/controller/argocd_controller.go:241-264 | exactly the groups of the projects of the namespace with no deletion timestamp or a zero one, if the type is installed |
| ArgoCD.ArgoCDReconciler.AddPolicies | internal/controller/argocd_controller.go:218-225 | a live ConfigMap adds exactly the groups of its policy keys |
| ArgoCD.ConfigMapCandidatesAre | internal/controller/argocd_controller.go:217-225 | a ConfigMap that is not being deleted gives exactly the groups of the policies under "policy.csv" and under keys "policy." + x + ".csv" for any x |
| ArgoCD.ArgoCDReconciler.CollectCandidates | internal/controller/argocd_controller.go:190-236 | exactly the candidates of one source, none when its owner is missing or deleting; None is one failed read |
| ArgoCD.SourceCandidatesAre | internal/controller/argocd_controller.go:190-236 | a source gives the groups of its ConfigMap, and of its namespace's projects if enabled, if it names no resource or its resource exists without a deletion timestamp or with a zero one |
| ArgoCD.DeletingOwnerGivesNothing | internal/controller/argocd_controller.go:204-207 | a source whose resource has any other deletion timestamp gives nothing |
| ArgoCD.DeletingObjectsAreIgnored | internal/controller/argocd_controller.go:204-255 | a ConfigMap, project or resource with any other deletion timestamp might as well be gone |
| ArgoCD.ArgoCDReconciler.BuildDesiredGroupIDs | internal/controller/argocd_controller.go:176-188 | resolving source by source gives what resolving the union of all candidates gives, every one of them looked up; None is one failed read |
| ArgoCD.ArgoCDReconciler.Reconcile | internal/controller/argocd_controller.go:59-72 | a completed pass converges on the groups of all sources; an error is one failed read and leaves every assignment alone |
| ArgoCD.CandidatesAre | internal/controller/argocd_controller.go:176-188 | the candidates of a list of sources are the union of theirs |
| ArgoCD.WatchesCoverReads | internal/controller/argocd_controller.go:75-131 | for any sources, two clusters between which no event passes the predicates have the same candidates, provided no resource type was installed after setup |
| ArgoCD.CoveredIffLateTypesHarmless | internal/controller/argocd_controller.go:107-131 | for every setup and all sources, the watches notice every later change of the candidates if and only if the AppProject type was installed at setup or no source enables projects, and the ArgoCD type was installed or whatever a source with an owner reads is read by a source without one |
| ArgoSystem.ArgoNoLostUpdate | internal/controller/argocd_controller.go:59-131 | in every run of an Argo CD reconciler: with an empty queue and no pass in flight the latest pass completed, and if it was clean the target has exactly the groups of all sources as they are now, although objects are read one by one while the cluster changes, only watched changes are queued, and harmless types may be installed meanwhile |
| ArgoSystem.DesiredNowMeans | internal/controller/argocd_controller.go:176-239 | what that theorem ends with: a group is desired if and only if the directory holds it for a candidate of some source |
| ArgoPassRuns.EveryArgoPassIsARun | internal/controller/argocd_controller.go:59-72 | whichever lookups fail that have not succeeded before, and whichever writes, a queued reconciler can take a pass that leaves exactly the table those failures leave |
| ArgoPassRuns.AnyReadMayFail | internal/controller/argocd_controller.go:176-239 | every read may fail whenever it may succeed, and then only the work item is queued again |
| ArgoPassRuns.ChangesAtAnyTime | internal/controller/argocd_controller.go:75-131 | the cluster may change at any moment, and the change queues the work item if and only if a watch notices |
| ArgoSystem.NothingStaleIffHarmless | internal/controller/argocd_controller.go:59-131 | for every setup and all sources: no directory, startup and run end with an empty queue, a clean latest pass and a stale target if and only if the types that may be installed later are harmless |
| ArgoSystem.ReadIsCurrent | internal/controller/argocd_controller.go:176-239 | readings of all sources that are up to date but for unwatched owners give exactly the candidates of the cluster |
| ArgoSystem.ArgoStepKeepsInv | internal/controller/argocd_controller.go:75-239 | every step keeps what has been read up to date unless the work item is queued |
| ArgoCD.ConfigMapWatchExact | internal/controller/argocd_controller.go:77-84 | the predicate accepts an object if and only if some change of that ConfigMap alone can change the candidates |
| ArgoCD.AppProjectWatchExact | internal/controller/argocd_controller.go:85-92 | the predicate accepts an object if and only if some change of that project alone can change the candidates |
| ArgoCD.ResourceWatchIff | internal/controller/argocd_controller.go:93-100 | some change of an ArgoCD resource alone can change the candidates if and only if it owns a source not all of whose readings are also read by a source without an owner; the watch accepts exactly the resources that own a source |
| ServicePrincipals.ParseServicePrincipals | cmd/main.go:318-334 | the loop and the sort give the strictly increasing list of exactly the trimmed non-empty tokens |
| ServicePrincipals.ListHasTheTokens | cmd/main.go:318-334 | for every list of entries, each perhaps empty and with any spaces around it, the parsed list has exactly the tokens |
| ServicePrincipals.LessIff | cmd/main.go:332 | the order is by the first character that differs, with the shorter of two texts first if there is none |
| ServicePrincipals.ParseIsCanonical | cmd/main.go:318-334 | every element of the list is trimmed, non-empty and free of commas, and the list is strictly increasing |
| ServicePrincipals.ParseDependsOnTokens | cmd/main.go:318-334 | two values parse to the same list if and only if they have the same set of tokens |
| ServicePrincipals.ReparseIsStable | cmd/main.go:272-273 | joining the list with commas and parsing again gives the same list |
| TargetGrouping.ArgoCDTargets | cmd/main.go:286-316 | the loop over a map of mutable targets computes the grouping that the next lemmas are about |
| TargetGrouping.AddInstance | cmd/main.go:289-309 | one iteration gives the target of the instance's key one more source, or creates it, and changes no other target |
| TargetGrouping.WithInstanceIs | cmd/main.go:289-309 | the source that is added has the namespace, resource, ConfigMap and project setting of the instance; the sources before it and every other target stay as they are; a new target is named and configured by the instance |
| TargetGrouping.GroupingIsStablePartition | cmd/main.go:286-316 | every instance is a source of exactly one target, with its own namespace, resource, ConfigMap and project setting, two share one if and only if they share a key, input order is kept inside and first-seen order across targets, and the first instance configures each |
| TargetDesired.KeyIff | cmd/main.go:290-292 | two instances share a key if and only if they have the same service principals and role, or a separator inside an identifier makes them overlap |
| TargetDesired.SeparatorFree | cmd/main.go:290-292 | no instances overlap if no service principal, or no role, contains the separator |
| TargetDesired.KeyCollision | cmd/main.go:290-292 | two instances with different service principals and roles that get one target |
| TargetDesired.ClientIsTheInstances | cmd/main.go:272-284 | parsing a target's strings again gives the client, or the error, that every instance configured for that target would give |
| TargetDesired.ClientIs | cmd/main.go:272-284 | an error exactly if there is no service principal or the role is blank, and otherwise every token once and the role without surrounding spaces |
| TargetDesired.InstanceWants | internal/controller/argocd_controller.go:190-239 | an instance wants a group if and only if its resource lets it count and the policies of its ConfigMap, or with projects enabled the projects of its namespace, name it |
| TargetDesired.TargetWantsTheUnion | internal/controller/argocd_controller.go:176-239 | without overlaps, a target's desired set is the union of those of exactly the instances configured for it |
| TargetDesired.SharersDoNotPrune | cmd/main.go:286-316 | without overlaps, no pass of a target's reconciler removes a group wanted by an instance that spells the target as it does |
| ParsedTargets.GroupedByAzureIff | cmd/main.go:286-316 | the instances of every target are exactly those whose ids the client parses to that target's if and only if any two instances parse to the same ids exactly when they have the same spellings or overlap |
| ParsedTargets.OneTargetIffAlike | cmd/main.go:286-316 | two instances get one target if they have the same spellings or overlap, and two otherwise, whatever the client makes of them |
| ParsedTargets.CaseSplitsTarget | internal/azure/client.go:192-222 | two instances with the same service principals and a role id that parses to the same UUID, and two targets |
| ParsedTargets.SplitTargetsFight | cmd/main.go:84-133 | of two targets for one Azure target, on rows that satisfy the one reconciler the other is satisfied if and only if both want the same groups or none of their service principals exists |
| ParsedTargets.SplitTargetsPrune | internal/controller/reconcile_state.go:134-147 | on rows that satisfy the one, a pass of the other removes exactly the groups wanted by the first alone |
| ParsedTargets.CanonicalAreAlike | internal/azure/client.go:179-196 | if every id is written as the client parses it, no instances overlap and two instances parse to the same ids exactly when they have the same spellings |
| ParsedTargets.AzureTargetWantsTheUnion | cmd/main.go:286-316 | under the condition of GroupedByAzureIff, which canonical ids meet, each target wants the union over exactly the instances that name its Azure target, and no pass of its reconciler removes a group that one of them wants |
| Der.BigEndianIsMinimal | tofu/scripts/pem_to_jwks.py:75-93 | the shortest big-endian form of a number has its value and no leading zero |
| Der.ReadTagLength | tofu/scripts/pem_to_jwks.py:56-65 | tag, length and position for both length forms, with Python's slicing and index errors |
| Der.ShortHeader | tofu/scripts/pem_to_jwks.py:56-65 | a length below 128 stands for itself; an error is exactly a missing tag or first length octet |
| Der.LongHeader | tofu/scripts/pem_to_jwks.py:61-64 | from 128 on the octet counts length octets, minimal or not, none at all or fewer than it says at the end of the data |
| Der.ParseRsaPublicKeyDer | tofu/scripts/pem_to_jwks.py:52-95 | the step-by-step reader computes the reading that the next lemmas are about |
| Der.HeaderReadBack | tofu/scripts/pem_to_jwks.py:56-65 | a header written in the short or the long form (section 8.1.3 of ITU-T X.690) is read back with the same tag, length and position |
| Der.KeyReadBack | tofu/scripts/pem_to_jwks.py:52-95 | for every algorithm identifier and all numbers whose lengths fit, reading the SubjectPublicKeyInfo returns exactly the shortest octets of modulus and exponent, with or without the sign octet, and ignores trailing octets |
| Der.TruncatedKey | tofu/scripts/pem_to_jwks.py:88-95 | a key that has lost octets at the end is an error if and only if the whole exponent is gone; otherwise it is read with the octets that are left |
| Der.TruncatedExponent | tofu/scripts/pem_to_jwks.py:88-95 | the exponent read from such a key is the real one divided by 256 for every octet lost |
| Base64.DecodeUndoesEncode | tofu/scripts/pem_to_jwks.py:24 | the lenient decoder returns exactly the octets of every padded base64 text |
| Base64.AlphabetIs | tofu/scripts/pem_to_jwks.py:24 | the digits and their values are table 1 of RFC 4648, and no other character has a value |
| Base64.SextetsHaveTheValue | tofu/scripts/pem_to_jwks.py:32-35 | four digits are the number of their three octets in base 64, with zero bits filled up |
| Base64.EncodedLength | tofu/scripts/pem_to_jwks.py:32-35 | encoded text has four characters for every three octets begun |
| Base64.OthersAreSkipped | tofu/scripts/pem_to_jwks.py:24 | any other ASCII character is skipped wherever it stands, and any character beyond ASCII is an error |
| Base64.TextAfterPadding | tofu/scripts/pem_to_jwks.py:24 | after padding nothing counts any more, and an "=" where no padding is due counts for nothing |
| Base64.DigitsOnly | tofu/scripts/pem_to_jwks.py:24 | without padding, text of digits only is an error exactly if their number is no multiple of four |
| Base64.UrlAlphabetIs | tofu/scripts/pem_to_jwks.py:32-35 | the characters of the fields and their values are table 2 of RFC 4648 |
| Base64.StripRemovesThePadding | tofu/scripts/pem_to_jwks.py:32-35 | stripping "=" removes exactly the padding (section 4 of RFC 4648) |
| Base64.UrlDecodeUndoesBase64Url | tofu/scripts/pem_to_jwks.py:32-35 | strict unpadded base64url decoding (section 5 of RFC 4648) of a field gives back its octets |
| PemToJwks.PemText | tofu/scripts/pem_to_jwks.py:19-23 | wherever base64 text is cut into lines, exactly its lines are kept and none is taken for a header |
| PemToJwks.PythonCharacters | tofu/scripts/pem_to_jwks.py:19-23 | the line breaks and the spaces that Python knows, written out |
| PemToJwks.SplitFirstLine | tofu/scripts/pem_to_jwks.py:19-23 | a line ends at the first of these breaks, whichever it is |
| PemToJwks.BodyLinesAre | tofu/scripts/pem_to_jwks.py:19-23 | exactly the lines that start with five hyphens are dropped |
| PemToJwks.ConcatAppends | tofu/scripts/pem_to_jwks.py:24 | joining puts each line right after the ones before it |
| PemToJwks.PemDecodes | tofu/scripts/pem_to_jwks.py:16-24 | stripping, splitting, filtering, joining and decoding a PEM file returns exactly the wrapped octets |
| PemToJwks.JwkDescribesTheKey | tofu/scripts/pem_to_jwks.py:16-49 | for every key, wrapping and surrounding whitespace, the fields `n` and `e` decode to the shortest octets of the original numbers (sections 2 and 6.3.1 of RFC 7518) and `kid` to the digest of the key |

## Left out

- The Graph SDK, HTTP, credentials and the matching of error texts: every call is a step that succeeds, fails or reports "already exists".
- Paging: the code reads one response of a listing, and the model takes it to be complete.
- Logging, metrics, durations, rate limiting, leader election, process restarts and the rest of controller-runtime: a controller is a dirty bit and a phase.
- The csv, regexp, json and uuid libraries: a policy is a sequence of records and read errors, configuration arrives decoded, and a UUID is the 8-4-4-4-12 form in bindings; what uuid.Parse takes besides is written out as a function.
- SHA-256: a function parameter. The JSON text of the JWKS document: a record of its fields.
- `main` beyond the Argo CD wiring, environment defaults and `controllerName`: single-branch code.
- `azure.NewClient` for the Kubernetes target, which splits its list without removing duplicates or empty entries: plumbing.
- The legacy single-source fields of `ArgoCDReconciler`, which stand for one source: nothing depends on which way a source was given.
- ReconcileSystem.NoLostUpdate: the directory of group ids is fixed during a run, because the never-expiring cache would otherwise keep returning an id the directory no longer has; GroupCache states what the cache returns then.
- PemToJwks.PemDecodes: says what the script reads from one PEM block with whitespace around it; files with encapsulated headers or other text around the block are not covered.
- AzureClient.Client.GetGroupByID: the lock around the cache map is not modelled; each lookup is one step.
- Helm chart, OpenTofu, Taskfile, PowerShell, tests and release tooling: configuration and I/O.
