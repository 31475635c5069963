# Aptomi engine: verified model

Aptomi's engine is a reconcile loop. It resolves a policy into a desired state, compares that with the actual
state, runs the resulting action graph in parallel, and keeps policies, revisions and component instances in a
versioned store. This project models the parts of the loop whose correctness is not visible in any single
function and proves properties that span them.

`dafny verify dfyconfig.toml` checks everything.

## What is modelled

- **The parallel scheduler** (`Scheduler*.dfy`). A transition system: its moves are the critical sections of
  `applyActions`, the dispatching loop, the close of the channel. A schedule is any sequence of enabled moves.
  One flag says whether a waiter is decremented and marked failed in one critical section or, as coded, in
  two. Everything about ordering, counting, termination and what a node does when it runs is proved for both.
  Which nodes run depends on the schedule in the code as it is: the exact condition under which a failure can
  be missed is proved, and the exact condition under which all schedules agree.
- **Component instances, their keys and the five actions** (`ComponentKey.dfy`, `Instances.dfy`). Actions and
  the write-through updater of the actual state, with an oracle for the cloud and the store.
- **The comparison** (`DiffSpec.dfy`, `ActionGraph.dfy`, `Diff.dfy`). `DiffSpec` says which plans may come out,
  since Go walks maps in any order; the classes in the other two files build such a plan in place.
- **Passes of the enforcer** (`Convergence.dfy`, `PassOutcome.dfy`, `Endpoints.dfy`, `Retry.dfy`, `LateMarkRetry.dfy`,
  `EndToEnd.dfy`). The comparison, the actions and the scheduler put together: what a pass does to each field of
  each instance whatever fails, what a lucky one achieves, how often the enforcer can start over, and how many
  lucky passes it takes after arbitrary failures. The last file adds the resolver in front.
- **The resolver** (`Resolution.dfy`, `NodeWalk.dfy`, `Walk*.dfy`, `Resolver.dfy`, `Merge.dfy`, `Desired*.dfy`).
  The recursive walk over contracts, services and components with its cycle check, and the merge of the
  resolutions of all dependencies. Users, contexts, criteria, labels, rules and templates are given by an oracle
  over scopes, a scope being all that their answers may depend on. The trace of a walk is what it evaluates and
  records, in order, from the oracle alone; resolutions and the desired state are characterised field by field
  in terms of it. `DesiredState.dfy` connects the resolver to what the comparison and the retries rely on.
- **The store** (`Generations.dfy`, `BoltStore.dfy`, `PolicyData.dfy`, `PolicyStore.dfy`, `PolicyRuns.dfy`). Paths
  in an ordered bucket, 64-bit generations, saving, policy changes over it, and what failing ones leave behind.
- **The revision queue** (`RevisionQueue.dfy`, `RevisionStore.dfy`). API requests and the enforcer as one transition
  system, with crashes and errors anywhere, and its revisions in the store.
- **Smaller algorithms**: the topological sort of components (`TopoSort.dfy`), the once-initialiser
  (`OnceInit.dfy`) and the deployment status of dependencies (`DeployedStatus.dfy`).

## Where the code does less than one might expect

Each of these is a lemma, not only a remark, and where a property fails the exact condition is proved.

- A failure is missed by a waiting node in some schedule exactly if a node that fails has a waiter at all
  (`FailureMissedIffFailingNodeHasWaiter`); the waiter may then run its actions (`MissedFailureRunsAction`). If all
  waiters have something to do, schedules disagree on some outcome under the same condition (`AgreeIffMarksInTime`).
- A pass leaves less work exactly if an effective action succeeds in it (`PassLowersWork`). With the marks as coded,
  a service may be updated again and again while its component fails, and the enforcer starts over each time
  (`LateMarkRetriesForever`).
- `applyInternal` returns only for acyclic plans, and for these always can (`ReturnsIffAcyclic`). The cycle
  check of the resolver is per path, so that a policy without any error may have a plan that never returns
  (`CyclicPolicyNeverReturns`); plans are acyclic if services only call services of a lower level (`StratifiedReturns`).
- An update whose desired parameters are nil is not written back: it succeeds in each pass without effect
  (`SecondDiffIsEmpty`, `NilUpdateRetriesForever`).
- An instance whose detachments all succeed and whose deletion does not is left without consumers
  (`OrphanLeftIff`), and no later pass deletes it (`OrphanStays`).
- The error of a component's criteria is swallowed, and the service is not recorded. A resolved dependency is
  complete exactly if each service it visits has a visit without such an error (`ResolvedIsComplete`), and its
  consumers are closed under parents exactly if this holds for the services with a matching component
  (`ParentClosedIff`, `NestedErrorBreaksClosure`).
- An update that fails half-way leaves index and store in agreement exactly if the objects before the refused one
  were in force as they are given (`FailedUpdateAgreesIff`); otherwise updating with the same objects again does not
  bring them in (`FailedUpdateLosesObjects`). A deletion that fails half-way does so exactly if the objects before
  the unknown one were out of force (`FailedDeletionAgreesIff`).
- A request that enforces the state reads the policy generation before it takes the mutex. The queue stays in order
  exactly if no request goes back behind the policy of the last revision (`OrderedIffAdmissible`), which happens when
  the policy changes in between (`StaleRequestBreaksOrder`).
- Merging instances of a key leaves an error exactly if one does not agree with a later one, where empty parameters
  agree with what comes after them but not with what comes before (`MergeErrorIff`). The resolver never produces
  instances for which this order matters, since all instances of a key have their parameters from the same
  templates (`CompletionOrderIrrelevant`).
- Saving alters a stored generation only when the 64-bit counter wraps around (`SaveAltersIff`), and updating only the
  generation it is for (`UpdatedInPlace`).
- A dependency is reported as not deployed also for the sake of others: exactly if it is not on the same instances in
  both states, or an action other than the attachment or detachment of a dependency asked for is pending for one of
  them, or endpoints of its code are stale (`DeployedIff`). Code that was created or updated stays in that state
  until its endpoints have been fetched (`ChangedIsNotDeployed`, `DeployedOnceFetched`).
- A list of allocation keys can be read back from an instance key exactly if none of them contains the separator
  (`AllocationKeysDeterminedIff`).

## Model

| member | source | states |
|---|---|---|
| SchedulerSafety.EveryScheduleIsSafe | pkg/engine/apply/action/action_plan.go:56-149 | In every reachable state of every plan: no negative degree, no send blocks or follows the close, each node is dispatched at most once and only after all nodes before it have dealt with their actions |
| SchedulerLiveness.ReturnsIffAcyclic | pkg/engine/apply/action/action_plan.go:62-95 | Some schedule from a given start returns if and only if the plan has no cycle, and then every schedule does |
| SchedulerLiveness.AcyclicReturns | pkg/engine/apply/action/action_plan.go:62-95 | On an acyclic plan some move stays enabled until the run has returned, and no run is longer than a bound fixed by plan and start |
| SchedulerLiveness.ReturnedCounts | pkg/engine/apply/action/action_plan.go:107-121 | When a run has returned, every action has exactly one outcome, and success + failed + skipped is the number of actions |
| SchedulerLiveness.CountingFindsAll | pkg/engine/apply/action/action_plan.go:152-160 | Counting with actions that do nothing finds all actions of the plan |
| SchedulerLiveness.NoopRunsAll | pkg/engine/apply/action/action_plan.go:163-173 | A finished run with actions that never fail runs every action of the plan, each once |
| SchedulerLiveness.DoneNeverPanics | pkg/engine/apply/action/action_plan_apply_result.go:58-63 | With the total found by counting, the integrity check of Done holds after any run, also on 32-bit counters |
| SchedulerDeterminism.SchedulesAgree | pkg/engine/apply/action/action_plan.go:98-149 | With the failure mark part of the decrement, two finished runs of the same plan agree on all outcomes, counters and the resulting state |
| SchedulerDeterminism.RunsIffNothingBelowFailed | pkg/engine/apply/action/action_plan.go:102-147 | The first action of a node is run if and only if no action of a node transitively before it has failed |
| SchedulerDeterminism.ReturnedAsForetold | pkg/engine/apply/action/action_plan.go:98-149 | What a finished run has done is a function of plan, start and action outcomes |
| SchedulerLateMark.FailureMissedIffFailingNodeHasWaiter | pkg/engine/apply/action/action_plan.go:130-147 | With the mark in a critical section of its own, some schedule lets a waiting node miss a failure if and only if some failing node has a waiter |
| SchedulerLateMark.MissedFailureRunsAction | pkg/engine/apply/action/action_plan.go:104-120 | In the schedule found, the waiter runs an action although a node before it has failed |
| SchedulerAgreement.AgreeIffMarksInTime | pkg/engine/apply/action/action_plan.go:98-149 | On an acyclic plan whose waiting nodes all have actions, two finished runs of the code disagree on some outcome if and only if failure marks are not in time, that is if a failing node has a waiter |
| SchedulerFineGrain.SkippedOrRan | pkg/engine/apply/action/action_plan.go:98-121 | With either mark, every node of a finished run was skipped as a whole and left its entry alone, or ran its list up to the first failure as if it were alone |
| SchedulerFineGrain.QuietSucceeds | pkg/engine/apply/action/action_plan.go:98-149 | With either mark, a node is run and all its actions succeed if neither it nor any node below it fails by itself |
| ComponentKey.ParentDetermined | pkg/engine/resolve/component_key.go:98-122 | The key string of an instance determines the key string of its parent service |
| ComponentKey.KeyInjective | pkg/engine/resolve/component_key.go:48-122 | The key string can be taken apart again when all fields but the allocation keys are free of the separator |
| ComponentKey.SameKeyIffSameInputs | pkg/engine/resolve/component_key.go:48-122 | Two instances built from plain inputs have the same key string if and only if cluster namespace and name, target suffix (none counting as unknown), namespace, contract, context, joined allocation keys and component (none counting as root) are the same |
| ComponentKey.KeyString | pkg/engine/resolve/component_key.go:48-122 | The key string, part by part, in terms of the inputs |
| ComponentKey.ParentIsServiceKey | pkg/engine/resolve/component_key.go:48-105 | The parent of a component key is the service key built from the same inputs |
| ComponentKey.SplitUndoesJoinIff | pkg/engine/resolve/component_key.go:50-54 | A non-empty list is read back by splitting the joined string if and only if none of its elements contains the separator |
| ComponentKey.AllocationKeysDeterminedIff | pkg/engine/resolve/component_key.go:48-68 | A list of allocation keys is the only plain one with its key string if and only if it is plain |
| ComponentActions.NameIdentifies | pkg/engine/apply/action/metadata.go:15-26 | Within a node, equal names mean equal actions, up to the depth of an attachment |
| ComponentActions.ActualStateUpdater.CreateComponentInstance | pkg/runtime/store/core/actualstate_updater.go:29-48 | Writes the instance to the store and the actual state, or neither |
| ComponentActions.ActualStateUpdater.UpdateComponentInstance | pkg/runtime/store/core/actualstate_updater.go:51-78 | Changes the stored instance and the actual state alike; fails for a missing one |
| ComponentActions.ActualStateUpdater.DeleteComponentInstance | pkg/runtime/store/core/actualstate_updater.go:81-96 | Removes the instance from both, or from neither |
| ComponentActions.ActualStateUpdater.Apply | pkg/engine/apply/action/component/update.go:43-70 | An action changes the entry of its own key as its effect says and no other, and succeeds if and only if the calls it makes do and the entry that it changes is there |
| ComponentActions.ActualStateUpdater.ApplyEndpoints | pkg/engine/apply/action/component/endpoint.go:39-62 | Fetching endpoints marks those of an instance that is there as up to date, and changes nothing else |
| ComponentActions.ActualStateUpdater.RefreshEndpoints | pkg/server/actual_state_updater.go:77-126 | Afterwards exactly the code instances whose calls have succeeded have got endpoints that are up to date |
| DiffSpec.NoActionsIffAgree | pkg/engine/diff/policy_resolution_diff.go:39-138 | The plan has no actions if and only if both states have the same consumers everywhere and equal parameters for code in use |
| DiffSpec.DeletionRequiredIff | pkg/engine/diff/policy_resolution_diff.go:99-103 | The deletion of an instance is asked for if and only if it has consumers and is to have none |
| DiffSpec.PlanIff | pkg/engine/diff/policy_resolution_diff.go:70-138 | In terms of the two states, exactly when an instance is created, deleted or updated, on its own account or for a component, and what its node waits for |
| DiffSpec.PlanForConsumerIff | pkg/engine/diff/policy_resolution_diff.go:91-138 | Exactly which consumers are detached and attached, the latter at the desired depth |
| DiffSpec.OutdatedIff | pkg/engine/diff/policy_resolution_diff.go:117-119 | An instance is outdated if and only if it is code in either state, used in both, and its parameters differ, nil and empty ones being the same |
| PassOutcome.PassForm | pkg/engine/apply/action/action_plan.go:98-121 | Whatever fails in a pass, and with either mark: of each node exactly the first actions up to some number are done, and the entry is what these make of it |
| PassOutcome.DoneHadLuck | pkg/engine/apply/action/component/create.go:43-61 | An action that has succeeded in a pass has had all its calls succeed |
| Endpoints.PresentAfterPass | pkg/engine/apply/action/component/create.go:43-61 | After any pass an instance is missing if and only if its deletion has succeeded or it was missing and its creation has not; a created one is the desired one |
| Endpoints.FieldsAfterPass | pkg/engine/apply/action/component/update.go:61-67 | Every field of an instance that stays: consumers by the detachments and attachments that have succeeded, new ones at the desired depth; an update that succeeds replaces the code parameters and makes the endpoints stale; all else as before |
| Endpoints.EndpointsKeptIff | pkg/engine/apply/action/component/update.go:63-66 | After a pass endpoints are up to date if and only if they were and the instance has been neither created nor updated |
| Endpoints.ChangedIsNotDeployed | pkg/api/dependency.go:185-193 | No dependency on code that a pass has created or updated is reported as deployed on the resulting state |
| Endpoints.DeployedOnceFetched | pkg/server/actual_state_updater.go:77-126 | Once the states agree and endpoints have been fetched, a dependency is deployed if and only if fetching has not failed for any of its code instances with stale endpoints |
| PassOutcome.OrphanLeftIff | pkg/engine/apply/action/component/delete.go:52-62 | A pass leaves an unwanted instance without consumers behind if and only if all its detachments succeed and its deletion does not |
| PassOutcome.OrphanStays | pkg/engine/diff/policy_resolution_diff.go:99-103 | No later pass deletes such an instance as long as it is not wanted |
| ActionGraph.Plan.AddBefore | pkg/engine/apply/action/action_graph.go:30-33 | Adding to both lists keeps them the degrees and waiters of one graph, which gains exactly this edge |
| ActionGraph.GraphNode.AddAction | pkg/engine/apply/action/action_graph.go:37-53 | Appends the action unless one of its name is there |
| ActionGraph.Plan.GetActionGraphNode | pkg/engine/apply/action/action_plan.go:24-31 | Finds the node of a key or adds an empty one, leaving the others alone |
| ActionGraph.Plan.MutualInverses | pkg/engine/apply/action/action_graph.go:30-33 | A node is in Before of another if and only if that one is in its BeforeRev |
| ActionGraph.Plan.ListsAreGraph | pkg/engine/apply/action/action_plan.go:65-131 | The lists are the degrees and waiters that the scheduler works with |
| Diff.SameNameSame | pkg/engine/apply/action/action_graph.go:39-46 | Required actions of a node with the same name are the same, so nothing is lost by dropping duplicates |
| Diff.PolicyResolutionDiff.constructor | pkg/engine/diff/policy_resolution_diff.go:28-36 | The finished plan is one that the specification of the comparison allows |
| Diff.PolicyResolutionDiff.BuildActions | pkg/engine/diff/policy_resolution_diff.go:70-138 | Handling a key puts all its own actions in order in its node and adds the update of its parent; nothing else changes |
| Diff.PolicyResolutionDiff.CompareAndProduceActions | pkg/engine/diff/policy_resolution_diff.go:39-67 | In whatever order the keys are handled, each node has exactly the required actions, and the edges are those of the desired state |
| Convergence.ApplyConverges | pkg/engine/diff/policy_resolution_diff.go:39-138 | With a lucky cloud, and services in use whose components are outdated, under every schedule every action succeeds, and the actual state has the desired consumers and parameters, except where the desired parameters are nil |
| Convergence.SecondDiffIsEmpty | pkg/engine/apply/action/component/update.go:61-67 | Then a second comparison asks for nothing, if and only if no outdated instance has nil desired parameters |
| Convergence.ApplyKeepsValid | pkg/engine/diff/policy_resolution_diff.go:39-138 | After that the actual state is closed under parents, even if it was not before, and well keyed as before |
| Convergence.AcyclicIffEdgesRanked | pkg/engine/diff/policy_resolution_diff.go:54-66 | A plan is acyclic if and only if the edges of the desired state have a rank |
| Convergence.NextActionSucceeds | pkg/engine/apply/action/component/create.go:53-60 | Each action of a node finds the instance it needs |
| Convergence.LuckDecides | pkg/engine/apply/action/component/update.go:43-70 | With any luck it succeeds if and only if the calls it makes do, and leaves the entry alone otherwise |
| EndToEnd.Reconciled | pkg/server/desired_state_enforcer.go:129-168 | Resolving in any order, comparing with an actual state in which touched services are in use, and applying under any schedule with a lucky cloud: an instance ends up with a dependency as consumer if and only if the dependency uses it, and code runs with the parameters that the policy evaluates, unless an update to nil parameters is pending |
| EndToEnd.AgreementRuns | pkg/engine/diff/policy_resolution_diff.go:115-119 | Whenever the actual state agrees with the desired one, code runs with the parameters that the policy evaluates for it in each visit of each dependency |
| EndToEnd.StratifiedReturns | pkg/engine/apply/action/action_plan.go:62-95 | If services only call services of a lower level, the plan is acyclic: some schedule returns, none gets stuck or runs forever |
| EndToEnd.EventuallyReconciled | pkg/server/desired_state_enforcer.go:129-185 | From any actual state, in any run of passes that fail in any way: after more lucky passes than there was work, the actual state has been as the policy says, consumers and code parameters |
| EndToEnd.CyclicPolicyNeverReturns | pkg/engine/resolve/policy_resolver.go:231-236 | A policy that resolves without any error and whose plan has a cycle, so that no schedule of it returns |
| EndToEnd.DesiredConsumers | pkg/engine/resolve/policy_resolver.go:84-157 | The consumers of an instance in the merged desired state, with or without conflicts, are the dependencies whose walks resolve and meet it as a component or as a service visited without a criteria error |
| Retry.RetriesEnd | pkg/server/desired_state_enforcer.go:141-185 | Whatever fails, and with either mark, the number of passes in a row in which an effective action succeeds is bounded by the work there was |
| Retry.InTimeRetriesEnd | pkg/server/desired_state_enforcer.go:176-185 | With the mark part of the decrement and no nil update pending, the number of passes in a row that start over at once is bounded by the work there was |
| LateMarkRetry.LateMarkRetriesForever | pkg/engine/apply/action/action_plan.go:130-147 | With the marks as coded, and all else the same, it is not bounded |
| Retry.PassLowersWork | pkg/server/desired_state_enforcer.go:164-185 | With either mark, a pass never adds to the total work (2 for a consumer too many, 1 for one too few, for a creation and for an update), and lowers it if and only if an effective action succeeds in it |
| Retry.SuccessIsEffective | pkg/engine/diff/policy_resolution_diff.go:117-131 | With marks in time and no nil update pending, any success in a pass comes with an effective one |
| Retry.LuckyPassIsProductive | pkg/server/desired_state_enforcer.go:129-168 | From any actual state, a pass with good luck and something to do has an effective action that succeeds |
| Retry.LuckyPassesConverge | pkg/server/desired_state_enforcer.go:129-185 | In any run of passes, however the others fail, after more lucky ones than there was work the actual state has agreed with the desired one |
| Retry.AgreementStays | pkg/engine/diff/policy_resolution_diff.go:39-138 | A pass over states that agree changes nothing |
| Retry.EffectKeepsWork | pkg/engine/apply/action/component/dependency_detach.go:50-52 | No action adds work, successful or not |
| Retry.NilUpdateRetriesForever | pkg/engine/apply/action/component/update.go:61-67 | With a nil update pending, a pass in which nothing fails has a success and leaves it pending, with either mark |
| Resolution.ComponentInstance.AppendData | pkg/engine/resolve/component_instance.go:202-241 | Merges another instance in place, up to the first conflict |
| Resolution.PolicyResolution.RecordResolved | pkg/engine/resolve/policy_resolution.go:38-42 | Adds the dependency at its depth to the instance, which is created if need be |
| Resolution.PolicyResolution.RecordCodeParams | pkg/engine/resolve/policy_resolution.go:45-49 | Marks the instance as code and records the parameters unless they conflict |
| Resolution.PolicyResolution.StoreEdge | pkg/engine/resolve/policy_resolution.go:62-67 | Adds the edge, if there is a source |
| Resolution.PolicyResolution.AppendData | pkg/engine/resolve/policy_resolution.go:72-81 | Merges entry by entry, sharing the instances that are new |
| Resolution.PolicyResolution.GetDependencyResolution | pkg/engine/resolve/policy_resolution.go:84-104 | Resolved if and only if no instance of the dependency has an error and it has a root; the key reported is one of its roots |
| Merge.MergeOrderIndependent | pkg/engine/resolve/policy_resolution.go:72-81 | The same resolutions merged in any order give the same instances, consumers, depths and errors, and without error the same edges and parameters |
| Merge.MergedInstance | pkg/engine/resolve/component_instance.go:145-241 | A merged instance in terms of the instances it comes from: all their consumers, an error exactly on a conflict, all their edges without one |
| Merge.ResolvedIffNoConflict | pkg/engine/resolve/policy_resolution.go:84-104 | After the merge a dependency is resolved if and only if it has a root and no instance it uses is in conflict |
| Merge.MergeErrorIff | pkg/engine/resolve/component_instance.go:145-241 | Any number of instances of a key merged in order: an error exactly if one does not agree with a later one, empty parameters agreeing with all that follow |
| Merge.ConflictStopsMerge | pkg/engine/resolve/component_instance.go:202-241 | From a conflict on, consumers are all that is merged |
| Merge.LastDepthCounts | pkg/engine/resolve/component_instance.go:137-139 | Of the depths at which merged instances hold a dependency, the last one stays, with or without conflicts |
| NodeWalk.ResolvedIsComplete | pkg/engine/resolve/policy_resolver.go:161-321 | A resolved dependency leaves exactly the instances reachable from its root, all held by it, with their edge targets and parent services, and has one root at depth 0, if and only if each service it visits has a visit without a criteria error |
| NodeWalk.HeldIff | pkg/engine/resolve/policy_resolver.go:305-318 | It holds all components of its resolution, and exactly the services with a visit without a criteria error |
| NodeWalk.FewerLeft | pkg/engine/resolve/policy_resolver.go:231-236 | The path has no repetitions, so each deeper node has fewer services left to visit |
| NodeWalk.PathNotRecorded | pkg/engine/resolve/policy_resolver.go:231-236 | Below a service on the path that service is not recorded again |
| NodeWalk.RootRecordedIffNoCriteriaError | pkg/engine/resolve/policy_resolver.go:252-257 | A successful walk has recorded the root if and only if none of the criteria evaluated in the visit to it fails |
| NodeWalk.ParentClosedIff | pkg/engine/resolve/policy_resolver.go:252-257 | Its consumers are closed under parents if and only if each service with a matching component has a visit without a criteria error |
| NodeWalk.CriteriaErrorSwallowed | pkg/engine/resolve/policy_resolver.go:254-257 | A criteria error at the first component: success, and a root without consumers |
| WalkWitnesses.NestedErrorBreaksClosure | pkg/engine/resolve/policy_resolver.go:252-257 | A criteria error in a nested service: success, a root that is held, and a component that is held although its service is not |
| WalkWitnesses.ResolvedCycle | pkg/engine/resolve/policy_resolver.go:231-236 | A walk that meets no service twice on a path, and leaves a cycle of edges |
| WalkShapes.ResolvedIsSettled | pkg/util/nestedmap.go:184-249 | Every instance of a resolution is filed under its key, without errors, held by no other dependency, and has exactly the parameters that its templates have |
| WalkTrace.NodeIsReplay | pkg/engine/resolve/policy_resolver.go:161-321 | A walk records exactly the events of its trace, in order, until one of them is refused |
| WalkContents.ResolvesIff | pkg/engine/resolve/policy_resolver.go:161-321 | A dependency resolves if and only if its trace meets no error and no cycle, and nothing is evaluated for an instance that differs from parameters, not empty, evaluated for it before |
| WalkContents.ResolvedAsTraced | pkg/engine/resolve/component_instance.go:137-188 | Every field of every instance of a resolution in terms of the events about it: edges, code or not, the first parameters that are not empty, the last depth |
| WalkEvaluated.EvaluatedIsStored | pkg/engine/resolve/policy_resolver_node.go:343-375 | Each time a component matches in a visit, the discovery parameters, and the code parameters or the service of its contract, evaluated in the scope of that moment, are exactly what its instance has |
| WalkEvaluated.StoredIsTaken | pkg/engine/resolve/policy_resolver.go:250-303 | And nothing else is there: each component instance and each edge comes from such a visit |
| WalkEvaluated.DifferentEvaluationsFail | pkg/engine/resolve/component_instance.go:145-178 | A walk that evaluates discovery or code parameters of a component in two ways fails |
| WalkShapes.StratifiedDescends | pkg/engine/resolve/policy_resolver.go:238-303 | If services only call services of a lower level, all edges lead to lower ranks |
| Resolver.PolicyResolver.ResolveNode | pkg/engine/resolve/policy_resolver.go:161-321 | The walk that updates a shared resolution in place leaves what the walk on values says, and terminates |
| Resolver.PolicyResolver.ResolveComponent | pkg/engine/resolve/policy_resolver_node.go:343-375 | Records discovery and code parameters or walks on, as the walk on values says |
| Resolver.PolicyResolver.CombineData | pkg/engine/resolve/policy_resolver.go:138-157 | Merges the resolution of a dependency unless it failed |
| Resolver.PolicyResolver.ResolveAllDependencies | pkg/engine/resolve/policy_resolver.go:84-114 | In some order of completion, the merge of the resolutions of the dependencies that resolve |
| DesiredState.MergeKeepsClosure | pkg/engine/resolve/policy_resolution.go:72-81 | A merge of closed resolutions without errors in the result keeps edge targets, parent services with their edges, and the closure of consumers under parents |
| DesiredState.MergedConsumers | pkg/engine/resolve/policy_resolution.go:72-81 | The consumers of a merged instance are those it has in any of the resolutions, errors or not |
| DesiredState.CompletionOrderIrrelevant | pkg/engine/resolve/policy_resolver.go:84-157 | Whatever the order in which the goroutines complete: the same instances, consumers, depths and errors, and without error the same edges and parameters |
| DesiredState.DesiredStateClosed | pkg/engine/resolve/policy_resolver.go:84-114 | The desired state without conflicts, of dependencies that visit each service once without a criteria error, meets the assumptions of the comparison and of the retries |
| DesiredState.DesiredStateDescends | pkg/engine/resolve/policy_resolver.go:84-157 | If services only call services of a lower level, the merged edges lead to lower ranks, with or without conflicts |
| DesiredState.DependencyHasOneRoot | pkg/engine/resolve/policy_resolution.go:84-104 | The merged resolution has at most one root for a dependency, that of its own walk, and resolves it exactly if the walk succeeded, no criteria failed in the visit to the root, and no instance it holds is in conflict |
| DesiredEvaluated.DesiredIff | pkg/engine/resolve/policy_resolver.go:84-157 | The desired state has an instance if and only if the walk of some dependency that resolves has come to it |
| DesiredEvaluated.DesiredDepths | pkg/engine/resolve/policy_resolution.go:38-42 | Its consumers are the dependencies that have recorded it, at the depth recorded last |
| DesiredEvaluated.ConflictIff | pkg/engine/resolve/component_instance.go:202-233 | It is in conflict if and only if two dependencies have evaluated parameters differently for it |
| DesiredEvaluated.DesiredIsEvaluated | pkg/engine/resolve/component_instance.go:202-241 | Without conflict it has the parameters that each walk has evaluated for it each time, is code if any says so, and has exactly the edges that some walk has made |
| DesiredEvaluated.PolicyIsDesired | pkg/engine/resolve/policy_resolver_node.go:343-375 | Whenever a component matches in a visit of a dependency, the desired state has an instance of it, held by the dependency, with the parameters evaluated then unless it is in conflict |
| DesiredEvaluated.NoEndpointsDesired | pkg/engine/resolve/component_instance.go:90-110 | No instance of the desired state has endpoints |
| Generations.GenStrOrder | pkg/runtime/store/generic/bolt/bolt.go:301-303 | Padded generations are ordered as strings exactly as they are as numbers, over all 64-bit values |
| BoltStore.PathInjective | pkg/runtime/store/generic/bolt/bolt.go:186-233 | A path belongs to one key and one generation |
| BoltStore.PrefixIsKey | pkg/runtime/store/generic/bolt/bolt.go:97-98 | The prefix scan meets the objects of exactly the given key |
| BoltStore.BoltStore.GetGen | pkg/runtime/store/generic/bolt/bolt.go:86-121 | Finds the object of a generation, and for the last generation the one with the greatest number |
| BoltStore.BoltStore.Get | pkg/runtime/store/generic/bolt/bolt.go:58-84 | Reads the entry of an object without versions |
| BoltStore.BoltStore.SaveObject | pkg/runtime/store/generic/bolt/bolt.go:181-253 | Stores what the rules for new, equal, changed and deleted objects say, or refuses; what is stored is the object given, up to its generation, and no other entry changes |
| BoltStore.UpdatedInPlace | pkg/runtime/store/generic/bolt/bolt.go:213-249 | An update of what is stored is read back under the generation found, is not reported as a change, adds no generation and alters no other entry |
| BoltStore.ChangedIsNext | pkg/runtime/store/generic/bolt/bolt.go:155-171 | A change to any stored generation becomes the one after the last |
| BoltStore.UnchangedStays | pkg/runtime/store/generic/bolt/bolt.go:213-225 | Saving what is stored already changes nothing and is not reported as a change |
| BoltStore.NewIsStored | pkg/runtime/store/generic/bolt/bolt.go:226-231 | What is not stored yet becomes the first generation, or the one it names, and is read back |
| BoltStore.RefusedIff | pkg/runtime/store/generic/bolt/bolt.go:202-211 | Saving is refused if and only if the object is marked as deleted and its kind cannot be or it is not stored |
| BoltStore.UnversionedReadBack | pkg/runtime/store/generic/bolt/bolt.go:234-249 | An object without versions is read back as it was saved or updated last |
| BoltStore.SaveAltersIff | pkg/runtime/store/generic/bolt/bolt.go:213-249 | Saving alters a stored entry if and only if the generation wraps around onto it |
| BoltStore.SavedIsLast | pkg/runtime/store/generic/bolt/bolt.go:155-171 | A saved change is the last generation, one after the previous one; nothing is reported as changed otherwise |
| PolicyData.PolicyData.Add | pkg/engine/policy_data.go:58-70 | Refers to the generation for this object and leaves the other references alone |
| PolicyData.PolicyData.Remove | pkg/engine/policy_data.go:73-86 | Drops the reference and says whether there was one |
| PolicyData.KeysDiffer | pkg/runtime/key.go:14-28 | Different objects have different keys |
| PolicyStore.SnapshotsImmutable | pkg/runtime/store/core/policy.go:71-178 | Over any run of updates and deletions, successful or not, nothing stored is altered, so every policy generation keeps its value |
| PolicyStore.UpdateCall | pkg/runtime/store/core/policy.go:71-114 | An update keeps index and store in agreement, adds one policy generation exactly if it changed something, and overrides the policy |
| PolicyStore.DeleteCall | pkg/runtime/store/core/policy.go:141-178 | The same for a deletion, which succeeds exactly if all objects are known and takes them out of the policy; otherwise the policy data stay |
| PolicyStore.MarkedOnlyRemoved | pkg/runtime/store/core/policy.go:151-164 | Objects already marked as deleted are only removed from the policy data |
| PolicyRuns.RunKeepsAgreement | pkg/runtime/store/core/policy.go:71-178 | Over any run of calls in which each deletion is of objects known by then, index and store agree, and the policy generation has grown by the number of changing calls |
| PolicyRuns.RunSucceedsIff | pkg/runtime/store/core/policy.go:71-178 | All calls of a run succeed if and only if each deletion is of objects stored at the beginning or given in an update before |
| PolicyRuns.FailedUpdateAgreesIff | pkg/runtime/store/core/policy.go:84-99 | After an update that fails at a refused object, index and store agree if and only if every object before it was in force as it is given |
| PolicyRuns.FailedUpdateLosesObjects | pkg/runtime/store/core/policy.go:84-99 | Updating again with the objects before the refused one reports no change and changes nothing |
| PolicyRuns.FailedDeletionAgreesIff | pkg/runtime/store/core/policy.go:151-164 | After a deletion that fails at an unknown object, index and store agree if and only if every object before it was out of force |
| PolicyStore.InitPolicyAgrees | pkg/runtime/store/core/policy.go:117-138 | Agreement holds from the first policy on |
| PolicyStore.RebuiltPolicyIsInForce | pkg/runtime/store/core/policy.go:31-68 | What is rebuilt from the last policy data are the contents of the objects in force, and no others |
| PolicyStore.DefaultStore.GetPolicyFromData | pkg/runtime/store/core/policy.go:31-58 | The nested loops over namespaces, kinds and names succeed exactly if every reference leads to a stored language object, and then give what the references lead to |
| PolicyStore.DefaultStore.UpdatePolicy | pkg/runtime/store/core/policy.go:71-114 | The loop over the store in place does what the specification of the call says |
| PolicyStore.DefaultStore.DeleteFromPolicy | pkg/runtime/store/core/policy.go:141-178 | The same for the deletion |
| RevisionQueue.QueueInOrder | pkg/server/desired_state_enforcer.go:57-188 | In every interleaving of admissible requests with the enforcer, its crashes and retries: policy generations are monotone, finished revisions come first, no revision is started while a lower one is unfinished or after a higher one |
| RevisionQueue.RequestKeepsOrderIff | pkg/api/actualstate.go:93-109 | A request to enforce the state keeps the order if and only if the policy generation it has read is not behind that of the last revision |
| RevisionQueue.OrderedIffAdmissible | pkg/api/actualstate.go:44-109 | Over a whole run, policy generations stay in order if and only if all requests are of that kind |
| RevisionQueue.AtomicInOrder | pkg/api/actualstate.go:44-109 | Requests that read the policy generation inside the mutex are |
| RevisionQueue.StaleRequestBreaksOrder | pkg/api/actualstate.go:44-101 | Without atomic requests a state is reachable whose policy generations are not monotone, with a finished revision after an unfinished one |
| RevisionQueue.CompletedAsCounted | pkg/server/desired_state_enforcer.go:112-168 | A revision that is picked and comes to its end is completed with exactly the actions counted since, whatever its result was before and whatever requests come meanwhile |
| RevisionQueue.ChangeIsQueued | pkg/runtime/store/core/revision.go:30-60 | The second half of a policy change adds a waiting revision for the policy generation saved in the first |
| RevisionStore.UpdateStored | pkg/runtime/store/core/revision.go:63-70 | UpdateRevision puts the new value in the place of the old one and leaves all other revisions alone |
| RevisionStore.AddStored | pkg/runtime/store/core/revision.go:30-60 | NewRevision stores the next generation |
| RevisionStore.QueueIsStored | pkg/server/desired_state_enforcer.go:94-175 | Over any run the store has exactly the revisions of the queue |
| RevisionQueue.GetRevisionForProcessing | pkg/server/desired_state_enforcer.go:57-90 | The lowest revision that is waiting or in progress; with none, the last one of the policy if and only if it has ended in an error or has failed actions |
| RevisionQueue.GetFirstUnprocessedRevision | pkg/runtime/store/core/revision.go:116-138 | The scan finds the unfinished revision with the least generation |
| RevisionQueue.GetLastRevisionForPolicy | pkg/runtime/store/core/revision.go:73-94 | The scan finds the revision of the policy with the greatest generation |
| TopoSort.Service.GetComponentsSortedTopologically | pkg/lang/service.go:130-148 | With unique names: a permutation with dependencies first, or an error, exactly if a dependency is missing or there is a cycle; the error names a missing dependency, or a component on a cycle; computed once |
| TopoSort.Service.DfsComponentSort | pkg/lang/service.go:105-126 | The search places a component after all it depends on, or there is a missing dependency or a cycle; it terminates |
| TopoSort.OrderExcludes | pkg/lang/service.go:105-126 | An order of all components leaves no missing dependency and no cycle |
| OnceInit.OnceOnly | pkg/util/sync/init.go:20-54 | For any threads and interleaving: one run at most, the fast path reads the final error, all calls return the same result, nil exactly after a return and otherwise the error that tells a failure or a panic |
| OnceInit.FinalForGood | pkg/util/sync/init.go:22-33 | Once done is set, nothing changes any more |
| OnceInit.SomeoneCanGoOn | pkg/util/sync/init.go:27-33 | No deadlock |
| DeployedStatus.DependenciesStatus.FetchDeploymentStatusForDependencies | pkg/api/dependency.go:129-194 | A dependency stays deployed exactly if no pending action affects it and no endpoints of its code are stale |
| DeployedStatus.RunVisitsAll | pkg/api/dependency.go:129-183 | Under every schedule that returns, each action of the plan is visited, exactly once |
| DeployedStatus.DeployedIff | pkg/api/dependency.go:129-194 | A dependency that is asked for stays deployed if and only if it is on the same instances in both states, none of these is outdated or the parent of an outdated one, none is attached to or detached from a dependency not asked for, and its code has endpoints that are up to date |
| DeployedStatus.DeployedIsDeployed | pkg/api/dependency.go:129-194 | In particular it sits on the same instances in both states, with equal parameters and up-to-date endpoints of its code |
| DeployedStatus.OrderIrrelevant | pkg/api/dependency.go:132-183 | The order in which the pending actions are visited does not matter |

## Left out

- SchedulerDeterminism.SchedulesAgree: requires that the failure mark is part of the decrement, or that no failing node has a waiter, because the code's separate critical section makes it false (see SchedulerAgreement.AgreeIffMarksInTime).
- SchedulerDeterminism.RunsIffNothingBelowFailed: requires the same, for the same reason.
- SchedulerDeterminism.ReturnedAsForetold: requires the same; with the marks as coded SchedulerFineGrain.SkippedOrRan says what remains.
- SchedulerAgreement.AgreeIffMarksInTime: assumes that the waiting nodes have actions; whether a failure missed by a node without actions shows further up depends on the order of the edges.
- Retry.InTimeRetriesEnd: is about the comparison with the actual state (not RecalculateAll, which always compares with an empty state and may retry forever).
- Convergence.ApplyConverges: assumes that services with outdated components are in use, since the update of a service may otherwise come before its creation; Retry.LuckyPassesConverge does without.
- Merge.MergeOrderIndependent: does not cover labels and plugin data, of which the last merge wins, nor edges and parameters of instances in conflict.
- Resolution.ComponentInstance.AppendData: leaves out labels and plugin data, which never cause an error.
- Resolution.PolicyResolution.RecordResolved: leaves out the rule results kept for plugins.
- NodeWalk.ResolvedIsComplete: assumes that no component is named like the service entry, and that the policy has finitely many service keys.
- PolicyStore.UpdateCall: is about objects of generation 0 that are not marked as deleted, with proper names; generations are taken to be far from 2^64.
- PolicyStore.DefaultStore.GetPolicyFromData: adds an object to the policy without its namespace index and ACL cache.
- Expressions, templates, YAML, rules, label operations and access control: the resolver's oracle and structural equality stand for them.
- Cloud plugins and failures of the database: an outcome per action; the store module itself does not fail.
- The limit on concurrent actions and the resolver's semaphore: they only delay goroutines.
- The resolver's goroutines are modelled by the order in which they complete; their walks share nothing but caches.
- The goroutine calls of `componentsMapOnce` and `componentsOrderedOnce`: the sort is modelled sequentially.
- Depths of dependencies in the actual state: the comparison looks at keys only, so the depth of a consumer that stays may be stale.
- Timestamps, event logs, metrics, the endpoints themselves, readiness checks and the HTTP layer.
- Two updaters of the actual state at once: they are not synchronised with each other.
- Objects without versions share the bucket under generation 0; deleting them and listing by prefix is not modelled.
- An action's panic counts as its failure.
