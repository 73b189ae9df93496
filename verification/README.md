# Milton Prism: a verified model

Milton Prism analyses a monolith, scores how well it can be split into services, proposes service
boundaries, and takes a migration through its life up to generation and push. This project models
the deterministic engine and the protocols around it in Dafny and proves what they promise.

| part | modules |
|---|---|
| cycle detection (Tarjan's strong components) | `Graphs`, `Tarjan`, `TarjanCall`, `Cycles`, `CycleFindings` |
| generation worker: retry loop and concurrent run | `Retry`, `Generation`, `GenerationSafety`, `FilteredRuns` |
| migration life cycle | `Lifecycle`, `LifecycleSafety`, `LifecycleEntries`, `MigrationService`, `PathConflicts` |
| identifier counter | `Identifiers` |
| digest, hubs, top-K cut | `Digests`, `Enrichment`, `Distiller`, `DigestLaws`, `GodModules` |
| score, roadmap, details | `Penalties`, `Scorer`, `HubShares`, `ScoreCounts`, `ActionPlan`, `DetailText`, `Roadmaps` |
| service candidates, plan, guardrail, whole decomposition | `Services`, `Plans`, `Guardrail` |
| model-proposed clusters | `Clusterer` |
| technologies and versions | `Technologies`, `Versions` |
| strings, sorting, optional values | `Text`, `TextLaws`, `Ordering`, `Wrappers` |

`dafny verify dfyconfig.toml` checks everything.

## Conventions

- Go's `sort.Slice` is not stable; callers of `Ordering.Sort` learn only that the result is a sorted
  permutation. Strings compare by code point, which is the order of their UTF-8 bytes.
- Closures and objects that the source updates are classes (`CycleSearch`, `Service`, `Database`,
  `Stage`); the hand-written insertion sort works on an array.
- Concurrency is interleaving of atomic steps: one database operation, or one transition of a
  goroutine. Life-cycle use cases and worker writes are one atomic event each.
- Calls to other systems (store, agent, language model, allocator, clock) appear as parameters that
  decide their outcome, so theorems hold for all outcomes. Every record write of a generation run may
  fail; `NothingLost` names the runs in which no service's last record was lost.
- `uint32` additions wrap explicitly; ratios are reals.

## Where code and comments differ

- The shipped MongoDB adapters write a plan and the final state of a generation whatever the state of
  the migration is (core/worker/decomposition/infrastructure/adapters/mongo_plan_writer.go:57-64,
  core/worker/generation/infrastructure/adapters/mongo_migration_state_updater.go:37-46), while the
  ports name the states they start from. Safety of the life cycle is proved for the port contracts;
  `ShippedTerminalIff` gives the exact writes on which the shipped adapters break it,
  `CancelledBecomesReady` an example, and `NoStrayReplaysAlike` the histories on which they do not.
- On a failed dispatch the migration is said to be rolled back to PENDING and so to remain retryable
  (core/services/migration/application/service.go:175-176), but the error of the rollback write is
  dropped: `StrandedStart` is a history that leaves a migration in ANALYZING, where it cannot be started
  again, and `StartMeaning` says that a refused start changes nothing if and only if it never reached the
  handover or the rollback worked.
- A service outside the filter is said not to count towards READY or FAILED
  (core/worker/generation/application/pipeline.go:109-111), but the decision reads all records:
  `ForeignFailureDecides` is a run that an old Failed record of such a service makes FAILED.
  `FilterHonouredInRun` gives the exact condition for one run, and `FilterHonouredIff` for a
  configuration: every run honours the filter if and only if there is no such record, or a selected
  service is bound to fail.
- "READY only if every service is done" (same file, 181-182) fails when the write of a last record is
  lost, which the code only logs: `ReadyWithoutDone` is such a run, and `ReadyMeansDoneIff` says that
  READY means done if and only if no Reject, Refuse or Persist write was lost.
- The penalty ramp is said to fall strictly below 0.30 (core/worker/decomposition/application/scorer.go:28-30).
  Rounding makes it non-strict: `DomainNotStrict` has two ratios of equal penalty, and `DomainStrictIff`
  says that the penalty falls if and only if the step passes one of forty thresholds.
- The ecosystem priority list (core/worker/analysis/application/pipeline.go:844) is not what the loop
  does: `PriorityIgnored` has a list on which it is not followed, and `PriorityFollowedIff` says that it
  is followed if and only if Composer occurs or the strongest ecosystem is the first known one.
- God-modules are said always to be among the 250 cards the score looks at
  (core/worker/decomposition/application/scorer.go:225-228): `GodBelowTheCut` is a repository whose
  god-module is not, and `GodSeenIff` says that one is seen if and only if fewer than 250 cards rank
  before it.
- The worst hub's share is said to stay in [0, 1) whatever the weights are (same file, 168-169). The
  denominator is a uint32: `HubShareWraps` has two shares outside, and `HubShareIff` says that it stays
  inside if and only if the sum does not wrap around. More fan-in with even more nodes is said to lower
  it (46-48): `HubShareRises` is a pair for which it rises, and `HubShareFallsIff` the exact condition.
- One step per active signal (core/services/migration/application/service.go:844-844): an active signal
  that is not known has none (`ProblemWithoutStep`); `OneStepPerProblemIff` is the exact condition.
- Merging into an empty list is said to give a copy (core/worker/analysis/application/merge_technologies.go:17):
  `NilMergeJoins` is a list of which it does not, and `NilMergeCopiesIff` says that it does if and only if
  the keys are unique.
- Pre-release and build suffixes are said to be stripped before versions are compared
  (core/worker/analysis/application/pipeline.go:783-785). The text is split at dots first, so the suffix
  `+build.1` named there counts: `BuildSuffixCounts`. `SuffixIgnoredIff` says that a suffix is stripped if
  and only if what follows its dots reads as zero.
- Without test modules the production fan-in is said to stay zero (same file, 668-670); it equals the
  fan-in: `ProductionNotZero`, `NoTestsAllProduction`.
- The stored hubs are said to be in the distiller's order (same file, 722). Ties differ:
  `TiedHubsDiffer` has two, and `HubOrdersAgreeIff` says that the lists are equal if and only if hubs of
  equal fan-in are stored by name.
- A deletion is said to need PUSHED, FAILED or CANCELLED
  (core/services/migration/application/service.go:154-155); RESTRUCTURING_READY will do as well:
  `DeletableIff`.
- Model proposals are said to pass a shared-state guardrail besides validation
  (core/worker/decomposition/application/llm_clusterer.go:39-40). There is none; `ClusterModules` states
  what validation alone guarantees.

## Model

| member | source | states |
|---|---|---|
| `Cycles.BuildAdjacency` | core/worker/decomposition/application/cycles.go:25-38 | adjacency lists and node set of the self-loop-free graph |
| `Cycles.GraphOfArcs` | core/worker/decomposition/application/cycles.go:25-35 | the graph has an arc exactly between distinct modules joined by some edge |
| `Cycles.CycleSearch.Open` | core/worker/decomposition/application/cycles.go:60-64 | numbering and pushing a node; the maps and the stack stay in agreement |
| `Cycles.CycleSearch.PopThrough` | core/worker/decomposition/application/cycles.go:80-89 | the pop loop removes exactly the stack segment down to the node |
| `Cycles.CycleSearch.Visit` | core/worker/decomposition/application/cycles.go:66-77 | one successor: the lowlink bookkeeping keeps the search invariant, nested call included |
| `Cycles.CycleSearch.Finish` | core/worker/decomposition/application/cycles.go:79-94 | a root emits exactly its component, any other node stays stacked; the invariant is kept |
| `Cycles.CycleSearch.StrongConnect` | core/worker/decomposition/application/cycles.go:59-95 | a whole call keeps the invariant of the search and reports the lowest stacked index its subtree reaches |
| `Cycles.CycleSearch.Run` | core/worker/decomposition/application/cycles.go:97-101 | every node is numbered in exactly one call and the stack ends empty |
| `Tarjan.PushKeepsInv` | core/worker/decomposition/application/cycles.go:60-64 | starting a call keeps: stack ordered, stacked nodes reach those above and an active node, popped region closed |
| `Tarjan.RetireKeepsInv` | core/worker/decomposition/application/cycles.go:79-79 | a call that found an older stacked node leaves a correct state without emitting |
| `Tarjan.SegmentIsComponent` | core/worker/decomposition/application/cycles.go:79-89 | when lowlink equals index, the stack segment is a maximal mutually reachable set |
| `Tarjan.EmitKeepsInv` | core/worker/decomposition/application/cycles.go:79-94 | popping the segment keeps the invariant and accounts for every popped node |
| `CycleFindings.MakeFinding` | core/worker/decomposition/application/cycles.go:108-126 | severity high exactly for three members or a domain module; size and modules recorded |
| `CycleFindings.DetectCycles` | core/worker/decomposition/application/cycles.go:21-129 | the findings are exactly the strong components of size two or more: each maximal, sorted, once, none missing, pairwise disjoint |
| `CycleFindings.FindingSays` | core/worker/decomposition/application/cycles.go:108-126 | size and severity of every reported cycle |
| `CycleFindings.NoFindingsIffAcyclic` | core/worker/decomposition/application/cycles.go:103-105 | there is nothing to report if and only if the graph has no cycle |
| `CycleFindings.CountHigh` | core/worker/decomposition/application/scorer.go:409-414 | the counting loop over high-severity cycle findings |
| `CycleFindings.HighCountMeaning` | core/worker/decomposition/application/scorer.go:367-420 | the count of `blocker.cycles` is the number of components with three members or a domain module |
| `CycleFindings.HighComponentsStable` | core/worker/decomposition/application/cycles.go:13-15 | the number of counted components depends only on which modules are linked |
| `CycleFindings.FindingsStable` | core/worker/decomposition/application/cycles.go:13-15 | edge lists with the same links give the same findings: module lists, order inside them and severities |
| `CycleFindings.SameEdgesSameLinks` | core/worker/decomposition/application/cycles.go:13-15 | permuting or repeating edges changes no link |
| `Retry.TransientTest` | core/worker/generation/application/pipeline.go:83-94 | an invoker error is transient, and so is a reason that names one of the six rate-limit phrases in any letter case; nothing else is |
| `Retry.GenerateService` | core/worker/generation/application/pipeline.go:237-309 | one to three calls: after an invoker error, or a failed gate whose reason names a rate limit, the next one is made unless the context ends; after any other answer none is; the record with its counters and the artifacts are those of the last call |
| `Retry.FinalRecordMeaning` | core/worker/generation/application/pipeline.go:285-298 | the record is Done if and only if the last call succeeded; a cut backoff always records Failed |
| `Retry.FinalRecordSays` | core/worker/generation/application/pipeline.go:274-298 | status, gates, reason and counters of the record in terms of the last answer and the cancellation |
| `Retry.ClosedLogAnswers` | core/worker/generation/application/pipeline.go:242-270 | the calls made are exactly those the answers call for |
| `TextLaws.ContainsMeans` | core/worker/generation/application/pipeline.go:87-93 | a text contains another exactly when it reads as something before, the other, something after |
| `TextLaws.LowerMeans` | core/worker/generation/application/pipeline.go:87-87 | lowering turns ASCII capitals into small letters and keeps the rest of ASCII |
| `Generation.SelectServices` | core/worker/generation/application/pipeline.go:112-127 | the service filter |
| `Generation.KeepMembers` | core/worker/generation/application/pipeline.go:119-123 | exactly the named services are selected |
| `Generation.SelectedMembers` | core/worker/generation/application/pipeline.go:112-127 | everybody without a filter, exactly the named services with one |
| `Generation.SelectedDistinct` | core/worker/generation/application/pipeline.go:112-127 | selecting keeps names distinct |
| `GenerationSafety.InFlightBounded` | core/worker/generation/application/pipeline.go:140-177 | in every interleaving at most `concurrency` agent calls are in flight |
| `GenerationSafety.CallsBounded` | core/worker/generation/application/pipeline.go:242-270 | in every interleaving the call log of each service obeys the retry rule |
| `GenerationSafety.AnswerDecidesStep` | core/worker/generation/application/pipeline.go:261-270 | in the interleaved run an invoker error or a rate-limited gate among the first two answers leads to a backoff, any other answer to the final record |
| `GenerationSafety.CallsByAnswers` | core/worker/generation/application/pipeline.go:242-270 | in every interleaving the calls of a finished service are exactly those its answers call for |
| `GenerationSafety.BackoffStep` | core/worker/generation/application/pipeline.go:244-256 | a cut backoff fails with the context's error, a complete one leads to the next call |
| `GenerationSafety.WrittenRecords` | core/worker/generation/application/pipeline.go:148-174 | what each record write stores, and that no other step writes |
| `GenerationSafety.WrittenArtifacts` | core/worker/generation/application/pipeline.go:304-308 | the captured files are stored exactly when the last answer has any |
| `GenerationSafety.StepKeepsDone` | core/worker/generation/application/pipeline.go:133-147 | with distinct names no step of any goroutine touches a Done record |
| `GenerationSafety.RunKeepsDone` | core/worker/generation/application/pipeline.go:133-147 | a Done record stays as it is until the run ends |
| `GenerationSafety.LaterRunsKeepDone` | core/worker/generation/application/pipeline.go:129-147 | a Done record survives any sequence of later runs |
| `GenerationSafety.UnselectedUntouched` | core/worker/generation/application/pipeline.go:109-111 | records of services outside the selection never change |
| `GenerationSafety.DecisionRule` | core/worker/generation/application/pipeline.go:193-211 | READY is announced if and only if no persisted record is Failed |
| `GenerationSafety.DecidesOnceAtTheEnd` | core/worker/generation/application/pipeline.go:181-213 | exactly one of MarkReady and MarkFailed is called, in the last step of the run and in no other, whether or not that call works; neither when the final listing fails |
| `GenerationSafety.DecisionMeaning` | core/worker/generation/application/pipeline.go:181-211 | with distinct names and no last record lost, every selected service ends Done or Failed, and READY means all of them Done and no other record Failed |
| `GenerationSafety.EndedRecord` | core/worker/generation/application/pipeline.go:141-177 | on any store, a service ends Done if and only if it was Done before or its last call succeeded and the record was written; unless that write was lost it ends Done or Failed |
| `GenerationSafety.ReadyWithoutDone` | core/worker/generation/application/pipeline.go:181-182 | READY does not imply Done when a last record is lost: a concrete run |
| `GenerationSafety.ReadyMeansDoneIff` | core/worker/generation/application/pipeline.go:150-211 | a READY run has every selected service Done if and only if no write of a last record was lost; lost `generating` and artifact writes do not matter |
| `GenerationSafety.VerdictRule` | core/worker/generation/application/pipeline.go:181-211 | READY is announced if and only if no selected service is Failed and no other one has an old Failed record |
| `GenerationSafety.FilterHonouredInRun` | core/worker/generation/application/pipeline.go:109-111 | the verdict of a run is that of the selected services alone if and only if one of them failed or no other one has an old failure |
| `GenerationSafety.AllDoneVerdict` | core/worker/generation/application/pipeline.go:109-111 | so a run whose selected services are all Done is READY if and only if no service outside the selection has an old Failed record |
| `GenerationSafety.ForeignFailureDecides` | core/worker/generation/application/pipeline.go:109-111 | a run in which such a record makes the migration FAILED |
| `FilteredRuns.FilterHonouredIff` | core/worker/generation/application/pipeline.go:109-211 | in every run the verdict is that of the selected services alone, if and only if no other service has an old failure or a selected one failed before and cannot be generated |
| `FilteredRuns.QuietRun` | core/worker/generation/application/pipeline.go:129-211 | unless a selected service is bound to fail there is a run in which none ends Failed |
| `GenerationSafety.RunsTerminate` | core/worker/generation/application/pipeline.go:140-179 | no interleaving is infinite: at most 13 steps per service and 2 more |
| `GenerationSafety.NeverStuck` | core/worker/generation/application/pipeline.go:140-179 | an undecided run can always go on by itself unless the semaphore has no room for anybody, everything is spawned and a service waits |
| `GenerationSafety.OnlyCancelIffStuck` | core/worker/generation/application/pipeline.go:73-73 | in exactly that case nothing but a cancellation can happen |
| `MigrationService.Service.UpdateState` | core/services/migration/infrastructure/repositories/mongo_migration_repository.go:154-168 | writes the state of a visible migration and nothing else |
| `MigrationService.Service.CreateMigration` | core/services/migration/application/service.go:84-123 | the checks in their order, each with its error; a valid request whose calls succeed becomes a PENDING record with the fetched URL, anything else changes nothing |
| `MigrationService.Service.StartMigration` | core/services/migration/application/service.go:177-193 | the new repository and the answer are those of the life-cycle model |
| `MigrationService.Service.StartWithReuse` | core/services/migration/application/service.go:197-267 | validation, probe, state write, adoption and rollback of the reuse path |
| `MigrationService.Service.StartNormal` | core/services/migration/application/service.go:271-293 | probe, state write, dispatch and rollback of the normal path |
| `MigrationService.Service.ApproveDesign` | core/services/migration/application/service.go:301-332 | the gates in their order, GENERATING or CANCELLED, and the error told to the caller |
| `MigrationService.Service.CancelMigration` | core/services/migration/application/service.go:481-497 | only a non-terminal migration is cancelled |
| `MigrationService.Service.DeleteMigration` | core/services/migration/application/service.go:156-168 | only a terminal migration is deleted |
| `MigrationService.Service.GenerateRestructuringRoadmap` | core/services/migration/application/service.go:775-822 | a qualifying migration gets the roadmap assembled from its assessment, or from the stored score, and RESTRUCTURING_READY in one write |
| `MigrationService.Service.EnrichRoadmap` | core/services/migration/application/service.go:386-413 | only a RESTRUCTURING_READY migration with a non-empty action plan is enriched; every refusal has its error |
| `MigrationService.Service.GenerateBlueprint` | core/services/migration/application/service.go:420-450 | the same with the analysis summary checked between state and roadmap |
| `MigrationService.Service.PublishMigration` | core/services/migration/application/service.go:558-605 | conflict gate, push, and PUSHED only after a successful push |
| `LifecycleSafety.StartMeaning` | core/services/migration/application/service.go:170-293 | a start succeeds if and only if it reaches the handover and that works; a refused one leaves the migration as it was, and so retryable, if and only if it never reached the handover or the rollback worked |
| `LifecycleSafety.StrandedStart` | core/services/migration/application/service.go:175-176 | a history in which a start is refused, the migration stays in ANALYZING and cannot be started again |
| `LifecycleSafety.RefusalChangesNothing` | core/services/migration/application/service.go:84-605 | a use case that answers with an error has changed nothing, if and only if it is not a start whose handover and rollback both failed |
| `LifecycleSafety.DeletableIff` | core/services/migration/application/service.go:154-168 | a migration can be deleted in exactly the four terminal states, RESTRUCTURING_READY included |
| `LifecycleSafety.GeneratingOnlyByApproval` | core/services/migration/application/service.go:309-324 | an event moves a migration into GENERATING if and only if it is an approval that passes both gates |
| `LifecycleSafety.RestructuringOnlyByRoadmap` | core/services/migration/application/service.go:783-820 | an event moves a migration into RESTRUCTURING_READY if and only if it stores a roadmap for a qualifying migration |
| `LifecycleEntries.EntersPending` | core/services/migration/application/service.go:84-123 | PENDING is entered exactly by an accepted creation |
| `LifecycleEntries.EntersAnalyzing` | core/services/migration/application/service.go:232-293 | ANALYZING exactly by a start that hands over a new analysis, or that can neither hand over nor roll back |
| `LifecycleEntries.EntersDesigning` | core/services/migration/application/service.go:197-267 | DESIGNING exactly by adopting an analysis, at the start or through the worker |
| `LifecycleEntries.EntersAwaitingApproval` | core/worker/decomposition/ports/ports.go:82-91 | AWAITING_APPROVAL exactly by a written plan |
| `LifecycleEntries.EntersReady` | core/worker/generation/ports/generation_ports.go:47-56 | READY exactly by the generation worker's success |
| `LifecycleEntries.EntersPushed` | core/services/migration/application/service.go:558-605 | PUSHED exactly by publishing conflict-free files of a READY migration, when push and write work |
| `LifecycleEntries.EntersFailed` | core/worker/generation/ports/generation_ports.go:47-56 | FAILED exactly by a failure reported for the stage the migration is in |
| `LifecycleEntries.EntersCancelled` | core/services/migration/application/service.go:318-324 | CANCELLED exactly by a saved cancellation of a migration that has not ended or a saved rejection at approval |
| `LifecycleEntries.NeverEntered` | core/services/migration/application/service.go:1009-1019 | TESTING is never entered and no migration loses its state |
| `LifecycleEntries.CreatedFields` | core/services/migration/application/service.go:104-116 | what a creation stores |
| `LifecycleEntries.FixedFields` | core/services/migration/application/service.go:84-123 | owner, source and target never change |
| `LifecycleEntries.PlanFields` | core/services/migration/ports/migration_repository.go:32-49 | plan and roadmap after any event |
| `LifecycleEntries.VerdictFields` | core/services/migration/application/service.go:337-470 | assessment and override after any event |
| `LifecycleEntries.AnalysisFields` | core/services/migration/application/service.go:197-267 | analysis, reuse flag and branch after any event |
| `LifecycleEntries.FlagFields` | core/services/migration/application/service.go:156-450 | deletion and roadmap flags after any event |
| `LifecycleEntries.SucceedsIff` | core/services/migration/application/service.go:156-822 | when each use case answers without an error |
| `LifecycleEntries.RefusedLookup` | core/services/migration/application/service.go:156-605 | a missing identifier, target or migration, in that order |
| `LifecycleEntries.RefusedApproval` | core/services/migration/application/service.go:312-317 | which gate refuses an approval: boundaries first, then the verdict |
| `LifecycleEntries.RefusedPublication` | core/services/migration/application/service.go:573-588 | no files, then disagreeing files |
| `LifecycleEntries.RefusedRoadmap` | core/services/migration/application/service.go:345-822 | the refusals of assessment, roadmap, enrichment and blueprint |
| `LifecycleEntries.WrongStateIff` | core/services/migration/application/service.go:156-822 | the states from which each use case is refused |
| `LifecycleEntries.ReuseRefusedIff` | core/services/migration/application/service.go:200-219 | which source analyses are refused, and how |
| `LifecycleEntries.CreationAnswers` | core/services/migration/application/service.go:84-123 | a creation succeeds exactly when accepted, else with the first check that fails |
| `LifecycleSafety.TerminalIsFinal` | core/services/migration/application/service.go:1009-1019 | under the port contracts no event leaves a terminal state |
| `LifecycleSafety.TerminalForever` | core/services/migration/application/service.go:1009-1019 | nor does any sequence of events |
| `LifecycleSafety.ReachableHealthy` | core/services/migration/ports/migration_repository.go:32-49 | in every reachable repository GENERATING, READY and PUSHED have a plan with boundaries, RESTRUCTURING_READY has a roadmap, only terminal migrations are deleted |
| `LifecycleSafety.GeneratedWasApproved` | core/services/migration/application/service.go:301-332 | in every history a migration in GENERATING, READY or PUSHED was approved with both gates passing |
| `LifecycleSafety.BlockedPlanNeverGenerates` | core/services/migration/application/service.go:312-314 | awaiting approval with a no-boundaries plan, a migration never reaches GENERATING, READY or PUSHED |
| `LifecycleSafety.ShippedAgreesIffNotStray` | core/worker/decomposition/infrastructure/adapters/mongo_plan_writer.go:56-64 | the shipped adapters keep the port contracts exactly on writes that find the expected state |
| `LifecycleSafety.ShippedTerminalIff` | core/worker/generation/infrastructure/adapters/mongo_migration_state_updater.go:37-46 | with the shipped adapters a terminal state is left exactly by a late worker write |
| `LifecycleSafety.NoStrayReplaysAlike` | core/worker/generation/infrastructure/adapters/mongo_migration_state_updater.go:37-46 | a history without late writes is the same under both, so every theorem applies to it |
| `LifecycleSafety.CancelledBecomesReady` | core/worker/generation/infrastructure/adapters/mongo_migration_state_updater.go:29-46 | a history from the empty repository in which a cancelled migration becomes READY |
| `PathConflicts.CollectEntries` | core/services/migration/application/service.go:693-703 | the entry per path: first content, and services that disagree with it |
| `PathConflicts.CollectedFaithful` | core/services/migration/application/service.go:693-703 | an entry lists a second service exactly when some file disagrees with the first content |
| `PathConflicts.DetectPathConflicts` | core/services/migration/application/service.go:688-718 | no conflict if and only if every path has one content; otherwise one sorted line per conflicting path |
| `PathConflicts.AcceptedIffOrderFree` | core/services/migration/application/service.go:684-687 | a file list is accepted if and only if every order of writing it gives the same tree |
| `Identifiers.IncrementDoc` | core/services/analysis/infrastructure/repositories/identifier.go:31-34 | the atomic increment: a returned value is the new, larger counter |
| `Identifiers.InsertDoc` | core/services/analysis/infrastructure/repositories/identifier.go:41-44 | the initial insert succeeds only when the document is absent |
| `Identifiers.Database.GenerateIdentifier` | core/services/analysis/infrastructure/repositories/identifier.go:21-56 | with other callers interfering, the returned value is above the counter at the start, in at most seven operations; a value comes back whenever the operations work and the context lives, and a call gives up only after seven operations, at the end of its context, or on a failing insert |
| `Identifiers.IdentifiersUnique` | core/services/analysis/infrastructure/repositories/identifier.go:21-56 | every interleaving keeps all returned identifiers new and distinct, lost replies included |
| `Identifiers.AllUnique` | core/services/analysis/infrastructure/repositories/identifier.go:15-56 | no two calls return the same identifier and all are at least 10001 |
| `Identifiers.CounterStrictlyGrows` | core/services/analysis/infrastructure/repositories/identifier.go:31-34 | an operation that returns a value has raised the counter |
| `Identifiers.GivesUpIff` | core/services/analysis/infrastructure/repositories/identifier.go:35-55 | when a caller of an interleaving gives up |
| `Identifiers.CallsEnd` | core/services/analysis/infrastructure/repositories/identifier.go:35-55 | any interleaving of n callers ends within 7n operations |
| `Technologies.MergeTechnologies` | core/worker/analysis/application/merge_technologies.go:18-50 | the index-driven loops compute the merge of which the following rows speak |
| `Technologies.MergeFirstWins` | core/worker/analysis/application/merge_technologies.go:18-50 | with unique existing keys each of the three fields of every merged entry is the first filled value among the existing and then the incoming entries of its key, and empty exactly when all are |
| `Technologies.MergeKeepsExisting` | core/worker/analysis/application/merge_technologies.go:8-14 | every existing entry stays in place and no non-empty field is overwritten |
| `Technologies.MergeKeys` | core/worker/analysis/application/merge_technologies.go:12-14 | the result has exactly the keys of both lists |
| `Technologies.MergeUnique` | core/worker/analysis/application/merge_technologies.go:5-6 | unique keys stay unique, so any accumulation from nothing has them |
| `Technologies.MergeAssociative` | core/worker/analysis/application/merge_technologies.go:18-50 | merging is associative |
| `Technologies.MergeIdempotent` | core/worker/analysis/application/merge_technologies.go:18-50 | merging the same list again changes nothing |
| `Technologies.NilMergeCopiesIff` | core/worker/analysis/application/merge_technologies.go:17-17 | merging into nothing copies the list if and only if its keys are unique |
| `Technologies.NilMergeJoins` | core/worker/analysis/application/merge_technologies.go:17-17 | two entries for one technology become one |
| `Technologies.PrimaryMeaning` | core/worker/analysis/application/pipeline.go:847-873 | Composer decides, otherwise the first known ecosystem, otherwise nothing |
| `Technologies.PrimaryOfOne` | core/worker/analysis/application/pipeline.go:848-873 | the language of each package manager |
| `Technologies.PriorityIgnored` | core/worker/analysis/application/pipeline.go:844-844 | a dependency list on which the documented priority is not followed |
| `Technologies.PriorityFollowedIff` | core/worker/analysis/application/pipeline.go:844-873 | the documented priority decides if and only if Composer occurs or the strongest ecosystem is the first known one |
| `Technologies.BoostManifestLanguage` | core/worker/analysis/application/pipeline.go:846-890 | the last matching language entry in front of all that do not match |
| `Technologies.BoostFront` | core/worker/analysis/application/pipeline.go:877-889 | when the list has a language entry of the primary name one stands first and no other is left; otherwise the list stays as it is |
| `Technologies.BoostPermutes` | core/worker/analysis/application/pipeline.go:877-889 | on any accumulation the boost moves at most one entry to the front and keeps the order of the rest |
| `Technologies.BoostPermutesIff` | core/worker/analysis/application/pipeline.go:877-889 | on any list it loses nothing if and only if there is at most one candidate |
| `Versions.CompareVersions` | core/worker/analysis/application/pipeline.go:789-812 | equals lexicographic comparison of four zero-padded natural numbers |
| `TextLaws.TrimMeans` | core/worker/analysis/application/pipeline.go:790-791 | trimming cuts white space at both ends and nothing else |
| `TextLaws.PrefixMeans` | core/worker/analysis/application/pipeline.go:790-791 | a prefix is cut exactly when it is there |
| `TextLaws.SplitMeans` | core/worker/analysis/application/pipeline.go:795-796 | the parts with the dots between them are the text; only the last of as many as allowed holds a dot |
| `Versions.PlainComponents` | core/worker/analysis/application/pipeline.go:789-836 | a printed three-part version reads as its three numbers and a zero |
| `Versions.NumberClamps` | core/worker/analysis/application/pipeline.go:826-836 | a number out of range reads as the largest 64-bit integer |
| `Versions.CompareIsPreorder` | core/worker/analysis/application/pipeline.go:783-788 | antisymmetric in sign, total, transitive, zero exactly on equal keys |
| `Versions.SuffixIgnoredIff` | core/worker/analysis/application/pipeline.go:783-785 | a version equals the one without its pre-release or build suffix if and only if what follows the dots of the suffix reads as zero |
| `Versions.PlainSuffixIgnored` | core/worker/analysis/application/pipeline.go:783-788 | a suffix without a dot is always stripped |
| `Versions.BuildSuffixCounts` | core/worker/analysis/application/pipeline.go:783-785 | the suffix `+build.1` is not stripped |
| `Versions.VersionStatus` | core/worker/analysis/application/pipeline.go:773-781 | status from the comparison; unspecified when either side is empty |
| `Versions.StatusMeaning` | core/worker/analysis/application/pipeline.go:767-781 | outdated exactly when the first differing component is the smaller one, none when a side is empty, else current |
| `Versions.StatusIsMonotone` | core/worker/analysis/application/pipeline.go:773-781 | outdated stays outdated against later releases, current stays current against earlier ones |
| `Clusterer.CompleteJson` | core/worker/decomposition/application/assessor.go:336-369 | at most two model calls, the second one only after undecodable text |
| `Clusterer.ValidateProposal` | core/worker/decomposition/application/llm_clusterer.go:95-115 | accepts if and only if every mentioned module is a domain module and mentioned once |
| `Clusterer.GroupsToClusters` | core/worker/decomposition/application/llm_clusterer.go:118-135 | the non-empty groups in order with sorted modules |
| `Clusterer.ClusterModules` | core/worker/decomposition/application/llm_clusterer.go:41-91 | whatever the model answers: at most four calls; an accepted first proposal becomes clusters, after a refused one the second decides, a second refusal gives no clusters with low confidence, and an error comes back exactly when a needed decoding failed |
| `Clusterer.ClustersCover` | core/worker/decomposition/application/llm_clusterer.go:74-135 | the clusters hold exactly the modules of the accepted groups, under the groups' names |
| `Clusterer.AcceptableIsSafe` | core/worker/decomposition/application/llm_clusterer.go:93-115 | an accepted proposal has non-empty, duplicate-free, pairwise disjoint groups inside the domain |
| `Enrichment.SortHubsInPlace` | core/worker/analysis/application/pipeline.go:722-727 | the in-place insertion sort computes the functional one |
| `Enrichment.SortedHubsSorted` | core/worker/analysis/application/pipeline.go:722-727 | its result is a permutation in non-increasing order of fan-in |
| `Enrichment.SortedHubsStable` | core/worker/analysis/application/pipeline.go:722-727 | it is stable |
| `Enrichment.FanTables` | core/worker/analysis/application/pipeline.go:676-691 | fan-in, production fan-in and fan-out as uint32 sums, none for the nameless module |
| `Enrichment.EnrichModuleCards` | core/worker/analysis/application/pipeline.go:671-729 | every card with its figures and flag; the hubs sorted |
| `Enrichment.NoTestsAllProduction` | core/worker/analysis/application/pipeline.go:668-691 | without test modules production fan-in is the fan-in |
| `Enrichment.ProductionIsFanIn` | core/worker/analysis/application/pipeline.go:680-691 | production fan-in is the fan-in of the graph without the edges made by tests |
| `Enrichment.ProductionNotZero` | core/worker/analysis/application/pipeline.go:668-670 | a card whose production fan-in does not stay zero |
| `Distiller.ReadGraph` | core/worker/decomposition/application/distiller.go:72-98 | sorted nodes and edges, and the fan figures of every name as uint32 sums |
| `Distiller.RankCards` | core/worker/decomposition/application/distiller.go:129-137 | a permutation ordered by weighted degree and, among equals, by module name |
| `Distiller.AggregateCards` | core/worker/decomposition/application/distiller.go:174-187 | the totals of the cards that were cut |
| `Distiller.CollectHubs` | core/worker/decomposition/application/distiller.go:189-215 | the hubs of kept and cut cards, by fan-in and name |
| `Distiller.CountRoutes` | core/worker/decomposition/application/distiller.go:217-234 | the number of distinct route keys |
| `Distiller.Distill` | core/worker/decomposition/application/distiller.go:61-299 | every part of the digest in terms of its inputs |
| `DigestLaws.HubTestsAgree` | core/worker/decomposition/application/distiller.go:32-52 | the two hub predicates are the same |
| `DigestLaws.HubsMeaning` | core/worker/decomposition/application/distiller.go:32-52 | the hubs of a digest are exactly the modules of fan-in two or more with state or addressed by their own PHP path, kept or cut |
| `DigestLaws.CardsAgreeIff` | core/worker/analysis/application/pipeline.go:676-706 | both workers give a card the same figures and flag if and only if it is named or nothing couples to the nameless module |
| `DigestLaws.HubListsAgree` | core/worker/analysis/application/pipeline.go:722-728 | for named cards both hub lists hold the same hubs with the same fan-ins place by place |
| `DigestLaws.HubOrdersAgreeIff` | core/worker/analysis/application/pipeline.go:722-727 | for distinct names the two hub lists are equal if and only if hubs of equal fan-in are stored by name |
| `DigestLaws.TiedHubsDiffer` | core/worker/analysis/application/pipeline.go:722-727 | two tied hubs that the two workers list in different orders |
| `DigestLaws.CutConserves` | core/worker/decomposition/application/distiller.go:139-187 | kept cards and aggregate card together have the totals of all cards |
| `DigestLaws.TotalsCount` | core/worker/decomposition/application/distiller.go:174-187 | the aggregate counts all functions, classes, state variables and routes of its cards |
| `DigestLaws.CutByDegree` | core/worker/decomposition/application/distiller.go:129-143 | no kept card has a smaller degree than a cut one |
| `DigestLaws.CutKeepsHubsAndRoutes` | core/worker/decomposition/application/distiller.go:189-234 | hubs and route count do not depend on topK |
| `DigestLaws.DigestOrderFree` | core/worker/decomposition/application/distiller.go:55-57 | with distinct module names cards, aggregate, hubs and route count do not depend on the order of the stored cards |
| `GodModules.KeptIffFewAhead` | core/worker/decomposition/application/distiller.go:129-143 | a card is kept in full if and only if fewer than topK cards rank before it |
| `GodModules.GodSeenIff` | core/worker/decomposition/application/scorer.go:225-228 | the score sees a god-module if and only if fewer than topK cards rank before it |
| `GodModules.GodBelowTheCut` | core/worker/decomposition/application/scorer.go:225-228 | a repository of 251 modules whose god-module the score does not see |
| `DigestLaws.RouteKeyInjective` | core/worker/decomposition/application/distiller.go:217-226 | the joined key tells routes apart when verb and path contain no NUL |
| `DigestLaws.RouteCountMeaning` | core/worker/decomposition/application/distiller.go:217-234 | the route count is the number of distinct (verb, path, handler) triples of all cards when no verb or path contains a NUL |
| `DigestLaws.CouplingConserved` | core/worker/decomposition/application/distiller.go:77-86 | modulo 2^32 total fan-in equals total fan-out equals total weight |
| `Digests.WrapAround` | core/worker/decomposition/application/distiller.go:77-86 | the fan figures are 32-bit numbers |
| `Penalties.DomainPresencePenalty` | core/worker/decomposition/application/scorer.go:32-34 | within 0 and 40, 0 from 0.30 on, 40 at 0 |
| `Penalties.HubSeverityPenalty` | core/worker/decomposition/application/scorer.go:49-62 | within 0 and 20, with the anchors 20, 12 and 0 |
| `Penalties.DomainMonotone` | core/worker/decomposition/application/scorer.go:26-34 | a better ratio never raises the penalty |
| `Penalties.DomainNotStrict` | core/worker/decomposition/application/scorer.go:28-30 | the claimed strictness fails for small steps |
| `Penalties.DomainLevel` | core/worker/decomposition/application/scorer.go:32-34 | the penalty is at least k exactly up to the k-th threshold |
| `Penalties.DomainStrictIff` | core/worker/decomposition/application/scorer.go:28-30 | an improvement strictly lowers the penalty if and only if it passes one of the thresholds |
| `Penalties.DomainStrictFromStep` | core/worker/decomposition/application/scorer.go:28-30 | from a step of 0.0075 on the penalty strictly falls |
| `Penalties.HubMonotone` | core/worker/decomposition/application/scorer.go:44-48 | a lower hub ratio never raises the penalty |
| `Penalties.HubStrictIff` | core/worker/decomposition/application/scorer.go:44-48 | a lower hub ratio strictly lowers the penalty if and only if it passes one of twenty thresholds, equally spaced over both segments |
| `HubShares.HubShareIff` | core/worker/decomposition/application/scorer.go:168-184 | the worst hub's share is in [0, 1) if and only if the uint32 denominator does not wrap around |
| `HubShares.HubShareWraps` | core/worker/decomposition/application/scorer.go:168-184 | an infinite share and one far above 1 |
| `HubShares.HubShareFallsIff` | core/worker/decomposition/application/scorer.go:46-48 | the share falls if and only if the fan-in grows by a smaller factor than the nodes |
| `HubShares.HubShareRises` | core/worker/decomposition/application/scorer.go:46-48 | fan-in one up and nodes two up, and the share rises |
| `Scorer.Penalise` | core/worker/decomposition/application/scorer.go:77-284 | the five signals and the running total |
| `Scorer.PenaltiesBounded` | core/worker/decomposition/application/scorer.go:286-288 | the penalties sum to at most 100, so the clamp at zero never fires |
| `ScoreCounts.DomainByCounts` | core/worker/decomposition/application/scorer.go:96-136 | the domain penalty in counts: at least k exactly when the domain modules are at most the k-th threshold's share of domain and infrastructure |
| `ScoreCounts.ClustersByCount` | core/worker/decomposition/application/scorer.go:138-164 | 25, 15, 5 or 0 exactly for no, one, two or more clusters |
| `ScoreCounts.HubByCounts` | core/worker/decomposition/application/scorer.go:166-220 | without wrap-around the hub penalty is at least k exactly when the first hub's fan-in is at least the k-th threshold's share of fan-in and nodes |
| `ScoreCounts.GodsByCount` | core/worker/decomposition/application/scorer.go:222-256 | five for one god-module, ten for more, counted among the hubs with twenty functions, and the signal names them |
| `ScoreCounts.RoutingByCount` | core/worker/decomposition/application/scorer.go:258-284 | five exactly with routes under one blueprint |
| `ScoreCounts.MoreDomainNeverHurts` | core/worker/decomposition/application/scorer.go:26-34 | turning an infrastructure module into a domain module never lowers the value |
| `Scorer.Score` | core/worker/decomposition/application/scorer.go:76-429 | the value is exactly 100 minus the five penalties; band, blockers and all findings, the cycle findings being exactly the strong components of two members or more and the cycle blocker counting the large or domain-touching ones |
| `ScoreCounts.BlockersSay` | core/worker/decomposition/application/scorer.go:374-420 | which blockers there are, with their counts |
| `ScoreCounts.HighHubsCounted` | core/worker/decomposition/application/scorer.go:391-402 | the shared-state blocker counts the hubs of fan-in ten or more |
| `ScoreCounts.HubSeverity` | core/worker/decomposition/application/scorer.go:304-326 | a hub finding is high from fan-in ten on, medium from five |
| `ScoreCounts.FindingTexts` | core/worker/decomposition/application/scorer.go:328-372 | kind, severity and modules of the other findings |
| `ScoreCounts.BandSays` | core/worker/decomposition/application/scorer.go:290-299 | good from 70 on, bad below 40 |
| `Scorer.OtherFindings` | core/worker/decomposition/application/scorer.go:328-372 | god-module, topology and cycle findings in their order, with titles and parameters |
| `Scorer.GodFindingOfItsCard` | core/worker/decomposition/application/scorer.go:328-351 | with distinct card names the figures printed for a god-module are those of the card that made it one |
| `Scorer.CycleCountOfGraph` | core/worker/decomposition/application/scorer.go:371-371 | the cycle blocker of the digest is that of the graph |
| `ActionPlan.BuildActionPlan` | core/services/migration/application/service.go:886-924 | the active signals as items, ranked by impact, numbered and linked |
| `ActionPlan.PlanRanked` | core/services/migration/application/service.go:903-910 | steps 1..n by non-increasing positive impact |
| `ActionPlan.PlanSteps` | core/services/migration/application/service.go:891-903 | every active known signal has a step of its kind and cost |
| `ActionPlan.ItemSays` | core/services/migration/application/service.go:928-972 | kind, blocking flag and subject of a step |
| `TextLaws.JoinAppend` | core/services/migration/application/service.go:997-1005 | a joined list shows its parts in order |
| `ActionPlan.LinksSound` | core/services/migration/application/service.go:911-918 | a link is 0 or names the step of the prerequisite kind; it is 0 only when there is none |
| `ActionPlan.LinksEnd` | core/services/migration/application/service.go:911-918 | links never form a cycle: no path has more than three steps |
| `ActionPlan.PrerequisiteFirstIff` | core/services/migration/application/service.go:903-918 | for any signals, prerequisites precede their dependents in every plan the sort may leave if and only if each active prerequisite costs strictly more |
| `ActionPlan.PrerequisiteOrder` | core/services/migration/application/service.go:903-918 | in one plan a costlier prerequisite stands before, a cheaper one after |
| `ActionPlan.PrerequisiteLater` | core/services/migration/application/service.go:903-918 | two signals for which the first step of every plan waits for the second |
| `ActionPlan.ScoredPrerequisitesIff` | core/services/migration/application/service.go:903-918 | for the signals of a score, when that order holds, in terms of the three penalties involved |
| `ActionPlan.ImpactsExplainScore` | core/services/migration/application/service.go:892-902 | the impacts add up to 100 minus the score |
| `Roadmaps.AssembleRoadmap` | core/services/migration/application/service.go:848-881 | diagnosis, problems by falling penalty, action plan and explanation |
| `Roadmaps.BasisSays` | core/services/migration/application/service.go:794-819 | a stored assessment is preferred, then the stored score, then a marker |
| `LifecycleEntries.RoadmapSays` | core/services/migration/application/service.go:783-820 | what the stored roadmap of a migration rests on |
| `Roadmaps.ProblemsMembers` | core/services/migration/application/service.go:862-872 | the problems are the active signals with cost and detail |
| `Roadmaps.ProblemsMatchActions` | core/services/migration/application/service.go:864-881 | when the active signals are known the problems cost, place by place, what the steps gain |
| `Roadmaps.OneStepPerProblemIff` | core/services/migration/application/service.go:844-844 | there is one step per active signal if and only if every active signal is known |
| `Roadmaps.ProblemWithoutStep` | core/services/migration/application/service.go:928-972 | an active signal that has no step |
| `Roadmaps.RoadmapExplainsScore` | core/services/migration/application/service.go:828-881 | the steps of a roadmap made from a score add up to 100 minus the score it shows |
| `ActionPlan.SubjectsNameModules` | core/services/migration/application/service.go:938-957 | the hub and god-module steps name the modules the scorer found |
| `DetailText.HubRoundTripIff` | core/services/migration/application/service.go:976-983 | the hub detail parses back if and only if the name is non-empty and free of the mark |
| `DetailText.ScoredHubParses` | core/worker/decomposition/application/scorer.go:191-208 | so does the detail the scorer prints |
| `DetailText.HubDetailBegins` | core/worker/decomposition/application/scorer.go:191-208 | the hub detail begins with name, mark and fan-in |
| `DetailText.GodDetailBegins` | core/worker/decomposition/application/scorer.go:242-242 | the god-module detail begins with count and bracketed names |
| `DetailText.GodRoundTripIff` | core/services/migration/application/service.go:985-994 | the god-module detail parses back if and only if every name is non-empty, without white space and closing bracket |
| `Services.MapModules` | core/worker/decomposition/application/pipeline.go:382-389 | each module belongs to the last cluster listing it |
| `Guardrail.ServiceOfItsCluster` | core/worker/decomposition/application/pipeline.go:382-389 | the service of a module is named after the last cluster listing it |
| `Services.ServiceNameSays` | core/worker/decomposition/application/pipeline.go:465-476 | a service is named, in lower case, by what follows the last backslash or dot of its blueprint |
| `Services.ModelsMembers` | core/worker/decomposition/application/pipeline.go:396-403 | a cluster owns exactly its modules ending in `.models` |
| `TextLaws.SuffixMeans` | core/worker/decomposition/application/pipeline.go:398-398 | a suffix test |
| `Services.ClassifyEdges` | core/worker/decomposition/application/pipeline.go:410-435 | dependencies and couplings are exactly those of the crossing edges, without duplicates |
| `Services.Characterize` | core/worker/decomposition/application/pipeline.go:376-463 | a candidate per cluster, or an error when a prefix cannot be allocated |
| `Services.CrossingEdgeRecorded` | core/worker/decomposition/application/pipeline.go:405-435 | every crossing edge is recorded in exactly one of the two lists |
| `Services.CollectForeignKeys` | core/worker/decomposition/application/pipeline.go:621-651 | the cross-service foreign keys of the contracts, each as often as declared, sorted |
| `Services.ContractKeysMembers` | core/worker/decomposition/application/pipeline.go:623-643 | a key is collected if and only if it comes from a cross-service field that refers to another service |
| `Services.ContractKeysForeign` | core/worker/decomposition/application/pipeline.go:629-632 | no collected key refers to its own service |
| `Services.AugmentDataDeps` | core/worker/decomposition/application/pipeline.go:675-709 | each list becomes the sorted, duplicate-free union of edge dependencies and foreign-key targets |
| `Services.DependencyMeaning` | core/worker/decomposition/application/pipeline.go:405-709 | a service depends on exactly those that an edge of its model modules or a foreign-key field of its contracts leads into |
| `Services.NoSelfDependency` | core/worker/decomposition/application/pipeline.go:405-709 | after all stages no service depends on itself |
| `Plans.AssemblePlan` | core/worker/decomposition/application/pipeline.go:723-847 | one proposed service per candidate with its foreign keys looked up by owner, or the no-boundaries plan |
| `Plans.GatherCouplings` | core/worker/decomposition/application/pipeline.go:653-663 | the couplings of all candidates, sorted |
| `Plans.AssembledExplained` | core/worker/decomposition/application/pipeline.go:376-847 | dependencies, foreign keys, owned resources and couplings of the plan are exactly those that clusters, edges and contracts give; the flag is set exactly when there is no cluster |
| `Guardrail.DomainSubgraph` | core/worker/decomposition/domain/domain.go:278-290 | the edges with both ends in the domain |
| `Guardrail.DomainEdgesMembers` | core/worker/decomposition/domain/domain.go:275-277 | and only those |
| `Guardrail.IsIncoherentFallback` | core/worker/decomposition/domain/domain.go:140-165 | true if and only if fewer than half of the clusters have an internal edge |
| `Guardrail.IncoherentMeansMostLack` | core/worker/decomposition/domain/domain.go:127-165 | that is, when more clusters lack an internal edge than have one |
| `Guardrail.InternalMeansInside` | core/worker/decomposition/domain/domain.go:130-139 | for pairwise disjoint clusters: some edge has both ends in the cluster |
| `Guardrail.Stage.ApplyCoherenceGuardrail` | core/worker/decomposition/application/pipeline.go:907-923 | fires if and only if fallback was used and the clusters are incoherent; then clears domain and clusters |
| `Guardrail.RunStages` | core/worker/decomposition/application/pipeline.go:156-353 | the plan says what clusters, domain edges and contracts say; when the guardrail fires: empty domain, no boundaries, score at most 35 and bad, both blockers, empty plan, approval refused, and no sequence of events takes the migration to GENERATING, READY or PUSHED |
| `Guardrail.MakePlan` | core/worker/decomposition/application/pipeline.go:239-353 | a plan is made if and only if every prefix is allocated and, when there are clusters, a workspace is had; its services carry the allocated prefixes |
| `Guardrail.FiredRoadmapOrdered` | core/services/migration/application/service.go:886-924 | the roadmap of such a run starts with extracting a domain, and every prerequisite precedes its dependent |

## Left out

- gRPC handlers, gateway, authentication, logging, metrics, configuration and generated protobuf code: plumbing over libraries.
- Prompt text, model content and JSON decoding: the model is an arbitrary sequence of answers.
- File-system work, contract derivation, Louvain clustering and infrastructure detection: their results are inputs.
- Fine-grained races inside one life-cycle use case: the code reads and then writes without a guard, so each use case is one event.
- List and read use cases, repository-URL back-fill, error aggregator, boundary-spec text: straight-line work.
- Structured detail keys and parameters of signals, action prose, plan rationale and the long explanation texts: text that no stage reads back.
- Candidate groupings, recommendations and modularity of a plan: field copies.
- IEEE rounding of ratios: reals instead of floats.
- Scorer.HubRatio: a hub with fan-in 0 in a digest of a positive multiple of 2^32 nodes divides zero by zero in the source; the model treats it as the infinite quotient. `Distill` never produces such a hub.
- Technologies.MergeTechnologies: nil entries are not modelled; a nil entry followed by an entry with empty name and category makes the source panic.
- Text.ToLower: exact for characters that lower to ASCII letters; other upper-case letters stay as they are, which matters only for service names outside ASCII.
- Identifiers.Database.GenerateIdentifier: the counter is unbounded; its 64-bit limit is not modelled.
- Guardrail.RunStages: the switches for stages that are not wired, and the assessor call, which only logs, are not modelled.
