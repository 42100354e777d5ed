# Workflow engine and config-object runtime: a verified model

This project models two parts of the six1 backend in Dafny and proves what they keep.

**The workflow engine** (`src/automation`). A process instance owns ordered steps; a step carries
requirements, triggers and object bindings; a `call_process` step starts a child process and waits
for it. Every public operation is one transaction over a few tables. Two messages travel between
transactions: the terminal child returned by a commit, and the `process_child_completed` event that
resumes the parent. A third comes from outside: a cancellation that is reported.

* `Tables`, `Json`, `Text`, `Basics` hold the rows, values and queries. Rows of these tables are
  never deleted by the engine, so a table is a sequence and a row's position is its id minus one.
* `StepObjects`, `Instantiation`, `ProjectHost`, `ChildProcess`, `Completion`, `CompletionRule` and
  `Orchestrator` give each transaction as a function from tables to tables, or to a thrown error.
* `Engine` is the engine itself: a class whose fields are the tables, with one method per operation,
  loops where the services loop, and rollback when something throws. Every method is proved against
  the function above, and `Valid()` says that the tables are what the recorded run of actions leads
  to. What is proved about runs therefore holds for every engine object.
* `Protocol`, `Preservation`, `Evolution`, `Soundness` and `Runs` carry the invariants through every
  transaction, every delivery and every environment step; `Good` is their conjunction.
* `Effects` says exactly what single transactions do, and `Starting` when a step starts or fails to.
* `Reference` reads off the rows, without the functions above, what a step waits for, what a call step
  needs and when a process can end. In these terms `Conclusions` says what each action makes of steps,
  processes, announcements and completion hooks, `Provisioning` and `Entering` which object rows are
  provisioned and when, and `Births` which starts and spawns are accepted and what they add.
* `EngineTheorems`, `Gating`, `Lifetimes`, `BindingHistory`, `Inertness`, `Stranding`, `Waking`,
  `StrandingRoots` and `Scenario` hold the results about whole runs.

**The config-object runtime** (`src/config_objects/config_objects.service.ts`): writing values at
nested paths (`PathText`, `Paths`) and composing submit payloads from them (`Submit`, and
`SubmitOutcomes` for the outcome of each operation, read off the descriptor columns), scoped active
views (`Views`, and `ScopedViews` for upserts and the unique indexes of their table), and the three
layered TTL caches (`CacheKeys`, `RuntimeCaches`).

The environment of the engine is: a process that is active may be canceled, and the cancellation is
then reported; requirements, objects and templates may be edited; an event trigger may be recorded
as met. Deliveries happen in any order and at any time.

## What turned out not to hold

The code is modelled as it is; where an expected property fails, the failing inputs and the exact
condition are proved.

* A parent that fails because its child was canceled (`fail_parent`) reports itself to nobody: its
  own parent's step stays blocked in every later run (`Stranding.FailParentSilencesGrandparent`,
  `Stranding.SilencedForever`).
* An ignored cancellation completes the call step but resumes nobody. It loses the parent exactly
  when the parent is active, the call step was its only open one, and nothing outstanding in the
  subtree of completed processes below it would still be passed up
  (`Waking.IgnoredCancellationStrandsIff`); roots and parents with other, completed children are
  included. Lost means that no run completes the process unless somebody cancels it
  (`Waking.LostIffStranded`, `Waking.StrandedForever`). `Scenario.CancellationLosesParents` runs
  into both losses from empty tables. A root is lost in a second way: its last conclusion finds a
  mandatory binding unsettled, and settling it later completes nothing. No other action strands a
  root (`StrandingRoots.RootIsStrandedBy`).
* A step of order other than 1 is born sealed exactly when its template step has an event, time or
  unknown trigger, or, with object steps enabled, a mandatory binding (`Starting.BornSealedIff`,
  `Gating.SealedForever`). A pending step can never start if it waits for an object, if its triggers
  never hold together, or if it calls a child that its template does not name or whose tier is
  switched off (`Lifetimes.HopelessForever`). For unprovisioned steps that are not automated and
  want no object their process does not know, this is exact: every other one can start
  (`Lifetimes.CanStartIff`). When an advance starts a step is known exactly
  (`Starting.AdvanceStartsIff`). Recording an event as met changes nothing but the flag
  (`Inertness.RecordingIsInert`).
* The completion hook and the `process_completed` event fire for every completed root
  (`Conclusions.CompletedRootsHaveFired`), but not only once: they fire again exactly when a resumption
  of one of its call steps is delivered after it has completed (`Conclusions.FiresAgainIff`).
* An upsert switches off its scope before it saves, in no transaction. The save is rejected exactly
  when another view of the object has the key, when it would switch on, through an id, a view of
  another tenant scope beside an active one, or when a value does not fit its column
  (`ScopedViews.UpsertThrowsIff`). The unique indexes therefore
  hold after every upsert (`ScopedViews.UpsertKeepsIndexed`), but the scope is left without an active
  view exactly when the call throws late, asks for activation and another view of the scope was
  active (`ScopedViews.ThrownUpsertLosesActiveIff`, with `ScopedViews.KeyCollisionExample`,
  `ScopedViews.TrespassExample` and `ScopedViews.LostViewExample`).
* Two writes of one payload may depend on their order. Paths that part do so exactly when one names
  a property where the other indexes an array; equal paths exactly when the values differ; and where
  one path leads through the other, exactly when the deeper write would change the other's value
  (`Paths.OrderIrrelevantIff`, `Paths.OrderExamples`).
* A value whose path does not fit the payload is dropped silently, or throws exactly when a name on
  the path meets a primitive (`Paths.GetAfterSetIff`, `Paths.SetThrowsIff`). A submission can
  therefore fail with a bare TypeError (`Submit.SubmitSucceedsIff`, `Submit.TypeErrorExample`), only
  because one supplied value leads through another (`Submit.FailureHasItsCause`).
* Invalidation looks for `::name` inside the keys. Invalidating by an alias of an object type misses
  the schema stored under the canonical name exactly when the canonical name does not begin with the
  alias (`RuntimeCaches.AliasMissesSchemaIff`, `RuntimeCaches.AliasExample`); and an invalidation
  reaches every entity key, view type or manifest flag that begins with the given name
  (`CacheKeys.MatchesIff`, `CacheKeys.InvalidationReachesIff`).

## Model

| member | source | states |
|---|---|---|
| `EngineTheorems.NoLostWakeUp` | src/automation/step-orchestrator.service.ts:287-314 | in every reachable state a blocked step has exactly one child; if it is completed its terminal notice is outstanding; if it is canceled, its report is outstanding, or its policy is pause_parent, or it failed through its own child |
| `EngineTheorems.CompletionProducesNotice` | src/automation/step-orchestrator.service.ts:300-314 | whichever action completes an active child process, its commit leaves the terminal notice |
| `EngineTheorems.Quiescent` | src/automation/child-process-orchestration.service.ts:151-224 | once every notice is delivered, a blocked step's child is active, or canceled without a report; a finished child process has ended unless a cancellation below it was ignored |
| `EngineTheorems.NothingGoesBack` | src/automation/step-orchestrator.service.ts:574-603 | between any two points of any run, completed and canceled are absorbing for steps and processes, links, tenants and policies are fixed, context keys stay, a provisioned instance stays, no step joins an old process |
| `EngineTheorems.InProgressIsNeverCommitted` | src/automation/step-orchestrator.service.ts:158-183 | no committed state of any run holds a step in progress |
| `EngineTheorems.AtMostTwoChanges` | src/automation/step-orchestrator.service.ts:91-215 | over any run a step changes its committed status at most twice |
| `EngineTheorems.CompletedProcessIsDone` | src/automation/child-process-orchestration.service.ts:229-261 | a completed process has steps, all completed, and all its child processes are terminal, although the child path never looks at them |
| `EngineTheorems.HooksFireForEndedProcesses` | src/automation/step-orchestrator.service.ts:316-361 | when the completion hook and the process_completed event fire, all steps are completed, the process has ended, and it is a root or a canceled child |
| `Conclusions.HookFiresIff` | src/automation/step-orchestrator.service.ts:287-361 | an action fires the hook exactly when it concludes a step of a process that then has all steps completed, no active child and all mandatory objects settled, and that is a root or a canceled child; once, and for that process only |
| `Conclusions.RootHookFires` | src/automation/step-orchestrator.service.ts:337-358 | the action that completes a root fires its hook |
| `Conclusions.CompletedRootsHaveFired` | src/automation/step-orchestrator.service.ts:337-358 | in every run the hook of every completed root has fired |
| `Conclusions.FiresAgainIff` | src/automation/step-orchestrator.service.ts:49-89 | the hook of a completed root fires once more exactly when a resumption of one of its call steps is delivered late |
| `EngineTheorems.ProcessesFormAForest` | src/automation/child-process-orchestration.service.ts:71-146 | a child is younger than its parent, hangs off a call_process step of that parent, and is the only child of that step |
| `EngineTheorems.TreesShareTenantAndPolicy` | src/automation/child-process-orchestration.service.ts:107-124 | tenant and failure policy are constant from every process to the root of its tree |
| `EngineTheorems.DeliveryLowersWeight` | src/automation/step-orchestrator.service.ts:381-390 | delivering any outstanding notice lowers a weight built from process ids, also when it produces another notice |
| `EngineTheorems.CascadeTerminates` | src/automation/automation-event-bridge.listener.ts:27-57 | a run of deliveries alone is no longer than the weight it starts with |
| `EngineTheorems.BindingLifecycle` | src/automation/config-object-step-executor.service.ts:90-297 | in every reachable state: pending rows have no instance, active and valid rows have one of the process's tenant, no two rows share an instance, a snapshot is there exactly for a valid row and is not blank |
| `BindingHistory.ValidOnlyThroughItsRule` | src/automation/config-object-step-executor.service.ts:245-275 | a row becomes valid, or takes a new snapshot, only when its object is re-checked and satisfies the row's completion rule; the snapshot is the payload that did |
| `EngineTheorems.KanbanMirror` | src/automation/process-host/project-host.adapter.ts:228-279 | in every run each task sits in the column mapped from its step's status, or from pending if the step spawned a child |
| `EngineTheorems.ChildContextExtendsParent` | src/automation/child-process-orchestration.service.ts:472-483 | a spawned child's context holds every parent key, the template patch wins, the parent id is added, nothing else |
| `EngineTheorems.HandlingTwiceIsHandlingOnce` | src/automation/child-process-orchestration.service.ts:485-503 | handling one completed child twice in a row changes only the merge stamp and repeats the resumption |
| `Runs.ExecGood` | src/automation/step-orchestrator.service.ts:49-361 | every action of the engine and of its environment keeps the run invariant and moves nothing backwards |
| `Effects.NextStepsAreUnlockedExactly` | src/automation/step-orchestrator.service.ts:459-528 | after a step, exactly the pending steps of the next order in its process whose gates and triggers are met become ready, or blocked on their child; every other step is as it was |
| `Starting.CompletionTakesEffectIff` | src/automation/step-orchestrator.service.ts:217-261 | a manual completion takes effect exactly when the step is ready, its gates are open and no step it would unlock is unable to spawn its child |
| `Starting.EnableNextFailsIff` | src/automation/step-orchestrator.service.ts:459-528 | unlocking fails exactly when some eligible next step cannot spawn its child, judged in the state before the loop |
| `Starting.PromoteFailsIff` | src/automation/child-process-orchestration.service.ts:71-146 | starting a step fails exactly when it must spawn a child and its template names none, the tier of the child's subject is off, or a config instance is wanted and none is known |
| `Starting.AdvanceStartsIff` | src/automation/step-orchestrator.service.ts:91-215 | an advance takes a pending step out of pending exactly when gates and triggers are met, it can spawn its child if it is to, and, if automated, nothing it would unlock is unable to spawn |
| `Conclusions.AdvanceDecides` | src/automation/step-orchestrator.service.ts:91-215 | an advance completes a ready or pending automated step exactly when its requirements are approved, its mandatory objects settled, its triggers hold at that instant and no step it would unlock is a call step that cannot get its child; any other ready step stays ready; a pending one that may go is let go |
| `Conclusions.ConclusionsDecide` | src/automation/step-orchestrator.service.ts:149-361 | whichever action completes a step or resumes after it: exactly the pending steps of the next order that may go are let go, its process ends exactly if it can, and a child that ended is announced |
| `Conclusions.AdvanceWithoutRun` | src/automation/step-orchestrator.service.ts:91-147 | an advance that does not run its step changes no other step, ends no process, fires and announces nothing |
| `Conclusions.CompletionDecides` | src/automation/step-orchestrator.service.ts:217-261 | a manual completion concludes its step when it is ready, approved and settled and nothing after it is stuck; else it changes nothing |
| `Conclusions.AdvanceFailsIff` | src/automation/step-orchestrator.service.ts:91-215 | an advance throws exactly when the step is a pending call step that cannot get its child, or would run and unlock such a step |
| `Reference.EvaluationMarks` | src/automation/step-orchestrator.service.ts:423-457 | evaluating a step marks exactly those of its json-logic conditions that hold |
| `Starting.TriggersAlwaysRefer` | src/automation/process-instantiation.service.ts:208-243 | in every run each trigger row belongs to an existing step |
| `Effects.ProcessCompletesIff` | src/automation/step-orchestrator.service.ts:287-361 | an active child completes exactly when all its steps are completed, a root only if moreover no child is active and all mandatory bindings are settled; no other process changes |
| `Effects.MergeKeepsBoth` | src/automation/child-process-orchestration.service.ts:485-503 | a merge keeps every key of both contexts, the child's values win, and only the stamp is added |
| `Effects.ReportDecides` | src/automation/child-process-orchestration.service.ts:151-224 | delivering a child's end changes exactly this: the parent's context, its call step and, under fail_parent, its status, as policy and ending say, and a completed child announces the resumption |
| `EngineTheorems.CallStepFate` | src/automation/child-process-orchestration.service.ts:151-224 | in every run, once a child's ending is handled, its status and the failure policy decide its call step: blocked while it runs, completed after completion or an ignored cancellation, blocked under pause_parent, canceled with the parent under fail_parent unless the child itself failed through its own child |
| `Effects.SeedingLaw` | src/automation/process-host/project-host.adapter.ts:129-149 | seeding succeeds exactly when the host knows To Do, Ready, In Progress, Done and Blocked; it maps each state that is not mapped yet to its own column and overwrites none |
| `Effects.ValidationDecides` | src/automation/config-object-step-executor.service.ts:201-275 | re-checking an object makes its row valid with the payload as snapshot exactly when the rule is satisfied, else failed without one, and touches no other row |
| `Effects.ValidationReadsRule` | src/automation/completion-rule.util.ts:10-82 | a re-checked row turns valid, with the payload as snapshot, exactly when the rule has the known type or none, the status reaches the named minimum and some entry holds something; nothing else in the tables changes |
| `CompletionRule.SatisfiesIff` | src/automation/completion-rule.util.ts:10-82 | the same for the rule itself, name by name and kind by kind |
| `Gating.GatesHoldAtCompletion` | src/automation/step-orchestrator.service.ts:101-176 | a step without a child completes only through its own advance (automated) or its own completion, and its gates hold in the state committed then |
| `StepObjects.GatesSurviveProvision` | src/automation/config-object-step-executor.service.ts:106-186 | provisioning any step leaves an open gate open: no mandatory row was pending |
| `Provisioning.ProvisionDecides` | src/automation/config-object-step-executor.service.ts:90-188 | exactly the pending rows for known config objects to be created on entry are provisioned: active with a new empty draft each, in the tenant of the process, or failed where the config object is not standalone |
| `Provisioning.DraftsAreDistinct` | src/automation/config-object-step-executor.service.ts:135-154 | no two rows get one object |
| `Entering.EntryProvisions` | src/automation/step-orchestrator.service.ts:101-147 | in every transaction the rows of exactly those steps are provisioned that are let go into readiness, or are ready and advanced; the object rows of every other step stay |
| `Entering.TransactionsKeepRest` | src/automation/step-orchestrator.service.ts:49-361 | no transaction changes a requirement or an object, or touches columns or templates |
| `Starting.BornSealedIff` | src/automation/process-instantiation.service.ts:117-280 | a new step is born sealed exactly when its order is not 1 and its template step has a trigger that is not json-logic or, with object steps enabled, a mandatory binding |
| `Gating.SealedForever` | src/automation/trigger-engine.service.ts:39-60 | a pending step with an event, time or unknown trigger, or with a mandatory object not yet provisioned, stays pending in every run that leaves the templates alone |
| `Lifetimes.StartedOnlyIfStartable` | src/automation/step-orchestrator.service.ts:91-528 | whichever action takes a step out of pending, the state before it had its gates open, its triggers met at some instant and its child, if it calls one, able to spawn |
| `Lifetimes.HopelessForever` | src/automation/trigger-engine.service.ts:39-60 | a pending step that waits for an object, whose triggers hold together at no instant, or whose child is not named or on a tier that is off, stays pending in every run that leaves the templates alone |
| `Lifetimes.StartsAfterApprovals` | src/automation/step-orchestrator.service.ts:91-176 | approving its requirements and then advancing it takes a pending step out of pending when its bindings are settled, its triggers hold then and no spawn fails |
| `Lifetimes.CanStartIff` | src/automation/step-orchestrator.service.ts:91-176 | an unprovisioned pending step that is not automated and wants no unknown object can start in some run exactly when it is not hopeless; an automated one only if it is not hopeless, and if at some instant it awaits nothing but approvals |
| `Lifetimes.BornUnprovisioned` | src/automation/process-instantiation.service.ts:245-281 | every step of a new process is unprovisioned |
| `Inertness.RecordingIsInert` | src/automation/automation-event-bridge.listener.ts:186-199 | dropping every recording of a met trigger from a run leads to tables that differ in the met flags alone |
| `Stranding.ReportSilencesCallStepIff` | src/automation/child-process-orchestration.service.ts:173-181 | reporting a canceled child leaves its call step blocked and unreported exactly under pause_parent |
| `Stranding.FailParentSilencesGrandparent` | src/automation/child-process-orchestration.service.ts:183-207 | under fail_parent the step waiting for the canceled parent is left silenced exactly when the parent was still active, or it was silenced before |
| `Stranding.SilencedForever` | src/automation/automation-event-bridge.listener.ts:27-36 | a step blocked on a canceled child with no report outstanding stays blocked in every run |
| `Waking.IgnoredCancellationStrandsIff` | src/automation/child-process-orchestration.service.ts:209-222 | the report of an ignored cancellation leaves the parent with all steps completed and completed by no later run exactly when, before it, the parent was active, the call step was its only open one and nothing outstanding in its completed subtree stirred it |
| `Waking.LostIffStranded` | src/automation/automation-event-bridge.listener.ts:27-57 | an active process with all steps completed can be completed by some run that does not cancel it exactly when some outstanding notice would be passed up to it |
| `Waking.DeliveriesWake` | src/automation/step-orchestrator.service.ts:49-89 | and then, for a child or a root with settled bindings, deliveries alone complete it |
| `Waking.StrandedNeedsIgnored` | src/automation/child-process-orchestration.service.ts:209-222 | a child process is stranded only where the cancellation of a child of its own was ignored |
| `Waking.StrandedForever` | src/automation/automation-event-bridge.listener.ts:27-57 | a stranded process stays stranded in every run in which nobody cancels it |
| `StrandingRoots.RootIsStrandedBy` | src/automation/process-completion.service.ts:42-100 | an action strands a root only by delivering the ignored cancellation of one of its children, or by concluding one of its steps while a mandatory binding of the root is not settled |
| `StrandingRoots.SurvivesUnsettled` | src/automation/step-orchestrator.service.ts:316-361 | a root with all steps completed is still active after a conclusion only if a mandatory binding is not settled |
| `Scenario.CancellationLosesParents` | src/automation/child-process-orchestration.service.ts:183-222 | from empty tables, a six-action run strands process 1 under ignore and silences the step of process 0 under fail_parent |
| `Instantiation.StepsAreABijection` | src/automation/process-instantiation.service.ts:117-166 | instance steps are the template's steps, each once, in step order, with their names; a step is ready exactly when its order is 1; earlier rows are untouched |
| `Instantiation.RequirementsFollowTheirStep` | src/automation/process-instantiation.service.ts:168-206 | every requirement of the template reaches the copy of its step, none lost, duplicated or misplaced |
| `Instantiation.TriggersFollowTheirStep` | src/automation/process-instantiation.service.ts:208-243 | the same for triggers, which start unmet with their condition |
| `Instantiation.BindingsFollowTheirStep` | src/automation/process-instantiation.service.ts:245-280 | the same for object bindings, which start pending without an instance, in the template's order |
| `Births.StartDecides` | src/automation/process-lifecycle.facade.ts:94-255 | an accepted start adds one active root process with the copied rows, and for a project the missing columns and one task per step in the column of its status; a refused one changes nothing |
| `Births.StartRefusedIff` | src/automation/process-lifecycle.facade.ts:94-114 | a start is refused exactly for an unknown subject type, a tier that is off, or a project without complete host data, with the error of the first of these |
| `Births.CopyAddsOnly` | src/automation/process-instantiation.service.ts:59-284 | copying a template adds one process and rows to four more tables, at their ends, and nothing else |
| `Births.SpawnDecides` | src/automation/child-process-orchestration.service.ts:71-146 | a call step without child gets one exactly when it is not stuck: of the named template, with the parent's tenant, policy and patched context, on the subject its policy says; otherwise the error says why |
| `ProjectHost.SyncDecides` | src/automation/process-host/project-host.adapter.ts:228-279 | which task moves, and to which column |
| `Engine.ProcessEngine.EvaluateTriggers` | src/automation/step-orchestrator.service.ts:423-457 | marks exactly the step's conditions that hold and answers whether all of them do |
| `Engine.ProcessEngine.CheckStepGates` | src/automation/step-orchestrator.service.ts:392-421 | the loops over requirement and binding rows answer whether every mandatory requirement is approved and every mandatory binding valid or skipped |
| `Engine.ProcessEngine.AreMandatoryBindingsValid` | src/automation/config-object-step-executor.service.ts:52-72 | counting the blocking rows finds none exactly when every mandatory binding is settled, or object steps are off |
| `Engine.ProcessEngine.ProvisionBindingRow` | src/automation/config-object-step-executor.service.ts:121-186 | one pending row gets a fresh draft object and becomes active, or fails for a config object that is not standalone |
| `Engine.ProcessEngine.ProvisionBindingsOnStepReady` | src/automation/config-object-step-executor.service.ts:90-188 | the loop provisions exactly the step's pending create_on_enter rows, in order |
| `Engine.ProcessEngine.ValidateByCustomInstanceId` | src/automation/config-object-step-executor.service.ts:193-297 | re-checks the linked row and names its step, if there is one; the answer is valid exactly when the object satisfies that row's rule |
| `Engine.FilledStepIff` | src/automation/config-object-step-executor.service.ts:202-256 | the step named is that of whichever row the object fills; in reachable states there is at most one |
| `Engine.ProcessEngine.SyncTaskColumn` | src/automation/process-host/project-host.adapter.ts:228-279 | moves the step's task to the mapped column unless it is manual or unmapped |
| `Engine.ProcessEngine.MoveStep` | src/automation/step-orchestrator.service.ts:263-285 | a state change and the host's reaction to the same state |
| `Engine.ProcessEngine.InsertProcess` | src/automation/process-instantiation.service.ts:77-115 | adds an active process; a self-anchored workflow gets its own id as subject |
| `Engine.ProcessEngine.InsertSteps` | src/automation/process-instantiation.service.ts:140-160 | inserts the copies one by one and returns their ids in order |
| `Engine.ProcessEngine.IdMap` | src/automation/process-instantiation.service.ts:162-166 | maps each template step to the id of its copy, and nothing else |
| `Engine.ProcessEngine.CopiedRequirements` | src/automation/process-instantiation.service.ts:182-206 | the loop over requirements yields one row per template requirement, at the mapped step |
| `Engine.ProcessEngine.CopiedTriggers` | src/automation/process-instantiation.service.ts:220-243 | the same for triggers |
| `Engine.ProcessEngine.CopiedBindings` | src/automation/process-instantiation.service.ts:258-280 | the same for bindings |
| `Engine.ProcessEngine.InstantiateProcess` | src/automation/process-instantiation.service.ts:59-284 | the loops together compute the structure-preserving copy |
| `Engine.ProcessEngine.SeedMappings` | src/automation/process-host/project-host.adapter.ts:129-149 | one mapping per engine state without overwriting any, or an error for a status name without id |
| `Engine.ProcessEngine.TaskRows` | src/automation/process-host/project-host.adapter.ts:151-215 | one process-controlled task per step, in the column of the step's status |
| `Engine.ProcessEngine.OnProcessStarted` | src/automation/process-host/project-host.adapter.ts:117-223 | mappings and tasks of a started project process, or an error |
| `Engine.ProcessEngine.StartProcessInTransaction` | src/automation/process-lifecycle.facade.ts:176-255 | tier check, instantiation and host start; the new id is returned |
| `Engine.ProcessEngine.StartProcess` | src/automation/process-lifecycle.facade.ts:94-114 | one start action of the run; refused exactly when the subject, its tier or the host data are, and then the tables are as before |
| `Engine.ProcessEngine.SpawnChildAndBlockParent` | src/automation/child-process-orchestration.service.ts:71-146 | starts the child with subject, context, tenant and policy taken from the parent and blocks the step; an existing child only blocks |
| `Engine.ProcessEngine.HandleChildTerminal` | src/automation/child-process-orchestration.service.ts:151-224 | the three failure policies over the parent's context, status, call step and resumption notice |
| `Engine.ProcessEngine.MarkProcessCompletedIfEligible` | src/automation/child-process-orchestration.service.ts:229-261 | completes an active child whose steps are all completed, and nothing else |
| `Engine.ProcessEngine.EvaluateCompletion` | src/automation/process-completion.service.ts:42-100 | canComplete exactly when there is a step, all steps are terminal, no child is active and every step's mandatory bindings are settled; each reason is listed exactly when its condition fails |
| `Reference.CanCompleteIff` | src/automation/process-completion.service.ts:42-100 | what the completion check looks at, row by row |
| `Engine.ProcessEngine.MaybeCompleteJob` | src/automation/step-orchestrator.service.ts:287-362 | completes the process and fires the hook as specified, and returns the child that ended |
| `Engine.ProcessEngine.PromoteStep` | src/automation/step-orchestrator.service.ts:124-148 | an eligible step spawns its child, or becomes ready and is provisioned |
| `Engine.ProcessEngine.EnableRow` | src/automation/step-orchestrator.service.ts:478-526 | one row of the enabling loop: gates first, then triggers, then promotion |
| `Engine.ProcessEngine.EnableNextSteps` | src/automation/step-orchestrator.service.ts:459-528 | the loop enables exactly the pending steps of the next order, stopping at the first error |
| `Engine.ProcessEngine.AttemptAdvance` | src/automation/step-orchestrator.service.ts:91-215 | one advance action of the run; throws exactly when the step, or one it would unlock, cannot get its child, and then the tables are as before; answers the child that ended |
| `Engine.ProcessEngine.MarkCompleted` | src/automation/step-orchestrator.service.ts:217-261 | one completion action of the run; throws exactly when a step it would unlock cannot get its child, and then the tables are as before; answers the child that ended |
| `Engine.ProcessEngine.ResumeParentAfterChildCallProcess` | src/automation/step-orchestrator.service.ts:49-89 | unlocks the steps after a completed call step and commits, or changes nothing |
| `Engine.ProcessEngine.DeliverNotice` | src/automation/automation-event-bridge.listener.ts:27-57 | one delivery action of the run: handle the notice, then drop it |
| `Engine.ProcessEngine.OnConfigObjectInstanceUpdated` | src/automation/automation-event-bridge.listener.ts:81-123 | a validation action, followed by an advance of the linked row's step exactly when the object satisfies the row's rule |
| `Engine.ProcessEngine.RecordMetTriggers` | src/automation/automation-event-bridge.listener.ts:147-200 | records exactly the unmet triggers that wait for the event and whose filter passes, in row order, and answers their steps, each once |
| `Engine.EventReachesIff` | src/automation/automation-event-bridge.listener.ts:155-200 | which triggers and steps those are, in terms of the trigger rows |
| `Engine.ProcessEngine.OnAnyDomainEvent` | src/automation/automation-event-bridge.listener.ts:146-207 | the recordings, then one advance for each of those steps in order; it throws exactly when one of these advances does, and ends with the first that does |
| `PathText.RenderParses` | src/config_objects/config_objects.service.ts:464-468 | a path of plain names and indexes, written with dots, parses back to itself |
| `PathText.BracketsAreDots` | src/config_objects/config_objects.service.ts:464 | `[n]` and `.n` mean the same path anywhere in a text |
| `PathText.JoinedParses` | src/config_objects/config_objects.service.ts:464-468 | a dotted text means the meanings of its pieces in order; each is trimmed and a blank one is left out |
| `PathText.PieceMeaning` | src/config_objects/config_objects.service.ts:478-483 | a piece is an index exactly when it is the numeral of that index, otherwise a name |
| `PathText.TrimLaw` | src/config_objects/config_objects.service.ts:464-468 | trimming takes all white space off both ends and nothing else |
| `Paths.SetValueAtPath` | src/config_objects/config_objects.service.ts:459-508 | the descending loop computes the write specified by recursion, with its silent endings and its TypeError |
| `Paths.GetAfterSetIff` | src/config_objects/config_objects.service.ts:472-507 | a write is read back at its path exactly when every container on the way accepts its segment; otherwise nothing is found there |
| `Paths.SetFrame` | src/config_objects/config_objects.service.ts:472-507 | a write changes nothing at paths neither above nor below its own |
| `Paths.SetCommutes` | src/config_objects/config_objects.service.ts:472-507 | two compatible writes commute on every target, errors included |
| `Paths.SetThrowsIff` | src/config_objects/config_objects.service.ts:472-507 | a write throws exactly when a name on its path meets a primitive, or there is no target |
| `Paths.OrderIrrelevantIff` | src/config_objects/config_objects.service.ts:472-507 | from an empty payload, two writes below names commute exactly when they part alike, or at one path write equal values, or the deeper one would leave the other's value as it is |
| `Paths.OrderExamples` | src/config_objects/config_objects.service.ts:472-507 | `x := {}` with `x.y := v`, and `x[0] := v` with `x.y := v`, depend on their order |
| `Paths.SecondThrowsIff` | src/config_objects/config_objects.service.ts:472-507 | from an empty payload, the second of two writes below names throws exactly when it leads through the first and meets a primitive inside its value |
| `Submit.ComposeRuntimeSubmitPayload` | src/config_objects/config_objects.service.ts:5442-5543 | the three loops compute the specified payload or the first error raised |
| `Submit.MissingRequiredFields` | src/config_objects/config_objects.service.ts:5490-5505 | finds a missing key exactly when some required field is not supplied |
| `Submit.SubmitSucceedsIff` | src/config_objects/config_objects.service.ts:5460-5536 | success exactly when no known supplied field is non-writable, every required field is supplied, every inline_required relation has a block and no write leads through a primitive that the writes before it have left |
| `SubmitOutcomes.CreationDecides` | src/config_objects/config_objects.service.ts:5460-5536 | a creation looks at canCreate and requiredOnCreate alone; its outcome is the first of: an obstructed field write, a field that may not be created, a missing required field, an obstructed relation write, a missing required block, or else the payload |
| `SubmitOutcomes.UpdateDecides` | src/config_objects/config_objects.service.ts:5460-5536 | the same for an update, with canUpdate and requiredOnUpdate |
| `SubmitOutcomes.CreationRefuses` | src/config_objects/config_objects.service.ts:5468-5511 | a value for a field with canCreate false is refused on creation, whatever canUpdate says, unless a write throws first |
| `SubmitOutcomes.UpdateRefuses` | src/config_objects/config_objects.service.ts:5468-5511 | a value for a field with canUpdate false is refused on update, whatever canCreate says, unless a write throws first |
| `SubmitOutcomes.DescriptorGoverns` | src/config_objects/config_objects.service.ts:5465-5467 | of several descriptors with one key the last one counts |
| `Submit.FailureHasItsCause` | src/config_objects/config_objects.service.ts:5468-5526 | such a primitive came with the value of an earlier write whose path the failing one leads through |
| `Submit.TypeErrorExample` | src/config_objects/config_objects.service.ts:5468-5488 | field x set to a number and field y stored at `x.y`: the submission fails with a TypeError |
| `Submit.PayloadHoldsEverything` | src/config_objects/config_objects.service.ts:5468-5526 | with compatible paths no write fails and the payload holds every accepted field and relation block at its path |
| `Submit.SubmitIgnoresOrder` | src/config_objects/config_objects.service.ts:5468-5488 | reordering the supplied entries changes neither payload nor error |
| `Submit.UnknownKeysAreIgnored` | src/config_objects/config_objects.service.ts:5469-5472 | dropping every unknown key changes nothing |
| `Submit.RequiredUnwritableAlwaysFails` | src/config_objects/config_objects.service.ts:5473-5519 | a field both required and not writable makes every submission fail |
| `Views.FirstRowIsActiveView` | src/config_objects/config_objects.service.ts:5145-5210 | the first row of a type group in the listing order is what the single lookup finds, for tenants and globally |
| `Views.ListActiveScopedConfigViews` | src/config_objects/config_objects.service.ts:5216-5270 | a tenant's listing is exactly the single lookup's answer for each type; the global listing is exactly the active global views, newest first per type |
| `Views.FirstWins` | src/config_objects/config_objects.service.ts:5259-5269 | the map keeps the first row of each type and is listed by type name |
| `ScopedViews.ViewStore.ActivateScopedConfigView` | src/config_objects/config_objects.service.ts:6356-6414 | keeps one active view per scope and makes the target the one that is found; errors change nothing |
| `Views.ActivateLaw` | src/config_objects/config_objects.service.ts:6395-6404 | the lookup finds the target, the other views of its scope are off, and no view outside the scope changes |
| `Views.TargetIff` | src/config_objects/config_objects.service.ts:6371-6393 | which id can be switched in a scope, and which of the two errors is raised otherwise |
| `ScopedViews.ViewStore.DeactivateScopedConfigView` | src/config_objects/config_objects.service.ts:6419-6490 | switches off one view or the scope, answers how many rows it wrote, keeps one active view per scope |
| `Views.DeactivateLaw` | src/config_objects/config_objects.service.ts:6471-6489 | exactly the named view, or the whole scope, is switched off; no other view changes |
| `ScopedViews.ViewStore.UpsertScopedConfigView` | src/config_objects/config_objects.service.ts:6070-6351 | edits or creates as specified, or throws exactly when a check fails or the save is rejected; every key is used once and every scope has at most one active view afterwards |
| `ScopedViews.ViewStore.CreateRow` | src/config_objects/config_objects.service.ts:6285-6328 | clears the scope, saves the new row unless it collides, and removes it again when the panel checks fail; the cleared scope is not restored |
| `ScopedViews.ViewStore.UpdateExisting` | src/config_objects/config_objects.service.ts:6201-6223 | clears the scope except for the row, then saves it unless it collides; the cleared scope is not restored |
| `ScopedViews.ActivationIsStored` | src/config_objects/config_objects.service.ts:6395-6404 | the save of an activation never collides, because the scope was cleared for it |
| `ScopedViews.UpsertKeepsIndexed` | src/db/migrations/1710000000010-ConfigObjectViewsV2Scope.ts:162-183 | both unique indexes, of view keys and of active scopes, hold after every upsert, thrown or not |
| `ScopedViews.UpsertThrowsIff` | src/config_objects/config_objects.service.ts:6120-6308 | an upsert throws exactly when a check fails, a value does not fit, another view of the object has the key, or it switches on a foreign row beside an active one |
| `ScopedViews.ThrownUpsertLosesActiveIff` | src/config_objects/config_objects.service.ts:6214-6328 | a thrown upsert changes the table exactly when it got as far as clearing the scope, asked for activation and another view of the scope was active; that scope then has no active view |
| `ScopedViews.KeyCollisionExample` | src/config_objects/config_objects.service.ts:6131-6134 | an edit without a key takes the default key, which the active view of the scope has: it throws and the scope loses that view |
| `ScopedViews.TrespassExample` | src/config_objects/config_objects.service.ts:6120-6131 | a tenant that edits by id an inactive view of another tenant, which has an active one, throws and loses its own active view |
| `ScopedViews.LostViewExample` | src/config_objects/config_objects.service.ts:6285-6328 | a request for an id that does not exist, failing its panel checks, leaves the scope without the view that was active |
| `ScopedViews.UpsertIsFound` | src/config_objects/config_objects.service.ts:6201-6308 | an activating upsert that passes its checks and can be saved is what the lookup finds, with the requested key, type and content, in the tenant scope of its row |
| `ScopedViews.UpsertStores` | src/config_objects/config_objects.service.ts:6201-6308 | a successful upsert replaces the edited row or appends a new one with the requested key, type, content and activity; an activating one switches off the other views of the scope; all other rows stay |
| `ScopedViews.ExistingIff` | src/config_objects/config_objects.service.ts:6115-6127 | which row an upsert edits: the object's row with the given id, or without an id the newest of the scope |
| `ScopedViews.FoldedIff` | src/db/migrations/1710000000000-ConfigObjectsInitial.ts:134 | keys are equal to the index when they read the same but for the case of letters |
| `CacheKeys.SchemaKeyInjective` | src/config_objects/config_objects.service.ts:160-165 | two schema requests share an entry only if tenant and object type agree |
| `CacheKeys.ViewKeyInjective` | src/config_objects/config_objects.service.ts:167-173 | two view requests share an entry only if tenant, entity and type agree, whatever the entity key contains |
| `CacheKeys.ManifestKeyInjective` | src/config_objects/config_objects.service.ts:175-181 | the same for manifests |
| `CacheKeys.InvalidationReaches` | src/config_objects/config_objects.service.ts:5406-5422 | the matcher accepts every key of the named tenant and entity in all three caches |
| `CacheKeys.OtherTenantsAreSpared` | src/config_objects/config_objects.service.ts:5413-5422 | a matcher that names a tenant rejects every key of any other |
| `CacheKeys.MatchesIff` | src/config_objects/config_objects.service.ts:5406-5422 | any key of the three caches is reached exactly when the request names its tenant or none, and `::entity` occurs in the rest of the key |
| `CacheKeys.InvalidationReachesIff` | src/config_objects/config_objects.service.ts:5406-5422 | for names without colons: a schema entry goes exactly when its entity begins with the name; a view or manifest entry also when its last part does |
| `RuntimeCaches.AliasMissesSchemaIff` | src/config_objects/config_objects.service.ts:1840-1848 | invalidating by the name asked for leaves the schema entry in place exactly when `::name` does not occur in the canonical one |
| `RuntimeCaches.AliasExample` | src/config_objects/core-field-descriptor/object-type-entity.registry.ts:286-289 | the plural of an object type misses its schema |
| `RuntimeCaches.ClearExpired` | src/config_objects/config_objects.service.ts:183-200 | keeps exactly the entries whose expiry is later than now |
| `RuntimeCaches.ClearByPredicate` | src/config_objects/config_objects.service.ts:202-214 | removes exactly the matching entries and counts them |
| `RuntimeCaches.ConfigRuntime.GetObjectSchema` | src/config_objects/config_objects.service.ts:1824-1912 | a schema returned now was right later than 30 s ago; it is the live entry, or else right now and remembered for 30 s; it throws exactly for an empty name |
| `RuntimeCaches.ConfigRuntime.GetActiveScopedConfigView` | src/config_objects/config_objects.service.ts:5145-5210 | a view returned now was right later than 30 s ago; it is the live entry, or else right now and remembered for 30 s |
| `RuntimeCaches.ConfigRuntime.GetRuntimeManifest` | src/config_objects/config_objects.service.ts:5276-5397 | the schema and each view inside a manifest returned now were right later than 60 s ago; it is the live entry, or else made of what the layers below answer and remembered; it throws exactly for an empty name without a live entry |
| `RuntimeCaches.RememberedAnswers` | src/config_objects/config_objects.service.ts:183-200 | a remembered answer is given again for 30 s, and no other question is affected |
| `RuntimeCaches.ConfigRuntime.InvalidateRuntimeCaches` | src/config_objects/config_objects.service.ts:5399-5440 | sweeps exactly the selected caches and reports how much each lost |
| `RuntimeCaches.InvalidatedPairIsGone` | src/config_objects/config_objects.service.ts:5413-5434 | after an invalidation no entry of the named tenant and entity is left |
| `RuntimeCaches.OtherTenantsKeepTheirs` | src/config_objects/config_objects.service.ts:5413-5422 | and every entry of any other tenant is there as before |

## Left out

- Concurrency inside a transaction, row locks, deadlock retries and isolation levels: each transaction is one atomic step on the tables.
- A crash between a commit and the handling of its terminal child: the notice is not stored by the system, so a crash there would lose it.
- Events other than the two that drive the parent and child protocol, trigger actions (emit, enqueue), notifications, timers, correlation ids, audit logs and all timestamps except the merge stamp.
- json-logic programs are predicates over the trigger context; AJV and the panel and form checks of views are outcomes handed to the operation.
- The `draft` process status, which no engine code writes or reads; process and step deletion; generic CRUD that bypasses the engine.
- Deletion of a custom object (its binding rows would be set to NULL); objects are edited but not removed.
- The scheduled-task, configurable-instance and workflow hosts touch no engine table on start or on state changes; `projects` and `scheduled_tasks` rows are not modelled.
- Status mappings of a single step (project_step_status_mappings with a step id), duplicate mapping rows and hybrid or manual moves by users.
- Resolution of the first step id after a start, and subject metadata: neither feeds back into the engine's tables.
- ChildProcess.ChildSubject: context entries are read as numbers only when they are plain digits, numbers or booleans; other spellings that JavaScript's Number accepts count as absent.
- Engine.ProcessEngine.ProvisionBindingsOnStepReady: rows are taken in id order, which is the template's binding order at instantiation; a later reordering of template bindings is not followed. The insert of a draft object does not fail.
- Engine.ProcessEngine.ValidateByCustomInstanceId: a row whose config object row is missing (an inner join in the query) is not distinguished.
- Engine.ProcessEngine.EvaluateCompletion: the query has no order, the model scans steps by id, so which step a binding reason names may differ.
- Engine.ProcessEngine.OnAnyDomainEvent: the filter of a trigger is a predicate on the trigger, and the event payload is not modelled.
- Births.StartDecides: of a task its project, step, status control and column are kept; name, identifier, priority and planning columns are not.
- Paths.SetValueAtPath: containers are values, so a second loop writes them back where JavaScript holds references; a supplied value that is itself an object is therefore copied, not shared with the caller.
- Paths.SetValueAtPath: negative integer segments are treated as names, indexes beyond the exact range of numbers as indexes, and properties inherited from prototypes (`toString`, `length`) as absent.
- PathText.RenderParses: white space is space, tab, carriage return and line feed.
- ScopedViews.ViewStore.UpsertScopedConfigView: name, description, role and default flag are not kept; they take no part in lookups or indexes. Whether the values fit their columns is an outcome handed to the operation.
- ScopedViews.Folded: the key column's collation is modelled for ASCII letters and trailing spaces; accented and other letters it treats as equal are told apart.
- Lifetimes.CanStartIff: for an automated step, and for a call step on an object its process does not know yet, only one direction is stated; whether they can start depends on what their predecessors and siblings do first, for which no condition on the present state is given.
- RuntimeCaches.ConfigRuntime.GetRuntimeManifest: a manifest is kept as the schema and views it was built from, without its rendered sections, diagnostics and generation time; a fill is one instant.
- CacheKeys.Matches: tenant ids are whole numbers; a fractional or exponent rendering of a number is not modelled.
- Field ordering of merged SoR and custom fields (`buildMergedFieldOrder`), per-type patches, list-field catalogs and related objects: two sorts side by side or SQL plumbing.
