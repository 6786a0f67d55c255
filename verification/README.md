# Verification of the Syncore autonomy engine

A Dafny model of the orchestrator's core and proofs of what its design relies on. `dafny verify dfyconfig.toml` checks everything.

**The engine.** A task is driven through plan, execute and review by ticks that recover all control state from an append-only event log. `TaskGate` holds the log scans as the loops they are, each proved against a specification that recurses from the newest event backwards; `ControlState` shows that all of them are queries on a state folded one event at a time. `Engine` gives each atomic step of a task as a function from state to state, and `AutonomyService` is the same engine as an object that scans, appends and updates, every method proved equal to its step function. A tick is two steps: the gates up to `stage.started`, and the settling of the stage run. Between them other ticks, approvals and events of other services may fall. The outcome of a stage run is arbitrary: any exception text, or any output.

**Runs.** `Discipline` states what each event may assume about the log before it (`EventOK`), and an invariant that every step keeps (`TickInvariant`, `Runs`). `LogTheorems` draws the consequences on logs, `Outcomes`, `Guarantees`, `Alternation` and `Rejection` on all runs from a fresh task: termination, completion safety, approval safety, backoff timing, attempt bounds, the low-information stop, the order of starts and terminal events, and what a rejection does. `Scans`, `Settlements` and `Decisions` say by positions in the log what every scan finds, what every settlement appends and what every tick answers, without naming the step functions. `Family`, `FamilyTheorems` and `FamilyOutcomes` put many tasks together and prove that parents and siblings never wait in a circle.

**The smaller cores.** `RateLimiter` (fixed windows), `RunQueue` and `QueueHistories` (two backends, one specification, and what a history makes of a job), `ProviderSelector` and `ProviderLaws` (hard limits, scoring, switch budget), `Delimited` (the encoding of plans and child ids), `Optimizer`, `References`, `ContextOptimizer` and `ContextLaws` (the token allocator, the store of replaced originals, and what a reader of the result can rely on).

## Hypotheses

- A reachable state (`Runs.Reaches`) is one that a run reaches with at most 200 events in the log. Callers ask the store for 500, 300 or 250 events, but both stores return at most 200 (services/memory/sqlite_store.py:493, services/memory/store.py:346-376). `Window.LongLogsBreakTheGuarantees` shows that the hypothesis is needed. It can be violated by waiting alone: an implementation child that waits for its sibling appends two untracked events per tick.
- Each step happens strictly later than everything in the log; the events of one step share its time. `TaskGate.EqualTimestampsHideARunningStage` shows why.
- Nobody else writes control events or changes a task's status. Settings are fixed during a run; the retry limit may vary below a bound, and the approval requirement may come and go where a theorem does not fix it.
- Times and delays are real numbers.

## Where code and documentation differ

- README.md:105 calls the step budget a hard cap on stage attempts. The code counts completed and failed stages (services/orchestrator/app/services/autonomy_task_gate.py:33-35), and the cap holds on starts only as long as the log fits the window.
- A rejection blocks a task for good if and only if no review run is in flight when it arrives (`Rejection.RejectionIsFinalIff`); a review in flight may still complete the task. Rejecting a completed task blocks it.
- Starts and terminal events alternate only while no tick raises before its stage starts: such a tick records a failure without a start, and two of them record two failures in a row (`Alternation.RunsAlternate`).
- A list of an execute plan that holds nothing but delimiters and blanks reads back as missing (`Delimited.PlanReadsBackExactly`).
- A blank log-like section over the size threshold makes the optimizer raise, after the row was stored.
- A budget of B provider switches allows at most B − 1 changes of provider, since the first run of a task is recorded as a switch.
- The provider fallback order never influences a choice: every available provider is scored. Nor does the score bonus for named providers: a named provider on offer is taken before anything is scored (`ProviderLaws.ChoiceByScore`).
- A critical section is emitted whole even over the budget, but a critical baton over its own limit would be cut; the assembler never marks a baton critical.

## Model

| member | source | states |
|---|---|---|
| Outcomes.Termination | services/orchestrator/app/services/autonomy_service.py:305-494 | for every interleaving of ticks, settlements, approvals and outside events from a fresh task, at most S + C ticks do anything but wait (S the step budget, C the cycle cap) |
| Outcomes.StepSpends | services/orchestrator/app/services/autonomy_service.py:305-494 | the termination measure never grows in any step and drops with every non-waiting tick; it is never negative |
| Outcomes.StatusNeverRevives | services/orchestrator/app/services/autonomy_service.py:309-312 | no step of any kind makes a completed or blocked task active again, and a tick leaves such a task exactly as it was |
| Outcomes.CompletionSafety | services/orchestrator/app/services/autonomy_stage_outcomes.py:85-307 | a task becomes completed only in a tick that sees all spawned children completed, or by a settlement after which plan, execute and review of its current cycle have completed in that order, each with a passed gate (or the local-echo relaxation) |
| Outcomes.CompletedTasksEarnedIt | services/orchestrator/app/services/autonomy_stage_outcomes.py:85-307 | the same over whole runs: every completed reachable task has a children-completed event or a cycle whose three stages passed in order |
| Decisions.CompletingStep | services/orchestrator/app/services/autonomy_finalizer.py:66-75 | a step that completes an active task either found a newest, non-empty fan-out all of whose tasks are completed, or settled a review and leaves a cycle whose three stages passed in order |
| Decisions.CompletedTasksDeserveIt | services/orchestrator/app/services/autonomy_stage_outcomes.py:85-307 | over every run: a completed task was told that its children are completed, or plan, execution and review were each settled with an output good enough for that stage |
| Settlements.RunsCompleteDeservedly | services/orchestrator/app/services/autonomy_stage_processor.py:161-189 | over every run of any length, each recorded completion carries the verdict that the output of one of its settlements earns |
| Outcomes.AlwaysANextStage | services/orchestrator/app/services/autonomy_service.py:390-399 | the branch that completes a task because no stage is left is never taken: an active reachable task always has a next stage |
| Outcomes.BlockedIsAbsorbingExcept | services/orchestrator/app/services/autonomy_service.py:496-538 | a step leaves a blocked task blocked if and only if it is not the settlement of an in-flight review run whose output is accepted; the exception completes the task |
| Outcomes.RejectionCanBeOverridden | services/orchestrator/app/services/autonomy_service.py:526-533 | one step of the failing family of "a rejection is final": with an acceptable review run in flight, the rejected task ends completed |
| Rejection.RejectionIsFinalIff | services/orchestrator/app/services/autonomy_service.py:526-533 | after a rejection every continuation, of any length, leaves the task blocked if and only if no review run was in flight when the rejection arrived |
| Rejection.RejectedTaskCompletes | services/orchestrator/app/services/autonomy_service.py:526-533 | for every configuration with at least three steps, and every task that does not fan out, a run from fresh that passes plan and execution, starts its review, is rejected, and completes |
| Rejection.CompletedStaysIff | services/orchestrator/app/services/autonomy_service.py:526-533 | with nothing in flight, a completed task stays completed in a step if and only if the step is no rejection, and a rejection blocks it |
| Rejection.CompletedRunsStayIff | services/orchestrator/app/services/autonomy_service.py:526-533 | over whole runs: such a task is completed at the end if and only if no step was a rejection |
| Outcomes.InFlightIsExact | services/orchestrator/app/services/autonomy_task_gate.py:110-124 | in every reachable state at most one stage run is in flight, and for an active task the log scan reports a stage as running exactly when it is that run |
| Guarantees.RunsStayWithinBudgets | services/orchestrator/app/services/autonomy_service.py:370-384 | every reachable log has at most S tracked steps, at most min(S, 3·C·(R+1)) stage starts, at most R+1 starts per stage and cycle, and recorded cycles 1, 2, …, k with k ≤ C |
| Guarantees.RunsBackOff | services/orchestrator/app/services/autonomy_stage_failures.py:113-136 | in every run, attempt k+1 of a stage in a cycle starts no earlier than base·(2^k − 1) seconds after the first failure |
| Guarantees.RunsRespectApproval | services/orchestrator/app/services/autonomy_service.py:401-429 | in every run, while approval is required each execute start has a latest approval before it and that one is positive; no stage start follows a rejection |
| Guarantees.RunsPlanAndDelegate | services/orchestrator/app/services/autonomy_service.py:833-884 | in every run, with execute plans enabled each execute start has a latest plan before it and that one is concrete; and a task that has fanned out into children starts no stage of its own any more |
| Guarantees.RunsStopRepeatedFailures | services/orchestrator/app/services/autonomy_stage_failures.py:46-97 | with the stop enabled, at every point of every run both the run of equal stage failures and the run of equal quality failures are below the threshold |
| Runs.RunKeepsInv | services/orchestrator/app/services/autonomy_service.py:305-494 | every state that a run of any length reaches, with a log inside the window, satisfies the invariant that all engine theorems use |
| Runs.StepKeepsInv | services/orchestrator/app/services/autonomy_service.py:305-494 | each of the four kinds of step keeps that invariant |
| LogTheorems.AttemptsAreNumbered | services/orchestrator/app/services/autonomy_stage_failures.py:39-44 | failed attempts of a stage in a cycle carry the numbers 1, 2, 3, … and never exceed R+1 |
| LogTheorems.FailuresSpread | services/orchestrator/app/services/autonomy_stage_failures.py:113-136 | the last of n failures of a stage comes at least the accumulated backoff after the first |
| LogTheorems.StartsAlternate | services/orchestrator/app/services/autonomy_task_gate.py:110-124 | whenever a stage starts, the newest earlier start or terminal event of that stage and cycle is not a start |
| LogTheorems.CompletionsEndStarts | services/orchestrator/app/services/autonomy_stage_processor.py:116-188 | every completion of a stage follows a start of its own: the newest earlier start or terminal event of that stage and cycle is a start |
| Alternation.RunsAlternate | services/orchestrator/app/services/autonomy_service.py:478-488 | over every run, starts and terminal events of every stage and cycle alternate, a start first, if and only if no tick recorded a failure that was raised before its stage started |
| Alternation.QuietRunsAlternate | services/orchestrator/app/services/autonomy_service.py:478-488 | so they alternate in every run whose ticks meet no exception before the stage start |
| Alternation.FailureEndsStartIffSettled | services/orchestrator/app/services/autonomy_stage_failures.py:99-112 | a recorded failure follows a start of its own if and only if a settlement recorded it |
| Alternation.EarlyFailureHasNoStart | services/orchestrator/app/services/autonomy_stage_processor.py:80-124 | under every configuration, a reachable log whose third event is a failure without a start: a first tick that raises while it chooses the provider |
| LogTheorems.PassedReviewCompletesPipeline | services/orchestrator/app/services/autonomy_task_gate.py:63-83 | a passed review is preceded by a passed execution of the same cycle, and that by a passed plan |
| ControlState.ScansRefineFold | services/orchestrator/app/services/autonomy_task_gate.py:24-136 | for every log, each scan equals a query on a control state folded one event at a time, so an incremental reader would see exactly what the rescans see |
| TaskGate.InflightIffLastMarkIsStart | services/orchestrator/app/services/autonomy_task_gate.py:110-124 | on a chronological log a stage is seen as running exactly when its newest start-or-terminal event is a start whose timestamp differs from the latest terminal one |
| TaskGate.EqualTimestampsHideARunningStage | services/orchestrator/app/services/autonomy_task_gate.py:122-124 | a concrete log with equal timestamps whose running stage the scan does not see |
| TaskGate.LatestEvent | services/orchestrator/app/services/autonomy_service.py:1140-1144 | the newest event of a type, or none |
| TaskGate.ScanCurrentCycle | services/orchestrator/app/services/autonomy_task_gate.py:24-31 | the cycle of the newest readable cycle event, 1 when there is none |
| TaskGate.TotalStepEvents | services/orchestrator/app/services/autonomy_task_gate.py:33-35 | the number of completed and failed stages over the whole log |
| TaskGate.ScanNextStage | services/orchestrator/app/services/autonomy_task_gate.py:63-83 | the first stage, in pipeline order, without a completion in the cycle |
| TaskGate.ScheduledRetryEpoch | services/orchestrator/app/services/autonomy_task_gate.py:85-108 | the retry time of the newest schedule for the stage in the cycle |
| TaskGate.StageInflight | services/orchestrator/app/services/autonomy_task_gate.py:110-124 | whether the latest start is strictly later than the latest terminal event |
| TaskGate.FailedAttempts | services/orchestrator/app/services/autonomy_task_gate.py:126-136 | how often the stage failed in the cycle |
| TaskGate.IsLowInformationFailure | services/orchestrator/app/services/autonomy_failure_handler.py:101-115 | true exactly when the signature is not empty and the run of newest equal failures has reached the threshold minus one |
| TaskGate.IsLowInformationQualityFailure | services/orchestrator/app/services/autonomy_quality_gate.py:161-175 | the same for quality failures |
| Scans.LatestIsNewest | services/orchestrator/app/services/autonomy_service.py:1140-1144 | by position: the event of the type after which no other of it comes |
| Scans.CycleIsNewest | services/orchestrator/app/services/autonomy_task_gate.py:24-31 | by position: the number of the newest cycle event |
| Scans.RetryIsNewest | services/orchestrator/app/services/autonomy_task_gate.py:85-108 | by position: the newest schedule of the stage in the cycle |
| Scans.InflightIsOpen | services/orchestrator/app/services/autonomy_task_gate.py:110-124 | by position: a newest start, and every newest end strictly before it |
| Scans.StepCountCounts | services/orchestrator/app/services/autonomy_task_gate.py:33-35 | the count is the number of positions with a completed or failed stage |
| Scans.FailuresCount | services/orchestrator/app/services/autonomy_task_gate.py:126-136 | the count is the number of positions with a failure of the stage in the cycle |
| Scans.NextStageIsNext | services/orchestrator/app/services/autonomy_task_gate.py:63-83 | the stage that has no completion in the cycle while its predecessors have one |
| Scans.FailureRunIsTail | services/orchestrator/app/services/autonomy_failure_handler.py:101-115 | the run has reached n exactly when the last n failures all carry the stage and the signature |
| Scans.QualityRunIsTail | services/orchestrator/app/services/autonomy_quality_gate.py:161-175 | the same for quality failures |
| Scans.FailureIsNewest | services/orchestrator/app/services/autonomy_failure_handler.py:37-56 | by position: the newest execution failure of the cycle or of none |
| EventLog.ListProjectEvents | services/memory/sqlite_store.py:490-522 | select newest first, then reverse: the last min(max(limit, 1), 200) events in log order |
| EventLog.WindowExact | services/memory/store.py:346-376 | a reader that asks for 200 or more events sees the whole log if and only if the log has at most 200 |
| Window.FullWindowForgets | services/orchestrator/app/services/autonomy_service.py:314-494 | once the newest 200 events of an active task are untracked ones, a tick bootstraps again, records cycle 1 again and starts a plan run whatever is in flight |
| Window.LongLogsBreakTheGuarantees | services/orchestrator/app/services/autonomy_service.py:314-494 | for every configuration a feasible run past 200 events that ends with two plan runs in flight, two starts and cycle 1 recorded twice: neither the bound on runs in flight nor the cap on starts (with a budget of one step) survives without the window hypothesis |
| AutonomyService.TaskEngine.constructor | services/orchestrator/app/services/autonomy_service.py:79-117 | whatever the settings, the configuration is the clamped one; a new task has an empty log, status new and nothing in flight |
| Engine.Clamp | services/orchestrator/app/services/autonomy_service.py:111-128 | the result is always within the bounds (at least one cycle, one step, 0.1 s of base delay, a threshold of two, minimum lengths 20, 40 and 20), and settings are kept exactly when they already are |
| AutonomyService.TaskEngine.ProcessTask | services/orchestrator/app/services/autonomy_service.py:305-477 | the tick up to the stage start: the whole new state and the result, gate by gate, as the step function that the run theorems are about |
| AutonomyService.TaskEngine.StageGates | services/orchestrator/app/services/autonomy_service.py:401-446 | approval, then backoff, then the later gates |
| AutonomyService.TaskEngine.ScanApproval | services/orchestrator/app/services/autonomy_task_gate.py:37-50 | not required, awaiting, approved or rejected, by the newest approval event |
| AutonomyService.TaskEngine.EnsureApprovalRequested | services/orchestrator/app/services/autonomy_task_gate.py:52-61 | the approval request is recorded at most once |
| AutonomyService.TaskEngine.RecommendationGate | services/orchestrator/app/services/autonomy_service.py:1071-1122 | only an implementation child about to execute is held back or blocked by its analysis sibling |
| AutonomyService.TaskEngine.ExecutePlanGate | services/orchestrator/app/services/autonomy_service.py:833-884 | without a concrete plan, execute is not started: below the cycle cap a new cycle begins, at the cap the task is blocked |
| AutonomyService.TaskEngine.ScanPlan | services/orchestrator/app/services/autonomy_service.py:808-831 | whether the newest plan event reads back as a concrete plan |
| AutonomyService.TaskEngine.StartStage | services/orchestrator/app/services/autonomy_service.py:458-482 | no second start while a run is in flight; otherwise the start is recorded together with the log as this tick read it |
| Decisions.SpentBudgetBlocks | services/orchestrator/app/services/autonomy_service.py:370-384 | with as many terminal events in view as the step budget allows, a task without children is blocked |
| Decisions.HindrancesDecide | services/orchestrator/app/services/autonomy_service.py:401-446 | what a tick answers while approval is missing or refused, while the newest retry lies in the future, and while an analysis sibling holds the task: the whole state each time, and no longer than that |
| Decisions.UnhinderedStageBegins | services/orchestrator/app/services/autonomy_service.py:448-488 | otherwise: an execution without a concrete plan replans below the cycle cap and blocks at it, an open stage keeps running, and any other stage begins or records the failure before its start |
| Decisions.StageBeginsIff | services/orchestrator/app/services/autonomy_service.py:401-482 | a stage begins if and only if it may run, is not open, and meets no exception before its start |
| Decisions.SomeStageIsFaced | services/orchestrator/app/services/autonomy_service.py:386-399 | in a reachable state every active task without children and with budget left has such a stage in front of it |
| AutonomyService.TaskEngine.BootstrapIfNeeded | services/orchestrator/app/services/autonomy_service.py:540-581 | started and cycle 1 are recorded when the window shows no start; otherwise nothing changes and the current cycle is returned |
| AutonomyService.TaskEngine.ChildGateStatus | services/orchestrator/app/services/autonomy_finalizer.py:32-79 | blocked children win over everything; completion needs every listed child; unknown ids keep the parent waiting |
| AutonomyService.TaskEngine.CountChildren | services/orchestrator/app/services/autonomy_finalizer.py:43-60 | which of the listed children are blocked, and whether all of them are completed |
| Decisions.ChildrenDecide | services/orchestrator/app/services/autonomy_finalizer.py:62-79 | a parent with a non-empty fan-out: one blocked child fails it, all completed complete it, anything else keeps it waiting unchanged; exact conditions and the whole new state |
| Decisions.AloneNeverWaitsForChildren | services/orchestrator/app/services/autonomy_finalizer.py:32-41 | a task without children is never answered for its children |
| Decisions.CompletingTickSawChildren | services/orchestrator/app/services/autonomy_finalizer.py:66-75 | a tick that completes a reachable task saw every task of its newest, non-empty fan-out completed |
| FamilyOutcomes.ReportedChildrenAreCompleted | services/orchestrator/app/services/autonomy_finalizer.py:66-75 | over every family run: whenever a task is told that its children are completed, it has fanned out and every task it spawned is completed |
| AutonomyService.TaskEngine.FinalizeTask | services/orchestrator/app/services/autonomy_finalizer.py:16-30 | the task is completed and the completion event is in the log once |
| AutonomyService.TaskEngine.StageFailure | services/orchestrator/app/services/autonomy_stage_failures.py:31-184 | low-information stop, recorded failure, then retry with doubled delay, next cycle, or block |
| Settlements.RaisedRunIsAnswered | services/orchestrator/app/services/autonomy_stage_failures.py:39-184 | a raised run is stopped after too many equal failures; otherwise the numbered failure is recorded, followed by a retry after the doubled delay, the next cycle, or the end of the task, as its cause calls for |
| Settlements.ProviderFailuresAreRetried | services/orchestrator/app/services/autonomy_stage_failures.py:113-136 | a newest failed run or provider failure with attempts left is retried in place, at the exact time |
| Settlements.VerificationFailuresReplan | services/orchestrator/app/services/autonomy_stage_failures.py:137-158 | with the taxonomy on, a verification or acceptance failure is never retried: next cycle below the cap, block at it |
| Settlements.HardFailuresBlock | services/orchestrator/app/services/autonomy_stage_failures.py:159-184 | with the taxonomy on, an environment failure, a policy block and a risk guardrail block the task at once |
| Settlements.PlainFailuresAreRetried | services/orchestrator/app/services/autonomy_failure_handler.py:93-95 | without the taxonomy nothing replans: retried while attempts are left, blocked afterwards |
| AutonomyService.TaskEngine.QualityOutcome | services/orchestrator/app/services/autonomy_stage_outcomes.py:124-231 | low-information stop, block at the cycle cap, or a recorded quality failure and the next cycle |
| AutonomyService.TaskEngine.ReviewOutcome | services/orchestrator/app/services/autonomy_stage_outcomes.py:233-307 | completion, or another cycle below the cap, or block |
| AutonomyService.TaskEngine.StageOutput | services/orchestrator/app/services/autonomy_stage_processor.py:161-219 | stage.completed first, then the quality outcome, the review outcome or the stage success, with the local-echo relaxation |
| Settlements.AcceptedIsGoodEnough | services/orchestrator/app/services/autonomy_stage_processor.py:164-189 | the verdict in plain terms: which plans, executions and reviews are good enough, defect by defect, and that a local echo relaxes executions and reviews only |
| Settlements.PoorOutputMeans | services/orchestrator/app/services/autonomy_stage_outcomes.py:124-231 | an output that is not good enough is recorded as failed; then stop after too many equal failures, block at the cycle cap, next cycle below it; the whole log and status |
| Settlements.GoodPlanMeans | services/orchestrator/app/services/autonomy_stage_outcomes.py:309-353 | a good plan is recorded for its cycle with the concreteness it has, unless the newest plan is of this cycle; then the task fans out if it may and has not |
| Settlements.GoodExecutionMeans | services/orchestrator/app/services/autonomy_stage_outcomes.py:309-353 | a good execution changes nothing but for the first recommendation of an analysis child |
| Settlements.GoodReviewCompletes | services/orchestrator/app/services/autonomy_stage_outcomes.py:233-278 | a good review completes the task |
| AutonomyService.TaskEngine.SettleStage | services/orchestrator/app/services/autonomy_service.py:478-494 | the second half of a tick: the whole new state for a raised or finished run |
| AutonomyService.TaskEngine.PersistExecutePlan | services/orchestrator/app/services/autonomy_service.py:749-789 | at most one plan event per cycle |
| AutonomyService.TaskEngine.SpawnSubtasksOnce | services/orchestrator/app/services/autonomy_subtasks.py:21-112 | the fan-out event is recorded only for a task that may fan out and has not |
| AutonomyService.TaskEngine.PersistHandoff | services/orchestrator/app/services/autonomy_service.py:962-1069 | a recommendation is recorded once, by the execution of an analysis child only |
| AutonomyService.TaskEngine.Approve | services/orchestrator/app/services/autonomy_service.py:496-538 | the approval event, and for a rejection the block, whatever the status was |
| FailureHandler.ClassifyFailure | services/orchestrator/app/services/autonomy_failure_handler.py:23-99 | the verdict (category, retry allowed, replan) that the newest execution failure of the cycle and the error text imply |
| Settlements.CauseDecides | services/orchestrator/app/services/autonomy_failure_handler.py:32-84 | which categories and reasons call for a retry, for a new cycle or for the end, and the category each reason text leads to |
| QualityGate.StageQualityGate | services/orchestrator/app/services/autonomy_quality_gate.py:36-118 | score and verdict equal 100 minus the summed weights of the defects, floored at 0, against 70 |
| QualityGate.ExamineStage | services/orchestrator/app/services/autonomy_quality_gate.py:60-110 | the stage-specific checks take off exactly the weights of the defects of that stage |
| QualityGate.PassedReviewKeepsKeyword | services/orchestrator/app/services/autonomy_stage_outcomes.py:233-252 | the review-failed branch is never taken after a passed quality gate, with or without local echo |
| QualityGate.EnforcedReviewPasses | services/orchestrator/app/services/autonomy_quality_gate.py:80-118 | exactly which enforced reviews pass: long enough, with the keyword, at most four unchecked items, and the other defects within the rest of the 30 points |
| Settlements.PlanPasses | services/orchestrator/app/services/autonomy_quality_gate.py:60-75 | exactly which plans pass, for every number of missing topics |
| Settlements.ExecutionPasses | services/orchestrator/app/services/autonomy_quality_gate.py:76-88 | an execution passes exactly when it is long enough and has at most one of its three other defects |
| Settlements.ReviewPasses | services/orchestrator/app/services/autonomy_quality_gate.py:89-114 | exactly which reviews pass, enforced or not |
| Settlements.PlanPoints | services/orchestrator/app/services/autonomy_quality_gate.py:56-75 | what each defect of a plan costs |
| Settlements.ExecutionPoints | services/orchestrator/app/services/autonomy_quality_gate.py:76-88 | what each defect of an execution costs |
| Settlements.ReviewPoints | services/orchestrator/app/services/autonomy_quality_gate.py:89-114 | what each defect of a review costs |
| Family.SpawnOnce | services/orchestrator/app/services/autonomy_subtasks.py:30-111 | one fresh task per selected template, in template order, with ids returned in that order |
| Family.RecommendedImprovementState | services/orchestrator/app/services/autonomy_candidates.py:74-125 | ready, waiting or blocked for an implementation child, by the state of its analysis siblings |
| Family.CollectAnalysis | services/orchestrator/app/services/autonomy_candidates.py:75-89 | finds a recommendation exactly when some analysis child has one, and otherwise collects exactly the analysis children |
| Family.JudgeAnalysis | services/orchestrator/app/services/autonomy_candidates.py:90-125 | whether some analysis child is blocked, unfinished, or has left a baton |
| FamilyOutcomes.SiblingsDecide | services/orchestrator/app/services/autonomy_candidates.py:74-125 | exactly when an implementation child is ready, waiting and blocked |
| FamilyOutcomes.SiblingsAreOfTheParent | services/orchestrator/app/services/autonomy_candidates.py:127-139 | the siblings are the newest fan-out of the parent |
| FamilyTheorems.FamilyRunKeepsInv | services/orchestrator/app/services/autonomy_subtasks.py:21-112 | every interleaving of task creations and steps of all tasks keeps the family invariant |
| FamilyTheorems.StepFansOut | services/orchestrator/app/services/autonomy_subtasks.py:21-29 | a step adds a fan-out event exactly when it settles an accepted plan of a task that may fan out and has not |
| FamilyTheorems.FanOutOnce | services/orchestrator/app/services/autonomy_subtasks.py:21-112 | over every run a task fans out at most once, into one to four distinct tasks of its own, and a spawned task never fans out |
| FamilyOutcomes.FanOutCreates | services/orchestrator/app/services/autonomy_subtasks.py:30-101 | over every run the children are, in order, an analysis, an implementation, a review and an integration task; three by default, as many as asked for up to four; none of them may fan out |
| FamilyTheorems.NoDeadlock | services/orchestrator/app/services/autonomy_finalizer.py:32-79 | whenever a task waits for its children or for a sibling, some member of the same family is active and waits for nobody |
| FamilyTheorems.ImplementationWaitsForAnalysis | services/orchestrator/app/services/autonomy_service.py:1071-1122 | an implementation child starts its execution only when an analysis sibling has recommended something or every analysis sibling is completed |
| FamilyTheorems.RefusedOnlyByBlockedAnalysis | services/orchestrator/app/services/autonomy_candidates.py:90-125 | an implementation child is refused if and only if no analysis sibling has recommended and one is blocked: a completed analysis child always left a baton |
| RateLimiter.Middleware.Request | services/orchestrator/app/security.py:33-55 | the decision, the counter update and the told delay of one request, tied to the history of arrivals |
| RateLimiter.KeysAreIndependent | services/orchestrator/app/security.py:39-47 | the slot of a key is a function of that key's arrivals alone |
| RateLimiter.SlidingWindowBound | services/orchestrator/app/security.py:33-55 | on a clock that never runs backwards, every half-open interval of window length admits at most 2·max − 1 requests of a key |
| RateLimiter.BoundIsTight | services/orchestrator/app/security.py:33-55 | for every limit there are arrivals that reach 2·max − 1 |
| RateLimiter.WindowAdmitsMin | services/orchestrator/app/security.py:39-47 | each internal window admits exactly min(a, max) requests, where a counts the requests of the key since the window opened; the counter of the slot is that number |
| RunQueue.SelectOldest | services/memory/store.py:935-955 | no row exactly when nothing is claimable; otherwise an oldest claimable job |
| RunQueue.PostgresQueue.Enqueue | services/memory/store.py:915-933 | a queued job without attempts, allowed at least one |
| RunQueue.PostgresQueue.Claim | services/memory/store.py:935-955 | claims an oldest claimable job and changes nothing else; none exactly when nothing is claimable |
| RunQueue.PostgresQueue.Complete | services/memory/store.py:957-999 | the SQL CASE form computes the specified transition |
| RunQueue.SqliteQueue.Enqueue | services/memory/sqlite_store.py:996-1028 | the same insertion as the other backend |
| RunQueue.SqliteQueue.Claim | services/memory/sqlite_store.py:1030-1060 | run sequentially, the select-then-update form meets the same claim specification |
| RunQueue.SqliteQueue.Complete | services/memory/sqlite_store.py:1062-1108 | the Python branch computes the same specified transition as the SQL CASE form |
| RunQueue.AttemptsAreBounded | services/memory/store.py:957-999 | over every history of enqueue, claim and complete, even completions of jobs that do not run: a live job has used fewer attempts than allowed and no job is claimed more often than that |
| RunQueue.ExhaustedStaysDead | services/memory/store.py:957-999 | once its attempts are used up a job is done or dead for good, whatever is reported later |
| QueueHistories.JobIsItsHistory | services/memory/store.py:957-999 | over every history a job is what its enqueueing, its reported retries and the last operation on it say: done if and only if reported done, back for a retry if and only if fewer retries than allowed were reported, dead otherwise, with the error and run last reported |
| QueueHistories.ClaimableIffWaiting | services/memory/store.py:935-955 | the claimable jobs are exactly those last enqueued, or sent back with an attempt left, by now |
| QueueHistories.ClaimsAreFair | services/memory/store.py:935-955 | a claim takes a waiting job, and no job that waits was created before it |
| ProviderSelector.RecentProviderFailures | services/orchestrator/app/services/autonomy_runtime_selector.py:201-215 | per provider, the run failures and provider failures among the newest 30 events |
| ProviderSelector.ProviderScore | services/orchestrator/app/services/autonomy_runtime_selector.py:216-305 | the score as a sum of loyalty, task fit, goal fit and stage affinity less 40 per recent failure, below the two rejection values of the hard limits |
| ProviderSelector.RuntimeSelector.FailureAwareProviderChoice | services/orchestrator/app/services/autonomy_runtime_selector.py:180-200 | the preferred provider unless it failed twice recently and another one has no failure |
| ProviderSelector.RuntimeSelector.StageProviderOrder | services/orchestrator/app/services/autonomy_runtime_selector.py:306-337 | the fallback order names exactly the available providers, the default one first |
| ProviderSelector.RuntimeSelector.ResolveProvider | services/orchestrator/app/services/autonomy_runtime_selector.py:30-93 | the choice as a function that does not take the fallback order: once providers are scored, that preference never matters |
| ProviderSelector.HeadOfSort | services/orchestrator/app/services/autonomy_runtime_selector.py:90-93 | the head of the stable descending sort is the first entry with the greatest score |
| ProviderSelector.RuntimeSelector.BestScored | services/orchestrator/app/services/autonomy_runtime_selector.py:77-93 | the winner of the scoring loop and sort has the greatest score, first in capability order on ties |
| ProviderSelector.ComplianceSeparatesScores | services/orchestrator/app/services/autonomy_runtime_selector.py:247-305 | a provider within the hard limits scores at least −1400 and any other at most −5000 |
| ProviderSelector.HardLimitsDominate | services/orchestrator/app/services/autonomy_runtime_selector.py:72-93 | when selection reaches scoring, the chosen provider meets the context, latency and cost limits if and only if some provider does |
| ProviderLaws.LimitsMean | services/orchestrator/app/services/autonomy_runtime_selector.py:247-254 | what the context, latency and cost limits ask of a provider |
| ProviderLaws.CheaperIsBetter | services/orchestrator/app/services/autonomy_runtime_selector.py:289-297 | of two providers that differ in cost only, the cheaper one scores strictly higher under the goals cost and balanced, equal otherwise |
| ProviderLaws.BetterQualityIsBetter | services/orchestrator/app/services/autonomy_runtime_selector.py:275-297 | the same for quality, under quality, balanced and high complexity |
| ProviderLaws.FasterIsBetter | services/orchestrator/app/services/autonomy_runtime_selector.py:276-297 | the same for speed, under speed, balanced and low complexity |
| ProviderLaws.LargerContextIsBetter | services/orchestrator/app/services/autonomy_runtime_selector.py:277-297 | the same for the context size, under context, for research and analysis, and under balanced below 256000 tokens |
| ProviderLaws.FailureCostsForty | services/orchestrator/app/services/autonomy_runtime_selector.py:304 | one more recent failure costs exactly 40 points |
| ProviderLaws.LoyaltyIsWorth | services/orchestrator/app/services/autonomy_runtime_selector.py:256-274 | what being named for the stage, preferred, previous or last successful is worth, and what it costs to be another one while switching is off |
| ProviderLaws.ReviewerIsWorth | services/orchestrator/app/services/autonomy_runtime_selector.py:279-284 | preferring the reviewer is worth 35 points to anthropic in a review and nothing otherwise |
| ProviderLaws.StageFavourites | services/orchestrator/app/services/autonomy_runtime_selector.py:298-303 | among equals, plans and executions go to openai and reviews to anthropic |
| ProviderLaws.StageRunnersUp | services/orchestrator/app/services/autonomy_runtime_selector.py:298-303 | the order of the next two, before everybody else |
| ProviderLaws.RecentFailuresAreOfThirty | services/orchestrator/app/services/autonomy_runtime_selector.py:201-215 | the failures counted are those among the newest 30 events |
| ProviderLaws.ChoiceBeforeScoring | services/orchestrator/app/services/autonomy_runtime_selector.py:45-71 | who is chosen without scoring: the pinned previous provider, the wanted one unless it failed twice, the unavailable default |
| ProviderLaws.AlternativeIsFirst | services/orchestrator/app/services/autonomy_runtime_selector.py:194-199 | the replacement of a failing wanted provider is the first other one without recent failures |
| ProviderLaws.NoAlternative | services/orchestrator/app/services/autonomy_runtime_selector.py:194-200 | without such a provider the wanted one stays |
| ProviderLaws.ChoiceByScore | services/orchestrator/app/services/autonomy_runtime_selector.py:72-93 | otherwise the first provider with the greatest score; none of the scored ones is a named one, so the bonus for named providers never takes part in a choice |
| ProviderLaws.LatestRunIsNewest | services/orchestrator/app/services/autonomy_runtime_selector.py:338-352 | the latest run is what the newest event with both names says |
| ProviderLaws.SwitchesAreRecorded | services/orchestrator/app/services/autonomy_runtime_selector.py:353-386 | when a stage run records a switch, and what the event names |
| ProviderLaws.SwitchesAreCounted | services/orchestrator/app/services/autonomy_stage_processor.py:241-250 | the switches and cross-provider switches are counted by position |
| ProviderSelector.LatestRunProviderModel | services/orchestrator/app/services/autonomy_runtime_selector.py:338-352 | provider and model of the newest of the last 100 events that names both |
| ProviderSelector.EffectivePolicy | services/orchestrator/app/services/autonomy_stage_processor.py:241-250 | switching is forbidden exactly when the visible switch events have reached the budget |
| ProviderSelector.RuntimeSelector.RecordModelSwitchIfNeeded | services/orchestrator/app/services/autonomy_runtime_selector.py:353-386 | a switch event is added exactly when provider or model differ from the latest run |
| ProviderSelector.RuntimeSelector.RunStage | services/orchestrator/app/services/autonomy_stage_processor.py:80-160 | one stage run from the provider it asks for to the switch it records |
| ProviderSelector.SwitchesWithinBudget | services/orchestrator/app/services/autonomy_stage_processor.py:241-250 | over every run of stages the cross-provider switch events stay within the budget |
| ProviderSelector.FirstRunSpendsOne | services/orchestrator/app/services/autonomy_runtime_selector.py:366-386 | the first run records a switch event too, so with budget B at most B − 1 events cross providers |
| Delimited.RoundTrip | services/orchestrator/app/services/autonomy_text_utils.py:114-117 | splitting the joined text returns the items if and only if every item is trimmed, not empty and free of the delimiter |
| Delimited.ChildIdsRoundTrip | services/orchestrator/app/services/autonomy_subtasks.py:103-111 | UUID texts joined by "," come back exactly |
| Delimited.CutRoundTrip | services/orchestrator/app/services/autonomy_service.py:773-831 | after any cut, reading back gives a prefix of the items plus at most one right-trimmed non-empty prefix of the next |
| Delimited.FieldKeepsItems | services/orchestrator/app/services/autonomy_service.py:773-831 | a stored plan field, cut or not and whatever its items are, reads back empty exactly when it has no character other than white space and the delimiter; with plain items, exactly when there was no item |
| Delimited.PlanReadsBackExactly | services/orchestrator/app/services/autonomy_service.py:886-891 | a stored plan passes the execute gate if and only if its objective is not blank and one of its stored lists has a character that is neither white space nor its delimiter: no hypothesis on the items |
| ContextLaws.StoredFieldIsPrefix | services/orchestrator/app/services/autonomy_service.py:773-785 | a stored field is the joined list or its first 250 characters |
| Delimited.JoinedInk | services/orchestrator/app/services/autonomy_service.py:773-781 | uncut, that is the case exactly when one of the items has such a character, so a list of delimiters and blanks alone reads back as missing |
| Delimited.PlanReadsBackConcrete | services/orchestrator/app/services/autonomy_service.py:886-891 | in particular, with plain items, exactly when the stored objective is not blank and one of the lists has an item |
| Optimizer.Shorten | services/orchestrator/app/context/optimizer.py:212-214 | at most the width, the text itself when it fits, and empty exactly when the text is |
| Optimizer.Compact | services/orchestrator/app/context/optimizer.py:212-214 | runs of white space become one blank and the ends are trimmed |
| Optimizer.CompactedIsCompact | services/orchestrator/app/context/optimizer.py:212-214 | compacting leaves only single inner blanks, never lengthens a text, and gives the empty text exactly for blank text |
| Optimizer.CompactedIsIdentityIff | services/orchestrator/app/context/optimizer.py:212-214 | compacting leaves a text unchanged if and only if it is compact |
| Optimizer.Summarize | services/orchestrator/app/context/optimizer.py:212-214 | the compacted text itself when it fits the width, within the width otherwise, and empty exactly for blank text |
| Optimizer.ReduceNoncritical | services/orchestrator/app/context/optimizer.py:195-210 | the reduced section is empty exactly when fewer than 30 tokens remain or its text is blank; otherwise it fits what remains |
| Optimizer.CriticalIsVerbatim | services/orchestrator/app/context/optimizer.py:136-193 | a critical section leaves the transformation unchanged, except a baton over the baton limit, which is cut |
| Optimizer.EmittedPlusSkipped | services/orchestrator/app/context/optimizer.py:63-98 | emitted plus skipped sections make up the input |
| Optimizer.SkippedExactly | services/orchestrator/app/context/optimizer.py:73-98 | a section is skipped if and only if it is not critical, does not fit, and fewer than 30 tokens remain or its text is blank |
| Optimizer.AllocationWithinBudget | services/orchestrator/app/context/optimizer.py:73-98 | the tokens spent stay within the budget plus the cost of the critical sections that overflowed it |
| Optimizer.RenderedTokens | services/orchestrator/app/context/retrieval_refs.py:6-9 | the rendered prompt costs at most the section costs plus a quarter of what the titles exceed 34 characters by |
| Optimizer.PromptBound | services/orchestrator/app/context/optimizer.py:266-270 | the estimate of the rendered prompt is within the budget, plus the overflowing critical sections, plus the rounded-up quarter of the title excess |
| ContextLaws.EstimateIsCeiling | services/orchestrator/app/context/retrieval_refs.py:6-9 | four characters are a token, a begun one counts |
| ContextLaws.PromptsConcatenate | services/orchestrator/app/context/optimizer.py:266-270 | a prompt is the prompt of its first sections, a blank line, and the prompt of the rest |
| ContextLaws.PromptOfOne | services/orchestrator/app/context/optimizer.py:266-270 | the prompt of one section is its heading and its content |
| ContextLaws.UntouchedSections | services/orchestrator/app/context/optimizer.py:136-193 | which sections the rewriting leaves word for word: preserved ones, and those within the limits that apply to them |
| ContextLaws.RewritingShortens | services/orchestrator/app/context/optimizer.py:136-193 | no rewriting except a reference lengthens a section, and unpreserved sections end within their limit |
| ContextLaws.CutBatonTells | services/orchestrator/app/context/optimizer.py:178-184 | a cut baton keeps its first characters and says how many are missing |
| ContextOptimizer.KeepFullIndexes | services/orchestrator/app/context/optimizer.py:55-61 | exactly the newest `recent_events_full_count` event-like sections are kept whole |
| ContextLaws.RecentMeansFewAfter | services/orchestrator/app/context/optimizer.py:55-61 | an event-like section is kept whole exactly when fewer than the configured number come after it |
| ContextOptimizer.SimpleContextOptimizer.TransformSection | services/orchestrator/app/context/optimizer.py:136-193 | what becomes of a section, which reference it creates, that it raises exactly for a blank log-like section over the threshold, and that no stored original changes |
| ContextOptimizer.SimpleContextOptimizer.EmitSection | services/orchestrator/app/context/optimizer.py:73-98 | the decision on one transformed section, with a warning exactly for a critical one over the budget |
| ContextOptimizer.SimpleContextOptimizer.Optimize | services/orchestrator/app/context/optimizer.py:45-128 | raises exactly when some log-like section over the threshold is blank; otherwise the pass is an allocation in the sense of the theorems above and the included references are those of the large log-like sections, all stored |
| ContextLaws.RefsOfReplaced | services/orchestrator/app/context/optimizer.py:146-176 | the included references are those of exactly the large, unpreserved logs, outputs and files |
| ContextOptimizer.SimpleContextOptimizer.SaveReference | services/orchestrator/app/context/optimizer.py:216-244 | the row is stored under its digest id, older originals stay as they are, and a blank content is refused after it was stored |
| ContextOptimizer.SimpleContextOptimizer.Retrieve | services/orchestrator/app/context/optimizer.py:130-134 | the stored reference, or none for an unknown id or a row with an empty summary |
| ContextOptimizer.IncludedRefsAreRecoverable | services/orchestrator/app/context/optimizer.py:216-244 | over any sequence of optimize calls, with an injective digest: what a call included is retrieved after any later call, as the exact content of one of the sections of that call |
| ContextOptimizer.Assemble | services/orchestrator/app/context/assembler.py:16-86 | task, baton, constraints, routing, memory, events and prior bundle, in this order |
| ContextLaws.BundleOrder | services/orchestrator/app/context/assembler.py:16-86 | the task first and critical, the baton and its constraints, routing, memory, the events, and the prior bundle last, each at its place |
| ContextLaws.BundleEvents | services/orchestrator/app/context/assembler.py:16-86 | every event is in the bundle, in order |
| ContextLaws.CriticalEvents | services/orchestrator/app/context/assembler.py:182-209 | exactly which events are critical: schemas and patches, and errors or marked events that carry no log, output or file |
| ContextOptimizer.AssembledCriticalIsPlain | services/orchestrator/app/context/assembler.py:182-209 | no critical section that the assembler produces is a baton or log-like |
| ContextOptimizer.AssembledCriticalSurvives | services/orchestrator/app/context/assembler.py:108-149 | so every critical section of an assembled bundle is emitted word for word |
| References.OriginalsNeverChange | services/memory/sqlite_store.py:714-768 | over every sequence of saves a stored original never changes, whatever collides with its id |
| References.SavedContentIsRecoverable | services/memory/store.py:671-719 | with an injective digest the id of any saved content retrieves exactly that content at any later time |

## Left out

- Events that no control scan reads (routing decisions, notes, feedback, strategies, snapshots, digests, batons): they are the outside events of a run.
- A crash, or an exception that the tick does not catch, between `stage.started` and the end of the settlement: such a run stays in flight in the model.
- Exceptions raised after `stage.completed` inside one settlement, and races of two ticks that check before either appends: the two atomic steps exclude them.
- Text analysis: whether an output names steps, risks, tests, artifacts or the keyword, and what a failure text mentions, are inputs of the model; so are the digests that identify failures.
- The reason texts of the quality gate, prompts, error snippets and result notes.
- The choice of replan strategy, of the worker role and of the model: they change prompts, not the control flow.
- Extraction and ranking of recommendations and candidates: whether an output yields a recommendation is an input.
- Preferences are inputs of a tick or fixed attributes of a task, not read from the log; the parent of a spawned task is fixed at its creation.
- The loading of preferences, the autonomy mode and its downgrade: their result is whether a tick requires approval.
- AutonomyService.TaskEngine.ProcessTask: the mode-adjustment event that a tick may append first is an outside event.
- AutonomyService.TaskEngine.RecommendationGate: the binding and missing-recommendation events are outside events.
- AutonomyService.TaskEngine.ScanPlan: reads the verdict recorded with the plan event; what that verdict is, field by field, is Delimited.PlanReadsBackExactly.
- AutonomyService.TaskEngine.StartStage: the strategy and routing events around the start are outside events.
- AutonomyService.TaskEngine.BootstrapIfNeeded: the routing decision is an outside event, and the saved baton is represented by the start event.
- AutonomyService.TaskEngine.FinalizeTask: the digest event of each finalization is an outside event.
- AutonomyService.TaskEngine.StageFailure: the low-information detection event, snapshots and feedback are not recorded.
- AutonomyService.TaskEngine.QualityOutcome: the low-information detection event and feedback are not recorded.
- AutonomyService.TaskEngine.ReviewOutcome: feedback and the meaningful-change assessment are not recorded.
- AutonomyService.TaskEngine.SpawnSubtasksOnce: records the fan-out only; Family.SpawnOnce creates the tasks.
- AutonomyService.TaskEngine.PersistHandoff: the candidate events and the second baton are not recorded.
- FailureHandler.ClassifyFailure: the recommended strategy and the signature are not computed.
- Family.RecommendedImprovementState: gives the status only, not which sibling's event or baton it rests on.
- ProviderSelector.RuntimeSelector.StageProviderOrder: the order after the first name is not stated, because no choice depends on it.
- Family.SpawnOnce: creates the tasks as values in a map; the preference and note events of the new tasks are outside events.
- FamilyTheorems.NoDeadlock: a free member can tick; that the service's loop eventually picks it is not modelled.
- Retry times that are not numbers: the model's schedules always carry one.
- SQL, connections, JSON columns and migrations: a store is an event sequence, a task map, a job map or a reference map.
- RunQueue.SqliteQueue.Claim: run sequentially only, because the backend does not check that its UPDATE changed a row.
- RateLimiter.Middleware.Request: the exempt paths and the key check of the middleware come before it and are not modelled.
- Optimizer.Shorten: words are split at blanks only; the library function also splits at hyphens, which can keep more of the text.
- ContextOptimizer.SimpleContextOptimizer.TransformSection: the wording of summaries and of reference placeholders is not fixed, only their length and whether they are empty.
- The context layers L0 to L2 and the token savings figures of a bundle.
- ProviderSelector.FirstRunSpendsOne: for runs in which every completed run is a stage run that succeeded; a run that completes and whose stage then fails changes the latest provider without being recorded as a switch.
- ProviderSelector.SwitchesWithinBudget: for a fixed budget, and for tasks whose latest provider stays available and whose switch events only the engine writes; operators can switch models by hand.
- Provider names and model names are compared as already trimmed and lower-cased text.
