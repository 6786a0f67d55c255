/** What a tick answers, said by what stands in the log and in the statuses of other tasks. */
module Decisions {
  import opened EventLog
  import opened TaskGate
  import opened ControlState
  import opened Engine
  import opened Discipline
  import opened Runs
  import opened LogTheorems
  import opened Outcomes
  import opened Scans
  import opened Settlements

  // ---- children ----

  /** Position `i` holds the newest fan-out, into `ids`. */
  predicate FannedOut(view: Log, i: nat, ids: seq<TaskId>) {
    i < |view| && view[i].body == SubtasksSpawned(ids) && forall j :: i < j < |view| ==> !view[j].body.SubtasksSpawned?
  }

  ghost predicate Alone(view: Log) {
    forall i: nat, ids :: FannedOut(view, i, ids) ==> ids == []
  }

  predicate AllCompleted(children: map<TaskId, Status>, ids: seq<TaskId>) {
    forall i :: 0 <= i < |ids| ==> ids[i] in children && children[ids[i]] == Status.Completed
  }

  predicate SomeBlocked(children: map<TaskId, Status>, ids: seq<TaskId>) {
    exists i :: 0 <= i < |ids| && ids[i] in children && children[ids[i]] == Blocked
  }

  lemma FanOutIsNewest(view: Log, i: nat, ids: seq<TaskId>)
    requires FannedOut(view, i, ids)
    ensures Latest(view, KSubtasksSpawned) == Some(view[i])
  {
    LatestIsNewest(view, KSubtasksSpawned);
    assert NewestOfKind(view, i, KSubtasksSpawned);
  }

  lemma AloneHasNoGate(view: Log, children: map<TaskId, Status>)
    requires Alone(view)
    ensures ChildGateOf(view, children) == NoChildren
  {
    hide Latest;
    LatestIsNewest(view, KSubtasksSpawned);
    if Latest(view, KSubtasksSpawned).Some? {
      var i: nat :| NewestOfKind(view, i, KSubtasksSpawned);
      assert FannedOut(view, i, view[i].body.children);
    }
  }

  /** A parent is answered by its children alone: one blocked child fails it, all completed complete it,
      and anything else keeps it waiting, unchanged. */
  lemma ChildrenDecide(cfg: Config, st: TaskState, inp: TickInput, i: nat, ids: seq<TaskId>)
    requires Active(st) && FannedOut(View(st.log), i, ids) && ids != []
    ensures var r := Tick(cfg, st, inp);
            && (r.1 == ChildTaskFailed <==> SomeBlocked(inp.children, ids))
            && (r.1 == ChildTasksCompleted <==> AllCompleted(inp.children, ids))
            && (r.1 == AwaitingChildTasks <==> !SomeBlocked(inp.children, ids) && !AllCompleted(inp.children, ids))
            && (r.1 == ChildTaskFailed ==> r.0 == st.(status := Blocked, log := st.log + [Event(inp.now, TaskFailed)]))
            && (r.1 == ChildTasksCompleted ==>
                  var recorded := st.log + if NoneReported(View(st.log)) then [Event(inp.now, Body.ChildrenCompleted)] else [];
                  && r.0.status == Status.Completed && r.0.pending == st.pending
                  && r.0.log == recorded + if NoneCompleted(View(recorded)) then [Event(inp.now, TaskCompleted)] else [])
            && (r.1 == AwaitingChildTasks ==> r.0 == st)
  {
    hide Latest, ListEvents, View, StepCount, ApprovalGate, NextStage, Bootstrap, Finalize, RecordChildren;
    ViewIsListed(st.log, 500);
    FanOutIsNewest(View(st.log), i, ids);
    assert SomeBlocked(inp.children, ids) <==> exists k :: 0 <= k < |ids| && HasStatus(inp.children, ids[k], Blocked) by {
      assert forall k :: 0 <= k < |ids| ==> (HasStatus(inp.children, ids[k], Blocked) <==> ids[k] in inp.children && inp.children[ids[k]] == Blocked);
    }
    if SomeBlocked(inp.children, ids) && AllCompleted(inp.children, ids) {
      assert false;
    }
    FinalizeMeans(RecordChildren(st, inp.now), inp.now);
    RecordMeans(st, inp.now);
    hide NoneReported, NoneCompleted;
  }

  predicate NoneReported(view: Log) {
    forall i :: 0 <= i < |view| ==> !view[i].body.ChildrenCompleted?
  }

  lemma RecordMeans(st: TaskState, at: real)
    ensures RecordChildren(st, at)
            == st.(log := st.log + if NoneReported(View(st.log)) then [Event(at, Body.ChildrenCompleted)] else [])
  {
    hide Latest, ListEvents, View;
    ViewIsListed(st.log, 500);
    LatestIsNewest(View(st.log), KChildrenCompleted);
    assert st.log + [] == st.log;
  }

  /** A task that is no longer active is answered by its status, unchanged. */
  lemma InactiveIsSkipped(cfg: Config, st: TaskState, inp: TickInput)
    requires !Active(st)
    ensures Tick(cfg, st, inp) == (st, if st.status == Blocked then AlreadyBlocked else SkippedCompleted)
  {
  }

  /** Without children a tick never gives one of these three answers. */
  lemma AloneNeverWaitsForChildren(cfg: Config, st: TaskState, inp: TickInput)
    requires Active(st) && Alone(View(st.log))
    ensures Tick(cfg, st, inp).1 !in {ChildTaskFailed, ChildTasksCompleted, AwaitingChildTasks}
  {
    hide Latest, ListEvents, View, StepCount, NextStage, Bootstrap, Finalize, ChildGateOf, ConcretePlan, RetryEpoch, Inflight,
      HandleStageFailure, CurrentCycle, Alone;
    ViewIsListed(st.log, 500);
    AloneHasNoGate(View(st.log), inp.children);
  }

  /** A tick that completes an active reachable task has seen every task of its newest, non-empty fan-out completed. */
  lemma CompletingTickSawChildren(rules: Rules, st: TaskState, inp: TickInput) returns (i: nat, ids: seq<TaskId>)
    requires Inv(rules, st) && Active(st) && Enabled(st, TickStep(inp))
    requires |Tick(rules.cfg, st, inp).0.log| <= STORE_LIMIT && Tick(rules.cfg, st, inp).0.status == Status.Completed
    ensures FannedOut(View(st.log), i, ids) && ids != [] && AllCompleted(inp.children, ids)
  {
    hide Inv, Tick, ListEvents, Latest;
    TickCompletesParents(rules, st, inp);
    ViewIsListed(st.log, 500);
    var view := View(st.log);
    LatestIsNewest(view, KSubtasksSpawned);
    i :| NewestOfKind(view, i, KSubtasksSpawned);
    ids := view[i].body.children;
    assert forall k :: 0 <= k < |ids| ==> HasStatus(inp.children, ids[k], Status.Completed);
  }

  /** A step that completes an active task either saw all its children completed, or settled a review and
      leaves a cycle whose plan, execution and review passed in this order. */
  lemma CompletingStep(rules: Rules, st: TaskState, step: Step)
    requires Inv(rules, st) && Active(st) && Enabled(st, step) && Conforms(rules, step)
    requires |Perform(rules.cfg, st, step).log| <= STORE_LIMIT && Perform(rules.cfg, st, step).status == Status.Completed
    ensures || (step.TickStep? && exists i: nat, ids ::
                  FannedOut(View(st.log), i, ids) && ids != [] && AllCompleted(step.inp.children, ids))
            || (step.SettleStep? && PipelinePassed(Perform(rules.cfg, st, step).log, CurrentCycle(st.log)))
  {
    hide Inv, PipelinePassed, CurrentCycle, View, ListEvents, ChildGateOf, FannedOut, AllCompleted, Conforms, Tick, Settle;
    CompletionSafety(rules, st, step);
    if step.TickStep? {
      var i, ids := CompletingTickSawChildren(rules, st, step.inp);
    }
  }

  /** In every run, a completed task has been told that its children are completed, or each of the three
      stages was settled with an output that is good enough for it, in the order of the pipeline. */
  lemma CompletedTasksDeserveIt(rules: Rules, info: Info, steps: seq<Step>, st: TaskState)
    requires Reaches(rules, info, steps, st) && st.status == Status.Completed
    ensures || !NoneReported(st.log)
            || ((exists cycle :: PipelinePassed(st.log, cycle))
                && Deserved(rules.cfg, steps, Plan, true) && Deserved(rules.cfg, steps, Execute, true)
                && Deserved(rules.cfg, steps, Review, true))
  {
    hide Feasible, After, Deserved, Latest;
    CompletedTasksEarnedIt(rules, info, steps, st);
    LatestIsNewest(st.log, KChildrenCompleted);
    if Latest(st.log, KChildrenCompleted).None? {
      var cycle :| PipelinePassed(st.log, cycle);
      var i: nat, j: nat, k: nat :| i < j < k
        && PassedAt(st.log, i, Plan, cycle) && PassedAt(st.log, j, Execute, cycle) && PassedAt(st.log, k, Review, cycle);
      RunsCompleteDeservedly(rules, info, steps, i);
      RunsCompleteDeservedly(rules, info, steps, j);
      RunsCompleteDeservedly(rules, info, steps, k);
    }
  }

  // ---- the gates of a stage ----

  predicate InCycle(view: Log, cycle: int) {
    || ((forall i :: 0 <= i < |view| ==> !NumbersCycle(view[i].body)) && cycle == 1)
    || (exists i :: 0 <= i < |view| && NewestCycle(view, i) && view[i].body.cycle == cycle)
  }

  predicate Begun(view: Log) {
    exists i :: 0 <= i < |view| && view[i].body.Started?
  }

  /** An active task without children and with budget left, once it is started: `log` is its log with the
      start that the tick may have to add, `stage` its next stage and `cycle` its cycle. */
  ghost predicate Facing(cfg: Config, st: TaskState, now: real, log: Log, stage: Stage, cycle: int) {
    && Active(st) && Alone(View(st.log)) && |TerminalAt(View(st.log))| < cfg.maxSteps
    && (if Begun(View(st.log)) then log == st.log && InCycle(View(st.log), cycle)
        else log == st.log + [Event(now, Started), Event(now, CycleStarted(1))] && cycle == 1)
    && IsNextStage(View(log), stage, cycle)
  }

  lemma FacingReachesGates(cfg: Config, st: TaskState, inp: TickInput, log: Log, stage: Stage, cycle: int)
    requires Facing(cfg, st, inp.now, log, stage, cycle)
    ensures Tick(cfg, st, inp) == ApprovalGate(cfg, st.(status := InProgress, log := log), inp, stage, cycle)
  {
    var view := View(st.log);
    ViewIsListed(st.log, 500);
    ViewIsListed(log, 500);
    AloneHasNoGate(view, inp.children);
    StepCountCounts(view);
    CycleIsNewest(view);
    NextStageIsNext(View(log), cycle);
    StartedIsBegun(view);
    AnswerLogs(st.log, inp.now, Started);
    hide View, ListEvents, ChildGateOf, StepCount, TerminalAt, CurrentCycle, NextStage, IsNextStage, ApprovalGate, Latest, Alone, Begun;
    assert Bootstrap(st.(status := InProgress), inp.now) == st.(status := InProgress, log := log);
  }

  lemma StartedIsBegun(view: Log)
    ensures Latest(view, KStarted).Some? <==> Begun(view)
  {
    LatestIsNewest(view, KStarted);
    hide Latest;
    assert forall i :: 0 <= i < |view| ==> (KindOf(view[i].body) == KStarted <==> view[i].body.Started?);
  }

  /** With the budget spent, a task without children is blocked. */
  lemma SpentBudgetBlocks(cfg: Config, st: TaskState, inp: TickInput)
    requires Active(st) && Alone(View(st.log)) && |TerminalAt(View(st.log))| >= cfg.maxSteps
    ensures Tick(cfg, st, inp) == (st.(status := Blocked, log := st.log + [Event(inp.now, TaskFailed)]), BudgetExhausted)
  {
    hide View, ListEvents, ChildGateOf, StepCount, TerminalAt, ApprovalGate, Latest, Alone;
    ViewIsListed(st.log, 500);
    AloneHasNoGate(View(st.log), inp.children);
    StepCountCounts(View(st.log));
  }

  predicate NewestApproval(view: Log, i: nat) {
    i < |view| && view[i].body.Approval? && forall j :: i < j < |view| ==> !view[j].body.Approval?
  }

  predicate Unanswered(view: Log) {
    forall i :: 0 <= i < |view| ==> !view[i].body.Approval?
  }

  ghost predicate Says(view: Log, approved: bool) {
    exists i: nat :: NewestApproval(view, i) && view[i].body.approved == approved
  }

  predicate Asks(inp: TickInput, stage: Stage) {
    inp.requiresApproval && stage == Execute
  }

  predicate Unrequested(view: Log) {
    forall i :: 0 <= i < |view| ==> !view[i].body.ApprovalRequested?
  }

  /** The retry that was scheduled last for the stage lies in the future. */
  ghost predicate Delayed(view: Log, stage: Stage, cycle: int, now: real) {
    exists i: nat :: NewestSchedule(view, i, stage, cycle) && now < view[i].body.retryAt
  }

  /** An implementation child about to execute is bound to its analysis siblings. */
  predicate Bound(st: TaskState, stage: Stage) {
    stage == Execute && st.info.taskType == Implementation && st.info.parent.Some?
  }

  ghost predicate PlanReady(view: Log) {
    exists i: nat :: NewestPlan(view, i) && view[i].body.concrete
  }

  /** Nothing of what may come before the plan gate holds the stage back. */
  ghost predicate Unhindered(view: Log, st: TaskState, inp: TickInput, stage: Stage, cycle: int) {
    && (Asks(inp, stage) ==> Says(view, true)) && !Delayed(view, stage, cycle, inp.now)
    && (Bound(st, stage) ==> inp.sibling != SiblingBlocked && inp.sibling != SiblingWaiting)
  }

  ghost predicate MayRun(cfg: Config, view: Log, st: TaskState, inp: TickInput, stage: Stage, cycle: int) {
    Unhindered(view, st, inp, stage, cycle) && (stage == Execute && cfg.executePlan ==> PlanReady(view))
  }

  lemma ApprovalStates(view: Log, stage: Stage, inp: TickInput)
    ensures ApprovalGateState(view, stage, inp.requiresApproval)
            == if !Asks(inp, stage) then NotRequired
               else if Unanswered(view) then Awaiting
               else if Says(view, true) then Approved
               else Rejected
    ensures Asks(inp, stage) && !Unanswered(view) && !Says(view, true) ==> Says(view, false)
  {
    LatestIsNewest(view, KApproval);
    hide Latest;
    if Latest(view, KApproval).Some? {
      var i: nat :| NewestOfKind(view, i, KApproval);
      assert NewestApproval(view, i);
    }
    if Says(view, true) {
      var i: nat :| NewestApproval(view, i) && view[i].body.approved == true;
      assert NewestOfKind(view, i, KApproval);
    }
  }

  lemma PlanIsReady(view: Log)
    ensures ConcretePlan(view) <==> PlanReady(view)
  {
    LatestIsNewest(view, KPlanCreated);
    hide Latest;
    if Latest(view, KPlanCreated).Some? {
      var i: nat :| NewestOfKind(view, i, KPlanCreated);
      assert NewestPlan(view, i);
    }
    if PlanReady(view) {
      var i: nat :| NewestPlan(view, i) && view[i].body.concrete;
      assert NewestOfKind(view, i, KPlanCreated);
    }
  }

  lemma RequestsOnce(view: Log)
    ensures Latest(view, KApprovalRequested).None? <==> Unrequested(view)
  {
    LatestIsNewest(view, KApprovalRequested);
  }

  lemma DelayIsScheduled(view: Log, stage: Stage, cycle: int, now: real)
    ensures Delayed(view, stage, cycle, now)
            <==> RetryEpoch(view, stage, cycle).Some? && now < RetryEpoch(view, stage, cycle).value
  {
    hide RetryEpoch;
    RetryIsNewest(view, stage, cycle);
  }

  /** The answers of the gates before the plan gate. */
  lemma HindrancesDecide(cfg: Config, st: TaskState, inp: TickInput, log: Log, stage: Stage, cycle: int)
    requires Facing(cfg, st, inp.now, log, stage, cycle)
    ensures var r := Tick(cfg, st, inp);
            var view, begun := View(log), st.(status := InProgress, log := log);
            && (Asks(inp, stage) && Unanswered(view) ==>
                  r == (begun.(log := log + if Unrequested(view) then [Event(inp.now, ApprovalRequested)] else []), AwaitingApproval))
            && (Asks(inp, stage) && Says(view, false) && !Says(view, true) ==>
                  r == (begun.(status := Blocked, log := log + [Event(inp.now, TaskFailed)]), ApprovalRejected))
            && ((Asks(inp, stage) ==> Says(view, true)) && Delayed(view, stage, cycle, inp.now) ==> r == (begun, WaitingRetry))
            && ((Asks(inp, stage) ==> Says(view, true)) && !Delayed(view, stage, cycle, inp.now) && Bound(st, stage) ==>
                  && (inp.sibling == SiblingBlocked ==>
                        r == (begun.(status := Blocked, log := log + [Event(inp.now, TaskFailed)]), SiblingFailed))
                  && (inp.sibling == SiblingWaiting ==> r == (begun, AwaitingSibling)))
  {
    hide View, ListEvents, Latest, RetryEpoch, Facing, Tick, PlanGate, Says, Unanswered, Unrequested, Delayed;
    FacingReachesGates(cfg, st, inp, log, stage, cycle);
    ViewIsListed(log, 500);
    ApprovalStates(View(log), stage, inp);
    RequestsOnce(View(log));
    DelayIsScheduled(View(log), stage, cycle, inp.now);
    SomeApproval(View(log));
    assert log + [] == log;
  }

  lemma SomeApproval(view: Log)
    ensures Says(view, true) || Says(view, false) ==> !Unanswered(view)
  {
  }

  /** Unhindered, an execution without a concrete plan replans below the cycle cap and blocks at it; a stage
      that is open keeps running; and any other stage begins, or records the failure that came before its start. */
  lemma UnhinderedStageBegins(cfg: Config, st: TaskState, inp: TickInput, log: Log, stage: Stage, cycle: int)
    requires ValidConfig(cfg) && Facing(cfg, st, inp.now, log, stage, cycle)
    requires Unhindered(View(log), st, inp, stage, cycle)
    ensures var r := Tick(cfg, st, inp);
            var view, begun := View(log), st.(status := InProgress, log := log);
            var context := StageContext(stage, cycle, inp.maxRetries, view);
            if stage == Execute && cfg.executePlan && !PlanReady(view) then
              r == if cycle >= cfg.maxCycles
                   then (begun.(status := Blocked, log := log + [Event(inp.now, PlanBlocked(cycle))]), PlanMissingBlocked)
                   else (begun.(log := log + [Event(inp.now, PlanMissing(cycle)), Event(inp.now, CycleStarted(cycle + 1))]),
                         PlanMissingReplan)
            else if OpenStage(view, stage, cycle) then r == (begun, AlreadyRunning)
            else if inp.early.None? then
              r == (begun.(log := log + [Event(inp.now, StageStarted(stage, cycle))], pending := st.pending + [context]), StageBegan)
            else r.1 == StageRaised && Answered(cfg, begun, context, inp.early.value, inp.now, r.0)
  {
    hide View, ListEvents, Latest, RetryEpoch, Facing, Tick, Says, Unanswered, Delayed, Inflight, OpenStage, PlanReady, ConcretePlan,
      HandleStageFailure, Answered;
    FacingReachesGates(cfg, st, inp, log, stage, cycle);
    ViewIsListed(log, 500);
    ViewIsListed(log, 300);
    ApprovalStates(View(log), stage, inp);
    DelayIsScheduled(View(log), stage, cycle, inp.now);
    SomeApproval(View(log));
    PlanIsReady(View(log));
    InflightIsOpen(View(log), stage, cycle);
    AnswerLogs(log, inp.now, PlanMissing(cycle));
    if inp.early.Some? {
      FailureIsAnswered(cfg, st.(status := InProgress, log := log), StageContext(stage, cycle, inp.maxRetries, View(log)),
                        inp.early.value, inp.now);
    }
  }

  /** So a stage begins if and only if it may run, is not open, and meets no exception before its start. */
  lemma StageBeginsIff(cfg: Config, st: TaskState, inp: TickInput, log: Log, stage: Stage, cycle: int)
    requires ValidConfig(cfg) && Facing(cfg, st, inp.now, log, stage, cycle)
    ensures Tick(cfg, st, inp).1 == StageBegan
            <==> MayRun(cfg, View(log), st, inp, stage, cycle) && !OpenStage(View(log), stage, cycle) && inp.early.None?
  {
    hide View, Facing, Tick, OpenStage, PlanReady, Answered, Says, Delayed, Unanswered, Unrequested;
    HindrancesDecide(cfg, st, inp, log, stage, cycle);
    SomeOrNone(View(log));
    if Unhindered(View(log), st, inp, stage, cycle) {
      UnhinderedStageBegins(cfg, st, inp, log, stage, cycle);
    }
  }

  lemma SomeOrNone(view: Log)
    ensures Unanswered(view) || Says(view, true) || Says(view, false)
  {
    LatestIsNewest(view, KApproval);
    if Latest(view, KApproval).Some? {
      var i: nat :| NewestOfKind(view, i, KApproval);
      assert NewestApproval(view, i);
    }
  }

  /** In a reachable state every active task without children and with budget left faces some stage. */
  lemma SomeStageIsFaced(rules: Rules, st: TaskState, inp: TickInput) returns (log: Log, stage: Stage, cycle: int)
    requires Inv(rules, st) && Active(st) && Enabled(st, TickStep(inp)) && |st.log| + 2 <= STORE_LIMIT
    requires Alone(View(st.log)) && |TerminalAt(View(st.log))| < rules.cfg.maxSteps
    ensures Facing(rules.cfg, st, inp.now, log, stage, cycle)
  {
    hide Fold, Disciplined, Alone, TerminalAt, IsNextStage, View, ListEvents, Latest, CurrentCycle, NextStage;
    LastAtRefines(st.log);
    var view := View(st.log);
    ViewIsListed(st.log, 500);
    StartedIsBegun(view);
    AnswerLogs(st.log, inp.now, Started);
    log := if Begun(view) then st.log else st.log + [Event(inp.now, Started), Event(inp.now, CycleStarted(1))];
    assert Bootstrap(st.(status := InProgress), inp.now).log == log;
    AlwaysANextStage(rules, st, inp);
    ViewIsListed(log, 500);
    cycle := BootstrapCycle(st);
    NextStageIsNext(View(log), cycle);
    stage := NextStage(View(log), cycle).value;
    CycleIsIn(view);
  }

  lemma CycleIsIn(view: Log)
    ensures InCycle(view, CurrentCycle(view))
  {
    CycleIsNewest(view);
    if exists i :: 0 <= i < |view| && NumbersCycle(view[i].body) {
      var i := NewestNumber(view);
      assert NewestCycle(view, i);
    }
  }

  lemma {:induction false} NewestNumber(view: Log) returns (i: nat)
    requires exists i :: 0 <= i < |view| && NumbersCycle(view[i].body)
    ensures NewestCycle(view, i)
  {
    if NumbersCycle(Last(view).body) {
      i := |view| - 1;
    } else {
      assert forall k :: 0 <= k < |view| - 1 ==> Init(view)[k] == view[k];
      i := NewestNumber(Init(view));
    }
  }
}
