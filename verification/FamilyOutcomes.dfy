/** What the members of a family get from each other: which children exist, and when they are reported. */
module FamilyOutcomes {
  import opened EventLog
  import opened TaskGate
  import opened FailureHandler
  import opened QualityGate
  import opened Engine
  import opened Discipline
  import opened TickInvariant
  import opened Scans
  import opened Settlements
  import opened Decisions
  import opened Family
  import opened FamilyTheorems

  /** The number of children: three without a usable preference, and never more than four. */
  function Children(preference: Option<int>): nat {
    match preference
    case None => 3
    case Some(n) => if n < 1 then 3 else if n < 4 then n else 4
  }

  /** The children of a fan-out are, in order, an analysis, an implementation, a review and an integration,
      as many of them as the preference asks for; each is a child of its parent and may not fan out. */
  lemma FanOutCreates(rules: Rules, steps: seq<FamilyStep>, tasks: Tasks, id: TaskId, e: Event)
    requires FamilyReaches(rules, steps, tasks) && id in tasks && e in FanOuts(tasks[id].log)
    ensures e.body.SubtasksSpawned? && |e.body.children| == Children(tasks[id].info.spawnCount)
    ensures forall i :: 0 <= i < |e.body.children| ==>
              && e.body.children[i] in tasks
              && var child := tasks[e.body.children[i]].info;
                 && child.parent == Some(id) && !child.autoSpawn
                 && child.taskType == (if i == 0 then Analysis else if i == 1 then Implementation
                                       else if i == 2 then ReviewType else Integration)
  {
    hide FamilyReaches, Inv, FanOuts, Distinct;
    ReachedFamily(rules, steps, tasks);
    assert MemberOK(rules, tasks, id);
    assert FanOutOK(tasks, id, tasks[id].info, e.body.children);
  }

  // ---- siblings ----

  predicate AnalysisTask(tasks: Tasks, id: TaskId) {
    id in tasks && tasks[id].info.taskType == Analysis
  }

  predicate RecommendedIn(view: Log) {
    exists i :: 0 <= i < |view| && view[i].body.RecommendedImprovement?
  }

  predicate HasRecommended(tasks: Tasks, id: TaskId) {
    AnalysisTask(tasks, id) && RecommendedIn(View(tasks[id].log))
  }

  predicate WithStatus(tasks: Tasks, id: TaskId, status: Status) {
    AnalysisTask(tasks, id) && tasks[id].status == status
  }

  predicate StartedTask(tasks: Tasks, id: TaskId) {
    AnalysisTask(tasks, id) && Begun(tasks[id].log)
  }

  lemma RecommendationIsSeen(log: Log)
    ensures Latest(ListEvents(log, 200), KRecommendedImprovement).Some? <==> RecommendedIn(View(log))
  {
    var view := View(log);
    ViewIsListed(log, 200);
    LatestIsNewest(view, KRecommendedImprovement);
    hide Latest, ListEvents, View;
    assert forall i :: 0 <= i < |view| ==> (KindOf(view[i].body) == KRecommendedImprovement <==> view[i].body.RecommendedImprovement?);
  }

  lemma RecommendsIsRecorded(tasks: Tasks, id: TaskId)
    ensures Recommends(tasks, id) <==> HasRecommended(tasks, id)
    ensures AnalysisBaton(tasks, id) <==> StartedTask(tasks, id)
  {
    hide Latest, ListEvents, View, RecommendedIn, Begun;
    if id in tasks {
      RecommendationIsSeen(tasks[id].log);
      StartedIsBegun(tasks[id].log);
    }
  }

  /** An implementation child is let through by a recommendation, by the absence of analysis siblings, or by
      completed ones that were started; otherwise a blocked one refuses it and an unfinished one holds it. */
  lemma SiblingsDecide(tasks: Tasks, ids: seq<TaskId>)
    ensures var some := exists i :: 0 <= i < |ids| && HasRecommended(tasks, ids[i]);
            var none := forall i :: 0 <= i < |ids| ==> !AnalysisTask(tasks, ids[i]);
            var blocked := exists i :: 0 <= i < |ids| && WithStatus(tasks, ids[i], Blocked);
            var done := forall i :: 0 <= i < |ids| && AnalysisTask(tasks, ids[i]) ==> WithStatus(tasks, ids[i], Status.Completed);
            var left := exists i :: 0 <= i < |ids| && StartedTask(tasks, ids[i]);
            && (RecommendationState(tasks, ids) == SiblingReady <==> some || none || (done && left))
            && (RecommendationState(tasks, ids) == SiblingWaiting <==> !some && !blocked && !done)
            && (RecommendationState(tasks, ids) == SiblingBlocked <==> !some && !none && (blocked || (done && !left)))
  {
    hide HasRecommended, StartedTask, Recommends, HasBaton;
    forall i | 0 <= i < |ids|
      ensures Recommends(tasks, ids[i]) <==> HasRecommended(tasks, ids[i])
      ensures AnalysisBaton(tasks, ids[i]) <==> StartedTask(tasks, ids[i])
      ensures IsAnalysis(tasks, ids[i]) <==> AnalysisTask(tasks, ids[i])
      ensures AnalysisWith(tasks, ids[i], Blocked) <==> WithStatus(tasks, ids[i], Blocked)
      ensures AnalysisPending(tasks, ids[i])
              <==> AnalysisTask(tasks, ids[i]) && !WithStatus(tasks, ids[i], Status.Completed)
    {
      RecommendsIsRecorded(tasks, ids[i]);
    }
    hide IsAnalysis, AnalysisTask, AnalysisWith, WithStatus, AnalysisPending, AnalysisBaton;
    BlockedIsUnfinished(tasks, ids);
  }

  lemma BlockedIsUnfinished(tasks: Tasks, ids: seq<TaskId>)
    ensures (exists i :: 0 <= i < |ids| && WithStatus(tasks, ids[i], Blocked)) ==>
              !forall i :: 0 <= i < |ids| && AnalysisTask(tasks, ids[i]) ==> WithStatus(tasks, ids[i], Status.Completed)
    ensures forall i :: 0 <= i < |ids| && WithStatus(tasks, ids[i], Blocked) ==> AnalysisTask(tasks, ids[i])
  {
    if exists i :: 0 <= i < |ids| && WithStatus(tasks, ids[i], Blocked) {
      var i :| 0 <= i < |ids| && WithStatus(tasks, ids[i], Blocked);
      assert AnalysisTask(tasks, ids[i]) && !WithStatus(tasks, ids[i], Status.Completed);
    }
  }

  /** The siblings of a task are the newest fan-out of its parent; a task without a parent is not bound. */
  lemma SiblingsAreOfTheParent(tasks: Tasks, id: TaskId, i: nat, ids: seq<TaskId>)
    requires id in tasks
    ensures tasks[id].info.parent.None? ==> SiblingOf(tasks, id) == NotBound
    ensures tasks[id].info.parent.Some? && tasks[id].info.parent.value in tasks
            && FannedOut(View(tasks[tasks[id].info.parent.value].log), i, ids) ==>
              SiblingOf(tasks, id) == RecommendationState(tasks, ids)
  {
    hide RecommendationState, Latest, ListEvents, View, FannedOut;
    if tasks[id].info.parent.Some? && tasks[id].info.parent.value in tasks {
      var log := tasks[tasks[id].info.parent.value].log;
      ViewIsListed(log, 500);
      if FannedOut(View(log), i, ids) {
        FanOutIsNewest(View(log), i, ids);
        FannedOutAt(View(log), i, ids);
      }
    }
  }

  // ---- when a parent is told that its children are completed ----

  predicate ReportsNothing(before: Log, after: Log) {
    Grown(before, after) && forall k :: |before| <= k < |after| ==> !after[k].body.ChildrenCompleted?
  }

  lemma FailureReportsNothing(cfg: Config, st: TaskState, ctx: StageContext, raise: Raise, now: real)
    ensures ReportsNothing(st.log, HandleStageFailure(cfg, st, ctx, raise, now).log)
  {
    hide ListEvents, Failures, FailureRun, LatestFailure, Judge, Delay;
  }

  lemma OutputReportsNothing(cfg: Config, st: TaskState, ctx: StageContext, out: Output, now: real)
    ensures ReportsNothing(st.log, HandleOutput(cfg, st, ctx, out, now).log)
  {
    hide ListEvents, Latest, QualityRun, Accepted, ReviewFails;
  }

  lemma GatesReportNothing(cfg: Config, st: TaskState, inp: TickInput, stage: Stage, cycle: int)
    ensures ReportsNothing(st.log, ApprovalGate(cfg, st, inp, stage, cycle).0.log)
  {
    hide ListEvents, Latest, RetryEpoch, Inflight, HandleStageFailure, ConcretePlan;
    if inp.early.Some? {
      FailureReportsNothing(cfg, st, StageContext(stage, cycle, inp.maxRetries, ListEvents(st.log, 500)), inp.early.value, inp.now);
    }
  }

  lemma TickReportsOnCompletion(cfg: Config, st: TaskState, inp: TickInput)
    ensures Tick(cfg, st, inp).1 != ChildTasksCompleted ==> ReportsNothing(st.log, Tick(cfg, st, inp).0.log)
    ensures Tick(cfg, st, inp).1 == ChildTasksCompleted ==> Active(st) && Tick(cfg, st, inp).0.status == Status.Completed
  {
    hide ListEvents, Latest, StepCount, ChildGateOf, NextStage, CurrentCycle;
    var begun := Bootstrap(st.(status := InProgress), inp.now);
    match NextStage(ListEvents(begun.log, 500), BootstrapCycle(st)) {
      case None =>
        hide ApprovalGate;
      case Some(stage) =>
        GatesReportNothing(cfg, begun, inp, stage, BootstrapCycle(st));
        GatesNeverAnswerForChildren(cfg, begun, inp, stage, BootstrapCycle(st));
        hide ApprovalGate;
    }
  }

  lemma GatesNeverAnswerForChildren(cfg: Config, st: TaskState, inp: TickInput, stage: Stage, cycle: int)
    ensures ApprovalGate(cfg, st, inp, stage, cycle).1 != ChildTasksCompleted
  {
    hide ListEvents, Latest, RetryEpoch, Inflight, HandleStageFailure, ConcretePlan;
  }

  lemma OthersReportNothing(cfg: Config, st: TaskState, step: Step)
    requires Enabled(st, step) && !step.TickStep?
    ensures ReportsNothing(st.log, Perform(cfg, st, step).log)
  {
    hide HandleOutput, HandleStageFailure;
    match step {
      case SettleStep(index, outcome, now) =>
        match outcome {
          case Raised(raise) => FailureReportsNothing(cfg, Landed(st, index), st.pending[index], raise, now);
          case Finished(out) => OutputReportsNothing(cfg, Landed(st, index), st.pending[index], out, now);
        }
      case _ =>
    }
  }

  lemma ReporterCompletes(cfg: Config, st: TaskState, step: Step, k: nat)
    requires Enabled(st, step)
    requires var after := Perform(cfg, st, step).log; |st.log| <= k < |after| && after[k].body.ChildrenCompleted?
    ensures step.TickStep? && Active(st) && Perform(cfg, st, step) == Tick(cfg, st, step.inp).0
    ensures Tick(cfg, st, step.inp).0.status == Status.Completed
  {
    hide Tick, Settle, SetApproval;
    if !step.TickStep? {
      OthersReportNothing(cfg, st, step);
    } else {
      TickReportsOnCompletion(cfg, st, step.inp);
    }
  }

  lemma OnlyFanOut(log: Log, i: nat, ids: seq<TaskId>)
    requires |FanOuts(log)| <= 1 && FannedOut(log, i, ids)
    ensures FanOuts(log) == [log[i]]
  {
    hide Latest, FanOuts;
    FanOutIsNewest(log, i, ids);
    LatestFanOut(log);
  }

  lemma TickFacts(rules: Rules, tasks: Tasks, id: TaskId, step: Step)
    requires FamilyEnabled(rules, tasks, OnTask(id, step)) && step.TickStep?
    ensures id in tasks && Enabled(tasks[id], step) && step.inp.children == Statuses(tasks)
    ensures |Perform(rules.cfg, tasks[id], step).log| <= STORE_LIMIT
  {
    hide Perform, Enabled, Conforms, SiblingOf, WillSpawn;
  }

  lemma ReportSawChildren(rules: Rules, tasks: Tasks, id: TaskId, step: Step, k: nat) returns (i: nat, ids: seq<TaskId>)
    requires FamilyInv(rules, tasks) && FamilyEnabled(rules, tasks, OnTask(id, step)) && step.TickStep?
    requires var after := Perform(rules.cfg, tasks[id], step).log;
             |tasks[id].log| <= k < |after| && after[k].body.ChildrenCompleted?
    ensures FannedOut(tasks[id].log, i, ids) && AllCompleted(Statuses(tasks), ids)
  {
    hide FamilyInv, Inv, Tick, Perform, FanOuts, View, FamilyEnabled, Statuses, FannedOut, AllCompleted, Enabled;
    TickFacts(rules, tasks, id, step);
    MemberFacts(rules, tasks, id);
    ReporterCompletes(rules.cfg, tasks[id], step, k);
    ShortView(tasks[id].log);
    i, ids := CompletingTickSawChildren(rules, tasks[id], step.inp);
  }

  /** Every task that the task has spawned is completed. */
  predicate SpawnedAreCompleted(tasks: Tasks, id: TaskId)
    requires id in tasks
  {
    forall e, i :: e in FanOuts(tasks[id].log) && e.body.SubtasksSpawned? && 0 <= i < |e.body.children| ==>
      e.body.children[i] in tasks && tasks[e.body.children[i]].status == Status.Completed
  }

  lemma OnlyFanOutIsCompleted(tasks: Tasks, id: TaskId, i: nat, ids: seq<TaskId>)
    requires id in tasks && |FanOuts(tasks[id].log)| <= 1
    requires FannedOut(tasks[id].log, i, ids) && AllCompleted(Statuses(tasks), ids)
    ensures FanOuts(tasks[id].log) != [] && SpawnedAreCompleted(tasks, id)
  {
    OnlyFanOut(tasks[id].log, i, ids);
    FannedOutAt(tasks[id].log, i, ids);
    hide FanOuts, FannedOut;
    forall k | 0 <= k < |ids| ensures ids[k] in tasks && tasks[ids[k]].status == Status.Completed {
      assert ids[k] in Statuses(tasks);
    }
  }

  /** Whenever a step of a family run reports to a task that its children are completed, the task has fanned
      out and every task it spawned is completed. */
  lemma ReportedChildrenAreCompleted(rules: Rules, steps: seq<FamilyStep>, tasks: Tasks, id: TaskId, step: Step, k: nat)
    requires FamilyReaches(rules, steps, tasks) && FamilyEnabled(rules, tasks, OnTask(id, step))
    requires var after := Perform(rules.cfg, tasks[id], step).log;
             |tasks[id].log| <= k < |after| && after[k].body.ChildrenCompleted?
    ensures FanOuts(tasks[id].log) != [] && SpawnedAreCompleted(tasks, id)
  {
    assert Enabled(tasks[id], step) by { hide Enabled; }
    hide FamilyReaches, FamilyInv, Tick, Perform, FanOuts, FamilyEnabled, SpawnedAreCompleted, Enabled, FannedOut, AllCompleted;
    ReachedFamily(rules, steps, tasks);
    ReporterCompletes(rules.cfg, tasks[id], step, k);
    var i, ids := ReportSawChildren(rules, tasks, id, step, k);
    MemberFacts(rules, tasks, id);
    OnlyFanOutIsCompleted(tasks, id, i, ids);
  }

  lemma FannedOutAt(log: Log, i: nat, ids: seq<TaskId>)
    requires FannedOut(log, i, ids)
    ensures i < |log| && log[i].body == SubtasksSpawned(ids)
  {
  }

  lemma MemberFacts(rules: Rules, tasks: Tasks, id: TaskId)
    requires FamilyInv(rules, tasks) && id in tasks
    ensures Inv(rules, tasks[id]) && |tasks[id].log| <= STORE_LIMIT && |FanOuts(tasks[id].log)| <= 1
    ensures forall e :: e in FanOuts(tasks[id].log) ==> e.body.SubtasksSpawned?
  {
    hide Inv, FanOuts, Latest;
    assert MemberOK(rules, tasks, id);
  }

  lemma ShortView(log: Log)
    requires |log| <= STORE_LIMIT
    ensures View(log) == log
  {
  }
}
