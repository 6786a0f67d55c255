/** Every family run: one fan-out of at most four children per parent, and never a deadlock. */
module FamilyTheorems {
  import opened EventLog
  import opened TaskGate
  import opened ControlState
  import opened QualityGate
  import opened FailureHandler
  import opened Engine
  import opened Discipline
  import opened Runs
  import opened LogTheorems
  import opened Outcomes
  import opened Family

  // ---- which steps fan out ----

  /** The fan-out events of a log, oldest first. */
  function FanOuts(log: Log): seq<Event> {
    if log == [] then []
    else FanOuts(Init(log)) + if Last(log).body.SubtasksSpawned? then [Last(log)] else []
  }

  lemma AddFanOut(log: Log, at: real, body: Body)
    ensures FanOuts(Add(log, at, body)) == FanOuts(log) + if body.SubtasksSpawned? then [Event(at, body)] else []
  {
    assert Init(Add(log, at, body)) == log;
  }

  lemma {:induction false} LatestFanOut(log: Log)
    ensures Latest(log, KSubtasksSpawned) == if FanOuts(log) == [] then None else Some(FanOuts(log)[|FanOuts(log)| - 1])
    ensures forall i :: 0 <= i < |FanOuts(log)| ==> FanOuts(log)[i].body.SubtasksSpawned?
  {
    if log == [] {
    } else {
      LatestFanOut(Init(log));
    }
  }

  lemma FailureNeverFansOut(cfg: Config, st: TaskState, ctx: StageContext, raise: Raise, now: real)
    ensures var next := HandleStageFailure(cfg, st, ctx, raise, now);
            FanOuts(next.log) == FanOuts(st.log) && next.info == st.info
  {
    hide FanOuts, ListEvents, Failures, FailureRun, LatestFailure, Judge, Delay;
    var attempt := Failures(ctx.events, ctx.stage, ctx.cycle) + 1;
    var body := StageFailed(ctx.stage, ctx.cycle, attempt, raise.signature);
    var failed := Add(st.log, now, body);
    AddFanOut(st.log, now, body);
    AddFanOut(st.log, now, LowInfoStopped(ctx.stage, ctx.cycle));
    AddFanOut(failed, now, RetryScheduled(ctx.stage, ctx.cycle, attempt, now + Delay(cfg, attempt)));
    AddFanOut(failed, now, CycleStarted(ctx.cycle + 1));
    AddFanOut(failed, now, TaskFailed);
  }

  lemma GatesNeverFanOut(cfg: Config, st: TaskState, inp: TickInput, stage: Stage, cycle: int)
    ensures var next := ApprovalGate(cfg, st, inp, stage, cycle).0;
            FanOuts(next.log) == FanOuts(st.log) && next.info == st.info
  {
    hide FanOuts, ListEvents, Latest, RetryEpoch, Inflight, HandleStageFailure;
    AddFanOut(st.log, inp.now, ApprovalRequested);
    AddFanOut(st.log, inp.now, TaskFailed);
    AddFanOut(st.log, inp.now, PlanBlocked(cycle));
    AddFanOut(st.log, inp.now, PlanMissing(cycle));
    AddFanOut(Add(st.log, inp.now, PlanMissing(cycle)), inp.now, CycleStarted(cycle + 1));
    AddFanOut(st.log, inp.now, StageStarted(stage, cycle));
    if inp.early.Some? {
      FailureNeverFansOut(cfg, st, StageContext(stage, cycle, inp.maxRetries, ListEvents(st.log, 500)), inp.early.value, inp.now);
    }
  }

  lemma FinalizeNeverFansOut(st: TaskState, at: real)
    ensures FanOuts(Finalize(st, at).log) == FanOuts(st.log) && Finalize(st, at).info == st.info
  {
    hide FanOuts, ListEvents, Latest;
    AddFanOut(st.log, at, TaskCompleted);
  }

  lemma TickNeverFansOut(cfg: Config, st: TaskState, inp: TickInput)
    ensures var next := Tick(cfg, st, inp).0;
            FanOuts(next.log) == FanOuts(st.log) && next.info == st.info
  {
    hide FanOuts, ListEvents, Latest, StepCount, NextStage, ApprovalGate, ChildGateOf, CurrentCycle, Finalize;
    var begun := Bootstrap(st.(status := InProgress), inp.now);
    var cycle := BootstrapCycle(st);
    AddFanOut(st.log, inp.now, TaskFailed);
    AddFanOut(st.log, inp.now, Body.ChildrenCompleted);
    AddFanOut(st.log, inp.now, Started);
    AddFanOut(Add(st.log, inp.now, Started), inp.now, CycleStarted(1));
    FinalizeNeverFansOut(RecordChildren(st, inp.now), inp.now);
    FinalizeNeverFansOut(begun, inp.now);
    match NextStage(ListEvents(begun.log, 500), cycle) {
      case None =>
      case Some(stage) => GatesNeverFanOut(cfg, begun, inp, stage, cycle);
    }
  }

  lemma PlanSpawns(cfg: Config, st: TaskState, ctx: StageContext, out: Output, now: real)
    requires ctx.stage == Plan && Accepted(cfg, Plan, out)
    requires |HandleOutput(cfg, st, ctx, out, now).log| <= STORE_LIMIT
    ensures var next := HandleOutput(cfg, st, ctx, out, now);
            && next.info == st.info
            && FanOuts(next.log)
               == FanOuts(st.log) + if st.info.autoSpawn && Latest(ListEvents(st.log, 500), KSubtasksSpawned).None?
                                    then [Event(now, SubtasksSpawned(out.spawned))] else []
  {
    hide FanOuts, ListEvents, Latest, Accepted;
    var done := Append(st, now, StageCompleted(ctx.stage, ctx.cycle, true));
    var planned := PersistPlan(cfg, done, ctx, out, now);
    AddFanOut(st.log, now, StageCompleted(ctx.stage, ctx.cycle, true));
    AddFanOut(done.log, now, PlanCreated(ctx.cycle, out.concrete));
    AddFanOut(planned.log, now, SubtasksSpawned(out.spawned));
    WholeLog(st.log, 500);
    WholeLog(planned.log, 500);
    LatestFanOut(st.log);
    LatestFanOut(planned.log);
  }

  lemma OtherOutputsNeverFanOut(cfg: Config, st: TaskState, ctx: StageContext, out: Output, now: real)
    requires ctx.stage != Plan || !Accepted(cfg, Plan, out)
    ensures var next := HandleOutput(cfg, st, ctx, out, now);
            FanOuts(next.log) == FanOuts(st.log) && next.info == st.info
  {
    hide FanOuts, ListEvents, Latest, QualityRun, Accepted, ReviewFails, Finalize;
    var body := StageCompleted(ctx.stage, ctx.cycle, Accepted(cfg, ctx.stage, out));
    var done := Append(st, now, body);
    AddFanOut(st.log, now, body);
    AddFanOut(done.log, now, LowInfoStopped(ctx.stage, ctx.cycle));
    AddFanOut(done.log, now, TaskFailed);
    AddFanOut(done.log, now, QualityFailed(ctx.stage, ctx.cycle, out.signature));
    AddFanOut(Add(done.log, now, QualityFailed(ctx.stage, ctx.cycle, out.signature)), now, CycleStarted(ctx.cycle + 1));
    AddFanOut(done.log, now, ReviewFailed(ctx.cycle));
    AddFanOut(Add(done.log, now, ReviewFailed(ctx.cycle)), now, CycleStarted(ctx.cycle + 1));
    AddFanOut(done.log, now, RecommendedImprovement);
    FinalizeNeverFansOut(done, now);
  }

  /** Exactly the accepted first plan of a fanning task appends a fan-out event. */
  lemma StepFansOut(rules: Rules, st: TaskState, step: Step)
    requires Enabled(st, step) && |Perform(rules.cfg, st, step).log| <= STORE_LIMIT
    ensures Perform(rules.cfg, st, step).info == st.info
    ensures FanOuts(Perform(rules.cfg, st, step).log)
            == FanOuts(st.log) + if WillSpawn(rules.cfg, st, step)
                                 then [Event(step.now, SubtasksSpawned(step.outcome.output.spawned))] else []
  {
    hide FanOuts, Tick, HandleOutput, HandleStageFailure, Latest, ListEvents, Accepted;
    StepGrows(rules.cfg, st, step);
    match step {
      case TickStep(inp) => TickNeverFansOut(rules.cfg, st, inp);
      case SettleStep(index, outcome, now) =>
        var ctx := st.pending[index];
        var rest := st.(pending := st.pending[..index] + st.pending[index + 1..]);
        if outcome.Raised? {
          FailureNeverFansOut(rules.cfg, rest, ctx, outcome.raise, now);
        } else if ctx.stage == Plan && Accepted(rules.cfg, Plan, outcome.output) {
          PlanSpawns(rules.cfg, rest, ctx, outcome.output, now);
        } else {
          OtherOutputsNeverFanOut(rules.cfg, rest, ctx, outcome.output, now);
        }
      case ApproveStep(approved, now) =>
        AddFanOut(st.log, now, Approval(approved));
        AddFanOut(Add(st.log, now, Approval(approved)), now, TaskFailed);
      case OutsideStep(body, now) => AddFanOut(st.log, now, body);
    }
  }

  // ---- the family invariant ----

  /** A recorded fan-out names as many distinct tasks as the preference asks for, one per template, in order. */
  predicate FanOutOK(tasks: Tasks, id: TaskId, info: Info, ids: seq<TaskId>) {
    && 1 <= |ids| == ChildCount(info) <= |TEMPLATES| && Distinct(ids)
    && forall i :: 0 <= i < |ids| ==> ids[i] in tasks && tasks[ids[i]].info == ChildInfo(id, info, i)
  }

  ghost predicate MemberOK(rules: Rules, tasks: Tasks, id: TaskId)
    requires id in tasks
  {
    var st := tasks[id];
    && Inv(rules, st) && |st.log| <= STORE_LIMIT
    && |FanOuts(st.log)| <= 1
    && (forall e :: e in FanOuts(st.log) ==> e.body.SubtasksSpawned? && FanOutOK(tasks, id, st.info, e.body.children))
    && (st.info.parent.Some? ==> !st.info.autoSpawn)
    && (!st.info.autoSpawn ==> FanOuts(st.log) == [])
    && (st.info.parent.Some? && st.status == Status.Completed ==> Latest(st.log, KStarted).Some?)
  }

  ghost predicate FamilyInv(rules: Rules, tasks: Tasks) {
    ValidConfig(rules.cfg) && forall id :: id in tasks ==> MemberOK(rules, tasks, id)
  }

  /** Nobody disappears and nobody's attributes change. */
  predicate Extends(before: Tasks, after: Tasks) {
    forall id :: id in before ==> id in after && after[id].info == before[id].info
  }

  lemma MemberSurvives(rules: Rules, before: Tasks, after: Tasks, id: TaskId)
    requires id in before && MemberOK(rules, before, id) && Extends(before, after) && after[id] == before[id]
    ensures MemberOK(rules, after, id)
  {
    hide Inv, FanOuts, Latest;
    forall e | e in FanOuts(after[id].log) ensures FanOutOK(after, id, after[id].info, e.body.children) {
      assert FanOutOK(before, id, before[id].info, e.body.children);
    }
  }

  lemma {:induction false} CreationKeeps(tasks: Tasks, parent: TaskId, info: Info, ids: seq<TaskId>, id: TaskId)
    requires |ids| <= |TEMPLATES| && id !in ids
    ensures var grown := CreateChildren(tasks, parent, info, ids);
            (id in grown <==> id in tasks) && (id in tasks ==> grown[id] == tasks[id])
  {
    if ids == [] {
    } else {
      CreationKeeps(tasks, parent, info, ids[..|ids| - 1], id);
    }
  }

  lemma {:induction false} ChildCreated(tasks: Tasks, parent: TaskId, info: Info, ids: seq<TaskId>, i: nat)
    requires |ids| <= |TEMPLATES| && Distinct(ids) && i < |ids|
    ensures var grown := CreateChildren(tasks, parent, info, ids);
            ids[i] in grown && grown[ids[i]] == Fresh(ChildInfo(parent, info, i))
  {
    var n := |ids| - 1;
    if i < n {
      assert ids[..n][i] == ids[i];
      ChildCreated(tasks, parent, info, ids[..n], i);
    }
  }

  lemma ChildrenCreated(tasks: Tasks, parent: TaskId, info: Info, ids: seq<TaskId>)
    requires |ids| <= |TEMPLATES| && Distinct(ids) && forall i :: 0 <= i < |ids| ==> ids[i] !in tasks
    ensures var grown := CreateChildren(tasks, parent, info, ids);
            && (forall id :: id in tasks ==> id in grown && grown[id] == tasks[id])
            && (forall i :: 0 <= i < |ids| ==> ids[i] in grown && grown[ids[i]] == Fresh(ChildInfo(parent, info, i)))
            && (forall id :: id in grown ==> id in tasks || id in ids)
  {
    hide CreateChildren, Distinct;
    var grown := CreateChildren(tasks, parent, info, ids);
    forall id | id in tasks ensures id in grown && grown[id] == tasks[id] {
      CreationKeeps(tasks, parent, info, ids, id);
    }
    forall i | 0 <= i < |ids| ensures ids[i] in grown && grown[ids[i]] == Fresh(ChildInfo(parent, info, i)) {
      ChildCreated(tasks, parent, info, ids, i);
    }
    forall id | id in grown ensures id in tasks || id in ids {
      if id !in ids {
        CreationKeeps(tasks, parent, info, ids, id);
      }
    }
  }

  lemma FreshMember(rules: Rules, tasks: Tasks, id: TaskId)
    requires ValidConfig(rules.cfg) && id in tasks && tasks[id] == Fresh(tasks[id].info)
    requires tasks[id].info.parent.Some? ==> !tasks[id].info.autoSpawn
    ensures MemberOK(rules, tasks, id)
  {
    InitialInv(rules, tasks[id].info);
  }

  /** A child that completes has been bootstrapped. */
  lemma ChildCompletionNeedsStart(rules: Rules, st: TaskState, step: Step)
    requires Inv(rules, st) && Enabled(st, step) && Conforms(rules, step)
    requires |Perform(rules.cfg, st, step).log| <= STORE_LIMIT && FanOuts(st.log) == []
    requires st.status == Status.Completed ==> Latest(st.log, KStarted).Some?
    requires Perform(rules.cfg, st, step).status == Status.Completed
    ensures Latest(Perform(rules.cfg, st, step).log, KStarted).Some?
  {
    hide Fold, Disciplined, Perform, FanOuts, Latest, PipelinePassed, Conforms;
    StepGrows(rules.cfg, st, step);
    if st.status != Status.Completed {
      CompletionSafety(rules, st, step);
      if step.TickStep? {
        NoFanOutNoGate(st.log, step.inp.children);
      } else {
        PendingHasStarted(rules, st, step);
      }
    }
    LatestGrows(st.log, Perform(rules.cfg, st, step).log, KStarted);
  }

  lemma NoFanOutNoGate(log: Log, children: map<TaskId, Status>)
    requires FanOuts(log) == [] && |log| <= STORE_LIMIT
    ensures ChildGateOf(ListEvents(log, 500), children) == NoChildren
  {
    WholeLog(log, 500);
    LatestFanOut(log);
  }

  lemma PendingHasStarted(rules: Rules, st: TaskState, step: Step)
    requires Inv(rules, st) && Enabled(st, step) && step.SettleStep?
    ensures Latest(st.log, KStarted).Some?
  {
    hide Fold, Disciplined;
    LatestRefines(st.log, KStarted);
  }

  /** The acting member, in the family in which its step and its fan-out have happened. */
  lemma ActorKeepsInv(rules: Rules, tasks: Tasks, id: TaskId, step: Step)
    requires FamilyInv(rules, tasks) && FamilyEnabled(rules, tasks, OnTask(id, step))
    ensures MemberOK(rules, FamilyPerform(rules, tasks, OnTask(id, step)), id)
    ensures Extends(tasks, FamilyPerform(rules, tasks, OnTask(id, step)))
  {
    hide Inv, Perform, FanOuts, Latest, CreateChildren, Enabled, Conforms, ListEvents, SiblingOf, Accepted;
    var st := tasks[id];
    var next := Perform(rules.cfg, st, step);
    assert MemberOK(rules, tasks, id);
    StepKeepsInv(rules, st, step);
    StepFansOut(rules, st, step);
    var after := FamilyPerform(rules, tasks, OnTask(id, step));
    if WillSpawn(rules.cfg, st, step) {
      var ids := step.outcome.output.spawned;
      ChildrenCreated(tasks, id, st.info, ids);
      FirstFanOut(rules, st, step);
      assert FanOutOK(after, id, st.info, ids);
    } else {
      forall e | e in FanOuts(next.log) ensures FanOutOK(after, id, st.info, e.body.children) {
        assert FanOutOK(tasks, id, st.info, e.body.children);
      }
    }
    if st.info.parent.Some? && next.status == Status.Completed {
      ChildCompletionNeedsStart(rules, st, step);
    }
  }

  lemma FirstFanOut(rules: Rules, st: TaskState, step: Step)
    requires WillSpawn(rules.cfg, st, step) && |st.log| <= STORE_LIMIT
    ensures FanOuts(st.log) == [] && st.info.autoSpawn
  {
    WholeLog(st.log, 500);
    LatestFanOut(st.log);
  }

  lemma FamilyStepKeepsInv(rules: Rules, tasks: Tasks, s: FamilyStep)
    requires FamilyInv(rules, tasks) && FamilyEnabled(rules, tasks, s)
    ensures FamilyInv(rules, FamilyPerform(rules, tasks, s))
  {
    hide MemberOK, Perform, CreateChildren, Enabled, Conforms, SiblingOf, Inv;
    var after := FamilyPerform(rules, tasks, s);
    match s {
      case Create(id, info) =>
        forall other | other in after ensures MemberOK(rules, after, other) {
          if other == id {
            FreshMember(rules, after, id);
          } else {
            MemberSurvives(rules, tasks, after, other);
          }
        }
      case OnTask(id, step) =>
        ActorKeepsInv(rules, tasks, id, step);
        if WillSpawn(rules.cfg, tasks[id], step) {
          ChildrenCreated(tasks, id, tasks[id].info, step.outcome.output.spawned);
        }
        forall other | other in after ensures MemberOK(rules, after, other) {
          if other == id {
          } else if other in tasks {
            MemberSurvives(rules, tasks, after, other);
          } else {
            FreshMember(rules, after, other);
          }
        }
    }
  }

  // ---- runs ----

  ghost predicate FamilyFeasible(rules: Rules, tasks: Tasks, steps: seq<FamilyStep>)
    decreases |steps|
  {
    steps == [] ||
    (FamilyEnabled(rules, tasks, steps[0]) && FamilyFeasible(rules, FamilyPerform(rules, tasks, steps[0]), steps[1..]))
  }

  ghost function FamilyAfter(rules: Rules, tasks: Tasks, steps: seq<FamilyStep>): Tasks
    requires FamilyFeasible(rules, tasks, steps)
    decreases |steps|
  {
    if steps == [] then tasks else FamilyAfter(rules, FamilyPerform(rules, tasks, steps[0]), steps[1..])
  }

  lemma {:induction false} FamilyRunKeepsInv(rules: Rules, tasks: Tasks, steps: seq<FamilyStep>)
    requires FamilyInv(rules, tasks) && FamilyFeasible(rules, tasks, steps)
    ensures FamilyInv(rules, FamilyAfter(rules, tasks, steps))
    decreases |steps|
  {
    hide FamilyInv, FamilyEnabled, FamilyPerform;
    if steps == [] {
    } else {
      FamilyStepKeepsInv(rules, tasks, steps[0]);
      FamilyRunKeepsInv(rules, FamilyPerform(rules, tasks, steps[0]), steps[1..]);
    }
  }

  /** A store reached from an empty one. */
  ghost predicate FamilyReaches(rules: Rules, steps: seq<FamilyStep>, tasks: Tasks) {
    ValidConfig(rules.cfg) && FamilyFeasible(rules, map[], steps) && tasks == FamilyAfter(rules, map[], steps)
  }

  lemma ReachedFamily(rules: Rules, steps: seq<FamilyStep>, tasks: Tasks)
    requires FamilyReaches(rules, steps, tasks)
    ensures FamilyInv(rules, tasks)
  {
    assert FamilyInv(rules, map[]);
    FamilyRunKeepsInv(rules, map[], steps);
  }

  /** Every task fans out at most once, into at most four distinct tasks of its own, and no child
      of another task fans out at all. */
  lemma FanOutOnce(rules: Rules, steps: seq<FamilyStep>, tasks: Tasks, id: TaskId)
    requires FamilyReaches(rules, steps, tasks) && id in tasks
    ensures |FanOuts(tasks[id].log)| <= 1
    ensures forall e :: e in FanOuts(tasks[id].log) ==>
              && e.body.SubtasksSpawned? && 1 <= |e.body.children| <= 4 && Distinct(e.body.children)
              && forall i :: 0 <= i < |e.body.children| ==>
                   e.body.children[i] in tasks && tasks[e.body.children[i]].info.parent == Some(id)
    ensures tasks[id].info.parent.Some? ==> FanOuts(tasks[id].log) == []
  {
    hide FamilyReaches, Inv;
    ReachedFamily(rules, steps, tasks);
    assert MemberOK(rules, tasks, id);
  }

  // ---- deadlock freedom ----

  /** The task waits for its own children. */
  predicate WaitsForChildren(tasks: Tasks, id: TaskId)
    requires id in tasks
  {
    ChildGateOf(ListEvents(tasks[id].log, 500), Statuses(tasks)) == AwaitingChildren
  }

  /** The task is an implementation child that waits for an analysis sibling. */
  predicate WaitsForSibling(tasks: Tasks, id: TaskId)
    requires id in tasks
  {
    tasks[id].info.taskType == Implementation && tasks[id].info.parent.Some? && SiblingOf(tasks, id) == SiblingWaiting
  }

  predicate Free(tasks: Tasks, id: TaskId) {
    id in tasks && Active(tasks[id]) && !WaitsForChildren(tasks, id) && !WaitsForSibling(tasks, id)
  }

  lemma ChildrenOf(rules: Rules, tasks: Tasks, id: TaskId) returns (ids: seq<TaskId>)
    requires FamilyInv(rules, tasks) && id in tasks
    ensures ids == SpawnedIds(ListEvents(tasks[id].log, 500))
    ensures ids != [] ==> FanOutOK(tasks, id, tasks[id].info, ids)
    ensures WaitsForChildren(tasks, id) ==> ids != []
    ensures tasks[id].info.parent.Some? ==> ids == []
  {
    hide Inv, Latest, FanOuts;
    assert MemberOK(rules, tasks, id);
    WholeLog(tasks[id].log, 500);
    LatestFanOut(tasks[id].log);
    ids := SpawnedIds(tasks[id].log);
  }

  /** An active analysis child can always move. */
  lemma AnalysisIsFree(rules: Rules, tasks: Tasks, id: TaskId)
    requires FamilyInv(rules, tasks) && IsAnalysis(tasks, id) && Active(tasks[id]) && tasks[id].info.parent.Some?
    ensures Free(tasks, id)
  {
    hide FamilyInv, ListEvents, Latest, SpawnedIds;
    var ids := ChildrenOf(rules, tasks, id);
  }

  /** An implementation child that waits does so for an active analysis sibling that can move. */
  lemma WaitingSiblingIsFree(rules: Rules, tasks: Tasks, id: TaskId) returns (other: TaskId)
    requires FamilyInv(rules, tasks) && id in tasks && WaitsForSibling(tasks, id)
    ensures Free(tasks, other) && tasks[other].info.parent == tasks[id].info.parent
  {
    hide FamilyInv, ListEvents, Latest, SpawnedIds, Free;
    var parent := tasks[id].info.parent.value;
    assert parent in tasks;
    var ids := ChildrenOf(rules, tasks, parent);
    var i :| 0 <= i < |ids| && AnalysisPending(tasks, ids[i]);
    other := ids[i];
    assert !AnalysisWith(tasks, other, Blocked);
    AnalysisIsFree(rules, tasks, other);
  }

  /** Whenever a task waits for another one, some member of its family is active and waits for nobody. */
  lemma NoDeadlock(rules: Rules, steps: seq<FamilyStep>, tasks: Tasks, id: TaskId) returns (other: TaskId)
    requires FamilyReaches(rules, steps, tasks)
    requires id in tasks && (WaitsForChildren(tasks, id) || WaitsForSibling(tasks, id))
    ensures Free(tasks, other) && tasks[other].info.parent.Some?
    ensures tasks[other].info.parent == if WaitsForChildren(tasks, id) then Some(id) else tasks[id].info.parent
  {
    hide FamilyReaches, FamilyInv, ListEvents, Latest, SpawnedIds, Free;
    ReachedFamily(rules, steps, tasks);
    if WaitsForChildren(tasks, id) {
      var child := ActiveChild(rules, tasks, id);
      if WaitsForSibling(tasks, child) {
        other := WaitingSiblingIsFree(rules, tasks, child);
      } else {
        other := child;
        ChildIsFree(rules, tasks, child);
      }
    } else {
      other := WaitingSiblingIsFree(rules, tasks, id);
    }
  }

  lemma ActiveChild(rules: Rules, tasks: Tasks, id: TaskId) returns (child: TaskId)
    requires FamilyInv(rules, tasks) && id in tasks && WaitsForChildren(tasks, id)
    ensures child in tasks && Active(tasks[child]) && tasks[child].info.parent == Some(id)
  {
    hide FamilyInv, ListEvents, Latest;
    var ids := ChildrenOf(rules, tasks, id);
    var i :| 0 <= i < |ids| && !HasStatus(Statuses(tasks), ids[i], Status.Completed);
    child := ids[i];
    assert !HasStatus(Statuses(tasks), child, Blocked);
  }

  lemma ChildIsFree(rules: Rules, tasks: Tasks, id: TaskId)
    requires FamilyInv(rules, tasks) && id in tasks && Active(tasks[id]) && tasks[id].info.parent.Some?
    requires !WaitsForSibling(tasks, id)
    ensures Free(tasks, id)
  {
    hide FamilyInv, ListEvents, Latest, SpawnedIds;
    var ids := ChildrenOf(rules, tasks, id);
  }

  lemma BegunBehindSibling(cfg: Config, st: TaskState, inp: TickInput)
    requires st.info.taskType == Implementation && st.info.parent.Some?
    requires var r := Tick(cfg, st, inp);
             r.1 == StageBegan && r.0.log != [] && Last(r.0.log).body.StageStarted? && Last(r.0.log).body.stage == Execute
    ensures inp.sibling != SiblingBlocked && inp.sibling != SiblingWaiting
  {
    hide ListEvents, Latest, NextStage, StepCount, ChildGateOf, RetryEpoch, Inflight, HandleStageFailure, CurrentCycle,
      ConcretePlan;
  }

  /** An implementation child starts its execution only when an analysis sibling has recommended
      something or every analysis sibling is completed. */
  lemma ImplementationWaitsForAnalysis(rules: Rules, tasks: Tasks, id: TaskId, inp: TickInput)
    requires FamilyEnabled(rules, tasks, OnTask(id, TickStep(inp)))
    requires tasks[id].info.taskType == Implementation && tasks[id].info.parent.Some?
    requires var r := Tick(rules.cfg, tasks[id], inp);
             r.1 == StageBegan && r.0.log != [] && Last(r.0.log).body.StageStarted? && Last(r.0.log).body.stage == Execute
    ensures var parent := tasks[id].info.parent.value;
            var ids := if parent in tasks then SpawnedIds(ListEvents(tasks[parent].log, 500)) else [];
            || (exists i :: 0 <= i < |ids| && Recommends(tasks, ids[i]))
            || (forall i :: 0 <= i < |ids| && IsAnalysis(tasks, ids[i]) ==> AnalysisWith(tasks, ids[i], Status.Completed))
  {
    hide ListEvents, SpawnedIds, Tick, Recommends, IsAnalysis;
    BegunBehindSibling(rules.cfg, tasks[id], inp);
    var parent := tasks[id].info.parent.value;
    var ids := if parent in tasks then SpawnedIds(ListEvents(tasks[parent].log, 500)) else [];
    assert RecommendationState(tasks, ids) == SiblingReady;
    forall i | 0 <= i < |ids| && IsAnalysis(tasks, ids[i]) && !exists k :: 0 <= k < |ids| && Recommends(tasks, ids[k])
      ensures AnalysisWith(tasks, ids[i], Status.Completed)
    {
      assert !AnalysisPending(tasks, ids[i]);
    }
  }

  lemma CompletedAnalysisLeftBaton(rules: Rules, tasks: Tasks, id: TaskId, ids: seq<TaskId>, i: nat)
    requires FamilyInv(rules, tasks) && id in tasks && i < |ids| && FanOutOK(tasks, id, tasks[id].info, ids)
    requires AnalysisWith(tasks, ids[i], Status.Completed)
    ensures AnalysisBaton(tasks, ids[i])
  {
    hide Latest, Inv, FanOuts;
    assert MemberOK(rules, tasks, ids[i]);
  }

  /** A completed analysis child always leaves a baton, so an implementation child is refused for
      lack of a recommendation exactly when an analysis sibling is blocked and none has recommended. */
  lemma RefusedOnlyByBlockedAnalysis(rules: Rules, steps: seq<FamilyStep>, tasks: Tasks, id: TaskId)
    requires FamilyReaches(rules, steps, tasks) && id in tasks
    ensures var ids := SpawnedIds(ListEvents(tasks[id].log, 500));
            RecommendationState(tasks, ids) == SiblingBlocked
            <==> && (forall i :: 0 <= i < |ids| ==> !Recommends(tasks, ids[i]))
                 && (exists i :: 0 <= i < |ids| && AnalysisWith(tasks, ids[i], Blocked))
  {
    hide FamilyReaches, FamilyInv, ListEvents, SpawnedIds, FanOutOK, Recommends, AnalysisBaton;
    ReachedFamily(rules, steps, tasks);
    var ids := ChildrenOf(rules, tasks, id);
    forall i | 0 <= i < |ids| && AnalysisWith(tasks, ids[i], Status.Completed)
      ensures AnalysisBaton(tasks, ids[i])
    {
      CompletedAnalysisLeftBaton(rules, tasks, id, ids, i);
    }
    if (forall i :: 0 <= i < |ids| ==> !AnalysisPending(tasks, ids[i]))
       && exists i :: 0 <= i < |ids| && IsAnalysis(tasks, ids[i]) {
      var i :| 0 <= i < |ids| && IsAnalysis(tasks, ids[i]);
      assert AnalysisWith(tasks, ids[i], Status.Completed);
    }
  }
}
