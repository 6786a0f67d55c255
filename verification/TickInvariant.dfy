/** A tick keeps the invariant: one lemma per gate, from the last gate back to the first. */
module TickInvariant {
  import opened EventLog
  import opened TaskGate
  import opened ControlState
  import opened FailureHandler
  import opened Engine
  import opened Discipline

  /** A bootstrapped active task at the gates of its next stage. */
  ghost predicate Gating(rules: Rules, st: TaskState, inp: TickInput, stage: Stage, cycle: int) {
    var c := Fold(st.log);
    && Inv(rules, st) && Active(st)
    && cycle == c.cycles >= 1
    && FirstMissing(DoneIn(c, cycle)) == Some(stage)
    && c.steps < rules.cfg.maxSteps
    && InTime(c, inp.now)
    && (At(c, stage, cycle).endedAt.Some? ==> At(c, stage, cycle).endedAt.value < inp.now)
    && inp.maxRetries <= rules.retries
    && (rules.approval ==> inp.requiresApproval)
    && Childless(c)
    && |st.log| <= STORE_LIMIT
  }

  predicate Cleared(rules: Rules, c: Control, inp: TickInput, stage: Stage, cycle: int) {
    && (stage == Execute && rules.approval ==> ApprovedNow(c))
    && NotBeforeRetry(At(c, stage, cycle), inp.now)
  }

  /** A run in flight is a run of the next stage, so a tick that finds none in flight may start it. */
  lemma PendingIsNext(rules: Rules, st: TaskState, inp: TickInput, stage: Stage, cycle: int)
    requires Gating(rules, st, inp, stage, cycle)
    ensures InTurn(Fold(st.log), stage, cycle)
    ensures st.pending != [] ==>
              st.pending[0].stage == stage && st.pending[0].cycle == cycle && Running(At(Fold(st.log), stage, cycle))
    ensures Inflight(st.log, stage, cycle) == Running(At(Fold(st.log), stage, cycle))
  {
    hide Fold, Disciplined, Delay, Failures, Apply, EventOK;
    var c := Fold(st.log);
    assert At(c, stage, cycle).done <==> stage in DoneIn(c, cycle);
    assert At(c, Plan, cycle).done <==> Plan in DoneIn(c, cycle);
    assert At(c, Execute, cycle).done <==> Execute in DoneIn(c, cycle);
    MarksRefine(st.log, stage, cycle);
  }

  lemma BeginKeepsInv(rules: Rules, st: TaskState, inp: TickInput, stage: Stage, cycle: int)
    requires Gating(rules, st, inp, stage, cycle) && Cleared(rules, Fold(st.log), inp, stage, cycle)
    requires stage == Execute && rules.cfg.executePlan ==> PlanKnown(Fold(st.log))
    ensures Inv(rules, BeginStage(rules.cfg, st, inp, stage, cycle).0)
  {
    hide Fold, Disciplined, Delay, Failures, Apply, EventOK, ListEvents, HandleStageFailure;
    WholeLog(st.log, 500);
    PendingIsNext(rules, st, inp, stage, cycle);
    StageScansRefine(st.log, stage, cycle);
    var ctx := StageContext(stage, cycle, inp.maxRetries, ListEvents(st.log, 500));
    if !Inflight(st.log, stage, cycle) {
      assert st.pending == [];
      match inp.early {
        case Some(raise) =>
          assert Open(rules, Fold(st.log), true, ctx, inp.now);
          FailureKeepsInv(rules, st, ctx, raise, inp.now);
        case None =>
          StartEvent(rules, Fold(st.log), ctx, inp.now);
          AddOK(rules, st.log, inp.now, StageStarted(stage, cycle));
          assert st.pending + [ctx] == [ctx];
      }
    }
  }

  lemma MissingPlanKeepsInv(rules: Rules, st: TaskState, cycle: int, at: real)
    requires Inv(rules, st) && st.pending == [] && InTime(Fold(st.log), at)
    requires 1 <= cycle == Fold(st.log).cycles < rules.cfg.maxCycles
    ensures Inv(rules, Append(Append(st, at, PlanMissing(cycle)), at, CycleStarted(cycle + 1)))
  {
    hide Fold, Disciplined, EventOK, Delay, Failures;
    var missing := Append(st, at, PlanMissing(cycle));
    PassiveKeepsInv(rules, st, st.status, at, PlanMissing(cycle));
    assert Fold(missing.log).cycles == cycle && Bounded(rules, Fold(missing.log), 0);
    CycleKeepsInv(rules, missing, at);
  }

  /** While an execute run is in flight its plan stays concrete. */
  lemma PlanStaysConcrete(rules: Rules, st: TaskState, inp: TickInput, cycle: int)
    requires Gating(rules, st, inp, Execute, cycle) && rules.cfg.executePlan
    ensures ConcretePlan(st.log) ==> PlanKnown(Fold(st.log))
    ensures !ConcretePlan(st.log) ==> st.pending == []
  {
    hide Fold, Disciplined, Delay, Failures, Apply, EventOK;
    LatestRefines(st.log, KPlanCreated);
    PendingIsNext(rules, st, inp, Execute, cycle);
  }

  lemma BlockedPlanKeepsInv(rules: Rules, st: TaskState, cycle: int, at: real)
    requires Inv(rules, st) && InTime(Fold(st.log), at)
    ensures Inv(rules, Append(st.(status := Blocked), at, PlanBlocked(cycle)))
  {
    hide Fold, Disciplined, Delay, Failures, Apply, EventOK;
    PassiveKeepsInv(rules, st, Blocked, at, PlanBlocked(cycle));
  }

  lemma PlanGateKeepsInv(rules: Rules, st: TaskState, inp: TickInput, stage: Stage, cycle: int)
    requires Gating(rules, st, inp, stage, cycle) && Cleared(rules, Fold(st.log), inp, stage, cycle)
    ensures Inv(rules, PlanGate(rules.cfg, st, inp, stage, cycle).0)
  {
    hide Fold, Disciplined, Delay, Failures, Apply, EventOK, ListEvents, Inv, Cleared, BeginStage, ConcretePlan, PlanKnown;
    WholeLog(st.log, 300);
    var result := PlanGate(rules.cfg, st, inp, stage, cycle).0;
    if stage == Execute && rules.cfg.executePlan {
      PlanStaysConcrete(rules, st, inp, cycle);
    }
    if stage != Execute || !rules.cfg.executePlan || ConcretePlan(st.log) {
      BeginKeepsInv(rules, st, inp, stage, cycle);
      assert result == BeginStage(rules.cfg, st, inp, stage, cycle).0;
    } else if cycle >= rules.cfg.maxCycles {
      BlockedPlanKeepsInv(rules, st, cycle, inp.now);
      assert result == Append(st.(status := Blocked), inp.now, PlanBlocked(cycle));
    } else {
      MissingPlanKeepsInv(rules, st, cycle, inp.now);
      assert result == Append(Append(st, inp.now, PlanMissing(cycle)), inp.now, CycleStarted(cycle + 1));
    }
  }

  lemma SiblingGateKeepsInv(rules: Rules, st: TaskState, inp: TickInput, stage: Stage, cycle: int)
    requires Gating(rules, st, inp, stage, cycle) && Cleared(rules, Fold(st.log), inp, stage, cycle)
    ensures Inv(rules, SiblingGate(rules.cfg, st, inp, stage, cycle).0)
  {
    hide Fold, Disciplined, Delay, Failures, Apply, EventOK, PlanGate, Cleared;
    var result := SiblingGate(rules.cfg, st, inp, stage, cycle);
    if result == (Block(st, inp.now), SiblingFailed) {
      PassiveKeepsInv(rules, st, Blocked, inp.now, TaskFailed);
    } else if result == (st, AwaitingSibling) {
    } else {
      PlanGateKeepsInv(rules, st, inp, stage, cycle);
    }
  }

  lemma ApprovalGateKeepsInv(rules: Rules, st: TaskState, inp: TickInput, stage: Stage, cycle: int)
    requires Gating(rules, st, inp, stage, cycle)
    ensures Inv(rules, ApprovalGate(rules.cfg, st, inp, stage, cycle).0)
  {
    hide Fold, Disciplined, Delay, Failures, Apply, EventOK, SiblingGate, ListEvents, Latest, RetryEpoch, Steady;
    WholeLog(st.log, 500);
    LatestRefines(st.log, KApproval);
    StageScansRefine(st.log, stage, cycle);
    var retry := RetryEpoch(st.log, stage, cycle);
    match ApprovalGateState(st.log, stage, inp.requiresApproval) {
      case Awaiting => PassiveKeepsInv(rules, st, st.status, inp.now, ApprovalRequested);
      case Rejected => PassiveKeepsInv(rules, st, Blocked, inp.now, TaskFailed);
      case _ =>
        if !(retry.Some? && inp.now < retry.value) {
          SiblingGateKeepsInv(rules, st, inp, stage, cycle);
        }
    }
  }

  lemma FinishKeepsInv(rules: Rules, st: TaskState, at: real)
    requires Inv(rules, st) && InTime(Fold(st.log), at)
    ensures Inv(rules, Finalize(st, at))
  {
    hide Fold, Disciplined, Delay, Failures, Apply, EventOK;
    PassiveKeepsInv(rules, st, Status.Completed, at, TaskCompleted);
  }

  /** The two events of a first tick. */
  lemma FirstTickKeepsInv(rules: Rules, st: TaskState, at: real)
    requires Inv(rules, st) && Active(st) && InTime(Fold(st.log), at) && Fold(st.log).cycles == 0
    ensures var log := Add(Add(st.log, at, Started), at, CycleStarted(1));
            && Inv(rules, st.(status := InProgress, log := log))
            && Fold(log).tracks == Fold(st.log).tracks == map[] && Fold(log).steps == Fold(st.log).steps
            && Fold(log).cycles == Fold(log).cycle == 1 && Fold(log).lastAt == Some(at)
            && (Childless(Fold(st.log)) ==> Childless(Fold(log)))
  {
    hide Fold, Disciplined, EventOK, Delay, Failures;
    var c := Fold(st.log);
    assert c.tracks == map[];
    BootstrapEvents(rules, c, at);
    AddOK(rules, st.log, at, Started);
    AddOK(rules, Add(st.log, at, Started), at, CycleStarted(1));
  }

  lemma BootstrapKeepsInv(rules: Rules, st: TaskState, at: real)
    requires Inv(rules, st) && Active(st) && InTime(Fold(st.log), at) && |st.log| <= STORE_LIMIT
    ensures var begun := Bootstrap(st.(status := InProgress), at);
            var c := Fold(begun.log);
            && Inv(rules, begun) && Active(begun)
            && BootstrapCycle(st) == c.cycles >= 1
            && InTime(c, at) && c.tracks == Fold(st.log).tracks && c.steps == Fold(st.log).steps
            && c.cycle == Fold(st.log).cycle
            && (begun.log == st.log || c.tracks == map[])
            && (Childless(Fold(st.log)) ==> Childless(c))
  {
    hide Fold, Disciplined, Delay, Failures, Apply, EventOK, ListEvents, Latest, CurrentCycle;
    WholeLog(st.log, 500);
    LatestRefines(st.log, KStarted);
    CountersRefine(st.log);
    var begun := Bootstrap(st.(status := InProgress), at);
    if Fold(st.log).cycles == 0 {
      FirstTickKeepsInv(rules, st, at);
      assert begun == st.(status := InProgress, log := Add(Add(st.log, at, Started), at, CycleStarted(1)));
    } else {
      assert begun == st.(status := InProgress);
    }
  }

  lemma ChildrenKeepInv(rules: Rules, st: TaskState, at: real)
    requires Inv(rules, st) && InTime(Fold(st.log), at)
    ensures Inv(rules, Finalize(RecordChildren(st, at), at))
  {
    hide Fold, Disciplined, Delay, Failures, Apply, EventOK, ListEvents, Latest, Steady;
    PassiveKeepsInv(rules, st, st.status, at, Body.ChildrenCompleted);
    var recorded := RecordChildren(st, at);
    assert Inv(rules, recorded) && InTime(Fold(recorded.log), at);
    FinishKeepsInv(rules, recorded, at);
  }

  // ---- the log only grows ----

  predicate Grown(before: Log, after: Log) {
    |before| <= |after| && after[..|before|] == before
  }

  lemma FailureGrows(cfg: Config, st: TaskState, ctx: StageContext, raise: Raise, now: real)
    ensures Grown(st.log, HandleStageFailure(cfg, st, ctx, raise, now).log)
    ensures |st.log| < |HandleStageFailure(cfg, st, ctx, raise, now).log|
  {
    hide ListEvents, Failures, FailureRun, LatestFailure, Judge;
  }

  lemma GatesGrow(cfg: Config, st: TaskState, inp: TickInput, stage: Stage, cycle: int)
    ensures Grown(st.log, ApprovalGate(cfg, st, inp, stage, cycle).0.log)
  {
    hide ListEvents, Latest, RetryEpoch, Inflight, HandleStageFailure, ConcretePlan;
    if inp.early.Some? {
      FailureGrows(cfg, st, StageContext(stage, cycle, inp.maxRetries, ListEvents(st.log, 500)), inp.early.value, inp.now);
    }
  }

  /** A tick extends the log, and past the bootstrap it extends the bootstrapped log. */
  lemma TickGrows(cfg: Config, st: TaskState, inp: TickInput)
    ensures Grown(st.log, Tick(cfg, st, inp).0.log)
    ensures Active(st) && ChildGateOf(ListEvents(st.log, 500), inp.children).NoChildren?
            && StepCount(ListEvents(st.log, 500)) < cfg.maxSteps
            ==> Grown(Bootstrap(st.(status := InProgress), inp.now).log, Tick(cfg, st, inp).0.log)
  {
    hide ListEvents, Latest, StepCount, ApprovalGate, ChildGateOf, NextStage, CurrentCycle;
    var begun := Bootstrap(st.(status := InProgress), inp.now);
    var cycle := BootstrapCycle(st);
    match NextStage(ListEvents(begun.log, 500), cycle) {
      case None =>
      case Some(stage) => GatesGrow(cfg, begun, inp, stage, cycle);
    }
  }

  lemma TickKeepsInv(rules: Rules, st: TaskState, inp: TickInput)
    requires Inv(rules, st) && Enabled(st, TickStep(inp)) && Conforms(rules, TickStep(inp))
    requires |Tick(rules.cfg, st, inp).0.log| <= STORE_LIMIT
    ensures Inv(rules, Tick(rules.cfg, st, inp).0)
  {
    hide Fold, Disciplined, Delay, Failures, Apply, EventOK, ListEvents, ChildGateOf, StepCount, Steady, Finalize, ApprovalGate, NextStage, Bootstrap;
    LastAtRefines(st.log);
    TickGrows(rules.cfg, st, inp);
    if Active(st) {
      WholeLog(st.log, 500);
      CountersRefine(st.log);
      match ChildGateOf(st.log, inp.children) {
        case AwaitingChildren =>
        case ChildrenFailed => PassiveKeepsInv(rules, st, Blocked, inp.now, TaskFailed);
        case AllChildrenDone => ChildrenKeepInv(rules, st, inp.now);
        case NoChildren =>
          if StepCount(st.log) >= rules.cfg.maxSteps {
            PassiveKeepsInv(rules, st, Blocked, inp.now, TaskFailed);
          } else {
            NoChildrenIsChildless(st.log, inp.children);
            StagesKeepInv(rules, st, inp);
          }
      }
    }
  }

  lemma NoChildrenIsChildless(log: Log, children: map<TaskId, Status>)
    requires ChildGateOf(log, children) == NoChildren
    ensures Childless(Fold(log))
  {
    hide Fold;
    LatestRefines(log, KSubtasksSpawned);
    SpawnIsSpawned(log);
  }

  lemma {:induction false} SpawnIsSpawned(log: Log)
    ensures Latest(log, KSubtasksSpawned).Some? ==> Latest(log, KSubtasksSpawned).value.body.SubtasksSpawned?
  {
    if log == [] {
    } else {
      SpawnIsSpawned(Init(log));
    }
  }

  lemma StagesKeepInv(rules: Rules, st: TaskState, inp: TickInput)
    requires Inv(rules, st) && Enabled(st, TickStep(inp)) && Conforms(rules, TickStep(inp)) && Active(st)
    requires |st.log| <= STORE_LIMIT && |Bootstrap(st.(status := InProgress), inp.now).log| <= STORE_LIMIT
    requires Fold(st.log).steps < rules.cfg.maxSteps && Childless(Fold(st.log))
    ensures var begun := Bootstrap(st.(status := InProgress), inp.now);
            var cycle := BootstrapCycle(st);
            match NextStage(ListEvents(begun.log, 500), cycle)
            case None => Inv(rules, Finalize(begun, inp.now))
            case Some(stage) => Inv(rules, ApprovalGate(rules.cfg, begun, inp, stage, cycle).0)
  {
    hide Fold, Disciplined, Delay, Failures, Apply, EventOK, ListEvents, NextStage, ApprovalGate;
    LastAtRefines(st.log);
    BootstrapKeepsInv(rules, st, inp.now);
    var begun := Bootstrap(st.(status := InProgress), inp.now);
    var cycle := BootstrapCycle(st);
    WholeLog(begun.log, 500);
    NextStageRefines(begun.log, cycle);
    match NextStage(begun.log, cycle) {
      case None => FinishKeepsInv(rules, begun, inp.now);
      case Some(stage) =>
        assert Key(stage, cycle) in Fold(st.log).tracks ==> EndedBy(At(Fold(st.log), stage, cycle), Fold(st.log).lastAt);
        ApprovalGateKeepsInv(rules, begun, inp, stage, cycle);
    }
  }
}
