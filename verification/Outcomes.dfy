/** What every run of a task guarantees: it ends, it completes only behind passed gates, and a
    blocked task stays blocked. */
module Outcomes {
  import opened EventLog
  import opened TaskGate
  import opened ControlState
  import opened QualityGate
  import opened FailureHandler
  import opened Engine
  import opened Discipline
  import opened TickInvariant
  import opened Runs
  import opened LogTheorems

  // ---- termination ----

  /** Unspent steps plus unstarted cycles. */
  function Level(cfg: Config, st: TaskState): int {
    cfg.maxSteps - StepCount(st.log) - |st.pending| + cfg.maxCycles - CurrentCycle(st.log)
  }

  function Fuel(cfg: Config, st: TaskState): int {
    if Active(st) then 1 + Level(cfg, st) else 0
  }

  predicate Quota(cfg: Config, st: TaskState, next: TaskState, result: TickResult) {
    Active(next) ==> Level(cfg, next) + (if Waiting(result) then 0 else 1) <= Level(cfg, st)
  }

  lemma AddCounts(log: Log, at: real, body: Body)
    ensures StepCount(Add(log, at, body)) == StepCount(log) + if IsTerminal(body) then 1 else 0
    ensures CurrentCycle(Add(log, at, body))
            == if body.CycleStarted? && body.cycle >= 1 then body.cycle else CurrentCycle(log)
  {
    assert Init(Add(log, at, body)) == log;
  }

  lemma FailureSpends(cfg: Config, st: TaskState, ctx: StageContext, raise: Raise, now: real)
    requires CurrentCycle(st.log) == ctx.cycle >= 1
    ensures var next := HandleStageFailure(cfg, st, ctx, raise, now);
            && next.pending == st.pending
            && (Active(next) ==> Level(cfg, next) <= Level(cfg, st) - 1)
  {
    hide StepCount, CurrentCycle, ListEvents, Failures, FailureRun, LatestFailure, Judge, Delay;
    var next := HandleStageFailure(cfg, st, ctx, raise, now);
    var attempt := Failures(ctx.events, ctx.stage, ctx.cycle) + 1;
    var body := StageFailed(ctx.stage, ctx.cycle, attempt, raise.signature);
    var failed := Append(st, now, body);
    AddCounts(st.log, now, body);
    AddCounts(failed.log, now, RetryScheduled(ctx.stage, ctx.cycle, attempt, now + Delay(cfg, attempt)));
    AddCounts(failed.log, now, CycleStarted(ctx.cycle + 1));
  }

  lemma GatesSpend(cfg: Config, st: TaskState, inp: TickInput, stage: Stage, cycle: int)
    requires CurrentCycle(st.log) == cycle >= 1
    ensures var result := ApprovalGate(cfg, st, inp, stage, cycle);
            Quota(cfg, st, result.0, result.1)
  {
    hide StepCount, CurrentCycle, ListEvents, Latest, RetryEpoch, Inflight, HandleStageFailure;
    AddCounts(st.log, inp.now, ApprovalRequested);
    AddCounts(st.log, inp.now, PlanMissing(cycle));
    AddCounts(Add(st.log, inp.now, PlanMissing(cycle)), inp.now, CycleStarted(cycle + 1));
    AddCounts(st.log, inp.now, StageStarted(stage, cycle));
    if inp.early.Some? {
      FailureSpends(cfg, st, StageContext(stage, cycle, inp.maxRetries, ListEvents(st.log, 500)), inp.early.value, inp.now);
    }
  }

  lemma TickSpends(rules: Rules, st: TaskState, inp: TickInput)
    requires Inv(rules, st) && Enabled(st, TickStep(inp)) && |st.log| <= STORE_LIMIT
    ensures var result := Tick(rules.cfg, st, inp);
            && Quota(rules.cfg, st, result.0, result.1)
            && (!Active(st) ==> Waiting(result.1))
  {
    hide StepCount, CurrentCycle, ListEvents, Latest, NextStage, ApprovalGate, ChildGateOf, Disciplined, Fold;
    if Active(st) {
      LastAtRefines(st.log);
      BootstrapKeepsInv(rules, st, inp.now);
      var begun := Bootstrap(st.(status := InProgress), inp.now);
      var cycle := BootstrapCycle(st);
      CountersRefine(st.log);
      CountersRefine(begun.log);
      assert begun.pending == st.pending && Level(rules.cfg, begun) == Level(rules.cfg, st);
      match NextStage(ListEvents(begun.log, 500), cycle) {
        case None =>
        case Some(stage) => GatesSpend(rules.cfg, begun, inp, stage, cycle);
      }
    }
  }

  lemma OutputSpends(cfg: Config, st: TaskState, ctx: StageContext, out: Output, now: real)
    requires CurrentCycle(st.log) == ctx.cycle >= 1
    ensures var next := HandleOutput(cfg, st, ctx, out, now);
            && next.pending == st.pending
            && (Active(next) ==> Level(cfg, next) <= Level(cfg, st) - 1)
  {
    hide StepCount, CurrentCycle, ListEvents, Latest, QualityRun, Accepted, ReviewFails;
    var body := StageCompleted(ctx.stage, ctx.cycle, Accepted(cfg, ctx.stage, out));
    var done := Add(st.log, now, body);
    AddCounts(st.log, now, body);
    AddCounts(done, now, QualityFailed(ctx.stage, ctx.cycle, out.signature));
    AddCounts(Add(done, now, QualityFailed(ctx.stage, ctx.cycle, out.signature)), now, CycleStarted(ctx.cycle + 1));
    AddCounts(done, now, ReviewFailed(ctx.cycle));
    AddCounts(Add(done, now, ReviewFailed(ctx.cycle)), now, CycleStarted(ctx.cycle + 1));
    AddCounts(done, now, PlanCreated(ctx.cycle, out.concrete));
    AddCounts(done, now, SubtasksSpawned(out.spawned));
    AddCounts(Add(done, now, PlanCreated(ctx.cycle, out.concrete)), now, SubtasksSpawned(out.spawned));
    AddCounts(done, now, RecommendedImprovement);
  }

  function TickWork(cfg: Config, st: TaskState, step: Step): nat {
    if step.TickStep? && !Waiting(Tick(cfg, st, step.inp).1) then 1 else 0
  }

  lemma SettleSpends(rules: Rules, st: TaskState, index: nat, outcome: Outcome, now: real)
    requires Inv(rules, st) && index < |st.pending|
    ensures var next := Settle(rules.cfg, st, index, outcome, now);
            Active(next) ==> Active(st) && Level(rules.cfg, next) <= Level(rules.cfg, st)
  {
    hide StepCount, CurrentCycle, HandleOutput, HandleStageFailure, Fold, Disciplined;
    var ctx := st.pending[index];
    var rest := st.(pending := st.pending[..index] + st.pending[index + 1..]);
    CountersRefine(st.log);
    StatusNeverRevives(rules.cfg, st, SettleStep(index, outcome, now));
    match outcome {
      case Raised(raise) => FailureSpends(rules.cfg, rest, ctx, raise, now);
      case Finished(out) => OutputSpends(rules.cfg, rest, ctx, out, now);
    }
  }

  /** No step makes an inactive task active again; a tick leaves it as it is. */
  lemma StatusNeverRevives(cfg: Config, st: TaskState, step: Step)
    requires step.SettleStep? ==> step.index < |st.pending|
    ensures !Active(st) ==>
              match step
              case TickStep(inp) => Tick(cfg, st, inp).0 == st
              case SettleStep(index, outcome, now) => !Active(Settle(cfg, st, index, outcome, now))
              case ApproveStep(approved, now) => !Active(SetApproval(st, approved, now))
              case OutsideStep(body, now) => !Active(Append(st, now, body))
  {
    hide ListEvents, Latest, QualityRun, FailureRun, Failures, LatestFailure, Judge, Accepted, ReviewFails;
  }

  lemma StepSpends(rules: Rules, st: TaskState, step: Step)
    requires Inv(rules, st) && Enabled(st, step) && Conforms(rules, step)
    requires |Perform(rules.cfg, st, step).log| <= STORE_LIMIT
    ensures Fuel(rules.cfg, Perform(rules.cfg, st, step)) + TickWork(rules.cfg, st, step) <= Fuel(rules.cfg, st)
    ensures Fuel(rules.cfg, st) >= 0
  {
    hide Tick, Settle, StepCount, CurrentCycle, Fold, Disciplined;
    StepKeepsInv(rules, st, step);
    StepGrows(rules.cfg, st, step);
    var next := Perform(rules.cfg, st, step);
    LevelNatural(rules, st);
    LevelNatural(rules, next);
    match step {
      case TickStep(inp) =>
        TickSpends(rules, st, inp);
        StatusNeverRevives(rules.cfg, st, step);
      case SettleStep(index, outcome, now) => SettleSpends(rules, st, index, outcome, now);
      case ApproveStep(approved, now) =>
        AddCounts(st.log, now, Approval(approved));
      case OutsideStep(body, now) => AddCounts(st.log, now, body);
    }
  }

  lemma LevelNatural(rules: Rules, st: TaskState)
    requires Inv(rules, st)
    ensures Level(rules.cfg, st) >= 0
  {
    hide Fold, Disciplined;
    CountersRefine(st.log);
  }

  /** The ticks of a run that did not merely wait. */
  ghost function Work(rules: Rules, st: TaskState, steps: seq<Step>): nat
    requires Feasible(rules, st, steps)
    decreases |steps|
  {
    if steps == [] then 0
    else TickWork(rules.cfg, st, steps[0]) + Work(rules, Perform(rules.cfg, st, steps[0]), steps[1..])
  }

  lemma {:induction false} RunSpends(rules: Rules, st: TaskState, steps: seq<Step>)
    requires Inv(rules, st) && Feasible(rules, st, steps)
    requires |After(rules, st, steps).log| <= STORE_LIMIT
    ensures Work(rules, st, steps) <= Fuel(rules.cfg, st)
    decreases |steps|
  {
    hide Perform, Enabled, Inv, Conforms, TickWork, Fuel;
    if steps == [] {
      FuelNatural(rules, st);
    } else {
      var next := Perform(rules.cfg, st, steps[0]);
      RunGrows(rules, next, steps[1..]);
      StepKeepsInv(rules, st, steps[0]);
      StepSpends(rules, st, steps[0]);
      RunSpends(rules, next, steps[1..]);
    }
  }

  lemma FuelNatural(rules: Rules, st: TaskState)
    requires Inv(rules, st)
    ensures Fuel(rules.cfg, st) >= 0
  {
    LevelNatural(rules, st);
  }

  /** Whatever the interleaving, at most S + C ticks of a task do anything but wait. */
  lemma Termination(rules: Rules, info: Info, steps: seq<Step>, st: TaskState)
    requires Reaches(rules, info, steps, st)
    ensures Work(rules, Fresh(info), steps) <= rules.cfg.maxSteps + rules.cfg.maxCycles
  {
    InitialInv(rules, info);
    RunSpends(rules, Fresh(info), steps);
  }

  // ---- completion ----

  lemma FailureNeverCompletes(cfg: Config, st: TaskState, ctx: StageContext, raise: Raise, now: real)
    requires st.status != Status.Completed
    ensures HandleStageFailure(cfg, st, ctx, raise, now).status != Status.Completed
  {
    hide ListEvents, Failures, FailureRun, LatestFailure, Judge;
  }

  lemma GatesNeverComplete(cfg: Config, st: TaskState, inp: TickInput, stage: Stage, cycle: int)
    requires st.status != Status.Completed
    ensures ApprovalGate(cfg, st, inp, stage, cycle).0.status != Status.Completed
  {
    hide ListEvents, Latest, RetryEpoch, Inflight, HandleStageFailure;
    if inp.early.Some? {
      FailureNeverCompletes(cfg, st, StageContext(stage, cycle, inp.maxRetries, ListEvents(st.log, 500)), inp.early.value, inp.now);
    }
  }

  /** An active reachable task always has a next stage: the branch that completes a task whose
      three stages are all done is never taken. */
  lemma AlwaysANextStage(rules: Rules, st: TaskState, inp: TickInput)
    requires Inv(rules, st) && Active(st) && InTime(Fold(st.log), inp.now)
    requires |Bootstrap(st.(status := InProgress), inp.now).log| <= STORE_LIMIT && |st.log| <= STORE_LIMIT
    ensures var begun := Bootstrap(st.(status := InProgress), inp.now);
            NextStage(ListEvents(begun.log, 500), BootstrapCycle(st)).Some?
  {
    hide Fold, Disciplined, ListEvents, NextStage;
    var begun := Bootstrap(st.(status := InProgress), inp.now);
    BootstrapKeepsInv(rules, st, inp.now);
    WholeLog(begun.log, 500);
    NextStageRefines(begun.log, BootstrapCycle(st));
    assert Review !in DoneIn(Fold(begun.log), BootstrapCycle(st));
  }

  lemma TickCompletesParents(rules: Rules, st: TaskState, inp: TickInput)
    requires Inv(rules, st) && Enabled(st, TickStep(inp))
    requires |Tick(rules.cfg, st, inp).0.log| <= STORE_LIMIT
    requires st.status != Status.Completed
    ensures Tick(rules.cfg, st, inp).0.status == Status.Completed ==>
              ChildGateOf(ListEvents(st.log, 500), inp.children) == AllChildrenDone
  {
    hide Fold, Disciplined, ListEvents, NextStage, ChildGateOf, StepCount, ApprovalGate, Latest;
    LastAtRefines(st.log);
    TickGrows(rules.cfg, st, inp);
    if Active(st) && ChildGateOf(ListEvents(st.log, 500), inp.children).NoChildren?
       && StepCount(ListEvents(st.log, 500)) < rules.cfg.maxSteps {
      var begun := Bootstrap(st.(status := InProgress), inp.now);
      AlwaysANextStage(rules, st, inp);
      GatesNeverComplete(rules.cfg, begun, inp, NextStage(ListEvents(begun.log, 500), BootstrapCycle(st)).value, BootstrapCycle(st));
    }
  }

  lemma SettleCompletesReviews(cfg: Config, st: TaskState, index: nat, outcome: Outcome, now: real)
    requires st.status != Status.Completed && index < |st.pending|
    requires Settle(cfg, st, index, outcome, now).status == Status.Completed
    ensures var ctx := st.pending[index];
            var next := Settle(cfg, st, index, outcome, now);
            && outcome.Finished? && ctx.stage == Review && Accepted(cfg, Review, outcome.output)
            && |st.log| < |next.log| && next.log[|st.log|].body == StageCompleted(Review, ctx.cycle, true)
            && CurrentCycle(next.log) == CurrentCycle(st.log)
  {
    hide ListEvents, Latest, QualityRun, Accepted, ReviewFails, CurrentCycle, HandleStageFailure;
    var ctx := st.pending[index];
    var rest := st.(pending := st.pending[..index] + st.pending[index + 1..]);
    match outcome {
      case Raised(raise) => FailureNeverCompletes(cfg, rest, ctx, raise, now);
      case Finished(out) =>
        var body := StageCompleted(ctx.stage, ctx.cycle, Accepted(cfg, ctx.stage, out));
        AddCounts(st.log, now, body);
        AddCounts(Add(st.log, now, body), now, TaskCompleted);
    }
  }

  /** The run in flight belongs to the current cycle. */
  lemma PendingCycle(rules: Rules, st: TaskState)
    requires Inv(rules, st) && st.pending != []
    ensures |st.pending| == 1 && st.pending[0].cycle == CurrentCycle(st.log)
  {
    hide Fold, Disciplined, CurrentCycle;
    CountersRefine(st.log);
  }

  /** A task becomes completed in two ways only: all its spawned children are completed, or the
      review of its current cycle passed, after an execution and a plan of that cycle that passed. */
  lemma CompletionSafety(rules: Rules, st: TaskState, step: Step)
    requires Inv(rules, st) && Enabled(st, step) && Conforms(rules, step)
    requires |Perform(rules.cfg, st, step).log| <= STORE_LIMIT
    requires st.status != Status.Completed && Perform(rules.cfg, st, step).status == Status.Completed
    ensures || (step.TickStep? && ChildGateOf(ListEvents(st.log, 500), step.inp.children) == AllChildrenDone)
            || (step.SettleStep? && PipelinePassed(Perform(rules.cfg, st, step).log, CurrentCycle(st.log)))
  {
    hide Tick, Settle, ChildGateOf, ListEvents, CurrentCycle, PipelinePassed, Inv;
    match step {
      case TickStep(inp) => TickCompletesParents(rules, st, inp);
      case SettleStep(index, outcome, now) =>
        var next := Perform(rules.cfg, st, step);
        SettleCompletesReviews(rules.cfg, st, index, outcome, now);
        StepKeepsInv(rules, st, step);
        PendingCycle(rules, st);
        assert Disciplined(rules, next.log) by { InvDisciplined(rules, next); }
        PassedReviewCompletesPipeline(rules, next.log, |st.log|, st.pending[index].cycle);
      case ApproveStep(_, _) =>
      case OutsideStep(_, _) =>
    }
  }

  lemma InvDisciplined(rules: Rules, st: TaskState)
    requires Inv(rules, st)
    ensures Disciplined(rules, st.log)
  {
  }

  ghost predicate Earned(st: TaskState) {
    st.status == Status.Completed ==>
      Latest(st.log, KChildrenCompleted).Some? || exists cycle :: PipelinePassed(st.log, cycle)
  }

  lemma PipelineGrows(before: Log, after: Log, cycle: int)
    requires Grown(before, after) && PipelinePassed(before, cycle)
    ensures PipelinePassed(after, cycle)
  {
    var i: nat, j: nat, k: nat :| i < j < k
      && PassedAt(before, i, Plan, cycle) && PassedAt(before, j, Execute, cycle) && PassedAt(before, k, Review, cycle);
    assert after[i] == before[i] && after[j] == before[j] && after[k] == before[k];
    assert PassedAt(after, i, Plan, cycle) && PassedAt(after, j, Execute, cycle) && PassedAt(after, k, Review, cycle);
  }

  lemma {:induction false} LatestGrows(before: Log, after: Log, kind: Kind)
    requires Grown(before, after) && Latest(before, kind).Some?
    ensures Latest(after, kind).Some?
    decreases |after|
  {
    if |before| < |after| {
      assert Init(after)[..|before|] == before;
      LatestGrows(before, Init(after), kind);
    } else {
      assert after == before;
    }
  }

  lemma ParentsRecordTheirChildren(cfg: Config, st: TaskState, inp: TickInput)
    requires Active(st) && ChildGateOf(ListEvents(st.log, 500), inp.children) == AllChildrenDone
    requires |st.log| <= STORE_LIMIT
    ensures Latest(Tick(cfg, st, inp).0.log, KChildrenCompleted).Some?
  {
    hide ChildGateOf, ListEvents;
    WholeLog(st.log, 500);
    var recorded := RecordChildren(st, inp.now);
    assert Init(Add(st.log, inp.now, Body.ChildrenCompleted)) == st.log;
    assert Init(Add(recorded.log, inp.now, TaskCompleted)) == recorded.log;
  }

  lemma StepKeepsEarned(rules: Rules, st: TaskState, step: Step)
    requires Inv(rules, st) && Enabled(st, step) && Conforms(rules, step) && Earned(st)
    requires |Perform(rules.cfg, st, step).log| <= STORE_LIMIT
    ensures Earned(Perform(rules.cfg, st, step))
  {
    hide Inv, Perform, Latest, PipelinePassed, Conforms;
    var next := Perform(rules.cfg, st, step);
    StepGrows(rules.cfg, st, step);
    if next.status == Status.Completed {
      if st.status == Status.Completed {
        if Latest(st.log, KChildrenCompleted).Some? {
          LatestGrows(st.log, next.log, KChildrenCompleted);
        } else {
          var cycle :| PipelinePassed(st.log, cycle);
          PipelineGrows(st.log, next.log, cycle);
        }
      } else {
        CompletionSafety(rules, st, step);
        if step.TickStep? {
          TickCompletion(rules.cfg, st, step);
        }
      }
    }
  }

  lemma TickCompletion(cfg: Config, st: TaskState, step: Step)
    requires Enabled(st, step) && step.TickStep? && |st.log| <= STORE_LIMIT
    requires st.status != Status.Completed && Perform(cfg, st, step).status == Status.Completed
    requires ChildGateOf(ListEvents(st.log, 500), step.inp.children) == AllChildrenDone
    ensures Latest(Perform(cfg, st, step).log, KChildrenCompleted).Some?
  {
    hide ChildGateOf, ListEvents;
    ParentsRecordTheirChildren(cfg, st, step.inp);
  }

  lemma {:induction false} RunKeepsEarned(rules: Rules, st: TaskState, steps: seq<Step>)
    requires Inv(rules, st) && Feasible(rules, st, steps) && Earned(st)
    requires |After(rules, st, steps).log| <= STORE_LIMIT
    ensures Earned(After(rules, st, steps))
    decreases |steps|
  {
    hide Perform, Enabled, Inv, Conforms, Earned;
    if steps == [] {
    } else {
      var next := Perform(rules.cfg, st, steps[0]);
      RunGrows(rules, next, steps[1..]);
      StepKeepsInv(rules, st, steps[0]);
      StepKeepsEarned(rules, st, steps[0]);
      RunKeepsEarned(rules, next, steps[1..]);
    }
  }

  /** In every run, a completed task has earned it. */
  lemma CompletedTasksEarnedIt(rules: Rules, info: Info, steps: seq<Step>, st: TaskState)
    requires Reaches(rules, info, steps, st) && st.status == Status.Completed
    ensures Latest(st.log, KChildrenCompleted).Some? || exists cycle :: PipelinePassed(st.log, cycle)
  {
    InitialInv(rules, info);
    RunKeepsEarned(rules, Fresh(info), steps);
  }

  // ---- blocked tasks ----

  /** Exactly one kind of step takes a task out of `blocked`: the settling of a review run that was
      already in flight and whose output is accepted. */
  lemma BlockedIsAbsorbingExcept(cfg: Config, st: TaskState, step: Step)
    requires Enabled(st, step) && st.status == Blocked
    ensures Perform(cfg, st, step).status == Blocked
            <==> !(&& step.SettleStep? && step.outcome.Finished?
                   && st.pending[step.index].stage == Review && Accepted(cfg, Review, step.outcome.output))
    ensures Perform(cfg, st, step).status != Blocked ==> Perform(cfg, st, step).status == Status.Completed
  {
    hide ListEvents, Latest, QualityRun, Passes, HandleStageFailure;
    if step.SettleStep? {
      var ctx := st.pending[step.index];
      var rest := st.(pending := st.pending[..step.index] + st.pending[step.index + 1..]);
      match step.outcome {
        case Raised(raise) =>
          FailureKeepsBlocked(cfg, rest, ctx, raise, step.now);
        case Finished(out) =>
          if Accepted(cfg, Review, out) {
            PassedReviewKeepsKeyword(DemandsOf(cfg, out), out.text, out.localEcho);
          }
      }
    }
  }

  lemma FailureKeepsBlocked(cfg: Config, st: TaskState, ctx: StageContext, raise: Raise, now: real)
    requires st.status == Blocked
    ensures HandleStageFailure(cfg, st, ctx, raise, now).status == Blocked
  {
    hide ListEvents, Failures, FailureRun, LatestFailure, Judge;
  }

  /** So a rejection that arrives while an accepted review is in flight is overridden. */
  lemma RejectionCanBeOverridden(cfg: Config, st: TaskState, out: Output, rejectedAt: real, settledAt: real)
    requires st.pending != [] && st.pending[0].stage == Review
    requires Realistic(out.text) && Accepted(cfg, Review, out) && rejectedAt < settledAt
    ensures SetApproval(st, false, rejectedAt).status == Blocked
    ensures Settle(cfg, SetApproval(st, false, rejectedAt), 0, Finished(out), settledAt).status == Status.Completed
  {
    BlockedIsAbsorbingExcept(cfg, SetApproval(st, false, rejectedAt), SettleStep(0, Finished(out), settledAt));
  }

  // ---- runs in flight ----

  /** At most one stage run is in flight, and for an active task the log scan sees exactly that one. */
  lemma InFlightIsExact(rules: Rules, info: Info, steps: seq<Step>, st: TaskState, stage: Stage)
    requires Reaches(rules, info, steps, st)
    ensures |st.pending| <= 1
    ensures Active(st) ==>
              (Inflight(st.log, stage, CurrentCycle(st.log))
               <==> st.pending != [] && st.pending[0].stage == stage && st.pending[0].cycle == CurrentCycle(st.log))
  {
    hide Fold, Disciplined, Feasible, After;
    ReachedInv(rules, info, steps, st);
    CountersRefine(st.log);
    MarksRefine(st.log, stage, CurrentCycle(st.log));
  }
}
