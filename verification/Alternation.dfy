/** Starts and terminal events of a stage: when they alternate over a whole run, and when they do not. */
module Alternation {
  import opened EventLog
  import opened TaskGate
  import opened ControlState
  import opened Engine
  import opened Discipline
  import opened TickInvariant
  import opened Runs
  import opened LogTheorems
  import opened QualityGate
  import opened FailureHandler
  import opened Window

  /** The event, after `log`, starts a stage that is not open or ends one that is. */
  predicate InOrder(log: Log, body: Body) {
    && (body.StageStarted? ==> !LastMarkIsStart(log, body.stage, Effective(body.cycle)))
    && (body.StageCompleted? || body.StageFailed? ==> LastMarkIsStart(log, body.stage, Effective(body.cycle)))
  }

  /** The starts and the terminal events of every stage and cycle alternate, a start first. */
  predicate Alternates(log: Log) {
    log == [] || (Alternates(Init(log)) && InOrder(Init(log), Last(log).body))
  }

  lemma AddAlternates(log: Log, at: real, body: Body)
    ensures Alternates(Add(log, at, body)) <==> Alternates(log) && InOrder(log, body)
  {
    assert Init(Add(log, at, body)) == log;
  }

  lemma AddMarksNothing(log: Log, at: real, body: Body)
    requires !body.StageStarted? && !body.StageCompleted? && !body.StageFailed?
    ensures Alternates(Add(log, at, body)) <==> Alternates(log)
  {
    hide LastMarkIsStart, Alternates;
    AddAlternates(log, at, body);
  }

  // ---- one step ----

  lemma AfterFailureMarksNothing(cfg: Config, st: TaskState, ctx: StageContext, attempt: nat, verdict: Verdict, now: real)
    requires attempt >= 1
    ensures Alternates(AfterFailure(cfg, st, ctx, attempt, verdict, now).log) <==> Alternates(st.log)
    ensures AfterFailure(cfg, st, ctx, attempt, verdict, now).log != []
    ensures !Last(AfterFailure(cfg, st, ctx, attempt, verdict, now).log).body.LowInfoStopped?
  {
    hide Alternates, Delay;
    AddMarksNothing(st.log, now, RetryScheduled(ctx.stage, ctx.cycle, attempt, now + Delay(cfg, attempt)));
    AddMarksNothing(st.log, now, CycleStarted(ctx.cycle + 1));
    AddMarksNothing(st.log, now, TaskFailed);
  }

  /** A failure keeps the order exactly when it is stopped unrecorded or ends a start. */
  lemma FailureMarks(cfg: Config, st: TaskState, ctx: StageContext, raise: Raise, now: real)
    requires ctx.cycle >= 1
    ensures var next := HandleStageFailure(cfg, st, ctx, raise, now);
            && next.log != []
            && (Alternates(next.log) <==>
                  Alternates(st.log) && (Last(next.log).body.LowInfoStopped? || LastMarkIsStart(st.log, ctx.stage, ctx.cycle)))
  {
    hide Alternates, LastMarkIsStart, ListEvents, Failures, FailureRun, LatestFailure, Judge, AfterFailure;
    var attempt := Failures(ctx.events, ctx.stage, ctx.cycle) + 1;
    var verdict := Classify(ListEvents(st.log, 300), ctx.cycle, raise.reason, cfg.taxonomyV2);
    var body := StageFailed(ctx.stage, ctx.cycle, attempt, raise.signature);
    AddMarksNothing(st.log, now, LowInfoStopped(ctx.stage, ctx.cycle));
    AddAlternates(st.log, now, body);
    AfterFailureMarksNothing(cfg, Append(st, now, body), ctx, attempt, verdict, now);
  }

  lemma FinalizeMarksNothing(st: TaskState, at: real)
    ensures Alternates(Finalize(st, at).log) <==> Alternates(st.log)
  {
    hide Alternates, ListEvents, Latest;
    AddMarksNothing(st.log, at, TaskCompleted);
  }

  lemma OutputMarks(cfg: Config, st: TaskState, ctx: StageContext, out: Output, now: real)
    requires ctx.cycle >= 1
    ensures Alternates(HandleOutput(cfg, st, ctx, out, now).log) <==>
              Alternates(st.log) && LastMarkIsStart(st.log, ctx.stage, ctx.cycle)
  {
    hide Alternates, LastMarkIsStart, ListEvents, Latest, QualityRun, Accepted, ReviewFails, Finalize;
    var body := StageCompleted(ctx.stage, ctx.cycle, Accepted(cfg, ctx.stage, out));
    var done := Add(st.log, now, body);
    var failed := QualityFailed(ctx.stage, ctx.cycle, out.signature);
    AddAlternates(st.log, now, body);
    AddMarksNothing(done, now, LowInfoStopped(ctx.stage, ctx.cycle));
    AddMarksNothing(done, now, TaskFailed);
    AddMarksNothing(done, now, failed);
    AddMarksNothing(Add(done, now, failed), now, CycleStarted(ctx.cycle + 1));
    AddMarksNothing(done, now, ReviewFailed(ctx.cycle));
    AddMarksNothing(Add(done, now, ReviewFailed(ctx.cycle)), now, CycleStarted(ctx.cycle + 1));
    AddMarksNothing(done, now, PlanCreated(ctx.cycle, out.concrete));
    AddMarksNothing(done, now, SubtasksSpawned(out.spawned));
    AddMarksNothing(Add(done, now, PlanCreated(ctx.cycle, out.concrete)), now, SubtasksSpawned(out.spawned));
    AddMarksNothing(done, now, RecommendedImprovement);
    FinalizeMarksNothing(Append(st, now, body), now);
  }

  /** The tick raised before its stage started, and the failure was recorded. */
  predicate RaisesEarly(cfg: Config, st: TaskState, step: Step)
    requires Enabled(st, step)
  {
    && step.TickStep? && Tick(cfg, st, step.inp).1 == StageRaised
    && Tick(cfg, st, step.inp).0.log != [] && !Last(Tick(cfg, st, step.inp).0.log).body.LowInfoStopped?
  }

  lemma BeginMarks(cfg: Config, st: TaskState, inp: TickInput, stage: Stage, cycle: int)
    requires cycle >= 1
    requires Inflight(ListEvents(st.log, 500), stage, cycle) || !LastMarkIsStart(st.log, stage, cycle)
    ensures var r := BeginStage(cfg, st, inp, stage, cycle);
            Alternates(r.0.log) <==>
              Alternates(st.log) && (r.1 == StageRaised ==> r.0.log != [] && Last(r.0.log).body.LowInfoStopped?)
  {
    hide Alternates, LastMarkIsStart, ListEvents, Inflight, HandleStageFailure;
    AddAlternates(st.log, inp.now, StageStarted(stage, cycle));
    if inp.early.Some? {
      FailureMarks(cfg, st, StageContext(stage, cycle, inp.maxRetries, ListEvents(st.log, 500)), inp.early.value, inp.now);
    }
  }

  lemma GatesMark(cfg: Config, st: TaskState, inp: TickInput, stage: Stage, cycle: int)
    requires cycle >= 1
    requires Inflight(ListEvents(st.log, 500), stage, cycle) || !LastMarkIsStart(st.log, stage, cycle)
    ensures var r := ApprovalGate(cfg, st, inp, stage, cycle);
            Alternates(r.0.log) <==>
              Alternates(st.log) && (r.1 == StageRaised ==> r.0.log != [] && Last(r.0.log).body.LowInfoStopped?)
  {
    hide Alternates, LastMarkIsStart, ListEvents, Latest, RetryEpoch, Inflight, BeginStage, ConcretePlan;
    AddMarksNothing(st.log, inp.now, ApprovalRequested);
    AddMarksNothing(st.log, inp.now, TaskFailed);
    AddMarksNothing(st.log, inp.now, PlanBlocked(cycle));
    AddMarksNothing(st.log, inp.now, PlanMissing(cycle));
    AddMarksNothing(Add(st.log, inp.now, PlanMissing(cycle)), inp.now, CycleStarted(cycle + 1));
    BeginMarks(cfg, st, inp, stage, cycle);
  }

  lemma BootstrapMarksNothing(st: TaskState, at: real)
    ensures Alternates(Bootstrap(st, at).log) <==> Alternates(st.log)
  {
    hide Alternates, ListEvents, Latest;
    AddMarksNothing(st.log, at, Started);
    AddMarksNothing(Add(st.log, at, Started), at, CycleStarted(1));
  }

  /** With a whole log in view, the in-flight scan misses no open stage. */
  lemma ScanSeesOpenStages(rules: Rules, log: Log, stage: Stage, cycle: int)
    requires Disciplined(rules, log) && |log| <= STORE_LIMIT
    ensures Inflight(ListEvents(log, 500), stage, cycle) == LastMarkIsStart(log, stage, cycle)
  {
    hide Disciplined, Fold, Inflight, LastMarkIsStart;
    WholeLog(log, 500);
    MarksRefine(log, stage, cycle);
    RunningIffLastMarkIsStart(rules, log, stage, cycle);
  }

  lemma TickMarks(rules: Rules, st: TaskState, inp: TickInput)
    requires Inv(rules, st) && Enabled(st, TickStep(inp)) && |Tick(rules.cfg, st, inp).0.log| <= STORE_LIMIT
    ensures Alternates(Tick(rules.cfg, st, inp).0.log) <==>
              Alternates(st.log) && !RaisesEarly(rules.cfg, st, TickStep(inp))
  {
    hide Alternates, LastMarkIsStart, Inflight, ListEvents, Latest, StepCount, NextStage, ApprovalGate, ChildGateOf,
      Disciplined, Fold, Finalize, Bootstrap, CurrentCycle;
    if Active(st) {
      LastAtRefines(st.log);
      TickGrows(rules.cfg, st, inp);
      AddMarksNothing(st.log, inp.now, TaskFailed);
      AddMarksNothing(st.log, inp.now, Body.ChildrenCompleted);
      FinalizeMarksNothing(RecordChildren(st, inp.now), inp.now);
      var begun := Bootstrap(st.(status := InProgress), inp.now);
      BootstrapMarksNothing(st.(status := InProgress), inp.now);
      FinalizeMarksNothing(begun, inp.now);
      if ChildGateOf(ListEvents(st.log, 500), inp.children) == NoChildren && StepCount(ListEvents(st.log, 500)) < rules.cfg.maxSteps {
        StagesMark(rules, st, inp);
      }
    }
  }

  lemma StagesMark(rules: Rules, st: TaskState, inp: TickInput)
    requires Inv(rules, st) && Active(st) && InTime(Fold(st.log), inp.now)
    requires |st.log| <= STORE_LIMIT && |Bootstrap(st.(status := InProgress), inp.now).log| <= STORE_LIMIT
    ensures var begun := Bootstrap(st.(status := InProgress), inp.now);
            var cycle := BootstrapCycle(st);
            match NextStage(ListEvents(begun.log, 500), cycle)
            case None => true
            case Some(stage) =>
              var r := ApprovalGate(rules.cfg, begun, inp, stage, cycle);
              Alternates(r.0.log) <==>
                Alternates(st.log) && (r.1 == StageRaised ==> r.0.log != [] && Last(r.0.log).body.LowInfoStopped?)
  {
    hide Alternates, LastMarkIsStart, Inflight, ListEvents, NextStage, ApprovalGate, Disciplined, Fold, Bootstrap;
    var begun := Bootstrap(st.(status := InProgress), inp.now);
    var cycle := BootstrapCycle(st);
    BootstrapKeepsInv(rules, st, inp.now);
    BootstrapMarksNothing(st.(status := InProgress), inp.now);
    match NextStage(ListEvents(begun.log, 500), cycle) {
      case None =>
      case Some(stage) =>
        ScanSeesOpenStages(rules, begun.log, stage, cycle);
        GatesMark(rules.cfg, begun, inp, stage, cycle);
    }
  }

  /** The stage of a run in flight is open. */
  lemma PendingIsOpen(rules: Rules, st: TaskState)
    requires Inv(rules, st) && st.pending != []
    ensures |st.pending| == 1 && st.pending[0].cycle >= 1
    ensures LastMarkIsStart(st.log, st.pending[0].stage, st.pending[0].cycle)
  {
    hide Disciplined, Fold, LastMarkIsStart;
    RunningIffLastMarkIsStart(rules, st.log, st.pending[0].stage, st.pending[0].cycle);
  }

  lemma SettleMarks(rules: Rules, st: TaskState, index: nat, outcome: Outcome, now: real)
    requires Inv(rules, st) && index < |st.pending|
    ensures Alternates(Settle(rules.cfg, st, index, outcome, now).log) <==> Alternates(st.log)
  {
    hide Alternates, LastMarkIsStart, HandleStageFailure, HandleOutput, Inv;
    PendingIsOpen(rules, st);
    var ctx := st.pending[index];
    var rest := st.(pending := st.pending[..index] + st.pending[index + 1..]);
    match outcome {
      case Raised(raise) => FailureMarks(rules.cfg, rest, ctx, raise, now);
      case Finished(out) => OutputMarks(rules.cfg, rest, ctx, out, now);
    }
  }

  /** A step keeps the alternation exactly when it is not a tick that raised before its stage started. */
  lemma StepMarks(rules: Rules, st: TaskState, step: Step)
    requires Inv(rules, st) && Enabled(st, step) && |Perform(rules.cfg, st, step).log| <= STORE_LIMIT
    ensures Alternates(Perform(rules.cfg, st, step).log) <==> Alternates(st.log) && !RaisesEarly(rules.cfg, st, step)
  {
    hide Alternates, Tick, Settle, Inv;
    match step {
      case TickStep(inp) => TickMarks(rules, st, inp);
      case SettleStep(index, outcome, now) => SettleMarks(rules, st, index, outcome, now);
      case ApproveStep(approved, now) =>
        AddMarksNothing(st.log, now, Approval(approved));
        AddMarksNothing(Add(st.log, now, Approval(approved)), now, TaskFailed);
      case OutsideStep(body, now) => AddMarksNothing(st.log, now, body);
    }
  }

  // ---- runs ----

  /** Some tick of the run raised before its stage started. */
  ghost predicate SomeRaiseEarly(rules: Rules, st: TaskState, steps: seq<Step>)
    requires Feasible(rules, st, steps)
    decreases |steps|
  {
    steps != [] &&
    (RaisesEarly(rules.cfg, st, steps[0]) || SomeRaiseEarly(rules, Perform(rules.cfg, st, steps[0]), steps[1..]))
  }

  lemma {:induction false} RunMarks(rules: Rules, st: TaskState, steps: seq<Step>)
    requires Inv(rules, st) && Feasible(rules, st, steps) && |After(rules, st, steps).log| <= STORE_LIMIT
    ensures Alternates(After(rules, st, steps).log) <==> Alternates(st.log) && !SomeRaiseEarly(rules, st, steps)
    decreases |steps|
  {
    hide Perform, Enabled, Inv, Conforms, Alternates, RaisesEarly;
    if steps == [] {
    } else {
      var next := Perform(rules.cfg, st, steps[0]);
      RunGrows(rules, next, steps[1..]);
      StepKeepsInv(rules, st, steps[0]);
      StepMarks(rules, st, steps[0]);
      RunMarks(rules, next, steps[1..]);
    }
  }

  /** Over every run, the starts and terminal events of every stage and cycle alternate if and only if no
      tick recorded a failure that was raised before its stage started. */
  lemma RunsAlternate(rules: Rules, info: Info, steps: seq<Step>, st: TaskState)
    requires Reaches(rules, info, steps, st)
    ensures Alternates(st.log) <==> !SomeRaiseEarly(rules, Fresh(info), steps)
  {
    hide Feasible, After, SomeRaiseEarly;
    InitialInv(rules, info);
    RunMarks(rules, Fresh(info), steps);
  }

  predicate NothingRaisesEarly(steps: seq<Step>) {
    forall i :: 0 <= i < |steps| && steps[i].TickStep? ==> steps[i].inp.early.None?
  }

  lemma RaisedNeedsException(cfg: Config, st: TaskState, inp: TickInput)
    requires Tick(cfg, st, inp).1 == StageRaised
    ensures inp.early.Some?
  {
    hide ListEvents, Latest, NextStage, StepCount, ChildGateOf, RetryEpoch, Inflight, HandleStageFailure, CurrentCycle,
      ConcretePlan;
  }

  lemma {:induction false} QuietRunsNeverRaiseEarly(rules: Rules, st: TaskState, steps: seq<Step>)
    requires Feasible(rules, st, steps) && NothingRaisesEarly(steps)
    ensures !SomeRaiseEarly(rules, st, steps)
    decreases |steps|
  {
    hide Perform, Enabled, Conforms, Tick;
    if steps == [] {
    } else {
      if RaisesEarly(rules.cfg, st, steps[0]) {
        RaisedNeedsException(rules.cfg, st, steps[0].inp);
      }
      assert forall i :: 0 <= i < |steps| - 1 ==> steps[1..][i] == steps[i + 1];
      QuietRunsNeverRaiseEarly(rules, Perform(rules.cfg, st, steps[0]), steps[1..]);
    }
  }

  /** So they alternate in every run whose ticks meet no exception before the stage start. */
  lemma QuietRunsAlternate(rules: Rules, info: Info, steps: seq<Step>, st: TaskState)
    requires Reaches(rules, info, steps, st) && NothingRaisesEarly(steps)
    ensures Alternates(st.log)
  {
    hide Feasible, After, SomeRaiseEarly, Alternates;
    RunsAlternate(rules, info, steps, st);
    QuietRunsNeverRaiseEarly(rules, Fresh(info), steps);
  }

  // ---- which failures follow a start ----

  predicate NoFailureAfter(before: Log, after: Log) {
    forall k :: |before| <= k < |after| ==> !after[k].body.StageFailed?
  }

  predicate FirstMayFail(before: Log, after: Log, stage: Stage, cycle: int) {
    && Grown(before, after)
    && forall k :: |before| <= k < |after| && after[k].body.StageFailed? ==>
         k == |before| && after[k].body.stage == stage && after[k].body.cycle == cycle
  }

  lemma FailureIsFirst(cfg: Config, st: TaskState, ctx: StageContext, raise: Raise, now: real)
    ensures FirstMayFail(st.log, HandleStageFailure(cfg, st, ctx, raise, now).log, ctx.stage, ctx.cycle)
  {
    hide ListEvents, Failures, FailureRun, LatestFailure, Judge, Delay;
  }

  lemma OutputNeverFails(cfg: Config, st: TaskState, ctx: StageContext, out: Output, now: real)
    ensures NoFailureAfter(st.log, HandleOutput(cfg, st, ctx, out, now).log)
  {
    hide ListEvents, Latest, QualityRun, Accepted, ReviewFails;
  }

  lemma GatesFailFirst(cfg: Config, st: TaskState, inp: TickInput, stage: Stage, cycle: int)
    requires Inflight(ListEvents(st.log, 500), stage, cycle) || !LastMarkIsStart(st.log, stage, cycle)
    ensures var after := ApprovalGate(cfg, st, inp, stage, cycle).0.log;
            && FirstMayFail(st.log, after, stage, cycle)
            && (!NoFailureAfter(st.log, after) ==> !LastMarkIsStart(st.log, stage, cycle))
  {
    hide ListEvents, Latest, RetryEpoch, Inflight, HandleStageFailure, ConcretePlan, LastMarkIsStart;
    if inp.early.Some? {
      FailureIsFirst(cfg, st, StageContext(stage, cycle, inp.maxRetries, ListEvents(st.log, 500)), inp.early.value, inp.now);
    }
  }

  /** The log right before a failure that a tick records. */
  lemma TickFailsUnstarted(rules: Rules, st: TaskState, inp: TickInput, k: nat)
    requires Inv(rules, st) && Enabled(st, TickStep(inp)) && |Tick(rules.cfg, st, inp).0.log| <= STORE_LIMIT
    requires var after := Tick(rules.cfg, st, inp).0.log; |st.log| <= k < |after| && after[k].body.StageFailed?
    ensures var after := Tick(rules.cfg, st, inp).0.log;
            !LastMarkIsStart(after[..k], after[k].body.stage, after[k].body.cycle)
  {
    hide LastMarkIsStart, Inflight, ListEvents, Latest, StepCount, NextStage, ApprovalGate, ChildGateOf, Disciplined, Fold,
      CurrentCycle;
    LastAtRefines(st.log);
    TickGrows(rules.cfg, st, inp);
    var begun := Bootstrap(st.(status := InProgress), inp.now);
    var cycle := BootstrapCycle(st);
    BootstrapKeepsInv(rules, st, inp.now);
    match NextStage(ListEvents(begun.log, 500), cycle) {
      case None =>
      case Some(stage) =>
        ScanSeesOpenStages(rules, begun.log, stage, cycle);
        GatesFailFirst(rules.cfg, begun, inp, stage, cycle);
    }
  }

  /** A recorded failure follows a start of its own if and only if a settlement recorded it: a tick that
      raises before the start records a failure of a stage that is not open. */
  lemma FailureEndsStartIffSettled(rules: Rules, st: TaskState, step: Step, k: nat)
    requires Inv(rules, st) && Enabled(st, step) && |Perform(rules.cfg, st, step).log| <= STORE_LIMIT
    requires var after := Perform(rules.cfg, st, step).log; |st.log| <= k < |after| && after[k].body.StageFailed?
    ensures var after := Perform(rules.cfg, st, step).log;
            LastMarkIsStart(after[..k], after[k].body.stage, after[k].body.cycle) <==> step.SettleStep?
  {
    hide LastMarkIsStart, Tick, HandleStageFailure, HandleOutput, Inv;
    match step {
      case TickStep(inp) => TickFailsUnstarted(rules, st, inp, k);
      case SettleStep(index, outcome, now) =>
        PendingIsOpen(rules, st);
        var ctx := st.pending[index];
        var rest := st.(pending := st.pending[..index] + st.pending[index + 1..]);
        match outcome {
          case Raised(raise) =>
            FailureIsFirst(rules.cfg, rest, ctx, raise, now);
            assert Perform(rules.cfg, st, step).log[..k] == st.log;
          case Finished(out) => OutputNeverFails(rules.cfg, rest, ctx, out, now);
        }
      case _ =>
    }
  }

  // ---- a run that does not alternate ----

  function FirstContext(): StageContext {
    StageContext(Plan, 1, 0, FirstLog())
  }

  lemma FirstGatesRaise(cfg: Config, st: TaskState, inp: TickInput)
    requires st.log == FirstLog() && inp.early.Some? && inp.maxRetries == 0
    ensures ApprovalGate(cfg, st, inp, Plan, 1)
            == (HandleStageFailure(cfg, st, FirstContext(), inp.early.value, inp.now), StageRaised)
  {
    BootstrapTellsNothing([], 0.0);
    WholeLog(FirstLog(), 500);
    hide FirstLog, ListEvents, RetryEpoch, StartedAt, EndedAt, HandleStageFailure;
  }

  lemma FirstTickRaises(cfg: Config, info: Info, raise: Raise)
    requires ValidConfig(cfg)
    ensures Tick(cfg, Fresh(info), QuietTick(0.0).(early := Some(raise)))
            == (HandleStageFailure(cfg, Fresh(info).(status := InProgress, log := FirstLog()), FirstContext(), raise, 0.0), StageRaised)
  {
    hide Tick, ApprovalGate, HandleStageFailure, FirstLog;
    var inp := QuietTick(0.0).(early := Some(raise));
    FirstTickReachesGates(cfg, info, inp);
    FirstGatesRaise(cfg, Fresh(info).(status := InProgress, log := FirstLog()), inp);
  }

  lemma FirstFailureIsRecorded(cfg: Config, st: TaskState, raise: Raise)
    requires ValidConfig(cfg) && st.log == FirstLog()
    ensures var after := HandleStageFailure(cfg, st, FirstContext(), raise, 0.0).log;
            && |after| == 4 && after[2] == Event(0.0, StageFailed(Plan, 1, 1, raise.signature))
            && !after[3].body.LowInfoStopped?
  {
    hide Failures, FailureRun, LatestFailure, Judge, Delay, ListEvents;
    WholeLog(FirstLog(), 200);
    FirstTickHasNoFailures(raise.signature);
  }

  lemma FirstTickFails(cfg: Config, info: Info, raise: Raise)
    requires ValidConfig(cfg)
    ensures var r := Tick(cfg, Fresh(info), QuietTick(0.0).(early := Some(raise)));
            && r.1 == StageRaised && |r.0.log| == 4
            && r.0.log[2] == Event(0.0, StageFailed(Plan, 1, 1, raise.signature))
            && !r.0.log[3].body.LowInfoStopped?
  {
    hide Tick, HandleStageFailure;
    FirstTickRaises(cfg, info, raise);
    FirstFailureIsRecorded(cfg, Fresh(info).(status := InProgress, log := FirstLog()), raise);
  }

  lemma FirstTickHasNoFailures(signature: string)
    ensures Failures(FirstLog(), Plan, 1) == 0 && FailureRun(FirstLog(), Plan, signature) == 0
  {
    var one := Add([], 0.0, Started);
    var log := FirstLog();
    assert Init(log) == one && Init(one) == [];
    assert Failures(one, Plan, 1) == 0 && FailureRun(one, Plan, signature) == 0;
  }

  /** Under every configuration, a first tick that raises before the start records a failure without a start. */
  lemma EarlyFailureHasNoStart(rules: Rules, info: Info, raise: Raise) returns (steps: seq<Step>, st: TaskState)
    requires ValidConfig(rules.cfg)
    ensures Reaches(rules, info, steps, st)
    ensures |st.log| == 4
    ensures st.log[2].body == StageFailed(Plan, 1, 1, raise.signature) && !LastMarkIsStart(st.log[..2], Plan, 1)
    ensures !Alternates(st.log)
  {
    hide Tick, LastMarkIsStart, Alternates, Disciplined, Fold;
    var inp := QuietTick(0.0).(early := Some(raise));
    var start := Fresh(info);
    steps := [TickStep(inp)];
    st := Tick(rules.cfg, start, inp).0;
    FirstTickFails(rules.cfg, info, raise);
    InitialInv(rules, info);
    TickFailsUnstarted(rules, start, inp, 2);
    StepMarks(rules, start, steps[0]);
    assert RaisesEarly(rules.cfg, start, steps[0]);
    assert steps[1..] == [];
    assert Perform(rules.cfg, start, steps[0]) == st;
    assert Conforms(rules, steps[0]) && Enabled(start, steps[0]);
    assert Feasible(rules, st, steps[1..]) && After(rules, st, steps[1..]) == st;
    assert Last(st.log) == st.log[3];
  }
}
