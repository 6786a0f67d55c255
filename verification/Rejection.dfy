/** What a rejection by the operator does in the long run, and what it does not. */
module Rejection {
  import opened EventLog
  import opened TaskGate
  import opened QualityGate
  import opened FailureHandler
  import opened Engine
  import opened Discipline
  import opened Runs
  import opened Outcomes
  import opened Window

  // ---- blocked for good ----

  predicate NoReviewInFlight(st: TaskState) {
    forall i :: 0 <= i < |st.pending| ==> st.pending[i].stage != Review
  }

  lemma OutputKeepsPending(cfg: Config, st: TaskState, ctx: StageContext, out: Output, now: real)
    ensures HandleOutput(cfg, st, ctx, out, now).pending == st.pending
  {
    hide ListEvents, Latest, QualityRun, Accepted, ReviewFails;
  }

  lemma FailureKeepsPending(cfg: Config, st: TaskState, ctx: StageContext, raise: Raise, now: real)
    ensures HandleStageFailure(cfg, st, ctx, raise, now).pending == st.pending
  {
    hide ListEvents, Failures, FailureRun, LatestFailure, Judge, Delay;
  }

  /** A step of a task that is no longer active puts nothing in flight. */
  lemma InactiveStartsNothing(cfg: Config, st: TaskState, step: Step)
    requires Enabled(st, step) && !Active(st)
    ensures Perform(cfg, st, step).pending
            == if step.SettleStep? then st.pending[..step.index] + st.pending[step.index + 1..] else st.pending
  {
    hide HandleOutput, HandleStageFailure;
    if step.SettleStep? {
      var rest := st.(pending := st.pending[..step.index] + st.pending[step.index + 1..]);
      match step.outcome {
        case Raised(raise) => FailureKeepsPending(cfg, rest, st.pending[step.index], raise, step.now);
        case Finished(out) => OutputKeepsPending(cfg, rest, st.pending[step.index], out, step.now);
      }
    }
  }

  lemma {:induction false} StaysBlocked(rules: Rules, st: TaskState, steps: seq<Step>)
    requires Feasible(rules, st, steps) && st.status == Blocked && NoReviewInFlight(st)
    ensures After(rules, st, steps).status == Blocked
    decreases |steps|
  {
    hide Perform, Enabled, Conforms;
    if steps == [] {
    } else {
      var next := Perform(rules.cfg, st, steps[0]);
      BlockedStep(rules.cfg, st, steps[0]);
      StaysBlocked(rules, next, steps[1..]);
    }
  }

  lemma BlockedStep(cfg: Config, st: TaskState, step: Step)
    requires Enabled(st, step) && st.status == Blocked && NoReviewInFlight(st)
    ensures Perform(cfg, st, step).status == Blocked && NoReviewInFlight(Perform(cfg, st, step))
  {
    hide Perform;
    BlockedIsAbsorbingExcept(cfg, st, step);
    InactiveStartsNothing(cfg, st, step);
  }

  /** An output that passes every gate under every configuration. */
  function GoodOutput(cfg: Config): Output {
    Output(Text(cfg.minPlan + cfg.minExecute + cfg.minReview, true, true, 0, true, true, true, true, true, true, 0),
           false, false, false, "", true, false, [])
  }

  lemma GoodOutputPasses(cfg: Config, stage: Stage)
    ensures Realistic(GoodOutput(cfg).text) && Accepted(cfg, stage, GoodOutput(cfg))
    ensures !ReviewFails(DemandsOf(cfg, GoodOutput(cfg)), GoodOutput(cfg).text, false)
  {
    var d := DemandsOf(cfg, GoodOutput(cfg));
    assert OwnPenalty(d, stage, GoodOutput(cfg).text) == 0;
  }

  lemma ReviewEscapes(rules: Rules, st: TaskState, i: nat, now: real) returns (steps: seq<Step>)
    requires st.status == Blocked && i < |st.pending| && st.pending[i].stage == Review
    requires st.log != [] ==> Last(st.log).at < now
    ensures Feasible(rules, st, steps) && After(rules, st, steps).status != Blocked
  {
    hide Perform, Accepted;
    var out := GoodOutput(rules.cfg);
    GoodOutputPasses(rules.cfg, Review);
    var step := SettleStep(i, Finished(out), now);
    steps := [step];
    BlockedIsAbsorbingExcept(rules.cfg, st, step);
    var next := Perform(rules.cfg, st, step);
    assert steps[1..] == [];
    assert Feasible(rules, next, steps[1..]) && After(rules, next, steps[1..]) == next;
  }

  /** A rejection blocks the task for good, whatever happens afterwards, if and only if no review run is in
      flight when it arrives. */
  lemma RejectionIsFinalIff(rules: Rules, st: TaskState, now: real)
    ensures var rejected := SetApproval(st, false, now);
            (forall steps | Feasible(rules, rejected, steps) :: After(rules, rejected, steps).status == Blocked)
            <==> NoReviewInFlight(st)
  {
    hide Feasible, After;
    var rejected := SetApproval(st, false, now);
    assert rejected.status == Blocked && rejected.pending == st.pending;
    if NoReviewInFlight(st) {
      forall steps | Feasible(rules, rejected, steps) ensures After(rules, rejected, steps).status == Blocked {
        StaysBlocked(rules, rejected, steps);
      }
    } else {
      var i :| 0 <= i < |st.pending| && st.pending[i].stage == Review;
      var steps := ReviewEscapes(rules, rejected, i, Last(rejected.log).at + 1.0);
      assert Feasible(rules, rejected, steps) && After(rules, rejected, steps).status != Blocked;
    }
  }

  // ---- completed for good ----

  predicate Rejects(step: Step) {
    step.ApproveStep? && !step.approved
  }

  /** With nothing in flight, a completed task stays completed in a step exactly when the step is no
      rejection; a rejection blocks it. */
  lemma CompletedStaysIff(cfg: Config, st: TaskState, step: Step)
    requires Enabled(st, step) && st.status == Status.Completed && st.pending == []
    ensures Perform(cfg, st, step).status == (if Rejects(step) then Blocked else Status.Completed)
    ensures Perform(cfg, st, step).pending == []
  {
    InactiveStartsNothing(cfg, st, step);
  }

  /** So over a whole run it is completed at the end if and only if no step was a rejection. */
  lemma {:induction false} CompletedRunsStayIff(rules: Rules, st: TaskState, steps: seq<Step>)
    requires Feasible(rules, st, steps) && st.status == Status.Completed && st.pending == []
    ensures After(rules, st, steps).status == Status.Completed <==> forall i :: 0 <= i < |steps| ==> !Rejects(steps[i])
    decreases |steps|
  {
    hide Perform, Enabled, Conforms, Rejects;
    if steps == [] {
    } else {
      var next := Perform(rules.cfg, st, steps[0]);
      CompletedStaysIff(rules.cfg, st, steps[0]);
      if Rejects(steps[0]) {
        StaysBlocked(rules, next, steps[1..]);
      } else {
        CompletedRunsStayIff(rules, next, steps[1..]);
        assert forall i :: 0 <= i < |steps| - 1 ==> steps[1..][i] == steps[i + 1];
        assert forall i :: 1 <= i < |steps| ==> steps[i] == steps[1..][i - 1];
      }
    }
  }

  // ---- a rejected task that completes ----

  /** What the scans see of a first cycle without failures: `done` stages completed, `begun` ones started. */
  ghost predicate Seen(log: Log, done: set<Stage>, begun: set<Stage>, plan: bool, approved: bool) {
    && CurrentCycle(log) == 1 && StepCount(log) == |done| && CompletedStages(log, 1) == done
    && Latest(log, KStarted).Some? && Latest(log, KSubtasksSpawned) == None
    && (if plan then ConcretePlan(log) else Latest(log, KPlanCreated) == None)
    && (approved ==> Latest(log, KApproval).Some? && Latest(log, KApproval).value.body == Approval(true))
    && (forall stage :: Unretried(log, stage))
    && (forall stage :: stage !in begun ==> Unstarted(log, stage))
  }

  predicate Unretried(log: Log, stage: Stage) {
    RetryEpoch(log, stage, 1) == None
  }

  predicate Unstarted(log: Log, stage: Stage) {
    StartedAt(log, stage, 1) == None
  }

  lemma AddSeen(log: Log, at: real, body: Body, done: set<Stage>, begun: set<Stage>, plan: bool, approved: bool)
    requires Seen(log, done, begun, plan, approved)
    ensures var more := Add(log, at, body);
            match body
            case StageStarted(stage, cycle) => cycle == 1 ==> Seen(more, done, begun + {stage}, plan, approved)
            case StageCompleted(stage, cycle, _) =>
              cycle == 1 && stage !in done ==> Seen(more, done + {stage}, begun, plan, approved)
            case PlanCreated(cycle, concrete) => concrete ==> Seen(more, done, begun, true, approved)
            case Approval(given) => given ==> Seen(more, done, begun, plan, true)
            case Note(_) => Seen(more, done, begun, plan, approved)
            case _ => true
  {
    var more := Add(log, at, body);
    assert Init(more) == log && Last(more) == Event(at, body);
    forall stage ensures !body.RetryScheduled? ==> Unretried(more, stage) {
      assert Unretried(log, stage);
    }
    forall stage ensures !body.StageStarted? && stage !in begun ==> Unstarted(more, stage) {
      assert stage !in begun ==> Unstarted(log, stage);
    }
    forall stage ensures body.StageStarted? && stage !in begun + {body.stage} ==> Unstarted(more, stage) {
      assert stage !in begun ==> Unstarted(log, stage);
    }
  }

  lemma FirstTickSeen()
    ensures var none: Log := [];
            Seen(Add(Add(Add(none, 0.0, Started), 0.0, CycleStarted(1)), 0.0, StageStarted(Plan, 1)), {}, {Plan}, false, false)
  {
    var none: Log := [];
    var one := Add(none, 0.0, Started);
    var two := Add(one, 0.0, CycleStarted(1));
    assert Init(one) == none && Init(two) == one;
    assert StepCount(none) == 0 && StepCount(one) == 0 && StepCount(two) == 0;
    assert CompletedStages(none, 1) == {} && CompletedStages(one, 1) == {} && CompletedStages(two, 1) == {};
    assert Latest(none, KSubtasksSpawned) == None && Latest(none, KPlanCreated) == None;
    assert Last(one).body == Started;
    assert Latest(one, KSubtasksSpawned) == None && Latest(one, KPlanCreated) == None && Latest(one, KStarted).Some?;
    forall stage ensures Unretried(two, stage) && Unstarted(two, stage) {
      assert RetryEpoch(none, stage, 1) == None && StartedAt(none, stage, 1) == None;
      assert RetryEpoch(one, stage, 1) == None && StartedAt(one, stage, 1) == None;
    }
    AddSeen(two, 0.0, StageStarted(Plan, 1), {}, {}, false, false);
  }

  /** A state of a first cycle without failures, with at most one run in flight. */
  ghost predicate At1(st: TaskState, done: set<Stage>, begun: set<Stage>, plan: bool, approved: bool, pending: seq<Stage>, now: real) {
    && Seen(st.log, done, begun, plan, approved) && |st.log| <= 20
    && Last(st.log).at == now
    && |st.pending| == |pending| <= 1
    && (forall i :: 0 <= i < |pending| ==> st.pending[i].stage == pending[i] && st.pending[i].cycle == 1)
  }

  lemma GatesOpen(cfg: Config, st: TaskState, done: set<Stage>, begun: set<Stage>, approved: bool, stage: Stage, now: real)
    requires Seen(st.log, done, begun, cfg.executePlan, approved) && |st.log| <= 20
    requires stage !in begun && (stage == Execute ==> approved)
    ensures ApprovalGate(cfg, st, QuietTick(now), stage, 1)
            == (Append(st, now, StageStarted(stage, 1)).(pending := st.pending + [StageContext(stage, 1, 0, st.log)]), StageBegan)
  {
    hide CurrentCycle, StepCount, CompletedStages, Latest, RetryEpoch, StartedAt, EndedAt, ListEvents;
    WholeLog(st.log, 500);
    WholeLog(st.log, 300);
    assert Unretried(st.log, stage) && Unstarted(st.log, stage);
  }

  lemma TickReachesGates(cfg: Config, st: TaskState, done: set<Stage>, begun: set<Stage>, plan: bool, approved: bool, stage: Stage, now: real)
    requires Seen(st.log, done, begun, plan, approved) && |st.log| <= 20 && st.status == InProgress
    requires |done| < cfg.maxSteps && FirstMissing(done) == Some(stage)
    ensures Tick(cfg, st, QuietTick(now)) == ApprovalGate(cfg, st, QuietTick(now), stage, 1)
  {
    hide CurrentCycle, StepCount, CompletedStages, Latest, ListEvents, ApprovalGate, ConcretePlan;
    WholeLog(st.log, 500);
    assert st.(status := InProgress) == st;
  }

  lemma NextStarts(cfg: Config, st: TaskState, done: set<Stage>, begun: set<Stage>, approved: bool, stage: Stage, now: real)
    requires At1(st, done, begun, cfg.executePlan, approved, [], now) && st.status == InProgress
    requires |done| < cfg.maxSteps && FirstMissing(done) == Some(stage) && stage !in begun && |st.log| <= 10
    requires stage == Execute ==> approved
    ensures var r := Tick(cfg, st, QuietTick(now + 1.0));
            && r.1 == StageBegan && r.0.status == InProgress && r.0.info == st.info
            && |r.0.log| == |st.log| + 1
            && At1(r.0, done, begun + {stage}, cfg.executePlan, approved, [stage], now + 1.0)
  {
    hide Seen, Tick, ApprovalGate;
    TickReachesGates(cfg, st, done, begun, cfg.executePlan, approved, stage, now + 1.0);
    GatesOpen(cfg, st, done, begun, approved, stage, now + 1.0);
    AddSeen(st.log, now + 1.0, StageStarted(stage, 1), done, begun, cfg.executePlan, approved);
  }

  lemma StageSettles(cfg: Config, st: TaskState, done: set<Stage>, begun: set<Stage>, plan: bool, approved: bool, stage: Stage, now: real)
    requires At1(st, done, begun, plan, approved, [stage], now) && st.status == InProgress && |st.log| <= 10
    requires stage != Review && stage !in done && !st.info.autoSpawn
    requires plan == (cfg.executePlan && stage == Execute)
    ensures var r := Settle(cfg, st, 0, Finished(GoodOutput(cfg)), now + 1.0);
            && r.status == InProgress && r.info == st.info
            && |r.log| <= |st.log| + 2
            && At1(r, done + {stage}, begun, cfg.executePlan, approved, [], now + 1.0)
  {
    hide CurrentCycle, StepCount, CompletedStages, Latest, RetryEpoch, StartedAt, EndedAt, Accepted;
    var later := now + 1.0;
    var body := StageCompleted(stage, 1, true);
    GoodOutputPasses(cfg, stage);
    AddSeen(st.log, later, body, done, begun, plan, approved);
    var completed := Add(st.log, later, body);
    WholeLog(completed, 300);
    WholeLog(completed, 500);
    if cfg.executePlan && stage == Plan {
      AddSeen(completed, later, PlanCreated(1, true), done + {stage}, begun, plan, approved);
      WholeLog(Add(completed, later, PlanCreated(1, true)), 500);
    }
  }

  lemma FirstTickStarts(cfg: Config, info: Info)
    requires ValidConfig(cfg)
    ensures var next := Tick(cfg, Fresh(info), QuietTick(0.0)).0;
            && next.status == InProgress && next.info == info && |next.log| == 3
            && At1(next, {}, {Plan}, false, false, [Plan], 0.0)
  {
    hide Tick, Seen;
    FirstTick(cfg, info);
    FirstTickSeen();
    var none: Log := [];
    assert [Event(0.0, Started), Event(0.0, CycleStarted(1)), Event(0.0, StageStarted(Plan, 1))]
        == Add(Add(Add(none, 0.0, Started), 0.0, CycleStarted(1)), 0.0, StageStarted(Plan, 1));
  }

  lemma ApprovalIsSeen(st: TaskState, done: set<Stage>, begun: set<Stage>, plan: bool, now: real)
    requires At1(st, done, begun, plan, false, [], now) && |st.log| <= 10
    ensures var next := SetApproval(st, true, now + 1.0);
            && next.status == st.status && next.info == st.info && |next.log| == |st.log| + 1
            && At1(next, done, begun, plan, true, [], now + 1.0)
  {
    hide Seen;
    AddSeen(st.log, now + 1.0, Approval(true), done, begun, plan, false);
  }

  lemma TimeOf1(st: TaskState, done: set<Stage>, begun: set<Stage>, plan: bool, approved: bool, pending: seq<Stage>, now: real)
    requires At1(st, done, begun, plan, approved, pending, now)
    ensures st.log != [] && Last(st.log).at == now && |st.pending| == |pending|
  {
  }

  /** A run up to an approved task whose plan passed. */
  lemma PlanThenApproval(rules: Rules, info: Info) returns (steps: seq<Step>)
    requires ValidConfig(rules.cfg) && !info.autoSpawn
    ensures Feasible(rules, Fresh(info), steps)
    ensures var st := After(rules, Fresh(info), steps);
            && st.status == InProgress && st.info == info && |st.log| <= 6
            && At1(st, {Plan}, {Plan}, rules.cfg.executePlan, true, [], 2.0)
  {
    hide Tick, Settle, SetApproval, At1, Feasible, After;
    var cfg, start, good := rules.cfg, Fresh(info), Finished(GoodOutput(rules.cfg));
    GoodOutputPasses(cfg, Plan);
    EmptyRun(rules, start);
    FirstTickStarts(cfg, info);
    var one := Tick(cfg, start, QuietTick(0.0)).0;
    ExtendRun(rules, start, [], TickStep(QuietTick(0.0)));
    steps := [] + [TickStep(QuietTick(0.0))];
    TimeOf1(one, {}, {Plan}, false, false, [Plan], 0.0);
    StageSettles(cfg, one, {}, {Plan}, false, false, Plan, 0.0);
    var two := Settle(cfg, one, 0, good, 1.0);
    ExtendRun(rules, start, steps, SettleStep(0, good, 1.0));
    steps := steps + [SettleStep(0, good, 1.0)];
    assert {} + {Plan} == {Plan};
    TimeOf1(two, {Plan}, {Plan}, cfg.executePlan, false, [], 1.0);
    ApprovalIsSeen(two, {Plan}, {Plan}, cfg.executePlan, 1.0);
    ExtendRun(rules, start, steps, ApproveStep(true, 2.0));
    steps := steps + [ApproveStep(true, 2.0)];
  }

  /** Under every configuration with at least three steps, a run up to a review in flight. */
  lemma ReviewInFlight(rules: Rules, info: Info) returns (steps: seq<Step>)
    requires ValidConfig(rules.cfg) && rules.cfg.maxSteps >= 3 && !info.autoSpawn
    ensures Feasible(rules, Fresh(info), steps)
    ensures var st := After(rules, Fresh(info), steps);
            && st.status == InProgress && |st.log| <= 10 && st.log != [] && Last(st.log).at == 5.0
            && |st.pending| == 1 && st.pending[0].stage == Review
  {
    hide Tick, Settle, SetApproval, At1, Feasible, After;
    var cfg, start, good := rules.cfg, Fresh(info), Finished(GoodOutput(rules.cfg));
    GoodOutputPasses(cfg, Execute);
    steps := PlanThenApproval(rules, info);
    var three := After(rules, start, steps);
    TimeOf1(three, {Plan}, {Plan}, cfg.executePlan, true, [], 2.0);
    NextStarts(cfg, three, {Plan}, {Plan}, true, Execute, 2.0);
    var four := Tick(cfg, three, QuietTick(3.0)).0;
    ExtendRun(rules, start, steps, TickStep(QuietTick(3.0)));
    steps := steps + [TickStep(QuietTick(3.0))];
    TimeOf1(four, {Plan}, {Plan} + {Execute}, cfg.executePlan, true, [Execute], 3.0);
    StageSettles(cfg, four, {Plan}, {Plan} + {Execute}, cfg.executePlan, true, Execute, 3.0);
    var five := Settle(cfg, four, 0, good, 4.0);
    ExtendRun(rules, start, steps, SettleStep(0, good, 4.0));
    steps := steps + [SettleStep(0, good, 4.0)];
    TimeOf1(five, {Plan} + {Execute}, {Plan} + {Execute}, cfg.executePlan, true, [], 4.0);
    assert |{Plan} + {Execute}| == 2;
    NextStarts(cfg, five, {Plan} + {Execute}, {Plan} + {Execute}, true, Review, 4.0);
    var six := Tick(cfg, five, QuietTick(5.0)).0;
    ExtendRun(rules, start, steps, TickStep(QuietTick(5.0)));
    steps := steps + [TickStep(QuietTick(5.0))];
    TimeOf1(six, {Plan} + {Execute}, {Plan} + {Execute} + {Review}, cfg.executePlan, true, [Review], 5.0);
    assert six.pending[0].stage == Review by { FirstPending(six, {Plan} + {Execute}, {Plan} + {Execute} + {Review}, cfg.executePlan, true, Review, 5.0); }
  }

  lemma FirstPending(st: TaskState, done: set<Stage>, begun: set<Stage>, plan: bool, approved: bool, stage: Stage, now: real)
    requires At1(st, done, begun, plan, approved, [stage], now)
    ensures |st.pending| == 1 && st.pending[0].stage == stage
  {
  }

  /** A reachable task that was rejected and is completed nevertheless: its last two steps are the rejection
      and the settlement of the review that was in flight. */
  lemma RejectedTaskCompletes(rules: Rules, info: Info) returns (steps: seq<Step>, st: TaskState)
    requires ValidConfig(rules.cfg) && rules.cfg.maxSteps >= 3 && !info.autoSpawn
    ensures Reaches(rules, info, steps, st)
    ensures |steps| >= 2 && Rejects(steps[|steps| - 2]) && steps[|steps| - 1].SettleStep?
    ensures st.status == Status.Completed
  {
    hide Settle, Feasible, After, Accepted;
    var cfg, start, good := rules.cfg, Fresh(info), Finished(GoodOutput(rules.cfg));
    GoodOutputPasses(cfg, Review);
    steps := ReviewInFlight(rules, info);
    var flying := After(rules, start, steps);
    ExtendRun(rules, start, steps, ApproveStep(false, 6.0));
    steps := steps + [ApproveStep(false, 6.0)];
    var rejected := SetApproval(flying, false, 6.0);
    var last := SettleStep(0, good, 7.0);
    BlockedIsAbsorbingExcept(cfg, rejected, last);
    ExtendRun(rules, start, steps, last);
    steps := steps + [last];
    st := After(rules, start, steps);
    ReviewAddsFew(cfg, rejected, 7.0);
  }

  lemma ReviewAddsFew(cfg: Config, st: TaskState, now: real)
    requires |st.pending| == 1 && st.pending[0].stage == Review
    ensures |Settle(cfg, st, 0, Finished(GoodOutput(cfg)), now).log| <= |st.log| + 2
  {
    hide Latest, ListEvents, QualityRun, Accepted;
    GoodOutputPasses(cfg, Review);
  }
}
