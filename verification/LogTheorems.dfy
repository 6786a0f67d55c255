/** What holds of every disciplined log, stated on the log alone. */
module LogTheorems {
  import opened EventLog
  import opened TaskGate
  import opened ControlState
  import opened Engine
  import opened Discipline

  lemma {:induction false} EventAt(rules: Rules, log: Log, i: nat)
    requires Disciplined(rules, log) && i < |log|
    ensures Disciplined(rules, log[..i]) && EventOK(rules, Fold(log[..i]), log[i])
    ensures Fold(log[..i + 1]) == Apply(Fold(log[..i]), log[i])
    decreases |log|
  {
    hide EventOK, Apply;
    if i == |log| - 1 {
      assert log[..i + 1] == log && Init(log) == log[..i];
    } else {
      EventAt(rules, Init(log), i);
      assert Init(log)[..i] == log[..i] && Init(log)[..i + 1] == log[..i + 1];
    }
  }

  // ---- cycles ----

  /** The numbers of the recorded cycles, oldest first. */
  function CycleNumbers(log: Log): seq<int> {
    if log == [] then []
    else CycleNumbers(Init(log)) + if Last(log).body.CycleStarted? then [Last(log).body.cycle] else []
  }

  /** The recorded cycles are 1, 2, ..., k with k at most the cycle cap. */
  lemma {:induction false} CyclesAreConsecutive(rules: Rules, log: Log)
    requires Disciplined(rules, log) && rules.cfg.maxCycles >= 1
    ensures |CycleNumbers(log)| <= rules.cfg.maxCycles
    ensures forall k :: 0 <= k < |CycleNumbers(log)| ==> CycleNumbers(log)[k] == k + 1
    ensures Fold(log).cycles == |CycleNumbers(log)|
  {
    if log == [] {
    } else {
      CyclesAreConsecutive(rules, Init(log));
    }
  }

  // ---- budgets ----

  lemma {:induction false} StepsWithinBudget(rules: Rules, log: Log)
    requires Disciplined(rules, log) && rules.cfg.maxSteps >= 1
    ensures StepCount(log) <= rules.cfg.maxSteps
    ensures Fold(log).starts <= rules.cfg.maxSteps
  {
    hide Tracks, LatestOf, Extend;
    if log == [] {
    } else {
      StepsWithinBudget(rules, Init(log));
      CountersRefine(Init(log));
    }
  }

  function StartsOf(log: Log, stage: Stage, cycle: int): nat {
    if log == [] then 0
    else
      StartsOf(Init(log), stage, cycle) +
      if Last(log).body.StageStarted? && Last(log).body.stage == stage && Effective(Last(log).body.cycle) == cycle
      then 1 else 0
  }

  lemma {:induction false} StartsRefine(log: Log, stage: Stage, cycle: int)
    ensures StartsOf(log, stage, cycle) == At(Fold(log), stage, cycle).starts
  {
    if log == [] {
    } else {
      StartsRefine(Init(log), stage, cycle);
    }
  }

  /** No stage of a cycle starts more often than its retry limit plus one. */
  lemma {:induction false} AttemptBound(rules: Rules, log: Log, stage: Stage, cycle: int)
    requires Disciplined(rules, log)
    ensures StartsOf(log, stage, cycle) <= rules.retries + 1
  {
    hide Fold;
    if log == [] {
    } else {
      AttemptBound(rules, Init(log), stage, cycle);
      StartsRefine(Init(log), stage, cycle);
    }
  }

  function TotalStarts(log: Log): nat {
    if log == [] then 0 else TotalStarts(Init(log)) + if Last(log).body.StageStarted? then 1 else 0
  }

  function CycleStarts(log: Log, cycle: int): nat {
    StartsOf(log, Plan, cycle) + StartsOf(log, Execute, cycle) + StartsOf(log, Review, cycle)
  }

  function SumStarts(log: Log, cycles: nat): nat {
    if cycles == 0 then 0 else SumStarts(log, cycles - 1) + CycleStarts(log, cycles)
  }

  lemma {:induction false} SumStep(log: Log, cycles: nat)
    requires log != []
    ensures SumStarts(log, cycles) == SumStarts(Init(log), cycles) +
              if Last(log).body.StageStarted? && 1 <= Effective(Last(log).body.cycle) <= cycles then 1 else 0
  {
    if cycles == 0 {
    } else {
      SumStep(log, cycles - 1);
    }
  }

  lemma {:induction false} SumEmpty(cycles: nat)
    ensures SumStarts([], cycles) == 0
  {
    if cycles == 0 {
    } else {
      SumEmpty(cycles - 1);
    }
  }

  lemma {:induction false} TotalIsSum(rules: Rules, log: Log)
    requires Disciplined(rules, log) && rules.cfg.maxCycles >= 1
    ensures TotalStarts(log) == SumStarts(log, rules.cfg.maxCycles)
    ensures TotalStarts(log) == Fold(log).starts
  {
    if log == [] {
      SumEmpty(rules.cfg.maxCycles);
    } else {
      TotalIsSum(rules, Init(log));
      SumStep(log, rules.cfg.maxCycles);
      CyclesAreConsecutive(rules, Init(log));
    }
  }

  lemma {:induction false} SumBound(rules: Rules, log: Log, cycles: nat)
    requires Disciplined(rules, log)
    ensures SumStarts(log, cycles) <= 3 * cycles * (rules.retries + 1)
  {
    hide Disciplined, StartsOf;
    if cycles == 0 {
    } else {
      SumBound(rules, log, cycles - 1);
      AttemptBound(rules, log, Plan, cycles);
      AttemptBound(rules, log, Execute, cycles);
      AttemptBound(rules, log, Review, cycles);
      OneMoreCycle(cycles, rules.retries);
    }
  }

  lemma OneMoreCycle(cycles: nat, retries: nat)
    requires cycles >= 1
    ensures 3 * cycles * (retries + 1) == 3 * (cycles - 1) * (retries + 1) + 3 * (retries + 1)
  {
  }

  /** A task starts at most min(S, 3 * C * (R + 1)) stages. */
  lemma StartBudget(rules: Rules, log: Log)
    requires Disciplined(rules, log) && ValidConfig(rules.cfg)
    ensures TotalStarts(log) <= rules.cfg.maxSteps
    ensures TotalStarts(log) <= 3 * rules.cfg.maxCycles * (rules.retries + 1)
  {
    TotalIsSum(rules, log);
    StepsWithinBudget(rules, log);
    SumBound(rules, log, rules.cfg.maxCycles);
  }

  // ---- retries and backoff ----

  /** Failed attempts of a stage in a cycle are numbered 1, 2, 3, ... */
  lemma AttemptsAreNumbered(rules: Rules, log: Log, i: nat)
    requires Disciplined(rules, log) && i < |log| && log[i].body.StageFailed?
    ensures log[i].body.attempt == Failures(log[..i], log[i].body.stage, log[i].body.cycle) + 1
    ensures log[i].body.attempt <= rules.retries + 1
  {
    EventAt(rules, log, i);
    StageScansRefine(log[..i], log[i].body.stage, log[i].body.cycle);
  }

  /** The least time between the first and the last of n failures, and n + 1 after one more delay. */
  function Backoff(cfg: Config, n: nat): real {
    cfg.retryBase * (Pow2(n) - 1) as real
  }

  lemma BackoffGrows(cfg: Config, n: nat)
    requires n >= 1
    ensures Backoff(cfg, n) == Backoff(cfg, n - 1) + Delay(cfg, n)
  {
    var p := Pow2(n - 1);
    assert Pow2(n) == 2 * p;
    assert (Pow2(n) - 1) as real == ((p - 1) as real) + p as real;
    assert cfg.retryBase * (((p - 1) as real) + p as real) == cfg.retryBase * (p - 1) as real + cfg.retryBase * p as real;
  }

  /** The last failure is at least the accumulated delays after the first. */
  predicate Spread(cfg: Config, t: Track) {
    if t.fails == 0 then t.firstFail == None
    else
      && t.firstFail.Some? && t.lastFail.Some?
      && t.lastFail.value >= t.firstFail.value + Backoff(cfg, t.fails - 1)
  }

  lemma TouchKeepsSpread(rules: Rules, c: Control, e: Event)
    requires OfStage(e.body) && EventOK(rules, c, e) && Spread(rules.cfg, TrackOf(c.tracks, KeyOf(e.body)))
    ensures Spread(rules.cfg, Touch(TrackOf(c.tracks, KeyOf(e.body)), e))
  {
    hide Delay, Backoff;
    var t := TrackOf(c.tracks, KeyOf(e.body));
    if e.body.StageFailed? {
      if t.fails >= 1 {
        BackoffGrows(rules.cfg, t.fails);
      } else {
        BackoffZero(rules.cfg);
      }
    }
  }

  lemma {:induction false} FailuresSpread(rules: Rules, log: Log, stage: Stage, cycle: int)
    requires Disciplined(rules, log)
    ensures Spread(rules.cfg, At(Fold(log), stage, cycle))
  {
    hide Delay, Backoff, LatestOf, Extend, EventOK, Touch;
    if log == [] {
    } else {
      FailuresSpread(rules, Init(log), stage, cycle);
      if OfStage(Last(log).body) && KeyOf(Last(log).body) == Key(stage, cycle) {
        TouchKeepsSpread(rules, Fold(Init(log)), Last(log));
      }
    }
  }

  lemma BackoffZero(cfg: Config)
    ensures Backoff(cfg, 0) == 0.0
  {
    assert Pow2(0) == 1;
  }

  lemma {:induction false} FirstFailure(log: Log, j: nat, stage: Stage, cycle: int)
    requires j < |log| && log[j].body.StageFailed? && log[j].body.stage == stage && Effective(log[j].body.cycle) == cycle
    requires Failures(log[..j], stage, cycle) == 0
    ensures At(Fold(log), stage, cycle).firstFail == Some(log[j].at)
    decreases |log|
  {
    hide LatestOf, Extend;
    if j < |log| - 1 {
      assert Init(log)[..j] == log[..j];
      FirstFailure(Init(log), j, stage, cycle);
    } else {
      assert Init(log) == log[..j];
      NoFailure(Init(log), stage, cycle);
    }
  }

  lemma {:induction false} NoFailure(log: Log, stage: Stage, cycle: int)
    requires Failures(log, stage, cycle) == 0
    ensures At(Fold(log), stage, cycle).firstFail == None
  {
    hide LatestOf, Extend;
    if log == [] {
    } else {
      NoFailure(Init(log), stage, cycle);
    }
  }

  /** Attempt k + 1 of a stage in a cycle starts no earlier than base * (2^k - 1) after the first failure. */
  lemma BackoffTiming(rules: Rules, log: Log, i: nat, j: nat, stage: Stage, cycle: int)
    requires Disciplined(rules, log)
    requires j < i < |log| && log[i].body == StageStarted(stage, cycle)
    requires log[j].body.StageFailed? && log[j].body.stage == stage && log[j].body.cycle == cycle
    requires Failures(log[..j], stage, cycle) == 0
    ensures log[i].at >= log[j].at + Backoff(rules.cfg, Failures(log[..i], stage, cycle))
    ensures Failures(log[..i], stage, cycle) >= 1
  {
    hide Delay, Backoff, Fold, Apply;
    EventAt(rules, log, i);
    assert log[..i][..j] == log[..j];
    FirstFailure(log[..i], j, stage, cycle);
    FailuresSpread(rules, log[..i], stage, cycle);
    StageScansRefine(log[..i], stage, cycle);
    SomeFailure(log[..i], j, stage, cycle);
    BackoffGrows(rules.cfg, Failures(log[..i], stage, cycle));
  }

  lemma {:induction false} SomeFailure(log: Log, j: nat, stage: Stage, cycle: int)
    requires j < |log| && log[j].body.StageFailed? && log[j].body.stage == stage && Effective(log[j].body.cycle) == cycle
    ensures Failures(log, stage, cycle) >= 1
    decreases |log|
  {
    if j < |log| - 1 {
      SomeFailure(Init(log), j, stage, cycle);
    }
  }

  // ---- what precedes a start, and what a completion ----

  lemma {:induction false} RunningIffLastMarkIsStart(rules: Rules, log: Log, stage: Stage, cycle: int)
    requires Disciplined(rules, log)
    ensures Running(At(Fold(log), stage, cycle)) == LastMarkIsStart(log, stage, cycle)
    ensures var t := At(Fold(log), stage, cycle);
            t.startedAt.Some? ==> Fold(log).lastAt.Some? && t.startedAt.value <= Fold(log).lastAt.value
  {
    if log == [] {
    } else {
      RunningIffLastMarkIsStart(rules, Init(log), stage, cycle);
      TrackStep(Fold(Init(log)), Last(log), stage, cycle);
      hide Apply;
    }
  }

  /** When a stage starts, its previous start, if any, has already ended. */
  lemma StartsAlternate(rules: Rules, log: Log, i: nat, stage: Stage, cycle: int)
    requires Disciplined(rules, log) && i < |log| && log[i].body == StageStarted(stage, cycle)
    ensures !LastMarkIsStart(log[..i], stage, cycle)
  {
    hide Fold;
    EventAt(rules, log, i);
    RunningIffLastMarkIsStart(rules, log[..i], stage, cycle);
  }

  /** A stage completes only as the end of a start of its own. */
  lemma CompletionsEndStarts(rules: Rules, log: Log, i: nat, stage: Stage, cycle: int, passed: bool)
    requires Disciplined(rules, log) && i < |log| && log[i].body == StageCompleted(stage, cycle, passed)
    ensures LastMarkIsStart(log[..i], stage, cycle)
  {
    hide Fold;
    EventAt(rules, log, i);
    RunningIffLastMarkIsStart(rules, log[..i], stage, cycle);
  }

  // ---- stages complete in order, behind passed gates ----

  predicate PassedAt(log: Log, i: nat, stage: Stage, cycle: int) {
    i < |log| && log[i].body == StageCompleted(stage, cycle, true)
  }

  lemma {:induction false} PassedRefines(rules: Rules, log: Log, stage: Stage, cycle: int) returns (i: nat)
    requires Disciplined(rules, log) && At(Fold(log), stage, cycle).passed
    ensures PassedAt(log, i, stage, cycle)
  {
    hide LatestOf, Extend;
    assert log != [];
    if Last(log).body == StageCompleted(stage, cycle, true) {
      i := |log| - 1;
    } else {
      i := PassedRefines(rules, Init(log), stage, cycle);
    }
  }

  /** Plan, execute and review of the cycle passed their gates, in this order. */
  ghost predicate PipelinePassed(log: Log, cycle: int) {
    exists i: nat, j: nat, k: nat :: i < j < k
      && PassedAt(log, i, Plan, cycle) && PassedAt(log, j, Execute, cycle) && PassedAt(log, k, Review, cycle)
  }

  /** A passed review comes after a passed execution, which comes after a passed plan. */
  lemma PassedReviewCompletesPipeline(rules: Rules, log: Log, k: nat, cycle: int)
    requires Disciplined(rules, log) && PassedAt(log, k, Review, cycle)
    ensures PipelinePassed(log, cycle)
  {
    hide Fold, Apply;
    EventAt(rules, log, k);
    var j := PassedRefines(rules, log[..k], Execute, cycle);
    assert PassedAt(log, j, Execute, cycle);
    EventAt(rules, log, j);
    var i := PassedRefines(rules, log[..j], Plan, cycle);
    assert PassedAt(log, i, Plan, cycle);
  }

  // ---- approval ----

  /** While approval is required, every execute start has a latest approval, and it is positive. */
  lemma ApprovalPrecedesExecute(rules: Rules, log: Log, i: nat, cycle: int)
    requires Disciplined(rules, log) && rules.approval
    requires i < |log| && log[i].body == StageStarted(Execute, cycle)
    ensures Latest(log[..i], KApproval).Some? && Latest(log[..i], KApproval).value.body == Approval(true)
  {
    hide Fold, Apply;
    EventAt(rules, log, i);
    LatestRefines(log[..i], KApproval);
  }

  /** With execute plans enabled, every execute start has a latest plan, and it is concrete. */
  lemma PlanPrecedesExecute(rules: Rules, log: Log, i: nat, cycle: int)
    requires Disciplined(rules, log) && rules.cfg.executePlan
    requires i < |log| && log[i].body == StageStarted(Execute, cycle)
    ensures Latest(log[..i], KPlanCreated).Some? && Latest(log[..i], KPlanCreated).value.body.PlanCreated?
    ensures Latest(log[..i], KPlanCreated).value.body.concrete
  {
    hide Fold, Apply;
    EventAt(rules, log, i);
    LatestRefines(log[..i], KPlanCreated);
  }

  /** A task that has fanned out into children starts no stage any more. */
  lemma ParentsStartNothing(rules: Rules, log: Log, i: nat)
    requires Disciplined(rules, log) && i < |log| && log[i].body.StageStarted?
    ensures Latest(log[..i], KSubtasksSpawned).Some? ==>
              Latest(log[..i], KSubtasksSpawned).value.body == SubtasksSpawned([])
  {
    hide Fold, Apply;
    EventAt(rules, log, i);
    LatestRefines(log[..i], KSubtasksSpawned);
  }

  lemma {:induction false} RejectionIsRemembered(log: Log, i: nat)
    requires i < |log| && log[i].body == Approval(false)
    ensures Fold(log).rejected
    decreases |log|
  {
    hide LatestOf, Extend, Tracks;
    if i < |log| - 1 {
      RejectionIsRemembered(Init(log), i);
    }
  }

  /** After a rejection no stage ever starts again. */
  lemma NoStartAfterRejection(rules: Rules, log: Log, i: nat, j: nat)
    requires Disciplined(rules, log) && i < j < |log| && log[i].body == Approval(false)
    ensures !log[j].body.StageStarted?
  {
    hide Fold, Apply;
    EventAt(rules, log, j);
    RejectionIsRemembered(log[..j], i);
  }

  // ---- repeated failures ----

  /** With the stop enabled, no run of consecutive equal failures reaches the threshold,
      at any point of the log. */
  lemma {:induction false} FailureRunsStayShort(rules: Rules, log: Log, i: nat, stage: Stage, signature: string)
    requires Disciplined(rules, log) && ValidConfig(rules.cfg) && rules.cfg.lowInfoStop && signature != "" && i <= |log|
    ensures FailureRun(log[..i], stage, signature) < rules.cfg.lowInfoThreshold
    ensures QualityRun(log[..i], stage, signature) < rules.cfg.lowInfoThreshold
    decreases i
  {
    hide Fold, Apply;
    if i == 0 {
    } else {
      FailureRunsStayShort(rules, log, i - 1, stage, signature);
      EventAt(rules, log, i - 1);
      RunsRefine(log[..i - 1], stage, signature);
      assert Init(log[..i]) == log[..i - 1];
    }
  }
}
