/** The theorems on disciplined logs, restated for every run of a task: any interleaving of ticks,
    settlements, approvals and outside events whose log fits the store's window. */
module Guarantees {
  import opened EventLog
  import opened TaskGate
  import opened ControlState
  import opened Engine
  import opened Discipline
  import opened Runs
  import opened LogTheorems

  lemma ReachedLog(rules: Rules, info: Info, steps: seq<Step>, st: TaskState)
    requires Reaches(rules, info, steps, st)
    ensures Disciplined(rules, st.log) && ValidConfig(rules.cfg)
  {
    hide Feasible, After, Disciplined;
    ReachedInv(rules, info, steps, st);
  }

  /** With step budget S, cycle cap C and retry limit R: at most S tracked steps, at most
      min(S, 3 * C * (R + 1)) stage starts, and recorded cycles 1, 2, ..., k with k <= C. */
  lemma RunsStayWithinBudgets(rules: Rules, info: Info, steps: seq<Step>, st: TaskState)
    requires Reaches(rules, info, steps, st)
    ensures StepCount(st.log) <= rules.cfg.maxSteps
    ensures TotalStarts(st.log) <= rules.cfg.maxSteps
    ensures TotalStarts(st.log) <= 3 * rules.cfg.maxCycles * (rules.retries + 1)
    ensures |CycleNumbers(st.log)| <= rules.cfg.maxCycles
    ensures forall k :: 0 <= k < |CycleNumbers(st.log)| ==> CycleNumbers(st.log)[k] == k + 1
    ensures forall stage, cycle :: StartsOf(st.log, stage, cycle) <= rules.retries + 1
  {
    hide Reaches, Disciplined, Fold;
    ReachedLog(rules, info, steps, st);
    StepsWithinBudget(rules, st.log);
    StartBudget(rules, st.log);
    CyclesAreConsecutive(rules, st.log);
    forall stage, cycle ensures StartsOf(st.log, stage, cycle) <= rules.retries + 1 {
      AttemptBound(rules, st.log, stage, cycle);
    }
  }

  /** Attempt k + 1 never starts earlier than base * (2^k - 1) after the first failure. */
  lemma RunsBackOff(rules: Rules, info: Info, steps: seq<Step>, st: TaskState, i: nat, j: nat, stage: Stage, cycle: int)
    requires Reaches(rules, info, steps, st)
    requires j < i < |st.log| && st.log[i].body == StageStarted(stage, cycle)
    requires st.log[j].body.StageFailed? && st.log[j].body.stage == stage && st.log[j].body.cycle == cycle
    requires Failures(st.log[..j], stage, cycle) == 0
    ensures st.log[i].at >= st.log[j].at + Backoff(rules.cfg, Failures(st.log[..i], stage, cycle))
  {
    hide Reaches, Disciplined, Backoff, Failures;
    ReachedLog(rules, info, steps, st);
    BackoffTiming(rules, st.log, i, j, stage, cycle);
  }

  /** While approval is required, every execute start has a latest approval before it, and that one is
      positive; after a rejection nothing starts. */
  lemma RunsRespectApproval(rules: Rules, info: Info, steps: seq<Step>, st: TaskState, i: nat)
    requires Reaches(rules, info, steps, st) && i < |st.log| && st.log[i].body.StageStarted?
    ensures rules.approval && st.log[i].body.stage == Execute ==>
              Latest(st.log[..i], KApproval).Some? && Latest(st.log[..i], KApproval).value.body == Approval(true)
    ensures forall j :: 0 <= j < i ==> st.log[j].body != Approval(false)
  {
    hide Reaches, Disciplined, Latest;
    ReachedLog(rules, info, steps, st);
    if rules.approval && st.log[i].body.stage == Execute {
      ApprovalPrecedesExecute(rules, st.log, i, st.log[i].body.cycle);
    }
    forall j | 0 <= j < i ensures st.log[j].body != Approval(false) {
      if st.log[j].body == Approval(false) {
        NoStartAfterRejection(rules, st.log, j, i);
      }
    }
  }

  /** With execute plans enabled, every execute start has a concrete latest plan before it; and no stage
      starts once the task has fanned out into children. */
  lemma RunsPlanAndDelegate(rules: Rules, info: Info, steps: seq<Step>, st: TaskState, i: nat)
    requires Reaches(rules, info, steps, st) && i < |st.log| && st.log[i].body.StageStarted?
    ensures rules.cfg.executePlan && st.log[i].body.stage == Execute ==>
              && Latest(st.log[..i], KPlanCreated).Some? && Latest(st.log[..i], KPlanCreated).value.body.PlanCreated?
              && Latest(st.log[..i], KPlanCreated).value.body.concrete
    ensures Latest(st.log[..i], KSubtasksSpawned).Some? ==>
              Latest(st.log[..i], KSubtasksSpawned).value.body == SubtasksSpawned([])
  {
    hide Reaches, Disciplined, Latest;
    ReachedLog(rules, info, steps, st);
    if rules.cfg.executePlan && st.log[i].body.stage == Execute {
      PlanPrecedesExecute(rules, st.log, i, st.log[i].body.cycle);
    }
    ParentsStartNothing(rules, st.log, i);
  }

  /** With the stop enabled, equal failures in a row stay below the threshold at every point of a run. */
  lemma RunsStopRepeatedFailures(rules: Rules, info: Info, steps: seq<Step>, st: TaskState,
                                 i: nat, stage: Stage, signature: string)
    requires Reaches(rules, info, steps, st) && rules.cfg.lowInfoStop && signature != "" && i <= |st.log|
    ensures FailureRun(st.log[..i], stage, signature) < rules.cfg.lowInfoThreshold
    ensures QualityRun(st.log[..i], stage, signature) < rules.cfg.lowInfoThreshold
  {
    hide Reaches, Disciplined;
    ReachedLog(rules, info, steps, st);
    FailureRunsStayShort(rules, st.log, i, stage, signature);
  }
}
