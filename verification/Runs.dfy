/** Runs: any interleaving of ticks, settlements, approvals and outside events. */
module Runs {
  import opened EventLog
  import opened TaskGate
  import opened ControlState
  import opened QualityGate
  import opened Engine
  import opened Discipline
  import opened TickInvariant

  ghost predicate Feasible(rules: Rules, st: TaskState, steps: seq<Step>)
    decreases |steps|
  {
    steps == [] ||
    (&& Enabled(st, steps[0]) && Conforms(rules, steps[0])
     && Feasible(rules, Perform(rules.cfg, st, steps[0]), steps[1..]))
  }

  ghost function After(rules: Rules, st: TaskState, steps: seq<Step>): TaskState
    requires Feasible(rules, st, steps)
    decreases |steps|
  {
    if steps == [] then st else After(rules, Perform(rules.cfg, st, steps[0]), steps[1..])
  }

  lemma OutputGrows(cfg: Config, st: TaskState, ctx: StageContext, out: Output, now: real)
    ensures Grown(st.log, HandleOutput(cfg, st, ctx, out, now).log)
    ensures |st.log| < |HandleOutput(cfg, st, ctx, out, now).log|
  {
    hide ListEvents, Latest, QualityRun, Accepted, ReviewFails;
  }

  lemma StepGrows(cfg: Config, st: TaskState, step: Step)
    requires Enabled(st, step)
    ensures Grown(st.log, Perform(cfg, st, step).log)
    ensures step.SettleStep? ==> |st.log| < |Perform(cfg, st, step).log|
  {
    hide Tick, HandleOutput, HandleStageFailure;
    match step {
      case TickStep(inp) => TickGrows(cfg, st, inp);
      case SettleStep(index, outcome, now) =>
        var rest := st.(pending := st.pending[..index] + st.pending[index + 1..]);
        if outcome.Raised? {
          FailureGrows(cfg, rest, st.pending[index], outcome.raise, now);
        } else {
          OutputGrows(cfg, rest, st.pending[index], outcome.output, now);
        }
      case ApproveStep(approved, now) =>
      case OutsideStep(body, now) =>
    }
  }

  lemma StepKeepsInv(rules: Rules, st: TaskState, step: Step)
    requires Inv(rules, st) && Enabled(st, step) && Conforms(rules, step)
    requires |Perform(rules.cfg, st, step).log| <= STORE_LIMIT
    ensures Inv(rules, Perform(rules.cfg, st, step))
  {
    hide Fold, Disciplined, Tick, Settle, SetApproval, Inv;
    StepGrows(rules.cfg, st, step);
    LastAtRefines(st.log);
    match step {
      case TickStep(inp) => TickKeepsInv(rules, st, inp);
      case SettleStep(index, outcome, now) => SettleKeepsInv(rules, st, index, outcome, now);
      case ApproveStep(approved, now) => ApprovalKeepsInv(rules, st, approved, now);
      case OutsideStep(body, now) =>
        PassiveKeepsInv(rules, st, st.status, now, body);
        assert st.(status := st.status) == st;
    }
  }

  lemma {:induction false} RunGrows(rules: Rules, st: TaskState, steps: seq<Step>)
    requires Feasible(rules, st, steps)
    ensures Grown(st.log, After(rules, st, steps).log)
    decreases |steps|
  {
    hide Perform, Enabled;
    if steps == [] {
    } else {
      StepGrows(rules.cfg, st, steps[0]);
      var next := Perform(rules.cfg, st, steps[0]);
      RunGrows(rules, next, steps[1..]);
      assert st.log == next.log[..|st.log|] == After(rules, st, steps).log[..|next.log|][..|st.log|];
    }
  }

  lemma {:induction false} RunConcat(rules: Rules, st: TaskState, first: seq<Step>, second: seq<Step>)
    requires Feasible(rules, st, first) && Feasible(rules, After(rules, st, first), second)
    ensures Feasible(rules, st, first + second)
    ensures After(rules, st, first + second) == After(rules, After(rules, st, first), second)
    decreases |first|
  {
    hide Perform, Enabled, Conforms;
    if first == [] {
      assert first + second == second;
    } else {
      assert (first + second)[1..] == first[1..] + second;
      RunConcat(rules, Perform(rules.cfg, st, first[0]), first[1..], second);
    }
  }

  lemma EmptyRun(rules: Rules, st: TaskState)
    ensures Feasible(rules, st, []) && After(rules, st, []) == st
  {
  }

  lemma ExtendRun(rules: Rules, start: TaskState, steps: seq<Step>, step: Step)
    requires Feasible(rules, start, steps)
    requires Enabled(After(rules, start, steps), step) && Conforms(rules, step)
    ensures Feasible(rules, start, steps + [step])
    ensures After(rules, start, steps + [step]) == Perform(rules.cfg, After(rules, start, steps), step)
  {
    hide Perform, Enabled, Conforms;
    var st := After(rules, start, steps);
    var next := Perform(rules.cfg, st, step);
    assert [step][1..] == [];
    assert Feasible(rules, next, [step][1..]) && After(rules, next, [step][1..]) == next;
    RunConcat(rules, start, steps, [step]);
  }

  /** Every state that a run reaches with at most 200 events in the log satisfies the invariant. */
  lemma {:induction false} RunKeepsInv(rules: Rules, st: TaskState, steps: seq<Step>)
    requires Inv(rules, st) && Feasible(rules, st, steps)
    requires |After(rules, st, steps).log| <= STORE_LIMIT
    ensures Inv(rules, After(rules, st, steps))
    decreases |steps|
  {
    hide Perform, Enabled, Inv, Conforms;
    if steps == [] {
    } else {
      var next := Perform(rules.cfg, st, steps[0]);
      RunGrows(rules, next, steps[1..]);
      StepKeepsInv(rules, st, steps[0]);
      RunKeepsInv(rules, next, steps[1..]);
    }
  }

  /** A reachable state: a run from a fresh task whose log still fits the store's window. */
  ghost predicate Reaches(rules: Rules, info: Info, steps: seq<Step>, st: TaskState) {
    && ValidConfig(rules.cfg) && Feasible(rules, Fresh(info), steps)
    && st == After(rules, Fresh(info), steps) && |st.log| <= STORE_LIMIT
  }

  lemma ReachedInv(rules: Rules, info: Info, steps: seq<Step>, st: TaskState)
    requires Reaches(rules, info, steps, st)
    ensures Inv(rules, st)
  {
    InitialInv(rules, info);
    RunKeepsInv(rules, Fresh(info), steps);
  }
}
