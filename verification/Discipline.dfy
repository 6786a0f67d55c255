/** The discipline that every log written by the engine obeys, and the invariant of one task
    that establishes it: for every interleaving of ticks, settlements, approvals and outside events. */
module Discipline {
  import opened EventLog
  import opened TaskGate
  import opened ControlState
  import opened QualityGate
  import opened Engine
  import opened FailureHandler

  // ---- steps and runs ----

  datatype Step =
    | TickStep(inp: TickInput)
    | SettleStep(index: nat, outcome: Outcome, now: real)
    | ApproveStep(approved: bool, now: real)
    | OutsideStep(body: Body, now: real)

  /** Events that other services append to a task's log; no control scan reads them. */
  predicate Inert(body: Body) {
    body.Note? || body.RunFailed? || body.WorkspaceFailed?
  }

  function TimeOf(step: Step): real {
    match step
    case TickStep(inp) => inp.now
    case SettleStep(_, _, now) => now
    case ApproveStep(_, now) => now
    case OutsideStep(_, now) => now
  }

  /** A step happens strictly later than everything in the log; the events of one step may share its time. */
  predicate Enabled(st: TaskState, step: Step) {
    && (st.log != [] ==> Last(st.log).at < TimeOf(step))
    && (step.SettleStep? ==> step.index < |st.pending|)
    && (step.SettleStep? && step.outcome.Finished? ==> Realistic(step.outcome.output.text))
    && (step.OutsideStep? ==> Inert(step.body))
  }

  function Perform(cfg: Config, st: TaskState, step: Step): TaskState
    requires Enabled(st, step)
  {
    match step
    case TickStep(inp) => Tick(cfg, st, inp).0
    case SettleStep(index, outcome, now) => Settle(cfg, st, index, outcome, now)
    case ApproveStep(approved, now) => SetApproval(st, approved, now)
    case OutsideStep(body, now) => Append(st, now, body)
  }

  /** The settings of a run: its configuration, a bound on the retry limits that its ticks use,
      and whether every tick requires approval. */
  datatype Rules = Rules(cfg: Config, retries: nat, approval: bool)

  predicate Conforms(rules: Rules, step: Step) {
    step.TickStep? ==> step.inp.maxRetries <= rules.retries && (rules.approval ==> step.inp.requiresApproval)
  }

  // ---- the discipline of a log ----

  /** After n >= 1 failures the stage is due n backoff delays after the last of them. */
  predicate RetryDue(rules: Rules, t: Track) {
    t.fails >= 1 ==>
      && t.lastFail.Some? && t.retryAt.Some?
      && t.retryAt.value == t.lastFail.value + Delay(rules.cfg, t.fails)
  }

  predicate NotBeforeRetry(t: Track, at: real) {
    t.fails >= 1 && t.retryAt.Some? ==> t.retryAt.value <= at
  }

  predicate ApprovedNow(c: Control) {
    KApproval in c.latest && c.latest[KApproval].body == Approval(true)
  }

  predicate PlanKnown(c: Control) {
    KPlanCreated in c.latest && c.latest[KPlanCreated].body.PlanCreated? && c.latest[KPlanCreated].body.concrete
  }

  /** The task has not fanned out, or into no children. */
  predicate Childless(c: Control) {
    KSubtasksSpawned in c.latest ==>
      c.latest[KSubtasksSpawned].body.SubtasksSpawned? && c.latest[KSubtasksSpawned].body.children == []
  }

  /** The stage is the next one of the cycle and every earlier one passed its gate. */
  predicate InTurn(c: Control, stage: Stage, cycle: int) {
    && cycle == c.cycles >= 1
    && !At(c, stage, cycle).done
    && (stage != Plan ==> At(c, Plan, cycle).done && At(c, Plan, cycle).passed)
    && (stage == Review ==> At(c, Execute, cycle).done && At(c, Execute, cycle).passed)
  }

  predicate EventOK(rules: Rules, c: Control, e: Event) {
    && (c.lastAt.Some? ==> c.lastAt.value <= e.at)
    && match e.body
       case CycleStarted(cycle) => cycle == c.cycles + 1 && cycle <= rules.cfg.maxCycles
       case StageStarted(stage, cycle) =>
         var t := At(c, stage, cycle);
         && InTurn(c, stage, cycle)
         && c.starts <= c.steps < rules.cfg.maxSteps
         && t.starts <= t.fails <= rules.retries
         && RetryDue(rules, t) && NotBeforeRetry(t, e.at)
         && !Running(t) && (t.endedAt.Some? ==> t.endedAt.value < e.at)
         && !c.rejected
         && (rules.approval && stage == Execute ==> ApprovedNow(c))
         && (rules.cfg.executePlan && stage == Execute ==> PlanKnown(c))
         && Childless(c)
       case StageCompleted(stage, cycle, _) =>
         InTurn(c, stage, cycle) && c.steps < rules.cfg.maxSteps && Running(At(c, stage, cycle))
       case StageFailed(stage, cycle, attempt, signature) =>
         var t := At(c, stage, cycle);
         && InTurn(c, stage, cycle)
         && c.steps < rules.cfg.maxSteps
         && attempt == t.fails + 1 && t.fails <= rules.retries
         && RetryDue(rules, t) && NotBeforeRetry(t, e.at)
         && (rules.cfg.lowInfoStop && signature != "" ==>
               RunLength(c.failRun, stage, signature) + 1 < rules.cfg.lowInfoThreshold)
       case RetryScheduled(stage, cycle, attempt, retryAt) =>
         var t := At(c, stage, cycle);
         && InTurn(c, stage, cycle)
         && 1 <= attempt == t.fails <= rules.retries
         && t.lastFail == Some(e.at) && retryAt == e.at + Delay(rules.cfg, attempt)
       case QualityFailed(stage, cycle, signature) =>
         rules.cfg.lowInfoStop && signature != "" ==>
           RunLength(c.qualityRun, stage, signature) + 1 < rules.cfg.lowInfoThreshold
       case _ => true
  }

  predicate Disciplined(rules: Rules, log: Log) {
    log == [] || (Disciplined(rules, Init(log)) && EventOK(rules, Fold(Init(log)), Last(log)))
  }

  lemma AddOK(rules: Rules, log: Log, at: real, body: Body)
    requires Disciplined(rules, log) && EventOK(rules, Fold(log), Event(at, body))
    ensures Disciplined(rules, Add(log, at, body))
    ensures Fold(Add(log, at, body)) == Apply(Fold(log), Event(at, body))
  {
    assert Init(Add(log, at, body)) == log;
  }

  // ---- the invariant of one task ----

  predicate Quiet(rules: Rules, t: Track) {
    !Running(t) && (!t.done ==> t.starts <= t.fails <= rules.retries && RetryDue(rules, t))
  }

  predicate EndedBy(t: Track, at: Option<real>) {
    t.endedAt.Some? ==> at.Some? && t.endedAt.value <= at.value
  }

  /** The control state, whatever the status: `spare` is the number of runs in flight. */
  ghost predicate Bounded(rules: Rules, c: Control, spare: nat) {
    && c.steps + spare <= rules.cfg.maxSteps
    && c.cycle == Max(c.cycles, 1) && c.cycles <= rules.cfg.maxCycles
    && (KStarted in c.latest <==> c.cycles >= 1)
    && (forall key :: key in c.tracks ==> 1 <= key.cycle <= c.cycles && EndedBy(c.tracks[key], c.lastAt))
  }

  /** What an active task adds. */
  predicate Progressing(rules: Rules, c: Control, spare: nat) {
    && !c.rejected
    && c.starts <= c.steps + spare
    && !At(c, Review, c.cycle).done
    && (At(c, Plan, c.cycle).done ==> At(c, Plan, c.cycle).passed)
    && (At(c, Execute, c.cycle).done ==> At(c, Execute, c.cycle).passed)
    && (At(c, Execute, c.cycle).done ==> At(c, Plan, c.cycle).done)
  }

  predicate QuietExcept(rules: Rules, c: Control, busy: seq<Stage>) {
    && (Plan !in busy ==> Quiet(rules, At(c, Plan, c.cycle)))
    && (Execute !in busy ==> Quiet(rules, At(c, Execute, c.cycle)))
    && (Review !in busy ==> Quiet(rules, At(c, Review, c.cycle)))
  }

  /** What is known of a stage that is about to settle. */
  predicate Handled(rules: Rules, c: Control, ctx: StageContext) {
    var t := At(c, ctx.stage, ctx.cycle);
    && InTurn(c, ctx.stage, ctx.cycle)
    && Failures(ctx.events, ctx.stage, ctx.cycle) == t.fails <= rules.retries
    && ctx.maxRetries <= rules.retries
    && t.starts <= t.fails + 1
    && RetryDue(rules, t)
  }

  predicate InFlight(rules: Rules, c: Control, ctx: StageContext) {
    var t := At(c, ctx.stage, ctx.cycle);
    && Handled(rules, c, ctx)
    && Running(t) && NotBeforeRetry(t, t.startedAt.value)
    && c.lastAt.Some? && t.startedAt.value <= c.lastAt.value
    && (ctx.stage == Execute && rules.cfg.executePlan ==> PlanKnown(c))
  }

  /** The invariant on the control state: with at most one run in flight, or none. */
  ghost predicate Steady(rules: Rules, c: Control, active: bool, pending: seq<StageContext>) {
    && |pending| <= 1
    && Bounded(rules, c, |pending|)
    && (pending != [] ==> InFlight(rules, c, pending[0]))
    && (active ==> Progressing(rules, c, |pending|)
                   && QuietExcept(rules, c, if pending == [] then [] else [pending[0].stage]))
  }

  ghost predicate Inv(rules: Rules, st: TaskState) {
    ValidConfig(rules.cfg) && Disciplined(rules, st.log) && Steady(rules, Fold(st.log), Active(st), st.pending)
  }

  lemma InitialInv(rules: Rules, info: Info)
    requires ValidConfig(rules.cfg)
    ensures Inv(rules, Fresh(info))
  {
  }

  // ---- single events on the control state ----

  predicate InTime(c: Control, at: real) {
    c.lastAt.Some? ==> c.lastAt.value <= at
  }

  /** Events that leave the pipeline state alone. */
  predicate Passive(body: Body) {
    !OfStage(body) && !body.CycleStarted? && !body.QualityFailed? && !body.Started?
  }

  /** A passive event; the task may leave the active statuses at the same time. */
  lemma PassiveEvent(rules: Rules, c: Control, was: bool, active: bool, pending: seq<StageContext>, e: Event)
    requires Steady(rules, c, was, pending) && InTime(c, e.at) && Passive(e.body)
    requires pending != [] ==> !e.body.PlanCreated?
    requires active ==> was && (e.body.Approval? ==> e.body.approved)
    ensures EventOK(rules, c, e) && Steady(rules, Apply(c, e), active, pending)
  {
    hide Failures, Delay;
    assert Apply(c, e).tracks == c.tracks;
  }

  /** A stage taken out of flight (or never put there) and about to be settled. */
  ghost predicate Open(rules: Rules, c: Control, active: bool, ctx: StageContext, now: real) {
    var t := At(c, ctx.stage, ctx.cycle);
    && Bounded(rules, c, 1)
    && Handled(rules, c, ctx)
    && InTime(c, now) && NotBeforeRetry(t, now)
    && (t.startedAt.Some? ==> t.startedAt.value <= now)
    && (active ==> Progressing(rules, c, 1) && QuietExcept(rules, c, [ctx.stage]))
  }

  lemma StopEvent(rules: Rules, c: Control, e: Event)
    requires Bounded(rules, c, 0) && InTime(c, e.at) && Passive(e.body)
    ensures EventOK(rules, c, e) && Steady(rules, Apply(c, e), false, [])
  {
    PassiveEvent(rules, c, false, false, [], e);
  }

  /** A new cycle: nothing is known of its stages yet. */
  lemma CycleEvent(rules: Rules, c: Control, active: bool, at: real)
    requires Bounded(rules, c, 0) && InTime(c, at)
    requires 1 <= c.cycles < rules.cfg.maxCycles
    requires active ==> !c.rejected && c.starts <= c.steps
    ensures EventOK(rules, c, Event(at, CycleStarted(c.cycles + 1)))
    ensures Steady(rules, Apply(c, Event(at, CycleStarted(c.cycles + 1))), active, [])
  {
    hide Failures, Delay;
  }

  /** Right after a failure was recorded, before the decision between retry, replan and block. */
  ghost predicate JustFailed(rules: Rules, c: Control, active: bool, ctx: StageContext, attempt: nat, now: real) {
    var t := At(c, ctx.stage, ctx.cycle);
    && Bounded(rules, c, 0)
    && InTurn(c, ctx.stage, ctx.cycle)
    && c.lastAt == Some(now) && t.lastFail == Some(now) && t.endedAt == Some(now)
    && 1 <= attempt == t.fails && t.starts <= t.fails
    && (t.startedAt.Some? ==> t.startedAt.value <= now)
    && (active ==> Progressing(rules, c, 0) && QuietExcept(rules, c, [ctx.stage]))
  }

  lemma FailEvent(rules: Rules, c: Control, active: bool, ctx: StageContext, attempt: nat, signature: string, now: real)
    requires Open(rules, c, active, ctx, now)
    requires attempt == Failures(ctx.events, ctx.stage, ctx.cycle) + 1
    requires rules.cfg.lowInfoStop && signature != "" ==>
               RunLength(c.failRun, ctx.stage, signature) + 1 < rules.cfg.lowInfoThreshold
    ensures var e := Event(now, StageFailed(ctx.stage, ctx.cycle, attempt, signature));
            EventOK(rules, c, e) && JustFailed(rules, Apply(c, e), active, ctx, attempt, now)
  {
    hide Failures, Delay;
    var e := Event(now, StageFailed(ctx.stage, ctx.cycle, attempt, signature));
    var t := At(c, ctx.stage, ctx.cycle);
    assert EventOK(rules, c, e) by { hide Apply; }
    hide EventOK;
    assert Apply(c, e).tracks == c.tracks[Key(ctx.stage, ctx.cycle) := Touch(t, e)];
  }

  lemma RetryEvent(rules: Rules, c: Control, active: bool, ctx: StageContext, attempt: nat, now: real)
    requires JustFailed(rules, c, active, ctx, attempt, now) && attempt <= rules.retries
    ensures var e := Event(now, RetryScheduled(ctx.stage, ctx.cycle, attempt, now + Delay(rules.cfg, attempt)));
            EventOK(rules, c, e) && Steady(rules, Apply(c, e), active, [])
  {
    hide Failures, Delay;
    var e := Event(now, RetryScheduled(ctx.stage, ctx.cycle, attempt, now + Delay(rules.cfg, attempt)));
    var t := At(c, ctx.stage, ctx.cycle);
    assert Apply(c, e).tracks == c.tracks[Key(ctx.stage, ctx.cycle) := Touch(t, e)];
    assert Quiet(rules, At(Apply(c, e), ctx.stage, ctx.cycle));
  }

  /** Right after a completion was recorded. */
  ghost predicate JustCompleted(rules: Rules, c: Control, active: bool, ctx: StageContext, passed: bool, now: real) {
    && Bounded(rules, c, 0)
    && c.cycles == ctx.cycle >= 1
    && c.lastAt == Some(now)
    && (active ==> !c.rejected && c.starts <= c.steps)
    && (active && passed && ctx.stage != Review ==> Progressing(rules, c, 0) && QuietExcept(rules, c, []))
  }

  lemma CompleteEvent(rules: Rules, c: Control, active: bool, ctx: StageContext, passed: bool, now: real)
    requires Open(rules, c, active, ctx, now) && Running(At(c, ctx.stage, ctx.cycle))
    ensures var e := Event(now, StageCompleted(ctx.stage, ctx.cycle, passed));
            EventOK(rules, c, e) && JustCompleted(rules, Apply(c, e), active, ctx, passed, now)
  {
    hide Failures, Delay;
    var e := Event(now, StageCompleted(ctx.stage, ctx.cycle, passed));
    var t := At(c, ctx.stage, ctx.cycle);
    assert Apply(c, e).tracks == c.tracks[Key(ctx.stage, ctx.cycle) := Touch(t, e)];
  }

  lemma QualityEvent(rules: Rules, c: Control, active: bool, ctx: StageContext, passed: bool, signature: string, now: real)
    requires JustCompleted(rules, c, active, ctx, passed, now)
    requires rules.cfg.lowInfoStop && signature != "" ==>
               RunLength(c.qualityRun, ctx.stage, signature) + 1 < rules.cfg.lowInfoThreshold
    ensures var e := Event(now, QualityFailed(ctx.stage, ctx.cycle, signature));
            EventOK(rules, c, e) && JustCompleted(rules, Apply(c, e), active, ctx, passed, now)
  {
    hide Failures, Delay;
    var e := Event(now, QualityFailed(ctx.stage, ctx.cycle, signature));
    assert Apply(c, e).tracks == c.tracks;
  }

  /** Everything the gates of a tick establish before a stage starts. */
  predicate MayStart(rules: Rules, c: Control, ctx: StageContext, now: real) {
    var t := At(c, ctx.stage, ctx.cycle);
    && InTime(c, now) && c.steps < rules.cfg.maxSteps
    && InTurn(c, ctx.stage, ctx.cycle)
    && Failures(ctx.events, ctx.stage, ctx.cycle) == t.fails
    && ctx.maxRetries <= rules.retries
    && NotBeforeRetry(t, now)
    && (t.endedAt.Some? ==> t.endedAt.value < now)
    && (ctx.stage == Execute && rules.cfg.executePlan ==> PlanKnown(c))
    && (ctx.stage == Execute && rules.approval ==> ApprovedNow(c))
    && Childless(c)
  }

  lemma StartOK(rules: Rules, c: Control, ctx: StageContext, now: real)
    requires Steady(rules, c, true, []) && MayStart(rules, c, ctx, now)
    ensures EventOK(rules, c, Event(now, StageStarted(ctx.stage, ctx.cycle)))
  {
    hide Failures, Delay;
  }

  lemma StartTouches(c: Control, ctx: StageContext, now: real)
    requires ctx.cycle >= 1
    ensures var e := Event(now, StageStarted(ctx.stage, ctx.cycle));
            && Apply(c, e).tracks == c.tracks[Key(ctx.stage, ctx.cycle) := Touch(At(c, ctx.stage, ctx.cycle), e)]
            && At(Apply(c, e), ctx.stage, ctx.cycle) == Touch(At(c, ctx.stage, ctx.cycle), e)
            && (forall stage :: stage != ctx.stage ==> At(Apply(c, e), stage, ctx.cycle) == At(c, stage, ctx.cycle))
            && Apply(c, e).starts == c.starts + 1 && Apply(c, e).steps == c.steps
            && Apply(c, e).cycles == c.cycles && Apply(c, e).cycle == c.cycle && Apply(c, e).rejected == c.rejected
            && Apply(c, e).lastAt == Some(now)
  {
  }

  lemma StartInFlight(rules: Rules, c: Control, ctx: StageContext, now: real)
    requires Steady(rules, c, true, []) && MayStart(rules, c, ctx, now)
    ensures var after := Apply(c, Event(now, StageStarted(ctx.stage, ctx.cycle)));
            Bounded(rules, after, 1) && InFlight(rules, after, ctx)
  {
    hide Failures, Delay;
    StartTouches(c, ctx, now);
  }

  lemma StartProgresses(rules: Rules, c: Control, ctx: StageContext, now: real)
    requires Steady(rules, c, true, []) && MayStart(rules, c, ctx, now)
    ensures var after := Apply(c, Event(now, StageStarted(ctx.stage, ctx.cycle)));
            Progressing(rules, after, 1) && QuietExcept(rules, after, [ctx.stage])
  {
    hide Failures, Delay;
    StartTouches(c, ctx, now);
    hide Apply;
  }

  lemma StartEvent(rules: Rules, c: Control, ctx: StageContext, now: real)
    requires Steady(rules, c, true, []) && MayStart(rules, c, ctx, now)
    ensures var e := Event(now, StageStarted(ctx.stage, ctx.cycle));
            EventOK(rules, c, e) && Steady(rules, Apply(c, e), true, [ctx])
  {
    hide EventOK, Apply, MayStart, Bounded, InFlight, Progressing, QuietExcept;
    StartOK(rules, c, ctx, now);
    StartInFlight(rules, c, ctx, now);
    StartProgresses(rules, c, ctx, now);
  }

  lemma BootstrapEvents(rules: Rules, c: Control, at: real)
    requires ValidConfig(rules.cfg) && Steady(rules, c, true, []) && InTime(c, at) && c.cycles == 0
    ensures EventOK(rules, c, Event(at, Started))
    ensures var c1 := Apply(c, Event(at, Started));
            && EventOK(rules, c1, Event(at, CycleStarted(1)))
            && Steady(rules, Apply(c1, Event(at, CycleStarted(1))), true, [])
  {
    var c1 := Apply(c, Event(at, Started));
    assert Apply(c1, Event(at, CycleStarted(1))).tracks == c.tracks;
    assert c.tracks == map[];
  }

  // ---- every step keeps the invariant ----

  lemma WholeLog(log: Log, limit: int)
    requires |log| <= STORE_LIMIT <= limit
    ensures ListEvents(log, limit) == log
  {
    WindowExact(log, limit);
  }

  lemma PassiveKeepsInv(rules: Rules, st: TaskState, status: Status, at: real, body: Body)
    requires Inv(rules, st) && InTime(Fold(st.log), at) && Passive(body)
    requires st.pending != [] ==> !body.PlanCreated?
    requires Active(st.(status := status)) ==> Active(st) && (body.Approval? ==> body.approved)
    ensures Inv(rules, Append(st.(status := status), at, body))
    ensures Fold(Add(st.log, at, body)) == Apply(Fold(st.log), Event(at, body))
    ensures InTime(Fold(Add(st.log, at, body)), at)
  {
    hide Fold, Disciplined, Delay, Failures;
    PassiveEvent(rules, Fold(st.log), Active(st), Active(st.(status := status)), st.pending, Event(at, body));
    AddOK(rules, st.log, at, body);
  }

  lemma StopKeepsInv(rules: Rules, st: TaskState, status: Status, at: real, body: Body)
    requires ValidConfig(rules.cfg) && st.pending == [] && Disciplined(rules, st.log)
    requires Bounded(rules, Fold(st.log), 0) && InTime(Fold(st.log), at) && Passive(body)
    requires !Active(st.(status := status))
    ensures Inv(rules, Append(st.(status := status), at, body))
  {
    hide Fold, Disciplined, Delay, Failures;
    StopEvent(rules, Fold(st.log), Event(at, body));
    AddOK(rules, st.log, at, body);
  }

  lemma CycleKeepsInv(rules: Rules, st: TaskState, at: real)
    requires ValidConfig(rules.cfg) && st.pending == [] && Disciplined(rules, st.log)
    requires Bounded(rules, Fold(st.log), 0) && InTime(Fold(st.log), at)
    requires 1 <= Fold(st.log).cycles < rules.cfg.maxCycles
    requires Active(st) ==> !Fold(st.log).rejected && Fold(st.log).starts <= Fold(st.log).steps
    ensures Inv(rules, Append(st, at, CycleStarted(Fold(st.log).cycles + 1)))
  {
    hide Fold, Disciplined, Delay, Failures;
    CycleEvent(rules, Fold(st.log), Active(st), at);
    AddOK(rules, st.log, at, CycleStarted(Fold(st.log).cycles + 1));
  }

  /** A state right after `stage.failed` was appended. */
  ghost predicate Failing(rules: Rules, st: TaskState, ctx: StageContext, attempt: nat, now: real) {
    && ValidConfig(rules.cfg) && st.pending == [] && Disciplined(rules, st.log)
    && JustFailed(rules, Fold(st.log), Active(st), ctx, attempt, now) && ctx.maxRetries <= rules.retries
  }

  lemma RetryKeepsInv(rules: Rules, st: TaskState, ctx: StageContext, attempt: nat, now: real)
    requires Failing(rules, st, ctx, attempt, now) && attempt <= ctx.maxRetries
    ensures Inv(rules, Append(st, now, RetryScheduled(ctx.stage, ctx.cycle, attempt, now + Delay(rules.cfg, attempt))))
  {
    hide Fold, Disciplined, Delay, Failures;
    RetryEvent(rules, Fold(st.log), Active(st), ctx, attempt, now);
    AddOK(rules, st.log, now, RetryScheduled(ctx.stage, ctx.cycle, attempt, now + Delay(rules.cfg, attempt)));
  }

  lemma ReplanKeepsInv(rules: Rules, st: TaskState, ctx: StageContext, attempt: nat, now: real)
    requires Failing(rules, st, ctx, attempt, now) && ctx.cycle < rules.cfg.maxCycles
    ensures Inv(rules, Append(st, now, CycleStarted(ctx.cycle + 1)))
  {
    hide Fold, Disciplined, Delay, Failures, Apply, EventOK;
    CycleKeepsInv(rules, st, now);
  }

  lemma GiveUpKeepsInv(rules: Rules, st: TaskState, ctx: StageContext, attempt: nat, now: real)
    requires Failing(rules, st, ctx, attempt, now)
    ensures Inv(rules, Append(st.(status := Blocked), now, TaskFailed))
  {
    hide Fold, Disciplined, Delay, Failures, Apply, EventOK;
    StopKeepsInv(rules, st, Blocked, now, TaskFailed);
  }

  lemma AfterFailureKeepsInv(rules: Rules, st: TaskState, ctx: StageContext, attempt: nat, verdict: Verdict, now: real)
    requires Failing(rules, st, ctx, attempt, now) && attempt >= 1
    ensures Inv(rules, AfterFailure(rules.cfg, st, ctx, attempt, verdict, now))
  {
    hide Fold, Disciplined, Delay, Failures, Apply, EventOK;
    var result := AfterFailure(rules.cfg, st, ctx, attempt, verdict, now);
    if verdict.retryAllowed && attempt <= ctx.maxRetries {
      RetryKeepsInv(rules, st, ctx, attempt, now);
      assert result == Append(st, now, RetryScheduled(ctx.stage, ctx.cycle, attempt, now + Delay(rules.cfg, attempt)));
    } else if verdict.shouldReplan && ctx.cycle < rules.cfg.maxCycles {
      ReplanKeepsInv(rules, st, ctx, attempt, now);
      assert result == Append(st, now, CycleStarted(ctx.cycle + 1));
    } else {
      GiveUpKeepsInv(rules, st, ctx, attempt, now);
      assert result == Append(st.(status := Blocked), now, TaskFailed);
    }
  }

  lemma FailureKeepsInv(rules: Rules, st: TaskState, ctx: StageContext, raise: Raise, now: real)
    requires ValidConfig(rules.cfg) && st.pending == [] && Disciplined(rules, st.log)
    requires Open(rules, Fold(st.log), Active(st), ctx, now) && |st.log| <= STORE_LIMIT
    ensures Inv(rules, HandleStageFailure(rules.cfg, st, ctx, raise, now))
  {
    hide Fold, Disciplined, Delay, Failures, Apply, EventOK, ListEvents, FailureRun, LatestFailure, Judge;
    WholeLog(st.log, 200);
    RunsRefine(st.log, ctx.stage, raise.signature);
    var result := HandleStageFailure(rules.cfg, st, ctx, raise, now);
    var attempt := Failures(ctx.events, ctx.stage, ctx.cycle) + 1;
    var verdict := Classify(ListEvents(st.log, 300), ctx.cycle, raise.reason, rules.cfg.taxonomyV2);
    if rules.cfg.lowInfoStop && raise.signature != ""
       && FailureRun(st.log, ctx.stage, raise.signature) >= rules.cfg.lowInfoThreshold - 1 {
      StopKeepsInv(rules, st, Blocked, now, LowInfoStopped(ctx.stage, ctx.cycle));
      assert result == Append(st.(status := Blocked), now, LowInfoStopped(ctx.stage, ctx.cycle));
    } else {
      var body := StageFailed(ctx.stage, ctx.cycle, attempt, raise.signature);
      FailEvent(rules, Fold(st.log), Active(st), ctx, attempt, raise.signature, now);
      AddOK(rules, st.log, now, body);
      AfterFailureKeepsInv(rules, Append(st, now, body), ctx, attempt, verdict, now);
      assert result == AfterFailure(rules.cfg, Append(st, now, body), ctx, attempt, verdict, now);
    }
  }

  /** A state right after `stage.completed` was appended. */
  ghost predicate Judging(rules: Rules, st: TaskState, ctx: StageContext, passed: bool, now: real) {
    && ValidConfig(rules.cfg) && st.pending == [] && Disciplined(rules, st.log)
    && JustCompleted(rules, Fold(st.log), Active(st), ctx, passed, now)
  }

  lemma JudgedCycleKeepsInv(rules: Rules, st: TaskState, ctx: StageContext, now: real)
    requires Judging(rules, st, ctx, false, now) && ctx.cycle < rules.cfg.maxCycles
    ensures Inv(rules, Append(st, now, CycleStarted(ctx.cycle + 1)))
  {
    hide Fold, Disciplined, Delay, Failures, Apply, EventOK;
    CycleKeepsInv(rules, st, now);
  }

  lemma QualityKeepsJudging(rules: Rules, st: TaskState, ctx: StageContext, signature: string, now: real)
    requires Judging(rules, st, ctx, false, now)
    requires rules.cfg.lowInfoStop && signature != "" ==>
               RunLength(Fold(st.log).qualityRun, ctx.stage, signature) + 1 < rules.cfg.lowInfoThreshold
    ensures Judging(rules, Append(st, now, QualityFailed(ctx.stage, ctx.cycle, signature)), ctx, false, now)
  {
    hide Fold, Disciplined, Delay, Failures, Apply, EventOK;
    QualityEvent(rules, Fold(st.log), Active(st), ctx, false, signature, now);
    AddOK(rules, st.log, now, QualityFailed(ctx.stage, ctx.cycle, signature));
  }

  lemma JudgedStopKeepsInv(rules: Rules, st: TaskState, ctx: StageContext, now: real, body: Body)
    requires Judging(rules, st, ctx, false, now) && Passive(body)
    ensures Inv(rules, Append(st.(status := Blocked), now, body))
  {
    hide Fold, Disciplined, Delay, Failures, Apply, EventOK;
    StopKeepsInv(rules, st, Blocked, now, body);
  }

  lemma QualityFailureKeepsInv(rules: Rules, st: TaskState, ctx: StageContext, out: Output, now: real)
    requires Judging(rules, st, ctx, false, now) && |st.log| <= STORE_LIMIT
    ensures Inv(rules, HandleQualityFailure(rules.cfg, st, ctx, out, now))
  {
    hide Fold, Disciplined, Delay, Failures, Apply, EventOK, Inv, Judging, ListEvents, QualityRun, Steady;
    WholeLog(st.log, 200);
    RunsRefine(st.log, ctx.stage, out.signature);
    var result := HandleQualityFailure(rules.cfg, st, ctx, out, now);
    if rules.cfg.lowInfoStop && out.signature != ""
       && QualityRun(st.log, ctx.stage, out.signature) >= rules.cfg.lowInfoThreshold - 1 {
      JudgedStopKeepsInv(rules, st, ctx, now, LowInfoStopped(ctx.stage, ctx.cycle));
      assert result == Append(st.(status := Blocked), now, LowInfoStopped(ctx.stage, ctx.cycle));
    } else if ctx.cycle >= rules.cfg.maxCycles {
      JudgedStopKeepsInv(rules, st, ctx, now, TaskFailed);
      assert result == Append(st.(status := Blocked), now, TaskFailed);
    } else {
      var failed := Append(st, now, QualityFailed(ctx.stage, ctx.cycle, out.signature));
      QualityKeepsJudging(rules, st, ctx, out.signature, now);
      JudgedCycleKeepsInv(rules, failed, ctx, now);
      assert result == Append(failed, now, CycleStarted(ctx.cycle + 1));
    }
  }

  lemma FinalizeKeepsInv(rules: Rules, st: TaskState, at: real)
    requires ValidConfig(rules.cfg) && st.pending == [] && Disciplined(rules, st.log)
    requires Bounded(rules, Fold(st.log), 0) && InTime(Fold(st.log), at)
    ensures Inv(rules, Finalize(st, at))
  {
    hide Fold, Disciplined, Delay, Failures, Apply, EventOK;
    StopKeepsInv(rules, st, Status.Completed, at, TaskCompleted);
  }

  lemma SuccessKeepsInv(rules: Rules, st: TaskState, ctx: StageContext, out: Output, now: real)
    requires Judging(rules, st, ctx, true, now) && ctx.stage != Review
    ensures Inv(rules, HandleSuccess(rules.cfg, st, ctx, out, now))
  {
    hide Fold, Disciplined, Delay, Failures, Apply, EventOK;
    assert Inv(rules, st);
    if ctx.stage == Plan {
      var planned := PersistPlan(rules.cfg, st, ctx, out, now);
      PassiveKeepsInv(rules, st, st.status, now, PlanCreated(ctx.cycle, out.concrete));
      assert Inv(rules, planned) && planned.pending == [] && InTime(Fold(planned.log), now);
      PassiveKeepsInv(rules, planned, planned.status, now, SubtasksSpawned(out.spawned));
    } else {
      PassiveKeepsInv(rules, st, st.status, now, RecommendedImprovement);
    }
  }

  lemma OutputKeepsInv(rules: Rules, st: TaskState, ctx: StageContext, out: Output, now: real)
    requires ValidConfig(rules.cfg) && st.pending == [] && Disciplined(rules, st.log)
    requires Open(rules, Fold(st.log), Active(st), ctx, now) && |st.log| < STORE_LIMIT
    requires Realistic(out.text) && Running(At(Fold(st.log), ctx.stage, ctx.cycle))
    ensures Inv(rules, HandleOutput(rules.cfg, st, ctx, out, now))
  {
    hide Fold, Disciplined, Delay, Failures, Apply, EventOK;
    var passed := Accepted(rules.cfg, ctx.stage, out);
    var body := StageCompleted(ctx.stage, ctx.cycle, passed);
    CompleteEvent(rules, Fold(st.log), Active(st), ctx, passed, now);
    AddOK(rules, st.log, now, body);
    var done := Append(st, now, body);
    if !passed {
      QualityFailureKeepsInv(rules, done, ctx, out, now);
    } else if ctx.stage == Review {
      PassedReviewKeepsKeyword(DemandsOf(rules.cfg, out), out.text, out.localEcho);
      FinalizeKeepsInv(rules, done, now);
    } else {
      SuccessKeepsInv(rules, done, ctx, out, now);
    }
  }

  // ---- the steps ----

  lemma SettleKeepsInv(rules: Rules, st: TaskState, index: nat, outcome: Outcome, now: real)
    requires Inv(rules, st) && Enabled(st, SettleStep(index, outcome, now)) && |st.log| < STORE_LIMIT
    ensures Inv(rules, Settle(rules.cfg, st, index, outcome, now))
  {
    hide Fold, Disciplined, Delay, Failures, Apply, EventOK;
    LastAtRefines(st.log);
    var ctx := st.pending[index];
    var rest := st.(pending := st.pending[..index] + st.pending[index + 1..]);
    assert index == 0 && rest.pending == [];
    match outcome {
      case Raised(raise) => FailureKeepsInv(rules, rest, ctx, raise, now);
      case Finished(out) => OutputKeepsInv(rules, rest, ctx, out, now);
    }
  }

  lemma LastAtRefines(log: Log)
    ensures Fold(log).lastAt == if log == [] then None else Some(Last(log).at)
  {
  }

  lemma ApprovalKeepsInv(rules: Rules, st: TaskState, approved: bool, now: real)
    requires Inv(rules, st) && InTime(Fold(st.log), now)
    ensures Inv(rules, SetApproval(st, approved, now))
  {
    hide Fold, Disciplined, Delay, Failures, Apply, EventOK;
    if approved {
      PassiveKeepsInv(rules, st, st.status, now, Approval(true));
    } else {
      var recorded := Append(st.(status := Blocked), now, Approval(false));
      PassiveKeepsInv(rules, st, Blocked, now, Approval(false));
      PassiveKeepsInv(rules, recorded, Blocked, now, TaskFailed);
      assert SetApproval(st, approved, now) == Append(recorded, now, TaskFailed);
    }
  }
}
