/** What one task's engine does: each atomic step as a function from state to state.
    A tick of the source is two steps here: the gates up to `stage.started`, and the settling of
    the stage run, so that other ticks and approvals can fall between them. */
module Engine {
  import opened EventLog
  import opened TaskGate
  import opened QualityGate
  import opened FailureHandler

  // ---- configuration ----

  datatype Config = Config(
    maxCycles: int, maxSteps: int, retryBase: real, lowInfoStop: bool, lowInfoThreshold: int,
    executePlan: bool, taxonomyV2: bool, minPlan: nat, minExecute: nat, minReview: nat, keywordSet: bool)

  /** The bounds that the service's constructor enforces on its settings. */
  predicate ValidConfig(cfg: Config) {
    && cfg.maxCycles >= 1 && cfg.maxSteps >= 1 && cfg.retryBase >= 0.1 && cfg.lowInfoThreshold >= 2
    && cfg.minPlan >= 20 && cfg.minExecute >= 40 && cfg.minReview >= 20
  }

  function RealMax(a: real, b: real): real { if a >= b then a else b }

  /** The settings as an operator writes them. */
  datatype Settings = Settings(
    maxCycles: int, maxSteps: int, retryBase: real, lowInfoStop: bool, lowInfoThreshold: int,
    executePlan: bool, taxonomyV2: bool, minPlan: int, minExecute: int, minReview: int, keywordSet: bool)

  predicate WithinBounds(s: Settings) {
    && s.maxCycles >= 1 && s.maxSteps >= 1 && s.retryBase >= 0.1 && s.lowInfoThreshold >= 2
    && s.minPlan >= 20 && s.minExecute >= 40 && s.minReview >= 20
  }

  function Clamp(s: Settings): (cfg: Config)
    ensures ValidConfig(cfg)
    ensures WithinBounds(s) <==>
              && cfg.maxCycles == s.maxCycles && cfg.maxSteps == s.maxSteps && cfg.retryBase == s.retryBase
              && cfg.lowInfoThreshold == s.lowInfoThreshold
              && cfg.minPlan == s.minPlan && cfg.minExecute == s.minExecute && cfg.minReview == s.minReview
    ensures cfg.lowInfoStop == s.lowInfoStop && cfg.executePlan == s.executePlan
    ensures cfg.taxonomyV2 == s.taxonomyV2 && cfg.keywordSet == s.keywordSet
  {
    Config(Max(s.maxCycles, 1), Max(s.maxSteps, 1), RealMax(s.retryBase, 0.1), s.lowInfoStop,
           Max(s.lowInfoThreshold, 2), s.executePlan, s.taxonomyV2,
           Max(s.minPlan, 20), Max(s.minExecute, 40), Max(s.minReview, 20), s.keywordSet)
  }

  // ---- state ----

  datatype TaskType = Analysis | Implementation | ReviewType | Integration | OtherType

  /** The fixed attributes of a task: its type, its parent if it was spawned, whether it fans out, and
      the preference for the number of children (None when absent or unreadable). */
  datatype Info = Info(taskType: TaskType, parent: Option<TaskId>, autoSpawn: bool, spawnCount: Option<int>)

  /** A stage run between `stage.started` and its outcome; `events` is the log as the tick read it. */
  datatype StageContext = StageContext(stage: Stage, cycle: int, maxRetries: nat, events: Log)

  datatype TaskState = TaskState(info: Info, log: Log, status: Status, pending: seq<StageContext>)

  predicate Active(st: TaskState) {
    st.status == New || st.status == InProgress
  }

  function Fresh(info: Info): TaskState {
    TaskState(info, [], New, [])
  }

  function Append(st: TaskState, at: real, body: Body): TaskState {
    st.(log := Add(st.log, at, body))
  }

  function Block(st: TaskState, at: real): TaskState {
    Append(st.(status := Blocked), at, TaskFailed)
  }

  // ---- children ----

  datatype ChildGate = NoChildren | AwaitingChildren | ChildrenFailed | AllChildrenDone

  predicate HasStatus(children: map<TaskId, Status>, id: TaskId, status: Status) {
    id in children && children[id] == status
  }

  /** `children` are the statuses of the tasks the store knows. */
  function ChildGateOf(events: Log, children: map<TaskId, Status>): ChildGate {
    match Latest(events, KSubtasksSpawned)
    case Some(Event(_, SubtasksSpawned(ids))) =>
      if ids == [] then NoChildren
      else if exists i :: 0 <= i < |ids| && HasStatus(children, ids[i], Blocked) then ChildrenFailed
      else if forall i :: 0 <= i < |ids| ==> HasStatus(children, ids[i], Status.Completed) then AllChildrenDone
      else AwaitingChildren
    case _ => NoChildren
  }

  // ---- completion ----

  function Finalize(st: TaskState, at: real): TaskState {
    var done := st.(status := Status.Completed);
    if Latest(ListEvents(st.log, 500), KTaskCompleted).Some? then done else Append(done, at, TaskCompleted)
  }

  // ---- the tick: every gate, then `stage.started` ----

  datatype SiblingState = NotBound | SiblingReady | SiblingWaiting | SiblingBlocked

  /** A raised failure: what its text mentions and the digest that identifies it. */
  datatype Raise = Raise(reason: Reason, signature: string)

  /** The environment of one tick.  `early` is an exception raised before `stage.started`. */
  datatype TickInput = TickInput(
    now: real, requiresApproval: bool, maxRetries: nat,
    children: map<TaskId, Status>, sibling: SiblingState, early: Option<Raise>)

  datatype TickResult =
    | SkippedCompleted | AlreadyBlocked | AwaitingChildTasks | ChildTaskFailed | ChildTasksCompleted
    | BudgetExhausted | AllStagesDone | AwaitingApproval | ApprovalRejected | WaitingRetry
    | SiblingFailed | AwaitingSibling | PlanMissingBlocked | PlanMissingReplan | AlreadyRunning
    | StageBegan | StageRaised

  /** Results after which the task waits for something else to happen. */
  predicate Waiting(r: TickResult) {
    r in {SkippedCompleted, AlreadyBlocked, AwaitingChildTasks, AwaitingApproval, WaitingRetry,
          AwaitingSibling, AlreadyRunning}
  }

  function Bootstrap(st: TaskState, at: real): TaskState {
    if Latest(ListEvents(st.log, 500), KStarted).Some? then st
    else Append(Append(st, at, Started), at, CycleStarted(1))
  }

  function BootstrapCycle(st: TaskState): int {
    var events := ListEvents(st.log, 500);
    if Latest(events, KStarted).Some? then CurrentCycle(events) else 1
  }

  function Tick(cfg: Config, st: TaskState, inp: TickInput): (TaskState, TickResult) {
    if st.status == Status.Completed then (st, SkippedCompleted)
    else if st.status == Blocked then (st, AlreadyBlocked)
    else
      var events := ListEvents(st.log, 500);
      match ChildGateOf(events, inp.children)
      case AwaitingChildren => (st, AwaitingChildTasks)
      case ChildrenFailed => (Block(st, inp.now), ChildTaskFailed)
      case AllChildrenDone => (Finalize(RecordChildren(st, inp.now), inp.now), ChildTasksCompleted)
      case NoChildren =>
        if StepCount(events) >= cfg.maxSteps then (Block(st, inp.now), BudgetExhausted)
        else
          var begun := Bootstrap(st.(status := InProgress), inp.now);
          var cycle := BootstrapCycle(st);
          match NextStage(ListEvents(begun.log, 500), cycle)
          case None => (Finalize(begun, inp.now), AllStagesDone)
          case Some(stage) => ApprovalGate(cfg, begun, inp, stage, cycle)
  }

  function RecordChildren(st: TaskState, at: real): TaskState {
    if Latest(ListEvents(st.log, 500), KChildrenCompleted).Some? then st else Append(st, at, Body.ChildrenCompleted)
  }

  datatype ApprovalState = NotRequired | Awaiting | Approved | Rejected

  function ApprovalGateState(events: Log, stage: Stage, requiresApproval: bool): ApprovalState {
    if !requiresApproval || stage != Execute then NotRequired
    else
      match Latest(events, KApproval)
      case Some(Event(_, Approval(approved))) => if approved then Approved else Rejected
      case _ => Awaiting
  }

  function ApprovalGate(cfg: Config, st: TaskState, inp: TickInput, stage: Stage, cycle: int): (TaskState, TickResult) {
    var events := ListEvents(st.log, 500);
    match ApprovalGateState(events, stage, inp.requiresApproval)
    case Awaiting =>
      (if Latest(events, KApprovalRequested).Some? then st else Append(st, inp.now, ApprovalRequested), AwaitingApproval)
    case Rejected => (Block(st, inp.now), ApprovalRejected)
    case _ =>
      var retry := RetryEpoch(events, stage, cycle);
      if retry.Some? && inp.now < retry.value then (st, WaitingRetry)
      else SiblingGate(cfg, st, inp, stage, cycle)
  }

  function SiblingGate(cfg: Config, st: TaskState, inp: TickInput, stage: Stage, cycle: int): (TaskState, TickResult) {
    if stage == Execute && st.info.taskType == Implementation && st.info.parent.Some? && inp.sibling == SiblingBlocked
    then (Block(st, inp.now), SiblingFailed)
    else if stage == Execute && st.info.taskType == Implementation && st.info.parent.Some?
            && inp.sibling == SiblingWaiting
    then (st, AwaitingSibling)
    else PlanGate(cfg, st, inp, stage, cycle)
  }

  predicate ConcretePlan(events: Log) {
    match Latest(events, KPlanCreated)
    case Some(Event(_, PlanCreated(_, concrete))) => concrete
    case _ => false
  }

  function PlanGate(cfg: Config, st: TaskState, inp: TickInput, stage: Stage, cycle: int): (TaskState, TickResult) {
    if stage != Execute || !cfg.executePlan || ConcretePlan(ListEvents(st.log, 300))
    then BeginStage(cfg, st, inp, stage, cycle)
    else if cycle >= cfg.maxCycles
    then (Append(st.(status := Blocked), inp.now, PlanBlocked(cycle)), PlanMissingBlocked)
    else (Append(Append(st, inp.now, PlanMissing(cycle)), inp.now, CycleStarted(cycle + 1)), PlanMissingReplan)
  }

  function BeginStage(cfg: Config, st: TaskState, inp: TickInput, stage: Stage, cycle: int): (TaskState, TickResult) {
    var events := ListEvents(st.log, 500);
    var context := StageContext(stage, cycle, inp.maxRetries, events);
    if Inflight(events, stage, cycle) then (st, AlreadyRunning)
    else
      match inp.early
      case Some(raise) => (HandleStageFailure(cfg, st, context, raise, inp.now), StageRaised)
      case None => (Append(st, inp.now, StageStarted(stage, cycle)).(pending := st.pending + [context]), StageBegan)
  }

  // ---- settling a stage run ----

  function Pow2(n: nat): (p: nat)
    ensures p >= 1
  {
    if n == 0 then 1 else 2 * Pow2(n - 1)
  }

  function Delay(cfg: Config, attempt: nat): real
    requires attempt >= 1
  {
    cfg.retryBase * Pow2(attempt - 1) as real
  }

  function HandleStageFailure(cfg: Config, st: TaskState, ctx: StageContext, raise: Raise, now: real): TaskState {
    var attempt := Failures(ctx.events, ctx.stage, ctx.cycle) + 1;
    var verdict := Classify(ListEvents(st.log, 300), ctx.cycle, raise.reason, cfg.taxonomyV2);
    if cfg.lowInfoStop && raise.signature != ""
       && FailureRun(ListEvents(st.log, 200), ctx.stage, raise.signature) >= cfg.lowInfoThreshold - 1
    then Append(st.(status := Blocked), now, LowInfoStopped(ctx.stage, ctx.cycle))
    else
      AfterFailure(cfg, Append(st, now, StageFailed(ctx.stage, ctx.cycle, attempt, raise.signature)),
                   ctx, attempt, verdict, now)
  }

  /** Retry in place, start the next cycle, or give up. */
  function AfterFailure(cfg: Config, st: TaskState, ctx: StageContext, attempt: nat, verdict: Verdict, now: real): TaskState
    requires attempt >= 1
  {
    if verdict.retryAllowed && attempt <= ctx.maxRetries
    then Append(st, now, RetryScheduled(ctx.stage, ctx.cycle, attempt, now + Delay(cfg, attempt)))
    else if verdict.shouldReplan && ctx.cycle < cfg.maxCycles
    then Append(st, now, CycleStarted(ctx.cycle + 1))
    else Block(st, now)
  }

  /** A finished run.  `text` is what the gates see in the output, `signature` the digest of a
      quality failure, `concrete` whether the plan built from the output reads back as concrete,
      `recommends` whether a recommendation is extracted, `spawned` the ids of the tasks that a
      fan-out would create. */
  datatype Output = Output(
    text: Text, localEcho: bool, enforceSdlc: bool, raiseVerification: bool,
    signature: string, concrete: bool, recommends: bool, spawned: seq<TaskId>)

  datatype Outcome = Raised(raise: Raise) | Finished(output: Output)

  function DemandsOf(cfg: Config, out: Output): Demands {
    Demands(cfg.minPlan, cfg.minExecute, cfg.minReview, cfg.keywordSet, out.enforceSdlc, out.raiseVerification)
  }

  /** The quality verdict after the local-echo relaxation. */
  predicate Accepted(cfg: Config, stage: Stage, out: Output) {
    Passes(DemandsOf(cfg, out), stage, out.text) || (out.localEcho && stage != Plan)
  }

  function Settle(cfg: Config, st: TaskState, index: nat, outcome: Outcome, now: real): TaskState
    requires index < |st.pending|
  {
    var ctx := st.pending[index];
    var rest := st.(pending := st.pending[..index] + st.pending[index + 1..]);
    match outcome
    case Raised(raise) => HandleStageFailure(cfg, rest, ctx, raise, now)
    case Finished(out) => HandleOutput(cfg, rest, ctx, out, now)
  }

  function HandleOutput(cfg: Config, st: TaskState, ctx: StageContext, out: Output, now: real): TaskState {
    var passed := Accepted(cfg, ctx.stage, out);
    var done := Append(st, now, StageCompleted(ctx.stage, ctx.cycle, passed));
    if !passed then HandleQualityFailure(cfg, done, ctx, out, now)
    else if ctx.stage == Review then HandleReview(cfg, done, ctx, out, now)
    else HandleSuccess(cfg, done, ctx, out, now)
  }

  function HandleQualityFailure(cfg: Config, st: TaskState, ctx: StageContext, out: Output, now: real): TaskState {
    if cfg.lowInfoStop && out.signature != ""
       && QualityRun(ListEvents(st.log, 200), ctx.stage, out.signature) >= cfg.lowInfoThreshold - 1
    then Append(st.(status := Blocked), now, LowInfoStopped(ctx.stage, ctx.cycle))
    else if ctx.cycle >= cfg.maxCycles then Block(st, now)
    else
      Append(Append(st, now, QualityFailed(ctx.stage, ctx.cycle, out.signature)), now, CycleStarted(ctx.cycle + 1))
  }

  function HandleReview(cfg: Config, st: TaskState, ctx: StageContext, out: Output, now: real): TaskState {
    if !ReviewFails(DemandsOf(cfg, out), out.text, out.localEcho) then Finalize(st, now)
    else if ctx.cycle >= cfg.maxCycles then Block(st, now)
    else Append(Append(st, now, ReviewFailed(ctx.cycle)), now, CycleStarted(ctx.cycle + 1))
  }

  function HandleSuccess(cfg: Config, st: TaskState, ctx: StageContext, out: Output, now: real): TaskState {
    if ctx.stage == Plan then Spawn(PersistPlan(cfg, st, ctx, out, now), out, now)
    else PersistRecommendation(st, ctx, out, now)
  }

  function PersistPlan(cfg: Config, st: TaskState, ctx: StageContext, out: Output, now: real): TaskState {
    if !cfg.executePlan then st
    else
      match Latest(ListEvents(st.log, 300), KPlanCreated)
      case Some(Event(_, PlanCreated(cycle, _))) =>
        if Effective(cycle) == ctx.cycle then st else Append(st, now, PlanCreated(ctx.cycle, out.concrete))
      case _ => Append(st, now, PlanCreated(ctx.cycle, out.concrete))
  }

  function Spawn(st: TaskState, out: Output, now: real): TaskState {
    if !st.info.autoSpawn || Latest(ListEvents(st.log, 500), KSubtasksSpawned).Some? then st
    else Append(st, now, SubtasksSpawned(out.spawned))
  }

  function PersistRecommendation(st: TaskState, ctx: StageContext, out: Output, now: real): TaskState {
    if && ctx.stage == Execute && st.info.parent.Some? && st.info.taskType == Analysis && out.recommends
       && Latest(ListEvents(st.log, 200), KRecommendedImprovement).None?
    then Append(st, now, RecommendedImprovement)
    else st
  }

  // ---- operator approval ----

  function SetApproval(st: TaskState, approved: bool, now: real): TaskState {
    var recorded := Append(st, now, Approval(approved));
    if approved then recorded else Block(recorded, now)
  }
}
