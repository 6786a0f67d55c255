/** The engine of one task as the source runs it: an object that scans its log, appends events and
    updates the status, each method proved against the step functions of Engine. */
module AutonomyService {
  import opened EventLog
  import opened TaskGate
  import opened QualityGate
  import opened FailureHandler
  import opened Engine

  class TaskEngine {
    const cfg: Config
    const info: Info
    var log: Log
    var status: Status
    var pending: seq<StageContext>

    constructor (settings: Settings, info: Info)
      ensures ValidConfig(cfg) && cfg == Clamp(settings)
      ensures this.info == info && State() == Fresh(info)
    {
      cfg := Clamp(settings);
      this.info := info;
      log := [];
      status := New;
      pending := [];
    }

    function State(): TaskState
      reads this
    {
      TaskState(info, log, status, pending)
    }

    method SaveEvent(at: real, body: Body)
      modifies this`log
      ensures State() == Append(old(State()), at, body)
    {
      log := log + [Event(at, body)];
    }

    method BlockTask(now: real)
      modifies this`log, this`status
      ensures State() == Block(old(State()), now)
    {
      status := Blocked;
      SaveEvent(now, TaskFailed);
    }

    method FinalizeTask(now: real)
      modifies this`log, this`status
      ensures State() == Finalize(old(State()), now)
    {
      if status != Status.Completed {
        status := Status.Completed;
      }
      var events := ListProjectEvents(log, 500);
      var done := LatestEvent(events, KTaskCompleted);
      if done == None {
        SaveEvent(now, TaskCompleted);
      }
    }

    method CountChildren(ids: seq<TaskId>, children: map<TaskId, Status>)
      returns (completed: nat, blocked: seq<TaskId>, active: nat)
      ensures blocked != [] <==> exists i :: 0 <= i < |ids| && HasStatus(children, ids[i], Blocked)
      ensures completed <= |ids|
      ensures completed == |ids| <==> forall i :: 0 <= i < |ids| ==> HasStatus(children, ids[i], Status.Completed)
    {
      completed, blocked, active := 0, [], 0;
      for k := 0 to |ids|
        invariant blocked != [] <==> exists i :: 0 <= i < k && HasStatus(children, ids[i], Blocked)
        invariant completed <= k
        invariant completed == k <==> forall i :: 0 <= i < k ==> HasStatus(children, ids[i], Status.Completed)
      {
        if ids[k] !in children {
          continue;
        }
        if children[ids[k]] == Status.Completed {
          completed := completed + 1;
        } else if children[ids[k]] == Blocked {
          blocked := blocked + [ids[k]];
        } else {
          active := active + 1;
        }
      }
    }

    method ChildGateStatus(events: Log, children: map<TaskId, Status>, now: real) returns (gate: ChildGate)
      requires events == ListEvents(log, 500)
      modifies this`log
      ensures gate == ChildGateOf(events, children)
      ensures State() == if gate.AllChildrenDone? then RecordChildren(old(State()), now) else old(State())
    {
      var spawned := LatestEvent(events, KSubtasksSpawned);
      if spawned == None {
        return NoChildren;
      }
      LatestKind(events, KSubtasksSpawned);
      var ids := spawned.value.body.children;
      if ids == [] {
        return NoChildren;
      }
      var completed, blocked, _ := CountChildren(ids, children);
      if blocked != [] {
        return ChildrenFailed;
      }
      if completed >= |ids| {
        var recorded := LatestEvent(events, KChildrenCompleted);
        if recorded == None {
          SaveEvent(now, Body.ChildrenCompleted);
        }
        return AllChildrenDone;
      }
      return AwaitingChildren;
    }

    method BootstrapIfNeeded(events: Log, now: real) returns (cycle: int)
      requires events == ListEvents(log, 500)
      modifies this`log
      ensures State() == Bootstrap(old(State()), now) && cycle == BootstrapCycle(old(State()))
    {
      var started := LatestEvent(events, KStarted);
      if started != None {
        cycle := ScanCurrentCycle(events);
        return;
      }
      SaveEvent(now, Started);
      SaveEvent(now, CycleStarted(1));
      return 1;
    }

    method ScanApproval(events: Log, stage: Stage, requiresApproval: bool) returns (gate: ApprovalState)
      ensures gate == ApprovalGateState(events, stage, requiresApproval)
    {
      if !requiresApproval || stage != Execute {
        return NotRequired;
      }
      var approval := LatestEvent(events, KApproval);
      if approval == None {
        return Awaiting;
      }
      LatestKind(events, KApproval);
      return if approval.value.body.approved then Approved else Rejected;
    }

    method EnsureApprovalRequested(events: Log, now: real)
      modifies this`log
      ensures State() == if Latest(events, KApprovalRequested).Some? then old(State())
                         else Append(old(State()), now, ApprovalRequested)
    {
      var requested := LatestEvent(events, KApprovalRequested);
      if requested != None {
        return;
      }
      SaveEvent(now, ApprovalRequested);
    }

    method ScanPlan() returns (concrete: bool)
      ensures concrete == ConcretePlan(ListEvents(log, 300))
    {
      var events := ListProjectEvents(log, 300);
      var plan := LatestEvent(events, KPlanCreated);
      if plan == None {
        return false;
      }
      LatestKind(events, KPlanCreated);
      return plan.value.body.concrete;
    }

    /** The last gate and the start of the stage. */
    method StartStage(inp: TickInput, stage: Stage, cycle: int) returns (result: TickResult)
      modifies this
      ensures (State(), result) == BeginStage(cfg, old(State()), inp, stage, cycle)
    {
      var events := ListProjectEvents(log, 500);
      var running := StageInflight(events, stage, cycle);
      if running {
        return AlreadyRunning;
      }
      var context := StageContext(stage, cycle, inp.maxRetries, events);
      if inp.early.Some? {
        StageFailure(context, inp.early.value, inp.now);
        return StageRaised;
      }
      SaveEvent(inp.now, StageStarted(stage, cycle));
      pending := pending + [context];
      return StageBegan;
    }

    method ExecutePlanGate(inp: TickInput, stage: Stage, cycle: int) returns (result: TickResult)
      modifies this
      ensures (State(), result) == PlanGate(cfg, old(State()), inp, stage, cycle)
    {
      if stage == Execute && cfg.executePlan {
        var concrete := ScanPlan();
        if !concrete {
          if cycle >= cfg.maxCycles {
            status := Blocked;
            SaveEvent(inp.now, PlanBlocked(cycle));
            return PlanMissingBlocked;
          }
          SaveEvent(inp.now, PlanMissing(cycle));
          SaveEvent(inp.now, CycleStarted(cycle + 1));
          return PlanMissingReplan;
        }
      }
      result := StartStage(inp, stage, cycle);
    }

    method RecommendationGate(inp: TickInput, stage: Stage, cycle: int) returns (result: TickResult)
      modifies this
      ensures (State(), result) == SiblingGate(cfg, old(State()), inp, stage, cycle)
    {
      if stage == Execute && info.taskType == Implementation && info.parent.Some? {
        if inp.sibling == SiblingBlocked {
          BlockTask(inp.now);
          return SiblingFailed;
        }
        if inp.sibling == SiblingWaiting {
          return AwaitingSibling;
        }
      }
      result := ExecutePlanGate(inp, stage, cycle);
    }

    method StageGates(inp: TickInput, stage: Stage, cycle: int) returns (result: TickResult)
      modifies this
      ensures (State(), result) == ApprovalGate(cfg, old(State()), inp, stage, cycle)
    {
      hide SiblingGate, Latest, RetryEpoch, ListEvents;
      var events := ListProjectEvents(log, 500);
      var approval := ScanApproval(events, stage, inp.requiresApproval);
      if approval == Awaiting {
        EnsureApprovalRequested(events, inp.now);
        return AwaitingApproval;
      }
      if approval == Rejected {
        BlockTask(inp.now);
        return ApprovalRejected;
      }
      var retry := ScheduledRetryEpoch(events, stage, cycle);
      if retry.Some? && inp.now < retry.value {
        return WaitingRetry;
      }
      result := RecommendationGate(inp, stage, cycle);
    }

    /** One tick, up to and including `stage.started`. */
    method ProcessTask(inp: TickInput) returns (result: TickResult)
      modifies this
      ensures (State(), result) == Tick(cfg, old(State()), inp)
    {
      hide ApprovalGate, Latest, StepCount, NextStage, ListEvents, ChildGateOf, CurrentCycle;
      if status == Status.Completed {
        return SkippedCompleted;
      }
      if status == Blocked {
        return AlreadyBlocked;
      }
      var events := ListProjectEvents(log, 500);
      var gate := ChildGateStatus(events, inp.children, inp.now);
      if gate == AwaitingChildren {
        return AwaitingChildTasks;
      }
      if gate == ChildrenFailed {
        BlockTask(inp.now);
        return ChildTaskFailed;
      }
      if gate == AllChildrenDone {
        FinalizeTask(inp.now);
        return ChildTasksCompleted;
      }
      var total := TotalStepEvents(events);
      if total >= cfg.maxSteps {
        BlockTask(inp.now);
        return BudgetExhausted;
      }
      status := InProgress;
      var cycle := BootstrapIfNeeded(events, inp.now);
      events := ListProjectEvents(log, 500);
      var next := ScanNextStage(events, cycle);
      if next == None {
        FinalizeTask(inp.now);
        return AllStagesDone;
      }
      result := StageGates(inp, next.value, cycle);
    }

    // ---- outcomes ----

    method StageFailure(ctx: StageContext, raise: Raise, now: real)
      modifies this`log, this`status
      ensures State() == HandleStageFailure(cfg, old(State()), ctx, raise, now)
    {
      hide Classify, Failures, FailureRun, ListEvents, Delay;
      var count := FailedAttempts(ctx.events, ctx.stage, ctx.cycle);
      var attempt := count + 1;
      var recent := ListProjectEvents(log, 300);
      var verdict := ClassifyFailure(recent, ctx.cycle, raise.reason, cfg.taxonomyV2);
      var newest := ListProjectEvents(log, 200);
      var repeated := IsLowInformationFailure(newest, ctx.stage, raise.signature, Max(cfg.lowInfoThreshold, 0));
      if cfg.lowInfoStop && repeated {
        status := Blocked;
        SaveEvent(now, LowInfoStopped(ctx.stage, ctx.cycle));
        return;
      }
      SaveEvent(now, StageFailed(ctx.stage, ctx.cycle, attempt, raise.signature));
      if verdict.retryAllowed && attempt <= ctx.maxRetries {
        SaveEvent(now, RetryScheduled(ctx.stage, ctx.cycle, attempt, now + Delay(cfg, attempt)));
        return;
      }
      if verdict.shouldReplan && ctx.cycle < cfg.maxCycles {
        SaveEvent(now, CycleStarted(ctx.cycle + 1));
        return;
      }
      BlockTask(now);
    }

    method QualityOutcome(ctx: StageContext, out: Output, now: real)
      modifies this`log, this`status
      ensures State() == HandleQualityFailure(cfg, old(State()), ctx, out, now)
    {
      hide QualityRun, ListEvents;
      var newest := ListProjectEvents(log, 200);
      var repeated := IsLowInformationQualityFailure(newest, ctx.stage, out.signature, Max(cfg.lowInfoThreshold, 0));
      if cfg.lowInfoStop && repeated {
        status := Blocked;
        SaveEvent(now, LowInfoStopped(ctx.stage, ctx.cycle));
        return;
      }
      if ctx.cycle >= cfg.maxCycles {
        BlockTask(now);
        return;
      }
      SaveEvent(now, QualityFailed(ctx.stage, ctx.cycle, out.signature));
      SaveEvent(now, CycleStarted(ctx.cycle + 1));
    }

    method ReviewOutcome(ctx: StageContext, out: Output, now: real)
      modifies this`log, this`status
      ensures State() == HandleReview(cfg, old(State()), ctx, out, now)
    {
      var reviewFailed := cfg.keywordSet && !out.text.keywordInOutput;
      if out.localEcho {
        reviewFailed := false;
      }
      if !reviewFailed {
        FinalizeTask(now);
        return;
      }
      if ctx.cycle >= cfg.maxCycles {
        BlockTask(now);
        return;
      }
      SaveEvent(now, ReviewFailed(ctx.cycle));
      SaveEvent(now, CycleStarted(ctx.cycle + 1));
    }

    method PersistExecutePlan(ctx: StageContext, out: Output, now: real)
      modifies this`log
      ensures State() == PersistPlan(cfg, old(State()), ctx, out, now)
    {
      if !cfg.executePlan {
        return;
      }
      var events := ListProjectEvents(log, 300);
      var existing := LatestEvent(events, KPlanCreated);
      LatestKind(events, KPlanCreated);
      if existing != None && Effective(existing.value.body.cycle) == ctx.cycle {
        return;
      }
      SaveEvent(now, PlanCreated(ctx.cycle, out.concrete));
    }

    method SpawnSubtasksOnce(out: Output, now: real)
      modifies this`log
      ensures State() == Spawn(old(State()), out, now)
    {
      if !info.autoSpawn {
        return;
      }
      var events := ListProjectEvents(log, 500);
      var spawned := LatestEvent(events, KSubtasksSpawned);
      if spawned != None {
        return;
      }
      SaveEvent(now, SubtasksSpawned(out.spawned));
    }

    method PersistHandoff(ctx: StageContext, out: Output, now: real)
      modifies this`log
      ensures State() == PersistRecommendation(old(State()), ctx, out, now)
    {
      if ctx.stage != Execute || info.parent.None? || info.taskType != Analysis || !out.recommends {
        return;
      }
      var events := ListProjectEvents(log, 200);
      var existing := LatestEvent(events, KRecommendedImprovement);
      if existing != None {
        return;
      }
      SaveEvent(now, RecommendedImprovement);
    }

    method StageOutput(ctx: StageContext, out: Output, now: real)
      modifies this`log, this`status
      ensures State() == HandleOutput(cfg, old(State()), ctx, out, now)
    {
      hide HandleQualityFailure, HandleReview, PersistPlan, Spawn, PersistRecommendation, Passes;
      var quality := StageQualityGate(DemandsOf(cfg, out), ctx.stage, out.text);
      var passed := quality.passed;
      if out.localEcho && ctx.stage != Plan && !passed {
        passed := true;
      }
      SaveEvent(now, StageCompleted(ctx.stage, ctx.cycle, passed));
      if !passed {
        QualityOutcome(ctx, out, now);
        return;
      }
      if ctx.stage == Review {
        ReviewOutcome(ctx, out, now);
        return;
      }
      if ctx.stage == Plan {
        PersistExecutePlan(ctx, out, now);
        SpawnSubtasksOnce(out, now);
      } else {
        PersistHandoff(ctx, out, now);
      }
    }

    /** The rest of a tick, once the stage run has an outcome. */
    method SettleStage(index: nat, outcome: Outcome, now: real)
      requires index < |pending|
      modifies this
      ensures State() == Settle(cfg, old(State()), index, outcome, now)
    {
      hide HandleOutput, HandleStageFailure;
      var ctx := pending[index];
      pending := pending[..index] + pending[index + 1..];
      match outcome {
        case Raised(raise) => StageFailure(ctx, raise, now);
        case Finished(out) => StageOutput(ctx, out, now);
      }
    }

    method Approve(approved: bool, now: real)
      modifies this`log, this`status
      ensures State() == SetApproval(old(State()), approved, now)
    {
      SaveEvent(now, Approval(approved));
      if approved {
        return;
      }
      BlockTask(now);
    }
  }

  lemma {:induction false} LatestKind(events: Log, kind: Kind)
    ensures Latest(events, kind).Some? ==> KindOf(Latest(events, kind).value.body) == kind
  {
    if events == [] {
    } else {
      LatestKind(Init(events), kind);
    }
  }
}
