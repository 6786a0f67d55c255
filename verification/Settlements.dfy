/** What a settlement appends and decides, said on the step as a whole. */
module Settlements {
  import opened EventLog
  import opened TaskGate
  import opened QualityGate
  import opened FailureHandler
  import opened Engine
  import opened Discipline
  import opened TickInvariant
  import opened Runs
  import opened Scans

  // ---- raised runs ----

  /** The category and the reason that the newest execution failure in view gives, or the error itself. */
  ghost predicate Cause(view: Log, cycle: int, error: Reason, category: Category, reason: Reason) {
    || ((forall i :: 0 <= i < |view| ==> !FailsIn(view[i].body, cycle)) && category == StageFailure && reason == error)
    || (exists i: nat :: NewestFailure(view, i, cycle) && Tells(view[i].body, error, category, reason))
  }

  predicate Tells(body: Body, error: Reason, category: Category, reason: Reason) {
    && (body.RunFailed? ==> category == ProviderFailure)
    && (body.WorkspaceFailed? ==> category == body.category)
    && (body.RunFailed? || body.WorkspaceFailed? ==> reason == if body.reason.Some? then body.reason.value else error)
  }

  /** A category that leaves the decision to the reason text. */
  predicate Undecided(category: Category) {
    category == StageFailure || category == NoArtifactChange || category == OtherCategory
  }

  predicate CallsForRetry(category: Category, reason: Reason) {
    || category == ProviderFailure
    || (Undecided(category) && !reason.noChanges && !reason.verificationFailed
        && (reason.mentionsProvider || !reason.mentionsApproval))
  }

  predicate CallsForReplan(category: Category, reason: Reason) {
    || category == VerificationFailure || category == AcceptanceFailure
    || (Undecided(category) && (reason.noChanges || reason.verificationFailed))
  }

  /** Some cause always exists. */
  lemma CauseExists(view: Log, cycle: int, error: Reason) returns (category: Category, reason: Reason)
    ensures Cause(view, cycle, error, category, reason)
  {
    FailureIsNewest(view, cycle);
    if LatestFailure(view, cycle).None? {
      category, reason := StageFailure, error;
    } else {
      var i: nat :| NewestFailure(view, i, cycle);
      category, reason := CategoryOf(Some(view[i].body)), ReasonOf(Some(view[i].body), error);
      assert Tells(view[i].body, error, category, reason);
    }
  }

  lemma CauseDecides(view: Log, cycle: int, error: Reason, category: Category, reason: Reason, taxonomyV2: bool)
    requires Cause(view, cycle, error, category, reason)
    ensures Classify(view, cycle, error, taxonomyV2).retryAllowed <==> !taxonomyV2 || CallsForRetry(category, reason)
    ensures Classify(view, cycle, error, taxonomyV2).shouldReplan <==> taxonomyV2 && CallsForReplan(category, reason)
    ensures Classify(view, cycle, error, taxonomyV2).category
            == if !Undecided(category) then category
               else if reason.noChanges then NoArtifactChange
               else if reason.verificationFailed then VerificationFailure
               else if reason.mentionsProvider then ProviderFailure
               else if reason.mentionsApproval then PolicyBlock
               else category
  {
    FailureIsNewest(view, cycle);
  }

  predicate Stopped(cfg: Config, failures: seq<Body>, stage: Stage, signature: string) {
    cfg.lowInfoStop && signature != "" && cfg.lowInfoThreshold >= 1
    && EndsAlike(failures, stage, signature, cfg.lowInfoThreshold - 1)
  }

  /** What a failure of the stage run `ctx` leaves: nothing but the stop after too many equal failures, or
      the numbered failure followed by a retry, by the next cycle, or by the end of the task. */
  ghost predicate Answered(cfg: Config, st: TaskState, ctx: StageContext, raise: Raise, now: real, after: TaskState) {
    && after.info == st.info && after.pending == st.pending
    && if Stopped(cfg, StageFailures(View(st.log)), ctx.stage, raise.signature)
       then after.status == Blocked && after.log == st.log + [Event(now, LowInfoStopped(ctx.stage, ctx.cycle))]
       else
         var attempt := |FailedAt(ctx.events, ctx.stage, ctx.cycle)| + 1;
         var failed := Event(now, StageFailed(ctx.stage, ctx.cycle, attempt, raise.signature));
         forall category, reason | Cause(View(st.log), ctx.cycle, raise.reason, category, reason) ::
           if attempt <= ctx.maxRetries && (!cfg.taxonomyV2 || CallsForRetry(category, reason))
           then after.status == st.status && after.log == st.log + [failed, Event(now, RetryScheduled(
                  ctx.stage, ctx.cycle, attempt, now + cfg.retryBase * Pow2(attempt - 1) as real))]
           else if cfg.taxonomyV2 && CallsForReplan(category, reason) && ctx.cycle < cfg.maxCycles
           then after.status == st.status && after.log == st.log + [failed, Event(now, CycleStarted(ctx.cycle + 1))]
           else after.status == Blocked && after.log == st.log + [failed, Event(now, TaskFailed)]
  }

  lemma FailureIsAnswered(cfg: Config, st: TaskState, ctx: StageContext, raise: Raise, now: real)
    requires ValidConfig(cfg)
    ensures Answered(cfg, st, ctx, raise, now, HandleStageFailure(cfg, st, ctx, raise, now))
  {
    hide Failures, FailureRun, Classify, Cause, View, ListEvents, FailedAt, CallsForReplan, CallsForRetry, Pow2, EndsAlike;
    ViewIsListed(st.log, 300);
    ViewIsListed(st.log, 200);
    FailuresCount(ctx.events, ctx.stage, ctx.cycle);
    FailureRunIsTail(View(st.log), ctx.stage, raise.signature, cfg.lowInfoThreshold - 1);
    forall category, reason | Cause(View(st.log), ctx.cycle, raise.reason, category, reason)
      ensures Classify(View(st.log), ctx.cycle, raise.reason, cfg.taxonomyV2).retryAllowed
              <==> !cfg.taxonomyV2 || CallsForRetry(category, reason)
      ensures Classify(View(st.log), ctx.cycle, raise.reason, cfg.taxonomyV2).shouldReplan
              <==> cfg.taxonomyV2 && CallsForReplan(category, reason)
    {
      CauseDecides(View(st.log), ctx.cycle, raise.reason, category, reason, cfg.taxonomyV2);
    }
    var attempt := Failures(ctx.events, ctx.stage, ctx.cycle) + 1;
    var verdict := Classify(View(st.log), ctx.cycle, raise.reason, cfg.taxonomyV2);
    var failed := Append(st, now, StageFailed(ctx.stage, ctx.cycle, attempt, raise.signature));
    AnswerLogs(st.log, now, StageFailed(ctx.stage, ctx.cycle, attempt, raise.signature));
  }

  lemma AnswerLogs(log: Log, now: real, first: Body)
    ensures forall second :: Add(Add(log, now, first), now, second) == log + [Event(now, first), Event(now, second)]
  {
    forall second ensures Add(Add(log, now, first), now, second) == log + [Event(now, first), Event(now, second)] {
      assert [Event(now, first)] + [Event(now, second)] == [Event(now, first), Event(now, second)];
    }
  }

  /** The task without the run that settles. */
  function Landed(st: TaskState, index: nat): TaskState
    requires index < |st.pending|
  {
    st.(pending := st.pending[..index] + st.pending[index + 1..])
  }

  /** Every raised stage run is answered as its cause calls for. */
  lemma RaisedRunIsAnswered(cfg: Config, st: TaskState, index: nat, raise: Raise, now: real)
    requires ValidConfig(cfg) && index < |st.pending|
    ensures Answered(cfg, Landed(st, index), st.pending[index], raise, now, Settle(cfg, st, index, Raised(raise), now))
  {
    hide Answered, HandleStageFailure;
    FailureIsAnswered(cfg, Landed(st, index), st.pending[index], raise, now);
  }

  predicate IsOfCategory(body: Body, category: Category) {
    (body.RunFailed? && category == ProviderFailure) || (body.WorkspaceFailed? && body.category == category)
  }

  lemma RecordedCause(view: Log, i: nat, cycle: int, error: Reason, category: Category) returns (reason: Reason)
    requires NewestFailure(view, i, cycle) && IsOfCategory(view[i].body, category)
    ensures Cause(view, cycle, error, category, reason)
  {
    reason := if view[i].body.reason.Some? then view[i].body.reason.value else error;
    assert Tells(view[i].body, error, category, reason);
  }

  /** A newest failed run, or provider failure of the workspace, is retried in place while attempts are left. */
  lemma ProviderFailuresAreRetried(cfg: Config, st: TaskState, index: nat, raise: Raise, now: real, i: nat)
    requires ValidConfig(cfg) && index < |st.pending|
    requires var ctx := st.pending[index];
             && NewestFailure(View(st.log), i, ctx.cycle) && IsOfCategory(View(st.log)[i].body, ProviderFailure)
             && !Stopped(cfg, StageFailures(View(st.log)), ctx.stage, raise.signature)
             && |FailedAt(ctx.events, ctx.stage, ctx.cycle)| < ctx.maxRetries
    ensures var ctx := st.pending[index];
            var attempt := |FailedAt(ctx.events, ctx.stage, ctx.cycle)| + 1;
            var after := Settle(cfg, st, index, Raised(raise), now);
            && after.status == st.status && |after.log| == |st.log| + 2
            && after.log[|st.log|].body == StageFailed(ctx.stage, ctx.cycle, attempt, raise.signature)
            && after.log[|st.log| + 1].body
               == RetryScheduled(ctx.stage, ctx.cycle, attempt, now + cfg.retryBase * Pow2(attempt - 1) as real)
  {
    hide Settle, NewestFailure, FailedAt, Stopped, View, Pow2;
    RaisedRunIsAnswered(cfg, st, index, raise, now);
    var reason := RecordedCause(View(st.log), i, st.pending[index].cycle, raise.reason, ProviderFailure);
  }

  /** With the taxonomy on, a verification or acceptance failure is never retried: the next cycle starts
      below the cap, and at the cap the task blocks. */
  lemma VerificationFailuresReplan(cfg: Config, st: TaskState, index: nat, raise: Raise, now: real, i: nat, category: Category)
    requires ValidConfig(cfg) && cfg.taxonomyV2 && index < |st.pending|
    requires category == VerificationFailure || category == AcceptanceFailure
    requires var ctx := st.pending[index];
             && NewestFailure(View(st.log), i, ctx.cycle) && IsOfCategory(View(st.log)[i].body, category)
             && !Stopped(cfg, StageFailures(View(st.log)), ctx.stage, raise.signature)
    ensures var ctx := st.pending[index];
            var after := Settle(cfg, st, index, Raised(raise), now);
            && |after.log| == |st.log| + 2 && after.log[|st.log|].body.StageFailed?
            && (if ctx.cycle < cfg.maxCycles
                then after.status == st.status && after.log[|st.log| + 1].body == CycleStarted(ctx.cycle + 1)
                else after.status == Blocked && after.log[|st.log| + 1].body == TaskFailed)
  {
    hide Settle, NewestFailure, FailedAt, Stopped, View, Pow2;
    RaisedRunIsAnswered(cfg, st, index, raise, now);
    var reason := RecordedCause(View(st.log), i, st.pending[index].cycle, raise.reason, category);
  }

  /** With the taxonomy on, an environment failure, a policy block and a risk guardrail block the task at once. */
  lemma HardFailuresBlock(cfg: Config, st: TaskState, index: nat, raise: Raise, now: real, i: nat, category: Category)
    requires ValidConfig(cfg) && cfg.taxonomyV2 && index < |st.pending|
    requires category == EnvironmentFailure || category == PolicyBlock || category == RiskGuardrail
    requires var ctx := st.pending[index];
             && NewestFailure(View(st.log), i, ctx.cycle) && IsOfCategory(View(st.log)[i].body, category)
    ensures Settle(cfg, st, index, Raised(raise), now).status == Blocked
  {
    hide Settle, NewestFailure, FailedAt, Stopped, View, Pow2;
    RaisedRunIsAnswered(cfg, st, index, raise, now);
    var reason := RecordedCause(View(st.log), i, st.pending[index].cycle, raise.reason, category);
  }

  /** Without the taxonomy nothing replans, and every failure with attempts left is retried. */
  lemma PlainFailuresAreRetried(cfg: Config, st: TaskState, index: nat, raise: Raise, now: real)
    requires ValidConfig(cfg) && !cfg.taxonomyV2 && index < |st.pending|
    requires !Stopped(cfg, StageFailures(View(st.log)), st.pending[index].stage, raise.signature)
    ensures var ctx := st.pending[index];
            var attempt := |FailedAt(ctx.events, ctx.stage, ctx.cycle)| + 1;
            var after := Settle(cfg, st, index, Raised(raise), now);
            && |after.log| == |st.log| + 2
            && (if attempt <= ctx.maxRetries
                then after.status == st.status && after.log[|st.log| + 1].body.RetryScheduled?
                else after.status == Blocked && after.log[|st.log| + 1].body == TaskFailed)
  {
    hide Settle, FailedAt, Stopped, View, Pow2, Cause;
    RaisedRunIsAnswered(cfg, st, index, raise, now);
    var category, reason := CauseExists(View(st.log), st.pending[index].cycle, raise.reason);
  }

  // ---- which outputs are good enough ----

  function Points(lost: bool, points: nat): nat {
    if lost then points else 0
  }

  /** The points that each defect of a plan costs. */
  lemma PlanPoints(d: Demands, t: Text)
    ensures Penalty(d, Plan, t)
            == Points(t.length < d.minPlan, 45) + Points(!t.hasSteps, 20) + Points(!t.mentionsRisk, 10)
               + Points(d.enforceSdlc && t.missingTopics > 0, Min(10 + 5 * t.missingTopics, 35))
               + Points(d.raiseVerification && !t.mentionsTests, 15)
  {
  }

  /** The points that each defect of an execution costs. */
  lemma ExecutionPoints(d: Demands, t: Text)
    ensures Penalty(d, Execute, t)
            == Points(t.length < d.minExecute, 45) + Points(!t.hasArtifacts, 25)
               + Points(d.enforceSdlc && !t.mentionsTests, 20) + Points(d.raiseVerification && !t.mentionsTests, 15)
  {
  }

  /** The points that each defect of a review costs. */
  lemma ReviewPoints(d: Demands, t: Text)
    ensures Penalty(d, Review, t)
            == Points(t.length < d.minReview, 45) + Points(!t.hasVerdict, 20) + Points(!t.mentionsRisk, 10)
               + Points(!t.hasMarker, 10) + Points(d.keywordSet && !t.keywordInText, 40)
               + Points(d.enforceSdlc && t.uncheckedItems > 0, Min(12 + 4 * t.uncheckedItems, 45))
               + Points(d.raiseVerification && !t.mentionsTests, 15)
  {
  }

  /** A plan: long enough, and the other defects within 30 points, written out for every number of missing topics. */
  predicate GoodPlan(cfg: Config, out: Output) {
    var t := out.text;
    var unverified := out.raiseVerification && !t.mentionsTests;
    var missing := if out.enforceSdlc then t.missingTopics else 0;
    && t.length >= cfg.minPlan
    && (missing == 0 ==> t.hasSteps || !unverified)
    && (missing == 1 ==> t.hasSteps && (t.mentionsRisk || !unverified))
    && (missing == 2 ==> t.hasSteps && !unverified)
    && (missing == 3 || missing == 4 ==> t.hasSteps && t.mentionsRisk && !unverified)
    && missing <= 4
  }

  /** An execution: long enough, with at most one of its three other defects. */
  predicate GoodExecution(cfg: Config, out: Output) {
    var t := out.text;
    var unproven := out.enforceSdlc && !t.mentionsTests;
    var unverified := out.raiseVerification && !t.mentionsTests;
    && t.length >= cfg.minExecute
    && (t.hasArtifacts || (!unproven && !unverified))
    && !(unproven && unverified)
  }

  /** A review: long enough, with the keyword, and the other defects within what the unchecked items leave. */
  predicate GoodReview(cfg: Config, out: Output) {
    var t := out.text;
    var unverified := out.raiseVerification && !t.mentionsTests;
    var unchecked := if out.enforceSdlc then t.uncheckedItems else 0;
    && t.length >= cfg.minReview
    && (cfg.keywordSet ==> t.keywordInText)
    && unchecked <= 4
    && (unchecked == 0 ==> (t.hasVerdict || (!unverified && (t.mentionsRisk || t.hasMarker)))
                           && (!unverified || t.mentionsRisk || t.hasMarker))
    && (unchecked == 1 || unchecked == 2 ==> t.hasVerdict && !unverified && (t.mentionsRisk || t.hasMarker))
    && (unchecked == 3 || unchecked == 4 ==> t.hasVerdict && !unverified && t.mentionsRisk && t.hasMarker)
  }

  /** The verdict: good enough for its stage, or a local echo of an execution or a review. */
  predicate GoodEnough(cfg: Config, stage: Stage, out: Output) {
    || (stage == Plan && GoodPlan(cfg, out))
    || (stage == Execute && (GoodExecution(cfg, out) || out.localEcho))
    || (stage == Review && (GoodReview(cfg, out) || out.localEcho))
  }

  lemma AcceptedIsGoodEnough(cfg: Config, stage: Stage, out: Output)
    requires Realistic(out.text)
    ensures Accepted(cfg, stage, out) <==> GoodEnough(cfg, stage, out)
  {
    match stage {
      case Plan => PlanPasses(cfg, out);
      case Execute => ExecutionPasses(cfg, out);
      case Review => ReviewPasses(cfg, out);
    }
  }

  lemma PlanPasses(cfg: Config, out: Output)
    requires Realistic(out.text)
    ensures Passes(DemandsOf(cfg, out), Plan, out.text) <==> GoodPlan(cfg, out)
  {
  }

  lemma ExecutionPasses(cfg: Config, out: Output)
    requires Realistic(out.text)
    ensures Passes(DemandsOf(cfg, out), Execute, out.text) <==> GoodExecution(cfg, out)
  {
  }

  lemma ReviewPasses(cfg: Config, out: Output)
    requires Realistic(out.text)
    ensures Passes(DemandsOf(cfg, out), Review, out.text) <==> GoodReview(cfg, out)
  {
  }

  // ---- finished runs ----

  /** The log right after `stage.completed`. */
  ghost function Judged(cfg: Config, st: TaskState, index: nat, out: Output, now: real): Log
    requires index < |st.pending|
  {
    var ctx := st.pending[index];
    st.log + [Event(now, StageCompleted(ctx.stage, ctx.cycle, GoodEnough(cfg, ctx.stage, out)))]
  }

  lemma FinishedRunIsJudged(cfg: Config, st: TaskState, index: nat, out: Output, now: real)
    requires index < |st.pending| && Realistic(out.text)
    ensures var ctx := st.pending[index];
            var landed := Landed(st, index).(log := Judged(cfg, st, index, out, now));
            Settle(cfg, st, index, Finished(out), now)
            == if !GoodEnough(cfg, ctx.stage, out) then HandleQualityFailure(cfg, landed, ctx, out, now)
               else if ctx.stage == Review then HandleReview(cfg, landed, ctx, out, now)
               else HandleSuccess(cfg, landed, ctx, out, now)
  {
    hide Accepted, GoodEnough, HandleQualityFailure, HandleReview, HandleSuccess;
    AcceptedIsGoodEnough(cfg, st.pending[index].stage, out);
  }

  lemma QualityFailureMeans(cfg: Config, st: TaskState, ctx: StageContext, out: Output, now: real)
    requires ValidConfig(cfg)
    ensures var after := HandleQualityFailure(cfg, st, ctx, out, now);
            && after.pending == st.pending && after.info == st.info
            && if Stopped(cfg, QualityFailures(View(st.log)), ctx.stage, out.signature)
               then after.status == Blocked && after.log == st.log + [Event(now, LowInfoStopped(ctx.stage, ctx.cycle))]
               else if ctx.cycle >= cfg.maxCycles
               then after.status == Blocked && after.log == st.log + [Event(now, TaskFailed)]
               else
                 && after.status == st.status
                 && after.log == st.log + [Event(now, QualityFailed(ctx.stage, ctx.cycle, out.signature)),
                                           Event(now, CycleStarted(ctx.cycle + 1))]
  {
    hide QualityRun, ListEvents, View, EndsAlike;
    ViewIsListed(st.log, 200);
    QualityRunIsTail(View(st.log), ctx.stage, out.signature, cfg.lowInfoThreshold - 1);
    AnswerLogs(st.log, now, QualityFailed(ctx.stage, ctx.cycle, out.signature));
  }

  /** An output that is not good enough is recorded as failed; then the task stops after too many equal
      failures, blocks at the cycle cap, and otherwise starts the next cycle. */
  lemma PoorOutputMeans(cfg: Config, st: TaskState, index: nat, out: Output, now: real)
    requires ValidConfig(cfg) && index < |st.pending| && Realistic(out.text)
    requires !GoodEnough(cfg, st.pending[index].stage, out)
    ensures var ctx := st.pending[index];
            var after := Settle(cfg, st, index, Finished(out), now);
            var done := Judged(cfg, st, index, out, now);
            && after.pending == Landed(st, index).pending
            && if Stopped(cfg, QualityFailures(View(done)), ctx.stage, out.signature)
               then after.status == Blocked && after.log == done + [Event(now, LowInfoStopped(ctx.stage, ctx.cycle))]
               else if ctx.cycle >= cfg.maxCycles
               then after.status == Blocked && after.log == done + [Event(now, TaskFailed)]
               else
                 && after.status == st.status
                 && after.log == done + [Event(now, QualityFailed(ctx.stage, ctx.cycle, out.signature)),
                                         Event(now, CycleStarted(ctx.cycle + 1))]
  {
    hide Settle, GoodEnough, HandleQualityFailure, HandleReview, HandleSuccess, Stopped, QualityFailures, View;
    FinishedRunIsJudged(cfg, st, index, out, now);
    QualityFailureMeans(cfg, Landed(st, index).(log := Judged(cfg, st, index, out, now)), st.pending[index], out, now);
  }

  predicate NoneCompleted(view: Log) {
    forall i :: 0 <= i < |view| ==> !view[i].body.TaskCompleted?
  }

  predicate NoneSpawned(view: Log) {
    forall i :: 0 <= i < |view| ==> !view[i].body.SubtasksSpawned?
  }

  predicate NoneRecommended(view: Log) {
    forall i :: 0 <= i < |view| ==> !view[i].body.RecommendedImprovement?
  }

  predicate NewestPlan(view: Log, i: nat) {
    i < |view| && view[i].body.PlanCreated? && forall j :: i < j < |view| ==> !view[j].body.PlanCreated?
  }

  /** The newest plan in view is one of this cycle. */
  ghost predicate Planned(view: Log, cycle: int) {
    exists i: nat :: NewestPlan(view, i) && Effective(view[i].body.cycle) == cycle
  }

  lemma FinalizeMeans(st: TaskState, now: real)
    ensures var after := Finalize(st, now);
            && after.status == Status.Completed && after.pending == st.pending && after.info == st.info
            && after.log == st.log + if NoneCompleted(View(st.log)) then [Event(now, TaskCompleted)] else []
  {
    hide Latest, ListEvents, View;
    ViewIsListed(st.log, 500);
    LatestIsNewest(View(st.log), KTaskCompleted);
  }

  /** A good review completes the task. */
  lemma GoodReviewCompletes(cfg: Config, st: TaskState, index: nat, out: Output, now: real)
    requires index < |st.pending| && Realistic(out.text)
    requires st.pending[index].stage == Review && GoodEnough(cfg, Review, out)
    ensures var after := Settle(cfg, st, index, Finished(out), now);
            var done := Judged(cfg, st, index, out, now);
            && after.status == Status.Completed && after.pending == Landed(st, index).pending
            && after.log == done + if NoneCompleted(View(done)) then [Event(now, TaskCompleted)] else []
  {
    hide Settle, GoodEnough, HandleQualityFailure, HandleSuccess, Finalize, Accepted, Passes, NoneCompleted, View;
    FinishedRunIsJudged(cfg, st, index, out, now);
    AcceptedIsGoodEnough(cfg, Review, out);
    assert !ReviewFails(DemandsOf(cfg, out), out.text, out.localEcho) by { ReviewPassed(cfg, out); }
    FinalizeMeans(Landed(st, index).(log := Judged(cfg, st, index, out, now)), now);
  }

  lemma ReviewPassed(cfg: Config, out: Output)
    requires Realistic(out.text) && Accepted(cfg, Review, out)
    ensures !ReviewFails(DemandsOf(cfg, out), out.text, out.localEcho)
  {
    PassedReviewKeepsKeyword(DemandsOf(cfg, out), out.text, out.localEcho);
  }

  lemma PersistPlanMeans(cfg: Config, st: TaskState, ctx: StageContext, out: Output, now: real)
    ensures PersistPlan(cfg, st, ctx, out, now)
            == st.(log := st.log + if cfg.executePlan && !Planned(View(st.log), ctx.cycle)
                                   then [Event(now, PlanCreated(ctx.cycle, out.concrete))] else [])
  {
    hide Latest, ListEvents, View;
    ViewIsListed(st.log, 300);
    var view := View(st.log);
    LatestIsNewest(view, KPlanCreated);
    assert st.log + [] == st.log;
    if Planned(view, ctx.cycle) {
      var i: nat :| NewestPlan(view, i) && Effective(view[i].body.cycle) == ctx.cycle;
      assert NewestOfKind(view, i, KPlanCreated);
    }
    if Latest(view, KPlanCreated).Some? {
      var i: nat :| NewestOfKind(view, i, KPlanCreated);
      assert NewestPlan(view, i);
    }
  }

  lemma SpawnMeans(st: TaskState, out: Output, now: real)
    ensures Spawn(st, out, now)
            == st.(log := st.log + if st.info.autoSpawn && NoneSpawned(View(st.log))
                                   then [Event(now, SubtasksSpawned(out.spawned))] else [])
  {
    hide Latest, ListEvents, View;
    ViewIsListed(st.log, 500);
    LatestIsNewest(View(st.log), KSubtasksSpawned);
    assert st.log + [] == st.log;
  }

  lemma RecommendationMeans(st: TaskState, ctx: StageContext, out: Output, now: real)
    requires ctx.stage == Execute
    ensures PersistRecommendation(st, ctx, out, now)
            == st.(log := st.log + if st.info.parent.Some? && st.info.taskType == Analysis && out.recommends
                                      && NoneRecommended(View(st.log))
                                   then [Event(now, RecommendedImprovement)] else [])
  {
    hide Latest, ListEvents, View;
    ViewIsListed(st.log, 200);
    LatestIsNewest(View(st.log), KRecommendedImprovement);
    assert st.log + [] == st.log;
  }

  /** A good plan is recorded for its cycle with the concreteness it has, and then the task fans out if it
      may and has not. */
  lemma GoodPlanMeans(cfg: Config, st: TaskState, index: nat, out: Output, now: real)
    requires index < |st.pending| && Realistic(out.text)
    requires st.pending[index].stage == Plan && GoodPlan(cfg, out)
    ensures var cycle := st.pending[index].cycle;
            var done := Judged(cfg, st, index, out, now);
            var planned := done + if cfg.executePlan && !Planned(View(done), cycle)
                                  then [Event(now, PlanCreated(cycle, out.concrete))] else [];
            var spawned := planned + if st.info.autoSpawn && NoneSpawned(View(planned))
                                     then [Event(now, SubtasksSpawned(out.spawned))] else [];
            Settle(cfg, st, index, Finished(out), now) == Landed(st, index).(log := spawned)
  {
    hide Settle, GoodPlan, HandleQualityFailure, HandleReview, PersistPlan, Spawn, Planned, NoneSpawned, View;
    FinishedRunIsJudged(cfg, st, index, out, now);
    var landed := Landed(st, index).(log := Judged(cfg, st, index, out, now));
    PersistPlanMeans(cfg, landed, st.pending[index], out, now);
    SpawnMeans(PersistPlan(cfg, landed, st.pending[index], out, now), out, now);
  }

  /** A good execution leaves the task as it is, but for the recommendation of an analysis child. */
  lemma GoodExecutionMeans(cfg: Config, st: TaskState, index: nat, out: Output, now: real)
    requires index < |st.pending| && Realistic(out.text)
    requires st.pending[index].stage == Execute && (GoodExecution(cfg, out) || out.localEcho)
    ensures var done := Judged(cfg, st, index, out, now);
            Settle(cfg, st, index, Finished(out), now)
            == Landed(st, index).(log := done + if st.info.parent.Some? && st.info.taskType == Analysis && out.recommends
                                                   && NoneRecommended(View(done))
                                                then [Event(now, RecommendedImprovement)] else [])
  {
    hide Settle, GoodExecution, HandleQualityFailure, HandleReview, PersistRecommendation, NoneRecommended, View;
    FinishedRunIsJudged(cfg, st, index, out, now);
    RecommendationMeans(Landed(st, index).(log := Judged(cfg, st, index, out, now)), st.pending[index], out, now);
  }

  // ---- verdicts over whole runs ----

  /** Some step of the run settles a finished run of the stage whose output earns exactly this verdict. */
  ghost predicate Deserved(cfg: Config, steps: seq<Step>, stage: Stage, passed: bool) {
    exists n :: 0 <= n < |steps| && Earns(cfg, steps[n], stage, passed)
  }

  predicate Earns(cfg: Config, step: Step, stage: Stage, passed: bool) {
    step.SettleStep? && step.outcome.Finished? && passed == GoodEnough(cfg, stage, step.outcome.output)
  }

  predicate CompletionsEarned(before: Log, after: Log, cfg: Config, step: Step) {
    forall k :: |before| <= k < |after| && after[k].body.StageCompleted? ==>
      Earns(cfg, step, after[k].body.stage, after[k].body.passed)
  }

  lemma FailureCompletesNothing(cfg: Config, st: TaskState, ctx: StageContext, raise: Raise, now: real)
    ensures var after := HandleStageFailure(cfg, st, ctx, raise, now).log;
            Grown(st.log, after) && forall k :: |st.log| <= k < |after| ==> !after[k].body.StageCompleted?
  {
    hide ListEvents, Failures, FailureRun, LatestFailure, Judge, Delay;
  }

  lemma GatesCompleteNothing(cfg: Config, st: TaskState, inp: TickInput, stage: Stage, cycle: int)
    ensures var after := ApprovalGate(cfg, st, inp, stage, cycle).0.log;
            Grown(st.log, after) && forall k :: |st.log| <= k < |after| ==> !after[k].body.StageCompleted?
  {
    hide ListEvents, Latest, RetryEpoch, Inflight, HandleStageFailure, ConcretePlan;
    if inp.early.Some? {
      FailureCompletesNothing(cfg, st, StageContext(stage, cycle, inp.maxRetries, ListEvents(st.log, 500)), inp.early.value, inp.now);
    }
  }

  lemma TickCompletesNothing(cfg: Config, st: TaskState, inp: TickInput)
    ensures var after := Tick(cfg, st, inp).0.log;
            forall k :: |st.log| <= k < |after| ==> !after[k].body.StageCompleted?
  {
    hide ListEvents, Latest, StepCount, ApprovalGate, ChildGateOf, NextStage, CurrentCycle;
    var begun := Bootstrap(st.(status := InProgress), inp.now);
    match NextStage(ListEvents(begun.log, 500), BootstrapCycle(st)) {
      case None =>
      case Some(stage) => GatesCompleteNothing(cfg, begun, inp, stage, BootstrapCycle(st));
    }
  }

  lemma OutputCompletesOnce(cfg: Config, st: TaskState, ctx: StageContext, out: Output, now: real)
    ensures var after := HandleOutput(cfg, st, ctx, out, now).log;
            && |after| > |st.log| && after[|st.log|].body == StageCompleted(ctx.stage, ctx.cycle, Accepted(cfg, ctx.stage, out))
            && forall k :: |st.log| < k < |after| ==> !after[k].body.StageCompleted?
  {
    hide ListEvents, Latest, QualityRun, Accepted, ReviewFails;
  }

  lemma StepCompletionsEarned(cfg: Config, st: TaskState, step: Step)
    requires Enabled(st, step)
    ensures CompletionsEarned(st.log, Perform(cfg, st, step).log, cfg, step)
  {
    hide Tick, HandleOutput, HandleStageFailure, Accepted, GoodEnough;
    match step {
      case TickStep(inp) => TickCompletesNothing(cfg, st, inp);
      case SettleStep(index, outcome, now) =>
        var ctx := st.pending[index];
        match outcome {
          case Raised(raise) => FailureCompletesNothing(cfg, Landed(st, index), ctx, raise, now);
          case Finished(out) =>
            OutputCompletesOnce(cfg, Landed(st, index), ctx, out, now);
            AcceptedIsGoodEnough(cfg, ctx.stage, out);
        }
      case _ =>
    }
  }

  lemma {:induction false} CompletionsAreDeserved(rules: Rules, st: TaskState, steps: seq<Step>, k: nat)
    requires Feasible(rules, st, steps)
    requires var after := After(rules, st, steps).log; |st.log| <= k < |after| && after[k].body.StageCompleted?
    ensures var body := After(rules, st, steps).log[k].body; Deserved(rules.cfg, steps, body.stage, body.passed)
    decreases |steps|
  {
    hide Perform, Enabled, Conforms, Earns;
    if steps == [] {
    } else {
      var next := Perform(rules.cfg, st, steps[0]);
      StepGrows(rules.cfg, st, steps[0]);
      RunGrows(rules, next, steps[1..]);
      var after := After(rules, st, steps).log;
      if k < |next.log| {
        assert after[k] == after[..|next.log|][k] == next.log[k];
        StepCompletionsEarned(rules.cfg, st, steps[0]);
      } else {
        CompletionsAreDeserved(rules, next, steps[1..], k);
        var n :| 0 <= n < |steps| - 1 && Earns(rules.cfg, steps[1..][n], after[k].body.stage, after[k].body.passed);
        assert Earns(rules.cfg, steps[n + 1], after[k].body.stage, after[k].body.passed);
      }
    }
  }

  /** In every run, of whatever length, each completion carries the verdict that the output of one of its
      settlements earns: passed exactly when that output is good enough for the stage. */
  lemma RunsCompleteDeservedly(rules: Rules, info: Info, steps: seq<Step>, k: nat)
    requires Feasible(rules, Fresh(info), steps)
    requires var after := After(rules, Fresh(info), steps).log; k < |after| && after[k].body.StageCompleted?
    ensures var body := After(rules, Fresh(info), steps).log[k].body; Deserved(rules.cfg, steps, body.stage, body.passed)
  {
    hide Feasible, After, Deserved;
    CompletionsAreDeserved(rules, Fresh(info), steps, k);
  }
}
