/** The scans that recover all control state from the log.  Each is the source's loop, proved
    against a specification that recurses from the newest event backwards. */
module TaskGate {
  import opened EventLog

  /** The event types that readers look up by "latest event of this type". */
  datatype Kind =
    | KStarted | KApproval | KApprovalRequested | KTaskCompleted | KPlanCreated
    | KSubtasksSpawned | KChildrenCompleted | KRecommendedImprovement | KUntracked

  function KindOf(body: Body): Kind {
    match body
    case Started => KStarted
    case Approval(_) => KApproval
    case ApprovalRequested => KApprovalRequested
    case TaskCompleted => KTaskCompleted
    case PlanCreated(_, _) => KPlanCreated
    case SubtasksSpawned(_) => KSubtasksSpawned
    case ChildrenCompleted => KChildrenCompleted
    case RecommendedImprovement => KRecommendedImprovement
    case _ => KUntracked
  }

  function Latest(log: Log, kind: Kind): Option<Event> {
    if log == [] then None
    else if KindOf(Last(log).body) == kind then Some(Last(log))
    else Latest(Init(log), kind)
  }

  method LatestEvent(events: Log, kind: Kind) returns (found: Option<Event>)
    ensures found == Latest(events, kind)
  {
    var i := |events|;
    assert events[..i] == events;
    while i > 0
      invariant 0 <= i <= |events|
      invariant Latest(events, kind) == Latest(events[..i], kind)
    {
      assert Init(events[..i]) == events[..i - 1];
      i := i - 1;
      if KindOf(events[i].body) == kind {
        return Some(events[i]);
      }
    }
    return None;
  }

  function CurrentCycle(log: Log): int {
    if log == [] then 1
    else if Last(log).body.CycleStarted? && Last(log).body.cycle >= 1 then Last(log).body.cycle
    else CurrentCycle(Init(log))
  }

  method ScanCurrentCycle(events: Log) returns (cycle: int)
    ensures cycle == CurrentCycle(events)
  {
    var i := |events|;
    assert events[..i] == events;
    while i > 0
      invariant 0 <= i <= |events|
      invariant CurrentCycle(events) == CurrentCycle(events[..i])
    {
      assert Init(events[..i]) == events[..i - 1];
      i := i - 1;
      if !events[i].body.CycleStarted? {
        continue;
      }
      if events[i].body.cycle >= 1 {
        return events[i].body.cycle;
      }
    }
    return 1;
  }

  /** Tracked steps: completed plus failed stages. */
  function StepCount(log: Log): nat {
    if log == [] then 0
    else
      StepCount(Init(log)) + if Last(log).body.StageCompleted? || Last(log).body.StageFailed? then 1 else 0
  }

  method TotalStepEvents(events: Log) returns (total: nat)
    ensures total == StepCount(events)
  {
    total := 0;
    for i := 0 to |events|
      invariant total == StepCount(events[..i])
    {
      assert Init(events[..i + 1]) == events[..i];
      if events[i].body.StageCompleted? || events[i].body.StageFailed? {
        total := total + 1;
      }
    }
    assert events[..|events|] == events;
  }

  function CompletedStages(log: Log, cycle: int): set<Stage> {
    if log == [] then {}
    else
      CompletedStages(Init(log), cycle) +
      if Last(log).body.StageCompleted? && Effective(Last(log).body.cycle) == cycle
      then {Last(log).body.stage} else {}
  }

  /** The first stage, in pipeline order, that is not done. */
  function FirstMissing(done: set<Stage>): Option<Stage> {
    if Plan !in done then Some(Plan)
    else if Execute !in done then Some(Execute)
    else if Review !in done then Some(Review)
    else None
  }

  function NextStage(log: Log, cycle: int): Option<Stage> {
    FirstMissing(CompletedStages(log, cycle))
  }

  const STAGES := [Plan, Execute, Review]

  method ScanNextStage(events: Log, cycle: int) returns (next: Option<Stage>)
    ensures next == NextStage(events, cycle)
  {
    var completed: set<Stage> := {};
    for i := 0 to |events|
      invariant completed == CompletedStages(events[..i], cycle)
    {
      assert Init(events[..i + 1]) == events[..i];
      if !events[i].body.StageCompleted? {
        continue;
      }
      if Effective(events[i].body.cycle) != cycle {
        continue;
      }
      completed := completed + {events[i].body.stage};
    }
    assert events[..|events|] == events;
    for j := 0 to |STAGES|
      invariant forall k :: 0 <= k < j ==> STAGES[k] in completed
    {
      assert j == 0 || STAGES[0] in completed;
      assert j <= 1 || STAGES[1] in completed;
      if STAGES[j] !in completed {
        return Some(STAGES[j]);
      }
    }
    assert STAGES[0] in completed && STAGES[1] in completed && STAGES[2] in completed;
    return None;
  }

  function RetryEpoch(log: Log, stage: Stage, cycle: int): Option<real> {
    if log == [] then None
    else if Last(log).body.RetryScheduled? && Last(log).body.stage == stage && Effective(Last(log).body.cycle) == cycle
    then Some(Last(log).body.retryAt)
    else RetryEpoch(Init(log), stage, cycle)
  }

  method ScheduledRetryEpoch(events: Log, stage: Stage, cycle: int) returns (epoch: Option<real>)
    ensures epoch == RetryEpoch(events, stage, cycle)
  {
    var i := |events|;
    assert events[..i] == events;
    while i > 0
      invariant 0 <= i <= |events|
      invariant RetryEpoch(events, stage, cycle) == RetryEpoch(events[..i], stage, cycle)
    {
      assert Init(events[..i]) == events[..i - 1];
      i := i - 1;
      var body := events[i].body;
      if !body.RetryScheduled? {
        continue;
      }
      if body.stage != stage {
        continue;
      }
      if Effective(body.cycle) != cycle {
        continue;
      }
      return Some(body.retryAt);
    }
    return None;
  }

  predicate Marks(body: Body, stage: Stage, cycle: int) {
    || (body.StageStarted? && body.stage == stage && Effective(body.cycle) == cycle)
    || Ends(body, stage, cycle)
  }

  predicate Ends(body: Body, stage: Stage, cycle: int) {
    (body.StageCompleted? || body.StageFailed?) && body.stage == stage && Effective(body.cycle) == cycle
  }

  function StartedAt(log: Log, stage: Stage, cycle: int): Option<real> {
    if log == [] then None
    else
      var body := Last(log).body;
      if body.StageStarted? && body.stage == stage && Effective(body.cycle) == cycle then Some(Last(log).at)
      else StartedAt(Init(log), stage, cycle)
  }

  function EndedAt(log: Log, stage: Stage, cycle: int): Option<real> {
    if log == [] then None
    else if Ends(Last(log).body, stage, cycle) then Some(Last(log).at)
    else EndedAt(Init(log), stage, cycle)
  }

  predicate Inflight(log: Log, stage: Stage, cycle: int) {
    && StartedAt(log, stage, cycle).Some?
    && (EndedAt(log, stage, cycle).Some? ==> EndedAt(log, stage, cycle).value < StartedAt(log, stage, cycle).value)
  }

  method StageInflight(events: Log, stage: Stage, cycle: int) returns (running: bool)
    ensures running == Inflight(events, stage, cycle)
  {
    var startedAt: Option<real> := None;
    var terminalAt: Option<real> := None;
    for i := 0 to |events|
      invariant startedAt == StartedAt(events[..i], stage, cycle)
      invariant terminalAt == EndedAt(events[..i], stage, cycle)
    {
      assert Init(events[..i + 1]) == events[..i];
      var body := events[i].body;
      if Marks(body, stage, cycle) {
        if body.StageStarted? {
          startedAt := Some(events[i].at);
        } else {
          terminalAt := Some(events[i].at);
        }
      }
    }
    assert events[..|events|] == events;
    running := startedAt.Some? && (terminalAt.None? || terminalAt.value < startedAt.value);
  }

  function Failures(log: Log, stage: Stage, cycle: int): nat {
    if log == [] then 0
    else
      var body := Last(log).body;
      Failures(Init(log), stage, cycle) +
      if body.StageFailed? && body.stage == stage && Effective(body.cycle) == cycle then 1 else 0
  }

  method FailedAttempts(events: Log, stage: Stage, cycle: int) returns (count: nat)
    ensures count == Failures(events, stage, cycle)
  {
    count := 0;
    for i := 0 to |events|
      invariant count == Failures(events[..i], stage, cycle)
    {
      assert Init(events[..i + 1]) == events[..i];
      var body := events[i].body;
      if !body.StageFailed? {
        continue;
      }
      if Effective(body.cycle) != cycle {
        continue;
      }
      if body.stage == stage {
        count := count + 1;
      }
    }
    assert events[..|events|] == events;
  }

  // ---- repeated-failure runs ----

  /** The length of the run of newest failures that share this stage and signature. */
  function FailureRun(log: Log, stage: Stage, signature: string): nat {
    if log == [] then 0
    else if !Last(log).body.StageFailed? then FailureRun(Init(log), stage, signature)
    else if Last(log).body.stage == stage && Last(log).body.signature == signature
    then 1 + FailureRun(Init(log), stage, signature)
    else 0
  }

  method IsLowInformationFailure(events: Log, stage: Stage, signature: string, threshold: nat) returns (stop: bool)
    ensures stop == (signature != "" && FailureRun(events, stage, signature) >= threshold - 1)
  {
    if signature == "" {
      return false;
    }
    var count := 0;
    var i := |events|;
    assert events[..i] == events;
    while i > 0
      invariant 0 <= i <= |events|
      invariant FailureRun(events, stage, signature) == count + FailureRun(events[..i], stage, signature)
    {
      assert Init(events[..i]) == events[..i - 1];
      i := i - 1;
      var body := events[i].body;
      if !body.StageFailed? {
        continue;
      }
      if body.stage != stage {
        break;
      }
      if body.signature == signature {
        count := count + 1;
      } else {
        break;
      }
    }
    return count >= threshold - 1;
  }

  function QualityRun(log: Log, stage: Stage, signature: string): nat {
    if log == [] then 0
    else if !Last(log).body.QualityFailed? then QualityRun(Init(log), stage, signature)
    else if Last(log).body.stage == stage && Last(log).body.signature == signature
    then 1 + QualityRun(Init(log), stage, signature)
    else 0
  }

  method IsLowInformationQualityFailure(events: Log, stage: Stage, signature: string, threshold: nat)
    returns (stop: bool)
    ensures stop == (signature != "" && QualityRun(events, stage, signature) >= threshold - 1)
  {
    if signature == "" {
      return false;
    }
    var count := 0;
    var i := |events|;
    assert events[..i] == events;
    while i > 0
      invariant 0 <= i <= |events|
      invariant QualityRun(events, stage, signature) == count + QualityRun(events[..i], stage, signature)
    {
      assert Init(events[..i]) == events[..i - 1];
      i := i - 1;
      var body := events[i].body;
      if !body.QualityFailed? {
        continue;
      }
      if body.stage != stage {
        break;
      }
      if body.signature == signature {
        count := count + 1;
      } else {
        break;
      }
    }
    return count >= threshold - 1;
  }

  // ---- in-flight detection and timestamps ----

  /** The newest start or terminal event of the stage in the cycle is a start. */
  predicate LastMarkIsStart(log: Log, stage: Stage, cycle: int) {
    log != [] &&
    if Marks(Last(log).body, stage, cycle) then Last(log).body.StageStarted?
    else LastMarkIsStart(Init(log), stage, cycle)
  }

  predicate Chronological(log: Log) {
    forall i, j :: 0 <= i < j < |log| ==> log[i].at <= log[j].at
  }

  lemma {:induction false} MarkTimes(log: Log, stage: Stage, cycle: int)
    requires Chronological(log)
    ensures StartedAt(log, stage, cycle).Some? ==> exists i :: 0 <= i < |log| && StartedAt(log, stage, cycle) == Some(log[i].at)
    ensures EndedAt(log, stage, cycle).Some? ==> exists i :: 0 <= i < |log| && EndedAt(log, stage, cycle) == Some(log[i].at)
    ensures LastMarkIsStart(log, stage, cycle) ==> StartedAt(log, stage, cycle).Some?
    ensures LastMarkIsStart(log, stage, cycle) && EndedAt(log, stage, cycle).Some?
            ==> EndedAt(log, stage, cycle).value <= StartedAt(log, stage, cycle).value
    ensures !LastMarkIsStart(log, stage, cycle) && StartedAt(log, stage, cycle).Some?
            ==> EndedAt(log, stage, cycle).Some? && StartedAt(log, stage, cycle).value <= EndedAt(log, stage, cycle).value
  {
    if log == [] {
    } else {
      MarkTimes(Init(log), stage, cycle);
      assert forall i :: 0 <= i < |Init(log)| ==> Init(log)[i] == log[i];
    }
  }

  /** On a chronological log a stage is seen as running exactly when its newest mark is a start
      that does not share its timestamp with the latest terminal event. */
  lemma InflightIffLastMarkIsStart(log: Log, stage: Stage, cycle: int)
    requires Chronological(log)
    ensures Inflight(log, stage, cycle)
            <==> LastMarkIsStart(log, stage, cycle) && EndedAt(log, stage, cycle) != StartedAt(log, stage, cycle)
  {
    MarkTimes(log, stage, cycle);
  }

  lemma AddMark(log: Log, at: real, body: Body, stage: Stage, cycle: int)
    requires Marks(body, stage, cycle)
    ensures var more := Add(log, at, body);
            && LastMarkIsStart(more, stage, cycle) == body.StageStarted?
            && StartedAt(more, stage, cycle) == (if body.StageStarted? then Some(at) else StartedAt(log, stage, cycle))
            && EndedAt(more, stage, cycle) == (if body.StageStarted? then EndedAt(log, stage, cycle) else Some(at))
  {
    assert Init(Add(log, at, body)) == log;
  }

  /** With equal timestamps a restarted stage is not seen as running. */
  lemma EqualTimestampsHideARunningStage() returns (log: Log)
    ensures Chronological(log) && LastMarkIsStart(log, Plan, 1) && !Inflight(log, Plan, 1)
  {
    hide LastMarkIsStart, StartedAt, EndedAt;
    var failed := Add([], 2.0, StageFailed(Plan, 1, 1, "s"));
    log := Add(failed, 2.0, StageStarted(Plan, 1));
    AddMark([], 2.0, StageFailed(Plan, 1, 1, "s"), Plan, 1);
    AddMark(failed, 2.0, StageStarted(Plan, 1), Plan, 1);
  }
}
