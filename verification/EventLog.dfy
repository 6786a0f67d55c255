/** The append-only project-event log of one task, and the bounded window of it that
    every reader of the store gets. */
module EventLog {

  datatype Option<+T> = None | Some(value: T)

  type TaskId = nat

  /** AUTONOMY_STAGES, in the order in which a cycle runs them. */
  datatype Stage = Plan | Execute | Review

  datatype Status = New | InProgress | Blocked | Completed

  /** What a failure text mentions: the phrases the failure classifier looks for. */
  datatype Reason = Reason(
    noChanges: bool, verificationFailed: bool, mentionsProvider: bool, mentionsApproval: bool)

  datatype Category =
    | StageFailure | EnvironmentFailure | ProviderFailure | PolicyBlock | RiskGuardrail
    | VerificationFailure | AcceptanceFailure | NoArtifactChange | OtherCategory

  /** Event payloads.  A `cycle` of 0 stands for an absent or unreadable field: every reader
      treats the two alike.  `passed` on StageCompleted is the verdict that the source stores
      in the snapshot written together with the event.  `concrete` on PlanCreated says whether
      the stored plan reads back as a concrete one.  A Note is any event that no control scan reads. */
  datatype Body =
    | Started
    | CycleStarted(cycle: int)
    | StageStarted(stage: Stage, cycle: int)
    | StageCompleted(stage: Stage, cycle: int, passed: bool)
    | StageFailed(stage: Stage, cycle: int, attempt: nat, signature: string)
    | RetryScheduled(stage: Stage, cycle: int, attempt: nat, retryAt: real)
    | QualityFailed(stage: Stage, cycle: int, signature: string)
    | ReviewFailed(cycle: int)
    | LowInfoStopped(stage: Stage, cycle: int)
    | TaskFailed
    | TaskCompleted
    | ApprovalRequested
    | Approval(approved: bool)
    | PlanCreated(cycle: int, concrete: bool)
    | PlanMissing(cycle: int)
    | PlanBlocked(cycle: int)
    | SubtasksSpawned(children: seq<TaskId>)
    | ChildrenCompleted
    | RecommendedImprovement
    | RunFailed(cycle: int, reason: Option<Reason>)
    | WorkspaceFailed(cycle: int, category: Category, reason: Option<Reason>)
    | Note(text: string)

  datatype Event = Event(at: real, body: Body)

  type Log = seq<Event>

  function Init(log: Log): Log
    requires log != []
  {
    log[..|log| - 1]
  }

  function Last(log: Log): Event
    requires log != []
  {
    log[|log| - 1]
  }

  function Add(log: Log, at: real, body: Body): Log {
    log + [Event(at, body)]
  }

  function Min(a: int, b: int): int { if a <= b then a else b }

  function Max(a: int, b: int): int { if a >= b then a else b }

  const STORE_LIMIT := 200

  /** The last min(max(limit, 1), 200) events, oldest first. */
  function ListEvents(log: Log, limit: int): Log {
    log[Max(|log| - Min(Max(limit, 1), STORE_LIMIT), 0)..]
  }

  /** The store selects newest first, collects the rows and reverses them in place. */
  method ListProjectEvents(log: Log, limit: int) returns (parsed: Log)
    ensures parsed == ListEvents(log, limit)
  {
    var boundedLimit := Min(Max(limit, 1), STORE_LIMIT);
    var rows: seq<Event> := [];
    var next := |log|;
    while next > 0 && |rows| < boundedLimit
      invariant 0 <= next <= |log|
      invariant |rows| == |log| - next <= boundedLimit
      invariant forall k :: 0 <= k < |rows| ==> rows[k] == log[|log| - 1 - k]
    {
      next := next - 1;
      rows := rows + [log[next]];
    }
    parsed := [];
    var i := |rows|;
    while i > 0
      invariant 0 <= i <= |rows|
      invariant |parsed| == |rows| - i
      invariant forall k :: 0 <= k < |parsed| ==> parsed[k] == rows[|rows| - 1 - k]
    {
      i := i - 1;
      parsed := parsed + [rows[i]];
    }
  }

  /** A reader that asks for 200 or more events sees the whole log exactly when it has at most 200. */
  lemma WindowExact(log: Log, limit: int)
    requires limit >= STORE_LIMIT
    ensures ListEvents(log, limit) == log <==> |log| <= STORE_LIMIT
  {
    assert |ListEvents(log, limit)| == Min(|log|, STORE_LIMIT);
  }

  function Effective(cycle: int): int {
    if cycle == 0 then 1 else cycle
  }
}
