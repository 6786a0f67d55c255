/** Parents and the children they fan out: who waits for whom, and why some member can always move. */
module Family {
  import opened EventLog
  import opened TaskGate
  import opened Engine
  import opened Discipline

  type Tasks = map<TaskId, TaskState>

  // ---- fan-out ----

  function ParsePositive(raw: Option<int>, default: nat, maximum: nat): nat {
    match raw
    case None => default
    case Some(n) => if n < 1 then default else Min(n, maximum)
  }

  const TEMPLATES := [Analysis, Implementation, ReviewType, Integration]

  function ChildCount(info: Info): nat {
    Min(ParsePositive(info.spawnCount, 3, 8), |TEMPLATES|)
  }

  function ChildInfo(parent: TaskId, info: Info, i: nat): Info
    requires i < |TEMPLATES|
  {
    Info(TEMPLATES[i], Some(parent), false, info.spawnCount)
  }

  function CreateChildren(tasks: Tasks, parent: TaskId, info: Info, ids: seq<TaskId>): Tasks
    requires |ids| <= |TEMPLATES|
  {
    if ids == [] then tasks
    else
      CreateChildren(tasks, parent, info, ids[..|ids| - 1])
        [ids[|ids| - 1] := Fresh(ChildInfo(parent, info, |ids| - 1))]
  }

  /** The fan-out loop: one task per selected template, in order. */
  method SpawnOnce(tasks: Tasks, parent: TaskId, info: Info, newIds: seq<TaskId>) returns (grown: Tasks, spawned: seq<TaskId>)
    requires |newIds| == ChildCount(info)
    ensures grown == CreateChildren(tasks, parent, info, newIds) && spawned == newIds
  {
    var count := ParsePositive(info.spawnCount, 3, 8);
    var selected := TEMPLATES[..Min(count, |TEMPLATES|)];
    grown, spawned := tasks, [];
    for i := 0 to |selected|
      invariant spawned == newIds[..i]
      invariant grown == CreateChildren(tasks, parent, info, newIds[..i])
    {
      assert newIds[..i + 1][..i] == newIds[..i];
      grown := grown[newIds[i] := Fresh(Info(selected[i], Some(parent), false, info.spawnCount))];
      spawned := spawned + [newIds[i]];
    }
    assert newIds[..|newIds|] == newIds;
  }

  // ---- what a task sees of the others ----

  function Statuses(tasks: Tasks): map<TaskId, Status> {
    map id | id in tasks :: tasks[id].status
  }

  function SpawnedIds(log: Log): seq<TaskId> {
    match Latest(log, KSubtasksSpawned)
    case Some(Event(_, SubtasksSpawned(ids))) => ids
    case _ => []
  }

  predicate IsAnalysis(tasks: Tasks, id: TaskId) {
    id in tasks && tasks[id].info.taskType == Analysis
  }

  /** The bootstrap saves a baton together with the `started` event. */
  predicate HasBaton(tasks: Tasks, id: TaskId) {
    id in tasks && Latest(tasks[id].log, KStarted).Some?
  }

  predicate Recommends(tasks: Tasks, id: TaskId) {
    IsAnalysis(tasks, id) && Latest(ListEvents(tasks[id].log, 200), KRecommendedImprovement).Some?
  }

  predicate AnalysisWith(tasks: Tasks, id: TaskId, status: Status) {
    IsAnalysis(tasks, id) && tasks[id].status == status
  }

  predicate AnalysisPending(tasks: Tasks, id: TaskId) {
    IsAnalysis(tasks, id) && tasks[id].status != Status.Completed
  }

  predicate AnalysisBaton(tasks: Tasks, id: TaskId) {
    IsAnalysis(tasks, id) && HasBaton(tasks, id)
  }

  /** What an implementation child learns about its analysis siblings. */
  function RecommendationState(tasks: Tasks, ids: seq<TaskId>): SiblingState {
    if exists i :: 0 <= i < |ids| && Recommends(tasks, ids[i]) then SiblingReady
    else if forall i :: 0 <= i < |ids| ==> !IsAnalysis(tasks, ids[i]) then SiblingReady
    else if exists i :: 0 <= i < |ids| && AnalysisWith(tasks, ids[i], Blocked) then SiblingBlocked
    else if exists i :: 0 <= i < |ids| && AnalysisPending(tasks, ids[i]) then SiblingWaiting
    else if exists i :: 0 <= i < |ids| && AnalysisBaton(tasks, ids[i]) then SiblingReady
    else SiblingBlocked
  }

  /** The first loop: the analysis children, unless one has already recommended something. */
  method CollectAnalysis(tasks: Tasks, ids: seq<TaskId>) returns (recommended: bool, analysis: seq<TaskId>)
    ensures recommended <==> exists i :: 0 <= i < |ids| && Recommends(tasks, ids[i])
    ensures !recommended ==> forall id :: id in analysis <==> id in ids && IsAnalysis(tasks, id)
  {
    analysis := [];
    for i := 0 to |ids|
      invariant forall k :: 0 <= k < i ==> !Recommends(tasks, ids[k])
      invariant forall id :: id in analysis <==> id in ids[..i] && IsAnalysis(tasks, id)
    {
      assert forall id :: id in ids[..i + 1] <==> id in ids[..i] || id == ids[i];
      if ids[i] !in tasks || tasks[ids[i]].info.taskType != Analysis {
        continue;
      }
      analysis := analysis + [ids[i]];
      var events := ListProjectEvents(tasks[ids[i]].log, 200);
      var recommendation := LatestEvent(events, KRecommendedImprovement);
      if recommendation != None {
        assert Recommends(tasks, ids[i]);
        return true, analysis;
      }
    }
    assert ids[..|ids|] == ids;
    return false, analysis;
  }

  /** The two comprehensions and the baton loop over the analysis children. */
  method JudgeAnalysis(tasks: Tasks, analysis: seq<TaskId>) returns (blocked: bool, pending: bool, baton: bool)
    requires forall id :: id in analysis ==> IsAnalysis(tasks, id)
    ensures blocked <==> exists id :: id in analysis && AnalysisWith(tasks, id, Blocked)
    ensures pending <==> exists id :: id in analysis && AnalysisPending(tasks, id)
    ensures baton <==> exists id :: id in analysis && AnalysisBaton(tasks, id)
  {
    blocked, pending, baton := false, false, false;
    for i := 0 to |analysis|
      invariant blocked <==> exists k :: 0 <= k < i && AnalysisWith(tasks, analysis[k], Blocked)
      invariant pending <==> exists k :: 0 <= k < i && AnalysisPending(tasks, analysis[k])
      invariant baton <==> exists k :: 0 <= k < i && AnalysisBaton(tasks, analysis[k])
    {
      assert analysis[i] in analysis;
      blocked := blocked || tasks[analysis[i]].status == Blocked;
      pending := pending || tasks[analysis[i]].status != Status.Completed;
      var started := LatestEvent(tasks[analysis[i]].log, KStarted);
      baton := baton || started != None;
    }
  }

  method RecommendedImprovementState(tasks: Tasks, ids: seq<TaskId>) returns (state: SiblingState)
    ensures state == RecommendationState(tasks, ids)
  {
    var recommended, analysis := CollectAnalysis(tasks, ids);
    if recommended {
      return SiblingReady;
    }
    if analysis == [] {
      return SiblingReady;
    }
    assert analysis[0] in analysis;
    var blocked, pending, baton := JudgeAnalysis(tasks, analysis);
    if blocked {
      return SiblingBlocked;
    }
    if pending {
      return SiblingWaiting;
    }
    return if baton then SiblingReady else SiblingBlocked;
  }

  /** The sibling gate's view of a task: it is bound only through its parent. */
  function SiblingOf(tasks: Tasks, id: TaskId): SiblingState
    requires id in tasks
  {
    match tasks[id].info.parent
    case None => NotBound
    case Some(parent) =>
      if parent in tasks then RecommendationState(tasks, SpawnedIds(ListEvents(tasks[parent].log, 500)))
      else RecommendationState(tasks, [])
  }

  // ---- steps of a family ----

  datatype FamilyStep = Create(id: TaskId, info: Info) | OnTask(id: TaskId, step: Step)

  /** The settlement of an accepted plan of a task that fans out and has not done so. */
  predicate WillSpawn(cfg: Config, st: TaskState, step: Step) {
    && step.SettleStep? && step.index < |st.pending| && step.outcome.Finished?
    && st.pending[step.index].stage == Plan && Accepted(cfg, Plan, step.outcome.output)
    && st.info.autoSpawn && Latest(ListEvents(st.log, 500), KSubtasksSpawned).None?
  }

  predicate Distinct(ids: seq<TaskId>) {
    forall i, j :: 0 <= i < j < |ids| ==> ids[i] != ids[j]
  }

  ghost predicate FamilyEnabled(rules: Rules, tasks: Tasks, s: FamilyStep) {
    match s
    case Create(id, info) => id !in tasks && info.parent.None?
    case OnTask(id, step) =>
      && id in tasks && Enabled(tasks[id], step) && Conforms(rules, step)
      && (step.TickStep? ==> step.inp.children == Statuses(tasks) && step.inp.sibling == SiblingOf(tasks, id))
      && (WillSpawn(rules.cfg, tasks[id], step) ==>
            var ids := step.outcome.output.spawned;
            |ids| == ChildCount(tasks[id].info) && Distinct(ids) && forall i :: 0 <= i < |ids| ==> ids[i] !in tasks)
      && |Perform(rules.cfg, tasks[id], step).log| <= STORE_LIMIT
  }

  function FamilyPerform(rules: Rules, tasks: Tasks, s: FamilyStep): Tasks
    requires FamilyEnabled(rules, tasks, s)
  {
    match s
    case Create(id, info) => tasks[id := Fresh(info)]
    case OnTask(id, step) =>
      var grown :=
        if WillSpawn(rules.cfg, tasks[id], step)
        then CreateChildren(tasks, id, tasks[id].info, step.outcome.output.spawned)
        else tasks;
      grown[id := Perform(rules.cfg, tasks[id], step)]
  }
}
