/** What is lost when a task's log outgrows the 200 events that the store returns. */
module Window {
  import opened EventLog
  import opened TaskGate
  import opened Engine
  import opened Discipline
  import opened Runs
  import opened LogTheorems

  predicate OnlyNotes(log: Log) {
    forall i :: 0 <= i < |log| ==> log[i].body.Note?
  }

  lemma {:induction false} NotesTellNothing(log: Log, kind: Kind, stage: Stage, cycle: int)
    requires OnlyNotes(log) && kind != KUntracked
    ensures Latest(log, kind) == None
    ensures StepCount(log) == 0 && CompletedStages(log, cycle) == {}
    ensures RetryEpoch(log, stage, cycle) == None && StartedAt(log, stage, cycle) == None
  {
    if log == [] {
    } else {
      NotesTellNothing(Init(log), kind, stage, cycle);
    }
  }

  lemma AddTellsNothing(log: Log, at: real, body: Body, stage: Stage, cycle: int)
    requires !body.StageStarted? && !body.StageCompleted? && !body.RetryScheduled?
    requires CompletedStages(log, cycle) == {} && RetryEpoch(log, stage, cycle) == None && StartedAt(log, stage, cycle) == None
    ensures var more := Add(log, at, body);
            CompletedStages(more, cycle) == {} && RetryEpoch(more, stage, cycle) == None && StartedAt(more, stage, cycle) == None
  {
    assert Init(Add(log, at, body)) == log;
  }

  lemma BootstrapTellsNothing(notes: Log, at: real)
    requires OnlyNotes(notes)
    ensures var log := Add(Add(notes, at, Started), at, CycleStarted(1));
            && CompletedStages(log, 1) == {} && RetryEpoch(log, Plan, 1) == None && StartedAt(log, Plan, 1) == None
  {
    hide CompletedStages, RetryEpoch, StartedAt;
    NotesTellNothing(notes, KStarted, Plan, 1);
    AddTellsNothing(notes, at, Started, Plan, 1);
    AddTellsNothing(Add(notes, at, Started), at, CycleStarted(1), Plan, 1);
  }

  /** Once the newest 200 events of an active task are all notes, a tick sees an empty history: it
      bootstraps again, records cycle 1 again and starts the plan stage, whatever is in flight. */
  lemma FullWindowForgets(cfg: Config, st: TaskState, inp: TickInput)
    requires ValidConfig(cfg) && Active(st) && |st.log| >= STORE_LIMIT
    requires OnlyNotes(st.log[|st.log| - STORE_LIMIT..]) && inp.early.None?
    ensures Tick(cfg, st, inp).1 == StageBegan
    ensures Tick(cfg, st, inp).0.log
            == Add(Add(Add(st.log, inp.now, Started), inp.now, CycleStarted(1)), inp.now, StageStarted(Plan, 1))
    ensures |Tick(cfg, st, inp).0.pending| == |st.pending| + 1
  {
    hide Latest, StepCount, CompletedStages, RetryEpoch, StartedAt, EndedAt, CurrentCycle;
    var window := st.log[|st.log| - STORE_LIMIT..];
    assert ListEvents(st.log, 500) == window;
    var begun := Bootstrap(st.(status := InProgress), inp.now);
    NotesTellNothing(window, KStarted, Plan, 1);
    NotesTellNothing(window, KSubtasksSpawned, Plan, 1);
    assert begun.log == Add(Add(st.log, inp.now, Started), inp.now, CycleStarted(1));
    var kept := window[2..];
    assert ListEvents(begun.log, 500) == Add(Add(kept, inp.now, Started), inp.now, CycleStarted(1));
    BootstrapTellsNothing(kept, inp.now);
  }

  function NoteSteps(n: nat, from: nat): seq<Step> {
    seq(n, i requires 0 <= i < n => OutsideStep(Note(""), (from + i) as real))
  }

  lemma NotesExtend(log: Log, at: real, more: Log)
    requires |log| + 1 <= |more| && more[..|log| + 1] == Add(log, at, Note("")) && OnlyNotes(more[|log| + 1..])
    ensures more[..|log|] == log && OnlyNotes(more[|log|..])
  {
    assert more[|log|] == more[..|log| + 1][|log|];
    assert more[|log|..] == [more[|log|]] + more[|log| + 1..];
  }

  lemma {:induction false} NotesRun(rules: Rules, st: TaskState, n: nat, from: nat)
    requires st.log != [] ==> Last(st.log).at < from as real
    ensures Feasible(rules, st, NoteSteps(n, from))
    ensures var after := After(rules, st, NoteSteps(n, from));
            && |after.log| == |st.log| + n && after == st.(log := after.log)
            && after.log[..|st.log|] == st.log && OnlyNotes(after.log[|st.log|..])
            && (after.log != [] && n > 0 ==> Last(after.log).at < (from + n) as real)
    decreases n
  {
    hide Tick, Settle, SetApproval;
    if n == 0 {
    } else {
      var steps := NoteSteps(n, from);
      var next := Append(st, from as real, Note(""));
      assert steps[0] == OutsideStep(Note(""), from as real);
      assert steps[1..] == NoteSteps(n - 1, from + 1);
      NotesRun(rules, next, n - 1, from + 1);
      assert Perform(rules.cfg, st, steps[0]) == next;
      NotesExtend(st.log, from as real, After(rules, next, NoteSteps(n - 1, from + 1)).log);
    }
  }

  function QuietTick(now: real): TickInput {
    TickInput(now, true, 0, map[], NotBound, None)
  }

  /** The log after a bootstrap of a fresh task at time 0. */
  function FirstLog(): Log {
    Add(Add([], 0.0, Started), 0.0, CycleStarted(1))
  }

  lemma FirstScans(children: map<TaskId, Status>)
    ensures var none: Log := [];
            && ListEvents(none, 500) == none && ChildGateOf(none, children) == NoChildren && StepCount(none) == 0
            && Latest(none, KStarted) == None
    ensures ListEvents(FirstLog(), 500) == FirstLog() && NextStage(FirstLog(), 1) == Some(Plan)
    ensures StartedAt(FirstLog(), Plan, 1) == None && RetryEpoch(FirstLog(), Plan, 1) == None
  {
    hide CompletedStages, StartedAt, RetryEpoch;
    var none: Log := [];
    NotesTellNothing(none, KStarted, Plan, 1);
    NotesTellNothing(none, KSubtasksSpawned, Plan, 1);
    BootstrapTellsNothing(none, 0.0);
    WindowExact(FirstLog(), 500);
  }

  lemma FirstTickReachesGates(cfg: Config, info: Info, inp: TickInput)
    requires ValidConfig(cfg) && inp.now == 0.0
    ensures Tick(cfg, Fresh(info), inp)
            == ApprovalGate(cfg, Fresh(info).(status := InProgress, log := FirstLog()), inp, Plan, 1)
  {
    FirstScans(inp.children);
    hide Latest, StepCount, ListEvents, ChildGateOf, NextStage, CurrentCycle, ApprovalGate;
    assert Bootstrap(Fresh(info).(status := InProgress), 0.0) == Fresh(info).(status := InProgress, log := FirstLog());
  }

  lemma FirstTick(cfg: Config, info: Info)
    requires ValidConfig(cfg)
    ensures var next := Tick(cfg, Fresh(info), QuietTick(0.0)).0;
            && next.log == [Event(0.0, Started), Event(0.0, CycleStarted(1)), Event(0.0, StageStarted(Plan, 1))]
            && next.status == InProgress && next.info == info
            && |next.pending| == 1 && next.pending[0].stage == Plan && next.pending[0].cycle == 1
  {
    hide Tick, Latest, ListEvents, RetryEpoch, StartedAt, EndedAt;
    FirstTickReachesGates(cfg, info, QuietTick(0.0));
    FirstScans(map[]);
  }

  lemma {:induction false} NotesStartNothing(log: Log, notes: Log)
    requires OnlyNotes(notes)
    ensures TotalStarts(log + notes) == TotalStarts(log)
  {
    if notes == [] {
      assert log + notes == log;
    } else {
      assert Init(log + notes) == log + Init(notes);
      NotesStartNothing(log, Init(notes));
    }
  }

  lemma AddStarts(log: Log, at: real, body: Body)
    ensures TotalStarts(Add(log, at, body)) == TotalStarts(log) + if body.StageStarted? then 1 else 0
  {
    assert Init(Add(log, at, body)) == log;
  }

  lemma TickStarts(log: Log, at: real)
    ensures TotalStarts(Add(Add(Add(log, at, Started), at, CycleStarted(1)), at, StageStarted(Plan, 1))) == TotalStarts(log) + 1
  {
    hide TotalStarts;
    AddStarts(log, at, Started);
    AddStarts(Add(log, at, Started), at, CycleStarted(1));
    AddStarts(Add(Add(log, at, Started), at, CycleStarted(1)), at, StageStarted(Plan, 1));
  }

  /** A run in which 200 outside events follow the first tick: the second tick records cycle 1 a second
      time and puts a second plan run in flight, so no guarantee survives a log that outgrows the window.
      With a step budget of one the two starts exceed it. */
  lemma LongLogsBreakTheGuarantees(rules: Rules, info: Info) returns (steps: seq<Step>)
    requires ValidConfig(rules.cfg)
    ensures Feasible(rules, Fresh(info), steps)
    ensures |After(rules, Fresh(info), steps).pending| == 2
    ensures TotalStarts(After(rules, Fresh(info), steps).log) == 2
    ensures Active(After(rules, Fresh(info), steps))
    ensures exists i, j :: 0 <= i < j < |After(rules, Fresh(info), steps).log|
              && After(rules, Fresh(info), steps).log[i].body == CycleStarted(1)
              && After(rules, Fresh(info), steps).log[j].body == CycleStarted(1)
  {
    hide Tick, Feasible, After, NoteSteps, ListEvents, OnlyNotes, TotalStarts;
    var start := Fresh(info);
    EmptyRun(rules, start);
    FirstTick(rules.cfg, info);
    ExtendRun(rules, start, [], TickStep(QuietTick(0.0)));
    var first := [] + [TickStep(QuietTick(0.0))];
    var one := After(rules, start, first);
    NotesRun(rules, one, STORE_LIMIT, 1);
    var noted := After(rules, one, NoteSteps(STORE_LIMIT, 1));
    RunConcat(rules, start, first, NoteSteps(STORE_LIMIT, 1));
    FullWindowForgets(rules.cfg, noted, QuietTick(1000.0));
    ExtendRun(rules, start, first + NoteSteps(STORE_LIMIT, 1), TickStep(QuietTick(1000.0)));
    steps := first + NoteSteps(STORE_LIMIT, 1) + [TickStep(QuietTick(1000.0))];
    StillActive(rules.cfg, noted, QuietTick(1000.0));
    TwoStarts(one.log, noted.log, After(rules, start, steps).log);
  }

  lemma TwoStarts(first: Log, noted: Log, log: Log)
    requires first == [Event(0.0, Started), Event(0.0, CycleStarted(1)), Event(0.0, StageStarted(Plan, 1))]
    requires |noted| >= |first| && noted[..|first|] == first && OnlyNotes(noted[|first|..])
    requires log == Add(Add(Add(noted, 1000.0, Started), 1000.0, CycleStarted(1)), 1000.0, StageStarted(Plan, 1))
    ensures TotalStarts(log) == 2
    ensures |log| == |noted| + 3 && log[1].body == CycleStarted(1) && log[|noted| + 1].body == CycleStarted(1)
  {
    assert log[1] == noted[..|first|][1];
    var none: Log := [];
    assert first == Add(Add(Add(none, 0.0, Started), 0.0, CycleStarted(1)), 0.0, StageStarted(Plan, 1));
    TickStarts(none, 0.0);
    assert noted == first + noted[|first|..];
    hide TotalStarts;
    NotesStartNothing(first, noted[|first|..]);
    TickStarts(noted, 1000.0);
    assert TotalStarts(none) == 0 by { NothingStarted(); }
  }

  lemma NothingStarted()
    ensures TotalStarts([]) == 0
  {
  }

  lemma StillActive(cfg: Config, st: TaskState, inp: TickInput)
    requires Active(st) && Tick(cfg, st, inp).1 == StageBegan
    ensures Active(Tick(cfg, st, inp).0)
  {
    hide ListEvents, Latest, NextStage, StepCount, ChildGateOf, RetryEpoch, Inflight, HandleStageFailure, CurrentCycle;
  }
}
