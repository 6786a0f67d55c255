/** An incremental control state: one record, updated per event, that answers every scan of
    the task gate (and carries the history that the whole-run theorems speak of). */
module ControlState {
  import opened EventLog
  import opened TaskGate

  datatype Key = Key(stage: Stage, cycle: int)

  /** What the log says about one stage in one cycle. */
  datatype Track = Track(
    starts: nat, fails: nat, done: bool, passed: bool,
    startedAt: Option<real>, endedAt: Option<real>, retryAt: Option<real>,
    firstFail: Option<real>, lastFail: Option<real>)

  /** A run of equal newest failures; `length` is 0 before the first one. */
  datatype Run = Run(stage: Stage, signature: string, length: nat)

  datatype Control = Control(
    latest: map<Kind, Event>, cycle: int, cycles: nat, steps: nat, starts: nat,
    tracks: map<Key, Track>, failRun: Run, qualityRun: Run, rejected: bool, lastAt: Option<real>)

  const FRESH := Track(0, 0, false, false, None, None, None, None, None)
  const NO_RUN := Run(Plan, "", 0)
  const EMPTY := Control(map[], 1, 0, 0, 0, map[], NO_RUN, NO_RUN, false, None)

  function Lookup<K, V>(m: map<K, V>, key: K): Option<V> {
    if key in m then Some(m[key]) else None
  }

  function TrackOf(tracks: map<Key, Track>, key: Key): Track {
    if key in tracks then tracks[key] else FRESH
  }

  function RunLength(run: Run, stage: Stage, signature: string): nat {
    if run.stage == stage && run.signature == signature then run.length else 0
  }

  function Extend(run: Run, stage: Stage, signature: string): Run {
    Run(stage, signature, RunLength(run, stage, signature) + 1)
  }

  predicate OfStage(body: Body) {
    body.StageStarted? || body.StageCompleted? || body.StageFailed? || body.RetryScheduled?
  }

  function KeyOf(body: Body): Key
    requires OfStage(body)
  {
    Key(body.stage, Effective(body.cycle))
  }

  function Touch(t: Track, e: Event): Track {
    match e.body
    case StageStarted(_, _) => t.(startedAt := Some(e.at), starts := t.starts + 1)
    case StageCompleted(_, _, passed) => t.(done := true, passed := t.passed || passed, endedAt := Some(e.at))
    case StageFailed(_, _, _, _) =>
      t.(fails := t.fails + 1, endedAt := Some(e.at), lastFail := Some(e.at),
         firstFail := if t.firstFail.None? then Some(e.at) else t.firstFail)
    case RetryScheduled(_, _, _, retryAt) => t.(retryAt := Some(retryAt))
    case _ => t
  }

  function Tracks(tracks: map<Key, Track>, e: Event): map<Key, Track> {
    if OfStage(e.body) then tracks[KeyOf(e.body) := Touch(TrackOf(tracks, KeyOf(e.body)), e)] else tracks
  }

  function LatestOf(latest: map<Kind, Event>, e: Event): map<Kind, Event> {
    if KindOf(e.body) == KUntracked then latest else latest[KindOf(e.body) := e]
  }

  predicate IsTerminal(body: Body) {
    body.StageCompleted? || body.StageFailed?
  }

  function Apply(c: Control, e: Event): Control {
    Control(
      LatestOf(c.latest, e),
      if e.body.CycleStarted? && e.body.cycle >= 1 then e.body.cycle else c.cycle,
      if e.body.CycleStarted? then c.cycles + 1 else c.cycles,
      if IsTerminal(e.body) then c.steps + 1 else c.steps,
      if e.body.StageStarted? then c.starts + 1 else c.starts,
      Tracks(c.tracks, e),
      if e.body.StageFailed? then Extend(c.failRun, e.body.stage, e.body.signature) else c.failRun,
      if e.body.QualityFailed? then Extend(c.qualityRun, e.body.stage, e.body.signature) else c.qualityRun,
      c.rejected || (e.body.Approval? && !e.body.approved),
      Some(e.at))
  }

  function Fold(log: Log): Control {
    if log == [] then EMPTY else Apply(Fold(Init(log)), Last(log))
  }

  function At(c: Control, stage: Stage, cycle: int): Track {
    TrackOf(c.tracks, Key(stage, cycle))
  }

  function DoneIn(c: Control, cycle: int): set<Stage> {
    set stage: Stage | At(c, stage, cycle).done
  }

  predicate Running(t: Track) {
    t.startedAt.Some? && (t.endedAt.Some? ==> t.endedAt.value < t.startedAt.value)
  }

  lemma TrackStep(c: Control, e: Event, stage: Stage, cycle: int)
    ensures At(Apply(c, e), stage, cycle)
            == (if OfStage(e.body) && KeyOf(e.body) == Key(stage, cycle) then Touch(At(c, stage, cycle), e)
                else At(c, stage, cycle))
    ensures Apply(c, e).lastAt == Some(e.at)
  {
    hide LatestOf, Extend;
  }

  lemma {:induction false} LatestRefines(log: Log, kind: Kind)
    requires kind != KUntracked
    ensures Latest(log, kind) == Lookup(Fold(log).latest, kind)
  {
    if log == [] {
    } else {
      LatestRefines(Init(log), kind);
    }
  }

  lemma {:induction false} CountersRefine(log: Log)
    ensures CurrentCycle(log) == Fold(log).cycle
    ensures StepCount(log) == Fold(log).steps
  {
    if log == [] {
    } else {
      CountersRefine(Init(log));
    }
  }

  lemma {:induction false} StageScansRefine(log: Log, stage: Stage, cycle: int)
    ensures stage in CompletedStages(log, cycle) <==> At(Fold(log), stage, cycle).done
    ensures RetryEpoch(log, stage, cycle) == At(Fold(log), stage, cycle).retryAt
    ensures Failures(log, stage, cycle) == At(Fold(log), stage, cycle).fails
  {
    if log == [] {
    } else {
      StageScansRefine(Init(log), stage, cycle);
      TrackStep(Fold(Init(log)), Last(log), stage, cycle);
      hide Apply;
    }
  }

  lemma {:induction false} MarksRefine(log: Log, stage: Stage, cycle: int)
    ensures StartedAt(log, stage, cycle) == At(Fold(log), stage, cycle).startedAt
    ensures EndedAt(log, stage, cycle) == At(Fold(log), stage, cycle).endedAt
    ensures Inflight(log, stage, cycle) == Running(At(Fold(log), stage, cycle))
  {
    if log == [] {
    } else {
      MarksRefine(Init(log), stage, cycle);
      TrackStep(Fold(Init(log)), Last(log), stage, cycle);
      hide Apply;
    }
  }

  lemma {:induction false} RunsRefine(log: Log, stage: Stage, signature: string)
    ensures FailureRun(log, stage, signature) == RunLength(Fold(log).failRun, stage, signature)
    ensures QualityRun(log, stage, signature) == RunLength(Fold(log).qualityRun, stage, signature)
  {
    if log == [] {
    } else {
      RunsRefine(Init(log), stage, signature);
    }
  }

  lemma NextStageRefines(log: Log, cycle: int)
    ensures NextStage(log, cycle) == FirstMissing(DoneIn(Fold(log), cycle))
  {
    forall stage: Stage ensures stage in CompletedStages(log, cycle) <==> stage in DoneIn(Fold(log), cycle) {
      StageScansRefine(log, stage, cycle);
    }
  }

  /** Every scan of every log equals a constant-time query on the folded state. */
  lemma ScansRefineFold(log: Log, kind: Kind, stage: Stage, cycle: int, signature: string)
    ensures kind != KUntracked ==> Latest(log, kind) == Lookup(Fold(log).latest, kind)
    ensures CurrentCycle(log) == Fold(log).cycle
    ensures StepCount(log) == Fold(log).steps
    ensures NextStage(log, cycle) == FirstMissing(DoneIn(Fold(log), cycle))
    ensures RetryEpoch(log, stage, cycle) == At(Fold(log), stage, cycle).retryAt
    ensures Inflight(log, stage, cycle) == Running(At(Fold(log), stage, cycle))
    ensures Failures(log, stage, cycle) == At(Fold(log), stage, cycle).fails
    ensures FailureRun(log, stage, signature) == RunLength(Fold(log).failRun, stage, signature)
    ensures QualityRun(log, stage, signature) == RunLength(Fold(log).qualityRun, stage, signature)
  {
    if kind != KUntracked {
      LatestRefines(log, kind);
    }
    CountersRefine(log);
    NextStageRefines(log, cycle);
    StageScansRefine(log, stage, cycle);
    MarksRefine(log, stage, cycle);
    RunsRefine(log, stage, signature);
  }
}
