/** What each scan finds, said by positions in the log instead of by recursion. */
module Scans {
  import opened EventLog
  import opened TaskGate
  import opened FailureHandler

  // ---- newest events ----

  /** Position `i` holds the newest event of the kind. */
  predicate NewestOfKind(log: Log, i: nat, kind: Kind) {
    i < |log| && KindOf(log[i].body) == kind && forall j :: i < j < |log| ==> KindOf(log[j].body) != kind
  }

  lemma {:induction false} LatestIsNewest(log: Log, kind: Kind)
    ensures Latest(log, kind).None? <==> forall i :: 0 <= i < |log| ==> KindOf(log[i].body) != kind
    ensures forall i: nat :: NewestOfKind(log, i, kind) ==> Latest(log, kind) == Some(log[i])
    ensures Latest(log, kind).Some? ==> exists i: nat :: NewestOfKind(log, i, kind)
  {
    if log == [] {
    } else if KindOf(Last(log).body) == kind {
      assert NewestOfKind(log, |log| - 1, kind);
    } else {
      LatestIsNewest(Init(log), kind);
      assert forall i :: 0 <= i < |log| - 1 ==> Init(log)[i] == log[i];
      forall i: nat | NewestOfKind(log, i, kind) ensures Latest(log, kind) == Some(log[i]) {
        assert NewestOfKind(Init(log), i, kind);
      }
      if Latest(log, kind).Some? {
        var i: nat :| NewestOfKind(Init(log), i, kind);
        assert NewestOfKind(log, i, kind);
      }
    }
  }

  predicate NumbersCycle(body: Body) {
    body.CycleStarted? && body.cycle >= 1
  }

  predicate NewestCycle(log: Log, i: nat) {
    i < |log| && NumbersCycle(log[i].body) && forall j :: i < j < |log| ==> !NumbersCycle(log[j].body)
  }

  lemma {:induction false} CycleIsNewest(log: Log)
    ensures (forall i :: 0 <= i < |log| ==> !NumbersCycle(log[i].body)) ==> CurrentCycle(log) == 1
    ensures forall i: nat :: NewestCycle(log, i) ==> CurrentCycle(log) == log[i].body.cycle
  {
    if log == [] {
    } else {
      CycleIsNewest(Init(log));
      assert forall i :: 0 <= i < |log| - 1 ==> Init(log)[i] == log[i];
      forall i: nat | NewestCycle(log, i) ensures CurrentCycle(log) == log[i].body.cycle {
        assert i < |log| - 1 ==> NewestCycle(Init(log), i);
      }
    }
  }

  predicate Schedules(body: Body, stage: Stage, cycle: int) {
    body.RetryScheduled? && body.stage == stage && Effective(body.cycle) == cycle
  }

  predicate NewestSchedule(log: Log, i: nat, stage: Stage, cycle: int) {
    && i < |log| && Schedules(log[i].body, stage, cycle)
    && forall j :: i < j < |log| ==> !Schedules(log[j].body, stage, cycle)
  }

  lemma {:induction false} RetryIsNewest(log: Log, stage: Stage, cycle: int)
    ensures RetryEpoch(log, stage, cycle).None? <==> forall i :: 0 <= i < |log| ==> !Schedules(log[i].body, stage, cycle)
    ensures forall i: nat :: NewestSchedule(log, i, stage, cycle) ==> RetryEpoch(log, stage, cycle) == Some(log[i].body.retryAt)
    ensures RetryEpoch(log, stage, cycle).Some? ==> exists i: nat :: NewestSchedule(log, i, stage, cycle)
  {
    if log == [] {
    } else if Schedules(Last(log).body, stage, cycle) {
      assert NewestSchedule(log, |log| - 1, stage, cycle);
    } else {
      RetryIsNewest(Init(log), stage, cycle);
      assert forall i :: 0 <= i < |log| - 1 ==> Init(log)[i] == log[i];
      forall i: nat | NewestSchedule(log, i, stage, cycle) ensures RetryEpoch(log, stage, cycle) == Some(log[i].body.retryAt) {
        assert NewestSchedule(Init(log), i, stage, cycle);
      }
      if RetryEpoch(log, stage, cycle).Some? {
        var i: nat :| NewestSchedule(Init(log), i, stage, cycle);
        assert NewestSchedule(log, i, stage, cycle);
      }
    }
  }

  predicate Starts(body: Body, stage: Stage, cycle: int) {
    body.StageStarted? && body.stage == stage && Effective(body.cycle) == cycle
  }

  predicate NewestStart(log: Log, i: nat, stage: Stage, cycle: int) {
    i < |log| && Starts(log[i].body, stage, cycle) && forall j :: i < j < |log| ==> !Starts(log[j].body, stage, cycle)
  }

  predicate NewestEnd(log: Log, i: nat, stage: Stage, cycle: int) {
    i < |log| && Ends(log[i].body, stage, cycle) && forall j :: i < j < |log| ==> !Ends(log[j].body, stage, cycle)
  }

  lemma {:induction false} StartIsNewest(log: Log, stage: Stage, cycle: int)
    ensures StartedAt(log, stage, cycle).None? <==> forall i :: 0 <= i < |log| ==> !Starts(log[i].body, stage, cycle)
    ensures forall i: nat :: NewestStart(log, i, stage, cycle) ==> StartedAt(log, stage, cycle) == Some(log[i].at)
    ensures StartedAt(log, stage, cycle).Some? ==> exists i: nat :: NewestStart(log, i, stage, cycle)
  {
    if log == [] {
    } else if Starts(Last(log).body, stage, cycle) {
      assert NewestStart(log, |log| - 1, stage, cycle);
    } else {
      StartIsNewest(Init(log), stage, cycle);
      assert forall i :: 0 <= i < |log| - 1 ==> Init(log)[i] == log[i];
      forall i: nat | NewestStart(log, i, stage, cycle) ensures StartedAt(log, stage, cycle) == Some(log[i].at) {
        assert NewestStart(Init(log), i, stage, cycle);
      }
      if StartedAt(log, stage, cycle).Some? {
        var i: nat :| NewestStart(Init(log), i, stage, cycle);
        assert NewestStart(log, i, stage, cycle);
      }
    }
  }

  lemma {:induction false} EndIsNewest(log: Log, stage: Stage, cycle: int)
    ensures EndedAt(log, stage, cycle).None? <==> forall i :: 0 <= i < |log| ==> !Ends(log[i].body, stage, cycle)
    ensures forall i: nat :: NewestEnd(log, i, stage, cycle) ==> EndedAt(log, stage, cycle) == Some(log[i].at)
    ensures EndedAt(log, stage, cycle).Some? ==> exists i: nat :: NewestEnd(log, i, stage, cycle)
  {
    if log == [] {
    } else if Ends(Last(log).body, stage, cycle) {
      assert NewestEnd(log, |log| - 1, stage, cycle);
    } else {
      EndIsNewest(Init(log), stage, cycle);
      assert forall i :: 0 <= i < |log| - 1 ==> Init(log)[i] == log[i];
      forall i: nat | NewestEnd(log, i, stage, cycle) ensures EndedAt(log, stage, cycle) == Some(log[i].at) {
        assert NewestEnd(Init(log), i, stage, cycle);
      }
      if EndedAt(log, stage, cycle).Some? {
        var i: nat :| NewestEnd(Init(log), i, stage, cycle);
        assert NewestEnd(log, i, stage, cycle);
      }
    }
  }

  /** The stage is open: it was started, and its newest end, if any, lies strictly before its newest start. */
  ghost predicate OpenStage(log: Log, stage: Stage, cycle: int) {
    exists i: nat :: NewestStart(log, i, stage, cycle)
                     && forall j: nat :: NewestEnd(log, j, stage, cycle) ==> log[j].at < log[i].at
  }

  lemma InflightIsOpen(log: Log, stage: Stage, cycle: int)
    ensures Inflight(log, stage, cycle) <==> OpenStage(log, stage, cycle)
  {
    StartIsNewest(log, stage, cycle);
    EndIsNewest(log, stage, cycle);
    hide StartedAt, EndedAt, Ends, Starts;
    if Inflight(log, stage, cycle) {
      var i: nat :| NewestStart(log, i, stage, cycle);
      assert forall j: nat :: NewestEnd(log, j, stage, cycle) ==> log[j].at < log[i].at;
    }
    if OpenStage(log, stage, cycle) && EndedAt(log, stage, cycle).Some? {
      var j: nat :| NewestEnd(log, j, stage, cycle);
    }
  }

  // ---- counts and sets ----

  predicate Terminal(body: Body) {
    body.StageCompleted? || body.StageFailed?
  }

  function TerminalAt(log: Log): set<nat> {
    set i: nat | i < |log| && Terminal(log[i].body)
  }

  lemma TerminalStep(log: Log)
    requires log != []
    ensures TerminalAt(log) == TerminalAt(Init(log)) + if Terminal(Last(log).body) then {|log| - 1} else {}
    ensures |log| - 1 !in TerminalAt(Init(log))
  {
    assert forall i: nat :: i < |log| - 1 ==> Init(log)[i] == log[i];
  }

  lemma {:induction false} StepCountCounts(log: Log)
    ensures StepCount(log) == |TerminalAt(log)|
  {
    if log == [] {
    } else {
      StepCountCounts(Init(log));
      TerminalStep(log);
      hide TerminalAt;
    }
  }

  predicate FailsStage(body: Body, stage: Stage, cycle: int) {
    body.StageFailed? && body.stage == stage && Effective(body.cycle) == cycle
  }

  function FailedAt(log: Log, stage: Stage, cycle: int): set<nat> {
    set i: nat | i < |log| && FailsStage(log[i].body, stage, cycle)
  }

  lemma FailedStep(log: Log, stage: Stage, cycle: int)
    requires log != []
    ensures FailedAt(log, stage, cycle)
            == FailedAt(Init(log), stage, cycle) + if FailsStage(Last(log).body, stage, cycle) then {|log| - 1} else {}
    ensures |log| - 1 !in FailedAt(Init(log), stage, cycle)
  {
    hide FailsStage;
    assert forall i: nat :: i < |log| - 1 ==> Init(log)[i] == log[i];
  }

  lemma {:induction false} FailuresCount(log: Log, stage: Stage, cycle: int)
    ensures Failures(log, stage, cycle) == |FailedAt(log, stage, cycle)|
  {
    if log == [] {
    } else {
      FailuresCount(Init(log), stage, cycle);
      FailedStep(log, stage, cycle);
      hide FailedAt;
    }
  }

  predicate Completes(body: Body, stage: Stage, cycle: int) {
    body.StageCompleted? && body.stage == stage && Effective(body.cycle) == cycle
  }

  predicate HasCompleted(log: Log, stage: Stage, cycle: int) {
    exists i :: 0 <= i < |log| && Completes(log[i].body, stage, cycle)
  }

  lemma {:induction false} CompletedAreRecorded(log: Log, stage: Stage, cycle: int)
    ensures stage in CompletedStages(log, cycle) <==> HasCompleted(log, stage, cycle)
  {
    if log == [] {
    } else {
      CompletedAreRecorded(Init(log), stage, cycle);
      assert forall i :: 0 <= i < |log| - 1 ==> Init(log)[i] == log[i];
      assert Completes(Last(log).body, stage, cycle) ==> HasCompleted(log, stage, cycle);
    }
  }

  /** The next stage is the one whose predecessors have completed and which has not. */
  predicate IsNextStage(log: Log, stage: Stage, cycle: int) {
    && !HasCompleted(log, stage, cycle)
    && (stage != Plan ==> HasCompleted(log, Plan, cycle))
    && (stage == Review ==> HasCompleted(log, Execute, cycle))
  }

  lemma NextStageIsNext(log: Log, cycle: int)
    ensures forall stage :: NextStage(log, cycle) == Some(stage) <==> IsNextStage(log, stage, cycle)
    ensures NextStage(log, cycle).None? <==> forall stage :: HasCompleted(log, stage, cycle)
  {
    hide CompletedStages, HasCompleted;
    forall stage ensures stage in CompletedStages(log, cycle) <==> HasCompleted(log, stage, cycle) {
      CompletedAreRecorded(log, stage, cycle);
    }
    if NextStage(log, cycle).None? {
      forall stage ensures HasCompleted(log, stage, cycle) {
        match stage { case Plan => case Execute => case Review => }
      }
    }
  }

  // ---- runs of equal failures ----

  function StageFailures(log: Log): seq<Body> {
    if log == [] then []
    else StageFailures(Init(log)) + if Last(log).body.StageFailed? then [Last(log).body] else []
  }

  function QualityFailures(log: Log): seq<Body> {
    if log == [] then []
    else QualityFailures(Init(log)) + if Last(log).body.QualityFailed? then [Last(log).body] else []
  }

  predicate Signs(body: Body, stage: Stage, signature: string) {
    (body.StageFailed? || body.QualityFailed?) && body.stage == stage && body.signature == signature
  }

  /** The newest `n` failures all carry this stage and signature. */
  predicate EndsAlike(failures: seq<Body>, stage: Stage, signature: string, n: nat) {
    n <= |failures| && forall i :: |failures| - n <= i < |failures| ==> Signs(failures[i], stage, signature)
  }

  lemma {:induction false} FailureRunIsTail(log: Log, stage: Stage, signature: string, n: nat)
    ensures FailureRun(log, stage, signature) >= n <==> EndsAlike(StageFailures(log), stage, signature, n)
  {
    if log == [] {
    } else if !Last(log).body.StageFailed? {
      FailureRunIsTail(Init(log), stage, signature, n);
      assert StageFailures(log) == StageFailures(Init(log));
    } else if n > 0 {
      FailureRunIsTail(Init(log), stage, signature, n - 1);
      assert StageFailures(log) == StageFailures(Init(log)) + [Last(log).body];
      TailStep(StageFailures(Init(log)), Last(log).body, stage, signature, n);
    }
  }

  lemma {:induction false} QualityRunIsTail(log: Log, stage: Stage, signature: string, n: nat)
    ensures QualityRun(log, stage, signature) >= n <==> EndsAlike(QualityFailures(log), stage, signature, n)
  {
    if log == [] {
    } else if !Last(log).body.QualityFailed? {
      QualityRunIsTail(Init(log), stage, signature, n);
      assert QualityFailures(log) == QualityFailures(Init(log));
    } else if n > 0 {
      QualityRunIsTail(Init(log), stage, signature, n - 1);
      assert QualityFailures(log) == QualityFailures(Init(log)) + [Last(log).body];
      TailStep(QualityFailures(Init(log)), Last(log).body, stage, signature, n);
    }
  }

  lemma TailStep(failures: seq<Body>, body: Body, stage: Stage, signature: string, n: nat)
    requires n >= 1
    ensures EndsAlike(failures + [body], stage, signature, n)
            <==> Signs(body, stage, signature) && EndsAlike(failures, stage, signature, n - 1)
  {
    var more := failures + [body];
    assert more[|failures|] == body;
    assert forall i :: 0 <= i < |failures| ==> more[i] == failures[i];
  }

  // ---- the newest execution failure ----

  /** A failed run or workspace step, recorded for this cycle or for none. */
  predicate FailsIn(body: Body, cycle: int) {
    (body.WorkspaceFailed? || body.RunFailed?) && (body.cycle == 0 || body.cycle == cycle)
  }

  predicate NewestFailure(log: Log, i: nat, cycle: int) {
    i < |log| && FailsIn(log[i].body, cycle) && forall j :: i < j < |log| ==> !FailsIn(log[j].body, cycle)
  }

  lemma {:induction false} FailureIsNewest(log: Log, cycle: int)
    ensures LatestFailure(log, cycle).None? <==> forall i :: 0 <= i < |log| ==> !FailsIn(log[i].body, cycle)
    ensures forall i: nat :: NewestFailure(log, i, cycle) ==> LatestFailure(log, cycle) == Some(log[i].body)
    ensures LatestFailure(log, cycle).Some? ==> exists i: nat :: NewestFailure(log, i, cycle)
  {
    if log == [] {
    } else if FailsIn(Last(log).body, cycle) {
      assert NewestFailure(log, |log| - 1, cycle);
    } else {
      FailureIsNewest(Init(log), cycle);
      assert forall i :: 0 <= i < |log| - 1 ==> Init(log)[i] == log[i];
      forall i: nat | NewestFailure(log, i, cycle) ensures LatestFailure(log, cycle) == Some(log[i].body) {
        assert NewestFailure(Init(log), i, cycle);
      }
      if LatestFailure(log, cycle).Some? {
        var i: nat :| NewestFailure(Init(log), i, cycle);
        assert NewestFailure(log, i, cycle);
      }
    }
  }

  // ---- what readers see of a log ----

  /** The newest 200 events. */
  function View(log: Log): Log {
    if |log| <= 200 then log else log[|log| - 200..]
  }

  lemma ViewIsListed(log: Log, limit: int)
    requires limit >= 200
    ensures ListEvents(log, limit) == View(log)
  {
    assert |log| <= 200 ==> log[0..] == log;
  }
}
