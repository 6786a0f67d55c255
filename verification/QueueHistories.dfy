/** What has become of a job, said by the operations on it. */
module QueueHistories {
  import opened EventLog
  import opened RunQueue

  /** Position `n` holds the last operation on the job. */
  predicate LastOn(ops: seq<Op>, n: nat, id: JobId) {
    n < |ops| && ops[n].id == id && forall k :: n < k < |ops| ==> ops[k].id != id
  }

  /** The retries reported for the job after position `e`. */
  function Retries(ops: seq<Op>, id: JobId, e: nat): set<nat> {
    set k: nat | e < k < |ops| && ops[k].Complete? && ops[k].id == id && ops[k].report == ReportRetry
  }

  function Allowance(requested: int): nat {
    if requested < 1 then 1 else requested
  }

  /** The error as it is stored: nothing for no or an empty text, at most 500 characters otherwise. */
  predicate Stored(error: Option<string>, stored: Option<string>) {
    match error
    case None => stored.None?
    case Some(text) =>
      if text == "" then stored.None?
      else stored.Some? && stored.value <= text && |stored.value| == if |text| < 500 then |text| else 500
  }

  /** What the job enqueued at `e` is after the last operation on it, at `n`. */
  predicate Outcome(ops: seq<Op>, id: JobId, e: nat, n: nat, job: Job)
    requires e < |ops| && n < |ops| && ops[e].Enqueue?
  {
    var retries := |Retries(ops, id, e)|;
    var allowed := Allowance(ops[e].maxAttempts);
    && job.maxAttempts == allowed && job.createdAt == ops[e].now && job.attempts == retries
    && match ops[n]
       case Enqueue(_, _, now) =>
         job.status == Queued && job.availableAt == now && job.lastError.None? && job.runId.None?
       case Claim(_, _) => job.status == Running
       case Complete(_, report, error, runId, now) =>
         && (job.status == Done <==> report == ReportDone)
         && (job.status == Retry <==> report == ReportRetry && retries < allowed)
         && (job.status == Dead <==> report == ReportDead || report == ReportOther || (report == ReportRetry && retries >= allowed))
         && job.availableAt == now && Stored(error, job.lastError) && job.runId == runId
  }

  lemma RetriesStep(ops: seq<Op>, id: JobId, e: nat)
    requires ops != [] && e < |ops| - 1
    ensures var op := ops[|ops| - 1];
            && Retries(ops, id, e) == Retries(ops[..|ops| - 1], id, e) +
                 (if op.Complete? && op.id == id && op.report == ReportRetry then {|ops| - 1} else {})
            && |ops| - 1 !in Retries(ops[..|ops| - 1], id, e)
  {
  }

  lemma {:induction false} EnqueuedOnce(ops: seq<Op>, id: JobId, e: nat)
    requires History(ops) && e < |ops| && ops[e].Enqueue? && ops[e].id == id
    ensures id in After(ops)
    ensures forall k :: 0 <= k < |ops| && ops[k].Enqueue? && ops[k].id == id ==> k == e
  {
    var n := |ops| - 1;
    if e == n {
      assert ops[..n][..n] == ops[..n];
      NeverEnqueued(ops[..n], id);
    } else {
      EnqueuedOnce(ops[..n], id, e);
    }
  }

  lemma {:induction false} NeverEnqueued(ops: seq<Op>, id: JobId)
    requires History(ops)
    ensures id in After(ops) <==> exists k :: 0 <= k < |ops| && ops[k].Enqueue? && ops[k].id == id
  {
    if ops == [] {
    } else {
      var n := |ops| - 1;
      NeverEnqueued(ops[..n], id);
      assert forall k :: 0 <= k < n ==> ops[..n][k] == ops[k];
    }
  }

  /** Over every history the job is exactly what its enqueueing, its reported retries and the last operation
      on it say. */
  lemma {:induction false} JobIsItsHistory(ops: seq<Op>, id: JobId, e: nat, n: nat)
    requires History(ops) && e < |ops| && ops[e].Enqueue? && ops[e].id == id && LastOn(ops, n, id)
    ensures id in After(ops) && e <= n && Outcome(ops, id, e, n, After(ops)[id])
    decreases |ops|
  {
    var m := |ops| - 1;
    var before := ops[..m];
    EnqueuedOnce(ops, id, e);
    if e == m {
      assert Retries(ops, id, e) == {};
    } else {
      RetriesStep(ops, id, e);
      EnqueuedOnce(before, id, e);
      var last := LastOperation(before, id, e);
      JobIsItsHistory(before, id, e, last);
      LastStep(ops, id, e, n, last);
    }
  }

  lemma LastOperation(ops: seq<Op>, id: JobId, e: nat) returns (n: nat)
    requires e < |ops| && ops[e].id == id
    ensures LastOn(ops, n, id)
    decreases |ops|
  {
    if ops[|ops| - 1].id == id {
      n := |ops| - 1;
    } else {
      n := LastOperation(ops[..|ops| - 1], id, e);
    }
  }

  lemma LastStep(ops: seq<Op>, id: JobId, e: nat, n: nat, last: nat)
    requires History(ops) && ops != [] && e < |ops| - 1 && ops[e].Enqueue? && ops[e].id == id && LastOn(ops, n, id)
    requires var before := ops[..|ops| - 1];
             && LastOn(before, last, id) && id in After(before) && Outcome(before, id, e, last, After(before)[id])
    requires forall k :: 0 <= k < |ops| && ops[k].Enqueue? && ops[k].id == id ==> k == e
    ensures id in After(ops) && e <= n && Outcome(ops, id, e, n, After(ops)[id])
  {
    var m := |ops| - 1;
    var before := ops[..m];
    RetriesStep(ops, id, e);
    hide Retries;
    assert ops[e] == before[e];
    if ops[m].id == id {
      assert n == m;
    } else {
      assert n == last;
      assert ops[n] == before[n];
    }
  }

  /** The job waits to be claimed: it was just enqueued, or sent back with an attempt left, by `now`. */
  ghost predicate Waits(ops: seq<Op>, id: JobId, now: real) {
    exists e: nat, n: nat ::
      && e < |ops| && ops[e].Enqueue? && ops[e].id == id && LastOn(ops, n, id)
      && (n == e || (ops[n].Complete? && ops[n].report == ReportRetry && |Retries(ops, id, e)| < Allowance(ops[e].maxAttempts)))
      && !ops[n].Claim? && ops[n].now <= now
  }

  /** The claimable jobs are exactly those that wait. */
  lemma ClaimableIffWaiting(ops: seq<Op>, id: JobId, now: real)
    requires History(ops)
    ensures id in After(ops) && Claimable(After(ops)[id], now) <==> Waits(ops, id, now)
  {
    hide History, After, Retries;
    NeverEnqueued(ops, id);
    if id in After(ops) {
      var e: nat :| e < |ops| && ops[e].Enqueue? && ops[e].id == id;
      var n := LastOperation(ops, id, e);
      JobIsItsHistory(ops, id, e, n);
      EnqueuedOnce(ops, id, e);
      forall e': nat, n': nat | e' < |ops| && ops[e'].Enqueue? && ops[e'].id == id && LastOn(ops, n', id)
        ensures e' == e && n' == n
      {
      }
    }
  }

  /** A claim takes a waiting job, and none that waits was created earlier. */
  lemma ClaimsAreFair(ops: seq<Op>, n: nat, e: nat, other: JobId, e': nat)
    requires History(ops) && n < |ops| && ops[n].Claim? && e < n && ops[e].Enqueue? && ops[e].id == ops[n].id
    requires e' < n && ops[e'].Enqueue? && ops[e'].id == other && Waits(ops[..n], other, ops[n].now)
    ensures Waits(ops[..n], ops[n].id, ops[n].now) && ops[e].now <= ops[e'].now
  {
    var before := ops[..n];
    PrefixHistory(ops, n + 1);
    assert ops[..n + 1][..n] == before;
    assert Allowed(After(before), ops[n]);
    ClaimableIffWaiting(before, ops[n].id, ops[n].now);
    ClaimableIffWaiting(before, other, ops[n].now);
    hide After, Waits, Claimable;
    var last := LastOperation(before, ops[n].id, e);
    JobIsItsHistory(before, ops[n].id, e, last);
    var last' := LastOperation(before, other, e');
    JobIsItsHistory(before, other, e', last');
  }
}
