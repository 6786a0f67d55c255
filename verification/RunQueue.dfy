/** The run queue: one specification, the two backends that implement it, and what every
    interleaving of its operations keeps. */
module RunQueue {
  import opened EventLog

  type JobId = nat

  datatype JobStatus = Queued | Retry | Running | Done | Dead

  /** `createdAt` and `availableAt` are store timestamps; `lastError` and `runId` are what the last
      completion reported. */
  datatype Job = Job(
    status: JobStatus, attempts: nat, maxAttempts: nat, lastError: Option<string>, runId: Option<nat>,
    availableAt: real, createdAt: real)

  type Jobs = map<JobId, Job>

  // ---- the specification ----

  function NewJob(maxAttempts: int, now: real): Job {
    Job(Queued, 0, Max(1, maxAttempts), None, None, now, now)
  }

  predicate Claimable(job: Job, now: real) {
    (job.status == Queued || job.status == Retry) && job.availableAt <= now
  }

  predicate Oldest(jobs: Jobs, id: JobId, now: real) {
    && id in jobs && Claimable(jobs[id], now)
    && forall other :: other in jobs && Claimable(jobs[other], now) ==> jobs[id].createdAt <= jobs[other].createdAt
  }

  /** What a caller may report; anything else counts as a failure. */
  datatype Report = ReportDone | ReportDead | ReportRetry | ReportOther

  function Settled(job: Job, report: Report, error: Option<string>, runId: Option<nat>, now: real): Job {
    var attempts := if report == ReportRetry then job.attempts + 1 else job.attempts;
    var status :=
      match report
      case ReportDone => Done
      case ReportRetry => if attempts >= job.maxAttempts then Dead else Retry
      case _ => Dead;
    job.(status := status, attempts := attempts, lastError := Clip(error), runId := runId, availableAt := now)
  }

  /** An empty error is stored as none; a long one is cut to 500 characters. */
  function Clip(error: Option<string>): Option<string> {
    match error
    case None => None
    case Some(text) => if text == "" then None else Some(text[..Min(|text|, 500)])
  }

  // ---- histories ----

  datatype Op =
    | Enqueue(id: JobId, maxAttempts: int, now: real)
    | Claim(id: JobId, now: real)
    | Complete(id: JobId, report: Report, error: Option<string>, runId: Option<nat>, now: real)

  /** A claim takes an oldest claimable job; which one of equally old jobs is the store's choice. */
  predicate Allowed(jobs: Jobs, op: Op) {
    match op
    case Enqueue(id, _, _) => id !in jobs
    case Claim(id, now) => Oldest(jobs, id, now)
    case Complete(_, _, _, _, _) => true
  }

  function Do(jobs: Jobs, op: Op): Jobs
    requires Allowed(jobs, op)
  {
    match op
    case Enqueue(id, maxAttempts, now) => jobs[id := NewJob(maxAttempts, now)]
    case Claim(id, now) => jobs[id := jobs[id].(status := Running)]
    case Complete(id, report, error, runId, now) =>
      if id in jobs then jobs[id := Settled(jobs[id], report, error, runId, now)] else jobs
  }

  /** The newest operation is last. */
  predicate History(ops: seq<Op>)
    decreases |ops|, 0
  {
    ops == [] || (History(ops[..|ops| - 1]) && Allowed(After(ops[..|ops| - 1]), ops[|ops| - 1]))
  }

  function After(ops: seq<Op>): Jobs
    requires History(ops)
    decreases |ops|, 1
  {
    if ops == [] then map[] else Do(After(ops[..|ops| - 1]), ops[|ops| - 1])
  }

  lemma Record(ops: seq<Op>, op: Op)
    requires History(ops) && Allowed(After(ops), op)
    ensures History(ops + [op]) && After(ops + [op]) == Do(After(ops), op)
  {
    assert (ops + [op])[..|ops + [op]| - 1] == ops;
  }

  // ---- the backends ----

  lemma {:induction false} OldestExists(jobs: Jobs, ids: set<JobId>, now: real) returns (id: JobId)
    requires ids != {} && forall i :: i in ids ==> i in jobs && Claimable(jobs[i], now)
    ensures id in ids && forall i :: i in ids ==> jobs[id].createdAt <= jobs[i].createdAt
    decreases |ids|
  {
    var pick :| pick in ids;
    var rest := ids - {pick};
    id := pick;
    if rest != {} {
      var other := OldestExists(jobs, rest, now);
      if jobs[other].createdAt < jobs[pick].createdAt {
        id := other;
      }
      assert forall i :: i in ids && i != pick ==> i in rest;
    } else {
      assert forall i :: i in ids && i != pick ==> i in rest;
    }
  }

  /** The SELECT that both backends use: no row exactly when nothing is claimable. */
  method SelectOldest(jobs: Jobs, now: real) returns (found: Option<JobId>)
    ensures found.None? <==> forall id :: id in jobs ==> !Claimable(jobs[id], now)
    ensures found.Some? ==> Oldest(jobs, found.value, now)
  {
    var rows := set id | id in jobs && Claimable(jobs[id], now);
    if rows == {} {
      assert forall id :: id in jobs && Claimable(jobs[id], now) ==> id in rows;
      return None;
    }
    ghost var first := OldestExists(jobs, rows, now);
    assert Oldest(jobs, first, now);
    var id :| id in rows && Oldest(jobs, id, now);
    return Some(id);
  }

  class PostgresQueue {
    var jobs: Jobs
    ghost var ops: seq<Op>

    /** The rows are what the recorded operations leave. */
    ghost predicate Recorded()
      reads this
    {
      History(ops) && jobs == After(ops)
    }

    constructor ()
      ensures Recorded() && ops == []
    {
      jobs := map[];
      ops := [];
    }

    method Enqueue(id: JobId, maxAttempts: int, now: real)
      requires Recorded() && id !in jobs
      modifies this
      ensures Recorded() && ops == old(ops) + [Op.Enqueue(id, maxAttempts, now)]
      ensures jobs == old(jobs)[id := NewJob(maxAttempts, now)]
    {
      Record(ops, Op.Enqueue(id, maxAttempts, now));
      ops := ops + [Op.Enqueue(id, maxAttempts, now)];
      jobs := jobs[id := Job(Queued, 0, Max(1, maxAttempts), None, None, now, now)];
    }

    /** One UPDATE over the selected row. */
    method Claim(now: real) returns (claimed: Option<JobId>)
      requires Recorded()
      modifies this
      ensures Recorded() && ops == old(ops) + (if claimed.Some? then [Op.Claim(claimed.value, now)] else [])
      ensures claimed.None? <==> forall id :: id in old(jobs) ==> !Claimable(old(jobs)[id], now)
      ensures claimed.None? ==> jobs == old(jobs)
      ensures claimed.Some? ==>
                && Oldest(old(jobs), claimed.value, now)
                && jobs == old(jobs)[claimed.value := old(jobs)[claimed.value].(status := Running)]
    {
      claimed := SelectOldest(jobs, now);
      if claimed.Some? {
        Record(ops, Op.Claim(claimed.value, now));
        ops := ops + [Op.Claim(claimed.value, now)];
        jobs := jobs[claimed.value := jobs[claimed.value].(status := Running)];
      }
    }

    /** The two UPDATE statements, the first with its CASE expression. */
    method Complete(id: JobId, report: Report, error: Option<string>, runId: Option<nat>, now: real) returns (known: bool)
      requires Recorded()
      modifies this
      ensures Recorded() && ops == old(ops) + [Op.Complete(id, report, error, runId, now)]
      ensures known == (id in old(jobs))
      ensures jobs == if known then old(jobs)[id := Settled(old(jobs)[id], report, error, runId, now)] else old(jobs)
    {
      Record(ops, Op.Complete(id, report, error, runId, now));
      hide History, After;
      ops := ops + [Op.Complete(id, report, error, runId, now)];
      var next := if report == ReportOther then ReportDead else report;
      if id !in jobs {
        return false;
      }
      var row := jobs[id];
      if next == ReportRetry {
        row := row.(attempts := row.attempts + 1,
                    status := if row.attempts + 1 >= row.maxAttempts then Dead else Retry,
                    lastError := Clip(error), runId := runId, availableAt := now);
      } else {
        row := row.(status := if next == ReportDone then Done else Dead,
                    lastError := Clip(error), runId := runId, availableAt := now);
      }
      jobs := jobs[id := row];
      return true;
    }
  }

  class SqliteQueue {
    var jobs: Jobs
    ghost var ops: seq<Op>

    /** The rows are what the recorded operations leave. */
    ghost predicate Recorded()
      reads this
    {
      History(ops) && jobs == After(ops)
    }

    constructor ()
      ensures Recorded() && ops == []
    {
      jobs := map[];
      ops := [];
    }

    method Enqueue(id: JobId, maxAttempts: int, now: real)
      requires Recorded() && id !in jobs
      modifies this
      ensures Recorded() && ops == old(ops) + [Op.Enqueue(id, maxAttempts, now)]
      ensures jobs == old(jobs)[id := NewJob(maxAttempts, now)]
    {
      Record(ops, Op.Enqueue(id, maxAttempts, now));
      ops := ops + [Op.Enqueue(id, maxAttempts, now)];
      jobs := jobs[id := Job(Queued, 0, Max(1, maxAttempts), None, None, now, now)];
    }

    /** A SELECT, then an UPDATE guarded by the status, in one connection. */
    method Claim(now: real) returns (claimed: Option<JobId>)
      requires Recorded()
      modifies this
      ensures Recorded() && ops == old(ops) + (if claimed.Some? then [Op.Claim(claimed.value, now)] else [])
      ensures claimed.None? <==> forall id :: id in old(jobs) ==> !Claimable(old(jobs)[id], now)
      ensures claimed.None? ==> jobs == old(jobs)
      ensures claimed.Some? ==>
                && Oldest(old(jobs), claimed.value, now)
                && jobs == old(jobs)[claimed.value := old(jobs)[claimed.value].(status := Running)]
    {
      var row := SelectOldest(jobs, now);
      if row.None? {
        return None;
      }
      var id := row.value;
      Record(ops, Op.Claim(id, now));
      ops := ops + [Op.Claim(id, now)];
      if jobs[id].status == Queued || jobs[id].status == Retry {
        jobs := jobs[id := jobs[id].(status := Running)];
      }
      return Some(id);
    }

    /** The counting and the decision in Python, then one UPDATE. */
    method Complete(id: JobId, report: Report, error: Option<string>, runId: Option<nat>, now: real) returns (known: bool)
      requires Recorded()
      modifies this
      ensures Recorded() && ops == old(ops) + [Op.Complete(id, report, error, runId, now)]
      ensures known == (id in old(jobs))
      ensures jobs == if known then old(jobs)[id := Settled(old(jobs)[id], report, error, runId, now)] else old(jobs)
    {
      Record(ops, Op.Complete(id, report, error, runId, now));
      hide History, After;
      ops := ops + [Op.Complete(id, report, error, runId, now)];
      var nextStatus :=
        match report
        case ReportDone => Done
        case ReportRetry => Retry
        case _ => Dead;
      if id !in jobs {
        return false;
      }
      var attempts := jobs[id].attempts;
      if nextStatus == Retry {
        attempts := attempts + 1;
        if attempts >= jobs[id].maxAttempts {
          nextStatus := Dead;
        }
      }
      jobs := jobs[id := jobs[id].(status := nextStatus, attempts := attempts, lastError := Clip(error),
                                   runId := runId, availableAt := now)];
      return true;
    }
  }

  // ---- every interleaving ----

  function Claims(ops: seq<Op>, id: JobId): nat {
    if ops == [] then 0
    else Claims(ops[..|ops| - 1], id) + if ops[|ops| - 1].Claim? && ops[|ops| - 1].id == id then 1 else 0
  }

  /** Between claims a job has used one attempt per claim; a live job has an attempt left. */
  predicate JobOK(job: Job, claims: nat) {
    && job.maxAttempts >= 1
    && claims <= job.maxAttempts
    && claims <= job.attempts + (if job.status == Queued || job.status == Retry then 0 else 1)
    && (job.status == Queued || job.status == Retry || job.status == Running ==> job.attempts < job.maxAttempts)
  }

  lemma {:induction false} HistoryKeepsJobs(ops: seq<Op>, id: JobId)
    requires History(ops)
    ensures if id in After(ops) then JobOK(After(ops)[id], Claims(ops, id)) else Claims(ops, id) == 0
  {
    if ops == [] {
    } else {
      HistoryKeepsJobs(ops[..|ops| - 1], id);
    }
  }

  /** Over any interleaving, even with completions of jobs that are not running: a queued, retried or
      running job has used fewer attempts than allowed, and no job is claimed more often than that. */
  lemma AttemptsAreBounded(ops: seq<Op>, id: JobId)
    requires History(ops) && id in After(ops)
    ensures var job := After(ops)[id];
            && (job.status == Queued || job.status == Retry || job.status == Running ==> job.attempts < job.maxAttempts)
            && Claims(ops, id) <= job.maxAttempts
  {
    HistoryKeepsJobs(ops, id);
  }

  lemma {:induction false} PrefixHistory(ops: seq<Op>, n: nat)
    requires History(ops) && n <= |ops|
    ensures History(ops[..n])
    decreases |ops|
  {
    if n < |ops| {
      assert ops[..|ops| - 1][..n] == ops[..n];
      PrefixHistory(ops[..|ops| - 1], n);
    } else {
      assert ops[..n] == ops;
    }
  }

  /** Once a job has used up its attempts it is done or dead for good, whatever is reported later. */
  lemma {:induction false} ExhaustedStaysDead(ops: seq<Op>, more: nat, id: JobId)
    requires History(ops) && more <= |ops|
    requires (PrefixHistory(ops, more);
              id in After(ops[..more]) && After(ops[..more])[id].attempts >= After(ops[..more])[id].maxAttempts)
    ensures id in After(ops) && After(ops)[id].attempts >= After(ops)[id].maxAttempts
    ensures After(ops)[id].status == Done || After(ops)[id].status == Dead
    decreases |ops|
  {
    if more < |ops| {
      assert ops[..|ops| - 1][..more] == ops[..more];
      ExhaustedStaysDead(ops[..|ops| - 1], more, id);
    } else {
      assert ops[..more] == ops;
    }
    HistoryKeepsJobs(ops, id);
  }
}
