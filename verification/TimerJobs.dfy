// Timer jobs: the repository's operations on the job table (fairyclaw/infrastructure/database/
// repository.py) and the rules of fairyclaw/core/runtime/timer_runtime_store.py above it.
// Times are microseconds.
module TimerJobs {
  import opened Wrappers

  const SECOND := 1_000_000
  const STALE_AFTER := 120 * SECOND
  const MAX_FAILURES := 3

  datatype Mode = Heartbeat | Cron

  datatype Status = Pending | Running | Completed | Failed | Cancelled

  datatype Job = Job(
    mode: Mode,
    cronExpr: string,
    intervalSeconds: int,
    status: Status,
    nextFire: int,
    deadline: Option<int>,
    maxRuns: Option<int>,
    runCount: int,
    failureCount: int,
    claimedBy: Option<string>,
    claimedAt: Option<int>,
    active: bool)

  // The cron search: which expressions are accepted, and the next fire time after now.
  datatype Search = Search(accepts: string -> bool, next: (string, int) -> Option<int>)

  function Max(a: int, b: int): int {
    if a < b then b else a
  }

  // ---------- creation ----------

  datatype Request = Request(
    mode: Mode,
    cronExpr: string,
    intervalSeconds: int,
    startDelaySeconds: int,
    deadlineSeconds: Option<int>,
    maxRuns: Option<int>)

  datatype CreateError = BadDeadline | BadMaxRuns | IntervalTooShort | BadCron | NoFireTime

  datatype Creation = Created(job: Job) | Refused(error: CreateError)

  // When the first fire is due; None if the request is refused for it.
  function FirstFire(search: Search, now: int, q: Request): Option<int> {
    var delay := Max(0, q.startDelaySeconds);
    match q.mode
    case Heartbeat => Some(now + Max(1, if delay == 0 then q.intervalSeconds else delay) * SECOND)
    case Cron => search.next(q.cronExpr, now + delay * SECOND)
  }

  function Create(search: Search, now: int, q: Request): Creation {
    if q.deadlineSeconds.Some? && q.deadlineSeconds.value <= 0 then Refused(BadDeadline)
    else if q.maxRuns.Some? && q.maxRuns.value <= 0 then Refused(BadMaxRuns)
    else if q.mode.Heartbeat? && q.intervalSeconds < 2 then Refused(IntervalTooShort)
    else if q.mode.Cron? && !search.accepts(q.cronExpr) then Refused(BadCron)
    else
      match FirstFire(search, now, q)
      case None => Refused(NoFireTime)
      case Some(first) =>
        var deadline := if q.deadlineSeconds.None? then None else Some(now + q.deadlineSeconds.value * SECOND);
        Created(Job(q.mode, q.cronExpr, q.intervalSeconds, Pending, first, deadline, q.maxRuns, 0, 0, None, None, true))
  }

  // ---------- claiming ----------

  predicate Due(job: Job, now: int) {
    && job.active && (job.status.Pending? || job.status.Running?)
    && job.nextFire <= now
    && (job.claimedAt.None? || job.claimedAt.value <= now - STALE_AFTER)
  }

  function DueIds(jobs: map<string, Job>, now: int): set<string> {
    set id | id in jobs && Due(jobs[id], now)
  }

  // What the claim query may return: due jobs, earliest first, up to the limit; the order of
  // jobs due at the same time is the database's.
  ghost predicate IsSelection(jobs: map<string, Job>, now: int, limit: int, rows: seq<string>) {
    && (forall i, j :: 0 <= i < j < |rows| ==> rows[i] != rows[j])
    && (forall i :: 0 <= i < |rows| ==> rows[i] in DueIds(jobs, now))
    && |rows| == (if |DueIds(jobs, now)| < Max(1, limit) then |DueIds(jobs, now)| else Max(1, limit))
    && (forall i, j :: 0 <= i < j < |rows| ==> jobs[rows[i]].nextFire <= jobs[rows[j]].nextFire)
    && (forall i, id :: 0 <= i < |rows| && id in DueIds(jobs, now) && id !in rows ==>
          jobs[rows[i]].nextFire <= jobs[id].nextFire)
  }

  function ClaimOne(job: Job, worker: string, now: int): Job {
    job.(claimedBy := Some(worker), claimedAt := Some(now), status := if job.status.Pending? then Running else job.status)
  }

  function Claimed(jobs: map<string, Job>, rows: seq<string>, worker: string, now: int): map<string, Job> {
    map id | id in jobs :: if id in rows then ClaimOne(jobs[id], worker, now) else jobs[id]
  }

  // ---------- settling ----------

  // mark_job_result's verdict before it looks for the next fire time.
  function Verdict(job: Job, now: int, success: bool): Option<Status> {
    if !success && job.failureCount + 1 >= MAX_FAILURES then Some(Failed)
    else if job.maxRuns.Some? && job.runCount + 1 >= job.maxRuns.value then Some(Completed)
    else if job.deadline.Some? && job.deadline.value <= now then Some(Completed)
    else None
  }

  function NextFire(search: Search, job: Job, now: int): Option<int> {
    match job.mode
    case Heartbeat => Some(now + Max(2, job.intervalSeconds) * SECOND)
    case Cron => search.next(job.cronExpr, now)
  }

  // update_after_run
  function AfterRun(job: Job, now: int, next: Option<int>, success: bool, terminal: Option<Status>): Job {
    var counted := job.(runCount := job.runCount + 1, failureCount := if success then 0 else job.failureCount + 1,
                        claimedBy := None, claimedAt := None);
    var settled :=
      if terminal.Some? then counted.(status := terminal.value, active := false)
      else if next.None? then counted.(status := Completed, active := false)
      else counted.(status := Running, nextFire := next.value);
    var over :=
      || (settled.deadline.Some? && settled.deadline.value <= now)
      || (settled.maxRuns.Some? && settled.runCount >= settled.maxRuns.value);
    if over && settled.active then settled.(status := Completed, active := false) else settled
  }

  function Marked(search: Search, job: Job, now: int, success: bool): Job {
    var verdict := Verdict(job, now, success);
    if verdict.Some? then AfterRun(job, now, None, success, verdict)
    else
      var next := NextFire(search, job, now);
      AfterRun(job, now, next, success, if next.None? then Some(Failed) else None)
  }

  function CancelledJob(job: Job): Job {
    job.(status := Cancelled, active := false, claimedBy := None, claimedAt := None)
  }

  // ---------- the table ----------

  lemma {:induction false} EarliestExists(jobs: map<string, Job>, ids: set<string>) returns (first: string)
    requires ids != {} && forall id :: id in ids ==> id in jobs
    ensures first in ids && forall id :: id in ids ==> jobs[first].nextFire <= jobs[id].nextFire
    decreases ids
  {
    first :| first in ids;
    var rest := ids - {first};
    if rest != {} {
      var other := EarliestExists(jobs, rest);
      if jobs[other].nextFire < jobs[first].nextFire {
        first := other;
      }
    }
  }

  class TimerJobRepository {
    var jobs: map<string, Job>

    constructor ()
      ensures jobs == map[]
    {
      jobs := map[];
    }

    method Add(id: string, job: Job)
      modifies this
      ensures jobs == old(jobs)[id := job]
    {
      jobs := jobs[id := job];
    }

    // The claim query.
    method SelectDue(now: int, limit: int) returns (rows: seq<string>)
      ensures IsSelection(jobs, now, limit, rows)
    {
      rows := [];
      var ids := DueIds(jobs, now);
      var most := if limit < 1 then 1 else limit;
      ghost var all := ids;
      while ids != {} && |rows| < most
        invariant forall id :: id in ids <==> id in all && id !in rows
        invariant forall i :: 0 <= i < |rows| ==> rows[i] in all
        invariant |rows| + |ids| == |all| && |rows| <= most
        invariant forall i, j :: 0 <= i < j < |rows| ==> rows[i] != rows[j]
        invariant forall i, j :: 0 <= i < j < |rows| ==> jobs[rows[i]].nextFire <= jobs[rows[j]].nextFire
        invariant forall i, id :: 0 <= i < |rows| && id in ids ==> jobs[rows[i]].nextFire <= jobs[id].nextFire
        decreases ids
      {
        ghost var least := EarliestExists(jobs, ids);
        var first :| first in ids && forall id :: id in ids ==> jobs[first].nextFire <= jobs[id].nextFire;
        rows := rows + [first];
        ids := ids - {first};
      }
    }

    method ClaimDueJobs(now: int, worker: string, limit: int) returns (rows: seq<string>)
      modifies this
      ensures IsSelection(old(jobs), now, limit, rows)
      ensures jobs == Claimed(old(jobs), rows, worker, now)
    {
      rows := SelectDue(now, limit);
      var k := 0;
      while k < |rows|
        invariant k <= |rows| && jobs == Claimed(old(jobs), rows[..k], worker, now)
      {
        var job := jobs[rows[k]];
        job := job.(claimedBy := Some(worker));
        job := job.(claimedAt := Some(now));
        if job.status.Pending? {
          job := job.(status := Running);
        }
        assert rows[k] !in rows[..k];
        jobs := jobs[rows[k] := job];
        assert rows[..k + 1] == rows[..k] + [rows[k]];
        k := k + 1;
      }
      assert rows[..|rows|] == rows;
    }

    method UpdateAfterRun(id: string, now: int, next: Option<int>, success: bool, terminal: Option<Status>)
      returns (updated: Option<Job>)
      modifies this
      ensures updated == if id in old(jobs) then Some(AfterRun(old(jobs)[id], now, next, success, terminal)) else None
      ensures jobs == if updated.Some? then old(jobs)[id := updated.value] else old(jobs)
    {
      if id !in jobs {
        return None;
      }
      var model := jobs[id];
      model := model.(runCount := model.runCount + 1);
      if success {
        model := model.(failureCount := 0);
      } else {
        model := model.(failureCount := model.failureCount + 1);
      }
      model := model.(claimedBy := None, claimedAt := None);
      if terminal.Some? {
        model := model.(status := terminal.value, active := false);
      } else if next.None? {
        model := model.(status := Completed, active := false);
      } else {
        model := model.(status := Running, nextFire := next.value);
      }
      if model.deadline.Some? && model.deadline.value <= now && model.active {
        model := model.(status := Completed, active := false);
      }
      if model.maxRuns.Some? && model.runCount >= model.maxRuns.value && model.active {
        model := model.(status := Completed, active := false);
      }
      jobs := jobs[id := model];
      return Some(model);
    }

    method Cancel(id: string) returns (cancelled: Option<Job>)
      modifies this
      ensures cancelled == if id in old(jobs) then Some(CancelledJob(old(jobs)[id])) else None
      ensures jobs == if cancelled.Some? then old(jobs)[id := cancelled.value] else old(jobs)
    {
      if id !in jobs {
        return None;
      }
      var model := jobs[id];
      model := model.(status := Cancelled, active := false);
      model := model.(claimedBy := None, claimedAt := None);
      jobs := jobs[id := model];
      return Some(model);
    }
  }

  class TimerRuntimeStore {
    const repo: TimerJobRepository
    const search: Search

    constructor (repo: TimerJobRepository, search: Search)
      ensures this.repo == repo && this.search == search
    {
      this.repo := repo;
      this.search := search;
    }

    method CreateJob(id: string, now: int, q: Request) returns (creation: Creation)
      modifies repo
      ensures creation == Create(search, now, q)
      ensures repo.jobs == if creation.Created? then old(repo.jobs)[id := creation.job] else old(repo.jobs)
    {
      var delay := Max(0, q.startDelaySeconds);
      var deadline := None;
      if q.deadlineSeconds.Some? {
        if q.deadlineSeconds.value <= 0 {
          return Refused(BadDeadline);
        }
        deadline := Some(now + q.deadlineSeconds.value * SECOND);
      }
      if q.maxRuns.Some? && q.maxRuns.value <= 0 {
        return Refused(BadMaxRuns);
      }
      var next: int;
      if q.mode.Heartbeat? {
        if q.intervalSeconds < 2 {
          return Refused(IntervalTooShort);
        }
        next := now + Max(1, if delay != 0 then delay else q.intervalSeconds) * SECOND;
      } else {
        if !search.accepts(q.cronExpr) {
          return Refused(BadCron);
        }
        var found := search.next(q.cronExpr, now + delay * SECOND);
        if found.None? {
          return Refused(NoFireTime);
        }
        next := found.value;
      }
      var job := Job(q.mode, q.cronExpr, q.intervalSeconds, Pending, next, deadline, q.maxRuns, 0, 0, None, None, true);
      repo.Add(id, job);
      return Created(job);
    }

    method MarkJobResult(id: string, now: int, success: bool) returns (updated: Option<Job>)
      modifies repo
      ensures updated == if id in old(repo.jobs) then Some(Marked(search, old(repo.jobs)[id], now, success)) else None
      ensures repo.jobs == if updated.Some? then old(repo.jobs)[id := updated.value] else old(repo.jobs)
    {
      if id !in repo.jobs {
        return None;
      }
      var current := repo.jobs[id];
      var terminal: Option<Status> := None;
      if current.deadline.Some? && current.deadline.value <= now {
        terminal := Some(Completed);
      }
      if current.maxRuns.Some? && current.runCount + 1 >= current.maxRuns.value {
        terminal := Some(Completed);
      }
      if !success && current.failureCount + 1 >= MAX_FAILURES {
        terminal := Some(Failed);
      }
      var next: Option<int> := None;
      if terminal.None? {
        if current.mode.Heartbeat? {
          next := Some(now + Max(2, current.intervalSeconds) * SECOND);
        } else {
          next := search.next(current.cronExpr, now);
          if next.None? {
            terminal := Some(Failed);
          }
        }
      }
      updated := repo.UpdateAfterRun(id, now, next, success, terminal);
    }
  }
}
