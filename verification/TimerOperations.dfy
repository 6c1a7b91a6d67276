// What the single operations on timer jobs do, on any job, in seconds and counts.
module TimerOperations {
  import opened Wrappers
  import opened TimerJobs

  // ---------- creation ----------

  function Seconds(n: int): int {
    n * 1_000_000
  }

  predicate Positive(n: Option<int>) {
    n.Some? ==> n.value > 0
  }

  // A request is refused for the first of its faults, in this order, and created without any.
  lemma CreateRefusals(search: Search, now: int, q: Request)
    ensures var creation := Create(search, now, q);
            var badDeadline, badRuns := !Positive(q.deadlineSeconds), !Positive(q.maxRuns);
            var badPlan := if q.mode.Heartbeat? then q.intervalSeconds < 2 else !search.accepts(q.cronExpr);
            && (creation == Refused(BadDeadline) <==> badDeadline)
            && (creation == Refused(BadMaxRuns) <==> !badDeadline && badRuns)
            && (creation == Refused(IntervalTooShort) <==> !badDeadline && !badRuns && badPlan && q.mode.Heartbeat?)
            && (creation == Refused(BadCron) <==> !badDeadline && !badRuns && badPlan && q.mode.Cron?)
            && (creation == Refused(NoFireTime) <==>
                  !badDeadline && !badRuns && !badPlan && q.mode.Cron?
                  && search.next(q.cronExpr, now + Seconds(if q.startDelaySeconds < 0 then 0 else q.startDelaySeconds)).None?)
  {
  }

  // When a created job fires first, and what it starts with: a delay, if asked for, replaces a
  // heartbeat's first interval, and moves the start of a cron job's search.
  lemma CreatedStarts(search: Search, now: int, q: Request)
    requires Create(search, now, q).Created?
    ensures var job := Create(search, now, q).job;
            && (q.mode.Heartbeat? ==>
                  job.nextFire == now + Seconds(if q.startDelaySeconds > 0 then q.startDelaySeconds else q.intervalSeconds))
            && (q.mode.Cron? ==>
                  search.next(q.cronExpr, now + Seconds(if q.startDelaySeconds > 0 then q.startDelaySeconds else 0))
                  == Some(job.nextFire))
            && (q.deadlineSeconds.None? ==> job.deadline.None?)
            && (q.deadlineSeconds.Some? ==> job.deadline == Some(now + Seconds(q.deadlineSeconds.value)))
            && job.maxRuns == q.maxRuns && job.mode == q.mode && job.cronExpr == q.cronExpr
            && job.intervalSeconds == q.intervalSeconds && job.status == Pending && job.active
            && job.runCount == 0 && job.failureCount == 0 && job.claimedBy.None? && job.claimedAt.None?
  {
  }

  // ---------- claiming ----------

  // A job may be claimed exactly if it is active and unfinished, its time has come, and nobody
  // claimed it in the last two minutes.
  lemma DueIff(job: Job, now: int)
    ensures Due(job, now) <==>
            && job.active && job.status in {Pending, Running} && job.nextFire <= now
            && (job.claimedAt.Some? ==> now - job.claimedAt.value >= Seconds(120))
  {
  }

  // Some jobs, each once, by their next fire times.
  ghost predicate Ordered(jobs: map<string, Job>, ids: set<string>, order: seq<string>)
    requires ids <= jobs.Keys
  {
    && (forall id :: id in order <==> id in ids)
    && (forall i, j :: 0 <= i < j < |order| ==> order[i] != order[j] && jobs[order[i]].nextFire <= jobs[order[j]].nextFire)
  }

  // All due jobs, earliest first.
  ghost predicate IsDueOrder(jobs: map<string, Job>, now: int, all: seq<string>) {
    Ordered(jobs, DueIds(jobs, now), all)
  }

  lemma {:induction false} OrderExists(jobs: map<string, Job>, ids: set<string>) returns (order: seq<string>)
    requires ids <= jobs.Keys
    ensures Ordered(jobs, ids, order)
    decreases ids
  {
    order := [];
    if ids != {} {
      var first := EarliestExists(jobs, ids);
      var rest := OrderExists(jobs, ids - {first});
      order := [first] + rest;
    }
  }

  lemma {:induction false} DistinctSize(s: seq<string>, ids: set<string>)
    requires forall i, j :: 0 <= i < j < |s| ==> s[i] != s[j]
    requires forall id :: id in s <==> id in ids
    ensures |s| == |ids|
  {
    if s == [] {
      assert ids == {};
    } else {
      var rest := s[1..];
      assert s == [s[0]] + rest && s[0] !in rest;
      DistinctSize(rest, ids - {s[0]});
    }
  }

  function Most(limit: int): nat {
    if limit < 1 then 1 else limit
  }

  function AtMost(s: seq<string>, n: nat): seq<string> {
    if |s| <= n then s else s[..n]
  }

  // What is selected is the start, of at most limit rows, of all due jobs in the order of their
  // fire times.
  lemma SelectionIsStart(jobs: map<string, Job>, now: int, limit: int, rows: seq<string>) returns (all: seq<string>)
    requires IsSelection(jobs, now, limit, rows)
    ensures IsDueOrder(jobs, now, all) && rows == AtMost(all, Most(limit))
  {
    var due := DueIds(jobs, now);
    var chosen := set id | id in rows;
    var rest := OrderExists(jobs, due - chosen);
    all := rows + rest;
    forall i, j | 0 <= i < j < |all| ensures all[i] != all[j] && jobs[all[i]].nextFire <= jobs[all[j]].nextFire {
      if i < |rows| <= j {
        assert rest[j - |rows|] in due - chosen && rows[i] in rows;
      }
    }
    DistinctSize(all, due);
    assert all[..|rows|] == rows;
  }

  // And every such start is a selection.
  lemma StartIsSelection(jobs: map<string, Job>, now: int, limit: int, all: seq<string>)
    requires IsDueOrder(jobs, now, all)
    ensures IsSelection(jobs, now, limit, AtMost(all, Most(limit)))
  {
    DistinctSize(all, DueIds(jobs, now));
    var rows := AtMost(all, Most(limit));
    assert forall j :: 0 <= j < |rows| ==> rows[j] == all[j] && rows[j] in rows;
    forall i | 0 <= i < |rows| ensures rows[i] in DueIds(jobs, now) {
      assert rows[i] == all[i] && all[i] in all;
    }
    forall i, id | 0 <= i < |rows| && id in DueIds(jobs, now) && id !in rows
      ensures jobs[rows[i]].nextFire <= jobs[id].nextFire
    {
      var j :| 0 <= j < |all| && all[j] == id;
      assert j >= |rows|;
    }
  }

  // A claimed job runs under its worker's name from now on; nothing else about it changes.
  lemma ClaimIs(jobs: map<string, Job>, now: int, limit: int, rows: seq<string>, worker: string, id: string)
    requires IsSelection(jobs, now, limit, rows) && id in jobs
    ensures var next := Claimed(jobs, rows, worker, now);
            && next.Keys == jobs.Keys
            && (id !in rows ==> next[id] == jobs[id])
            && (id in rows ==>
                  && next[id].claimedBy == Some(worker) && next[id].claimedAt == Some(now) && next[id].status == Running
                  && next[id].(claimedBy := None, claimedAt := None, status := Pending)
                     == jobs[id].(claimedBy := None, claimedAt := None, status := Pending))
  {
    if id in rows {
      var i :| 0 <= i < |rows| && rows[i] == id;
      assert rows[i] in DueIds(jobs, now);
    }
  }

  // ---------- settling ----------

  predicate Reached(n: Option<int>, value: int) {
    n.Some? && n.value <= value
  }

  // What every update after a run counts and clears.
  predicate Counted(job: Job, success: bool, after: Job) {
    && after.runCount == job.runCount + 1 && after.failureCount == (if success then 0 else job.failureCount + 1)
    && after.claimedBy.None? && after.claimedAt.None?
    && after.mode == job.mode && after.cronExpr == job.cronExpr && after.intervalSeconds == job.intervalSeconds
    && after.deadline == job.deadline && after.maxRuns == job.maxRuns
  }

  // An update without a verdict ends a job that has no next fire time, or that is active and has
  // no runs or no time left, as completed; a verdict stands whatever is left.
  lemma AfterRunIs(job: Job, now: int, next: Option<int>, success: bool, terminal: Option<Status>)
    ensures var after := AfterRun(job, now, next, success, terminal);
            var over := Reached(job.deadline, now) || Reached(job.maxRuns, job.runCount + 1);
            && Counted(job, success, after)
            && after.nextFire == (if terminal.None? && next.Some? then next.value else job.nextFire)
            && (terminal.Some? ==> after.status == terminal.value && !after.active)
            && (terminal.None? && next.None? ==> after.status == Completed && !after.active)
            && (terminal.None? && next.Some? && job.active && over ==> after.status == Completed && !after.active)
            && (terminal.None? && next.Some? && !(job.active && over) ==> after.status == Running && after.active == job.active)
  {
  }

  // How a result leaves a job: failed after a third failure in a row, else completed without runs
  // or time left, else failed without a next fire time, else running until then.
  lemma MarkedIs(search: Search, job: Job, now: int, success: bool)
    ensures var after := Marked(search, job, now, success);
            var third := !success && job.failureCount >= 2;
            var done := Reached(job.maxRuns, job.runCount + 1) || Reached(job.deadline, now);
            var next := if job.mode.Cron? then search.next(job.cronExpr, now)
                        else Some(now + Seconds(if job.intervalSeconds < 2 then 2 else job.intervalSeconds));
            && Counted(job, success, after)
            && after.status == (if third then Failed else if done then Completed else if next.None? then Failed else Running)
            && (after.active <==> job.active && after.status == Running)
            && after.nextFire == (if after.status == Running then next.value else job.nextFire)
  {
  }

  // Cancelling ends a job for good and frees it; nothing else about it changes.
  lemma CancelIs(job: Job)
    ensures var after := CancelledJob(job);
            && after.status == Cancelled && !after.active && after.claimedBy.None? && after.claimedAt.None?
            && after == job.(status := after.status, active := after.active, claimedBy := after.claimedBy,
                             claimedAt := after.claimedAt)
  {
  }
}
