// Runs of the timer jobs: any number of watchdogs claim due jobs, publish their ticks and
// settle them, while jobs are created and cancelled and the clock moves on.
module TimerRuns {
  import opened Wrappers
  import opened TimerJobs

  // A job a watchdog has claimed and not yet settled, and when it claimed it.
  datatype Claim = Claim(id: string, at: int)

  // The claims a watchdog still has to work through; published says the first one's tick is out.
  datatype Watchdog = Watchdog(held: seq<Claim>, published: bool)

  // ticks counts the ticks published per job, silent the settlements without one.
  datatype Timers = Timers(
    now: int,
    jobs: map<string, Job>,
    watchdogs: map<string, Watchdog>,
    ticks: multiset<string>,
    silent: multiset<string>)

  datatype Step =
    | Advance(to: int)
    | CreateJob(id: string, request: Request)
    | ClaimJobs(w: string, limit: int, rows: seq<string>)
    | Publish(w: string)
    | Mark(w: string, success: bool)
    | CancelJob(id: string)

  ghost predicate Enabled(s: Timers, step: Step) {
    match step
    case Advance(to) => s.now <= to
    case CreateJob(id, _) => id !in s.jobs
    case ClaimJobs(w, limit, rows) =>
      w in s.watchdogs && s.watchdogs[w].held == [] && IsSelection(s.jobs, s.now, limit, rows)
    case Publish(w) => w in s.watchdogs && s.watchdogs[w].held != [] && !s.watchdogs[w].published
    case Mark(w, success) =>
      w in s.watchdogs && s.watchdogs[w].held != [] && (success ==> s.watchdogs[w].published)
    case CancelJob(id) => true
  }

  function Claims(rows: seq<string>, now: int): seq<Claim> {
    seq(|rows|, i requires 0 <= i < |rows| => Claim(rows[i], now))
  }

  ghost function Apply(search: Search, s: Timers, step: Step): Timers
    requires Enabled(s, step)
  {
    match step
    case Advance(to) => s.(now := to)
    case CreateJob(id, request) =>
      var creation := Create(search, s.now, request);
      if creation.Created? then s.(jobs := s.jobs[id := creation.job]) else s
    case ClaimJobs(w, limit, rows) =>
      s.(jobs := Claimed(s.jobs, rows, w, s.now), watchdogs := s.watchdogs[w := Watchdog(Claims(rows, s.now), false)])
    case Publish(w) =>
      var dog := s.watchdogs[w];
      s.(watchdogs := s.watchdogs[w := dog.(published := true)], ticks := s.ticks + multiset{dog.held[0].id})
    case Mark(w, success) =>
      var dog := s.watchdogs[w];
      var id := dog.held[0].id;
      s.(watchdogs := s.watchdogs[w := Watchdog(dog.held[1..], false)],
         jobs := if id in s.jobs then s.jobs[id := Marked(search, s.jobs[id], s.now, success)] else s.jobs,
         silent := if dog.published then s.silent else s.silent + multiset{id})
    case CancelJob(id) =>
      if id in s.jobs then s.(jobs := s.jobs[id := CancelledJob(s.jobs[id])]) else s
  }

  predicate Initial(s: Timers) {
    && s.jobs == map[] && s.ticks == multiset{} && s.silent == multiset{}
    && forall w :: w in s.watchdogs ==> s.watchdogs[w] == Watchdog([], false)
  }

  ghost predicate IsRun(search: Search, run: seq<Timers>) {
    && run != []
    && forall k :: 0 <= k < |run| - 1 ==> Follows(search, run[k], run[k + 1])
  }

  ghost predicate Follows(search: Search, s: Timers, t: Timers) {
    exists step :: Takes(search, s, step, t)
  }

  ghost predicate Takes(search: Search, s: Timers, step: Step, t: Timers) {
    Enabled(s, step) && Apply(search, s, step) == t
  }

  // The search returns a time after now, and the least such: searching later finds nothing
  // earlier.
  ghost predicate LawfulSearch(search: Search) {
    && (forall e, now :: search.next(e, now).Some? ==> search.next(e, now).value > now)
    && (forall e, now, later :: now <= later && search.next(e, now).Some? && search.next(e, later).Some? ==>
          search.next(e, now).value <= search.next(e, later).value)
  }

  // ---------- what every job keeps ----------

  ghost predicate JobInv(search: Search, job: Job, now: int) {
    && job.runCount >= 0
    && (job.active ==>
          && (job.status.Pending? || job.status.Running?)
          && 0 <= job.failureCount < MAX_FAILURES
          && (job.maxRuns.Some? ==> job.runCount < job.maxRuns.value)
          && (job.claimedAt.Some? ==> job.nextFire <= job.claimedAt.value <= now)
          && (job.runCount > 0 ==> exists m :: m <= now && NextFire(search, job, m) == Some(job.nextFire)))
  }

  ghost predicate JobsInv(search: Search, s: Timers) {
    forall id :: id in s.jobs ==> JobInv(search, s.jobs[id], s.now)
  }

  ghost predicate ClaimInv(s: Timers, c: Claim) {
    && c.id in s.jobs && c.at <= s.now
    && (s.jobs[c.id].active ==> s.jobs[c.id].nextFire <= s.now || s.jobs[c.id].runCount > 0)
  }

  ghost predicate Inv(search: Search, s: Timers) {
    && JobsInv(search, s)
    && (forall w, i :: w in s.watchdogs && 0 <= i < |s.watchdogs[w].held| ==> ClaimInv(s, s.watchdogs[w].held[i]))
  }

  // What one step may do to one job.
  ghost predicate Evolves(a: Job, b: Job) {
    && (b.active ==> a.active && a.nextFire <= b.nextFire)
    && b.maxRuns == a.maxRuns && a.runCount <= b.runCount
  }

  ghost predicate AllEvolve(s: Timers, t: Timers) {
    forall id :: id in s.jobs ==> id in t.jobs && Evolves(s.jobs[id], t.jobs[id])
  }

  lemma MarkKeepsJob(search: Search, job: Job, now: int, success: bool)
    requires LawfulSearch(search) && JobInv(search, job, now)
    requires job.active ==> job.nextFire <= now || job.runCount > 0
    ensures JobInv(search, Marked(search, job, now, success), now)
    ensures Evolves(job, Marked(search, job, now, success))
    ensures Marked(search, job, now, success).runCount == job.runCount + 1
  {
    var after := Marked(search, job, now, success);
    assert after.active ==> NextFire(search, after, now) == Some(after.nextFire);
  }

  // Settling a job whose claim is outstanding moves its next fire time strictly forward.
  lemma MarkAdvances(search: Search, job: Job, now: int, success: bool)
    requires LawfulSearch(search) && JobInv(search, job, now) && job.claimedAt.Some?
    ensures var after := Marked(search, job, now, success);
            after.active ==> now < after.nextFire && job.nextFire < after.nextFire
  {
  }

  // When a job still active after a settlement fires next: a heartbeat job an interval, of two
  // seconds at least, after the settlement; a cron job when the search says.
  lemma MarkSetsNext(search: Search, job: Job, now: int, success: bool)
    ensures var after := Marked(search, job, now, success);
            after.active ==>
              && (job.mode.Heartbeat? && job.intervalSeconds >= 2 ==> after.nextFire == now + job.intervalSeconds * SECOND)
              && (job.mode.Heartbeat? && job.intervalSeconds < 2 ==> after.nextFire == now + 2 * SECOND)
              && (job.mode.Cron? ==> search.next(job.cronExpr, now) == Some(after.nextFire))
  {
  }

  // The failures at the end of a sequence of results.
  function TrailingFailures(results: seq<bool>): nat {
    if results == [] || results[|results| - 1] then 0 else TrailingFailures(results[..|results| - 1]) + 1
  }

  // The job after these results, each with the time it came in.
  function MarkedAll(search: Search, job: Job, times: seq<int>, results: seq<bool>): Job
    requires |times| == |results|
  {
    if results == [] then job
    else
      var n := |results| - 1;
      Marked(search, MarkedAll(search, job, times[..n], results[..n]), times[n], results[n])
  }

  lemma {:induction false} FailuresCounted(search: Search, job: Job, times: seq<int>, results: seq<bool>)
    requires |times| == |results| && job.failureCount == 0
    ensures MarkedAll(search, job, times, results).failureCount == TrailingFailures(results)
  {
    if results != [] {
      FailuresCounted(search, job, times[..|results| - 1], results[..|results| - 1]);
    }
  }

  // A result makes an active job fail for its failures exactly if it is the third in a row: an
  // earlier success starts the count again.
  lemma ThreeInARow(search: Search, job: Job, times: seq<int>, results: seq<bool>)
    requires |times| == |results| > 0 && job.failureCount == 0 && job.maxRuns.None? && job.deadline.None?
    requires job.mode.Heartbeat?
    ensures var n := |results| - 1;
            var before := MarkedAll(search, job, times[..n], results[..n]);
            var after := MarkedAll(search, job, times, results);
            && (after.status.Failed? <==> TrailingFailures(results) >= 3)
            && (before.active ==> (after.active <==> TrailingFailures(results) < 3))
  {
    var n := |results| - 1;
    FailuresCounted(search, job, times[..n], results[..n]);
    MarksKeepBounds(search, job, times[..n], results[..n]);
  }

  lemma {:induction false} MarksKeepBounds(search: Search, job: Job, times: seq<int>, results: seq<bool>)
    requires |times| == |results|
    ensures var after := MarkedAll(search, job, times, results);
            after.maxRuns == job.maxRuns && after.deadline == job.deadline && after.mode == job.mode
  {
    if results != [] {
      MarksKeepBounds(search, job, times[..|results| - 1], results[..|results| - 1]);
    }
  }

  lemma AdvanceKeepsJob(search: Search, job: Job, now: int, to: int)
    requires LawfulSearch(search) && JobInv(search, job, now) && now <= to
    ensures JobInv(search, job, to)
  {
  }

  lemma CreatedKeeps(search: Search, now: int, q: Request)
    requires Create(search, now, q).Created?
    ensures JobInv(search, Create(search, now, q).job, now)
  {
  }

  lemma ClaimKeepsJob(search: Search, job: Job, worker: string, now: int)
    requires JobInv(search, job, now) && Due(job, now)
    ensures JobInv(search, ClaimOne(job, worker, now), now) && Evolves(job, ClaimOne(job, worker, now))
  {
    var after := ClaimOne(job, worker, now);
    if job.runCount > 0 {
      var m :| m <= now && NextFire(search, job, m) == Some(job.nextFire);
      assert NextFire(search, after, m) == Some(after.nextFire);
    }
  }

  lemma ClaimKeepsJobs(search: Search, s: Timers, step: Step)
    requires JobsInv(search, s) && step.ClaimJobs? && Enabled(s, step)
    ensures JobsInv(search, Apply(search, s, step)) && AllEvolve(s, Apply(search, s, step))
  {
    var t := Apply(search, s, step);
    forall id | id in s.jobs ensures JobInv(search, t.jobs[id], t.now) && Evolves(s.jobs[id], t.jobs[id]) {
      if id in step.rows {
        var i :| 0 <= i < |step.rows| && step.rows[i] == id;
        assert step.rows[i] in DueIds(s.jobs, s.now);
        ClaimKeepsJob(search, s.jobs[id], step.w, s.now);
      }
    }
  }

  lemma StepKeepsJobs(search: Search, s: Timers, step: Step)
    requires LawfulSearch(search) && Inv(search, s) && Enabled(s, step)
    ensures JobsInv(search, Apply(search, s, step))
    ensures AllEvolve(s, Apply(search, s, step)) && s.now <= Apply(search, s, step).now
  {
    if step.Advance? {
      forall id | id in s.jobs ensures JobInv(search, s.jobs[id], step.to) {
        AdvanceKeepsJob(search, s.jobs[id], s.now, step.to);
      }
    } else if step.ClaimJobs? {
      ClaimKeepsJobs(search, s, step);
    } else if step.CreateJob? {
      if Create(search, s.now, step.request).Created? {
        CreatedKeeps(search, s.now, step.request);
      }
    } else if step.Mark? {
      var c := s.watchdogs[step.w].held[0];
      assert ClaimInv(s, c);
      MarkKeepsJob(search, s.jobs[c.id], s.now, step.success);
    }
  }

  lemma StepKeepsInv(search: Search, s: Timers, step: Step)
    requires LawfulSearch(search) && Inv(search, s) && Enabled(s, step)
    ensures Inv(search, Apply(search, s, step))
  {
    StepKeepsJobs(search, s, step);
    var t := Apply(search, s, step);
    forall w, i | w in t.watchdogs && 0 <= i < |t.watchdogs[w].held| ensures ClaimInv(t, t.watchdogs[w].held[i]) {
      var c := t.watchdogs[w].held[i];
      if step.ClaimJobs? && w == step.w {
        assert step.rows[i] in DueIds(s.jobs, s.now);
      } else {
        var j := if step.Mark? && w == step.w then i + 1 else i;
        assert s.watchdogs[w].held[j] == c;
        assert ClaimInv(s, c);
      }
    }
  }

  // ---------- over every run ----------

  lemma FollowsKeeps(search: Search, s: Timers, t: Timers)
    requires LawfulSearch(search) && Inv(search, s) && Follows(search, s, t)
    ensures Inv(search, t) && AllEvolve(s, t)
  {
    var step :| Takes(search, s, step, t);
    StepKeepsJobs(search, s, step);
    StepKeepsInv(search, s, step);
  }

  lemma RunFollows(search: Search, run: seq<Timers>, k: nat)
    requires IsRun(search, run) && 0 < k < |run|
    ensures Follows(search, run[k - 1], run[k])
  {
    assert Follows(search, run[k - 1], run[k - 1 + 1]);
  }

  lemma {:induction false} RunKeepsInv(search: Search, run: seq<Timers>, k: nat)
    requires LawfulSearch(search) && IsRun(search, run) && Initial(run[0]) && k < |run|
    ensures Inv(search, run[k])
  {
    if k > 0 {
      RunKeepsInv(search, run, k - 1);
      RunFollows(search, run, k);
      FollowsKeeps(search, run[k - 1], run[k]);
    }
  }

  lemma EvolveSelf(s: Timers)
    ensures AllEvolve(s, s)
  {
  }

  lemma EvolveTrans(r: Timers, s: Timers, t: Timers)
    requires AllEvolve(r, s) && AllEvolve(s, t)
    ensures AllEvolve(r, t)
  {
    forall id | id in r.jobs ensures id in t.jobs && Evolves(r.jobs[id], t.jobs[id]) {
      assert id in s.jobs && Evolves(r.jobs[id], s.jobs[id]) && Evolves(s.jobs[id], t.jobs[id]);
    }
  }

  lemma StepEvolves(search: Search, run: seq<Timers>, k: nat)
    requires LawfulSearch(search) && IsRun(search, run) && Initial(run[0]) && 0 < k < |run|
    ensures AllEvolve(run[k - 1], run[k])
  {
    RunKeepsInv(search, run, k - 1);
    RunFollows(search, run, k);
    FollowsKeeps(search, run[k - 1], run[k]);
  }

  // Over every run: a job stays in the table; once inactive it is never active again; while it
  // is active its next fire time never moves back.
  lemma {:induction false} JobsOnlyFinish(search: Search, run: seq<Timers>, j: nat, k: nat)
    requires LawfulSearch(search) && IsRun(search, run) && Initial(run[0]) && j <= k < |run|
    ensures AllEvolve(run[j], run[k])
    decreases k
  {
    if j == k {
      EvolveSelf(run[k]);
    } else {
      JobsOnlyFinish(search, run, j, k - 1);
      StepEvolves(search, run, k);
      EvolveTrans(run[j], run[k - 1], run[k]);
    }
  }

  // In every reachable state an active job is pending or running, has failed fewer than three
  // times in a row and has runs left.
  lemma ActiveJobs(search: Search, run: seq<Timers>, k: nat, id: string)
    requires LawfulSearch(search) && IsRun(search, run) && Initial(run[0]) && k < |run|
    requires id in run[k].jobs && run[k].jobs[id].active
    ensures var job := run[k].jobs[id];
            && (job.status.Pending? || job.status.Running?) && job.failureCount < MAX_FAILURES
            && (job.maxRuns.Some? ==> job.runCount < job.maxRuns.value)
  {
    RunKeepsInv(search, run, k);
  }

  // ---------- every tick is accounted for ----------

  predicate Publishing(dog: Watchdog, id: string) {
    dog.held != [] && dog.published && dog.held[0].id == id
  }

  // The watchdogs that have published a tick of the job and not yet settled it.
  function TicksOut(s: Timers, id: string): set<string> {
    set w | w in s.watchdogs && Publishing(s.watchdogs[w], id)
  }

  function RunCount(s: Timers, id: string): int {
    if id in s.jobs then s.jobs[id].runCount else 0
  }

  // Each tick and each settlement without one is a run counted, or a tick still to be settled.
  predicate Accounted(s: Timers, id: string) {
    s.ticks[id] + s.silent[id] == RunCount(s, id) + |TicksOut(s, id)|
  }

  lemma PublishAccounts(search: Search, s: Timers, w: string, id: string)
    requires Accounted(s, id) && Enabled(s, Publish(w))
    ensures Accounted(Apply(search, s, Publish(w)), id)
  {
    var t := Apply(search, s, Publish(w));
    if s.watchdogs[w].held[0].id == id {
      assert TicksOut(t, id) == TicksOut(s, id) + {w} && w !in TicksOut(s, id);
    } else {
      assert TicksOut(t, id) == TicksOut(s, id);
    }
  }

  lemma MarkAccounts(search: Search, s: Timers, w: string, success: bool, id: string)
    requires Accounted(s, id) && Enabled(s, Mark(w, success)) && ClaimInv(s, s.watchdogs[w].held[0])
    ensures Accounted(Apply(search, s, Mark(w, success)), id)
  {
    var t, dog := Apply(search, s, Mark(w, success)), s.watchdogs[w];
    if dog.held[0].id == id && dog.published {
      assert TicksOut(t, id) == TicksOut(s, id) - {w} && w in TicksOut(s, id);
    } else {
      assert TicksOut(t, id) == TicksOut(s, id);
    }
  }

  lemma OtherAccounts(search: Search, s: Timers, step: Step, id: string)
    requires Accounted(s, id) && Enabled(s, step) && !step.Publish? && !step.Mark?
    ensures Accounted(Apply(search, s, step), id)
  {
    var t := Apply(search, s, step);
    assert TicksOut(t, id) == TicksOut(s, id);
    assert RunCount(t, id) == RunCount(s, id);
  }

  // Over every run: ticks and silent settlements are the runs counted and the ticks still out.
  lemma {:induction false} TicksAccounted(search: Search, run: seq<Timers>, k: nat, id: string)
    requires LawfulSearch(search) && IsRun(search, run) && Initial(run[0]) && k < |run|
    ensures Accounted(run[k], id)
  {
    if k == 0 {
      assert TicksOut(run[0], id) == {};
    } else {
      TicksAccounted(search, run, k - 1, id);
      RunKeepsInv(search, run, k - 1);
      RunFollows(search, run, k);
      var s := run[k - 1];
      var step :| Takes(search, s, step, run[k]);
      if step.Publish? {
        PublishAccounts(search, s, step.w, id);
      } else if step.Mark? {
        assert ClaimInv(s, s.watchdogs[step.w].held[0]);
        MarkAccounts(search, s, step.w, step.success, id);
      } else {
        OtherAccounts(search, s, step, id);
      }
    }
  }

  // So a job has ticked at most as often as it may run exactly if the runs counted and the ticks
  // still out exceed that by no more than the settlements without a tick.
  lemma BoundHoldsIff(search: Search, run: seq<Timers>, k: nat, id: string)
    requires LawfulSearch(search) && IsRun(search, run) && Initial(run[0]) && k < |run|
    requires id in run[k].jobs && run[k].jobs[id].maxRuns.Some?
    ensures var job := run[k].jobs[id];
            run[k].ticks[id] <= job.maxRuns.value <==>
            job.runCount + |TicksOut(run[k], id)| <= job.maxRuns.value + run[k].silent[id]
  {
    TicksAccounted(search, run, k, id);
  }

  // ---------- claims held once ----------

  // Some watchdog holds a claim of the job, at this place of its list.
  predicate HoldsAt(s: Timers, id: string, w: string, i: int) {
    w in s.watchdogs && 0 <= i < |s.watchdogs[w].held| && s.watchdogs[w].held[i].id == id
  }

  // No two claims of the job are held at once.
  ghost predicate HeldOnce(s: Timers, id: string) {
    forall w, i, v, j :: HoldsAt(s, id, w, i) && HoldsAt(s, id, v, j) ==> w == v && i == j
  }

  ghost predicate HeldInv(s: Timers, c: Claim) {
    && c.id in s.jobs
    && (s.jobs[c.id].active ==> s.jobs[c.id].claimedAt == Some(c.at))
    && (s.jobs[c.id].maxRuns.Some? ==> s.jobs[c.id].runCount < s.jobs[c.id].maxRuns.value)
  }

  ghost predicate AllHeld(s: Timers, id: string) {
    forall w, i :: HoldsAt(s, id, w, i) ==> HeldInv(s, s.watchdogs[w].held[i])
  }

  predicate RunsLeft(s: Timers, id: string) {
    id in s.jobs && s.jobs[id].maxRuns.Some? ==> s.jobs[id].runCount <= s.jobs[id].maxRuns.value
  }

  // Where a claim of the job is held after a step.
  lemma HoldsBefore(search: Search, s: Timers, step: Step, id: string, w: string, i: int)
    requires Enabled(s, step) && HoldsAt(Apply(search, s, step), id, w, i)
    ensures var claimed := step.ClaimJobs? && w == step.w;
            if claimed then i < |step.rows| && step.rows[i] == id
            else
              var before := if step.Mark? && w == step.w then i + 1 else i;
              HoldsAt(s, id, w, before) && Apply(search, s, step).watchdogs[w].held[i] == s.watchdogs[w].held[before]
  {
  }

  // A settled job is in nobody's hands.
  lemma MarkedIsFree(search: Search, s: Timers, marker: string, success: bool, id: string)
    requires HeldOnce(s, id) && Enabled(s, Mark(marker, success)) && s.watchdogs[marker].held[0].id == id
    ensures forall w, i :: !HoldsAt(Apply(search, s, Mark(marker, success)), id, w, i)
  {
    assert HoldsAt(s, id, marker, 0);
    forall w, i ensures !HoldsAt(Apply(search, s, Mark(marker, success)), id, w, i) {
      if HoldsAt(Apply(search, s, Mark(marker, success)), id, w, i) {
        HoldsBefore(search, s, Mark(marker, success), id, w, i);
      }
    }
  }

  // A claim of the job just taken, with no other held beside it.
  lemma ClaimedHeld(search: Search, s: Timers, step: Step, id: string)
    requires Inv(search, s) && step.ClaimJobs? && Enabled(s, step) && id in step.rows
    requires HeldOnce(Apply(search, s, step), id)
    ensures AllHeld(Apply(search, s, step), id)
  {
    var t := Apply(search, s, step);
    assert id in DueIds(s.jobs, s.now) && JobInv(search, s.jobs[id], s.now);
    var k :| 0 <= k < |step.rows| && step.rows[k] == id;
    assert HoldsAt(t, id, step.w, k) && t.watchdogs[step.w].held[k] == Claim(id, s.now);
  }

  lemma StepKeepsHeld(search: Search, s: Timers, step: Step, id: string)
    requires Inv(search, s) && HeldOnce(s, id) && AllHeld(s, id) && Enabled(s, step)
    requires HeldOnce(Apply(search, s, step), id)
    ensures AllHeld(Apply(search, s, step), id)
  {
    var t := Apply(search, s, step);
    if step.ClaimJobs? && id in step.rows {
      ClaimedHeld(search, s, step, id);
    } else {
      if step.Mark? && s.watchdogs[step.w].held[0].id == id {
        MarkedIsFree(search, s, step.w, step.success, id);
      }
      forall w, i | HoldsAt(t, id, w, i) ensures HeldInv(t, t.watchdogs[w].held[i]) {
        HoldsBefore(search, s, step, id, w, i);
      }
    }
  }

  lemma StepKeepsRunsLeft(search: Search, s: Timers, step: Step, id: string)
    requires Inv(search, s) && AllHeld(s, id) && RunsLeft(s, id) && Enabled(s, step)
    ensures RunsLeft(Apply(search, s, step), id)
  {
    if step.Mark? && s.watchdogs[step.w].held[0].id == id {
      assert HoldsAt(s, id, step.w, 0) && HeldInv(s, s.watchdogs[step.w].held[0]);
    }
  }

  lemma {:induction false} HeldOnceRun(search: Search, run: seq<Timers>, k: nat, id: string)
    requires LawfulSearch(search) && IsRun(search, run) && Initial(run[0]) && k < |run|
    requires forall i :: 0 <= i <= k ==> HeldOnce(run[i], id)
    ensures AllHeld(run[k], id) && RunsLeft(run[k], id)
  {
    if k > 0 {
      HeldOnceRun(search, run, k - 1, id);
      RunKeepsInv(search, run, k - 1);
      RunFollows(search, run, k);
      var step :| Takes(search, run[k - 1], step, run[k]);
      StepKeepsHeld(search, run[k - 1], step, id);
      StepKeepsRunsLeft(search, run[k - 1], step, id);
    }
  }

  lemma OneTickOut(s: Timers, id: string)
    requires HeldOnce(s, id) && AllHeld(s, id)
    ensures |TicksOut(s, id)| <= 1
    ensures |TicksOut(s, id)| == 1 && id in s.jobs && s.jobs[id].maxRuns.Some? ==>
              s.jobs[id].runCount < s.jobs[id].maxRuns.value
  {
    if w :| w in TicksOut(s, id) {
      assert HoldsAt(s, id, w, 0) && HeldInv(s, s.watchdogs[w].held[0]);
      forall v | v in TicksOut(s, id) ensures v == w {
        assert HoldsAt(s, id, v, 0);
      }
      assert TicksOut(s, id) == {w};
    }
  }

  // While no two claims of a job are held at once it ticks at most as often as it may run.
  lemma TicksAreBounded(search: Search, run: seq<Timers>, k: nat, id: string)
    requires LawfulSearch(search) && IsRun(search, run) && Initial(run[0]) && k < |run|
    requires forall i :: 0 <= i <= k ==> HeldOnce(run[i], id)
    requires id in run[k].jobs && run[k].jobs[id].maxRuns.Some?
    ensures run[k].ticks[id] <= run[k].jobs[id].maxRuns.value
  {
    HeldOnceRun(search, run, k, id);
    TicksAccounted(search, run, k, id);
    OneTickOut(run[k], id);
  }

  // Then every settlement that keeps the job active moves its next fire time strictly forward.
  lemma SettlingAdvances(search: Search, run: seq<Timers>, k: nat, w: string, success: bool, id: string)
    requires LawfulSearch(search) && IsRun(search, run) && Initial(run[0]) && k + 1 < |run|
    requires forall i :: 0 <= i <= k ==> HeldOnce(run[i], id)
    requires Enabled(run[k], Mark(w, success)) && run[k + 1] == Apply(search, run[k], Mark(w, success))
    requires run[k].watchdogs[w].held[0].id == id
    ensures id in run[k].jobs && id in run[k + 1].jobs
    ensures run[k + 1].jobs[id].active ==> run[k].jobs[id].nextFire < run[k + 1].jobs[id].nextFire
  {
    HeldOnceRun(search, run, k, id);
    RunKeepsInv(search, run, k);
    var c := run[k].watchdogs[w].held[0];
    assert HoldsAt(run[k], id, w, 0) && HeldInv(run[k], c) && ClaimInv(run[k], c);
    if run[k].jobs[id].active {
      MarkAdvances(search, run[k].jobs[id], run[k].now, success);
    } else {
      MarkKeepsJob(search, run[k].jobs[id], run[k].now, success);
    }
  }

  // ---------- how often a heartbeat job fires ----------

  function Interval(job: Job): int {
    Max(2, job.intervalSeconds) * SECOND
  }

  // b is a after some settlements, each of which moved the next fire time on by an interval.
  ghost predicate Spaced(a: Job, b: Job) {
    b.active && a.mode.Heartbeat? ==>
      b.mode == a.mode && b.intervalSeconds == a.intervalSeconds
      && b.nextFire >= a.nextFire + (b.runCount - a.runCount) * Interval(a)
  }

  lemma MarkSpaces(search: Search, job: Job, now: int, success: bool)
    requires job.active ==> job.nextFire <= now
    ensures Spaced(job, Marked(search, job, now, success))
  {
    MarkSetsNext(search, job, now, success);
  }

  lemma StepSpaces(search: Search, s: Timers, step: Step, id: string)
    requires Inv(search, s) && AllHeld(s, id) && Enabled(s, step) && id in s.jobs
    ensures id in Apply(search, s, step).jobs && Spaced(s.jobs[id], Apply(search, s, step).jobs[id])
  {
    if step.Mark? && s.watchdogs[step.w].held[0].id == id {
      assert HoldsAt(s, id, step.w, 0) && HeldInv(s, s.watchdogs[step.w].held[0]) && JobInv(search, s.jobs[id], s.now);
      MarkSpaces(search, s.jobs[id], s.now, step.success);
    }
  }

  lemma SpacedTrans(a: Job, b: Job, c: Job)
    requires Spaced(a, b) && Spaced(b, c) && (c.active ==> b.active)
    ensures Spaced(a, c)
  {
    if c.active && a.mode.Heartbeat? {
      assert (c.runCount - a.runCount) * Interval(a) == (c.runCount - b.runCount) * Interval(a) + (b.runCount - a.runCount) * Interval(a);
    }
  }

  lemma RunStepSpaces(search: Search, run: seq<Timers>, k: nat, id: string)
    requires LawfulSearch(search) && IsRun(search, run) && Initial(run[0]) && 0 < k < |run|
    requires forall i :: 0 <= i <= k ==> HeldOnce(run[i], id)
    requires id in run[k - 1].jobs
    ensures id in run[k].jobs && Spaced(run[k - 1].jobs[id], run[k].jobs[id])
    ensures run[k].jobs[id].active ==> run[k - 1].jobs[id].active
  {
    HeldOnceRun(search, run, k - 1, id);
    RunKeepsInv(search, run, k - 1);
    StepEvolves(search, run, k);
    RunFollows(search, run, k);
    var step :| Takes(search, run[k - 1], step, run[k]);
    StepSpaces(search, run[k - 1], step, id);
  }

  // While no two claims of a heartbeat job are held at once, its next fire time moves on by at
  // least its interval for every run counted in between.
  lemma {:induction false} HeartbeatsAreSpaced(search: Search, run: seq<Timers>, j: nat, k: nat, id: string)
    requires LawfulSearch(search) && IsRun(search, run) && Initial(run[0]) && j <= k < |run|
    requires forall i :: 0 <= i <= k ==> HeldOnce(run[i], id)
    requires id in run[j].jobs
    ensures id in run[k].jobs && Spaced(run[j].jobs[id], run[k].jobs[id])
    decreases k
  {
    if j < k {
      HeartbeatsAreSpaced(search, run, j, k - 1, id);
      RunStepSpaces(search, run, k, id);
      SpacedTrans(run[j].jobs[id], run[k - 1].jobs[id], run[k].jobs[id]);
    }
  }

  // ---------- timely runs ----------

  // Every claim of the job still held is younger than the time after which it may be claimed
  // again.
  ghost predicate Timely(s: Timers, id: string) {
    forall w, i :: HoldsAt(s, id, w, i) ==> s.now < s.watchdogs[w].held[i].at + STALE_AFTER
  }

  // While its claims are settled in time, a job in somebody's hands is not due.
  lemma HeldNotDue(s: Timers, id: string, w: string, i: nat)
    requires AllHeld(s, id) && Timely(s, id) && HoldsAt(s, id, w, i)
    ensures id !in DueIds(s.jobs, s.now)
  {
    assert HeldInv(s, s.watchdogs[w].held[i]);
  }

  // So a claim that takes it finds it in nobody's hands.
  lemma ClaimedIsFree(s: Timers, step: Step, id: string)
    requires AllHeld(s, id) && Timely(s, id) && step.ClaimJobs? && Enabled(s, step) && id in step.rows
    ensures forall w, i :: !HoldsAt(s, id, w, i)
  {
    assert id in DueIds(s.jobs, s.now);
    forall w, i ensures !HoldsAt(s, id, w, i) {
      if HoldsAt(s, id, w, i) {
        HeldNotDue(s, id, w, i);
      }
    }
  }

  lemma StepKeepsHeldOnce(search: Search, s: Timers, step: Step, id: string)
    requires HeldOnce(s, id) && AllHeld(s, id) && Timely(s, id) && Enabled(s, step)
    ensures HeldOnce(Apply(search, s, step), id)
  {
    var t := Apply(search, s, step);
    if step.ClaimJobs? && id in step.rows {
      ClaimedIsFree(s, step, id);
    }
    forall w, i, v, j | HoldsAt(t, id, w, i) && HoldsAt(t, id, v, j) ensures w == v && i == j {
      HoldsBefore(search, s, step, id, w, i);
      HoldsBefore(search, s, step, id, v, j);
    }
  }

  // Claims of a job settled before they go stale are never held twice.
  lemma {:induction false} TimelyHeldOnce(search: Search, run: seq<Timers>, k: nat, id: string)
    requires LawfulSearch(search) && IsRun(search, run) && Initial(run[0]) && k < |run|
    requires forall i :: 0 <= i < k ==> Timely(run[i], id)
    ensures HeldOnce(run[k], id)
  {
    if k > 0 {
      forall i | 0 <= i <= k - 1 ensures HeldOnce(run[i], id) {
        TimelyHeldOnce(search, run, i, id);
      }
      HeldOnceRun(search, run, k - 1, id);
      RunFollows(search, run, k);
      var step :| Takes(search, run[k - 1], step, run[k]);
      StepKeepsHeldOnce(search, run[k - 1], step, id);
    }
  }

  // ---------- what happens otherwise ----------

  // A result that lands after the job was cancelled puts the status back to running exactly if
  // nothing ends the job and it has a next fire time; the job stays inactive either way.
  lemma MarkAfterCancel(search: Search, job: Job, now: int, success: bool)
    ensures var after := Marked(search, CancelledJob(job), now, success);
            && !after.active
            && (after.status.Running? <==> Verdict(job, now, success).None? && NextFire(search, job, now).Some?)
  {
    assert Verdict(CancelledJob(job), now, success) == Verdict(job, now, success);
  }

  function OneRunJob(): Job {
    Job(Heartbeat, "", 2, Pending, 2 * SECOND, None, Some(1), 0, 0, None, None, true)
  }

  // The job "j" may run once; watchdog a claims it, is slow, and b claims it again.
  function StaleSteps(): seq<Step> {
    [ CreateJob("j", Request(Heartbeat, "", 2, 0, None, Some(1))), Advance(2 * SECOND), ClaimJobs("a", 20, ["j"]),
      Advance(122 * SECOND), ClaimJobs("b", 20, ["j"]), Publish("a"), Publish("b") ]
  }

  lemma OnlyDue(jobs: map<string, Job>, now: int, id: string)
    requires jobs.Keys == {id} && Due(jobs[id], now)
    ensures IsSelection(jobs, now, 20, [id])
  {
    assert DueIds(jobs, now) == {id};
  }

  // The bound can fail: two minutes after a claim another watchdog may claim the job as well, and
  // both publish its only tick.
  lemma StaleClaimTicksTwice(search: Search) returns (run: seq<Timers>)
    ensures IsRun(search, run) && Initial(run[0])
    ensures var last := run[|run| - 1];
            "j" in last.jobs && last.jobs["j"].maxRuns == Some(1) && last.ticks["j"] == 2
  {
    var steps, idle := StaleSteps(), Watchdog([], false);
    var s0 := Timers(0, map[], map["a" := idle, "b" := idle], multiset{}, multiset{});
    assert Create(search, 0, steps[0].request) == Created(OneRunJob());
    var s1 := Apply(search, s0, steps[0]);
    var s2 := Apply(search, s1, steps[1]);
    OnlyDue(s2.jobs, s2.now, "j");
    var s3 := Apply(search, s2, steps[2]);
    var s4 := Apply(search, s3, steps[3]);
    OnlyDue(s4.jobs, s4.now, "j");
    var s5 := Apply(search, s4, steps[4]);
    var s6 := Apply(search, s5, steps[5]);
    var s7 := Apply(search, s6, steps[6]);
    run := [s0, s1, s2, s3, s4, s5, s6, s7];
    assert forall k :: 0 <= k < 7 ==> Takes(search, run[k], steps[k], run[k + 1]);
  }
}
