// The cron search is a lawful search for timer jobs: what TimerRuns proves holds with it.
module CronTimers {
  import opened Wrappers
  import Cron
  import CS = CronSearch
  import TJ = TimerJobs
  import TR = TimerRuns

  ghost predicate Reads(now: CS.Stamp, instant: int) {
    CS.ValidStamp(now) && CS.Instant(now) == instant
  }

  // For accepted fields the code finds the minute t at the instant.
  ghost predicate Finds(lib: Cron.TextLibrary, fields: seq<string>, instant: int, now: CS.Stamp, t: CS.Stamp) {
    && CS.Accepted(lib, fields) && Reads(now, instant) && CS.ValidStamp(t) && t.micros == 0
    && CS.NextFireOf(lib, fields, now, CS.WINDOW) == Cron.Value(Some(t.at))
  }

  ghost function Next(lib: Cron.TextLibrary, fields: seq<string>, instant: int): Option<int> {
    if exists now, t :: Finds(lib, fields, instant, now, t) then
      var now, t :| Finds(lib, fields, instant, now, t);
      Some(CS.Instant(t))
    else None
  }

  ghost function SearchOf(lib: Cron.TextLibrary): TJ.Search {
    TJ.Search(e => Cron.ParseCron(lib, e) == Cron.Value(None), (e, instant) => Next(lib, Cron.Fields(lib, e), instant))
  }

  lemma FindsLater(lib: Cron.TextLibrary, fields: seq<string>, i: int, now: CS.Stamp, t: CS.Stamp,
                   j: int, later: CS.Stamp, u: CS.Stamp)
    requires Finds(lib, fields, i, now, t) && Finds(lib, fields, j, later, u) && i <= j
    ensures i < CS.Instant(t) <= CS.Instant(u)
  {
    CS.NextFireIsLeast(lib, fields, now, CS.WINDOW);
    CS.NextFireIsLeast(lib, fields, later, CS.WINDOW);
    assert CS.FiresAfter(lib, fields, now, u.at);
  }

  // Two clock readings of the same instant are the same.
  lemma InstantInjective(a: CS.Stamp, b: CS.Stamp)
    requires CS.ValidStamp(a) && CS.ValidStamp(b) && CS.Instant(a) == CS.Instant(b)
    ensures a == b
  {
    CS.Calendar.MinutesInjective(a.at, b.at);
  }

  lemma FoundIsNext(lib: Cron.TextLibrary, fields: seq<string>, now: CS.Stamp, t: CS.Stamp)
    requires CS.ValidStamp(now) && Finds(lib, fields, CS.Instant(now), now, t)
    ensures Next(lib, fields, CS.Instant(now)) == Some(CS.Instant(t))
  {
    forall other, u | Finds(lib, fields, CS.Instant(now), other, u) ensures u == t {
      InstantInjective(other, now);
    }
  }

  lemma NothingIsNext(lib: Cron.TextLibrary, fields: seq<string>, now: CS.Stamp)
    requires CS.ValidStamp(now) && CS.NextFireOf(lib, fields, now, CS.WINDOW) == Cron.Value(None)
    ensures Next(lib, fields, CS.Instant(now)) == None
  {
    forall other, u ensures !Finds(lib, fields, CS.Instant(now), other, u) {
      if CS.ValidStamp(other) && CS.Instant(other) == CS.Instant(now) {
        InstantInjective(other, now);
      }
    }
  }

  // What the code finds for an accepted expression, as an instant.
  lemma NextIsFound(lib: Cron.TextLibrary, expr: string, now: CS.Stamp)
    requires Cron.Lawful(lib) && Cron.ParseCron(lib, expr) == Cron.Value(None) && CS.ValidStamp(now)
    ensures var found := CS.NextFire(lib, expr, now, CS.WINDOW);
            && found.Value? && (found.value.Some? ==> CS.ValidStamp(CS.Stamp(found.value.value, 0)))
            && SearchOf(lib).next(expr, CS.Instant(now))
               == if found.value.Some? then Some(CS.Instant(CS.Stamp(found.value.value, 0))) else None
  {
    var fields := Cron.Fields(lib, expr);
    CS.AcceptedIff(lib, expr);
    CS.NextFireIsLeast(lib, fields, now, CS.WINDOW);
    var found := CS.NextFireOf(lib, fields, now, CS.WINDOW);
    if found.value.Some? {
      FoundIsNext(lib, fields, now, CS.Stamp(found.value.value, 0));
    } else {
      NothingIsNext(lib, fields, now);
    }
  }

  // Searching later finds nothing earlier.
  lemma NextGrows(lib: Cron.TextLibrary, fields: seq<string>, i: int, j: int)
    requires i <= j && Next(lib, fields, i).Some? && Next(lib, fields, j).Some?
    ensures i < Next(lib, fields, i).value <= Next(lib, fields, j).value
  {
    var now, t :| Finds(lib, fields, i, now, t) && Next(lib, fields, i).value == CS.Instant(t);
    var later, u :| Finds(lib, fields, j, later, u) && Next(lib, fields, j).value == CS.Instant(u);
    FindsLater(lib, fields, i, now, t, j, later, u);
  }

  // The cron search finds a time after now, and searching later finds nothing earlier.
  lemma SearchIsLawful(lib: Cron.TextLibrary)
    ensures TR.LawfulSearch(SearchOf(lib))
  {
    var search := SearchOf(lib);
    forall e, i, j | i <= j && search.next(e, i).Some? && search.next(e, j).Some?
      ensures i < search.next(e, i).value <= search.next(e, j).value
    {
      NextGrows(lib, Cron.Fields(lib, e), i, j);
    }
  }

  // A cron job within the bounds on a request.
  predicate Bounded(q: TJ.Request, expr: string) {
    && q.mode.Cron? && q.cronExpr == expr
    && (q.deadlineSeconds.Some? ==> q.deadlineSeconds.value > 0) && (q.maxRuns.Some? ==> q.maxRuns.value > 0)
  }

  // anchor is now and the delay the request asks for.
  predicate Anchors(anchor: CS.Stamp, now: int, q: TJ.Request) {
    CS.ValidStamp(anchor) && CS.Instant(anchor) == now + TJ.Max(0, q.startDelaySeconds) * TJ.SECOND
  }

  lemma RefusedWithoutFire(search: TJ.Search, now: int, anchor: int, q: TJ.Request, expr: string)
    requires Bounded(q, expr) && search.accepts(expr) && anchor == now + TJ.Max(0, q.startDelaySeconds) * TJ.SECOND
    ensures TJ.Create(search, now, q).Refused? <==> search.next(expr, anchor).None?
    ensures search.next(expr, anchor).None? ==> TJ.Create(search, now, q) == TJ.Refused(TJ.NoFireTime)
  {
  }

  // Creating such a job for an accepted expression is refused exactly if the search finds nothing.
  lemma RefusedIff(lib: Cron.TextLibrary, expr: string, anchor: CS.Stamp, now: int, q: TJ.Request)
    requires Cron.Lawful(lib) && Cron.ParseCron(lib, expr) == Cron.Value(None) && Bounded(q, expr) && Anchors(anchor, now, q)
    ensures var found, creation := CS.NextFire(lib, expr, anchor, CS.WINDOW), TJ.Create(SearchOf(lib), now, q);
            && (creation.Refused? <==> found == Cron.Value(None))
            && (found == Cron.Value(None) ==> creation == TJ.Refused(TJ.NoFireTime))
  {
    NextIsFound(lib, expr, anchor);
    RefusedWithoutFire(SearchOf(lib), now, CS.Instant(anchor), q, expr);
  }

  // So a job for midnight on every leap day that starts on the first of March 2021 is refused,
  // though its expression is accepted.
  lemma LeapDayRefused(lib: Cron.TextLibrary, expr: string, anchor: CS.Stamp, now: int, q: TJ.Request)
    requires Cron.Lawful(lib) && CS.KnowsDigits(lib) && lib.isSpace(' ')
    requires expr == CS.LEAP_DAY_EXPR && anchor == CS.IN_2021 && Bounded(q, expr) && Anchors(anchor, now, q)
    ensures Cron.ParseCron(lib, expr) == Cron.Value(None)
    ensures TJ.Create(SearchOf(lib), now, q) == TJ.Refused(TJ.NoFireTime)
  {
    CS.LeapDayNotFound(lib);
    CS.LeapDayFields(lib, CS.LEAP_DAY, expr);
    CS.AcceptedIff(lib, expr);
    RefusedIff(lib, expr, anchor, now, q);
  }
}
