// The search for a job's next fire time: fairyclaw/core/runtime/timer_models.py. Time is local
// time in a zone with a fixed offset.
module CronSearch {
  import opened Wrappers
  import opened Cron
  import opened Calendar

  // A wall clock reading: a minute and the microseconds into it.
  datatype Stamp = Stamp(at: Moment, micros: int)

  predicate ValidStamp(now: Stamp) {
    Valid(now.at) && 0 <= now.micros < 60_000_000
  }

  function Instant(s: Stamp): int
    requires ValidStamp(s)
  {
    Minutes(s.at) * 60_000_000 + s.micros
  }

  const WINDOW := 60 * 24 * 366

  // ---------- the search ----------

  // What each of the five fields is compared with.
  function Part(t: Moment, k: nat): int
    requires Valid(t) && k < 5
  {
    if k == 0 then t.minute
    else if k == 1 then t.hour
    else if k == 2 then t.date.day
    else if k == 3 then t.date.month
    else Weekday(t.date)
  }

  // All fields from k on match; a field that does not ends the comparison.
  function MatchesFrom(lib: TextLibrary, fields: seq<string>, t: Moment, k: nat): Outcome<bool>
    requires |fields| == 5 && Valid(t) && k <= 5
    decreases 5 - k
  {
    if k == 5 then Value(true)
    else
      match MatchesField(lib, Part(t, k), fields[k], LOWEST[k], HIGHEST[k])
      case Raises => Raises
      case Value(false) => Value(false)
      case Value(true) => MatchesFrom(lib, fields, t, k + 1)
  }

  function Scan(lib: TextLibrary, fields: seq<string>, cursor: Moment, n: nat): Outcome<Option<Moment>>
    requires |fields| == 5 && Valid(cursor)
    decreases n
  {
    if n == 0 then Value(None)
    else
      match MatchesFrom(lib, fields, cursor, 0)
      case Raises => Raises
      case Value(true) => Value(Some(cursor))
      case Value(false) =>
        TickCounts(cursor);
        Scan(lib, fields, Tick(cursor), n - 1)
  }

  function NextFireOf(lib: TextLibrary, fields: seq<string>, now: Stamp, maxMinutesScan: int): Outcome<Option<Moment>>
    requires ValidStamp(now)
  {
    TickCounts(now.at);
    if |fields| != 5 then Value(None)
    else Scan(lib, fields, Tick(now.at), if maxMinutesScan < 1 then 1 else maxMinutesScan)
  }

  function NextFire(lib: TextLibrary, expr: string, now: Stamp, maxMinutesScan: int): Outcome<Option<Moment>>
    requires ValidStamp(now)
  {
    NextFireOf(lib, Fields(lib, expr), now, maxMinutesScan)
  }

  method NextFireAtForCron(lib: TextLibrary, expr: string, now: Stamp, maxMinutesScan: int)
    returns (found: Outcome<Option<Moment>>)
    requires ValidStamp(now)
    ensures found == NextFire(lib, expr, now, maxMinutesScan)
  {
    var parts := Fields(lib, expr);
    if |parts| != 5 {
      return Value(None);
    }
    TickCounts(now.at);
    var cursor := Tick(now.at);
    var rounds := if maxMinutesScan < 1 then 1 else maxMinutesScan;
    ghost var all := Scan(lib, parts, cursor, rounds);
    assert all == NextFire(lib, expr, now, maxMinutesScan);
    for i := 0 to rounds
      invariant Valid(cursor) && all == Scan(lib, parts, cursor, rounds - i)
    {
      ScanStep(lib, parts, cursor, rounds - i);
      var matched := MatchesFrom(lib, parts, cursor, 0);
      if matched.Raises? {
        return Raises;
      }
      if matched.value {
        return Value(Some(cursor));
      }
      cursor := Tick(cursor);
    }
    return Value(None);
  }

  // One round of the loop.
  lemma ScanStep(lib: TextLibrary, fields: seq<string>, cursor: Moment, n: nat)
    requires |fields| == 5 && Valid(cursor) && n > 0
    ensures Valid(Tick(cursor))
    ensures var matched := MatchesFrom(lib, fields, cursor, 0);
            Scan(lib, fields, cursor, n)
            == if matched.Raises? then Raises
               else if matched.value then Value(Some(cursor))
               else Scan(lib, fields, Tick(cursor), n - 1)
  {
    TickCounts(cursor);
  }

  // ---------- what it finds ----------

  // The plan fires at this minute: day and weekday must both allow it.
  ghost predicate Fires(lib: TextLibrary, fields: seq<string>, t: Moment)
    requires |fields| == 5 && Valid(t)
  {
    forall k :: 0 <= k < 5 ==> Allows(lib, fields[k], LOWEST[k], HIGHEST[k], Part(t, k))
  }

  ghost predicate Accepted(lib: TextLibrary, fields: seq<string>) {
    && Lawful(lib) && |fields| == 5
    && forall k :: 0 <= k < 5 ==>
         NoSpace(lib, fields[k]) && ValidateField(lib, fields[k], LOWEST[k], HIGHEST[k]) == Value(None)
  }

  // The expressions parse_cron_5 accepts are those with an accepted list of fields.
  lemma AcceptedIff(lib: TextLibrary, expr: string)
    requires Lawful(lib)
    ensures ParseCron(lib, expr) == Value(None) <==> Accepted(lib, Fields(lib, expr))
  {
    if |Fields(lib, expr)| == 5 {
      ValidFields(lib, Fields(lib, expr), 0);
    }
  }

  lemma {:induction false} MatchesAre(lib: TextLibrary, fields: seq<string>, t: Moment, k: nat)
    requires Accepted(lib, fields) && Valid(t) && k <= 5
    ensures MatchesFrom(lib, fields, t, k) ==
            Value(forall i :: k <= i < 5 ==> Allows(lib, fields[i], LOWEST[i], HIGHEST[i], Part(t, i)))
    decreases 5 - k
  {
    if k < 5 {
      FieldMatches(lib, fields[k], LOWEST[k], HIGHEST[k], Part(t, k));
      MatchesAre(lib, fields, t, k + 1);
    }
  }

  // u is one of the n minutes from t on and the plan fires there.
  ghost predicate FiresWithin(lib: TextLibrary, fields: seq<string>, t: Moment, n: int, u: Moment)
    requires |fields| == 5 && Valid(t)
  {
    Valid(u) && Minutes(t) <= Minutes(u) < Minutes(t) + n && Fires(lib, fields, u)
  }

  lemma {:induction false} ScanFinds(lib: TextLibrary, fields: seq<string>, cursor: Moment, n: nat)
    requires Accepted(lib, fields) && Valid(cursor)
    ensures var found := Scan(lib, fields, cursor, n);
            && found.Value?
            && (found.value.Some? ==> FiresWithin(lib, fields, cursor, n, found.value.value))
            && (forall u :: FiresWithin(lib, fields, cursor, n, u) ==>
                  found.value.Some? && Minutes(found.value.value) <= Minutes(u))
    decreases n
  {
    if n > 0 {
      MatchesAre(lib, fields, cursor, 0);
      TickCounts(cursor);
      if !Fires(lib, fields, cursor) {
        ScanFinds(lib, fields, Tick(cursor), n - 1);
        forall u | FiresWithin(lib, fields, cursor, n, u)
          ensures FiresWithin(lib, fields, Tick(cursor), n - 1, u)
        {
          if Minutes(u) == Minutes(cursor) {
            MinutesInjective(u, cursor);
          }
        }
      }
    }
  }

  ghost predicate FiresAfter(lib: TextLibrary, fields: seq<string>, now: Stamp, u: Moment)
    requires |fields| == 5 && ValidStamp(now)
  {
    Valid(u) && Instant(now) < Instant(Stamp(u, 0)) && Fires(lib, fields, u)
  }

  // For the fields of an accepted expression the search never raises; it returns the least
  // firing minute strictly after now, or None only if none lies within the window.
  lemma NextFireIsLeast(lib: TextLibrary, fields: seq<string>, now: Stamp, maxMinutesScan: int)
    requires Accepted(lib, fields) && ValidStamp(now)
    ensures var found := NextFireOf(lib, fields, now, maxMinutesScan);
            var window := if maxMinutesScan < 1 then 1 else maxMinutesScan;
            && found.Value?
            && (found.value.Some? ==>
                  && FiresAfter(lib, fields, now, found.value.value)
                  && Minutes(found.value.value) <= Minutes(now.at) + window
                  && forall u :: FiresAfter(lib, fields, now, u) ==> Minutes(found.value.value) <= Minutes(u))
            && (found.value.None? ==>
                  forall u :: FiresAfter(lib, fields, now, u) ==> Minutes(u) > Minutes(now.at) + window)
  {
    var window := if maxMinutesScan < 1 then 1 else maxMinutesScan;
    TickCounts(now.at);
    ScanFinds(lib, fields, Tick(now.at), window);
    forall u | FiresAfter(lib, fields, now, u) && Minutes(u) <= Minutes(now.at) + window
      ensures FiresWithin(lib, fields, Tick(now.at), window, u)
    {
    }
  }

  // ---------- the window is enough ----------

  lemma {:induction false} LeapShift(year: int, month: int)
    requires 1 <= month <= 13
    ensures DaysBeforeMonth(year, month) == DaysBeforeMonth(1, month) + if month > 2 && IsLeap(year) then 1 else 0
    decreases month
  {
    if month > 1 {
      LeapShift(year, month - 1);
    }
  }

  lemma NextAnniversary(year: int, month: int, day: int)
    requires ValidDate(Date(year, month, day)) && ValidDate(Date(year + 1, month, day))
    ensures 365 <= Ordinal(Date(year + 1, month, day)) - Ordinal(Date(year, month, day)) <= 366
  {
    LeapShift(year, month);
    LeapShift(year + 1, month);
    YearFollows(year);
  }

  // The day and month are allowed and exist in every year.
  ghost predicate Yearly(lib: TextLibrary, fields: seq<string>, month: int, day: int)
    requires |fields| == 5
  {
    && 1 <= month <= 12 && 1 <= day <= DaysIn(1, month)
    && Allows(lib, fields[2], 1, 31, day) && Allows(lib, fields[3], 1, 12, month)
  }

  ghost predicate AllowsAll(lib: TextLibrary, token: string, lo: int, hi: int) {
    forall v :: lo <= v <= hi ==> Allows(lib, token, lo, hi, v)
  }

  lemma SomeTime(lib: TextLibrary, fields: seq<string>) returns (hour: int, minute: int)
    requires Accepted(lib, fields)
    ensures 0 <= hour < 24 && 0 <= minute < 60
    ensures Allows(lib, fields[0], 0, 59, minute) && Allows(lib, fields[1], 0, 23, hour)
  {
    assert LOWEST[0] == 0 && HIGHEST[0] == 59 && LOWEST[1] == 0 && HIGHEST[1] == 23;
    FieldMatchesSome(lib, fields[0], 0, 59);
    minute :| 0 <= minute <= 59 && MatchesField(lib, minute, fields[0], 0, 59) == Value(true);
    FieldMatches(lib, fields[0], 0, 59, minute);
    FieldMatchesSome(lib, fields[1], 0, 23);
    hour :| 0 <= hour <= 23 && MatchesField(lib, hour, fields[1], 0, 23) == Value(true);
    FieldMatches(lib, fields[1], 0, 23, hour);
  }

  lemma FiresFrom(lib: TextLibrary, fields: seq<string>, u: Moment)
    requires |fields| == 5 && Valid(u)
    requires Allows(lib, fields[0], 0, 59, u.minute) && Allows(lib, fields[1], 0, 23, u.hour)
    requires Allows(lib, fields[2], 1, 31, u.date.day) && Allows(lib, fields[3], 1, 12, u.date.month)
    requires Allows(lib, fields[4], 0, 6, Weekday(u.date))
    ensures Fires(lib, fields, u)
  {
    assert LOWEST[0] == 0 && HIGHEST[0] == 59 && LOWEST[1] == 0 && HIGHEST[1] == 23 && LOWEST[4] == 0 && HIGHEST[4] == 6;
    assert LOWEST[2] == 1 && HIGHEST[2] == 31 && LOWEST[3] == 1 && HIGHEST[3] == 12;
  }

  // Some yearly moment lies within a year after now.
  lemma WithinAYear(now: Moment, month: int, day: int, hour: int, minute: int) returns (u: Moment)
    requires Valid(now) && 1 <= month <= 12 && 1 <= day <= DaysIn(1, month) && 0 <= hour < 24 && 0 <= minute < 60
    ensures Valid(u) && u.hour == hour && u.minute == minute && u.date.month == month && u.date.day == day
    ensures Minutes(now) < Minutes(u) <= Minutes(now) + WINDOW
  {
    var year := now.date.year;
    u := Moment(Date(year, month, day), hour, minute);
    OrdinalInYear(now.date);
    OrdinalInYear(u.date);
    YearFollows(year);
    if Minutes(u) <= Minutes(now) {
      NextAnniversary(year, month, day);
      u := Moment(Date(year + 1, month, day), hour, minute);
      OrdinalInYear(u.date);
    }
  }

  lemma YearlyFinds(lib: TextLibrary, fields: seq<string>, now: Stamp, month: int, day: int)
    requires Accepted(lib, fields) && ValidStamp(now)
    requires AllowsAll(lib, fields[4], 0, 6) && Yearly(lib, fields, month, day)
    ensures Valid(Tick(now.at)) && Scan(lib, fields, Tick(now.at), WINDOW).Value?
    ensures Scan(lib, fields, Tick(now.at), WINDOW).value.Some?
  {
    var hour, minute := SomeTime(lib, fields);
    var u := WithinAYear(now.at, month, day, hour, minute);
    TickCounts(now.at);
    FiresFrom(lib, fields, u);
    assert FiresWithin(lib, fields, Tick(now.at), WINDOW, u);
    ScanFinds(lib, fields, Tick(now.at), WINDOW);
  }

  predicate FindsFrom(lib: TextLibrary, fields: seq<string>, now: Stamp)
    requires ValidStamp(now)
  {
    NextFireOf(lib, fields, now, WINDOW).Value? && NextFireOf(lib, fields, now, WINDOW).value.Some?
  }

  ghost predicate AlwaysFinds(lib: TextLibrary, fields: seq<string>) {
    forall now :: ValidStamp(now) ==> FindsFrom(lib, fields, now)
  }

  const IN_2021 := Stamp(Moment(Date(2021, 3, 1), 0, 0), 0)

  // Within the window from the first of March 2021 there is no leap day.
  lemma No29thOfFebruary(u: Moment)
    requires Valid(u) && Minutes(IN_2021.at) < Minutes(u) <= Minutes(IN_2021.at) + WINDOW
    ensures u.date.day <= DaysIn(1, u.date.month)
  {
    OrdinalInYear(u.date);
    OrdinalInYear(IN_2021.at.date);
    assert DaysBeforeMonth(2021, 3) == 59;
    if u.date.year <= 2020 {
      YearsGrow(u.date.year + 1, 2021);
    } else if u.date.year >= 2023 {
      YearsGrow(2023, u.date.year);
      YearFollows(2022);
      YearFollows(2021);
    }
  }

  lemma YearlyAlwaysFinds(lib: TextLibrary, fields: seq<string>, month: int, day: int)
    requires Accepted(lib, fields)
    requires AllowsAll(lib, fields[4], 0, 6) && Yearly(lib, fields, month, day)
    ensures AlwaysFinds(lib, fields)
  {
    forall now | ValidStamp(now) ensures FindsFrom(lib, fields, now) {
      YearlyFinds(lib, fields, now, month, day);
    }
  }

  lemma FoundIn2021(lib: TextLibrary, fields: seq<string>)
    requires Accepted(lib, fields) && AlwaysFinds(lib, fields)
    ensures exists month, day :: Yearly(lib, fields, month, day)
  {
    assert ValidStamp(IN_2021) && FindsFrom(lib, fields, IN_2021);
    NextFireIsLeast(lib, fields, IN_2021, WINDOW);
    var u := NextFireOf(lib, fields, IN_2021, WINDOW).value.value;
    No29thOfFebruary(u);
    FiredDate(lib, fields, u);
    assert Yearly(lib, fields, u.date.month, u.date.day);
  }

  // An accepted expression with every weekday allowed finds a fire time from every now exactly
  // if it allows a day that exists in every year; the leap day alone is not enough.
  lemma AlwaysFindsIff(lib: TextLibrary, fields: seq<string>)
    requires Accepted(lib, fields)
    requires AllowsAll(lib, fields[4], 0, 6)
    ensures AlwaysFinds(lib, fields) <==> exists month, day :: Yearly(lib, fields, month, day)
  {
    if AlwaysFinds(lib, fields) {
      FoundIn2021(lib, fields);
    }
    if month, day :| Yearly(lib, fields, month, day) {
      YearlyAlwaysFinds(lib, fields, month, day);
    }
  }

  lemma FiredDate(lib: TextLibrary, fields: seq<string>, u: Moment)
    requires |fields| == 5 && Valid(u) && Fires(lib, fields, u)
    ensures Allows(lib, fields[2], 1, 31, u.date.day) && Allows(lib, fields[3], 1, 12, u.date.month)
    ensures Allows(lib, fields[0], 0, 59, u.minute) && Allows(lib, fields[1], 0, 23, u.hour)
    ensures Allows(lib, fields[4], 0, 6, Weekday(u.date))
  {
    assert LOWEST[0] == 0 && HIGHEST[0] == 59 && LOWEST[1] == 0 && HIGHEST[1] == 23;
    assert LOWEST[4] == 0 && HIGHEST[4] == 6 && Part(u, 4) == Weekday(u.date);
    assert Part(u, 0) == u.minute && Part(u, 1) == u.hour;
    assert LOWEST[2] == 1 && HIGHEST[2] == 31 && Part(u, 2) == u.date.day;
    assert LOWEST[3] == 1 && HIGHEST[3] == 12 && Part(u, 3) == u.date.month;
  }

  lemma DailyMinute(lib: TextLibrary, fields: seq<string>, now: Moment) returns (u: Moment)
    requires Accepted(lib, fields) && Valid(now)
    requires AllowsAll(lib, fields[2], 1, 31) && AllowsAll(lib, fields[3], 1, 12) && AllowsAll(lib, fields[4], 0, 6)
    ensures Valid(u) && Fires(lib, fields, u) && Minutes(now) < Minutes(u) <= Minutes(now) + 60 * 24
  {
    var hour, minute := SomeTime(lib, fields);
    u := DailyMoment(now, hour, minute);
    FiresFrom(lib, fields, u);
  }

  // Every time of day comes within a day.
  lemma DailyMoment(now: Moment, hour: int, minute: int) returns (u: Moment)
    requires Valid(now) && 0 <= hour < 24 && 0 <= minute < 60
    ensures Valid(u) && u.hour == hour && u.minute == minute
    ensures Minutes(now) < Minutes(u) <= Minutes(now) + 60 * 24
  {
    NextDayOrdinal(now.date);
    u := Moment(now.date, hour, minute);
    if Minutes(u) <= Minutes(now) {
      u := Moment(NextDay(now.date), hour, minute);
    }
  }

  // With every day allowed the fire time comes within a day.
  lemma DailyFinds(lib: TextLibrary, fields: seq<string>, now: Stamp)
    requires Accepted(lib, fields) && ValidStamp(now)
    requires AllowsAll(lib, fields[2], 1, 31)
    requires AllowsAll(lib, fields[3], 1, 12) && AllowsAll(lib, fields[4], 0, 6)
    ensures var found := NextFireOf(lib, fields, now, 60 * 24); found.Value? && found.value.Some?
  {
    var u := DailyMinute(lib, fields, now.at);
    NextFireIsLeast(lib, fields, now, 60 * 24);
    assert FiresAfter(lib, fields, now, u);
  }

  // ---------- chosen weekdays ----------

  function DaysOn(d: Date, n: nat): Date {
    if n == 0 then d else NextDay(DaysOn(d, n - 1))
  }

  lemma {:induction false} DaysOnCount(d: Date, n: nat)
    requires ValidDate(d)
    ensures ValidDate(DaysOn(d, n)) && Ordinal(DaysOn(d, n)) == Ordinal(d) + n
  {
    if n > 0 {
      DaysOnCount(d, n - 1);
      NextDayOrdinal(DaysOn(d, n - 1));
    }
  }

  lemma WeekdayAfter(ordinal: int, weekday: int) returns (n: nat)
    requires 0 <= weekday < 7
    ensures n < 7 && (ordinal + n + 6) % 7 == weekday && (ordinal + n + 7 + 6) % 7 == weekday
  {
    var today := (ordinal + 6) % 7;
    n := if weekday >= today then weekday - today else weekday - today + 7;
  }

  // Every time of every weekday comes within a week.
  lemma WeeklyMoment(now: Moment, weekday: int, hour: int, minute: int) returns (u: Moment)
    requires Valid(now) && 0 <= weekday < 7 && 0 <= hour < 24 && 0 <= minute < 60
    ensures Valid(u) && u.hour == hour && u.minute == minute && Weekday(u.date) == weekday
    ensures Minutes(now) < Minutes(u) <= Minutes(now) + 7 * 24 * 60
  {
    var n := WeekdayAfter(Ordinal(now.date), weekday);
    DaysOnCount(now.date, n);
    DaysOnCount(now.date, n + 7);
    var soon, later := Moment(DaysOn(now.date, n), hour, minute), Moment(DaysOn(now.date, n + 7), hour, minute);
    u := if Minutes(soon) > Minutes(now) then soon else later;
  }

  // With every day and month allowed the fire time comes within a week, whatever the weekdays.
  lemma WeeklyFinds(lib: TextLibrary, fields: seq<string>, now: Stamp)
    requires Accepted(lib, fields) && ValidStamp(now)
    requires AllowsAll(lib, fields[2], 1, 31) && AllowsAll(lib, fields[3], 1, 12)
    ensures var found := NextFireOf(lib, fields, now, 7 * 24 * 60); found.Value? && found.value.Some?
  {
    var hour, minute := SomeTime(lib, fields);
    assert LOWEST[4] == 0 && HIGHEST[4] == 6;
    FieldMatchesSome(lib, fields[4], 0, 6);
    var weekday :| 0 <= weekday <= 6 && MatchesField(lib, weekday, fields[4], 0, 6) == Value(true);
    FieldMatches(lib, fields[4], 0, 6, weekday);
    var u := WeeklyMoment(now.at, weekday, hour, minute);
    FiresFrom(lib, fields, u);
    NextFireIsLeast(lib, fields, now, 7 * 24 * 60);
    assert FiresAfter(lib, fields, now, u);
  }

  // The calendar repeats every 400 years, weekdays included.
  const CYCLE := 400
  const CYCLE_DAYS := 146_097

  function NextCycle(t: Moment): Moment {
    t.(date := t.date.(year := t.date.year + CYCLE))
  }

  lemma LeapYearsRepeat(year: int)
    ensures IsLeap(year + CYCLE) == IsLeap(year)
  {
    assert (year + 400) % 4 == year % 4;
    assert (year + 400) % 100 == year % 100;
  }

  lemma YearsRepeat(year: int)
    ensures DaysBeforeYear(year + CYCLE) == DaysBeforeYear(year) + CYCLE_DAYS
  {
    var y := year - 1;
    assert (y + 400) / 4 == y / 4 + 100;
    assert (y + 400) / 100 == y / 100 + 4;
  }

  lemma DatesRepeat(d: Date)
    requires ValidDate(d)
    ensures var later := d.(year := d.year + CYCLE); ValidDate(later) && Ordinal(later) == Ordinal(d) + CYCLE_DAYS
  {
    LeapYearsRepeat(d.year);
    YearsRepeat(d.year);
    LeapShift(d.year, d.month);
    LeapShift(d.year + CYCLE, d.month);
  }

  lemma CycleRepeats(t: Moment)
    requires Valid(t)
    ensures Valid(NextCycle(t)) && Minutes(NextCycle(t)) == Minutes(t) + CYCLE_DAYS * 24 * 60
    ensures Weekday(NextCycle(t).date) == Weekday(t.date)
  {
    DatesRepeat(t.date);
  }

  lemma FiresRepeat(lib: TextLibrary, fields: seq<string>, t: Moment)
    requires |fields| == 5 && Valid(t) && Fires(lib, fields, t)
    ensures Valid(NextCycle(t)) && Fires(lib, fields, NextCycle(t))
  {
    CycleRepeats(t);
    FiredDate(lib, fields, t);
    FiresFrom(lib, fields, NextCycle(t));
  }

  // Found a cycle earlier, found now.
  lemma {:induction false} FoundInCycle(lib: TextLibrary, fields: seq<string>, now: Stamp)
    requires Accepted(lib, fields) && ValidStamp(now)
    requires forall early :: ValidStamp(early) && early.at.date.year <= CYCLE ==> FindsFrom(lib, fields, early)
    ensures FindsFrom(lib, fields, now)
    decreases now.at.date.year
  {
    if now.at.date.year > CYCLE {
      var date := now.at.date;
      var before := Stamp(now.at.(date := date.(year := date.year - CYCLE)), now.micros);
      LeapYearsRepeat(date.year - CYCLE);
      assert NextCycle(before.at) == now.at;
      FoundInCycle(lib, fields, before);
      NextFireIsLeast(lib, fields, before, WINDOW);
      var u := NextFireOf(lib, fields, before, WINDOW).value.value;
      CycleRepeats(before.at);
      CycleRepeats(u);
      FiresRepeat(lib, fields, u);
      NextFireIsLeast(lib, fields, now, WINDOW);
      assert FiresAfter(lib, fields, now, NextCycle(u));
    }
  }

  // Whatever the fields, weekdays included: a fire time is found from every now exactly if it is
  // found from every now of the first 400 years.
  lemma AlwaysFindsByCycle(lib: TextLibrary, fields: seq<string>)
    requires Accepted(lib, fields)
    ensures AlwaysFinds(lib, fields) <==>
            forall now :: ValidStamp(now) && now.at.date.year <= CYCLE ==> FindsFrom(lib, fields, now)
  {
    if forall now :: ValidStamp(now) && now.at.date.year <= CYCLE ==> FindsFrom(lib, fields, now) {
      forall now | ValidStamp(now) ensures FindsFrom(lib, fields, now) {
        FoundInCycle(lib, fields, now);
      }
    }
  }

  // ---------- the window is tight ----------

  predicate Digit(lib: TextLibrary, c: char, n: nat) {
    lib.decimal(c) == Some(n)
  }

  lemma OneChunk(lib: TextLibrary, token: string, lo: int, hi: int)
    requires token != "" && ',' !in token && NoSpace(lib, token)
    ensures ValidateField(lib, token, lo, hi) == ValidateChunk(lib, token, lo, hi)
    ensures forall v :: MatchesField(lib, v, token, lo, hi) == MatchesChunk(lib, v, token, lo, hi)
  {
    StripsToItself(lib, token);
    assert Split(token, ',') == [token] && [token][1..] == [];
    assert ValidateChunks(lib, [], lo, hi) == Value(None);
    forall v ensures MatchesField(lib, v, token, lo, hi) == MatchesChunk(lib, v, token, lo, hi) {
      assert MatchesChunks(lib, v, [], lo, hi) == Value(false);
      assert MatchesChunks(lib, v, [token][1..], lo, hi) == Value(false);
    }
  }

  lemma OneDigit(lib: TextLibrary, c: char, n: nat, lo: int, hi: int)
    requires Lawful(lib) && Digit(lib, c, n) && 0 <= lo <= n <= hi
    ensures NoSpace(lib, [c]) && ValidateField(lib, [c], lo, hi) == Value(None)
    ensures forall v :: Allows(lib, [c], lo, hi, v) <==> v == n
  {
    assert ',' in PUNCTUATION && '*' in PUNCTUATION && '/' in PUNCTUATION && '-' in PUNCTUATION;
    OneChunk(lib, [c], lo, hi);
    assert Numeral(lib, [c]) == Some(n) && IsDigits(lib, [c]);
    assert ValidateChunk(lib, [c], lo, hi) == Value(None);
    forall v ensures Allows(lib, [c], lo, hi, v) <==> v == n {
      assert MatchesChunk(lib, v, [c], lo, hi) == Value(v == n);
      FieldMatches(lib, [c], lo, hi, v);
    }
  }

  lemma TwoDigits(lib: TextLibrary, c: char, d: char, m: nat, n: nat, lo: int, hi: int)
    requires Lawful(lib) && Digit(lib, c, m) && Digit(lib, d, n) && lo <= 10 * m + n <= hi
    ensures NoSpace(lib, [c, d]) && ValidateField(lib, [c, d], lo, hi) == Value(None)
    ensures forall v :: Allows(lib, [c, d], lo, hi, v) <==> v == 10 * m + n
  {
    assert ',' in PUNCTUATION && '*' in PUNCTUATION && '/' in PUNCTUATION && '-' in PUNCTUATION;
    OneChunk(lib, [c, d], lo, hi);
    assert [c, d][..1] == [c] && Decimals(lib, [c]) == Some(m);
    assert Numeral(lib, [c, d]) == Some(10 * m + n) && IsDigits(lib, [c, d]);
    assert ValidateChunk(lib, [c, d], lo, hi) == Value(None);
    forall v ensures Allows(lib, [c, d], lo, hi, v) <==> v == 10 * m + n {
      assert MatchesChunk(lib, v, [c, d], lo, hi) == Value(v == 10 * m + n);
      FieldMatches(lib, [c, d], lo, hi, v);
    }
  }

  lemma OneStar(lib: TextLibrary, lo: int, hi: int)
    requires Lawful(lib) && 0 <= lo <= hi
    ensures NoSpace(lib, "*") && ValidateField(lib, "*", lo, hi) == Value(None)
    ensures AllowsAll(lib, "*", lo, hi)
  {
    assert '*' in PUNCTUATION;
    OneChunk(lib, "*", lo, hi);
    forall v | lo <= v <= hi ensures Allows(lib, "*", lo, hi, v) {
      FieldMatches(lib, "*", lo, hi, v);
    }
  }

  const FIRST_OF_MARCH := ["0", "0", "1", "3", "*"]
  const IN_2024 := Moment(Date(2024, 3, 1), 0, 0)
  const IN_2023 := Stamp(Moment(Date(2023, 3, 1), 0, 0), 0)

  // Midnight on the first of March, from that minute in 2023: the next is 366 days later, past
  // a leap day, so a window one minute shorter misses it.
  lemma WindowIsTight(lib: TextLibrary)
    requires Lawful(lib) && Digit(lib, '0', 0) && Digit(lib, '1', 1) && Digit(lib, '3', 3)
    ensures Accepted(lib, FIRST_OF_MARCH)
    ensures Scan(lib, FIRST_OF_MARCH, Tick(IN_2023.at), WINDOW) == Value(Some(IN_2024))
    ensures Scan(lib, FIRST_OF_MARCH, Tick(IN_2023.at), WINDOW - 1) == Value(None)
  {
    AcceptsFirstOfMarch(lib);
    AYearOn();
    TickCounts(IN_2023.at);
    ScanFinds(lib, FIRST_OF_MARCH, Tick(IN_2023.at), WINDOW);
    ScanFinds(lib, FIRST_OF_MARCH, Tick(IN_2023.at), WINDOW - 1);
    assert FiresWithin(lib, FIRST_OF_MARCH, Tick(IN_2023.at), WINDOW, IN_2024);
    forall u | FiresWithin(lib, FIRST_OF_MARCH, Tick(IN_2023.at), WINDOW, u) ensures u == IN_2024 {
      MarchFirsts(u);
    }
  }

  lemma AYearOn()
    ensures Valid(IN_2023.at) && Valid(IN_2024) && Minutes(IN_2024) == Minutes(IN_2023.at) + WINDOW
  {
    YearFollows(2023);
    LeapShift(2023, 3);
    LeapShift(2024, 3);
  }

  lemma AcceptsFirstOfMarch(lib: TextLibrary)
    requires Lawful(lib) && Digit(lib, '0', 0) && Digit(lib, '1', 1) && Digit(lib, '3', 3)
    ensures Accepted(lib, FIRST_OF_MARCH)
    ensures forall t :: Valid(t) ==> (Fires(lib, FIRST_OF_MARCH, t) <==>
              t.minute == 0 && t.hour == 0 && t.date.day == 1 && t.date.month == 3)
  {
    OneDigit(lib, '0', 0, 0, 59);
    OneDigit(lib, '0', 0, 0, 23);
    OneDigit(lib, '1', 1, 1, 31);
    OneDigit(lib, '3', 3, 1, 12);
    OneStar(lib, 0, 6);
    forall t | Valid(t) && Fires(lib, FIRST_OF_MARCH, t)
      ensures t.minute == 0 && t.hour == 0 && t.date.day == 1 && t.date.month == 3
    {
      FiredDate(lib, FIRST_OF_MARCH, t);
    }
  }

  lemma MarchFirsts(u: Moment)
    requires Valid(u) && u.minute == 0 && u.hour == 0 && u.date.day == 1 && u.date.month == 3
    requires Minutes(IN_2023.at) < Minutes(u) <= Minutes(IN_2023.at) + WINDOW
    ensures u == IN_2024
  {
    OrdinalInYear(u.date);
    OrdinalInYear(IN_2023.at.date);
    assert DaysBeforeMonth(2023, 3) == 59;
    if u.date.year <= 2022 {
      YearsGrow(u.date.year + 1, 2023);
    } else if u.date.year >= 2025 {
      YearsGrow(2025, u.date.year);
      YearFollows(2024);
      YearFollows(2023);
    }
  }

  // ---------- accepted expressions that are not found ----------

  // The decimal digits the examples below are written in.
  predicate KnowsDigits(lib: TextLibrary) {
    && Digit(lib, '0', 0) && Digit(lib, '1', 1) && Digit(lib, '2', 2) && Digit(lib, '3', 3) && Digit(lib, '4', 4)
    && Digit(lib, '9', 9)
  }

  const LEAP_DAY := ["0", "0", "29", "2", "*"]

  lemma AcceptsLeapDay(lib: TextLibrary)
    requires Lawful(lib) && KnowsDigits(lib)
    ensures Accepted(lib, LEAP_DAY) && forall v :: Allows(lib, LEAP_DAY[2], 1, 31, v) <==> v == 29
    ensures forall v :: Allows(lib, LEAP_DAY[3], 1, 12, v) <==> v == 2
  {
    OneDigit(lib, '0', 0, 0, 59);
    OneDigit(lib, '0', 0, 0, 23);
    TwoDigits(lib, '2', '9', 2, 9, 1, 31);
    OneDigit(lib, '2', 2, 1, 12);
    OneStar(lib, 0, 6);
  }

  // From the first of March 2021 midnight on a leap day is not found.
  lemma LeapDayNotFound(lib: TextLibrary)
    requires Lawful(lib) && KnowsDigits(lib)
    ensures Accepted(lib, LEAP_DAY) && ValidStamp(IN_2021) && NextFireOf(lib, LEAP_DAY, IN_2021, WINDOW) == Value(None)
  {
    AcceptsLeapDay(lib);
    NextFireIsLeast(lib, LEAP_DAY, IN_2021, WINDOW);
    var found := NextFireOf(lib, LEAP_DAY, IN_2021, WINDOW).value;
    if found.Some? {
      FiredDate(lib, LEAP_DAY, found.value);
      No29thOfFebruary(found.value);
    }
  }

  const LEAP_DAY_EXPR := "0 0 29 2 *"

  lemma {:induction false} WordEnds(lib: TextLibrary, word: string, rest: string)
    requires NoSpace(lib, word) && (rest != "" ==> lib.isSpace(rest[0]))
    ensures WordEnd(lib, word + rest) == |word|
  {
    if word != "" {
      assert (word + rest)[1..] == word[1..] + rest;
      WordEnds(lib, word[1..], rest);
    } else {
      assert word + rest == rest;
    }
  }

  lemma OneWord(lib: TextLibrary, word: string, rest: string)
    requires word != "" && NoSpace(lib, word) && lib.isSpace(' ')
    ensures Words(lib, word) == [word] && Words(lib, word + " " + rest) == [word] + Words(lib, rest)
  {
    WordEnds(lib, word, "");
    assert word + "" == word && word[|word|..] == "";
    var tail := " " + rest;
    WordEnds(lib, word, tail);
    assert word + " " + rest == word + tail;
    assert (word + tail)[..|word|] == word && (word + tail)[|word|..] == tail && tail[1..] == rest;
    assert Words(lib, tail) == Words(lib, rest);
  }

  function Spaced(words: seq<string>): string
    requires words != []
  {
    if |words| == 1 then words[0] else words[0] + " " + Spaced(words[1..])
  }

  ghost predicate AreWords(lib: TextLibrary, words: seq<string>) {
    words != [] && lib.isSpace(' ') && forall k :: 0 <= k < |words| ==> words[k] != "" && NoSpace(lib, words[k])
  }

  lemma {:induction false} SpacedWords(lib: TextLibrary, words: seq<string>)
    requires AreWords(lib, words)
    ensures Words(lib, Spaced(words)) == words
  {
    if |words| > 1 {
      SpacedWords(lib, words[1..]);
      OneWord(lib, words[0], Spaced(words[1..]));
    } else {
      OneWord(lib, words[0], "");
    }
  }

  lemma {:induction false} SpacedEnds(lib: TextLibrary, words: seq<string>)
    requires AreWords(lib, words)
    ensures var text := Spaced(words); text != "" && !lib.isSpace(text[0]) && !lib.isSpace(text[|text| - 1])
  {
    if |words| > 1 {
      SpacedEnds(lib, words[1..]);
    }
  }

  // Words joined by blanks are the fields of the expression.
  lemma SpacedFields(lib: TextLibrary, words: seq<string>)
    requires AreWords(lib, words)
    ensures Fields(lib, Spaced(words)) == words
  {
    SpacedWords(lib, words);
    SpacedEnds(lib, words);
    forall k | 0 <= k < |words| ensures Strip(lib, words[k]) == words[k] {
      StripsToItself(lib, words[k]);
    }
  }

  lemma FiveSpaced(words: seq<string>)
    requires |words| == 5
    ensures Spaced(words) == words[0] + " " + (words[1] + " " + (words[2] + " " + (words[3] + " " + words[4])))
  {
    assert words[3..][1..] == [words[4]] && words[2..][1..] == words[3..] && words[1..][1..] == words[2..];
    assert Spaced(words[3..]) == words[3] + " " + words[4];
    assert Spaced(words[2..]) == words[2] + " " + Spaced(words[3..]);
    assert Spaced(words[1..]) == words[1] + " " + Spaced(words[2..]);
  }

  lemma LeapDayFields(lib: TextLibrary, fields: seq<string>, expr: string)
    requires Accepted(lib, fields) && lib.isSpace(' ') && fields == LEAP_DAY && expr == LEAP_DAY_EXPR
    ensures Fields(lib, expr) == fields
  {
    FiveSpaced(fields);
    assert expr == fields[0] + " " + (fields[1] + " " + (fields[2] + " " + (fields[3] + " " + fields[4])));
    SpacedFields(lib, fields);
  }

  const FRIDAY_13 := ["0", "0", "13", "*", "4"]
  const IN_1999 := Stamp(Moment(Date(1999, 8, 14), 0, 0), 0)

  const BEFORE_MONTH: seq<int> := [0, 31, 59, 90, 120, 151, 181, 212, 243, 273, 304, 334]

  lemma MonthTable(month: int)
    requires 1 <= month <= 12
    ensures DaysBeforeMonth(1, month) == BEFORE_MONTH[month - 1]
  {
    assert DaysBeforeMonth(1, 1) == 0;
    assert DaysBeforeMonth(1, 3) == 59;
    assert DaysBeforeMonth(1, 5) == 120;
    assert DaysBeforeMonth(1, 7) == 181;
    assert DaysBeforeMonth(1, 9) == 243;
    assert DaysBeforeMonth(1, 11) == 304;
  }

  lemma OrdinalByTable(d: Date)
    requires ValidDate(d)
    ensures Ordinal(d) == DaysBeforeYear(d.year) + BEFORE_MONTH[d.month - 1]
                          + (if d.month > 2 && IsLeap(d.year) then 1 else 0) + d.day
  {
    MonthTable(d.month);
    LeapShift(d.year, d.month);
  }

  // The thirteenths of the year from the fourteenth of August 1999 on.
  lemma Thirteenths(d: Date)
    requires ValidDate(d) && d.day == 13
    requires Ordinal(IN_1999.at.date) <= Ordinal(d) <= Ordinal(IN_1999.at.date) + 366
    ensures (d.year == 1999 && d.month >= 9) || (d.year == 2000 && d.month <= 8)
  {
    OrdinalByTable(d);
    OrdinalByTable(IN_1999.at.date);
    OrdinalInYear(d);
    if d.year <= 1998 {
      YearsGrow(d.year + 1, 1999);
    } else if d.year >= 2001 {
      YearsGrow(2001, d.year);
    }
  }

  // None of them is a Friday.
  lemma NoFriday13(d: Date)
    requires ValidDate(d) && d.day == 13
    requires Ordinal(IN_1999.at.date) <= Ordinal(d) <= Ordinal(IN_1999.at.date) + 366
    ensures Weekday(d) != 4
  {
    Thirteenths(d);
    OrdinalByTable(d);
  }

  lemma AcceptsFriday13(lib: TextLibrary)
    requires Lawful(lib) && KnowsDigits(lib)
    ensures Accepted(lib, FRIDAY_13) && forall v :: Allows(lib, FRIDAY_13[2], 1, 31, v) <==> v == 13
    ensures forall v :: Allows(lib, FRIDAY_13[4], 0, 6, v) <==> v == 4
  {
    OneDigit(lib, '0', 0, 0, 59);
    OneDigit(lib, '0', 0, 0, 23);
    TwoDigits(lib, '1', '3', 1, 3, 1, 31);
    OneStar(lib, 1, 12);
    OneDigit(lib, '4', 4, 0, 6);
  }

  // So a Friday the thirteenth is not always found.
  lemma Friday13NotFound(lib: TextLibrary)
    requires Lawful(lib) && KnowsDigits(lib)
    ensures Accepted(lib, FRIDAY_13) && ValidStamp(IN_1999) && NextFireOf(lib, FRIDAY_13, IN_1999, WINDOW) == Value(None)
  {
    AcceptsFriday13(lib);
    NextFireIsLeast(lib, FRIDAY_13, IN_1999, WINDOW);
    var found := NextFireOf(lib, FRIDAY_13, IN_1999, WINDOW).value;
    if found.Some? {
      FiredDate(lib, FRIDAY_13, found.value);
      NoFriday13(found.value.date);
    }
  }
}
