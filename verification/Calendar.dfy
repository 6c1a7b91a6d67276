// The proleptic Gregorian calendar, minute by minute, as Python's datetime counts it.
module Calendar {
  datatype Date = Date(year: int, month: int, day: int)

  datatype Moment = Moment(date: Date, hour: int, minute: int)

  predicate IsLeap(year: int) {
    year % 4 == 0 && (year % 100 != 0 || year % 400 == 0)
  }

  function DaysIn(year: int, month: int): (days: int)
    ensures 28 <= days <= 31
  {
    if month == 2 then (if IsLeap(year) then 29 else 28)
    else if month == 4 || month == 6 || month == 9 || month == 11 then 30
    else 31
  }

  predicate ValidDate(d: Date) {
    d.year >= 1 && 1 <= d.month <= 12 && 1 <= d.day <= DaysIn(d.year, d.month)
  }

  predicate Valid(t: Moment) {
    ValidDate(t.date) && 0 <= t.hour < 24 && 0 <= t.minute < 60
  }

  // ---------- counting ----------

  function DaysBeforeYear(year: int): int {
    var y := year - 1;
    y * 365 + y / 4 - y / 100 + y / 400
  }

  function DaysBeforeMonth(year: int, month: int): int
    requires 1 <= month <= 13
  {
    if month == 1 then 0 else DaysBeforeMonth(year, month - 1) + DaysIn(year, month - 1)
  }

  // 1 is the first of January of year 1.
  function Ordinal(d: Date): int
    requires ValidDate(d)
  {
    DaysBeforeYear(d.year) + DaysBeforeMonth(d.year, d.month) + d.day
  }

  // Monday is 0.
  function Weekday(d: Date): int
    requires ValidDate(d)
  {
    (Ordinal(d) + 6) % 7
  }

  function Minutes(t: Moment): int
    requires Valid(t)
  {
    (Ordinal(t.date) * 24 + t.hour) * 60 + t.minute
  }

  // ---------- stepping ----------

  function NextDay(d: Date): Date {
    if d.day < DaysIn(d.year, d.month) then d.(day := d.day + 1)
    else if d.month < 12 then Date(d.year, d.month + 1, 1)
    else Date(d.year + 1, 1, 1)
  }

  // One minute later.
  function Tick(t: Moment): Moment {
    if t.minute < 59 then t.(minute := t.minute + 1)
    else if t.hour < 23 then Moment(t.date, t.hour + 1, 0)
    else Moment(NextDay(t.date), 0, 0)
  }

  function YearLength(year: int): int {
    if IsLeap(year) then 366 else 365
  }

  lemma MonthsFillYear(year: int)
    ensures DaysBeforeMonth(year, 13) == YearLength(year)
  {
    var leap := if IsLeap(year) then 1 else 0;
    assert DaysBeforeMonth(year, 1) == 0;
    assert DaysBeforeMonth(year, 3) == DaysBeforeMonth(year, 2) + 28 + leap;
    assert DaysBeforeMonth(year, 5) == DaysBeforeMonth(year, 4) + 30 == 120 + leap;
    assert DaysBeforeMonth(year, 7) == DaysBeforeMonth(year, 6) + 30;
    assert DaysBeforeMonth(year, 9) == DaysBeforeMonth(year, 8) + 31;
    assert DaysBeforeMonth(year, 11) == DaysBeforeMonth(year, 10) + 31;
    assert DaysBeforeMonth(year, 13) == DaysBeforeMonth(year, 12) + 31;
  }

  lemma YearFollows(year: int)
    requires year >= 1
    ensures DaysBeforeYear(year + 1) == DaysBeforeYear(year) + YearLength(year)
  {
    var y := year - 1;
    assert (y + 1) / 4 == y / 4 + if (y + 1) % 4 == 0 then 1 else 0;
    assert (y + 1) / 100 == y / 100 + if (y + 1) % 100 == 0 then 1 else 0;
    assert (y + 1) / 400 == y / 400 + if (y + 1) % 400 == 0 then 1 else 0;
  }

  lemma NextDayOrdinal(d: Date)
    requires ValidDate(d)
    ensures ValidDate(NextDay(d)) && Ordinal(NextDay(d)) == Ordinal(d) + 1
  {
    YearFollows(d.year);
    MonthsFillYear(d.year);
  }

  // The stepping calendar and the counted one agree.
  lemma TickCounts(t: Moment)
    requires Valid(t)
    ensures Valid(Tick(t)) && Minutes(Tick(t)) == Minutes(t) + 1
  {
    NextDayOrdinal(t.date);
  }

  // ---------- order ----------

  lemma {:induction false} MonthFits(year: int, month: int, later: int)
    requires 1 <= month < later <= 13
    ensures DaysBeforeMonth(year, month) + DaysIn(year, month) <= DaysBeforeMonth(year, later)
    decreases later
  {
    if month + 1 < later {
      MonthFits(year, month, later - 1);
    }
  }

  lemma OrdinalInYear(d: Date)
    requires ValidDate(d)
    ensures DaysBeforeYear(d.year) < Ordinal(d) <= DaysBeforeYear(d.year + 1)
  {
    MonthFits(d.year, d.month, 13);
    if d.month > 1 {
      MonthFits(d.year, 1, d.month);
    }
    MonthsFillYear(d.year);
    YearFollows(d.year);
  }

  lemma {:induction false} YearsGrow(year: int, later: int)
    requires 1 <= year <= later
    ensures DaysBeforeYear(year) + 365 * (later - year) <= DaysBeforeYear(later)
    decreases later
  {
    if year < later {
      YearsGrow(year, later - 1);
      YearFollows(later - 1);
    }
  }

  lemma OrdinalInjective(d: Date, e: Date)
    requires ValidDate(d) && ValidDate(e) && Ordinal(d) == Ordinal(e)
    ensures d == e
  {
    OrdinalInYear(d);
    OrdinalInYear(e);
    if d.year < e.year {
      YearsGrow(d.year + 1, e.year);
    } else if e.year < d.year {
      YearsGrow(e.year + 1, d.year);
    } else if d.month < e.month {
      MonthFits(d.year, d.month, e.month);
    } else if e.month < d.month {
      MonthFits(d.year, e.month, d.month);
    }
  }

  // No two moments count the same number of minutes.
  lemma MinutesInjective(t: Moment, u: Moment)
    requires Valid(t) && Valid(u) && Minutes(t) == Minutes(u)
    ensures t == u
  {
    assert Minutes(t) / 60 == Ordinal(t.date) * 24 + t.hour;
    assert Minutes(u) / 60 == Ordinal(u.date) * 24 + u.hour;
    assert Ordinal(t.date) == Ordinal(u.date);
    OrdinalInjective(t.date, u.date);
  }

  // The moment some minutes later.
  function Plus(t: Moment, n: nat): Moment {
    if n == 0 then t else Tick(Plus(t, n - 1))
  }

  lemma {:induction false} PlusCounts(t: Moment, n: nat)
    requires Valid(t)
    ensures Valid(Plus(t, n)) && Minutes(Plus(t, n)) == Minutes(t) + n
  {
    if n > 0 {
      PlusCounts(t, n - 1);
      TickCounts(Plus(t, n - 1));
    }
  }

  // Every later moment is reached by ticking.
  lemma PlusReaches(t: Moment, u: Moment)
    requires Valid(t) && Valid(u) && Minutes(t) <= Minutes(u)
    ensures u == Plus(t, Minutes(u) - Minutes(t))
  {
    var n := Minutes(u) - Minutes(t);
    PlusCounts(t, n);
    MinutesInjective(u, Plus(t, n));
  }
}
