/**
 * The proleptic Gregorian calendar as Python's `datetime` module computes it:
 * day ordinals (1 = 0001-01-01), weekdays (Monday = 0) and the ISO 8601 week
 * calendar (section 4.1.4 of ISO 8601:2004: weeks start on Monday and week 1
 * is the week holding the year's first Thursday).
 */
module Dates {

  import opened Common
  import opened Text

  datatype Date = Date(year: int, month: int, day: int)

  predicate IsLeap(y: int)
  {
    y % 4 == 0 && (y % 100 != 0 || y % 400 == 0)
  }

  function DaysInMonth(y: int, m: int): (n: int)
    requires 1 <= m <= 12
    ensures 28 <= n <= 31
  {
    if m == 2 then (if IsLeap(y) then 29 else 28)
    else if m == 4 || m == 6 || m == 9 || m == 11 then 30
    else 31
  }

  /** A date `datetime.date` accepts: year 1 to 9999 and a day of that month. */
  predicate ValidDate(d: Date)
  {
    1 <= d.year <= 9999 && 1 <= d.month <= 12 && 1 <= d.day <= DaysInMonth(d.year, d.month)
  }

  /**
   * Days before January 1st of year `y`, counted year by year; equal to
   * Python's closed form `_days_before_year` (see `DaysBeforeYearClosedForm`).
   */
  function DaysBeforeYear(y: int): int
    decreases if y >= 1 then y - 1 else 1 - y
  {
    if y == 1 then 0
    else if y > 1 then DaysBeforeYear(y - 1) + DaysInYear(y - 1)
    else DaysBeforeYear(y + 1) - DaysInYear(y)
  }

  /** Python's `_days_before_year`: `y*365 + y//4 - y//100 + y//400` for `y - 1`. */
  function DaysBeforeYearFormula(y: int): int
  {
    var p := y - 1;
    p * 365 + p / 4 - p / 100 + p / 400
  }

  /** Days in year `y` before the first of month `m` (Python's `_days_before_month`). */
  function DaysBeforeMonth(y: int, m: int): (n: int)
    requires 1 <= m <= 12
    ensures 0 <= n <= 335
  {
    var table := [0, 31, 59, 90, 120, 151, 181, 212, 243, 273, 304, 334];
    table[m - 1] + (if m > 2 && IsLeap(y) then 1 else 0)
  }

  function DaysInYear(y: int): int { if IsLeap(y) then 366 else 365 }

  /** Python's `date.toordinal()`. */
  function Ordinal(d: Date): int
    requires 1 <= d.month <= 12
  {
    DaysBeforeYear(d.year) + DaysBeforeMonth(d.year, d.month) + d.day
  }

  /** Python's `date.weekday()`: Monday is 0, Sunday is 6. */
  function Weekday(d: Date): (w: int)
    requires 1 <= d.month <= 12
    ensures 0 <= w < 7
  {
    (Ordinal(d) + 6) % 7
  }

  /** Python's `_isoweek1monday`: the ordinal of the Monday starting ISO week 1 of `y`. */
  function Week1Monday(y: int): int
  {
    MondayNearest(DaysBeforeYear(y) + 1)
  }

  /** The Monday of the week holding `firstday`, or of the next week when that is Friday to Sunday. */
  function MondayNearest(firstday: int): int
  {
    var firstweekday := (firstday + 6) % 7;
    var monday := firstday - firstweekday;
    if firstweekday > 3 then monday + 7 else monday
  }

  datatype IsoDate = IsoDate(year: int, week: int, weekday: int)

  /**
   * Python's `date.isocalendar()` as it computes it, branch for branch, for
   * the date with ordinal `today` in year `y`, given the week-1 Mondays of
   * years `y - 1`, `y` and `y + 1`.
   */
  function IsoSelect(y: int, today: int, wPrev: int, wCur: int, wNext: int): IsoDate
  {
    var week := (today - wCur) / 7;
    var day := (today - wCur) % 7;
    if week < 0 then
      IsoDate(y - 1, (today - wPrev) / 7 + 1, (today - wPrev) % 7 + 1)
    else if week >= 52 && today >= wNext then
      IsoDate(y + 1, 1, day + 1)
    else
      IsoDate(y, week + 1, day + 1)
  }

  /** `isocalendar` of the day with ordinal `today`, which falls in year `y`. */
  function IsoOfOrdinal(y: int, today: int): IsoDate
  {
    IsoSelect(y, today, Week1Monday(y - 1), Week1Monday(y), Week1Monday(y + 1))
  }

  /** Python's `date.isocalendar()`. */
  function IsoCalendar(d: Date): IsoDate
    requires ValidDate(d)
  {
    IsoOfOrdinal(d.year, Ordinal(d))
  }

  /** The (ISO year, ISO week) pair `group_by_week` uses as a bucket key. */
  function IsoWeekKey(d: Date): (int, int)
    requires ValidDate(d)
  {
    var iso := IsoCalendar(d);
    (iso.year, iso.week)
  }

  /** The ordinal of the Monday of the week holding `d`. */
  function MondayOf(d: Date): int
    requires 1 <= d.month <= 12
  {
    Ordinal(d) - Weekday(d)
  }

  // ----- calendar arithmetic ---------------------------------------------

  lemma YearLength(y: int)
    ensures DaysBeforeYear(y + 1) - DaysBeforeYear(y) == DaysInYear(y)
  {
  }

  /** The year-by-year count agrees with Python's closed form, for every year. */
  lemma {:induction false} DaysBeforeYearClosedForm(y: int)
    ensures DaysBeforeYear(y) == DaysBeforeYearFormula(y)
    decreases if y >= 1 then y - 1 else 1 - y
  {
    if y > 1 {
      DaysBeforeYearClosedForm(y - 1);
      FormulaStep(y - 1);
    } else if y < 1 {
      DaysBeforeYearClosedForm(y + 1);
      FormulaStep(y);
    }
  }

  lemma FormulaStep(y: int)
    ensures DaysBeforeYearFormula(y + 1) - DaysBeforeYearFormula(y) == DaysInYear(y)
  {
    var a := Crosses4(y);
    var b := Crosses100(y);
    var c := Crosses400(y);
    assert DaysBeforeYearFormula(y + 1) - DaysBeforeYearFormula(y) == 365 + a - b + c;
  }

  /** How many multiples of 4, 100 and 400 the step from `y - 1` to `y` passes. */
  lemma Crosses4(y: int) returns (n: int)
    ensures n == y / 4 - (y - 1) / 4 && n == if y % 4 == 0 then 1 else 0
  {
    n := y / 4 - (y - 1) / 4;
  }

  lemma Crosses100(y: int) returns (n: int)
    ensures n == y / 100 - (y - 1) / 100 && n == if y % 100 == 0 then 1 else 0
  {
    n := y / 100 - (y - 1) / 100;
  }

  lemma Crosses400(y: int) returns (n: int)
    ensures n == y / 400 - (y - 1) / 400 && n == if y % 400 == 0 then 1 else 0
  {
    n := y / 400 - (y - 1) / 400;
  }

  lemma MonthLength(y: int, m: int)
    requires 1 <= m <= 12
    ensures m < 12 ==> DaysBeforeMonth(y, m + 1) == DaysBeforeMonth(y, m) + DaysInMonth(y, m)
    ensures m == 12 ==> DaysBeforeMonth(y, m) + DaysInMonth(y, m) == DaysInYear(y)
  {
  }

  /** Ordinals of a year's days lie strictly between the ends of the neighbouring years. */
  lemma OrdinalInYear(d: Date)
    requires 1 <= d.month <= 12 && 1 <= d.day <= DaysInMonth(d.year, d.month)
    ensures DaysBeforeYear(d.year) + 1 <= Ordinal(d) <= DaysBeforeYear(d.year + 1)
  {
    YearLength(d.year);
    MonthLength(d.year, d.month);
    if d.month < 12 {
      MonthLength(d.year, d.month + 1);
      assert DaysBeforeMonth(d.year, d.month + 1) <= DaysBeforeMonth(d.year, 12);
      MonthLength(d.year, 12);
    }
  }

  /** The next day's ordinal is one more. */
  lemma OrdinalNext(d: Date)
    requires ValidDate(d)
    ensures d.day < DaysInMonth(d.year, d.month) ==> Ordinal(Date(d.year, d.month, d.day + 1)) == Ordinal(d) + 1
    ensures d.day == DaysInMonth(d.year, d.month) && d.month < 12 ==> Ordinal(Date(d.year, d.month + 1, 1)) == Ordinal(d) + 1
    ensures d.day == DaysInMonth(d.year, d.month) && d.month == 12 ==> Ordinal(Date(d.year + 1, 1, 1)) == Ordinal(d) + 1
  {
    MonthLength(d.year, d.month);
    YearLength(d.year);
  }

  lemma MondayNearestFacts(f: int)
    ensures (MondayNearest(f) + 6) % 7 == 0
    ensures f - 3 <= MondayNearest(f) <= f + 3
  {
  }

  /** Week 1 begins on a Monday within three days of January 1st. */
  lemma Week1MondayFacts(y: int)
    ensures (Week1Monday(y) + 6) % 7 == 0
    ensures DaysBeforeYear(y) + 1 - 3 <= Week1Monday(y) <= DaysBeforeYear(y) + 1 + 3
  {
    MondayNearestFacts(DaysBeforeYear(y) + 1);
  }

  /** Week 1 Mondays are the day after a multiple of seven. */
  lemma Week1MondayResidue(y: int) returns (k: int)
    ensures Week1Monday(y) == 7 * k + 1
  {
    Week1MondayFacts(y);
    k := (Week1Monday(y) + 6) / 7 - 1;
  }

  /** Consecutive ISO years are 52 or 53 weeks long. */
  lemma Week1MondayGap(y: int)
    ensures Week1Monday(y + 1) - Week1Monday(y) == 364 || Week1Monday(y + 1) - Week1Monday(y) == 371
  {
    Week1MondayFacts(y);
    Week1MondayFacts(y + 1);
    YearLength(y);
    var ka := Week1MondayResidue(y);
    var kb := Week1MondayResidue(y + 1);
    assert 359 <= 7 * (kb - ka) <= 372;
    assert kb - ka == 52 || kb - ka == 53;
  }

  lemma {:induction false} Week1MondayMonotone(y: int, z: int)
    requires y < z
    ensures Week1Monday(y) + 364 * (z - y) <= Week1Monday(z)
    decreases z - y
  {
    Week1MondayGap(z - 1);
    if y < z - 1 {
      Week1MondayMonotone(y, z - 1);
    }
  }

  /**
   * What `isocalendar` promises for the day with ordinal `today`: a week of
   * the ISO year whose week-1 Monday is at or before it and whose
   * successor's is after it, counted from that Monday, and the ISO weekday
   * (Monday 1 .. Sunday 7).
   */
  predicate IsoWeekAt(iso: IsoDate, today: int)
  {
    && 1 <= iso.week <= 53
    && 1 <= iso.weekday <= 7
    && iso.weekday == (today + 6) % 7 + 1
    && Week1Monday(iso.year) + 7 * (iso.week - 1) + (iso.weekday - 1) == today
    && Week1Monday(iso.year) <= today < Week1Monday(iso.year + 1)
  }

  /** Division by seven, given the quotient and remainder. */
  lemma DivSeven(x: int, q: int, r: int)
    requires x == 7 * q + r && 0 <= r < 7
    ensures x / 7 == q && x % 7 == r
  {
  }

  /** `IsoSelect` for a day in the last days before the year's Monday `b`: week of the previous year. */
  lemma IsoSelectBefore(y: int, today: int, a: int, b: int, c: int, ka: int)
    requires a == 7 * ka + 1 && 364 <= b - a <= 371 && b - 3 <= today < b
    ensures var r := IsoSelect(y, today, a, b, c);
      r.year == y - 1 && 1 <= r.week <= 53 && r.weekday == (today + 6) % 7 + 1 && 1 <= r.weekday <= 7 &&
      a + 7 * (r.week - 1) + (r.weekday - 1) == today && a <= today
  {
    var x := today - a;
    DivSeven(x, x / 7, x % 7);
    DivSeven(today + 6, x / 7 + ka + 1, x % 7);
    assert (today - b) / 7 < 0;
  }

  /** `IsoSelect` for a day from the year's Monday `b` up to the next year's Monday `c`. */
  lemma IsoSelectWithin(y: int, today: int, a: int, b: int, c: int, kb: int)
    requires b == 7 * kb + 1 && 364 <= c - b <= 371 && b <= today < c
    ensures var r := IsoSelect(y, today, a, b, c);
      r.year == y && 1 <= r.week <= 53 && r.weekday == (today + 6) % 7 + 1 && 1 <= r.weekday <= 7 &&
      b + 7 * (r.week - 1) + (r.weekday - 1) == today
  {
    var x := today - b;
    DivSeven(x, x / 7, x % 7);
    DivSeven(today + 6, x / 7 + kb + 1, x % 7);
  }

  /** `IsoSelect` for one of the first days from the next year's Monday `c`: week 1 of the next year. */
  lemma IsoSelectAfter(y: int, today: int, a: int, b: int, c: int, e: int, kb: int, kc: int)
    requires b == 7 * kb + 1 && c == 7 * kc + 1 && 364 <= c - b && e - c >= 364 && c <= today <= c + 2
    ensures var r := IsoSelect(y, today, a, b, c);
      r.year == y + 1 && 1 <= r.week <= 53 && r.weekday == (today + 6) % 7 + 1 && 1 <= r.weekday <= 7 &&
      c + 7 * (r.week - 1) + (r.weekday - 1) == today && today < e
  {
    var x := today - c;
    DivSeven(today - b, kc - kb, x);
    DivSeven(today + 6, kc + 1, x);
  }

  /** The arithmetic behind `isocalendar`, over the Mondays `a < b < c < e` of four consecutive ISO years. */
  lemma IsoSelectArith(y: int, today: int, a: int, b: int, c: int, e: int, ka: int, kb: int, kc: int, lo: int, hi: int)
    requires a == 7 * ka + 1 && b == 7 * kb + 1 && c == 7 * kc + 1
    requires 364 <= b - a <= 371 && 364 <= c - b <= 371 && e - c >= 364
    requires lo <= today <= hi && b - 3 <= lo <= b + 3 && c - 4 <= hi <= c + 2
    ensures var r := IsoSelect(y, today, a, b, c);
      1 <= r.week <= 53 && 1 <= r.weekday <= 7 && r.weekday == (today + 6) % 7 + 1
    ensures var r := IsoSelect(y, today, a, b, c);
      today < b ==> r.year == y - 1 && a + 7 * (r.week - 1) + (r.weekday - 1) == today && a <= today
    ensures var r := IsoSelect(y, today, a, b, c);
      b <= today < c ==> r.year == y && b + 7 * (r.week - 1) + (r.weekday - 1) == today
    ensures var r := IsoSelect(y, today, a, b, c);
      c <= today ==> r.year == y + 1 && c + 7 * (r.week - 1) + (r.weekday - 1) == today && today < e
  {
    if today < b {
      IsoSelectBefore(y, today, a, b, c, ka);
    } else if today >= c {
      IsoSelectAfter(y, today, a, b, c, e, kb, kc);
    } else {
      IsoSelectWithin(y, today, a, b, c, kb);
    }
  }

  /** The year-boundary facts `IsoSelectArith` needs, for year `y`. */
  lemma YearMondays(y: int) returns (ka: int, kb: int, kc: int)
    ensures Week1Monday(y - 1) == 7 * ka + 1 && Week1Monday(y) == 7 * kb + 1 && Week1Monday(y + 1) == 7 * kc + 1
    ensures 364 <= Week1Monday(y) - Week1Monday(y - 1) <= 371
    ensures 364 <= Week1Monday(y + 1) - Week1Monday(y) <= 371
    ensures Week1Monday(y + 2) - Week1Monday(y + 1) >= 364
    ensures Week1Monday(y) - 3 <= DaysBeforeYear(y) + 1 <= Week1Monday(y) + 3
    ensures Week1Monday(y + 1) - 4 <= DaysBeforeYear(y + 1) <= Week1Monday(y + 1) + 2
  {
    Week1MondayFacts(y);
    Week1MondayFacts(y + 1);
    Week1MondayGap(y - 1);
    Week1MondayGap(y);
    Week1MondayGap(y + 1);
    ka := Week1MondayResidue(y - 1);
    kb := Week1MondayResidue(y);
    kc := Week1MondayResidue(y + 1);
  }

  lemma IsoFields(y: int, today: int)
    requires DaysBeforeYear(y) + 1 <= today <= DaysBeforeYear(y + 1)
    ensures 1 <= IsoOfOrdinal(y, today).week <= 53 && 1 <= IsoOfOrdinal(y, today).weekday <= 7
    ensures IsoOfOrdinal(y, today).weekday == (today + 6) % 7 + 1
  {
    var a, b, c, e := Week1Monday(y - 1), Week1Monday(y), Week1Monday(y + 1), Week1Monday(y + 2);
    var ka, kb, kc := YearMondays(y);
    IsoSelectArith(y, today, a, b, c, e, ka, kb, kc, DaysBeforeYear(y) + 1, DaysBeforeYear(y + 1));
  }

  /** A day before its year's week-1 Monday belongs to the previous ISO year. */
  lemma IsoBeforeYear(y: int, today: int)
    requires DaysBeforeYear(y) + 1 <= today <= DaysBeforeYear(y + 1) && today < Week1Monday(y)
    ensures IsoOfOrdinal(y, today).year == y - 1
    ensures Week1Monday(y - 1) + 7 * (IsoOfOrdinal(y, today).week - 1) + (IsoOfOrdinal(y, today).weekday - 1) == today
    ensures Week1Monday(y - 1) <= today
  {
    var a, b, c, e := Week1Monday(y - 1), Week1Monday(y), Week1Monday(y + 1), Week1Monday(y + 2);
    var ka, kb, kc := YearMondays(y);
    IsoSelectArith(y, today, a, b, c, e, ka, kb, kc, DaysBeforeYear(y) + 1, DaysBeforeYear(y + 1));
  }

  lemma IsoInYear(y: int, today: int)
    requires DaysBeforeYear(y) + 1 <= today <= DaysBeforeYear(y + 1) && Week1Monday(y) <= today < Week1Monday(y + 1)
    ensures IsoOfOrdinal(y, today).year == y
    ensures Week1Monday(y) + 7 * (IsoOfOrdinal(y, today).week - 1) + (IsoOfOrdinal(y, today).weekday - 1) == today
  {
    var a, b, c, e := Week1Monday(y - 1), Week1Monday(y), Week1Monday(y + 1), Week1Monday(y + 2);
    var ka, kb, kc := YearMondays(y);
    IsoSelectArith(y, today, a, b, c, e, ka, kb, kc, DaysBeforeYear(y) + 1, DaysBeforeYear(y + 1));
  }

  /** A day on or after the next year's week-1 Monday belongs to the next ISO year. */
  lemma IsoAfterYear(y: int, today: int)
    requires DaysBeforeYear(y) + 1 <= today <= DaysBeforeYear(y + 1) && Week1Monday(y + 1) <= today
    ensures IsoOfOrdinal(y, today).year == y + 1
    ensures Week1Monday(y + 1) + 7 * (IsoOfOrdinal(y, today).week - 1) + (IsoOfOrdinal(y, today).weekday - 1) == today
    ensures today < Week1Monday(y + 2)
  {
    var a, b, c, e := Week1Monday(y - 1), Week1Monday(y), Week1Monday(y + 1), Week1Monday(y + 2);
    var ka, kb, kc := YearMondays(y);
    IsoSelectArith(y, today, a, b, c, e, ka, kb, kc, DaysBeforeYear(y) + 1, DaysBeforeYear(y + 1));
  }

  /** `isocalendar` of the day with ordinal `today` in year `y` is its ISO week. */
  lemma IsoCalendarAt(y: int, today: int)
    requires DaysBeforeYear(y) + 1 <= today <= DaysBeforeYear(y + 1)
    ensures IsoWeekAt(IsoOfOrdinal(y, today), today)
    ensures y - 1 <= IsoOfOrdinal(y, today).year <= y + 1
  {
    IsoFields(y, today);
    if today < Week1Monday(y) {
      IsoBeforeYear(y, today);
    } else if today < Week1Monday(y + 1) {
      IsoInYear(y, today);
    } else {
      IsoAfterYear(y, today);
    }
  }

  /** `date.isocalendar()` names the ISO 8601 week and weekday of the date. */
  lemma IsoCalendarSpec(d: Date)
    requires ValidDate(d)
    ensures IsoWeekAt(IsoCalendar(d), Ordinal(d))
  {
    OrdinalInYear(d);
    IsoCalendarAt(d.year, Ordinal(d));
  }

  /** An ISO (year, week) pair names one Monday. */
  lemma IsoKeyUnique(m: int, y1: int, w1: int, y2: int, w2: int)
    requires Week1Monday(y1) <= m < Week1Monday(y1 + 1) && m == Week1Monday(y1) + 7 * (w1 - 1)
    requires Week1Monday(y2) <= m < Week1Monday(y2 + 1) && m == Week1Monday(y2) + 7 * (w2 - 1)
    ensures y1 == y2 && w1 == w2
  {
    if y1 < y2 {
      Week1MondayMonotone(y1 + 1, y2);
    } else if y2 < y1 {
      Week1MondayMonotone(y2 + 1, y1);
    }
  }

  lemma IsoKeyIffMondayAt(y1: int, t1: int, y2: int, t2: int)
    requires DaysBeforeYear(y1) + 1 <= t1 <= DaysBeforeYear(y1 + 1)
    requires DaysBeforeYear(y2) + 1 <= t2 <= DaysBeforeYear(y2 + 1)
    ensures (IsoOfOrdinal(y1, t1).year, IsoOfOrdinal(y1, t1).week) == (IsoOfOrdinal(y2, t2).year, IsoOfOrdinal(y2, t2).week) <==> t1 - (t1 + 6) % 7 == t2 - (t2 + 6) % 7
  {
    var k1, m1 := MondayKey(y1, t1);
    var k2, m2 := MondayKey(y2, t2);
    KeyIffMonday(m1, k1, m2, k2);
  }

  /** `m` is the Monday of ISO week `key.1` of ISO year `key.0`. */
  predicate MondayOfKey(m: int, key: (int, int))
  {
    Week1Monday(key.0) <= m < Week1Monday(key.0 + 1) && m == Week1Monday(key.0) + 7 * (key.1 - 1)
  }

  /** The ISO key of the day with ordinal `today`, and its Monday. */
  lemma MondayKey(y: int, today: int) returns (key: (int, int), m: int)
    requires DaysBeforeYear(y) + 1 <= today <= DaysBeforeYear(y + 1)
    ensures key == (IsoOfOrdinal(y, today).year, IsoOfOrdinal(y, today).week) && m == today - (today + 6) % 7
    ensures MondayOfKey(m, key)
  {
    IsoCalendarAt(y, today);
    var r := IsoOfOrdinal(y, today);
    MondayOfWeek(r, today);
    key, m := (r.year, r.week), today - (today + 6) % 7;
  }

  /** The Monday of a day's ISO week is the Monday of its key. */
  lemma MondayOfWeek(iso: IsoDate, today: int)
    requires IsoWeekAt(iso, today)
    ensures MondayOfKey(today - (today + 6) % 7, (iso.year, iso.week))
  {
  }

  /** Equal keys exactly when the Mondays are equal. */
  lemma KeyIffMonday(m1: int, k1: (int, int), m2: int, k2: (int, int))
    requires MondayOfKey(m1, k1) && MondayOfKey(m2, k2)
    ensures k1 == k2 <==> m1 == m2
  {
    if m1 == m2 {
      IsoKeyUnique(m1, k1.0, k1.1, k2.0, k2.1);
    }
  }

  /** Two dates share an ISO (year, week) key exactly when they share a Monday. */
  lemma IsoWeekKeyIffSameMonday(a: Date, b: Date)
    requires ValidDate(a) && ValidDate(b)
    ensures IsoWeekKey(a) == IsoWeekKey(b) <==> MondayOf(a) == MondayOf(b)
  {
    OrdinalInYear(a);
    OrdinalInYear(b);
    IsoKeyIffMondayAt(a.year, Ordinal(a), b.year, Ordinal(b));
  }
  // ----- formatting and parsing ----------------------------------------

  /** `strftime("%Y-%m-%d")`: the year padded to four digits, month and day to two. */
  function FormatDate(d: Date): string
    requires ValidDate(d)
  {
    PadInt(d.year, 4) + "-" + PadInt(d.month, 2) + "-" + PadInt(d.day, 2)
  }

  /** `%m` in `strptime`: 1 to 9, 01 to 09, or 10 to 12. */
  predicate MonthToken(t: string)
  {
    (|t| == 1 && '1' <= t[0] <= '9') || (|t| == 2 && AllDigits(t) && 1 <= DigitsValue(t) <= 12)
  }

  /** `%d` in `strptime`: 1 to 9, 01 to 31, or a space and 1 to 9. */
  predicate DayToken(t: string)
  {
    || (|t| == 1 && '1' <= t[0] <= '9')
    || (|t| == 2 && AllDigits(t) && 1 <= DigitsValue(t) <= 31)
    || (|t| == 2 && t[0] == ' ' && '1' <= t[1] <= '9')
  }

  /** `%H` in `strptime`: one digit, or 00 to 23. */
  predicate HourToken(t: string)
  {
    (|t| == 1 && IsDigit(t[0])) || (|t| == 2 && AllDigits(t) && DigitsValue(t) <= 23)
  }

  /** `%M` in `strptime`: one digit, or 00 to 59. */
  predicate MinuteToken(t: string)
  {
    (|t| == 1 && IsDigit(t[0])) || (|t| == 2 && AllDigits(t) && DigitsValue(t) <= 59)
  }

  /** `%S` in `strptime`: one digit, or 00 to 61 (leap seconds, which `datetime` then refuses). */
  predicate SecondToken(t: string)
  {
    (|t| == 1 && IsDigit(t[0])) || (|t| == 2 && AllDigits(t) && DigitsValue(t) <= 61)
  }

  /** The number a token spells; a day such as " 5" reads past its space. */
  function TokenValue(t: string): (v: nat)
    requires AllDigits(t) || (|t| == 2 && t[0] == ' ' && IsDigit(t[1]))
    ensures |t| == 1 ==> v <= 9
  {
    if |t| == 1 then DigitValue(t[0])
    else if AllDigits(t) then DigitsValue(t)
    else DigitValue(t[1])
  }

  /** `%y`: two-digit years up to 68 are 2000s, the rest 1900s. */
  function ShortYear(v: nat): int
  {
    if v <= 68 then 2000 + v else 1900 + v
  }

  /** The three date layouts the importers try: "%Y-%m-%d", "%m/%d/%Y" and "%m/%d/%y". */
  datatype DateFormat = YearMonthDay | MonthDayYear | MonthDayShortYear

  /**
   * `datetime.strptime(s, f).date()`: the whole string must be the three
   * fields and two separators, and the date must exist.
   */
  function ParseDateWith(s: string, f: DateFormat): (r: Option<Date>)
    ensures r.Some? ==> ValidDate(r.value)
  {
    var parts := SplitOn(s, if f.YearMonthDay? then '-' else '/');
    if |parts| != 3 then None
    else
      var yt := if f.YearMonthDay? then parts[0] else parts[2];
      var mt := if f.YearMonthDay? then parts[1] else parts[0];
      var dt := if f.YearMonthDay? then parts[2] else parts[1];
      var yearOk := AllDigits(yt) && |yt| == (if f.MonthDayShortYear? then 2 else 4);
      if !(yearOk && MonthToken(mt) && DayToken(dt)) then None
      else
        var year := if f.MonthDayShortYear? then ShortYear(DigitsValue(yt)) else DigitsValue(yt);
        var d := Date(year, TokenValue(mt), TokenValue(dt));
        if ValidDate(d) then Some(d) else None
  }

  /** The first of `formats` that parses `s`, as the importers' `for fmt in _DATE_FORMATS` loops pick it. */
  function ParseDateFirst(s: string, formats: seq<DateFormat>): (r: Option<Date>)
    ensures r.Some? ==> exists i :: 0 <= i < |formats| && ParseDateWith(s, formats[i]) == r
    ensures r.None? ==> forall i :: 0 <= i < |formats| ==> ParseDateWith(s, formats[i]).None?
  {
    if formats == [] then None
    else
      var first := ParseDateWith(s, formats[0]);
      if first.Some? then first else ParseDateFirst(s, formats[1..])
  }

  /** "%Y-%m-%d", "%m/%d/%Y", "%m/%d/%y", in the importers' order. */
  const ImportDateFormats: seq<DateFormat> := [YearMonthDay, MonthDayYear, MonthDayShortYear]

  /** A time of day, as `datetime.time` holds it. */
  datatype Time = Time(hour: int, minute: int, second: int)

  /** "%H:%M:%S" and "%H:%M". */
  datatype TimeFormat = HourMinuteSecond | HourMinute

  /** `datetime.strptime(s, f).time()`: a 61st or 62nd second is refused by `datetime`. */
  function ParseTimeWith(s: string, f: TimeFormat): (r: Option<Time>)
    ensures r.Some? ==> 0 <= r.value.hour <= 23 && 0 <= r.value.minute <= 59 && 0 <= r.value.second <= 59
  {
    var parts := SplitOn(s, ':');
    if f.HourMinuteSecond? then
      if |parts| == 3 && HourToken(parts[0]) && MinuteToken(parts[1]) && SecondToken(parts[2])
        && TokenValue(parts[2]) <= 59
      then Some(Time(TokenValue(parts[0]), TokenValue(parts[1]), TokenValue(parts[2])))
      else None
    else
      if |parts| == 2 && HourToken(parts[0]) && MinuteToken(parts[1])
      then Some(Time(TokenValue(parts[0]), TokenValue(parts[1]), 0))
      else None
  }

  // ----- properties of formatting and parsing ------------------------------

  lemma FormatDateFields(d: Date)
    requires ValidDate(d)
    ensures var y, m, dd := PadInt(d.year, 4), PadInt(d.month, 2), PadInt(d.day, 2);
      && |y| == 4 && AllDigits(y) && DigitsValue(y) == d.year
      && |m| == 2 && AllDigits(m) && DigitsValue(m) == d.month
      && |dd| == 2 && AllDigits(dd) && DigitsValue(dd) == d.day
  {
    NatToStringLength(d.year, 4);
    NatToStringLength(d.month, 2);
    NatToStringLength(d.day, 2);
    PadIntDigits(d.year, 4);
    PadIntDigits(d.month, 2);
    PadIntDigits(d.day, 2);
  }

  /** Four digits, a dash, and a field ending in two digits: nothing to strip. */
  lemma DashedStripped(y: string, m: string, dd: string, s: string)
    requires s == y + "-" + m + "-" + dd
    requires |y| == 4 && AllDigits(y) && |dd| == 2 && AllDigits(dd)
    ensures Strip(s) == s
  {
    assert s[0] == y[0];
    assert s[|s| - 1] == dd[1];
    StripNoop(s);
  }

  /** A printed date has no surrounding whitespace. */
  lemma FormatDateStripped(d: Date)
    requires ValidDate(d)
    ensures Strip(FormatDate(d)) == FormatDate(d)
  {
    FormatDateFields(d);
    DashedStripped(PadInt(d.year, 4), PadInt(d.month, 2), PadInt(d.day, 2), FormatDate(d));
  }

  lemma AllDigitsNoChar(s: string, c: char)
    requires AllDigits(s) && !IsDigit(c)
    ensures c !in s
  {
  }

  /** Three digit fields of widths 4, 2 and 2 joined by "-" split back into themselves. */
  lemma SplitDashed(y: string, m: string, dd: string)
    requires AllDigits(y) && AllDigits(m) && AllDigits(dd)
    ensures SplitOn(y + "-" + m + "-" + dd, '-') == [y, m, dd]
  {
    AllDigitsNoChar(y, '-');
    AllDigitsNoChar(m, '-');
    AllDigitsNoChar(dd, '-');
    assert y + "-" + m + "-" + dd == y + ['-'] + (m + ['-'] + dd);
    SplitOnFirst(y, '-', m + ['-'] + dd);
    SplitOnFirst(m, '-', dd);
    assert SplitOn(dd, '-') == [dd];
  }

  lemma ParseDashedFields(y: string, m: string, dd: string, d: Date)
    requires ValidDate(d)
    requires |y| == 4 && AllDigits(y) && DigitsValue(y) == d.year
    requires |m| == 2 && AllDigits(m) && DigitsValue(m) == d.month
    requires |dd| == 2 && AllDigits(dd) && DigitsValue(dd) == d.day
    ensures ParseDateWith(y + "-" + m + "-" + dd, YearMonthDay) == Some(d)
  {
    SplitDashed(y, m, dd);
  }

  /** `strptime(strftime(d, "%Y-%m-%d"), "%Y-%m-%d")` gives `d` back. */
  lemma ParseFormatDate(d: Date)
    requires ValidDate(d)
    ensures ParseDateWith(FormatDate(d), YearMonthDay) == Some(d)
  {
    FormatDateFields(d);
    ParseDashedFields(PadInt(d.year, 4), PadInt(d.month, 2), PadInt(d.day, 2), d);
  }

  /** Distinct dates print differently. */
  lemma FormatDateInjective(a: Date, b: Date)
    requires ValidDate(a) && ValidDate(b) && FormatDate(a) == FormatDate(b)
    ensures a == b
  {
    ParseFormatDate(a);
    ParseFormatDate(b);
  }

  predicate DateBefore(a: Date, b: Date)
  {
    a.year < b.year || (a.year == b.year && (a.month < b.month || (a.month == b.month && a.day < b.day)))
  }

  predicate DateLe(a: Date, b: Date) { !DateBefore(b, a) }

  /** A timestamp: a `datetime.datetime` down to the second. */
  datatype DateTime = DateTime(date: Date, time: Time)

  /** A date that `datetime.date` can hold. */
  type CalendarDate = d: Date | ValidDate(d) witness Date(2000, 1, 1)

  /**
   * A cell that may hold a date: nothing (`None`), text, a `datetime.date`
   * or a `datetime.datetime`.
   */
  datatype Stamp = NoStamp | TextStamp(text: string) | DateStamp(date: CalendarDate) | DateTimeStamp(day: CalendarDate, time: Time)

  predicate TimeLe(a: Time, b: Time)
  {
    a.hour < b.hour || (a.hour == b.hour && (a.minute < b.minute || (a.minute == b.minute && a.second <= b.second)))
  }

  /** Timestamps compare by date, then by time of day. */
  predicate DateTimeLe(a: DateTime, b: DateTime)
  {
    DateBefore(a.date, b.date) || (a.date == b.date && TimeLe(a.time, b.time))
  }

  /** Gluing equal-length prefixes to one suffix keeps them apart. */
  lemma AppendCancel(a: string, b: string, c: string)
    requires |a| == |b|
    ensures a + c == b + c <==> a == b
  {
    if a + c == b + c {
      assert (a + c)[..|a|] == a && (b + c)[..|b|] == b;
    }
  }

  /** A field, a "-", and the rest: the field is compared first. */
  lemma DashOrder(p: string, q: string, c: string, d: string, x: string, y: string)
    requires |p| == |q| && x == p + "-" + c && y == q + "-" + d
    ensures LexLess(x, y) <==> LexLess(p, q) || (p == q && LexLess(c, d))
    ensures x == y <==> p == q && c == d
  {
    LexLessAppend(p + "-", q + "-", c, d);
    LexLessAppend(p, q, "-", "-");
    LexLessIrreflexive("-");
    AppendCancel(p, q, "-");
    if x == y {
      assert x[..|p|] == p && y[..|q|] == q;
      assert x[|p| + 1..] == c && y[|q| + 1..] == d;
    }
  }

  /** Three dashed fields of matching widths compare field by field. */
  lemma DashedLex(ya: string, ma: string, da: string, yb: string, mb: string, db: string, qa: string, qb: string, x: string, y: string)
    requires |ya| == |yb| && |ma| == |mb| && |da| == |db|
    requires qa == ya + "-" + ma && qb == yb + "-" + mb && x == qa + "-" + da && y == qb + "-" + db
    ensures LexLess(x, y) <==> LexLess(ya, yb) || (ya == yb && (LexLess(ma, mb) || (ma == mb && LexLess(da, db))))
  {
    DashOrder(qa, qb, da, db, x, y);
    DashOrder(ya, yb, ma, mb, qa, qb);
  }

  /** Dashed fields of matching widths, each ordered as its number `v` or `w`, compare field by field. */
  lemma DashedOrder(ya: string, ma: string, da: string, yb: string, mb: string, db: string, x: string, y: string,
                    vy: int, vm: int, vd: int, wy: int, wm: int, wd: int)
    requires |ya| == |yb| && |ma| == |mb| && |da| == |db|
    requires (LexLess(ya, yb) <==> vy < wy) && (LexLess(ma, mb) <==> vm < wm) && (LexLess(da, db) <==> vd < wd)
    requires x == ya + "-" + ma + "-" + da && y == yb + "-" + mb + "-" + db
    ensures LexLess(x, y) <==> vy < wy || (ya == yb && (vm < wm || (ma == mb && vd < wd)))
  {
    DashedLex(ya, ma, da, yb, mb, db, ya + "-" + ma, yb + "-" + mb, x, y);
  }

  lemma DigitsValueInjective(a: string, b: string)
    requires AllDigits(a) && AllDigits(b) && |a| == |b| && DigitsValue(a) == DigitsValue(b)
    ensures a == b
  {
    DigitsLexLess(a, b);
    DigitsLexLess(b, a);
    LexTotal(a, b);
  }

  /** Printed dates sort as the dates themselves do, which is what makes text range queries on them work. */
  lemma FormatDateOrder(a: Date, b: Date)
    requires ValidDate(a) && ValidDate(b)
    ensures LexLess(FormatDate(a), FormatDate(b)) <==> DateBefore(a, b)
  {
    FormatDateFields(a);
    FormatDateFields(b);
    var ya, ma, da := PadInt(a.year, 4), PadInt(a.month, 2), PadInt(a.day, 2);
    var yb, mb, db := PadInt(b.year, 4), PadInt(b.month, 2), PadInt(b.day, 2);
    DigitsLexLess(ya, yb);
    DigitsLexLess(ma, mb);
    DigitsLexLess(da, db);
    DashedOrder(ya, ma, da, yb, mb, db, FormatDate(a), FormatDate(b), a.year, a.month, a.day, b.year, b.month, b.day);
    if a.year == b.year {
      DigitsValueInjective(ya, yb);
    }
    if a.month == b.month {
      DigitsValueInjective(ma, mb);
    }
  }
}
