/**
 * The calendar pages of `app/api/routes_calendar.py`: which month the home
 * page opens, the month grid with its per-week and per-month totals, and
 * the manual overwrite of one day's figures. The `daily_summary` and `meta`
 * tables are those of `Store.Database`; the clock is a parameter.
 */
module RoutesCalendar {

  import opened Common
  import opened Text
  import opened Dates
  import opened Utils
  import opened Store
  import opened Sums

  /** The `meta` key under which the last viewed month is remembered. */
  const LastViewedKey := "last_viewed_month"

  // ----- home -----------------------------------------------------------

  datatype HomeError =
    | ViewNotADict         // `cfg["view"]` has no `.get`
    | MalformedLastViewed  // `map(int, value.split("-"))` does not give two integers

  /** `cfg.get("view", {}).get("default", "latest")`. */
  function DefaultView(cfg: map<string, Value>): (r: Result<Value, HomeError>)
    ensures "view" !in cfg ==> r == Ok(StrValue("latest"))
    ensures r.Err? <==> "view" in cfg && !cfg["view"].DictValue?
  {
    if "view" !in cfg then Ok(StrValue("latest"))
    else if !cfg["view"].DictValue? then Err(ViewNotADict)
    else
      var view := cfg["view"].entries;
      Ok(if "default" in view then view["default"] else StrValue("latest"))
  }

  /** `f"{year}-{month}"`, the text `calendar_view` remembers. */
  function MonthText(year: int, month: int): string
  {
    IntToString(year) + "-" + IntToString(month)
  }

  /** `y, m = map(int, text.split("-"))`. */
  function ParseYearMonth(text: string): Option<(int, int)>
  {
    var parts := SplitOn(text, '-');
    if |parts| != 2 then None
    else
      var y, m := ParseInt(parts[0]), ParseInt(parts[1]);
      if y.None? || m.None? then None else Some((y.value, m.value))
  }

  /** The page a redirect to a month points at. */
  function CalendarUrl(year: int, month: int): string
  {
    "/calendar/" + IntToString(year) + "/" + IntToString(month)
  }

  /** The remembered month, `None` when the row is missing. */
  function LastViewed(meta: map<string, string>): Option<string>
  {
    if LastViewedKey in meta then Some(meta[LastViewedKey]) else None
  }

  /**
   * `home`: the URL of the 302 redirect. The current month is shown when
   * the default view is "latest" or nothing (or an empty text) is
   * remembered; otherwise the remembered "Y-M".
   */
  function Home(cfg: map<string, Value>, meta: map<string, string>, today: Date): (r: Result<string, HomeError>)
    ensures DefaultView(cfg) == Ok(StrValue("latest")) ==> r == Ok(CalendarUrl(today.year, today.month))
    ensures DefaultView(cfg).Ok? && (LastViewed(meta).None? || LastViewed(meta) == Some("")) ==>
      r == Ok(CalendarUrl(today.year, today.month))
    ensures r.Err? && DefaultView(cfg).Ok? ==>
      r == Err(MalformedLastViewed) && LastViewed(meta).Some? && ParseYearMonth(LastViewed(meta).value).None?
    ensures DefaultView(cfg).Ok? && DefaultView(cfg) != Ok(StrValue("latest")) && LastViewed(meta).Some? && LastViewed(meta).value != "" ==>
      r == match ParseYearMonth(LastViewed(meta).value)
        case None => Err(MalformedLastViewed)
        case Some(ym) => Ok(CalendarUrl(ym.0, ym.1))
    ensures DefaultView(cfg).Err? ==> r == Err(ViewNotADict)
  {
    var view := DefaultView(cfg);
    if view.Err? then Err(view.error)
    else
      var last := LastViewed(meta);
      if view.value == StrValue("latest") || last.None? || last.value == "" then
        Ok(CalendarUrl(today.year, today.month))
      else
        var ym := ParseYearMonth(last.value);
        if ym.None? then Err(MalformedLastViewed) else Ok(CalendarUrl(ym.value.0, ym.value.1))
  }

  /** The remembered text of a month with a non-negative year and month reads back as that month. */
  lemma MonthTextRoundTrip(year: int, month: int)
    requires year >= 0 && month >= 0
    ensures ParseYearMonth(MonthText(year, month)) == Some((year, month))
  {
    var y, m := NatToString(year), NatToString(month);
    AllDigitsNoChar(y, '-');
    AllDigitsNoChar(m, '-');
    SplitOnFirst(y, '-', m);
    assert MonthText(year, month) == y + ['-'] + m;
    ParseIntOfNat(year);
    ParseIntOfNat(month);
  }

  /** A negative month is remembered as text that does not read back. */
  lemma NegativeMonthUnreadable(year: nat, month: int)
    requires month < 0
    ensures ParseYearMonth(MonthText(year, month)).None?
  {
    var y, m := NatToString(year), NatToString(-month);
    AllDigitsNoChar(y, '-');
    AllDigitsNoChar(m, '-');
    assert MonthText(year, month) == y + ['-'] + ("-" + m);
    SplitOnFirst(y, '-', "-" + m);
    assert "-" + m == [] + ['-'] + m;
    SplitOnFirst([], '-', m);
  }

  // ----- the month grid -------------------------------------------------

  function PrevMonth(year: int, month: int): (int, int)
  {
    if month == 1 then (year - 1, 12) else (year, month - 1)
  }

  function NextMonth(year: int, month: int): (int, int)
  {
    if month == 12 then (year + 1, 1) else (year, month + 1)
  }

  /** Days shown before the 1st: the 1st's weekday, Monday being 0 (`Calendar(firstweekday=0)`). */
  function Lead(year: int, month: int): (k: nat)
    requires 1 <= month <= 12
    ensures k < 7
  {
    Weekday(Date(year, month, 1))
  }

  /** Days shown after the last day, up to the end of its week. */
  function Trail(year: int, month: int): (k: nat)
    requires 1 <= month <= 12
    ensures k < 7 && (Lead(year, month) + DaysInMonth(year, month) + k) % 7 == 0
  {
    var used := Lead(year, month) + DaysInMonth(year, month);
    var r := used % 7;
    FillWeek(used, used / 7, r);
    if r == 0 then 0 else 7 - r
  }

  lemma FillWeek(used: int, q: int, r: int)
    requires q == used / 7 && r == used % 7
    ensures (used + (if r == 0 then 0 else 7 - r)) % 7 == 0
  {
    assert used == 7 * q + r;
    if r != 0 {
      assert used + 7 - r == 7 * (q + 1);
    }
  }

  /** The last `Lead` days of the previous month. */
  function Leading(year: int, month: int): (s: seq<Date>)
    requires 1 <= month <= 12
    ensures |s| == Lead(year, month)
  {
    var (py, pm) := PrevMonth(year, month);
    var start := DaysInMonth(py, pm) - Lead(year, month) + 1;
    seq(Lead(year, month), i => Date(py, pm, start + i))
  }

  /** The days 1 to `k` of the month. */
  function MonthDays(year: int, month: int, k: nat): (s: seq<Date>)
    ensures |s| == k && forall i :: 0 <= i < k ==> s[i] == Date(year, month, i + 1)
  {
    if k == 0 then [] else MonthDays(year, month, k - 1) + [Date(year, month, k)]
  }

  /** The first `Trail` days of the next month. */
  function Trailing(year: int, month: int): (s: seq<Date>)
    requires 1 <= month <= 12
    ensures |s| == Trail(year, month)
  {
    var (ny, nm) := NextMonth(year, month);
    seq(Trail(year, month), i => Date(ny, nm, i + 1))
  }

  /** `cal.monthdatescalendar(year, month)` flattened: whole Monday-to-Sunday weeks covering the month. */
  function MonthGrid(year: int, month: int): (s: seq<Date>)
    requires 1 <= month <= 12
    ensures |s| % 7 == 0
  {
    Leading(year, month) + MonthDays(year, month, DaysInMonth(year, month)) + Trailing(year, month)
  }

  /** Every date of the grid is one `datetime.date` accepts; otherwise building the grid raises. */
  predicate GridOk(year: int, month: int)
    requires 1 <= month <= 12
  {
    forall i :: 0 <= i < |MonthGrid(year, month)| ==> ValidDate(MonthGrid(year, month)[i])
  }

  // ----- cells, weeks and the month --------------------------------------

  datatype Measure = RealizedPnl | UnrealizedPnl

  function AmountOf(s: DailySummary, which: Measure): real
  {
    match which
    case RealizedPnl => s.realized
    case UnrealizedPnl => s.unrealized
  }

  /** A day's figure, 0.0 for a day without a summary. */
  function Amount(byDay: map<string, DailySummary>, which: Measure, key: string): real
  {
    if key in byDay then AmountOf(byDay[key], which) else 0.0
  }

  /** `Amount` as the weight of a key. */
  function Weight(byDay: map<string, DailySummary>, which: Measure): string -> real
  {
    key => Amount(byDay, which, key)
  }

  /** `db.query(DailySummary).filter(date >= start, date <= end)` keyed by date: text comparison, as SQLite does it. */
  function InRange(stored: map<string, DailySummary>, start: string, end: string): (byDay: map<string, DailySummary>)
    ensures forall k :: k in byDay <==> k in stored && LexLessEq(start, k) && LexLessEq(k, end)
    ensures forall k :: k in byDay ==> byDay[k] == stored[k]
  {
    map k | k in stored && LexLessEq(start, k) && LexLessEq(k, end) :: stored[k]
  }

  datatype DayCell = DayCell(date: Date, inMonth: bool, realized: real, unrealized: real)

  datatype WeekRow = WeekRow(days: seq<DayCell>, weekRealized: real, weekUnrealized: real)

  datatype CalendarPage = CalendarPage(year: int, month: int, weeks: seq<WeekRow>, monthRealized: real, monthUnrealized: real)

  datatype CalendarError = MonthRejected(reason: MonthError) | DateOutOfRange

  /** `d.strftime("%Y-%m-%d")`; a grid holding a date `datetime` refuses is never rendered, so its text does not matter. */
  function Key(d: Date): string
  {
    if ValidDate(d) then FormatDate(d) else ""
  }

  function Cell(byDay: map<string, DailySummary>, month: int, d: Date): (c: DayCell)
    ensures c.date == d && c.inMonth == (d.month == month)
  {
    var key := Key(d);
    DayCell(d, d.month == month, Amount(byDay, RealizedPnl, key), Amount(byDay, UnrealizedPnl, key))
  }

  function Cells(byDay: map<string, DailySummary>, month: int, days: seq<Date>): (cs: seq<DayCell>)
    ensures |cs| == |days| && forall i :: 0 <= i < |days| ==> cs[i] == Cell(byDay, month, days[i])
  {
    seq(|days|, i requires 0 <= i < |days| => Cell(byDay, month, days[i]))
  }

  /** The sum of one figure over the in-month days that have a summary. */
  function InMonthSum(byDay: map<string, DailySummary>, month: int, which: Measure, days: seq<Date>): real
  {
    if days == [] then 0.0
    else
      var last := days[|days| - 1];
      InMonthSum(byDay, month, which, days[..|days| - 1])
        + (if last.month == month then Amount(byDay, which, Key(last)) else 0.0)
  }

  function Row(byDay: map<string, DailySummary>, month: int, days: seq<Date>): WeekRow
  {
    WeekRow(Cells(byDay, month, days), InMonthSum(byDay, month, RealizedPnl, days), InMonthSum(byDay, month, UnrealizedPnl, days))
  }

  /** The grid cut into rows of seven days. */
  function WeekRows(byDay: map<string, DailySummary>, month: int, days: seq<Date>): (rows: seq<WeekRow>)
  {
    if |days| < 7 then []
    else WeekRows(byDay, month, days[..|days| - 7]) + [Row(byDay, month, days[|days| - 7..])]
  }

  function WeekTotal(row: WeekRow, which: Measure): real
  {
    match which
    case RealizedPnl => row.weekRealized
    case UnrealizedPnl => row.weekUnrealized
  }

  function SumWeeks(rows: seq<WeekRow>, which: Measure): real
  {
    if rows == [] then 0.0 else SumWeeks(rows[..|rows| - 1], which) + WeekTotal(rows[|rows| - 1], which)
  }

  /** `sum(float(r.<figure>) for r in q)`. */
  ghost function MonthTotal(byDay: map<string, DailySummary>, which: Measure): real
  {
    SumSet(byDay.Keys, Weight(byDay, which))
  }

  /** What `calendar_view` renders for the stored summaries, or the error it raises. */
  ghost function CalendarPageOf(stored: map<string, DailySummary>, year: int, month: int): Result<CalendarPage, CalendarError>
  {
    var b := MonthBoundsOf(year, month);
    if b.Err? then Err(MonthRejected(b.error))
    else if !GridOk(year, month) then Err(DateOutOfRange)
    else
      var byDay := InRange(stored, b.value.start, b.value.end);
      Ok(CalendarPage(year, month, WeekRows(byDay, month, MonthGrid(year, month)),
                      MonthTotal(byDay, RealizedPnl), MonthTotal(byDay, UnrealizedPnl)))
  }

  // ----- calendar_view ------------------------------------------------------

  /** The inner loop: one week's cells and its two totals. */
  method BuildWeek(byDay: map<string, DailySummary>, month: int, week: seq<Date>) returns (row: WeekRow)
    ensures row == Row(byDay, month, week)
  {
    var wk: seq<DayCell> := [];
    var weekRealized, weekUnreal := 0.0, 0.0;
    var j := 0;
    while j < |week|
      invariant 0 <= j <= |week|
      invariant wk == Cells(byDay, month, week[..j])
      invariant weekRealized == InMonthSum(byDay, month, RealizedPnl, week[..j])
      invariant weekUnreal == InMonthSum(byDay, month, UnrealizedPnl, week[..j])
    {
      var d := week[j];
      var key := Key(d);
      assert week[..j + 1][..j] == week[..j];
      wk := wk + [DayCell(d, d.month == month, Amount(byDay, RealizedPnl, key), Amount(byDay, UnrealizedPnl, key))];
      if d.month == month && key in byDay {
        weekRealized := weekRealized + byDay[key].realized;
        weekUnreal := weekUnreal + byDay[key].unrealized;
      }
      j := j + 1;
    }
    assert week[..j] == week;
    row := WeekRow(wk, weekRealized, weekUnreal);
  }

  /** The running month sums once every key outside `todo` has been added. */
  ghost predicate Tallied(byDay: map<string, DailySummary>, todo: set<string>, realized: real, unrealized: real)
  {
    && todo <= byDay.Keys
    && realized == SumSet(byDay.Keys - todo, Weight(byDay, RealizedPnl))
    && unrealized == SumSet(byDay.Keys - todo, Weight(byDay, UnrealizedPnl))
  }

  /** The outer loop: the grid's weeks, one row per seven days. */
  method BuildWeeks(byDay: map<string, DailySummary>, month: int, grid: seq<Date>) returns (weeks: seq<WeekRow>)
    requires |grid| % 7 == 0
    ensures weeks == WeekRows(byDay, month, grid)
  {
    var count := |grid| / 7;
    assert |grid| == 7 * count;
    weeks := [];
    var w := 0;
    while w < count
      invariant 0 <= w <= count
      invariant weeks == WeekRows(byDay, month, grid[..7 * w])
    {
      var row := BuildWeek(byDay, month, grid[7 * w..7 * w + 7]);
      WeekRowsSnoc(byDay, month, grid, w);
      weeks := weeks + [row];
      w := w + 1;
    }
    assert grid[..7 * w] == grid;
  }

  lemma WeekRowsSnoc(byDay: map<string, DailySummary>, month: int, days: seq<Date>, w: nat)
    requires 7 * w + 7 <= |days|
    ensures WeekRows(byDay, month, days[..7 * w + 7])
      == WeekRows(byDay, month, days[..7 * w]) + [Row(byDay, month, days[7 * w..7 * w + 7])]
  {
    var next := days[..7 * w + 7];
    assert next[..|next| - 7] == days[..7 * w];
    assert next[|next| - 7..] == days[7 * w..7 * w + 7];
  }

  /** The monthly totals: both figures summed over the summaries of the month. */
  method MonthTotals(byDay: map<string, DailySummary>) returns (realized: real, unrealized: real)
    ensures realized == MonthTotal(byDay, RealizedPnl) && unrealized == MonthTotal(byDay, UnrealizedPnl)
  {
    var todo := byDay.Keys;
    realized, unrealized := 0.0, 0.0;
    assert byDay.Keys - todo == {};
    while todo != {}
      invariant Tallied(byDay, todo, realized, unrealized)
      decreases |todo|
    {
      var key :| key in todo;
      realized, unrealized := AddKey(byDay, todo, key, realized, unrealized);
      todo := todo - {key};
    }
    assert byDay.Keys - todo == byDay.Keys;
  }

  /** One pass of the month-total loop: both running sums take in one more day. */
  method AddKey(byDay: map<string, DailySummary>, todo: set<string>, key: string, realized: real, unrealized: real)
    returns (realized': real, unrealized': real)
    requires key in todo && Tallied(byDay, todo, realized, unrealized)
    ensures Tallied(byDay, todo - {key}, realized', unrealized')
  {
    var done := byDay.Keys - todo;
    assert byDay.Keys - (todo - {key}) == done + {key};
    SumSetAdd(done, Weight(byDay, RealizedPnl), key);
    SumSetAdd(done, Weight(byDay, UnrealizedPnl), key);
    realized' := realized + byDay[key].realized;
    unrealized' := unrealized + byDay[key].unrealized;
  }

  /**
   * `calendar_view(year, month)`: the month is remembered (and committed)
   * first; then `month_bounds` and the grid may raise; otherwise the page
   * holds the grid's weeks with their totals and the month's totals.
   */
  method CalendarView(db: Database, year: int, month: int) returns (r: Result<CalendarPage, CalendarError>)
    modifies db
    ensures db.meta == old(db.meta)[LastViewedKey := MonthText(year, month)]
    ensures db.summaries == old(db.summaries) && db.trades == old(db.trades)
    ensures r == CalendarPageOf(db.summaries, year, month)
  {
    db.meta := db.meta[LastViewedKey := MonthText(year, month)];
    r := RenderMonth(db.summaries, year, month);
  }

  /** Everything `calendar_view` does after remembering the month. */
  method RenderMonth(stored: map<string, DailySummary>, year: int, month: int) returns (r: Result<CalendarPage, CalendarError>)
    ensures r == CalendarPageOf(stored, year, month)
  {
    var b := MonthBoundsOf(year, month);
    if b.Err? {
      return Err(MonthRejected(b.error));
    }
    var grid := MonthGrid(year, month);
    if exists i :: 0 <= i < |grid| && !ValidDate(grid[i]) {
      return Err(DateOutOfRange);
    }
    var byDay := InRange(stored, b.value.start, b.value.end);
    var weeks := BuildWeeks(byDay, month, grid);
    var realized, unrealized := MonthTotals(byDay);
    r := Ok(CalendarPage(year, month, weeks, realized, unrealized));
  }

  // ----- the grid is whole weeks from Monday -------------------------------

  /** Day `k` of a month lies `k - 1` days after its 1st. */
  lemma OrdinalInMonth(year: int, month: int, k: int)
    requires 1 <= month <= 12
    ensures Ordinal(Date(year, month, k)) == Ordinal(Date(year, month, 1)) + k - 1
  {
  }

  /** The 1st of a month follows the last day of the month before. */
  lemma MonthBoundary(year: int, month: int)
    requires 1 <= month <= 12
    ensures var (py, pm) := PrevMonth(year, month);
      Ordinal(Date(year, month, 1)) == Ordinal(Date(py, pm, DaysInMonth(py, pm))) + 1
  {
    var (py, pm) := PrevMonth(year, month);
    MonthLength(py, pm);
    YearLength(py);
  }

  /** The grid's dates run on day by day from the Monday on or before the 1st. */
  lemma GridOrdinals(year: int, month: int, i: nat)
    requires 1 <= month <= 12 && i < |MonthGrid(year, month)|
    ensures Ordinal(MonthGrid(year, month)[i]) == Ordinal(Date(year, month, 1)) - Lead(year, month) + i
  {
    var grid := MonthGrid(year, month);
    var lead, n := Lead(year, month), DaysInMonth(year, month);
    var first := Date(year, month, 1);
    if i < lead {
      var (py, pm) := PrevMonth(year, month);
      var np := DaysInMonth(py, pm);
      assert grid[i] == Date(py, pm, np - lead + 1 + i);
      MonthBoundary(year, month);
      OrdinalInMonth(py, pm, np - lead + 1 + i);
      OrdinalInMonth(py, pm, np);
    } else if i < lead + n {
      assert grid[i] == Date(year, month, i - lead + 1);
      OrdinalInMonth(year, month, i - lead + 1);
    } else {
      var (ny, nm) := NextMonth(year, month);
      assert grid[i] == Date(ny, nm, i - lead - n + 1);
      MonthBoundary(ny, nm);
      assert PrevMonth(ny, nm) == (year, month);
      OrdinalInMonth(ny, nm, i - lead - n + 1);
      OrdinalInMonth(year, month, n);
    }
  }

  /** Consecutive cells are consecutive days, and every row of seven starts on a Monday. */
  lemma GridWeeksStartMonday(year: int, month: int)
    requires 1 <= month <= 12
    ensures var grid := MonthGrid(year, month);
      && (forall i :: 0 < i < |grid| ==> Ordinal(grid[i]) == Ordinal(grid[i - 1]) + 1)
      && (forall w :: 0 <= w < |grid| / 7 ==> Weekday(grid[7 * w]) == 0)
  {
    var grid := MonthGrid(year, month);
    var base := Ordinal(Date(year, month, 1)) - Lead(year, month);
    assert (base + 6) % 7 == 0;
    forall i | 0 < i < |grid| ensures Ordinal(grid[i]) == Ordinal(grid[i - 1]) + 1 {
      GridOrdinals(year, month, i);
      GridOrdinals(year, month, i - 1);
    }
    forall w | 0 <= w < |grid| / 7 ensures Weekday(grid[7 * w]) == 0 {
      GridOrdinals(year, month, 7 * w);
      assert (base + 7 * w + 6) % 7 == 0;
    }
  }

  /** The in-month cells are exactly the month's days 1 to n, in order. */
  lemma GridCoversMonth(year: int, month: int)
    requires 1 <= month <= 12
    ensures var grid := MonthGrid(year, month); var lead := Lead(year, month);
      && (forall i :: 0 <= i < |grid| ==> (grid[i].month == month <==> lead <= i < lead + DaysInMonth(year, month)))
      && (forall d :: 1 <= d <= DaysInMonth(year, month) ==> grid[lead + d - 1] == Date(year, month, d))
  {
  }

  // ----- the weeks add up to the month -----------------------------------

  lemma {:induction false} InMonthSumConcat(byDay: map<string, DailySummary>, month: int, which: Measure, a: seq<Date>, b: seq<Date>)
    ensures InMonthSum(byDay, month, which, a + b) == InMonthSum(byDay, month, which, a) + InMonthSum(byDay, month, which, b)
    decreases |b|
  {
    if b != [] {
      var b' := b[..|b| - 1];
      assert (a + b)[..|a + b| - 1] == a + b';
      InMonthSumConcat(byDay, month, which, a, b');
    } else {
      assert a + b == a;
    }
  }

  lemma {:induction false} InMonthSumOther(byDay: map<string, DailySummary>, month: int, which: Measure, days: seq<Date>)
    requires forall i :: 0 <= i < |days| ==> days[i].month != month
    ensures InMonthSum(byDay, month, which, days) == 0.0
  {
    if days != [] {
      InMonthSumOther(byDay, month, which, days[..|days| - 1]);
    }
  }

  lemma {:induction false} WeekRowsSum(byDay: map<string, DailySummary>, month: int, which: Measure, days: seq<Date>, n: nat)
    requires |days| == 7 * n
    ensures SumWeeks(WeekRows(byDay, month, days), which) == InMonthSum(byDay, month, which, days)
  {
    if n > 0 {
      var front, back := days[..|days| - 7], days[|days| - 7..];
      WeekRowsSum(byDay, month, which, front, n - 1);
      var rows := WeekRows(byDay, month, days);
      assert rows == WeekRows(byDay, month, front) + [Row(byDay, month, back)];
      assert front + back == days;
      InMonthSumConcat(byDay, month, which, front, back);
    }
  }

  /** The keys of the month's days 1 to `k` that have a summary. */
  function KeysUpTo(byDay: map<string, DailySummary>, year: int, month: int, k: nat): set<string>
    requires 1 <= year <= 9999 && 1 <= month <= 12 && k <= DaysInMonth(year, month)
  {
    if k == 0 then {}
    else
      var key := FormatDate(Date(year, month, k));
      KeysUpTo(byDay, year, month, k - 1) + (if key in byDay then {key} else {})
  }

  lemma {:induction false} KeysUpToMembers(byDay: map<string, DailySummary>, year: int, month: int, k: nat)
    requires 1 <= year <= 9999 && 1 <= month <= 12 && k <= DaysInMonth(year, month)
    ensures forall x :: x in KeysUpTo(byDay, year, month, k) <==>
      x in byDay && exists d :: 1 <= d <= k && x == FormatDate(Date(year, month, d))
  {
    if k > 0 {
      KeysUpToMembers(byDay, year, month, k - 1);
    }
  }

  lemma {:induction false} MonthDaysSum(byDay: map<string, DailySummary>, year: int, month: int, which: Measure, k: nat)
    requires 1 <= year <= 9999 && 1 <= month <= 12 && k <= DaysInMonth(year, month)
    ensures InMonthSum(byDay, month, which, MonthDays(year, month, k)) == SumSet(KeysUpTo(byDay, year, month, k), Weight(byDay, which))
  {
    if k > 0 {
      MonthDaysSum(byDay, year, month, which, k - 1);
      var days := MonthDays(year, month, k);
      assert days[..k - 1] == MonthDays(year, month, k - 1);
      var key := FormatDate(Date(year, month, k));
      assert Key(days[k - 1]) == key;
      var before := KeysUpTo(byDay, year, month, k - 1);
      assert InMonthSum(byDay, month, which, days)
        == InMonthSum(byDay, month, which, days[..k - 1]) + Amount(byDay, which, key);
      if key in byDay {
        NewDayKey(byDay, year, month, k);
        assert KeysUpTo(byDay, year, month, k) == before + {key};
        SumSetAdd(before, Weight(byDay, which), key);
      } else {
        assert KeysUpTo(byDay, year, month, k) == before;
      }
    }
  }

  /** Day `k`'s key is not among the keys of the days before it. */
  lemma NewDayKey(byDay: map<string, DailySummary>, year: int, month: int, k: nat)
    requires 1 <= year <= 9999 && 1 <= month <= 12 && 1 <= k <= DaysInMonth(year, month)
    ensures FormatDate(Date(year, month, k)) !in KeysUpTo(byDay, year, month, k - 1)
  {
    var key := FormatDate(Date(year, month, k));
    KeysUpToMembers(byDay, year, month, k - 1);
    if key in KeysUpTo(byDay, year, month, k - 1) {
      var d :| 1 <= d <= k - 1 && key == FormatDate(Date(year, month, d));
      FormatDateInjective(Date(year, month, d), Date(year, month, k));
    }
  }

  /** Every stored key is a printed date ("YYYY-MM-DD"). */
  ghost predicate CanonicalKeys(stored: map<string, DailySummary>)
  {
    forall k :: k in stored ==> exists d :: ValidDate(d) && FormatDate(d) == k
  }

  /** With canonical keys, the summaries the query returns are those of the month's days. */
  lemma MonthKeys(stored: map<string, DailySummary>, year: int, month: int)
    requires 1 <= year <= 9999 && 1 <= month <= 12 && CanonicalKeys(stored)
    ensures var b := MonthBoundsOf(year, month).value; var byDay := InRange(stored, b.start, b.end);
      KeysUpTo(byDay, year, month, DaysInMonth(year, month)) == byDay.Keys
  {
    var b := MonthBoundsOf(year, month).value;
    var byDay := InRange(stored, b.start, b.end);
    var n := DaysInMonth(year, month);
    KeysUpToMembers(byDay, year, month, n);
    forall x | x in byDay ensures x in KeysUpTo(byDay, year, month, n) {
      var e :| ValidDate(e) && FormatDate(e) == x;
      MonthBoundsRange(year, month, e);
      assert e == Date(year, month, e.day);
    }
  }

  /** The totals of the month's week rows add up to the month's totals, for both figures. */
  lemma WeeksAddUpToMonth(stored: map<string, DailySummary>, year: int, month: int, which: Measure)
    requires CalendarPageOf(stored, year, month).Ok? && CanonicalKeys(stored)
    ensures var page := CalendarPageOf(stored, year, month).value;
      SumWeeks(page.weeks, which) == (if which == RealizedPnl then page.monthRealized else page.monthUnrealized)
  {
    var b := MonthBoundsOf(year, month).value;
    var byDay := InRange(stored, b.start, b.end);
    var grid := MonthGrid(year, month);
    assert ValidDate(grid[Lead(year, month)]);
    GridSum(byDay, year, month, which);
    MonthKeys(stored, year, month);
  }

  /** The week rows of a month's grid add up to the sum over the month's own days. */
  lemma GridSum(byDay: map<string, DailySummary>, year: int, month: int, which: Measure)
    requires 1 <= year <= 9999 && 1 <= month <= 12
    ensures SumWeeks(WeekRows(byDay, month, MonthGrid(year, month)), which)
      == SumSet(KeysUpTo(byDay, year, month, DaysInMonth(year, month)), Weight(byDay, which))
  {
    var n := DaysInMonth(year, month);
    var grid := MonthGrid(year, month);
    var lead, days, trail := Leading(year, month), MonthDays(year, month, n), Trailing(year, month);
    WeekRowsSum(byDay, month, which, grid, |grid| / 7);
    InMonthSumConcat(byDay, month, which, lead, days);
    InMonthSumConcat(byDay, month, which, lead + days, trail);
    InMonthSumOther(byDay, month, which, lead);
    InMonthSumOther(byDay, month, which, trail);
    MonthDaysSum(byDay, year, month, which, n);
  }

  // ----- the remembered month ---------------------------------------------

  /**
   * As written, `calendar_view` remembers a month before `month_bounds`
   * checks it: after a visit to month 13, a home page whose default view is
   * not "latest" keeps redirecting to that month, whose page always fails.
   */
  lemma RememberedBadMonthBreaksHome(cfg: map<string, Value>, meta: map<string, string>, today: Date,
                                     stored: map<string, DailySummary>, year: nat, month: int)
    requires DefaultView(cfg).Ok? && DefaultView(cfg).value != StrValue("latest")
    requires month > 12
    ensures Home(cfg, meta[LastViewedKey := MonthText(year, month)], today) == Ok(CalendarUrl(year, month))
    ensures CalendarPageOf(stored, year, month) == Err(MonthRejected(IllegalMonth(month)))
  {
    MonthTextRoundTrip(year, month);
  }

  /** `calendar_view` remembering the month only once its page renders. */
  method CalendarViewChecked(db: Database, year: int, month: int) returns (r: Result<CalendarPage, CalendarError>)
    modifies db
    ensures r == CalendarPageOf(old(db.summaries), year, month)
    ensures db.meta == (if r.Ok? then old(db.meta)[LastViewedKey := MonthText(year, month)] else old(db.meta))
    ensures db.summaries == old(db.summaries) && db.trades == old(db.trades)
  {
    r := RenderMonth(db.summaries, year, month);
    if r.Ok? {
      db.meta := db.meta[LastViewedKey := MonthText(year, month)];
    }
  }

  /** A month remembered by the checked view is one the home page redirects to and whose page renders. */
  lemma CheckedViewKeepsHomeValid(cfg: map<string, Value>, meta: map<string, string>, today: Date,
                                  stored: map<string, DailySummary>, later: map<string, DailySummary>, year: int, month: int)
    requires CalendarPageOf(stored, year, month).Ok?
    requires DefaultView(cfg).Ok? && DefaultView(cfg).value != StrValue("latest")
    ensures Home(cfg, meta[LastViewedKey := MonthText(year, month)], today) == Ok(CalendarUrl(year, month))
    ensures CalendarPageOf(later, year, month).Ok?
  {
    assert ValidDate(MonthGrid(year, month)[Lead(year, month)]);
    MonthTextRoundTrip(year, month);
  }

  // ----- overwrite_daily --------------------------------------------------

  /**
   * `overwrite_daily(date_str, realized, unrealized)`: the day's summary is
   * created or replaced with the two figures, the unrealised figure as the
   * amount invested, stamped with the current time.
   */
  method OverwriteDaily(db: Database, dateStr: string, realized: real, unrealized: real, now: string)
    modifies db
    ensures db.summaries == old(db.summaries)[dateStr := DailySummary(realized, unrealized, unrealized, now)]
    ensures db.trades == old(db.trades) && db.meta == old(db.meta)
  {
    if dateStr in db.summaries {
      var ds := db.summaries[dateStr];
      ds := ds.(realized := realized, unrealized := unrealized, totalInvested := unrealized, updatedAt := now);
      db.summaries := db.summaries[dateStr := ds];
    } else {
      db.summaries := db.summaries[dateStr := DailySummary(realized, unrealized, unrealized, now)];
    }
  }

  /** An overwritten day shows exactly the submitted figures in its month's grid. */
  lemma OverwriteShows(stored: map<string, DailySummary>, d: Date, realized: real, unrealized: real, now: string)
    requires ValidDate(d)
    ensures var after := stored[FormatDate(d) := DailySummary(realized, unrealized, unrealized, now)];
      var b := MonthBoundsOf(d.year, d.month).value; var byDay := InRange(after, b.start, b.end);
      Cell(byDay, d.month, d) == DayCell(d, true, realized, unrealized)
  {
    MonthBoundsRange(d.year, d.month, d);
  }
}
