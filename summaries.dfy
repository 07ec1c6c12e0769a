/**
 * `group_by_week` of `app/services/summaries.py`: daily realised,
 * unrealised and invested figures, keyed by "YYYY-MM-DD" strings, are added
 * up per ISO 8601 week (year, week number).
 */
module Summaries {

  import opened Common
  import opened Text
  import opened Dates
  import opened Sums

  datatype Field = Realized | Unrealized | TotalInvested

  /** One day's dict; an absent key is `None`. */
  datatype DayValues = DayValues(realized: Option<real>, unrealized: Option<real>, totalInvested: Option<real>)

  /** `vals.get(field, 0.0)`. */
  function ValueOf(v: DayValues, f: Field): real
  {
    match f
    case Realized => v.realized.GetOr(0.0)
    case Unrealized => v.unrealized.GetOr(0.0)
    case TotalInvested => v.totalInvested.GetOr(0.0)
  }

  /** A week's bucket. */
  datatype Totals = Totals(realized: real, unrealized: real, totalInvested: real)

  function TotalOf(t: Totals, f: Field): real
  {
    match f
    case Realized => t.realized
    case Unrealized => t.unrealized
    case TotalInvested => t.totalInvested
  }

  const EmptyTotals := Totals(0.0, 0.0, 0.0)

  /** `agg[key][field] += vals.get(field, 0.0)` for the three fields. */
  function AddDay(t: Totals, v: DayValues): (r: Totals)
    ensures forall f :: TotalOf(r, f) == TotalOf(t, f) + ValueOf(v, f)
  {
    Totals(t.realized + ValueOf(v, Realized), t.unrealized + ValueOf(v, Unrealized),
           t.totalInvested + ValueOf(v, TotalInvested))
  }

  /**
   * `y, m, day = map(int, d.split("-"))` and `date(y, m, day)`: exactly three
   * dash-separated integers naming a real date; anything else raises
   * `ValueError`.
   */
  function ParseDayKey(s: string): (r: Option<Date>)
    ensures r.Some? ==> ValidDate(r.value)
  {
    var parts := SplitOn(s, '-');
    if |parts| != 3 then None
    else
      var y, m, d := ParseInt(parts[0]), ParseInt(parts[1]), ParseInt(parts[2]);
      if y.None? || m.None? || d.None? then None
      else
        var date := Date(y.value, m.value, d.value);
        if ValidDate(date) then Some(date) else None
  }

  /** A canonical day key parses back to its date. */
  lemma CanonicalKeysParse(d: Date)
    requires ValidDate(d)
    ensures ParseDayKey(FormatDate(d)) == Some(d)
  {
    ParseFormatDate(d);
    var parts := SplitOn(FormatDate(d), '-');
    assert ParseDateWith(FormatDate(d), YearMonthDay) == Some(d);
    CanonicalParts(d, parts);
  }

  lemma CanonicalParts(d: Date, parts: seq<string>)
    requires ValidDate(d) && parts == SplitOn(FormatDate(d), '-')
    ensures |parts| == 3 && ParseInt(parts[0]) == Some(d.year) && ParseInt(parts[1]) == Some(d.month)
      && ParseInt(parts[2]) == Some(d.day)
  {
    FormatDateFields(d);
    SplitDashed(PadInt(d.year, 4), PadInt(d.month, 2), PadInt(d.day, 2));
    DigitsParse(PadInt(d.year, 4));
    DigitsParse(PadInt(d.month, 2));
    DigitsParse(PadInt(d.day, 2));
  }

  /** `int(s)` of a non-empty run of digits is its value. */
  lemma DigitsParse(s: string)
    requires s != [] && AllDigits(s)
    ensures ParseInt(s) == Some(DigitsValue(s) as int)
  {
    assert !IsSpace(s[0]) && !IsSpace(s[|s| - 1]);
    StripNoop(s);
  }

  // ----- the specification, over dict items in iteration order ----------

  predicate HasDayKey(item: (string, DayValues)) { ParseDayKey(item.0).Some? }

  /** The first entry whose key does not parse, the one `group_by_week` raises on. */
  function FirstBadKey(items: seq<(string, DayValues)>): Option<(string, DayValues)>
  {
    FirstFailing(items, HasDayKey)
  }

  /** The bucket of a day key, `(0, 0)` for one that does not parse (never a real ISO week). */
  function WeekOfKey(s: string): (int, int)
  {
    var d := ParseDayKey(s);
    if d.Some? then IsoWeekKey(d.value) else (0, 0)
  }

  /** An input day with its bucket key worked out. */
  datatype Day = Day(week: (int, int), values: DayValues)

  function Keyed(items: seq<(string, DayValues)>): (days: seq<Day>)
    ensures |days| == |items|
    ensures forall i :: 0 <= i < |items| ==> days[i] == Day(WeekOfKey(items[i].0), items[i].1)
  {
    seq(|items|, i requires 0 <= i < |items| => Day(WeekOfKey(items[i].0), items[i].1))
  }

  lemma KeyedSnoc(items: seq<(string, DayValues)>, n: nat, week: (int, int))
    requires n < |items| && week == WeekOfKey(items[n].0)
    ensures Keyed(items[..n + 1]) == Keyed(items[..n]) + [Day(week, items[n].1)]
  {
  }

  /** The ISO weeks holding at least one input day. */
  function Weeks(days: seq<Day>): (ws: set<(int, int)>)
  {
    if days == [] then {} else Weeks(days[..|days| - 1]) + {days[|days| - 1].week}
  }

  /** Only weeks holding an input day are buckets, and each day's week is one. */
  lemma {:induction false} WeeksMembers(days: seq<Day>)
    ensures forall k :: k in Weeks(days) <==> exists i :: 0 <= i < |days| && days[i].week == k
  {
    if days != [] {
      var rest := days[..|days| - 1];
      WeeksMembers(rest);
      assert forall i :: 0 <= i < |rest| ==> rest[i] == days[i];
    }
  }

  /** The sum of a field over the days in week `k` (a missing field counts as 0). */
  function WeekSum(days: seq<Day>, k: (int, int), f: Field): real
  {
    if days == [] then 0.0
    else
      var last := days[|days| - 1];
      WeekSum(days[..|days| - 1], k, f) + (if last.week == k then ValueOf(last.values, f) else 0.0)
  }

  /** The sum of a field over every input day. */
  function DaySum(days: seq<Day>, f: Field): real
  {
    if days == [] then 0.0 else DaySum(days[..|days| - 1], f) + ValueOf(days[|days| - 1].values, f)
  }

  /** The buckets as `group_by_week` returns them: one per week, each holding its days' sums. */
  predicate IsWeekly(agg: map<(int, int), Totals>, days: seq<Day>)
  {
    && agg.Keys == Weeks(days)
    && forall k :: k in agg ==> forall f :: TotalOf(agg[k], f) == WeekSum(days, k, f)
  }

  /** `agg[key]`, starting from the defaultdict's zeros. */
  function Bucket(agg: map<(int, int), Totals>, k: (int, int)): Totals
  {
    if k in agg then agg[k] else EmptyTotals
  }

  lemma {:induction false} WeekSumOutside(days: seq<Day>, k: (int, int), f: Field)
    requires k !in Weeks(days)
    ensures WeekSum(days, k, f) == 0.0
  {
    if days != [] {
      WeekSumOutside(days[..|days| - 1], k, f);
    }
  }

  /** One more day updates exactly its own bucket. */
  lemma WeeklyStep(agg: map<(int, int), Totals>, days: seq<Day>, day: Day)
    requires IsWeekly(agg, days)
    ensures IsWeekly(agg[day.week := AddDay(Bucket(agg, day.week), day.values)], days + [day])
  {
    var k := day.week;
    var next := days + [day];
    var updated := agg[k := AddDay(Bucket(agg, k), day.values)];
    assert next[..|next| - 1] == days;
    forall k', f | k' in updated
      ensures TotalOf(updated[k'], f) == WeekSum(next, k', f)
    {
      if k' == k && k !in agg {
        WeekSumOutside(days, k, f);
      }
    }
  }

  /**
   * `group_by_week(daily)`: one bucket per ISO week of the input days,
   * holding the sum of each field over that week's days; `ValueError` on
   * the first key that is not a date.
   */
  method GroupByWeek(daily: seq<(string, DayValues)>) returns (r: Result<map<(int, int), Totals>, string>)
    ensures r.Err? <==> FirstBadKey(daily).Some?
    ensures r.Err? ==> r.error == FirstBadKey(daily).value.0
    ensures r.Ok? ==> IsWeekly(r.value, Keyed(daily))
  {
    var agg: map<(int, int), Totals> := map[];
    var i := 0;
    while i < |daily|
      invariant 0 <= i <= |daily|
      invariant FirstBadKey(daily[..i]).None?
      invariant IsWeekly(agg, Keyed(daily[..i]))
    {
      var (d, vals) := daily[i];
      assert daily[..i + 1][..i] == daily[..i];
      var date := ParseDayKey(d);
      if date.None? {
        assert FirstBadKey(daily[..i + 1]) == Some(daily[i]);
        FirstFailingPrefix(daily, HasDayKey, i + 1);
        return Err(d);
      }
      var key := IsoWeekKey(date.value);
      KeyedSnoc(daily, i, key);
      WeeklyStep(agg, Keyed(daily[..i]), Day(key, vals));
      agg := agg[key := AddDay(Bucket(agg, key), vals)];
      i := i + 1;
    }
    assert daily[..i] == daily;
    r := Ok(agg);
  }

  // ----- what the buckets add up to -------------------------------------

  /** Each field summed over all buckets equals the field summed over all days. */
  lemma {:induction false} BucketsConserveTotals(items: seq<Day>, f: Field)
    ensures SumSet(Weeks(items), k => WeekSum(items, k, f)) == DaySum(items, f)
  {
    if items != [] {
      var rest := items[..|items| - 1];
      var last := items[|items| - 1];
      var kx := last.week;
      var v := ValueOf(last.values, f);
      BucketsConserveTotals(rest, f);
      var before := (k: (int, int)) => WeekSum(rest, k, f);
      var after := (k: (int, int)) => WeekSum(items, k, f);
      var ws := Weeks(rest);
      assert Weeks(items) == ws + {kx};
      if kx in ws {
        assert Weeks(items) == ws;
        SumSetPick(ws, after, kx);
        SumSetPick(ws, before, kx);
        SumSetCongruent(ws - {kx}, after, before);
      } else {
        SumSetAdd(ws, after, kx);
        SumSetCongruent(ws, after, before);
        WeekSumOutside(rest, kx, f);
      }
    }
  }

  /** Two input days share a bucket exactly when they fall in the same Monday-to-Sunday week. */
  lemma SameBucketIffSameWeek(a: string, b: string)
    requires ParseDayKey(a).Some? && ParseDayKey(b).Some?
    ensures WeekOfKey(a) == WeekOfKey(b) <==> MondayOf(ParseDayKey(a).value) == MondayOf(ParseDayKey(b).value)
  {
    IsoWeekKeyIffSameMonday(ParseDayKey(a).value, ParseDayKey(b).value);
  }
}
