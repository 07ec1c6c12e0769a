/**
 * The small helpers of `app/core/utils.py`: reading a configuration value as a
 * flag, printing a date stamp as "YYYY-MM-DD", and the first and last day of a
 * calendar month.
 */
module Utils {

  import opened Common
  import opened Text
  import opened Dates

  // ----- coerce_bool ----------------------------------------------------

  /** The words read as `True`, after `strip().lower()`. */
  predicate TrueWord(w: string) { w == "true" || w == "1" || w == "yes" || w == "on" }

  /** The words read as `False`, after `strip().lower()`. */
  predicate FalseWord(w: string) { w == "false" || w == "0" || w == "no" || w == "off" }

  /** Python's truth value of a configuration value. */
  predicate Truthy(v: Value)
  {
    match v
    case NullValue => false
    case BoolValue(b) => b
    case IntValue(i) => i != 0
    case FloatValue(r) => r != 0.0
    case StrValue(s) => s != []
    case ListValue(items) => items != []
    case DictValue(entries) => entries != map[]
  }

  /** `int(r)` on a float: truncation toward zero. */
  function Truncate(r: real): (n: int)
    ensures Abs(n as real) <= Abs(r) < Abs(n as real) + 1.0
    ensures (n >= 0) == (r > -1.0)
  {
    if r >= 0.0 then r.Floor else -((-r).Floor)
  }

  /**
   * `coerce_bool(value, default)`: bools as they are; known words by their
   * meaning and other text as `default`; `None` as `default`; numbers as
   * `bool(int(value))`; values `int()` refuses (lists, dicts) as `bool(value)`.
   */
  function CoerceBool(value: Value, default: bool): (r: bool)
    ensures value.BoolValue? ==> r == value.b
    ensures value.NullValue? ==> r == default
    ensures value.IntValue? ==> r == (value.i != 0)
    ensures value.ListValue? || value.DictValue? ==> r == Truthy(value)
  {
    match value
    case BoolValue(b) => b
    case StrValue(s) =>
      var normalized := Lower(Strip(s));
      if TrueWord(normalized) then true
      else if FalseWord(normalized) then false
      else default
    case NullValue => default
    case IntValue(i) => i != 0
    case FloatValue(r) => Truncate(r) != 0
    case _ => Truthy(value)
  }

  /** Text reads as `True` exactly for a true word, and as the default for any word neither list holds. */
  lemma CoerceBoolText(s: string, default: bool)
    ensures CoerceBool(StrValue(s), default) <==>
      TrueWord(Lower(Strip(s))) || (!FalseWord(Lower(Strip(s))) && default)
    ensures TrueWord(Lower(Strip(s))) ==> CoerceBool(StrValue(s), default)
    ensures FalseWord(Lower(Strip(s))) ==> !CoerceBool(StrValue(s), default)
  {
  }

  /** Case and surrounding whitespace do not matter to the words. */
  lemma {:induction false} CoerceBoolCaseInsensitive(s: string, default: bool)
    ensures CoerceBool(StrValue(Upper(s)), default) == CoerceBool(StrValue(s), default)
  {
    StripUpper(s);
    LowerUpper(Strip(s));
  }

  /** A float counts as `True` only from magnitude 1 on, because `int()` truncates it first. */
  lemma CoerceBoolFloat(r: real, default: bool)
    ensures CoerceBool(FloatValue(r), default) <==> r >= 1.0 || r <= -1.0
  {
  }

  /** Coercing twice changes nothing: a flag read back is the same flag. */
  lemma CoerceBoolIdempotent(value: Value, d1: bool, d2: bool)
    ensures CoerceBool(BoolValue(CoerceBool(value, d1)), d2) == CoerceBool(value, d1)
    ensures CoerceBool(StrValue(if CoerceBool(value, d1) then "true" else "false"), d2) == CoerceBool(value, d1)
  {
    if CoerceBool(value, d1) {
      TrueText(d2);
    } else {
      FalseText(d2);
    }
  }

  lemma TrueText(default: bool)
    ensures CoerceBool(StrValue("true"), default)
  {
    assert Strip("true") == "true";
    assert Lower("true") == "true";
  }

  lemma FalseText(default: bool)
    ensures !CoerceBool(StrValue("false"), default)
  {
    assert Strip("false") == "false";
    assert Lower("false") == "false";
  }

  // ----- ymd ------------------------------------------------------------

  /** `ymd(dt)`: a date or the date of a timestamp as "%Y-%m-%d", anything else as `str(dt)`. */
  function Ymd(s: Stamp): (r: string)
    ensures s.DateStamp? ==> r == FormatDate(s.date)
    ensures s.DateTimeStamp? ==> r == FormatDate(s.day)
    ensures s.TextStamp? ==> r == s.text
    ensures s.NoStamp? ==> r == "None"
  {
    match s
    case NoStamp => "None"
    case TextStamp(t) => t
    case DateStamp(d) => FormatDate(d)
    case DateTimeStamp(d, _) => FormatDate(d)
  }

  /** The printed day of a date or timestamp reads back as that day. */
  lemma YmdParses(s: Stamp)
    requires s.DateStamp? || s.DateTimeStamp?
    ensures ParseDateWith(Ymd(s), YearMonthDay) == Some(if s.DateStamp? then s.date else s.day)
  {
    if s.DateStamp? {
      ParseFormatDate(s.date);
    } else {
      ParseFormatDate(s.day);
    }
  }

  // ----- month_bounds ---------------------------------------------------

  /** What `calendar.monthrange` raises for a month outside 1..12. */
  datatype MonthError = IllegalMonth(month: int)

  /** The first day, the last day and the length of a month. */
  datatype MonthBounds = MonthBounds(start: string, end: string, days: int)

  /**
   * `month_bounds(year, month)`: "YYYY-MM-01", "YYYY-MM-<last>" and the
   * number of days, with the year padded to four characters as
   * `f"{year:04d}"` pads it. `calendar.monthrange` raises for a bad month.
   */
  function MonthBoundsOf(year: int, month: int): (r: Result<MonthBounds, MonthError>)
    ensures r.Err? <==> !(1 <= month <= 12)
    ensures r.Ok? ==> r.value.days == DaysInMonth(year, month)
  {
    if !(1 <= month <= 12) then Err(IllegalMonth(month))
    else
      var days := DaysInMonth(year, month);
      var prefix := PadInt(year, 4) + "-" + PadInt(month, 2) + "-";
      Ok(MonthBounds(prefix + "01", prefix + PadInt(days, 2), days))
  }

  /** February has 29 days exactly in leap years; every other month has a fixed length. */
  lemma MonthBoundsLeapRule(year: int, month: int)
    requires 1 <= month <= 12
    ensures var days := MonthBoundsOf(year, month).value.days;
      (month == 2 ==> (days == 29 <==> IsLeap(year)) && (days == 28 <==> !IsLeap(year)))
      && (month in {4, 6, 9, 11} ==> days == 30)
      && (month in {1, 3, 5, 7, 8, 10, 12} ==> days == 31)
  {
  }

  /** For a year `datetime` accepts, the bounds are the printed first and last days of the month, and the day after the last is not in it. */
  lemma MonthBoundsDates(year: int, month: int)
    requires 1 <= year <= 9999 && 1 <= month <= 12
    ensures var b := MonthBoundsOf(year, month).value;
      ValidDate(Date(year, month, 1)) && ValidDate(Date(year, month, b.days))
      && b.start == FormatDate(Date(year, month, 1))
      && b.end == FormatDate(Date(year, month, b.days))
      && !ValidDate(Date(year, month, b.days + 1))
      && ParseDateWith(b.start, YearMonthDay) == Some(Date(year, month, 1))
      && ParseDateWith(b.end, YearMonthDay) == Some(Date(year, month, b.days))
  {
    var b := MonthBoundsOf(year, month).value;
    assert PadInt(1, 2) == "01";
    ParseFormatDate(Date(year, month, 1));
    ParseFormatDate(Date(year, month, b.days));
  }

  /** A printed date lies between the month's bounds (as text) exactly when it is a day of that month. */
  lemma MonthBoundsRange(year: int, month: int, d: Date)
    requires 1 <= year <= 9999 && 1 <= month <= 12 && ValidDate(d)
    ensures var b := MonthBoundsOf(year, month).value;
      (LexLessEq(b.start, FormatDate(d)) && LexLessEq(FormatDate(d), b.end)) <==> (d.year == year && d.month == month)
  {
    var b := MonthBoundsOf(year, month).value;
    MonthBoundsDates(year, month);
    var first := Date(year, month, 1);
    var last := Date(year, month, b.days);
    FormatDateOrder(first, d);
    FormatDateOrder(d, last);
    if FormatDate(d) == b.start {
      FormatDateInjective(first, d);
    }
    if FormatDate(d) == b.end {
      FormatDateInjective(d, last);
    }
  }
}
