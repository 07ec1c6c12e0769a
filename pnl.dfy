/**
 * `compute_daily_pnl_records`: validate trade records, put them in
 * (date, sequence, datetime, symbol) order, and fold them one trading day
 * at a time through the lot-matching engine, one row per day with the
 * day's realised profit, traded value and the running total.
 */
module Pnl {

  import opened Common
  import opened Text
  import opened Dates
  import opened TradeMatching

  /**
   * One input record. A field is `None` when the record lacks that key or
   * holds a null there; `nulls` lists the keys present with a null value.
   * Dates and timestamps arrive already parsed.
   */
  datatype TradeRecord = TradeRecord(
    date: Option<Date>, side: Option<string>, symbol: Option<string>,
    quantity: Option<real>, price: Option<real>, fee: Option<real>,
    sequence: Option<int>, datetime: Option<DateTime>, nulls: set<Column>)

  /** The columns of the frame built from the records. */
  datatype Column = DateCol | SideCol | SymbolCol | QuantityCol | PriceCol | FeeCol | SequenceCol | DateTimeCol

  /** Whether the record has the key `c`, with a value or a null. */
  predicate HasField(r: TradeRecord, c: Column)
  {
    c in r.nulls ||
    match c
    case DateCol => r.date.Some?
    case SideCol => r.side.Some?
    case SymbolCol => r.symbol.Some?
    case QuantityCol => r.quantity.Some?
    case PriceCol => r.price.Some?
    case FeeCol => r.fee.Some?
    case SequenceCol => r.sequence.Some?
    case DateTimeCol => r.datetime.Some?
  }

  /** A frame built from records has a column exactly when some record has that key. */
  predicate HasColumn(records: seq<TradeRecord>, c: Column)
  {
    exists i :: 0 <= i < |records| && HasField(records[i], c)
  }

  /** A frame with no column at all is empty, whatever the number of records. */
  predicate NoColumns(records: seq<TradeRecord>)
  {
    forall c: Column :: !HasColumn(records, c)
  }

  /** Why `compute_daily_pnl_records` raises. */
  datatype PnlError =
    | MissingDateOrSide
    | MissingFields(names: seq<string>)
    | NoDailyRows

  /** The required columns that no record has, in sorted order. */
  function MissingRequired(records: seq<TradeRecord>): (names: seq<string>)
    ensures ("price" in names <==> !HasColumn(records, PriceCol))
    ensures ("quantity" in names <==> !HasColumn(records, QuantityCol))
    ensures ("symbol" in names <==> !HasColumn(records, SymbolCol))
    ensures forall i :: 0 <= i < |names| ==> names[i] in {"price", "quantity", "symbol"}
  {
    (if HasColumn(records, PriceCol) then [] else ["price"]) +
    (if HasColumn(records, QuantityCol) then [] else ["quantity"]) +
    (if HasColumn(records, SymbolCol) then [] else ["symbol"])
  }

  /** The text of the `ValueError`. */
  function ErrorMessage(e: PnlError): string
  {
    match e
    case MissingDateOrSide => "records require 'date' and 'side' fields"
    case MissingFields(names) => "records missing required fields: " + Join(names, ", ")
    case NoDailyRows => "total_pl"
  }

  /**
   * A record once the frame is prepared: side and symbol upper-cased, the
   * sequence defaulted to 0, the fee defaulted to 0.
   */
  datatype Row = Row(
    date: Option<Date>, side: Option<string>, symbol: Option<string>,
    quantity: Option<real>, price: Option<real>, fee: real, sequence: int, datetime: Option<DateTime>)

  function UpperOpt(s: Option<string>): Option<string>
  {
    match s
    case None => None
    case Some(t) => Some(Upper(t))
  }

  function Normalize(r: TradeRecord): (row: Row)
    ensures row.date == r.date && row.datetime == r.datetime
    ensures row.side == UpperOpt(r.side) && row.symbol == UpperOpt(r.symbol)
    ensures row.sequence == r.sequence.GetOr(0) && row.fee == r.fee.GetOr(0.0)
  {
    Row(r.date, UpperOpt(r.side), UpperOpt(r.symbol), r.quantity, r.price, r.fee.GetOr(0.0), r.sequence.GetOr(0), r.datetime)
  }

  function NormalizeAll(records: seq<TradeRecord>): (rows: seq<Row>)
    ensures |rows| == |records| && forall i :: 0 <= i < |records| ==> rows[i] == Normalize(records[i])
  {
    seq(|records|, i requires 0 <= i < |records| => Normalize(records[i]))
  }

  // ----- the sort order -------------------------------------------------

  /** Missing values sort last, as pandas puts NaT and NaN last. */
  predicate OptDateLe(a: Option<Date>, b: Option<Date>)
  {
    match a
    case None => b.None?
    case Some(x) => b.None? || DateLe(x, b.value)
  }

  predicate OptDateTimeLe(a: Option<DateTime>, b: Option<DateTime>)
  {
    match a
    case None => b.None?
    case Some(x) => b.None? || DateTimeLe(x, b.value)
  }

  predicate OptStringLe(a: Option<string>, b: Option<string>)
  {
    match a
    case None => b.None?
    case Some(x) => b.None? || LexLessEq(x, b.value)
  }

  /** `sort_values(["date", "sequence", "_trade_dt", "symbol"])`: lexicographic on the four keys. */
  predicate KeyLe(a: Row, b: Row)
  {
    if a.date != b.date then OptDateLe(a.date, b.date)
    else if a.sequence != b.sequence then a.sequence < b.sequence
    else if a.datetime != b.datetime then OptDateTimeLe(a.datetime, b.datetime)
    else OptStringLe(a.symbol, b.symbol)
  }

  predicate Sorted(rows: seq<Row>)
  {
    forall i :: 0 <= i < |rows| - 1 ==> KeyLe(rows[i], rows[i + 1])
  }

  /** Insert `x` before the first row it does not sort after, so earlier rows stay ahead of equal ones. */
  function Insert(x: Row, rows: seq<Row>): (r: seq<Row>)
    ensures multiset(r) == multiset(rows) + multiset{x}
    ensures |r| == |rows| + 1
    ensures r[0] == x || (rows != [] && r[0] == rows[0])
  {
    if rows == [] || KeyLe(x, rows[0]) then [x] + rows
    else
      assert rows == [rows[0]] + rows[1..];
      [rows[0]] + Insert(x, rows[1..])
  }

  /** A stable sort on the four keys. */
  function SortRows(rows: seq<Row>): (r: seq<Row>)
    ensures multiset(r) == multiset(rows)
    ensures |r| == |rows|
  {
    if rows == [] then []
    else
      assert rows == [rows[0]] + rows[1..];
      Insert(rows[0], SortRows(rows[1..]))
  }

  // ----- days -----------------------------------------------------------

  function Dated(rows: seq<Row>): (r: seq<Row>)
    ensures forall i :: 0 <= i < |r| ==> r[i].date.Some?
    ensures |r| <= |rows|
  {
    if rows == [] then []
    else if rows[0].date.Some? then [rows[0]] + Dated(rows[1..])
    else Dated(rows[1..])
  }

  /** One trading day: its date and its trades in processing order. */
  datatype DayGroup = DayGroup(date: Date, trades: seq<Row>)

  predicate AllDated(rows: seq<Row>)
  {
    forall i :: 0 <= i < |rows| ==> rows[i].date.Some?
  }

  /** `groupby("date")` over rows already in date order: the maximal runs of one date. */
  function GroupByDate(rows: seq<Row>): (groups: seq<DayGroup>)
    requires AllDated(rows)
    ensures rows == [] <==> groups == []
    ensures groups != [] ==> groups[0].date == rows[0].date.value
  {
    if rows == [] then []
    else
      var rest := GroupByDate(rows[1..]);
      if rest != [] && rest[0].date == rows[0].date.value
      then [DayGroup(rest[0].date, [rows[0]] + rest[0].trades)] + rest[1..]
      else [DayGroup(rows[0].date.value, [rows[0]])] + rest
  }

  /**
   * The key a row's position is filed under: its upper-cased symbol, or the
   * one missing-value key that every row without a symbol shares.
   */
  type SymbolKey = Option<string>

  /** The positions of all symbols traded so far. */
  type Positions = map<SymbolKey, PositionState>

  /** Whether the loop of `compute_daily_pnl_records` hands a row to `apply_trade`. */
  predicate Applies(t: Row)
  {
    t.quantity.Some? && t.quantity.value > 0.0 && t.price.Some? &&
    (t.side == Some("BUY") || t.side == Some("SELL"))
  }

  /** The positions and running totals after some of a day's trades. */
  datatype DayState = DayState(positions: Positions, realized: real, tradeValue: real)

  /** `apply_trade` on the row's symbol: its position so far (a new one if unseen), side, quantity, price and fee. */
  function TradeOutcome(positions: Positions, t: Row, methodName: string): (PositionState, real)
    requires Applies(t)
  {
    ApplySpec(Prior(positions, t.symbol), t.side.value, t.quantity.value, t.price.value, Some(t.fee), Some(methodName))
  }

  /** The traded value of a row, `qty * price` (0 for a row without both). */
  function Notional(t: Row): real
  {
    t.quantity.GetOr(0.0) * t.price.GetOr(0.0)
  }

  /** One trade of the day loop: apply it to its symbol's position and add up. */
  function TradeStep(s: DayState, t: Row, methodName: string): DayState
  {
    if !Applies(t) then s
    else
      var r := TradeOutcome(s.positions, t, methodName);
      DayState(s.positions[t.symbol := r.0], s.realized + r.1, s.tradeValue + Notional(t))
  }

  /** The day loop over `trades`, from `s`. */
  function RunTrades(s: DayState, trades: seq<Row>, methodName: string): DayState
  {
    if trades == [] then s
    else TradeStep(RunTrades(s, trades[..|trades| - 1], methodName), trades[|trades| - 1], methodName)
  }

  /** A day's row before the running total: date, realised, traded value and total. */
  datatype DayRow = DayRow(date: Date, realized: real, tradeValue: real, total: real)

  /** One output row of `compute_daily_pnl_records`. */
  datatype DailyRow = DailyRow(date: Date, realizedPl: real, tradeValue: real, totalPl: real, cumulativePl: real)

  /** One iteration of the outer loop: the day's totals from fresh zero totals, positions carried over. */
  function DayStep(positions: Positions, g: DayGroup, methodName: string): (Positions, DayRow)
  {
    var d := RunTrades(DayState(positions, 0.0, 0.0), g.trades, methodName);
    (d.positions, DayRow(g.date, d.realized, d.tradeValue, d.realized))
  }

  /** The outer loop over the days. */
  function RunDays(positions: Positions, groups: seq<DayGroup>, methodName: string): (r: (Positions, seq<DayRow>))
    ensures |r.1| == |groups|
    ensures forall i :: 0 <= i < |groups| ==> r.1[i].date == groups[i].date && r.1[i].total == r.1[i].realized
  {
    if groups == [] then (positions, [])
    else
      var before := RunDays(positions, groups[..|groups| - 1], methodName);
      var step := DayStep(before.0, groups[|groups| - 1], methodName);
      (step.0, before.1 + [step.1])
  }

  function Totals(days: seq<DayRow>): (r: seq<real>)
    ensures |r| == |days| && forall i :: 0 <= i < |days| ==> r[i] == days[i].total
  {
    seq(|days|, i requires 0 <= i < |days| => days[i].total)
  }

  /** `daily_df["cumulative_pl"] = daily_df["total_pl"].cumsum()`. */
  function WithCumulative(days: seq<DayRow>): (rows: seq<DailyRow>)
    ensures |rows| == |days|
  {
    var cum := CumSum(Totals(days));
    seq(|days|, i requires 0 <= i < |days| =>
      DailyRow(days[i].date, days[i].realized, days[i].tradeValue, days[i].total, cum[i]))
  }

  /** The days of a record list: its dated rows in sort order, grouped by date. */
  function Days(records: seq<TradeRecord>): seq<DayGroup>
  {
    GroupByDate(Dated(SortRows(NormalizeAll(records))))
  }

  /** `compute_daily_pnl_records` as a value. */
  function DailyPnl(records: seq<TradeRecord>, methodName: string): Result<seq<DailyRow>, PnlError>
  {
    if records == [] || NoColumns(records) then Ok([])
    else if !HasColumn(records, DateCol) || !HasColumn(records, SideCol) then Err(MissingDateOrSide)
    else if MissingRequired(records) != [] then Err(MissingFields(MissingRequired(records)))
    else
      if Days(records) == [] then Err(NoDailyRows) else Ok(RowsOf(records, methodName))
  }

  // ----- the sort order, proved -----------------------------------------

  /** Any two rows are ordered one way or the other. */
  lemma KeyLeTotal(a: Row, b: Row)
    ensures KeyLe(a, b) || KeyLe(b, a)
  {
    if a.date == b.date && a.sequence == b.sequence && a.datetime == b.datetime && a.symbol.Some? && b.symbol.Some? {
      LexTotal(a.symbol.value, b.symbol.value);
    }
  }

  lemma {:induction false} InsertSorted(x: Row, rows: seq<Row>)
    requires Sorted(rows)
    ensures Sorted(Insert(x, rows))
  {
    if rows != [] && !KeyLe(x, rows[0]) {
      KeyLeTotal(x, rows[0]);
      assert Sorted(rows[1..]) by {
        forall i | 0 <= i < |rows[1..]| - 1 ensures KeyLe(rows[1..][i], rows[1..][i + 1]) {
          assert KeyLe(rows[i + 1], rows[i + 2]);
        }
      }
      InsertSorted(x, rows[1..]);
    }
  }

  /** `sort_values` puts the rows in (date, sequence, timestamp, symbol) order, keeping every row. */
  lemma {:induction false} SortRowsSorted(rows: seq<Row>)
    ensures Sorted(SortRows(rows)) && multiset(SortRows(rows)) == multiset(rows)
  {
    if rows != [] {
      SortRowsSorted(rows[1..]);
      InsertSorted(rows[0], SortRows(rows[1..]));
    }
  }

  lemma SortedTail(rows: seq<Row>)
    requires Sorted(rows) && rows != []
    ensures Sorted(rows[1..])
  {
    forall i | 0 <= i < |rows[1..]| - 1 ensures KeyLe(rows[1..][i], rows[1..][i + 1]) {
      assert KeyLe(rows[i + 1], rows[i + 2]);
    }
  }

  /** Once a row without a date appears in sort order, no dated row follows (NaT sorts last). */
  lemma {:induction false} UndatedTail(rows: seq<Row>)
    requires Sorted(rows) && rows != [] && rows[0].date.None?
    ensures Dated(rows) == []
    decreases |rows|
  {
    if |rows| > 1 {
      assert KeyLe(rows[0], rows[1]);
      SortedTail(rows);
      UndatedTail(rows[1..]);
    }
  }

  /** Non-decreasing dates, every row dated. */
  predicate DateAscending(rows: seq<Row>)
  {
    AllDated(rows) && forall i :: 0 <= i < |rows| - 1 ==> DateLe(rows[i].date.value, rows[i + 1].date.value)
  }

  /** The dated rows of a sorted frame come in date order. */
  lemma {:induction false} DatedAscending(rows: seq<Row>)
    requires Sorted(rows)
    ensures DateAscending(Dated(rows))
    decreases |rows|
  {
    if rows != [] {
      SortedTail(rows);
      DatedAscending(rows[1..]);
      if rows[0].date.Some? && |rows| > 1 {
        assert KeyLe(rows[0], rows[1]);
        if rows[1].date.None? {
          UndatedTail(rows[1..]);
        } else {
          assert Dated(rows[1..])[0] == rows[1];
        }
      }
    }
  }

  // ----- the days, proved -----------------------------------------------

  /** The trades of the groups, one group after the other. */
  function Flatten(groups: seq<DayGroup>): seq<Row>
  {
    if groups == [] then [] else groups[0].trades + Flatten(groups[1..])
  }

  lemma {:induction false} FlattenAppend(a: seq<DayGroup>, b: seq<DayGroup>)
    ensures Flatten(a + b) == Flatten(a) + Flatten(b)
    decreases |a|
  {
    if a == [] {
      assert a + b == b;
    } else {
      assert (a + b)[0] == a[0] && (a + b)[1..] == a[1..] + b;
      FlattenAppend(a[1..], b);
      assert Flatten(a + b) == a[0].trades + (Flatten(a[1..]) + Flatten(b));
    }
  }

  /** A group is a non-empty run of trades all of its date. */
  predicate Uniform(g: DayGroup)
  {
    g.trades != [] && forall i :: 0 <= i < |g.trades| ==> g.trades[i].date == Some(g.date)
  }

  /** Strictly increasing group dates, so no date has two groups. */
  predicate Ascending(groups: seq<DayGroup>)
  {
    forall i :: 0 <= i < |groups| - 1 ==> DateBefore(groups[i].date, groups[i + 1].date)
  }

  /** Reading the groups in order gives back the rows. */
  lemma {:induction false} GroupByDateFlatten(rows: seq<Row>)
    requires AllDated(rows)
    ensures Flatten(GroupByDate(rows)) == rows
    decreases |rows|
  {
    if rows != [] {
      var rest := GroupByDate(rows[1..]);
      GroupByDateFlatten(rows[1..]);
      assert rows == [rows[0]] + rows[1..];
      if rest != [] && rest[0].date == rows[0].date.value {
        assert Flatten(rest) == rest[0].trades + Flatten(rest[1..]);
        var merged := [DayGroup(rest[0].date, [rows[0]] + rest[0].trades)] + rest[1..];
        assert merged[1..] == rest[1..];
      } else {
        var opening := [DayGroup(rows[0].date.value, [rows[0]])] + rest;
        assert opening[1..] == rest;
      }
    }
  }

  /** Each group is a non-empty run of trades of its own date. */
  lemma {:induction false} GroupByDateUniform(rows: seq<Row>)
    requires AllDated(rows)
    ensures forall i :: 0 <= i < |GroupByDate(rows)| ==> Uniform(GroupByDate(rows)[i])
    decreases |rows|
  {
    if rows != [] {
      var rest := GroupByDate(rows[1..]);
      GroupByDateUniform(rows[1..]);
      if rest != [] && rest[0].date == rows[0].date.value {
        var merged := [DayGroup(rest[0].date, [rows[0]] + rest[0].trades)] + rest[1..];
        assert Uniform(rest[0]);
        assert forall i :: 1 <= i < |merged| ==> merged[i] == rest[i];
      } else {
        var opening := [DayGroup(rows[0].date.value, [rows[0]])] + rest;
        assert forall i :: 1 <= i < |opening| ==> opening[i] == rest[i - 1];
      }
    }
  }

  /** On rows in date order the group dates strictly increase. */
  lemma {:induction false} GroupByDateAscending(rows: seq<Row>)
    requires DateAscending(rows)
    ensures Ascending(GroupByDate(rows))
    decreases |rows|
  {
    if rows != [] {
      var rest := GroupByDate(rows[1..]);
      assert DateAscending(rows[1..]) by {
        assert forall i :: 0 <= i < |rows[1..]| ==> rows[1..][i] == rows[i + 1];
      }
      GroupByDateAscending(rows[1..]);
      if rest != [] && rest[0].date == rows[0].date.value {
        var merged := [DayGroup(rest[0].date, [rows[0]] + rest[0].trades)] + rest[1..];
        assert forall i :: 1 <= i < |merged| ==> merged[i] == rest[i];
      } else {
        if rest != [] {
          assert DateLe(rows[0].date.value, rows[1].date.value);
        }
        var opening := [DayGroup(rows[0].date.value, [rows[0]])] + rest;
        assert forall i :: 1 <= i < |opening| ==> opening[i] == rest[i - 1];
      }
    }
  }

  /**
   * `groupby("date", sort=True)` on rows in date order: the groups, read in
   * order, give back the rows; each is a non-empty run of one date; and the
   * dates strictly increase.
   */
  lemma GroupByDateSpec(rows: seq<Row>)
    requires DateAscending(rows)
    ensures Flatten(GroupByDate(rows)) == rows
    ensures forall i :: 0 <= i < |GroupByDate(rows)| ==> Uniform(GroupByDate(rows)[i])
    ensures Ascending(GroupByDate(rows))
  {
    GroupByDateFlatten(rows);
    GroupByDateUniform(rows);
    GroupByDateAscending(rows);
  }

  /** Where a trade of the flattened groups comes from. */
  lemma {:induction false} FlattenIndex(groups: seq<DayGroup>, j: nat) returns (i: nat, k: nat)
    requires j < |Flatten(groups)|
    ensures i < |groups| && k < |groups[i].trades| && Flatten(groups)[j] == groups[i].trades[k]
    decreases |groups|
  {
    var n := |groups[0].trades|;
    if j < n {
      i, k := 0, j;
    } else {
      var i', k' := FlattenIndex(groups[1..], j - n);
      i, k := i' + 1, k';
    }
  }

  /** Where a group's first trade sits in the flattened groups. */
  lemma {:induction false} FlattenFirst(groups: seq<DayGroup>, i: nat) returns (j: nat)
    requires i < |groups| && groups[i].trades != []
    ensures j < |Flatten(groups)| && Flatten(groups)[j] == groups[i].trades[0]
    decreases |groups|
  {
    if i == 0 {
      j := 0;
    } else {
      var j' := FlattenFirst(groups[1..], i - 1);
      j := j' + |groups[0].trades|;
    }
  }

  /** Every trade's date is a group's date, and every group's date is some trade's. */
  lemma FlattenDates(groups: seq<DayGroup>)
    requires forall i :: 0 <= i < |groups| ==> Uniform(groups[i])
    ensures forall j :: 0 <= j < |Flatten(groups)| ==> exists i :: 0 <= i < |groups| && Flatten(groups)[j].date == Some(groups[i].date)
    ensures forall i :: 0 <= i < |groups| ==> exists j :: 0 <= j < |Flatten(groups)| && Flatten(groups)[j].date == Some(groups[i].date)
  {
    var flat := Flatten(groups);
    forall j | 0 <= j < |flat| ensures exists i :: 0 <= i < |groups| && flat[j].date == Some(groups[i].date) {
      var g, k := FlattenIndex(groups, j);
      assert Uniform(groups[g]);
      assert flat[j].date == Some(groups[g].date);
    }
    forall i | 0 <= i < |groups| ensures exists j :: 0 <= j < |flat| && flat[j].date == Some(groups[i].date) {
      assert Uniform(groups[i]);
      var w := FlattenFirst(groups, i);
      assert flat[w].date == Some(groups[i].date);
    }
  }

  // ----- the fold, proved -----------------------------------------------

  lemma {:induction false} RunTradesConcat(s: DayState, a: seq<Row>, b: seq<Row>, methodName: string)
    ensures RunTrades(s, a + b, methodName) == RunTrades(RunTrades(s, a, methodName), b, methodName)
    decreases |b|
  {
    if b == [] {
      assert a + b == a;
    } else {
      var front := b[..|b| - 1];
      assert (a + b)[..|a + b| - 1] == a + front;
      assert (a + b)[|a + b| - 1] == b[|b| - 1];
      RunTradesConcat(s, a, front, methodName);
    }
  }

  /** Positions evolve the same whatever the running totals; the totals just add on. */
  lemma {:induction false} RunTradesShift(p: Positions, realized: real, tradeValue: real, trades: seq<Row>, methodName: string)
    ensures var z := RunTrades(DayState(p, 0.0, 0.0), trades, methodName);
      RunTrades(DayState(p, realized, tradeValue), trades, methodName) ==
      DayState(z.positions, realized + z.realized, tradeValue + z.tradeValue)
    decreases |trades|
  {
    if trades != [] {
      RunTradesShift(p, realized, tradeValue, trades[..|trades| - 1], methodName);
    }
  }

  /** The rows the day loop hands to `apply_trade`. */
  function AppliedRows(trades: seq<Row>): (r: seq<Row>)
    ensures forall i :: 0 <= i < |r| ==> Applies(r[i])
    ensures |r| <= |trades|
  {
    if trades == [] then []
    else AppliedRows(trades[..|trades| - 1]) + (if Applies(trades[|trades| - 1]) then [trades[|trades| - 1]] else [])
  }

  /** The rows the loop skips (a quantity not above zero, an unknown side, a missing quantity or price) change nothing. */
  lemma {:induction false} SkippedRowsIgnored(s: DayState, trades: seq<Row>, methodName: string)
    ensures RunTrades(s, trades, methodName) == RunTrades(s, AppliedRows(trades), methodName)
    decreases |trades|
  {
    if trades != [] {
      var front := trades[..|trades| - 1];
      var last := trades[|trades| - 1];
      SkippedRowsIgnored(s, front, methodName);
      RunTradesConcat(s, AppliedRows(front), if Applies(last) then [last] else [], methodName);
      if Applies(last) {
        assert ([last])[..0] == [];
      }
    }
  }

  /** The traded values `qty * price` of some rows. */
  function Notionals(rows: seq<Row>): seq<real>
  {
    seq(|rows|, i requires 0 <= i < |rows| => Notional(rows[i]))
  }

  /** A day's traded value is the sum of `qty * price` over the trades the loop applies. */
  lemma {:induction false} DayTradeValue(p: Positions, trades: seq<Row>, methodName: string)
    ensures RunTrades(DayState(p, 0.0, 0.0), trades, methodName).tradeValue == SumReals(Notionals(AppliedRows(trades)))
    decreases |trades|
  {
    if trades != [] {
      var front := trades[..|trades| - 1];
      var last := trades[|trades| - 1];
      DayTradeValue(p, front, methodName);
      if Applies(last) {
        assert Notionals(AppliedRows(trades)) == Notionals(AppliedRows(front)) + [Notional(last)];
        SumRealsAppend(Notionals(AppliedRows(front)), Notional(last));
      } else {
        assert AppliedRows(trades) == AppliedRows(front);
      }
    }
  }

  /** Every position has the lot invariant of the matching engine. */
  predicate AllWellFormed(p: Positions)
  {
    forall k :: k in p ==> WellFormed(p[k])
  }

  lemma TradeOutcomeWellFormed(positions: Positions, t: Row, methodName: string)
    requires AllWellFormed(positions) && Applies(t)
    ensures WellFormed(TradeOutcome(positions, t, methodName).0)
  {
    var prior := Prior(positions, t.symbol);
    PriorWellFormed(positions, t.symbol);
    ApplyWellFormed(prior, t.side.value, t.quantity.value, t.price.value, Some(t.fee), Some(methodName));
  }

  /** The position `setdefault` hands to `apply_trade`: the symbol's own, or a fresh one. */
  function Prior(positions: Positions, symbol: SymbolKey): PositionState
  {
    if symbol in positions then positions[symbol] else CreatePosition()
  }

  lemma PriorWellFormed(positions: Positions, symbol: SymbolKey)
    requires AllWellFormed(positions)
    ensures WellFormed(Prior(positions, symbol))
  {
    if symbol !in positions {
      CreatePositionWellFormed();
    }
  }

  lemma TradeStepWellFormed(s: DayState, t: Row, methodName: string)
    requires AllWellFormed(s.positions)
    ensures AllWellFormed(TradeStep(s, t, methodName).positions)
  {
    if Applies(t) {
      TradeOutcomeWellFormed(s.positions, t, methodName);
      UpdateWellFormed(s.positions, t.symbol, TradeOutcome(s.positions, t, methodName).0);
    }
  }

  lemma UpdateWellFormed(p: Positions, symbol: SymbolKey, x: PositionState)
    requires AllWellFormed(p) && WellFormed(x)
    ensures AllWellFormed(p[symbol := x])
  {
  }

  /** The day loop keeps the lot invariant of every position. */
  lemma {:induction false} RunTradesWellFormed(s: DayState, trades: seq<Row>, methodName: string)
    requires AllWellFormed(s.positions)
    ensures AllWellFormed(RunTrades(s, trades, methodName).positions)
    decreases |trades|
  {
    if trades != [] {
      RunTradesWellFormed(s, trades[..|trades| - 1], methodName);
      TradeStepWellFormed(RunTrades(s, trades[..|trades| - 1], methodName), trades[|trades| - 1], methodName);
    }
  }

  /**
   * Positions carry over from one day to the next: the outer loop ends with
   * the positions of one pass over all the days' trades in order, and the
   * day totals add up to that pass's realised profit.
   */
  lemma {:induction false} CarryOver(p: Positions, groups: seq<DayGroup>, methodName: string)
    ensures var z := RunTrades(DayState(p, 0.0, 0.0), Flatten(groups), methodName);
      RunDays(p, groups, methodName).0 == z.positions &&
      SumReals(Totals(RunDays(p, groups, methodName).1)) == z.realized
    decreases |groups|
  {
    if groups != [] {
      var front := groups[..|groups| - 1];
      assert groups == front + [groups[|groups| - 1]];
      CarryOver(p, front, methodName);
      CarryStep(p, front, groups[|groups| - 1], methodName,
                RunTrades(DayState(p, 0.0, 0.0), Flatten(front), methodName), RunDays(p, front, methodName));
    }
  }

  /** The step of `CarryOver`: one more day after days already carried over. */
  lemma CarryStep(p: Positions, front: seq<DayGroup>, last: DayGroup, methodName: string,
                  zf: DayState, before: (Positions, seq<DayRow>))
    requires zf == RunTrades(DayState(p, 0.0, 0.0), Flatten(front), methodName)
    requires before == RunDays(p, front, methodName)
    requires before.0 == zf.positions && SumReals(Totals(before.1)) == zf.realized
    ensures var z := RunTrades(DayState(p, 0.0, 0.0), Flatten(front + [last]), methodName);
      RunDays(p, front + [last], methodName).0 == z.positions &&
      SumReals(Totals(RunDays(p, front + [last], methodName).1)) == z.realized
  {
    FlattenSnoc(front, last);
    var w := RunTrades(DayState(zf.positions, 0.0, 0.0), last.trades, methodName);
    RunTradesConcat(DayState(p, 0.0, 0.0), Flatten(front), last.trades, methodName);
    RunTradesShift(zf.positions, zf.realized, zf.tradeValue, last.trades, methodName);
    assert zf == DayState(zf.positions, zf.realized, zf.tradeValue);
    var row := DayRow(last.date, w.realized, w.tradeValue, w.realized);
    RunDaysSnoc(p, front, last, methodName, before, (w.positions, row));
    TotalsSnoc(before.1, row);
    SumRealsAppend(Totals(before.1), row.total);
  }

  /** The trades of one more day follow the earlier days' trades. */
  lemma FlattenSnoc(front: seq<DayGroup>, last: DayGroup)
    ensures Flatten(front + [last]) == Flatten(front) + last.trades
  {
    FlattenAppend(front, [last]);
    assert Flatten([last]) == last.trades + Flatten([]);
  }

  /** The outer loop over one more day. */
  lemma RunDaysSnoc(p: Positions, front: seq<DayGroup>, last: DayGroup, methodName: string,
                    before: (Positions, seq<DayRow>), step: (Positions, DayRow))
    requires before == RunDays(p, front, methodName) && step == DayStep(before.0, last, methodName)
    ensures RunDays(p, front + [last], methodName) == (step.0, before.1 + [step.1])
  {
    assert (front + [last])[..|front + [last]| - 1] == front;
  }

  /** The day totals of one more row. */
  lemma TotalsSnoc(days: seq<DayRow>, row: DayRow)
    ensures Totals(days + [row]) == Totals(days) + [row.total]
  {
  }


  /** The running total is a running total: it starts at the first day's total and adds each day's. */
  lemma CumulativeIsRunningTotal(days: seq<DayRow>)
    ensures var rows := WithCumulative(days);
      (forall i :: 0 <= i < |days| ==>
        rows[i].date == days[i].date && rows[i].realizedPl == days[i].realized &&
        rows[i].tradeValue == days[i].tradeValue && rows[i].totalPl == days[i].total) &&
      (days != [] ==> rows[0].cumulativePl == days[0].total) &&
      (forall i :: 0 < i < |days| ==> rows[i].cumulativePl == rows[i - 1].cumulativePl + days[i].total) &&
      (days != [] ==> rows[|days| - 1].cumulativePl == SumReals(Totals(days)))
  {
    var totals := Totals(days);
    var rows := WithCumulative(days);
    if days != [] {
      assert totals[..1] == [] + [totals[0]];
      SumRealsAppend([], totals[0]);
      assert totals[..|days|] == totals;
    }
    forall i | 0 < i < |days| ensures rows[i].cumulativePl == rows[i - 1].cumulativePl + days[i].total {
      assert totals[..i + 1] == totals[..i] + [totals[i]];
      SumRealsAppend(totals[..i], totals[i]);
    }
  }

  // ----- the whole computation, proved ----------------------------------

  /** The dated rows are exactly the rows that have a date. */
  lemma {:induction false} DatedMembers(rows: seq<Row>)
    ensures forall x :: x in Dated(rows) <==> x in rows && x.date.Some?
    decreases |rows|
  {
    if rows != [] {
      DatedMembers(rows[1..]);
      assert rows == [rows[0]] + rows[1..];
    }
  }

  /** Where a dated record lands among the dated sorted rows. */
  lemma DatedPlace(records: seq<TradeRecord>, j: nat) returns (k: nat)
    requires j < |records| && records[j].date.Some?
    ensures var dated := Dated(SortRows(NormalizeAll(records)));
      k < |dated| && dated[k] == Normalize(records[j])
  {
    var rows := NormalizeAll(records);
    var sorted := SortRows(rows);
    DatedMembers(sorted);
    assert rows[j] in multiset(rows);
    assert rows[j] in Dated(sorted);
    k :| k < |Dated(sorted)| && Dated(sorted)[k] == rows[j];
  }

  /** Which record a dated sorted row comes from. */
  lemma DatedSource(records: seq<TradeRecord>, k: nat) returns (j: nat)
    requires k < |Dated(SortRows(NormalizeAll(records)))|
    ensures var dated := Dated(SortRows(NormalizeAll(records)));
      j < |records| && dated[k] == Normalize(records[j]) && records[j].date.Some?
  {
    var rows := NormalizeAll(records);
    var sorted := SortRows(rows);
    var x := Dated(sorted)[k];
    DatedMembers(sorted);
    assert x in Dated(sorted);
    assert x in multiset(sorted);
    j :| j < |rows| && rows[j] == x;
  }

  /** The days of the records: in date order, each a non-empty run of one date, together the dated rows. */
  lemma DaysFacts(records: seq<TradeRecord>)
    ensures var dated := Dated(SortRows(NormalizeAll(records)));
      var groups := Days(records);
      Flatten(groups) == dated && Ascending(groups) && forall i :: 0 <= i < |groups| ==> Uniform(groups[i])
  {
    var sorted := SortRows(NormalizeAll(records));
    SortRowsSorted(NormalizeAll(records));
    DatedAscending(sorted);
    GroupByDateSpec(Dated(sorted));
  }

  /** The output rows before the error checks: one per day. */
  function RowsOf(records: seq<TradeRecord>, methodName: string): seq<DailyRow>
  {
    WithCumulative(RunDays(map[], Days(records), methodName).1)
  }

  lemma RowsAscending(records: seq<TradeRecord>, methodName: string)
    ensures var rows := RowsOf(records, methodName);
      forall i :: 0 <= i < |rows| - 1 ==> DateBefore(rows[i].date, rows[i + 1].date)
  {
    DaysFacts(records);
    CumulativeIsRunningTotal(RunDays(map[], Days(records), methodName).1);
  }

  lemma RowsFromRecords(records: seq<TradeRecord>, methodName: string)
    ensures var rows := RowsOf(records, methodName);
      forall i :: 0 <= i < |rows| ==> exists j :: 0 <= j < |records| && records[j].date == Some(rows[i].date)
  {
    var groups := Days(records);
    var rows := RowsOf(records, methodName);
    DaysFacts(records);
    CumulativeIsRunningTotal(RunDays(map[], groups, methodName).1);
    forall i | 0 <= i < |rows| ensures exists j :: 0 <= j < |records| && records[j].date == Some(rows[i].date) {
      assert Uniform(groups[i]);
      var k := FlattenFirst(groups, i);
      var j := DatedSource(records, k);
      assert records[j].date == Some(rows[i].date);
    }
  }

  lemma RecordsInRows(records: seq<TradeRecord>, methodName: string)
    ensures var rows := RowsOf(records, methodName);
      forall j :: 0 <= j < |records| && records[j].date.Some? ==> exists i :: 0 <= i < |rows| && Some(rows[i].date) == records[j].date
  {
    var groups := Days(records);
    var rows := RowsOf(records, methodName);
    DaysFacts(records);
    CumulativeIsRunningTotal(RunDays(map[], groups, methodName).1);
    forall j | 0 <= j < |records| && records[j].date.Some? ensures exists i :: 0 <= i < |rows| && Some(rows[i].date) == records[j].date {
      var k := DatedPlace(records, j);
      var i, t := FlattenIndex(groups, k);
      assert Uniform(groups[i]);
      assert Some(rows[i].date) == records[j].date;
    }
  }

  lemma RowsFinalTotal(records: seq<TradeRecord>, methodName: string)
    ensures var rows := RowsOf(records, methodName);
      rows != [] ==>
      rows[|rows| - 1].cumulativePl == RunTrades(DayState(map[], 0.0, 0.0), Dated(SortRows(NormalizeAll(records))), methodName).realized
  {
    DaysFacts(records);
    CumulativeIsRunningTotal(RunDays(map[], Days(records), methodName).1);
    CarryOver(map[], Days(records), methodName);
  }

  /**
   * What the output rows promise: one per trading day, dates strictly
   * increasing, every row's date some record's date and every record's
   * date some row's; the last running total is the realised profit of one
   * pass over all dated trades in sort order, positions carried across days.
   */
  predicate GoodRows(records: seq<TradeRecord>, rows: seq<DailyRow>, methodName: string)
  {
    (forall i :: 0 <= i < |rows| - 1 ==> DateBefore(rows[i].date, rows[i + 1].date)) &&
    (forall i :: 0 <= i < |rows| ==> exists j :: 0 <= j < |records| && records[j].date == Some(rows[i].date)) &&
    (forall j :: 0 <= j < |records| && records[j].date.Some? ==> exists i :: 0 <= i < |rows| && Some(rows[i].date) == records[j].date) &&
    (rows != [] ==>
      rows[|rows| - 1].cumulativePl == RunTrades(DayState(map[], 0.0, 0.0), Dated(SortRows(NormalizeAll(records))), methodName).realized)
  }

  lemma RowsOfGood(records: seq<TradeRecord>, methodName: string)
    ensures GoodRows(records, RowsOf(records, methodName), methodName)
  {
    RowsAscending(records, methodName);
    RowsFromRecords(records, methodName);
    RecordsInRows(records, methodName);
    RowsFinalTotal(records, methodName);
  }

  /** A frame without a date column has no dated record. */
  lemma NoDateColumn(records: seq<TradeRecord>)
    requires !HasColumn(records, DateCol)
    ensures forall j :: 0 <= j < |records| ==> records[j].date.None?
  {
    forall j | 0 <= j < |records| ensures records[j].date.None? {
      assert !HasField(records[j], DateCol);
    }
  }

  /** Every successful run returns rows with the promises of `GoodRows`. */
  lemma DailyPnlRows(records: seq<TradeRecord>, methodName: string)
    requires DailyPnl(records, methodName).Ok?
    ensures GoodRows(records, DailyPnl(records, methodName).value, methodName)
  {
    if records == [] || NoColumns(records) {
      assert DailyPnl(records, methodName).value == [];
      if records != [] {
        assert !HasColumn(records, DateCol);
        NoDateColumn(records);
      }
    } else {
      assert DailyPnl(records, methodName).value == RowsOf(records, methodName);
      RowsOfGood(records, methodName);
    }
  }

  /**
   * Once the columns pass the checks, the run fails with the `KeyError`
   * exactly when no record has a date (every date null).
   */
  lemma NoDailyRowsIff(records: seq<TradeRecord>, methodName: string)
    requires records != [] && !NoColumns(records)
    requires HasColumn(records, DateCol) && HasColumn(records, SideCol) && MissingRequired(records) == []
    ensures DailyPnl(records, methodName) == Err(NoDailyRows) <==> forall j :: 0 <= j < |records| ==> records[j].date.None?
  {
    var dated := Dated(SortRows(NormalizeAll(records)));
    if dated != [] {
      var j := DatedSource(records, 0);
    } else {
      forall j | 0 <= j < |records| ensures records[j].date.None? {
        if records[j].date.Some? {
          var k := DatedPlace(records, j);
        }
      }
    }
  }

  // ----- worked examples -------------------------------------------------

  /** A record as the tests write it: date, symbol, side, quantity and price, nothing else. */
  function Plain(d: Date, symbol: string, side: string, qty: real, price: real): TradeRecord
  {
    TradeRecord(Some(d), Some(side), Some(symbol), Some(qty), Some(price), None, None, None, {})
  }

  /** A test record is plain: every field the tests write, already upper-case, no fee, sequence or timestamp. */
  predicate IsPlain(r: TradeRecord)
  {
    r.date.Some? && r.side.Some? && r.symbol.Some? && r.quantity.Some? && r.price.Some? &&
    r.fee == None && r.sequence == None && r.datetime == None && r.nulls == {} &&
    Upper(r.side.value) == r.side.value && Upper(r.symbol.value) == r.symbol.value
  }

  /** The row of a plain record. */
  function PlainRow(r: TradeRecord): Row
  {
    Row(r.date, r.side, r.symbol, r.quantity, r.price, 0.0, 0, None)
  }

  /** Two plain records pass the column checks and normalise to their plain rows. */
  lemma PlainPair(a: TradeRecord, b: TradeRecord)
    requires IsPlain(a) && IsPlain(b)
    ensures !NoColumns([a, b]) && HasColumn([a, b], DateCol) && HasColumn([a, b], SideCol) && MissingRequired([a, b]) == []
    ensures NormalizeAll([a, b]) == [PlainRow(a), PlainRow(b)]
  {
    var records := [a, b];
    assert HasField(records[0], DateCol) && HasField(records[0], SideCol) && HasField(records[0], SymbolCol);
    assert HasField(records[0], QuantityCol) && HasField(records[0], PriceCol);
    assert HasColumn(records, PriceCol) && HasColumn(records, QuantityCol) && HasColumn(records, SymbolCol);
    assert NormalizeAll(records)[0] == PlainRow(a);
    assert NormalizeAll(records)[1] == PlainRow(b);
  }

  /** Two rows in key order stay in that order and, both dated, are the dated rows. */
  lemma PairSorted(ra: Row, rb: Row)
    requires KeyLe(ra, rb) && ra.date.Some? && rb.date.Some?
    ensures Dated(SortRows([ra, rb])) == [ra, rb]
  {
    assert [ra, rb][1..] == [rb];
    assert SortRows([rb]) == [rb];
    assert SortRows([ra, rb]) == Insert(ra, [rb]) == [ra, rb];
    assert [ra, rb][1..][1..] == [];
  }

  /** Two dated rows in date order make one day if their dates agree, two otherwise. */
  lemma PairGroups(ra: Row, rb: Row)
    requires ra.date.Some? && rb.date.Some?
    ensures GroupByDate([ra, rb]) ==
      if ra.date == rb.date then [DayGroup(ra.date.value, [ra, rb])]
      else [DayGroup(ra.date.value, [ra]), DayGroup(rb.date.value, [rb])]
  {
    assert [ra, rb][1..] == [rb] && [rb][1..] == [];
    var rest := GroupByDate([rb]);
    assert rest == [DayGroup(rb.date.value, [rb])];
    assert rest[1..] == [] && [ra] + rest[0].trades == [ra, rb];
  }

  /** Two plain records of one symbol in date order: their days. */
  lemma PlainDays(a: TradeRecord, b: TradeRecord)
    requires IsPlain(a) && IsPlain(b) && a.symbol == b.symbol && !DateBefore(b.date.value, a.date.value)
    ensures Days([a, b]) ==
      if a.date == b.date then [DayGroup(a.date.value, [PlainRow(a), PlainRow(b)])]
      else [DayGroup(a.date.value, [PlainRow(a)]), DayGroup(b.date.value, [PlainRow(b)])]
  {
    PlainPair(a, b);
    assert KeyLe(PlainRow(a), PlainRow(b));
    PairSorted(PlainRow(a), PlainRow(b));
    PairGroups(PlainRow(a), PlainRow(b));
  }

  lemma UpperSides()
    ensures Upper("BUY") == "BUY" && Upper("SELL") == "SELL"
  {
  }

  /** A fee-free trade under the default method, given `apply_trade`'s outcome on its symbol's position. */
  lemma DefaultStep(s: DayState, t: Row, prior: PositionState, outcome: (PositionState, real))
    requires Applies(t) && t.fee == 0.0
    requires prior == Prior(s.positions, t.symbol)
    requires ApplySpec(prior, t.side.value, t.quantity.value, t.price.value, None, None) == outcome
    ensures TradeStep(s, t, "fifo") ==
      DayState(s.positions[t.symbol := outcome.0], s.realized + outcome.1, s.tradeValue + Notional(t))
  {
    ApplyDefaults(prior, t.side.value, t.quantity.value, t.price.value);
  }

  lemma OneTrade(start: DayState, t: Row, finish: DayState)
    requires TradeStep(start, t, "fifo") == finish
    ensures RunTrades(start, [t], "fifo") == finish
  {
    assert [t][..0] == [];
  }

  lemma TwoTrades(ra: Row, rb: Row, start: DayState, middle: DayState, finish: DayState)
    requires TradeStep(start, ra, "fifo") == middle && TradeStep(middle, rb, "fifo") == finish
    ensures RunTrades(start, [ra, rb], "fifo") == finish
  {
    assert [ra, rb][..1] == [ra];
    OneTrade(start, ra, middle);
  }

  lemma OneDay(g: DayGroup, p0: Positions, p1: Positions, r: DayRow)
    requires DayStep(p0, g, "fifo") == (p1, r)
    ensures RunDays(p0, [g], "fifo") == (p1, [r])
  {
    assert [g][..0] == [] && [g][0] == g;
    var before := RunDays(p0, [], "fifo");
    assert before == (p0, []);
    assert DayStep(before.0, g, "fifo") == (p1, r);
    assert before.1 + [r] == [r];
  }

  lemma TwoDays(g1: DayGroup, g2: DayGroup, p0: Positions, p1: Positions, p2: Positions, r1: DayRow, r2: DayRow)
    requires DayStep(p0, g1, "fifo") == (p1, r1) && DayStep(p1, g2, "fifo") == (p2, r2)
    ensures RunDays(p0, [g1, g2], "fifo") == (p2, [r1, r2])
  {
    assert [g1, g2][..1] == [g1] && [g1, g2][1] == g2;
    OneDay(g1, p0, p1, r1);
    assert [r1] + [r2] == [r1, r2];
  }

  /** The row of a day whose trades end in state `s`. */
  function RowOf(g: DayGroup, s: DayState): DayRow
  {
    DayRow(g.date, s.realized, s.tradeValue, s.realized)
  }

  /** The outer loop over one day, given where the day's trades end. */
  lemma DayOfTrades(g: DayGroup, p0: Positions, s: DayState, row: DayRow)
    requires RunTrades(DayState(p0, 0.0, 0.0), g.trades, "fifo") == s
    requires row == RowOf(g, s)
    ensures RunDays(p0, [g], "fifo").1 == [row]
  {
    OneDay(g, p0, s.positions, row);
  }

  /** The outer loop over two days, given where each day's trades end. */
  lemma DaysOfTrades(g1: DayGroup, g2: DayGroup, p0: Positions, s1: DayState, s2: DayState, r1: DayRow, r2: DayRow)
    requires RunTrades(DayState(p0, 0.0, 0.0), g1.trades, "fifo") == s1
    requires RunTrades(DayState(s1.positions, 0.0, 0.0), g2.trades, "fifo") == s2
    requires r1 == RowOf(g1, s1) && r2 == RowOf(g2, s2)
    ensures RunDays(p0, [g1, g2], "fifo").1 == [r1, r2]
  {
    TwoDays(g1, g2, p0, s1.positions, s2.positions, r1, r2);
  }

  /** Output rows that are the running totals of one day's row. */
  lemma OneDayRows(records: seq<TradeRecord>, g: DayGroup, row: DayRow)
    requires DailyPnl(records, "fifo") == Ok(WithCumulative(RunDays(map[], [g], "fifo").1))
    requires RunDays(map[], [g], "fifo").1 == [row]
    ensures DailyPnl(records, "fifo") == Ok(CumulatedOne(row))
  {
    OneDayTotals(RunDays(map[], [g], "fifo").1, row);
  }

  /** The output of one day's row: its running total is its own total. */
  function CumulatedOne(r: DayRow): seq<DailyRow>
  {
    [DailyRow(r.date, r.realized, r.tradeValue, r.total, r.total)]
  }

  /** The output of two days' rows: the second running total adds both. */
  function CumulatedTwo(r1: DayRow, r2: DayRow): seq<DailyRow>
  {
    [DailyRow(r1.date, r1.realized, r1.tradeValue, r1.total, r1.total),
     DailyRow(r2.date, r2.realized, r2.tradeValue, r2.total, r1.total + r2.total)]
  }

  /** Output rows that are the running totals of two days' rows. */
  lemma TwoDayRows(records: seq<TradeRecord>, g1: DayGroup, g2: DayGroup, r1: DayRow, r2: DayRow)
    requires DailyPnl(records, "fifo") == Ok(WithCumulative(RunDays(map[], [g1, g2], "fifo").1))
    requires RunDays(map[], [g1, g2], "fifo").1 == [r1, r2]
    ensures DailyPnl(records, "fifo") == Ok(CumulatedTwo(r1, r2))
  {
    TwoDayTotals(RunDays(map[], [g1, g2], "fifo").1, r1, r2);
  }

  /** The running total of two days. */
  lemma TwoDayTotals(days: seq<DayRow>, r1: DayRow, r2: DayRow)
    requires days == [r1, r2]
    ensures WithCumulative(days) == CumulatedTwo(r1, r2)
  {
    var totals := Totals(days);
    assert totals == [r1.total, r2.total];
    assert totals[..1] == [r1.total] && [r1.total][..0] == [];
    assert totals[..2] == totals && totals[..1] == totals[..2][..1];
    var cum := CumSum(totals);
    assert cum[0] == SumReals(totals[..1]) == r1.total;
    assert cum[1] == SumReals(totals[..2]) == r1.total + r2.total;
  }

  lemma OneDayTotals(days: seq<DayRow>, r: DayRow)
    requires days == [r]
    ensures WithCumulative(days) == CumulatedOne(r)
  {
    var totals := Totals(days);
    assert totals == [r.total];
    assert totals[..1] == [r.total] && [r.total][..0] == [];
    var cum := CumSum(totals);
    assert cum[0] == SumReals(totals[..1]) == r.total;
  }

  /** The position a fee-free trade opens on a flat book. */
  function Opened(t: Row): PositionState
    requires Applies(t)
  {
    var q, p := t.quantity.value, t.price.value;
    if t.side.value == "BUY" then PositionState([Lot(q, p)], [], q, p, Some(p))
    else PositionState([], [Lot(q, p)], -q, p, Some(p))
  }

  /** A fee-free row of the given side, symbol, quantity and price, whatever its date. */
  predicate TradeOf(t: Row, side: string, symbol: SymbolKey, qty: real, price: real)
  {
    t.side == Some(side) && t.symbol == symbol && t.quantity == Some(qty) && t.price == Some(price) && t.fee == 0.0
  }

  /**
   * A fee-free trade on the one symbol held so far, given `apply_trade`'s
   * outcome on it; the states before and after are passed in so that callers
   * name them once.
   */
  lemma HeldStep(symbol: SymbolKey, held: PositionState, realized: real, value: real, t: Row,
                 side: string, q: real, p: real, outcome: (PositionState, real), start: DayState, finish: DayState)
    requires TradeOf(t, side, symbol, q, p) && q > 0.0 && (side == "BUY" || side == "SELL")
    requires ApplySpec(held, side, q, p, None, None) == outcome
    requires start == DayState(map[symbol := held], realized, value)
    requires finish == DayState(map[symbol := outcome.0], realized + outcome.1, value + q * p)
    ensures TradeStep(start, t, "fifo") == finish
  {
    assert t.symbol == symbol && t.side.value == side && t.quantity.value == q && t.price.value == p;
    assert Applies(t);
    assert Prior(start.positions, symbol) == held;
    DefaultStep(start, t, held, outcome);
    UpdateTwice(map[], symbol, held, outcome.0);
    NotionalOf(t, q, p);
  }

  /** The traded value of a row with a given quantity and price. */
  lemma NotionalOf(t: Row, q: real, p: real)
    requires t.quantity == Some(q) && t.price == Some(p)
    ensures Notional(t) == q * p
  {
  }

  /** A fee-free trade on a symbol not yet seen opens a position and realises nothing. */
  lemma OpenStep(s: DayState, t: Row)
    requires Applies(t) && t.fee == 0.0 && t.symbol !in s.positions
    ensures TradeStep(s, t, "fifo") == DayState(s.positions[t.symbol := Opened(t)], s.realized, s.tradeValue + Notional(t))
  {
    OpenFromFlat(t.side.value, t.quantity.value, t.price.value);
    DefaultStep(s, t, CreatePosition(), (Opened(t), 0.0));
  }

  /** A long lot of `q` at `p`, last traded at `p`. */
  function LongOf(q: real, p: real): PositionState
  {
    PositionState([Lot(q, p)], [], q, p, Some(p))
  }

  /** A short lot of `q` at `p`, last traded at `p`. */
  function ShortOf(q: real, p: real): PositionState
  {
    PositionState([], [Lot(q, p)], -q, p, Some(p))
  }

  /** A long lot of `q` bought at `cost`, last traded at `last`. */
  function LongAt(q: real, cost: real, last: real): PositionState
  {
    PositionState([Lot(q, cost)], [], q, cost, Some(last))
  }

  /** A short lot of `q` sold at `cost`, last traded at `last`. */
  function ShortAt(q: real, cost: real, last: real): PositionState
  {
    PositionState([], [Lot(q, cost)], -q, cost, Some(last))
  }

  /** A flat position last traded at `last`. */
  function FlatAt(last: real): PositionState
  {
    PositionState([], [], 0.0, 0.0, Some(last))
  }

  /** A fee-free SELL of `q2` out of a long lot of `q1 > q2`. */
  lemma ReduceStep(symbol: SymbolKey, q1: real, p1: real, q2: real, p2: real, realized: real, value: real, t: Row, start: DayState, finish: DayState)
    requires TradeOf(t, "SELL", symbol, q2, p2) && 0.0 < q2 < q1
    requires start == DayState(map[symbol := LongOf(q1, p1)], realized, value)
    requires finish == DayState(map[symbol := LongAt(q1 - q2, p1, p2)], realized + (p2 - p1) * q2, value + q2 * p2)
    ensures TradeStep(start, t, "fifo") == finish
  {
    PartialSell(Lot(q1, p1), q1, p1, Some(p1), q2, p2);
    assert ApplySpec(LongOf(q1, p1), "SELL", q2, p2, None, None).0 == LongAt(q1 - q2, p1, p2);
    assert ApplySpec(LongOf(q1, p1), "SELL", q2, p2, None, None).1 == (p2 - p1) * q2;
    HeldStep(symbol, LongOf(q1, p1), realized, value, t, "SELL", q2, p2, (LongAt(q1 - q2, p1, p2), (p2 - p1) * q2), start, finish);
  }

  /** A fee-free BUY of `q2` covering part of a short lot of `q1 > q2`. */
  lemma CoverStep(symbol: SymbolKey, q1: real, p1: real, q2: real, p2: real, realized: real, value: real, t: Row, start: DayState, finish: DayState)
    requires TradeOf(t, "BUY", symbol, q2, p2) && 0.0 < q2 < q1
    requires start == DayState(map[symbol := ShortOf(q1, p1)], realized, value)
    requires finish == DayState(map[symbol := ShortAt(q1 - q2, p1, p2)], realized + (p1 - p2) * q2, value + q2 * p2)
    ensures TradeStep(start, t, "fifo") == finish
  {
    PartialCover(Lot(q1, p1), -q1, p1, Some(p1), q2, p2);
    assert ApplySpec(ShortOf(q1, p1), "BUY", q2, p2, None, None).0 == ShortAt(q1 - q2, p1, p2);
    assert ApplySpec(ShortOf(q1, p1), "BUY", q2, p2, None, None).1 == (p1 - p2) * q2;
    HeldStep(symbol, ShortOf(q1, p1), realized, value, t, "BUY", q2, p2, (ShortAt(q1 - q2, p1, p2), (p1 - p2) * q2), start, finish);
  }

  /** A fee-free SELL of the whole of a long lot. */
  lemma CloseStep(symbol: SymbolKey, q: real, p1: real, p2: real, realized: real, value: real, t: Row, start: DayState, finish: DayState)
    requires TradeOf(t, "SELL", symbol, q, p2) && q > 0.0
    requires start == DayState(map[symbol := LongOf(q, p1)], realized, value)
    requires finish == DayState(map[symbol := FlatAt(p2)], realized + (p2 - p1) * q, value + q * p2)
    ensures TradeStep(start, t, "fifo") == finish
  {
    FullSell(Lot(q, p1), q, p1, Some(p1), p2);
    assert ApplySpec(LongOf(q, p1), "SELL", q, p2, None, None).0 == FlatAt(p2);
    assert ApplySpec(LongOf(q, p1), "SELL", q, p2, None, None).1 == (p2 - p1) * q;
    HeldStep(symbol, LongOf(q, p1), realized, value, t, "SELL", q, p2, (FlatAt(p2), (p2 - p1) * q), start, finish);
  }

  /** A fee-free BUY of `q` at `p` on a flat book opens a long lot and realises nothing. */
  lemma BuyFromFlat(t: Row, symbol: SymbolKey, q: real, p: real)
    requires TradeOf(t, "BUY", symbol, q, p) && q > 0.0
    ensures TradeStep(DayState(map[], 0.0, 0.0), t, "fifo") == DayState(map[symbol := LongOf(q, p)], 0.0, q * p)
  {
    OpenStep(DayState(map[], 0.0, 0.0), t);
    NotionalOf(t, q, p);
    assert Opened(t) == LongOf(q, p);
  }

  /** A fee-free SELL of `q` at `p` on a flat book opens a short lot and realises nothing. */
  lemma SellFromFlat(t: Row, symbol: SymbolKey, q: real, p: real)
    requires TradeOf(t, "SELL", symbol, q, p) && q > 0.0
    ensures TradeStep(DayState(map[], 0.0, 0.0), t, "fifo") == DayState(map[symbol := ShortOf(q, p)], 0.0, q * p)
  {
    OpenStep(DayState(map[], 0.0, 0.0), t);
    NotionalOf(t, q, p);
    assert Opened(t) == ShortOf(q, p);
  }

  /** A day holding only a BUY from flat. */
  lemma BuyDay(buy: Row, symbol: SymbolKey, q: real, p: real)
    requires TradeOf(buy, "BUY", symbol, q, p) && q > 0.0
    ensures RunTrades(DayState(map[], 0.0, 0.0), [buy], "fifo") == DayState(map[symbol := LongOf(q, p)], 0.0, q * p)
  {
    BuyFromFlat(buy, symbol, q, p);
    OneTrade(DayState(map[], 0.0, 0.0), buy, DayState(map[symbol := LongOf(q, p)], 0.0, q * p));
  }

  /** A day holding only a short SELL from flat. */
  lemma SellDay(sell: Row, symbol: SymbolKey, q: real, p: real)
    requires TradeOf(sell, "SELL", symbol, q, p) && q > 0.0
    ensures RunTrades(DayState(map[], 0.0, 0.0), [sell], "fifo") == DayState(map[symbol := ShortOf(q, p)], 0.0, q * p)
  {
    SellFromFlat(sell, symbol, q, p);
    OneTrade(DayState(map[], 0.0, 0.0), sell, DayState(map[symbol := ShortOf(q, p)], 0.0, q * p));
  }

  /** A day holding only a SELL of a whole long lot carried over. */
  lemma CloseDay(sell: Row, symbol: SymbolKey, q: real, p1: real, p2: real)
    requires TradeOf(sell, "SELL", symbol, q, p2) && q > 0.0
    ensures RunTrades(DayState(map[symbol := LongOf(q, p1)], 0.0, 0.0), [sell], "fifo") ==
      DayState(map[symbol := FlatAt(p2)], (p2 - p1) * q, q * p2)
  {
    var start := DayState(map[symbol := LongOf(q, p1)], 0.0, 0.0);
    var finish := DayState(map[symbol := FlatAt(p2)], (p2 - p1) * q, q * p2);
    CloseStep(symbol, q, p1, p2, 0.0, 0.0, sell, start, finish);
    OneTrade(start, sell, finish);
  }

  /** A day holding only a BUY covering part of a short lot carried over. */
  lemma CoverDay(buy: Row, symbol: SymbolKey, q1: real, p1: real, q2: real, p2: real)
    requires TradeOf(buy, "BUY", symbol, q2, p2) && 0.0 < q2 < q1
    ensures RunTrades(DayState(map[symbol := ShortOf(q1, p1)], 0.0, 0.0), [buy], "fifo") ==
      DayState(map[symbol := ShortAt(q1 - q2, p1, p2)], (p1 - p2) * q2, q2 * p2)
  {
    var start := DayState(map[symbol := ShortOf(q1, p1)], 0.0, 0.0);
    var finish := DayState(map[symbol := ShortAt(q1 - q2, p1, p2)], (p1 - p2) * q2, q2 * p2);
    CoverStep(symbol, q1, p1, q2, p2, 0.0, 0.0, buy, start, finish);
    OneTrade(start, buy, finish);
  }

  /** A day holding a BUY from flat and then a smaller SELL. */
  lemma ReduceTrades(buy: Row, sell: Row, symbol: SymbolKey, q1: real, p1: real, q2: real, p2: real)
    requires TradeOf(buy, "BUY", symbol, q1, p1) && TradeOf(sell, "SELL", symbol, q2, p2) && 0.0 < q2 < q1
    ensures RunTrades(DayState(map[], 0.0, 0.0), [buy, sell], "fifo") ==
      DayState(map[symbol := LongAt(q1 - q2, p1, p2)], (p2 - p1) * q2, q1 * p1 + q2 * p2)
  {
    var start := DayState(map[], 0.0, 0.0);
    var middle := DayState(map[symbol := LongOf(q1, p1)], 0.0, q1 * p1);
    var finish := DayState(map[symbol := LongAt(q1 - q2, p1, p2)], (p2 - p1) * q2, q1 * p1 + q2 * p2);
    BuyFromFlat(buy, symbol, q1, p1);
    ReduceStep(symbol, q1, p1, q2, p2, 0.0, q1 * p1, sell, middle, finish);
    TwoTrades(buy, sell, start, middle, finish);
  }

  /** The day loop over one day of a BUY of `q1` then a SELL of `q2 < q1`. */
  lemma ReduceDay(d: Date, buy: Row, sell: Row, symbol: SymbolKey, q1: real, p1: real, q2: real, p2: real)
    requires TradeOf(buy, "BUY", symbol, q1, p1) && TradeOf(sell, "SELL", symbol, q2, p2) && 0.0 < q2 < q1
    ensures RunDays(map[], [DayGroup(d, [buy, sell])], "fifo").1 == [DayRow(d, (p2 - p1) * q2, q1 * p1 + q2 * p2, (p2 - p1) * q2)]
  {
    var finish := DayState(map[symbol := LongAt(q1 - q2, p1, p2)], (p2 - p1) * q2, q1 * p1 + q2 * p2);
    var row := DayRow(d, (p2 - p1) * q2, q1 * p1 + q2 * p2, (p2 - p1) * q2);
    ReduceTrades(buy, sell, symbol, q1, p1, q2, p2);
    DayOfTrades(DayGroup(d, [buy, sell]), map[], finish, row);
  }

  /** The outer loop over a day with a BUY of `q` and a later day with a SELL of all of it. */
  lemma CloseDays(d1: Date, d2: Date, buy: Row, sell: Row, symbol: SymbolKey, q: real, p1: real, p2: real)
    requires TradeOf(buy, "BUY", symbol, q, p1) && TradeOf(sell, "SELL", symbol, q, p2) && q > 0.0
    ensures RunDays(map[], [DayGroup(d1, [buy]), DayGroup(d2, [sell])], "fifo").1 ==
      [DayRow(d1, 0.0, q * p1, 0.0), DayRow(d2, (p2 - p1) * q, q * p2, (p2 - p1) * q)]
  {
    var s1 := DayState(map[symbol := LongOf(q, p1)], 0.0, q * p1);
    var s2 := DayState(map[symbol := FlatAt(p2)], (p2 - p1) * q, q * p2);
    BuyDay(buy, symbol, q, p1);
    CloseDay(sell, symbol, q, p1, p2);
    var r1, r2 := DayRow(d1, 0.0, q * p1, 0.0), DayRow(d2, (p2 - p1) * q, q * p2, (p2 - p1) * q);
    DaysOfTrades(DayGroup(d1, [buy]), DayGroup(d2, [sell]), map[], s1, s2, r1, r2);
  }

  /** The outer loop over a day with a short SELL of `q1` and a later day with a BUY of `q2 < q1`. */
  lemma CoverDays(d1: Date, d2: Date, sell: Row, buy: Row, symbol: SymbolKey, q1: real, p1: real, q2: real, p2: real)
    requires TradeOf(sell, "SELL", symbol, q1, p1) && TradeOf(buy, "BUY", symbol, q2, p2) && 0.0 < q2 < q1
    ensures RunDays(map[], [DayGroup(d1, [sell]), DayGroup(d2, [buy])], "fifo").1 ==
      [DayRow(d1, 0.0, q1 * p1, 0.0), DayRow(d2, (p1 - p2) * q2, q2 * p2, (p1 - p2) * q2)]
  {
    var s1 := DayState(map[symbol := ShortOf(q1, p1)], 0.0, q1 * p1);
    var s2 := DayState(map[symbol := ShortAt(q1 - q2, p1, p2)], (p1 - p2) * q2, q2 * p2);
    SellDay(sell, symbol, q1, p1);
    CoverDay(buy, symbol, q1, p1, q2, p2);
    var r1, r2 := DayRow(d1, 0.0, q1 * p1, 0.0), DayRow(d2, (p1 - p2) * q2, q2 * p2, (p1 - p2) * q2);
    DaysOfTrades(DayGroup(d1, [sell]), DayGroup(d2, [buy]), map[], s1, s2, r1, r2);
  }

  /**
   * Rows without a symbol are filed under the one missing-value key, so they
   * trade against each other: 10 bought at 100 and 4 sold at 110 on one day
   * realise 40 on a traded value of 1440.
   */
  lemma MissingSymbolsShareAPosition(d: Date)
    ensures var buy := Row(Some(d), Some("BUY"), None, Some(10.0), Some(100.0), 0.0, 0, None);
      var sell := Row(Some(d), Some("SELL"), None, Some(4.0), Some(110.0), 0.0, 0, None);
      RunDays(map[], [DayGroup(d, [buy, sell])], "fifo").1 == [DayRow(d, 40.0, 1440.0, 40.0)]
  {
    var buy := Row(Some(d), Some("BUY"), None, Some(10.0), Some(100.0), 0.0, 0, None);
    var sell := Row(Some(d), Some("SELL"), None, Some(4.0), Some(110.0), 0.0, 0, None);
    assert TradeOf(buy, "BUY", None, 10.0, 100.0) && TradeOf(sell, "SELL", None, 4.0, 110.0);
    ReduceDay(d, buy, sell, None, 10.0, 100.0, 4.0, 110.0);
    assert DayRow(d, (110.0 - 100.0) * 4.0, 10.0 * 100.0 + 4.0 * 110.0, (110.0 - 100.0) * 4.0) == DayRow(d, 40.0, 1440.0, 40.0);
  }

  /** The record list of two plain trades of one symbol. */
  function PlainPairOf(d1: Date, s1: string, q1: real, p1: real, d2: Date, s2: string, q2: real, p2: real, symbol: string): seq<TradeRecord>
  {
    [Plain(d1, symbol, s1, q1, p1), Plain(d2, symbol, s2, q2, p2)]
  }

  /** Two plain records pass the checks, so `compute_daily_pnl_records` returns the rows of their days. */
  lemma PlainPairRows(a: TradeRecord, b: TradeRecord)
    requires IsPlain(a) && IsPlain(b) && Days([a, b]) != []
    ensures DailyPnl([a, b], "fifo") == Ok(WithCumulative(RunDays(map[], Days([a, b]), "fifo").1))
  {
    PlainPair(a, b);
  }

  /** Two plain trades of one symbol on one day: `compute_daily_pnl_records` runs the day loop over both. */
  lemma SameDayPair(d: Date, symbol: string, s1: string, q1: real, p1: real, s2: string, q2: real, p2: real)
    requires Upper(symbol) == symbol && Upper(s1) == s1 && Upper(s2) == s2
    ensures var rows := [PlainRow(Plain(d, symbol, s1, q1, p1)), PlainRow(Plain(d, symbol, s2, q2, p2))];
      DailyPnl(PlainPairOf(d, s1, q1, p1, d, s2, q2, p2, symbol), "fifo") ==
      Ok(WithCumulative(RunDays(map[], [DayGroup(d, rows)], "fifo").1))
  {
    var a, b := Plain(d, symbol, s1, q1, p1), Plain(d, symbol, s2, q2, p2);
    PlainDays(a, b);
    PlainPairRows(a, b);
  }

  /** Two plain trades of one symbol on two days in order: the outer loop runs over both days. */
  lemma TwoDayPair(d1: Date, d2: Date, symbol: string, s1: string, q1: real, p1: real, s2: string, q2: real, p2: real)
    requires Upper(symbol) == symbol && Upper(s1) == s1 && Upper(s2) == s2 && DateBefore(d1, d2)
    ensures var a, b := Plain(d1, symbol, s1, q1, p1), Plain(d2, symbol, s2, q2, p2);
      DailyPnl(PlainPairOf(d1, s1, q1, p1, d2, s2, q2, p2, symbol), "fifo") ==
      Ok(WithCumulative(RunDays(map[], [DayGroup(d1, [PlainRow(a)]), DayGroup(d2, [PlainRow(b)])], "fifo").1))
  {
    var a, b := Plain(d1, symbol, s1, q1, p1), Plain(d2, symbol, s2, q2, p2);
    PlainDays(a, b);
    PlainPairRows(a, b);
  }

  /** The output row of a day that bought `q1` at `p1` and sold `q2` at `p2`. */
  lemma ReduceRows(d: Date, q1: real, p1: real, q2: real, p2: real)
    ensures CumulatedOne(DayRow(d, (p2 - p1) * q2, q1 * p1 + q2 * p2, (p2 - p1) * q2)) ==
      [DailyRow(d, (p2 - p1) * q2, q1 * p1 + q2 * p2, (p2 - p1) * q2, (p2 - p1) * q2)]
  {
  }

  /** The output rows of a day that only opened (traded `opening`) and a day that realised `gain` (traded `closing`). */
  lemma OpenThenGainRows(d1: Date, d2: Date, opening: real, gain: real, closing: real)
    ensures CumulatedTwo(DayRow(d1, 0.0, opening, 0.0), DayRow(d2, gain, closing, gain)) ==
      [DailyRow(d1, 0.0, opening, 0.0, 0.0), DailyRow(d2, gain, closing, gain, gain)]
  {
  }

  /**
   * One day, BUY `q1` at `p1` then SELL `q2 < q1` at `p2`: one row whose
   * realised and total P&L is `(p2 - p1) * q2`, traded value both notionals.
   */
  lemma LongThenReduce(d: Date, symbol: string, q1: real, p1: real, q2: real, p2: real)
    requires Upper(symbol) == symbol && 0.0 < q2 < q1
    ensures DailyPnl(PlainPairOf(d, "BUY", q1, p1, d, "SELL", q2, p2, symbol), "fifo") ==
      Ok([DailyRow(d, (p2 - p1) * q2, q1 * p1 + q2 * p2, (p2 - p1) * q2, (p2 - p1) * q2)])
  {
    var buy, sell := PlainRow(Plain(d, symbol, "BUY", q1, p1)), PlainRow(Plain(d, symbol, "SELL", q2, p2));
    var row := DayRow(d, (p2 - p1) * q2, q1 * p1 + q2 * p2, (p2 - p1) * q2);
    UpperSides();
    ReduceDay(d, buy, sell, Some(symbol), q1, p1, q2, p2);
    SameDayPair(d, symbol, "BUY", q1, p1, "SELL", q2, p2);
    OneDayRows(PlainPairOf(d, "BUY", q1, p1, d, "SELL", q2, p2, symbol), DayGroup(d, [buy, sell]), row);
    ReduceRows(d, q1, p1, q2, p2);
  }

  /**
   * BUY `q` at `p1` one day and SELL all `q` at `p2` on a later day: nothing
   * realised on the first day, `(p2 - p1) * q` on the second, the position
   * carried between them.
   */
  lemma LongThenClose(d1: Date, d2: Date, symbol: string, q: real, p1: real, p2: real)
    requires Upper(symbol) == symbol && q > 0.0 && DateBefore(d1, d2)
    ensures DailyPnl(PlainPairOf(d1, "BUY", q, p1, d2, "SELL", q, p2, symbol), "fifo") ==
      Ok(CumulatedTwo(DayRow(d1, 0.0, q * p1, 0.0), DayRow(d2, (p2 - p1) * q, q * p2, (p2 - p1) * q)))
  {
    var buy, sell := PlainRow(Plain(d1, symbol, "BUY", q, p1)), PlainRow(Plain(d2, symbol, "SELL", q, p2));
    var r1, r2 := DayRow(d1, 0.0, q * p1, 0.0), DayRow(d2, (p2 - p1) * q, q * p2, (p2 - p1) * q);
    UpperSides();
    TwoDayPair(d1, d2, symbol, "BUY", q, p1, "SELL", q, p2);
    CloseDays(d1, d2, buy, sell, Some(symbol), q, p1, p2);
    TwoDayRows(PlainPairOf(d1, "BUY", q, p1, d2, "SELL", q, p2, symbol), DayGroup(d1, [buy]), DayGroup(d2, [sell]), r1, r2);
  }

  /**
   * SELL `q1` at `p1` from flat one day and BUY `q2 < q1` at `p2` on a later
   * day: nothing realised on opening the short, `(p1 - p2) * q2` on the
   * partial cover.
   */
  lemma ShortThenCover(d1: Date, d2: Date, symbol: string, q1: real, p1: real, q2: real, p2: real)
    requires Upper(symbol) == symbol && 0.0 < q2 < q1 && DateBefore(d1, d2)
    ensures DailyPnl(PlainPairOf(d1, "SELL", q1, p1, d2, "BUY", q2, p2, symbol), "fifo") ==
      Ok(CumulatedTwo(DayRow(d1, 0.0, q1 * p1, 0.0), DayRow(d2, (p1 - p2) * q2, q2 * p2, (p1 - p2) * q2)))
  {
    var sell, buy := PlainRow(Plain(d1, symbol, "SELL", q1, p1)), PlainRow(Plain(d2, symbol, "BUY", q2, p2));
    var r1, r2 := DayRow(d1, 0.0, q1 * p1, 0.0), DayRow(d2, (p1 - p2) * q2, q2 * p2, (p1 - p2) * q2);
    UpperSides();
    TwoDayPair(d1, d2, symbol, "SELL", q1, p1, "BUY", q2, p2);
    CoverDays(d1, d2, sell, buy, Some(symbol), q1, p1, q2, p2);
    TwoDayRows(PlainPairOf(d1, "SELL", q1, p1, d2, "BUY", q2, p2, symbol), DayGroup(d1, [sell]), DayGroup(d2, [buy]), r1, r2);
  }

  lemma UpperTickers()
    ensures Upper("AAPL") == "AAPL" && Upper("TSLA") == "TSLA"
  {
  }

  /** BUY 10 AAPL at 150 then SELL 5 at 155 on one day: realised 25, traded value 2275, running total 25. */
  lemma ExampleLongFlow(d: Date)
    ensures DailyPnl(PlainPairOf(d, "BUY", 10.0, 150.0, d, "SELL", 5.0, 155.0, "AAPL"), "fifo") ==
      Ok([DailyRow(d, 25.0, 2275.0, 25.0, 25.0)])
  {
    var records := PlainPairOf(d, "BUY", 10.0, 150.0, d, "SELL", 5.0, 155.0, "AAPL");
    var gain, value := (155.0 - 150.0) * 5.0, 10.0 * 150.0 + 5.0 * 155.0;
    assert DailyPnl(records, "fifo") == Ok([DailyRow(d, gain, value, gain, gain)]) by {
      UpperTickers();
      LongThenReduce(d, "AAPL", 10.0, 150.0, 5.0, 155.0);
    }
    assert gain == 25.0 && value == 2275.0;
  }

  /** BUY 10 AAPL at 100, SELL 10 at 110 on a later day: rows (0, 1000, 0, 0) and (100, 1100, 100, 100). */
  lemma ExampleRoundTripFlow(d1: Date, d2: Date)
    requires DateBefore(d1, d2)
    ensures DailyPnl(PlainPairOf(d1, "BUY", 10.0, 100.0, d2, "SELL", 10.0, 110.0, "AAPL"), "fifo") ==
      Ok([DailyRow(d1, 0.0, 1000.0, 0.0, 0.0), DailyRow(d2, 100.0, 1100.0, 100.0, 100.0)])
  {
    var records := PlainPairOf(d1, "BUY", 10.0, 100.0, d2, "SELL", 10.0, 110.0, "AAPL");
    assert DailyPnl(records, "fifo") == Ok(CumulatedTwo(DayRow(d1, 0.0, 1000.0, 0.0), DayRow(d2, 100.0, 1100.0, 100.0))) by {
      UpperTickers();
      LongThenClose(d1, d2, "AAPL", 10.0, 100.0, 110.0);
    }
    OpenThenGainRows(d1, d2, 1000.0, 100.0, 1100.0);
  }

  /** SELL 10 TSLA at 200, BUY 4 at 180 on a later day: rows (0, 2000, 0, 0) and (80, 720, 80, 80). */
  lemma ExampleShortFlow(d1: Date, d2: Date)
    requires DateBefore(d1, d2)
    ensures DailyPnl(PlainPairOf(d1, "SELL", 10.0, 200.0, d2, "BUY", 4.0, 180.0, "TSLA"), "fifo") ==
      Ok([DailyRow(d1, 0.0, 2000.0, 0.0, 0.0), DailyRow(d2, 80.0, 720.0, 80.0, 80.0)])
  {
    var records := PlainPairOf(d1, "SELL", 10.0, 200.0, d2, "BUY", 4.0, 180.0, "TSLA");
    assert DailyPnl(records, "fifo") == Ok(CumulatedTwo(DayRow(d1, 0.0, 2000.0, 0.0), DayRow(d2, 80.0, 720.0, 80.0))) by {
      UpperTickers();
      ShortThenCover(d1, d2, "TSLA", 10.0, 200.0, 4.0, 180.0);
    }
    OpenThenGainRows(d1, d2, 2000.0, 80.0, 720.0);
  }

  // ----- the imperative loop --------------------------------------------

  /** Distinct symbols hold distinct position objects. */
  predicate Distinct(objects: map<SymbolKey, Position>)
  {
    forall a, b :: a in objects && b in objects && a != b ==> objects[a] != objects[b]
  }

  /** The values the position objects hold. */
  ghost predicate Mirrors(objects: map<SymbolKey, Position>, states: Positions)
    reads set k | k in objects :: objects[k]
  {
    objects.Keys == states.Keys && forall k :: k in objects ==> objects[k].State() == states[k]
  }

  /** The objects of `positions` that the day loop may update. */
  function Objects(positions: map<SymbolKey, Position>): set<Position>
  {
    set k | k in positions :: positions[k]
  }

  /** Writing a key twice keeps the second value. */
  lemma UpdateTwice(m: Positions, k: SymbolKey, a: PositionState, b: PositionState)
    ensures m[k := a][k := b] == m[k := b]
  {
  }

  /** `positions.setdefault(symbol, create_position(symbol))`: the symbol's object, created on first sight. */
  method LookUp(positions: map<SymbolKey, Position>, ghost states: Positions, symbol: SymbolKey)
    returns (next: map<SymbolKey, Position>, ghost nextStates: Positions, position: Position)
    requires Distinct(positions) && Mirrors(positions, states)
    ensures Distinct(next) && Mirrors(next, nextStates)
    ensures forall k :: k in next ==> (k in positions && next[k] == positions[k]) || fresh(next[k])
    ensures symbol in next && position == next[symbol]
    ensures nextStates == if symbol in states then states else states[symbol := CreatePosition()]
  {
    next, nextStates := positions, states;
    if symbol !in next {
      var created := new Position();
      next := next[symbol := created];
      nextStates := nextStates[symbol := CreatePosition()];
    }
    position := next[symbol];
  }

  /** `apply_trade(position, ...)` on the symbol's object, the other objects untouched. */
  method ApplyToSymbol(positions: map<SymbolKey, Position>, ghost states: Positions, symbol: SymbolKey,
                       side: string, qty: real, price: real, fee: real, methodName: string)
    returns (ghost nextStates: Positions, gained: real)
    requires Distinct(positions) && Mirrors(positions, states) && symbol in positions
    modifies Objects(positions)
    ensures Mirrors(positions, nextStates)
    ensures var outcome := ApplySpec(states[symbol], side, qty, price, Some(fee), Some(methodName));
            nextStates == states[symbol := outcome.0] && gained == outcome.1
  {
    var position := positions[symbol];
    gained := position.ApplyTrade(side, qty, price, Some(fee), Some(methodName));
    nextStates := states[symbol := position.State()];
  }

  /** A row that applies: look up its symbol's object and apply the trade to it. */
  method ApplyRow(positions: map<SymbolKey, Position>, ghost states: Positions, trade: Row, methodName: string)
    returns (next: map<SymbolKey, Position>, ghost nextStates: Positions, gained: real)
    requires Distinct(positions) && Mirrors(positions, states) && Applies(trade)
    modifies Objects(positions)
    ensures Distinct(next) && Mirrors(next, nextStates)
    ensures forall k :: k in next ==> (k in positions && next[k] == positions[k]) || fresh(next[k])
    ensures nextStates == states[trade.symbol := TradeOutcome(states, trade, methodName).0]
    ensures gained == TradeOutcome(states, trade, methodName).1
  {
    var symbol := trade.symbol;
    var position;
    next, nextStates, position := LookUp(positions, states, symbol);
    ghost var grown := nextStates;
    nextStates, gained := ApplyToSymbol(next, nextStates, symbol, trade.side.value, trade.quantity.value,
                                        trade.price.value, trade.fee, methodName);
    ghost var outcome := TradeOutcome(states, trade, methodName);
    assert outcome == ApplySpec(grown[symbol], trade.side.value, trade.quantity.value, trade.price.value, Some(trade.fee), Some(methodName));
    if symbol !in states {
      UpdateTwice(states, symbol, CreatePosition(), outcome.0);
    }
  }

  /**
   * One pass of the inner loop: skip the row, or apply it to its symbol's
   * position object in place and add to the day's totals.
   */
  method ProcessTrade(positions: map<SymbolKey, Position>, ghost states: Positions, trade: Row, methodName: string,
                      realizedTotal: real, tradeValueTotal: real)
    returns (next: map<SymbolKey, Position>, ghost nextStates: Positions, realized: real, tradeValue: real)
    requires Distinct(positions) && Mirrors(positions, states)
    modifies Objects(positions)
    ensures Distinct(next) && Mirrors(next, nextStates)
    ensures forall k :: k in next ==> (k in positions && next[k] == positions[k]) || fresh(next[k])
    ensures TradeStep(DayState(states, realizedTotal, tradeValueTotal), trade, methodName) == DayState(nextStates, realized, tradeValue)
  {
    next, nextStates, realized, tradeValue := positions, states, realizedTotal, tradeValueTotal;
    if Applies(trade) {
      var gained;
      next, nextStates, gained := ApplyRow(positions, states, trade, methodName);
      realized := realized + gained;
      tradeValue := tradeValue + Notional(trade);
      TradeStepApplied(DayState(states, realizedTotal, tradeValueTotal), trade, methodName, nextStates, gained);
    }
  }

  /** An applied trade: its symbol takes the outcome's state and the day's totals grow by its gain and value. */
  lemma TradeStepApplied(s: DayState, t: Row, methodName: string, nextStates: Positions, gained: real)
    requires Applies(t)
    requires nextStates == s.positions[t.symbol := TradeOutcome(s.positions, t, methodName).0]
    requires gained == TradeOutcome(s.positions, t, methodName).1
    ensures TradeStep(s, t, methodName) == DayState(nextStates, s.realized + gained, s.tradeValue + Notional(t))
  {
  }

  /** One more trade of the day's prefix is one more step. */
  lemma RunTradesSnoc(s: DayState, trades: seq<Row>, t: nat, methodName: string, before: DayState, after: DayState)
    requires t < |trades|
    requires RunTrades(s, trades[..t], methodName) == before
    requires TradeStep(before, trades[t], methodName) == after
    ensures RunTrades(s, trades[..t + 1], methodName) == after
  {
    assert trades[..t + 1][..t] == trades[..t];
  }

  /** The inner loop over one day's trades, from zero day totals. */
  method ProcessDay(positions: map<SymbolKey, Position>, ghost states: Positions, day: DayGroup, methodName: string)
    returns (next: map<SymbolKey, Position>, ghost nextStates: Positions, row: DayRow)
    requires Distinct(positions) && Mirrors(positions, states)
    modifies Objects(positions)
    ensures Distinct(next) && Mirrors(next, nextStates)
    ensures forall k :: k in next ==> (k in positions && next[k] == positions[k]) || fresh(next[k])
    ensures DayStep(states, day, methodName) == (nextStates, row)
  {
    next, nextStates := positions, states;
    var realizedTotal := 0.0;
    var tradeValueTotal := 0.0;
    var trades := day.trades;
    var t := 0;
    while t < |trades|
      invariant 0 <= t <= |trades|
      invariant Distinct(next) && Mirrors(next, nextStates)
      invariant forall k :: k in next ==> (k in positions && next[k] == positions[k]) || fresh(next[k])
      invariant RunTrades(DayState(states, 0.0, 0.0), trades[..t], methodName) == DayState(nextStates, realizedTotal, tradeValueTotal)
    {
      ghost var before := DayState(nextStates, realizedTotal, tradeValueTotal);
      next, nextStates, realizedTotal, tradeValueTotal := ProcessTrade(next, nextStates, trades[t], methodName, realizedTotal, tradeValueTotal);
      RunTradesSnoc(DayState(states, 0.0, 0.0), trades, t, methodName, before, DayState(nextStates, realizedTotal, tradeValueTotal));
      t := t + 1;
    }
    assert trades[..t] == trades;
    row := DayRow(day.date, realizedTotal, tradeValueTotal, realizedTotal);
  }

  /** The outer loop over the days, positions starting empty and carried from day to day. */
  method ProcessDays(groups: seq<DayGroup>, methodName: string) returns (dailyRecords: seq<DayRow>)
    ensures dailyRecords == RunDays(map[], groups, methodName).1
  {
    var positions: map<SymbolKey, Position> := map[];
    ghost var states: Positions := map[];
    dailyRecords := [];
    var g := 0;
    while g < |groups|
      invariant 0 <= g <= |groups|
      invariant forall k :: k in positions ==> fresh(positions[k])
      invariant Distinct(positions) && Mirrors(positions, states)
      invariant RunDays(map[], groups[..g], methodName) == (states, dailyRecords)
    {
      assert groups[..g + 1][..g] == groups[..g];
      var row;
      positions, states, row := ProcessDay(positions, states, groups[g], methodName);
      dailyRecords := dailyRecords + [row];
      g := g + 1;
    }
    assert groups[..g] == groups;
  }

  /**
   * `compute_daily_pnl_records`: the per-day loop over the sorted trades,
   * `positions` mapping each symbol to a position object that `apply_trade`
   * updates in place.
   */
  method ComputeDailyPnlRecords(records: seq<TradeRecord>, methodName: string) returns (r: Result<seq<DailyRow>, PnlError>)
    ensures r == DailyPnl(records, methodName)
  {
    if records == [] || NoColumns(records) {
      return Ok([]);
    }
    if !HasColumn(records, DateCol) || !HasColumn(records, SideCol) {
      return Err(MissingDateOrSide);
    }
    var missing := MissingRequired(records);
    if missing != [] {
      return Err(MissingFields(missing));
    }
    var dailyRecords := ProcessDays(Days(records), methodName);
    if dailyRecords == [] {
      return Err(NoDailyRows);
    }
    return Ok(WithCumulative(dailyRecords));
  }
}
