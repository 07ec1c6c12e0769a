/**
 * `app/services/trade_summaries.py`: turning stored trades into the records
 * of the profit engine, one realised figure per trading day keyed by its
 * ISO date, and writing those figures into the `daily_summary` table.
 */
module TradeSummaries {

  import opened Common
  import opened Text
  import opened Numbers
  import opened Dates
  import opened Pnl
  import opened Store

  // ----- _coerce_number --------------------------------------------------

  /**
   * `_coerce_number`: `float(value)`, or 0.0 when `float` refuses it. Text
   * such as "inf" or "nan" is outside the decimal syntax `ParseDecimal`
   * accepts, so it gives 0.0 as the finiteness check makes it.
   */
  function CoerceNumber(value: Cell): (r: real)
    ensures value.Num? ==> r == value.n
    ensures value.Null? ==> r == 0.0
    ensures value.Str? ==> (ParseDecimal(value.s).Some? ==> r == ParseDecimal(value.s).value)
    ensures value.Str? ==> (ParseDecimal(value.s).None? ==> r == 0.0)
  {
    match value
    case Null => 0.0
    case Num(n) => n
    case Str(s) => ParseDecimal(s).GetOr(0.0)
  }

  /** The digits of a natural number coerce to that number. */
  lemma CoerceNatText(n: nat)
    ensures CoerceNumber(Str(NatToString(n))) == n as real
  {
    ParseDecimalOfNat(n);
  }

  /** A value `float` cannot read, such as an empty cell or a word, coerces to 0.0. */
  lemma CoerceWordIsZero(s: string)
    requires s != [] && forall i :: 0 <= i < |s| ==> IsLowerAscii(s[i])
    ensures CoerceNumber(Str(s)) == 0.0
  {
    StripNoop(s);
    assert !IsDigit(s[0]) && s[0] != '+' && s[0] != '-';
    assert !AllDigits(s);
    assert '.' !in s;
  }

  // ----- _normalize_date -------------------------------------------------

  /**
   * `_normalize_date`: a date (or datetime) prints as "YYYY-MM-DD"; text is
   * stripped, blank text gives `None`, text that reads as "%Y-%m-%d" is
   * reprinted and any other text is returned as it is. `NoStamp` stands for
   * `None` and every other non-date, non-string value.
   */
  function NormalizeDate(value: Stamp): (r: Option<string>)
    ensures value.NoStamp? ==> r.None?
    ensures value.DateStamp? ==> r == Some(FormatDate(value.date))
    ensures value.DateTimeStamp? ==> r == Some(FormatDate(value.day))
    ensures value.TextStamp? ==> (r.None? <==> Strip(value.text) == [])
  {
    match value
    case NoStamp => None
    case DateStamp(d) => Some(FormatDate(d))
    case DateTimeStamp(d, _) => Some(FormatDate(d))
    case TextStamp(s) =>
      var text := Strip(s);
      if text == [] then None
      else
        match ParseDateWith(text, YearMonthDay)
        case Some(d) => Some(FormatDate(d))
        case None => Some(text)
  }

  /** Normalising a normalised date changes nothing. */
  lemma NormalizeDateIdempotent(value: Stamp)
    requires NormalizeDate(value).Some?
    ensures NormalizeDate(TextStamp(NormalizeDate(value).value)) == NormalizeDate(value)
  {
    match value
    case DateStamp(d) =>
      FormatDateStripped(d);
      ParseFormatDate(d);
    case DateTimeStamp(d, _) =>
      FormatDateStripped(d);
      ParseFormatDate(d);
    case TextStamp(s) =>
      var text := Strip(s);
      StripIdempotent(s);
      match ParseDateWith(text, YearMonthDay)
      case Some(d) =>
        FormatDateStripped(d);
        ParseFormatDate(d);
      case None =>
  }

  /** Text that reads as a date normalises to the printed form of that date. */
  lemma NormalizeDateText(s: string, d: Date)
    requires ParseDateWith(Strip(s), YearMonthDay) == Some(d)
    ensures NormalizeDate(TextStamp(s)) == Some(FormatDate(d))
  {
  }

  // ----- _trade_to_record ------------------------------------------------

  /**
   * A stored trade as `_trade_to_record` reads it. `None` marks a missing or
   * null attribute; `qty` and `price` are the cells `float()` is applied to.
   * A `trades` row has no `time`, `fee` or `sequence` column, so for it
   * those three are `None`.
   */
  datatype TradeInput = TradeInput(
    date: Option<string>, symbol: Option<string>, action: Option<string>,
    qty: Cell, price: Cell, time: Option<string>, fee: Option<real>, sequence: Option<int>)

  /** A `trades` table row seen as a trade object. */
  function FromRow(t: Trade): TradeInput
  {
    TradeInput(Some(t.fields.date), Some(t.fields.symbol), Some(t.fields.action),
               Num(t.fields.qty), Num(t.fields.price), None, None, None)
  }

  /** `float(value)`: numbers as they are, text through the decimal reader, `None` refused. */
  function Float(value: Cell): Option<real>
  {
    match value
    case Null => None
    case Num(n) => Some(n)
    case Str(s) => ParseDecimal(s)
  }

  /** The action as it is compared: `(action or "").strip().upper()`. */
  function ActionOf(t: TradeInput): string
  {
    Upper(Strip(t.action.GetOr("")))
  }

  /** The symbol as it is kept: `(symbol or "").strip().upper()`. */
  function SymbolOf(t: TradeInput): string
  {
    Upper(Strip(t.symbol.GetOr("")))
  }

  /** The trade date, when `strptime(date, "%Y-%m-%d")` accepts it. */
  function TradeDate(t: TradeInput): Option<Date>
  {
    match t.date
    case None => None
    case Some(s) => ParseDateWith(s, YearMonthDay)
  }

  /** The time of day: "%H:%M:%S" first, then "%H:%M", on the stripped text. */
  function TimeOf(time: Option<string>): (r: Option<Time>)
    ensures Strip(time.GetOr("")) == [] ==> r.None?
  {
    var text := Strip(time.GetOr(""));
    if text == [] then None
    else
      match ParseTimeWith(text, HourMinuteSecond)
      case Some(hms) => Some(hms)
      case None => ParseTimeWith(text, HourMinute)
  }

  /** The conditions under which a trade becomes a record. */
  predicate Accepted(trade: Option<TradeInput>)
  {
    trade.Some? &&
    var t := trade.value;
    (ActionOf(t) == "BUY" || ActionOf(t) == "SELL") &&
    SymbolOf(t) != [] &&
    Float(t.qty).Some? && Float(t.price).Some? &&
    Float(t.qty).value > 0.0 && Float(t.price).value > 0.0 &&
    TradeDate(t).Some?
  }

  /**
   * `_trade_to_record`: `None` for a missing trade, an action other than BUY
   * or SELL, a blank symbol, a quantity or price `float` refuses or that is
   * not positive, or a date that is not "YYYY-MM-DD". Otherwise the record
   * the profit engine reads; its `datetime` key holds `None` when the time
   * is blank or unreadable.
   */
  function TradeToRecord(trade: Option<TradeInput>): (r: Option<TradeRecord>)
    ensures r.Some? ==> r.value.date.Some? && ValidDate(r.value.date.value)
  {
    if trade.None? then None
    else
      var t := trade.value;
      var action := ActionOf(t);
      if action != "BUY" && action != "SELL" then None
      else
        var symbol := SymbolOf(t);
        if symbol == [] then None
        else
          var quantity, price := Float(t.qty), Float(t.price);
          if quantity.None? || price.None? then None
          else if quantity.value <= 0.0 || price.value <= 0.0 then None
          else
            var date := TradeDate(t);
            if date.None? then None
            else
              var time := TimeOf(t.time);
              var stamp := if time.Some? then Some(DateTime(date.value, time.value)) else None;
              Some(TradeRecord(date, Some(action), Some(symbol), quantity, price,
                               Some(t.fee.GetOr(0.0)), Some(t.sequence.GetOr(0)), stamp,
                               if stamp.None? then {DateTimeCol} else {}))
  }

  /** A trade becomes a record exactly when every condition for keeping it holds. */
  lemma TradeAcceptedIff(trade: Option<TradeInput>)
    ensures TradeToRecord(trade).Some? <==> Accepted(trade)
  {
  }

  /**
   * An accepted record carries the parsed date, the upper-cased action and
   * symbol, the quantity and price `float` read, the fee defaulted to 0.0
   * and the sequence defaulted to 0.
   */
  lemma AcceptedRecordFields(trade: Option<TradeInput>)
    requires Accepted(trade)
    ensures var r := TradeToRecord(trade).value; var t := trade.value;
      && r.date == TradeDate(t)
      && r.side == Some(ActionOf(t)) && r.symbol == Some(SymbolOf(t))
      && (r.side == Some("BUY") || r.side == Some("SELL"))
      && r.quantity == Float(t.qty) && r.price == Float(t.price)
      && r.fee == Some(t.fee.GetOr(0.0)) && r.sequence == Some(t.sequence.GetOr(0))
      && (r.datetime.Some? <==> TimeOf(t.time).Some?)
      && (r.datetime.Some? ==> r.datetime.value == DateTime(r.date.value, TimeOf(t.time).value))
      && (r.datetime.None? <==> DateTimeCol in r.nulls)
  {
  }

  /**
   * A `trades` row has no time, fee or sequence: its record has no
   * timestamp, a zero fee and sequence 0, and keeps the stored quantity and price.
   */
  lemma StoredTradeDefaults(t: Trade)
    requires Accepted(Some(FromRow(t)))
    ensures var r := TradeToRecord(Some(FromRow(t))).value;
      && r.fee == Some(0.0) && r.sequence == Some(0) && r.datetime.None?
      && r.quantity == Some(t.fields.qty) && r.price == Some(t.fields.price)
  {
    StripNoop("");
  }

  /** A record's action and symbol are already in capitals. */
  lemma AcceptedRecordCapitals(trade: Option<TradeInput>)
    requires Accepted(trade)
    ensures Upper(TradeToRecord(trade).value.symbol.value) == TradeToRecord(trade).value.symbol.value
  {
    LowerUpper(Strip(trade.value.symbol.GetOr("")));
  }

  /** Two digits, a colon, two digits: the layout of a time of day. */
  lemma SplitColons(a: string, b: string, c: string)
    requires AllDigits(a) && AllDigits(b) && AllDigits(c)
    ensures SplitOn(a + ":" + b + ":" + c, ':') == [a, b, c]
    ensures SplitOn(a + ":" + b, ':') == [a, b]
  {
    AllDigitsNoChar(a, ':');
    AllDigitsNoChar(b, ':');
    AllDigitsNoChar(c, ':');
    assert a + ":" + b + ":" + c == a + [':'] + (b + [':'] + c);
    SplitOnFirst(a, ':', b + [':'] + c);
    SplitOnFirst(b, ':', c);
    assert SplitOn(c, ':') == [c];
    assert a + ":" + b == a + [':'] + b;
    SplitOnFirst(a, ':', b);
    assert SplitOn(b, ':') == [b];
  }

  /** A field of two digits spelling `n`. */
  lemma TwoDigits(n: nat)
    requires n <= 59
    ensures var s := PadInt(n, 2); |s| == 2 && AllDigits(s) && DigitsValue(s) == n
  {
    NatToStringLength(n, 2);
    PadIntDigits(n, 2);
  }

  /** Three two-digit fields joined by colons read through the first layout. */
  lemma ReadsWithSeconds(hh: string, mm: string, ss: string, text: string)
    requires text == hh + ":" + mm + ":" + ss
    requires |hh| == 2 && AllDigits(hh) && DigitsValue(hh) <= 23
    requires |mm| == 2 && AllDigits(mm) && DigitsValue(mm) <= 59
    requires |ss| == 2 && AllDigits(ss) && DigitsValue(ss) <= 59
    ensures TimeOf(Some(text)) == Some(Time(DigitsValue(hh), DigitsValue(mm), DigitsValue(ss)))
  {
    assert text[0] == hh[0] && text[|text| - 1] == ss[1];
    StripNoop(text);
    SplitColons(hh, mm, ss);
  }

  /** Two two-digit fields joined by a colon fail the first layout and read through the second. */
  lemma ReadsWithoutSeconds(hh: string, mm: string, text: string)
    requires text == hh + ":" + mm
    requires |hh| == 2 && AllDigits(hh) && DigitsValue(hh) <= 23
    requires |mm| == 2 && AllDigits(mm) && DigitsValue(mm) <= 59
    ensures TimeOf(Some(text)) == Some(Time(DigitsValue(hh), DigitsValue(mm), 0))
  {
    assert text[0] == hh[0] && text[|text| - 1] == mm[1];
    StripNoop(text);
    SplitColons(hh, mm, "");
    assert |SplitOn(text, ':')| == 2;
  }

  /** "HH:MM:SS" reads as that time of day. */
  lemma TimeWithSeconds(h: nat, m: nat, s: nat)
    requires h <= 23 && m <= 59 && s <= 59
    ensures TimeOf(Some(PadInt(h, 2) + ":" + PadInt(m, 2) + ":" + PadInt(s, 2))) == Some(Time(h, m, s))
  {
    TwoDigits(h);
    TwoDigits(m);
    TwoDigits(s);
    ReadsWithSeconds(PadInt(h, 2), PadInt(m, 2), PadInt(s, 2), PadInt(h, 2) + ":" + PadInt(m, 2) + ":" + PadInt(s, 2));
  }

  /** "HH:MM" fails the first layout and reads through the second, with no seconds. */
  lemma TimeWithoutSeconds(h: nat, m: nat)
    requires h <= 23 && m <= 59
    ensures TimeOf(Some(PadInt(h, 2) + ":" + PadInt(m, 2))) == Some(Time(h, m, 0))
  {
    TwoDigits(h);
    TwoDigits(m);
    ReadsWithoutSeconds(PadInt(h, 2), PadInt(m, 2), PadInt(h, 2) + ":" + PadInt(m, 2));
  }

  // ----- calculate_daily_trade_map ---------------------------------------

  /** The per-day dictionary: `{"realized": ..., "total_invested": ...}`. */
  function Totals(realized: real, invested: real): map<string, Cell>
  {
    map["realized" := Num(realized), "total_invested" := Num(invested)]
  }

  /** The records of the trades that convert, in trade order. */
  function Records(trades: seq<Option<TradeInput>>): (records: seq<TradeRecord>)
    ensures |records| <= |trades|
  {
    if trades == [] then []
    else
      var front := Records(trades[..|trades| - 1]);
      match TradeToRecord(trades[|trades| - 1])
      case Some(r) => front + [r]
      case None => front
  }

  /** The key of a result row: its date, normalised; an impossible date is skipped. */
  function RowKey(d: Date): Option<string>
  {
    if ValidDate(d) then NormalizeDate(DateStamp(d)) else None
  }

  /** The dictionary filled from the engine's rows, later rows overwriting earlier ones. */
  function MapOfRows(rows: seq<DailyRow>): map<string, map<string, Cell>>
  {
    if rows == [] then map[]
    else
      var front := MapOfRows(rows[..|rows| - 1]);
      var row := rows[|rows| - 1];
      match RowKey(row.date)
      case Some(k) =>
        if k == [] then front
        else front[k := Totals(CoerceNumber(Num(row.realizedPl)), CoerceNumber(Num(row.tradeValue)))]
      case None => front
  }

  /**
   * `calculate_daily_trade_map` as a value: empty when no trade converts,
   * otherwise the engine's error or the dictionary of its rows.
   */
  function DailyTradeMap(trades: seq<Option<TradeInput>>, methodName: string)
    : Result<map<string, map<string, Cell>>, PnlError>
  {
    var records := Records(trades);
    if records == [] then Ok(map[])
    else
      match DailyPnl(records, methodName)
      case Ok(rows) => Ok(MapOfRows(rows))
      case Err(e) => Err(e)
  }

  /** `calculate_daily_trade_map`. */
  method CalculateDailyTradeMap(trades: seq<Option<TradeInput>>, methodName: string)
    returns (result: map<string, map<string, Cell>>)
    ensures DailyTradeMap(trades, methodName) == Ok(result)
  {
    var records := CollectRecords(trades);
    if records == [] {
      return map[];
    }
    ghost var traced := EngineRows(trades, methodName);
    var rows := DailyPnl(records, methodName).value;
    result := FillMap(rows);
  }

  /** The first loop: the records of the trades that convert. */
  method CollectRecords(trades: seq<Option<TradeInput>>) returns (records: seq<TradeRecord>)
    ensures records == Records(trades)
  {
    records := [];
    for i := 0 to |trades|
      invariant records == Records(trades[..i])
    {
      assert trades[..i + 1][..i] == trades[..i];
      var record := TradeToRecord(trades[i]);
      if record.Some? {
        records := records + [record.value];
      }
    }
    assert trades[..|trades|] == trades;
  }

  /** The second loop: one entry per row, under its normalised date. */
  method FillMap(rows: seq<DailyRow>) returns (result: map<string, map<string, Cell>>)
    ensures result == MapOfRows(rows)
  {
    result := map[];
    for j := 0 to |rows|
      invariant result == MapOfRows(rows[..j])
    {
      assert rows[..j + 1][..j] == rows[..j];
      var key := RowKey(rows[j].date);
      if key.Some? && key.value != [] {
        result := result[key.value := Totals(CoerceNumber(Num(rows[j].realizedPl)), CoerceNumber(Num(rows[j].tradeValue)))];
      }
    }
    assert rows[..|rows|] == rows;
  }

  /** Every record of `Records` came from some trade that converts to it. */
  lemma {:induction false} RecordSource(trades: seq<Option<TradeInput>>, k: nat) returns (i: nat)
    requires k < |Records(trades)|
    ensures i < |trades| && TradeToRecord(trades[i]) == Some(Records(trades)[k])
    decreases |trades|
  {
    var front := Records(trades[..|trades| - 1]);
    if k < |front| {
      i := RecordSource(trades[..|trades| - 1], k);
      assert trades[i] == trades[..|trades| - 1][i];
    } else {
      i := |trades| - 1;
    }
  }

  /** Every trade that converts has its record in `Records`. */
  lemma {:induction false} RecordPlace(trades: seq<Option<TradeInput>>, i: nat) returns (k: nat)
    requires i < |trades| && TradeToRecord(trades[i]).Some?
    ensures k < |Records(trades)| && Records(trades)[k] == TradeToRecord(trades[i]).value
    decreases |trades|
  {
    var front := Records(trades[..|trades| - 1]);
    if i < |trades| - 1 {
      assert trades[..|trades| - 1][i] == trades[i];
      k := RecordPlace(trades[..|trades| - 1], i);
    } else {
      k := |front|;
    }
  }

  /** Every record of `Records` has every field the engine requires, and a valid date. */
  lemma RecordsComplete(trades: seq<Option<TradeInput>>, k: nat)
    requires k < |Records(trades)|
    ensures var r := Records(trades)[k];
      r.date.Some? && ValidDate(r.date.value) && r.side.Some? && r.symbol.Some? && r.quantity.Some? && r.price.Some?
  {
    var i := RecordSource(trades, k);
  }

  /**
   * The engine never raises on converted records: every record has a date,
   * a side, a symbol, a quantity and a price.
   */
  lemma RecordsNeverFail(trades: seq<Option<TradeInput>>, methodName: string)
    requires Records(trades) != []
    ensures DailyPnl(Records(trades), methodName) == Ok(RowsOf(Records(trades), methodName))
  {
    var records := Records(trades);
    RecordsComplete(trades, 0);
    assert HasField(records[0], DateCol) && HasField(records[0], SideCol) && HasField(records[0], SymbolCol);
    assert HasField(records[0], QuantityCol) && HasField(records[0], PriceCol);
    assert HasColumn(records, DateCol) && HasColumn(records, SideCol);
    assert HasColumn(records, SymbolCol) && HasColumn(records, QuantityCol) && HasColumn(records, PriceCol);
    assert !NoColumns(records);
    NoDailyRowsIff(records, methodName);
  }

  /** `calculate_daily_trade_map` never fails. */
  lemma DailyTradeMapOk(trades: seq<Option<TradeInput>>, methodName: string)
    ensures DailyTradeMap(trades, methodName).Ok?
  {
    if Records(trades) != [] {
      RecordsNeverFail(trades, methodName);
    }
  }

  /** Printed dates that are valid have no blank key. */
  lemma RowKeyOfValid(d: Date)
    requires ValidDate(d)
    ensures RowKey(d) == Some(FormatDate(d)) && FormatDate(d) != []
  {
  }

  /** Every key of `MapOfRows` is the printed date of one of the rows. */
  lemma {:induction false} KeyHasRow(rows: seq<DailyRow>, k: string) returns (i: nat)
    requires k in MapOfRows(rows)
    ensures i < |rows| && ValidDate(rows[i].date) && FormatDate(rows[i].date) == k
    decreases |rows|
  {
    var front := rows[..|rows| - 1];
    var last := rows[|rows| - 1];
    if ValidDate(last.date) && FormatDate(last.date) == k {
      i := |rows| - 1;
    } else {
      assert k in MapOfRows(front);
      i := KeyHasRow(front, k);
      assert rows[i] == front[i];
    }
  }

  /** Every row with a valid date leaves its printed date among the keys. */
  lemma {:induction false} RowHasKey(rows: seq<DailyRow>, i: nat)
    requires i < |rows| && ValidDate(rows[i].date)
    ensures FormatDate(rows[i].date) in MapOfRows(rows)
    decreases |rows|
  {
    var front := rows[..|rows| - 1];
    var last := rows[|rows| - 1];
    if i < |rows| - 1 {
      assert front[i] == rows[i];
      RowHasKey(front, i);
      if ValidDate(last.date) {
        RowKeyOfValid(last.date);
      }
    } else {
      RowKeyOfValid(last.date);
    }
  }

  /**
   * When the rows have strictly ascending valid dates, each row's entry
   * holds that row's realised profit and traded value.
   */
  lemma {:induction false} MapOfRowsValues(rows: seq<DailyRow>, i: nat)
    requires i < |rows|
    requires forall j :: 0 <= j < |rows| ==> ValidDate(rows[j].date)
    requires forall j :: 0 <= j < |rows| - 1 ==> DateBefore(rows[j].date, rows[j + 1].date)
    ensures FormatDate(rows[i].date) in MapOfRows(rows)
    ensures MapOfRows(rows)[FormatDate(rows[i].date)] == Totals(rows[i].realizedPl, rows[i].tradeValue)
    decreases |rows|
  {
    var front := rows[..|rows| - 1];
    var last := rows[|rows| - 1];
    RowKeyOfValid(last.date);
    if i < |rows| - 1 {
      assert front[i] == rows[i];
      MapOfRowsValues(front, i);
      AscendingBefore(rows, i);
      if FormatDate(rows[i].date) == FormatDate(last.date) {
        FormatDateInjective(rows[i].date, last.date);
        assert false;
      }
    }
  }

  /** In a strictly ascending run, an earlier date is not the last one. */
  lemma {:induction false} AscendingBefore(rows: seq<DailyRow>, i: nat)
    requires i < |rows| - 1
    requires forall j :: 0 <= j < |rows| - 1 ==> DateBefore(rows[j].date, rows[j + 1].date)
    ensures rows[i].date != rows[|rows| - 1].date
    ensures DateBefore(rows[i].date, rows[|rows| - 1].date)
    decreases |rows| - i
  {
    if i < |rows| - 2 {
      AscendingBefore(rows, i + 1);
    }
  }

  /** A trade's key: the printed date of its record, when it converts. */
  predicate KeyedBy(trade: Option<TradeInput>, k: string)
  {
    TradeToRecord(trade).Some? && FormatDate(TradeToRecord(trade).value.date.value) == k
  }

  /** The facts about the engine's rows that the dictionary relies on. */
  predicate Traced(records: seq<TradeRecord>, rows: seq<DailyRow>)
  {
    && (forall i :: 0 <= i < |rows| - 1 ==> DateBefore(rows[i].date, rows[i + 1].date))
    && (forall i :: 0 <= i < |rows| ==> exists j :: 0 <= j < |records| && records[j].date == Some(rows[i].date))
    && (forall j :: 0 <= j < |records| && RecordDate(records, j).Some? ==>
          exists i :: 0 <= i < |rows| && Some(rows[i].date) == RecordDate(records, j))
  }

  /** The date of record `j`; a name of its own keeps the two directions of `Traced` apart. */
  function RecordDate(records: seq<TradeRecord>, j: nat): Option<Date>
    requires j < |records|
  {
    records[j].date
  }

  lemma RowsTraceBack(records: seq<TradeRecord>, methodName: string)
    ensures var rows := RowsOf(records, methodName);
      forall i :: 0 <= i < |rows| ==> exists j :: 0 <= j < |records| && records[j].date == Some(rows[i].date)
  {
    RowsFromRecords(records, methodName);
  }

  lemma RowsShowRecords(records: seq<TradeRecord>, methodName: string)
    ensures var rows := RowsOf(records, methodName);
      forall j :: 0 <= j < |records| && RecordDate(records, j).Some? ==>
        exists i :: 0 <= i < |rows| && Some(rows[i].date) == RecordDate(records, j)
  {
    RecordsInRows(records, methodName);
  }

  /** The engine's rows for the converted records, and the dictionary built from them. */
  lemma EngineRows(trades: seq<Option<TradeInput>>, methodName: string) returns (rows: seq<DailyRow>)
    requires Records(trades) != []
    ensures DailyPnl(Records(trades), methodName) == Ok(rows)
    ensures DailyTradeMap(trades, methodName) == Ok(MapOfRows(rows))
    ensures Traced(Records(trades), rows)
  {
    RecordsNeverFail(trades, methodName);
    rows := RowsOf(Records(trades), methodName);
    RowsAscending(Records(trades), methodName);
    RowsTraceBack(Records(trades), methodName);
    RowsShowRecords(Records(trades), methodName);
  }

  /** Every row of the engine carries a date some converted trade has, so a valid one. */
  lemma TracedValid(trades: seq<Option<TradeInput>>, rows: seq<DailyRow>)
    requires Traced(Records(trades), rows)
    ensures forall i :: 0 <= i < |rows| ==> ValidDate(rows[i].date)
  {
    var records := Records(trades);
    forall i | 0 <= i < |rows| ensures ValidDate(rows[i].date) {
      var j :| 0 <= j < |records| && records[j].date == Some(rows[i].date);
      RecordsComplete(trades, j);
    }
  }

  /** A key of the dictionary is the date of some converted trade. */
  lemma KeyFromTrade(trades: seq<Option<TradeInput>>, rows: seq<DailyRow>, k: string) returns (t: nat)
    requires Traced(Records(trades), rows) && k in MapOfRows(rows)
    ensures t < |trades| && KeyedBy(trades[t], k)
  {
    var records := Records(trades);
    var i := KeyHasRow(rows, k);
    var j :| 0 <= j < |records| && records[j].date == Some(rows[i].date);
    t := RecordSource(trades, j);
  }

  /** The date of a converted record is a key of the dictionary. */
  lemma KeyOfRecord(records: seq<TradeRecord>, rows: seq<DailyRow>, j: nat, k: string)
    requires Traced(records, rows) && j < |records| && records[j].date.Some?
    requires ValidDate(records[j].date.value) && FormatDate(records[j].date.value) == k
    ensures k in MapOfRows(rows)
  {
    assert RecordDate(records, j).Some?;
    var i :| 0 <= i < |rows| && Some(rows[i].date) == RecordDate(records, j);
    RowHasKey(rows, i);
  }

  /**
   * The keys of `calculate_daily_trade_map` are exactly the printed dates of
   * the trades that convert.
   */
  lemma DailyTradeMapKeys(trades: seq<Option<TradeInput>>, methodName: string, k: string)
    ensures DailyTradeMap(trades, methodName).Ok?
    ensures k in DailyTradeMap(trades, methodName).value <==> exists i :: 0 <= i < |trades| && KeyedBy(trades[i], k)
  {
    if Records(trades) == [] {
      if exists i :: 0 <= i < |trades| && KeyedBy(trades[i], k) {
        var i :| 0 <= i < |trades| && KeyedBy(trades[i], k);
        var _ := RecordPlace(trades, i);
      }
    } else {
      var rows := EngineRows(trades, methodName);
      if k in MapOfRows(rows) {
        var t := KeyFromTrade(trades, rows, k);
      }
      if exists i :: 0 <= i < |trades| && KeyedBy(trades[i], k) {
        var i :| 0 <= i < |trades| && KeyedBy(trades[i], k);
        var j := RecordPlace(trades, i);
        KeyOfRecord(Records(trades), rows, j, k);
      }
    }
  }

  /** The result is `{}` exactly when no trade converts. */
  lemma DailyTradeMapEmpty(trades: seq<Option<TradeInput>>, methodName: string)
    ensures DailyTradeMap(trades, methodName).Ok?
    ensures DailyTradeMap(trades, methodName).value == map[] <==> forall i :: 0 <= i < |trades| ==> !Accepted(trades[i])
  {
    DailyTradeMapOk(trades, methodName);
    var m := DailyTradeMap(trades, methodName).value;
    if m == map[] {
      forall i | 0 <= i < |trades| ensures !Accepted(trades[i]) {
        if Accepted(trades[i]) {
          var k := FormatDate(TradeToRecord(trades[i]).value.date.value);
          assert KeyedBy(trades[i], k);
          DailyTradeMapKeys(trades, methodName, k);
        }
      }
    } else {
      var k :| k in m;
      DailyTradeMapKeys(trades, methodName, k);
      var i :| 0 <= i < |trades| && KeyedBy(trades[i], k);
      TradeAcceptedIff(trades[i]);
    }
  }

  /**
   * Each day's entry holds the realised profit and traded value of the
   * engine's row for that day.
   */
  lemma DailyTradeMapValues(trades: seq<Option<TradeInput>>, methodName: string) returns (rows: seq<DailyRow>)
    requires Records(trades) != []
    ensures DailyPnl(Records(trades), methodName) == Ok(rows)
    ensures DailyTradeMap(trades, methodName) == Ok(MapOfRows(rows))
    ensures forall i :: 0 <= i < |rows| ==> ValidDate(rows[i].date) && FormatDate(rows[i].date) in MapOfRows(rows)
    ensures forall i :: 0 <= i < |rows| ==>
      MapOfRows(rows)[FormatDate(rows[i].date)] == Totals(rows[i].realizedPl, rows[i].tradeValue)
  {
    rows := EngineRows(trades, methodName);
    TracedValid(trades, rows);
    forall i | 0 <= i < |rows|
      ensures FormatDate(rows[i].date) in MapOfRows(rows)
      ensures MapOfRows(rows)[FormatDate(rows[i].date)] == Totals(rows[i].realizedPl, rows[i].tradeValue)
    {
      MapOfRowsValues(rows, i);
    }
  }

  // ----- upsert_daily_summaries ------------------------------------------

  /** `values.get(key, 0.0)`. */
  function Field(values: map<string, Cell>, key: string): Cell
  {
    if key in values then values[key] else Num(0.0)
  }

  /** `timestamp`, or the current time when it is missing or empty. */
  function StampOrNow(timestamp: Option<string>, now: string): (ts: string)
    ensures timestamp.Some? && timestamp.value != [] ==> ts == timestamp.value
    ensures (timestamp.None? || timestamp.value == []) ==> ts == now
  {
    if timestamp.None? || timestamp.value == [] then now else timestamp.value
  }

  /**
   * One day written: an existing row gets realised, invested and the
   * timestamp and keeps its unrealised figure; a new row starts with the
   * column default 0.0 for unrealised.
   */
  function Applied(row: Option<DailySummary>, values: map<string, Cell>, ts: string): DailySummary
  {
    var realized := CoerceNumber(Field(values, "realized"));
    var invested := CoerceNumber(Field(values, "total_invested"));
    match row
    case None => DailySummary(realized, 0.0, invested, ts)
    case Some(s) => s.(realized := realized, totalInvested := invested, updatedAt := ts)
  }

  /** `summaries[k]`, or `None` when there is no row. */
  function RowAt(summaries: map<string, DailySummary>, k: string): Option<DailySummary>
  {
    if k in summaries then Some(summaries[k]) else None
  }

  /** The table with one more day written over whatever row it has. */
  function Put(summaries: map<string, DailySummary>, day: string, values: map<string, Cell>, ts: string)
    : map<string, DailySummary>
  {
    summaries[day := Applied(RowAt(summaries, day), values, ts)]
  }

  /**
   * The table after `upsert_daily_summaries`, the map given by its items in
   * iteration order. Rows are looked up once before the loop; since a
   * dictionary holds each day once, reading the current row instead is the
   * same (and `PutTwice` shows even a repeated day would end the same).
   */
  function Upserted(stored: map<string, DailySummary>, items: seq<(string, map<string, Cell>)>, ts: string)
    : map<string, DailySummary>
  {
    if items == [] then stored
    else
      var last := items[|items| - 1];
      Put(Upserted(stored, items[..|items| - 1], ts), last.0, last.1, ts)
  }

  /** The values the last item for `day` carries, if any. */
  function LastValues(items: seq<(string, map<string, Cell>)>, day: string): Option<map<string, Cell>>
  {
    if items == [] then None
    else if items[|items| - 1].0 == day then Some(items[|items| - 1].1)
    else LastValues(items[..|items| - 1], day)
  }

  /** `upsert_daily_summaries`: nothing for an empty map, else every day written with one timestamp. */
  method UpsertDailySummaries(db: Database, items: seq<(string, map<string, Cell>)>, timestamp: Option<string>, now: string)
    modifies db
    ensures db.summaries == Upserted(old(db.summaries), items, StampOrNow(timestamp, now))
    ensures db.trades == old(db.trades) && db.meta == old(db.meta)
  {
    if |items| == 0 {
      return;
    }
    var ts := if timestamp.None? || timestamp.value == [] then now else timestamp.value;
    var summaries := db.summaries;
    for i := 0 to |items|
      invariant summaries == Upserted(db.summaries, items[..i], ts)
    {
      assert items[..i + 1][..i] == items[..i];
      var (day, values) := items[i];
      var row := if day in summaries then Some(summaries[day]) else None;
      summaries := summaries[day := Applied(row, values, ts)];
    }
    assert items[..|items|] == items;
    db.summaries := summaries;
  }

  /** Writing a day twice is writing it once with the later values: the last write wins. */
  lemma PutTwice(row: Option<DailySummary>, first: map<string, Cell>, second: map<string, Cell>, ts: string)
    ensures Applied(Some(Applied(row, first, ts)), second, ts) == Applied(row, second, ts)
  {
  }

  /**
   * Day by day: a day some item names ends with the values of the last such
   * item applied to its stored row; every other stored row stays as it was;
   * no other row appears.
   */
  lemma {:induction false} UpsertedAt(stored: map<string, DailySummary>, items: seq<(string, map<string, Cell>)>, ts: string, k: string)
    ensures k in Upserted(stored, items, ts) <==> k in stored || LastValues(items, k).Some?
    ensures LastValues(items, k).Some? ==>
      Upserted(stored, items, ts)[k] == Applied(RowAt(stored, k), LastValues(items, k).value, ts)
    ensures k in stored && LastValues(items, k).None? ==> Upserted(stored, items, ts)[k] == stored[k]
  {
    if items != [] {
      var front := items[..|items| - 1];
      var last := items[|items| - 1];
      UpsertedAt(stored, front, ts, k);
      if last.0 == k && LastValues(front, k).Some? {
        PutTwice(RowAt(stored, k), LastValues(front, k).value, last.1, ts);
      }
    }
  }

  /**
   * Every day of the map is in the table with the coerced realised and
   * invested figures and the timestamp; a day that had a row keeps its
   * unrealised figure, a new day gets 0.0.
   */
  lemma UpsertWritesDays(stored: map<string, DailySummary>, items: seq<(string, map<string, Cell>)>, ts: string, k: string)
    requires LastValues(items, k).Some?
    ensures var r := Upserted(stored, items, ts); var values := LastValues(items, k).value;
      && k in r
      && r[k].realized == CoerceNumber(Field(values, "realized"))
      && r[k].totalInvested == CoerceNumber(Field(values, "total_invested"))
      && r[k].updatedAt == ts
      && r[k].unrealized == (if k in stored then stored[k].unrealized else 0.0)
  {
    UpsertedAt(stored, items, ts, k);
  }

  /** Days outside the map keep their rows, and no row disappears. */
  lemma UpsertKeepsOthers(stored: map<string, DailySummary>, items: seq<(string, map<string, Cell>)>, ts: string, k: string)
    requires k in stored
    ensures k in Upserted(stored, items, ts)
    ensures LastValues(items, k).None? ==> Upserted(stored, items, ts)[k] == stored[k]
  {
    UpsertedAt(stored, items, ts, k);
  }

  /** Two item lists that end with the same values for every day give the same table: order does not matter. */
  lemma UpsertOrderFree(stored: map<string, DailySummary>, a: seq<(string, map<string, Cell>)>,
                        b: seq<(string, map<string, Cell>)>, ts: string)
    requires forall k :: LastValues(a, k) == LastValues(b, k)
    ensures Upserted(stored, a, ts) == Upserted(stored, b, ts)
  {
    var ra, rb := Upserted(stored, a, ts), Upserted(stored, b, ts);
    forall k ensures (k in ra <==> k in rb) && (k in ra ==> ra[k] == rb[k]) {
      UpsertedAt(stored, a, ts, k);
      UpsertedAt(stored, b, ts, k);
    }
    assert ra.Keys == rb.Keys;
  }

  /** Writing the same map twice with the same timestamp is writing it once. */
  lemma UpsertIdempotent(stored: map<string, DailySummary>, items: seq<(string, map<string, Cell>)>, ts: string)
    ensures Upserted(Upserted(stored, items, ts), items, ts) == Upserted(stored, items, ts)
  {
    var once := Upserted(stored, items, ts);
    var twice := Upserted(once, items, ts);
    forall k ensures (k in twice <==> k in once) && (k in twice ==> twice[k] == once[k]) {
      UpsertedAt(stored, items, ts, k);
      UpsertedAt(once, items, ts, k);
      if LastValues(items, k).Some? {
        PutTwice(RowAt(stored, k), LastValues(items, k).value, LastValues(items, k).value, ts);
      }
    }
    assert twice.Keys == once.Keys;
  }

  /** The items of the dictionary `calculate_daily_trade_map` builds for one day. */
  lemma TradeMapLands(stored: map<string, DailySummary>, realized: real, invested: real, ts: string, day: string)
    ensures var r := Upserted(stored, [(day, Totals(realized, invested))], ts);
      day in r && r[day].realized == realized && r[day].totalInvested == invested && r[day].updatedAt == ts
  {
    UpsertWritesDays(stored, [(day, Totals(realized, invested))], ts, day);
  }
}
