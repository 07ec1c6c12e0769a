/**
 * `app/services/simulation_runner.py`: turning the simulator's trade records
 * into trade rows, and the bookkeeping of `import_simulated_trades` around
 * them. The simulator itself, the data reset, the database session, the
 * summary recomputation and the application reload are not part of this
 * model: the simulator's output arrives as parameters.
 */
module SimulationRunner {

  import opened Common
  import opened Text
  import opened Numbers
  import opened Dates
  import opened Store
  import opened ImportText

  /** One record of the simulator's trade table (`to_dict("records")`): column name to cell. */
  type SimRecord = map<string, Cell>

  /**
   * The text `str()` gives a numeric cell. CPython prints a float as the
   * shortest decimal that reads back as the same float ("5.0", "0.1",
   * "1e+16"); that algorithm is not part of this model, so the members below
   * take it as the parameter `shown`.
   */
  type NumberText = real -> string

  /**
   * `SimulationError`: a date that is not MM/DD/YYYY (with its stripped
   * text), any other bad record, or an empty trade table.
   */
  datatype SimError = InvalidDate(raw: string) | InvalidRecord | NoTrades

  // ----- _prepare_trade_records ------------------------------------------

  /** `str(row.get(key, ""))`: a missing cell is "", `None` is "None", text is itself and a number is printed. */
  function FieldText(rec: SimRecord, key: string, shown: NumberText): string
  {
    if key !in rec then ""
    else match rec[key]
      case Str(s) => s
      case Null => "None"
      case Num(n) => shown(n)
  }

  /** `float(row.get(key, 0.0))`: a missing cell is 0, `None` is a `TypeError`, text must be a decimal numeral. */
  function FieldFloat(rec: SimRecord, key: string): Option<real>
  {
    if key !in rec then Some(0.0)
    else match rec[key]
      case Num(n) => Some(n)
      case Null => None
      case Str(s) => ParseDecimal(s)
  }

  /** `str(row.get(key, "")).strip().upper()`. */
  function FieldWord(rec: SimRecord, key: string, shown: NumberText): string
  {
    Upper(Strip(FieldText(rec, key, shown)))
  }

  /** What a prepared row always satisfies. */
  predicate Prepared(t: TradeFields)
  {
    && IsIsoDate(t.date)
    && t.symbol != [] && Upper(Strip(t.symbol)) == t.symbol
    && t.action in {"BUY", "SELL"}
    && t.qty > 0.0 && t.price > 0.0
  }

  /** `datetime.strptime(raw, "%m/%d/%Y").strftime("%Y-%m-%d")`. */
  function UsDate(raw: string): (r: Option<string>)
    ensures r.Some? ==> IsIsoDate(r.value)
  {
    match ParseDateWith(raw, MonthDayYear)
    case None => None
    case Some(d) =>
      ParseFormatDate(d);
      Some(FormatDate(d))
  }

  /** `raw_date` and its conversion: the date is read first, and a bad one is reported with its text. */
  function RecordDate(rec: SimRecord, shown: NumberText): (r: Result<string, SimError>)
    ensures r.Ok? ==> IsIsoDate(r.value)
  {
    var rawDate := Strip(FieldText(rec, "date", shown));
    var date := UsDate(rawDate);
    if date.None? then Err(InvalidDate(rawDate)) else Ok(date.value)
  }

  /** The rest of the iteration: the three numbers must parse, then the record is checked. */
  function RecordFields(rec: SimRecord, date: string, shown: NumberText): (r: Result<TradeFields, SimError>)
    requires IsIsoDate(date)
    ensures r.Ok? ==> Prepared(r.value) && r.value.date == date
  {
    var symbol := FieldWord(rec, "symbol", shown);
    var action := FieldWord(rec, "action", shown);
    var qty := FieldFloat(rec, "qty");
    var price := FieldFloat(rec, "price");
    var amount := FieldFloat(rec, "amount");
    if qty.None? || price.None? || amount.None? then Err(InvalidRecord)
    else if symbol == [] || action !in {"BUY", "SELL"} || qty.value <= 0.0 || price.value <= 0.0 then Err(InvalidRecord)
    else
      UpperStripIdempotent(FieldText(rec, "symbol", shown));
      Ok(TradeFields(date, symbol, action, qty.value, price.value, amount.value))
  }

  /** One iteration of the loop. The first failure is the error. */
  function PrepareRecord(rec: SimRecord, shown: NumberText): Result<TradeFields, SimError>
  {
    match RecordDate(rec, shown)
    case Err(e) => Err(e)
    case Ok(date) => RecordFields(rec, date, shown)
  }

  /** A prepared row has an ISO date, a non-blank upper-case symbol, a BUY or SELL action, and positive quantity and price. */
  lemma PrepareRecordPrepared(rec: SimRecord, shown: NumberText)
    requires PrepareRecord(rec, shown).Ok?
    ensures Prepared(PrepareRecord(rec, shown).value)
  {
  }

  lemma UpperStripIdempotent(s: string)
    ensures Upper(Strip(Upper(Strip(s)))) == Upper(Strip(s))
  {
    var t := Strip(s);
    StripUpper(t);
    StripIdempotent(s);
    assert Upper(Upper(t)) == Upper(t);
  }

  /**
   * A record is accepted exactly when its date reads as MM/DD/YYYY, its
   * numbers parse, its symbol is not blank, its action is BUY or SELL, and
   * quantity and price are positive.
   */
  lemma PrepareRecordAccepts(rec: SimRecord, shown: NumberText)
    ensures PrepareRecord(rec, shown).Ok? <==>
      && UsDate(Strip(FieldText(rec, "date", shown))).Some?
      && FieldWord(rec, "symbol", shown) != []
      && FieldWord(rec, "action", shown) in {"BUY", "SELL"}
      && FieldFloat(rec, "qty").Some? && FieldFloat(rec, "qty").value > 0.0
      && FieldFloat(rec, "price").Some? && FieldFloat(rec, "price").value > 0.0
      && FieldFloat(rec, "amount").Some?
  {
  }

  /** An accepted record's row holds the ISO date, the stripped upper-case words and the three numbers. */
  lemma PrepareRecordFields(rec: SimRecord, shown: NumberText)
    requires PrepareRecord(rec, shown).Ok?
    ensures
      var t := PrepareRecord(rec, shown).value;
      && t.date == UsDate(Strip(FieldText(rec, "date", shown))).value
      && t.symbol == Upper(Strip(FieldText(rec, "symbol", shown)))
      && t.action == Upper(Strip(FieldText(rec, "action", shown)))
      && t.qty == FieldFloat(rec, "qty").value && t.price == FieldFloat(rec, "price").value
      && t.amount == FieldFloat(rec, "amount").value
  {
  }

  /** Two records whose six cells read alike are prepared alike. */
  lemma SameReadingSamePrepared(a: SimRecord, b: SimRecord, shown: NumberText)
    requires forall k :: k in {"date", "symbol", "action"} ==> FieldText(a, k, shown) == FieldText(b, k, shown)
    requires forall k :: k in {"qty", "price", "amount"} ==> FieldFloat(a, k) == FieldFloat(b, k)
    ensures PrepareRecord(a, shown) == PrepareRecord(b, shown)
  {
    assert FieldText(a, "date", shown) == FieldText(b, "date", shown);
    assert RecordDate(a, shown) == RecordDate(b, shown);
    assert FieldText(a, "symbol", shown) == FieldText(b, "symbol", shown);
    assert FieldText(a, "action", shown) == FieldText(b, "action", shown);
    assert FieldFloat(a, "qty") == FieldFloat(b, "qty");
    assert FieldFloat(a, "price") == FieldFloat(b, "price");
    assert FieldFloat(a, "amount") == FieldFloat(b, "amount");
  }

  /**
   * A number in the date, symbol or action column is read as the text
   * `str()` prints for it: the record fares exactly as one holding that text.
   */
  lemma NumberReadAsText(rec: SimRecord, key: string, n: real, shown: NumberText)
    requires key in {"date", "symbol", "action"} && key in rec && rec[key] == Num(n)
    ensures PrepareRecord(rec, shown) == PrepareRecord(rec[key := Str(shown(n))], shown)
  {
    var other := rec[key := Str(shown(n))];
    forall k | k in {"date", "symbol", "action"} ensures FieldText(rec, k, shown) == FieldText(other, k, shown) {
    }
    forall k | k in {"qty", "price", "amount"} ensures FieldFloat(rec, k) == FieldFloat(other, k) {
      assert k != key;
    }
    SameReadingSamePrepared(rec, other, shown);
  }

  /** A date that does not read as MM/DD/YYYY is reported before anything else is looked at. */
  lemma PrepareRecordDateFirst(rec: SimRecord, shown: NumberText)
    requires UsDate(Strip(FieldText(rec, "date", shown))).None?
    ensures PrepareRecord(rec, shown) == Err(InvalidDate(Strip(FieldText(rec, "date", shown))))
  {
  }

  /** Only the MM/DD/YYYY layout is accepted: an ISO date is refused. */
  lemma IsoDateRefused(rec: SimRecord, shown: NumberText)
    requires '/' !in FieldText(rec, "date", shown)
    ensures PrepareRecord(rec, shown).Err? && PrepareRecord(rec, shown).error.InvalidDate?
  {
    var raw := FieldText(rec, "date", shown);
    var t := Strip(raw);
    var i, j := StripShape(raw);
    assert '/' !in t by {
      forall k | 0 <= k < |t| ensures t[k] != '/' {
        assert t[k] == raw[i + k];
      }
    }
    assert SplitOn(t, '/') == [t];
  }

  /** `_prepare_trade_records` as a value: every record prepared in order, or the first record's error. */
  function PrepareAll(records: seq<SimRecord>, shown: NumberText): Result<seq<TradeFields>, SimError>
  {
    AllOk(Mapped(records, Preparer(shown)))
  }

  /** The preparation of one record, as a function value. */
  function Preparer(shown: NumberText): SimRecord -> Result<TradeFields, SimError>
  {
    rec => PrepareRecord(rec, shown)
  }

  /**
   * On success the output has the input's length and order, row i being
   * record i prepared; on failure the error is that of the first record
   * that fails, every earlier record being fine.
   */
  lemma PrepareAllMeaning(records: seq<SimRecord>, shown: NumberText)
    ensures PrepareAll(records, shown).Ok? <==> forall i :: 0 <= i < |records| ==> PrepareRecord(records[i], shown).Ok?
    ensures PrepareAll(records, shown).Ok? ==>
      |PrepareAll(records, shown).value| == |records|
      && forall i :: 0 <= i < |records| ==> PrepareRecord(records[i], shown) == Ok(PrepareAll(records, shown).value[i])
    ensures PrepareAll(records, shown).Err? ==>
      exists i :: (0 <= i < |records| && PrepareRecord(records[i], shown) == Err(PrepareAll(records, shown).error)
        && forall j :: 0 <= j < i ==> PrepareRecord(records[j], shown).Ok?)
  {
    AllOkMeaning(Mapped(records, Preparer(shown)));
  }

  /** Every row of a successful preparation is a well-formed trade row. */
  lemma PrepareAllPrepared(records: seq<SimRecord>, shown: NumberText)
    requires PrepareAll(records, shown).Ok?
    ensures forall t :: t in PrepareAll(records, shown).value ==> Prepared(t)
  {
    PrepareAllMeaning(records, shown);
    forall t | t in PrepareAll(records, shown).value ensures Prepared(t) {
      var i :| 0 <= i < |PrepareAll(records, shown).value| && PrepareAll(records, shown).value[i] == t;
      assert PrepareRecord(records[i], shown) == Ok(t);
      PrepareRecordPrepared(records[i], shown);
    }
  }

  /** The loop of `_prepare_trade_records`: append each prepared record, or stop at the first error. */
  method PrepareTradeRecords(records: seq<SimRecord>, shown: NumberText) returns (r: Result<seq<TradeFields>, SimError>)
    ensures r == PrepareAll(records, shown)
  {
    r := CollectOks(records, Preparer(shown));
  }

  // ----- import_simulated_trades ----------------------------------------

  /** The response dictionary of `import_simulated_trades`, with the rows it writes to the reset database. */
  datatype SimulationResponse = SimulationResponse(
    generateOnly: bool,
    metadata: map<string, Value>,
    message: Option<string>,
    imported: seq<TradeFields>,
    tradesImported: Option<nat>,
    daysWithTrades: Option<nat>,
    reload: bool)

  const CacheMessage: string := "Symbol and price caches have been updated."

  /** The distinct dates of the prepared rows (`{trade["date"] for trade in prepared}`). */
  function TradeDays(rows: seq<TradeFields>): set<string>
  {
    set i | 0 <= i < |rows| :: rows[i].date
  }

  /** There is at least one day with trades when there are trades, and never more days than trades. */
  lemma {:induction false} TradeDaysBounds(rows: seq<TradeFields>)
    ensures |TradeDays(rows)| <= |rows|
    ensures rows != [] ==> |TradeDays(rows)| >= 1
    decreases |rows|
  {
    if rows != [] {
      var n := |rows| - 1;
      var init := rows[..n];
      TradeDaysBounds(init);
      assert TradeDays(rows) == TradeDays(init) + {rows[n].date} by {
        forall d | d in TradeDays(rows) ensures d in TradeDays(init) + {rows[n].date} {
          var i :| 0 <= i < |rows| && rows[i].date == d;
          if i < n {
            assert init[i] == rows[i];
          }
        }
        forall d | d in TradeDays(init) ensures d in TradeDays(rows) {
          var i :| 0 <= i < n && init[i].date == d;
          assert rows[i] == init[i];
        }
      }
      assert rows[n].date in TradeDays(rows);
    }
  }

  /** All rows on one day count as a single day. */
  lemma SameDayTrades(rows: seq<TradeFields>, day: string)
    requires rows != [] && forall i :: 0 <= i < |rows| ==> rows[i].date == day
    ensures TradeDays(rows) == {day}
  {
    assert rows[0].date in TradeDays(rows);
  }

  /**
   * `import_simulated_trades` after the simulator has run, given its
   * metadata and records: with `generate_only` only the status is defaulted
   * and nothing is imported; otherwise an empty table is an error, the
   * records are prepared, and the metadata records what was imported.
   */
  method ImportSimulatedTrades(generateOnly: bool, metadata: map<string, Value>, records: seq<SimRecord>, shown: NumberText)
    returns (r: Result<SimulationResponse, SimError>)
    ensures generateOnly ==> (r.Ok? && !r.value.reload && r.value.generateOnly && r.value.imported == []
      && r.value.message == Some(CacheMessage)
      && r.value.metadata == (if "status" in metadata then metadata else metadata["status" := StrValue("cache_updated")]))
    ensures !generateOnly && records == [] ==> r == Err(NoTrades)
    ensures !generateOnly && records != [] && PrepareAll(records, shown).Err? ==> r == Err(PrepareAll(records, shown).error)
    ensures !generateOnly && records != [] && PrepareAll(records, shown).Ok? ==>
      (var rows := PrepareAll(records, shown).value;
      && r.Ok? && r.value.reload && !r.value.generateOnly && r.value.imported == rows
      && r.value.tradesImported == Some(|records|)
      && r.value.daysWithTrades == Some(|TradeDays(rows)|)
      && 1 <= |TradeDays(rows)| <= |records|
      && r.value.metadata == metadata["status" := StrValue("trades_imported")]
                                     ["trades_imported" := IntValue(|records|)]
                                     ["days_with_trades" := IntValue(|TradeDays(rows)|)])
  {
    var meta := metadata;
    if generateOnly {
      if "status" !in meta {
        meta := meta["status" := StrValue("cache_updated")];
      }
      return Ok(SimulationResponse(true, meta, Some(CacheMessage), [], None, None, false));
    }
    if records == [] {
      return Err(NoTrades);
    }
    var prepared := PrepareTradeRecords(records, shown);
    if prepared.Err? {
      return Err(prepared.error);
    }
    var rows := prepared.value;
    PrepareAllMeaning(records, shown);
    TradeDaysBounds(rows);
    var days := |TradeDays(rows)|;
    meta := meta["status" := StrValue("trades_imported")];
    meta := meta["trades_imported" := IntValue(|rows|)];
    meta := meta["days_with_trades" := IntValue(days)];
    return Ok(SimulationResponse(false, meta, None, rows, Some(|rows|), Some(days), true));
  }
}
