/**
 * The generic trade CSV importer (`parse_trade_csv`): headers are
 * canonicalised through an alias table, every non-blank row is read into a
 * header-to-cell dictionary, and a row becomes a trade when it has a date,
 * a symbol, an action, a non-zero quantity and a price or an amount.
 *
 * The CSV text arrives already split into rows of cells, the first row
 * being the header row.
 */
module ImportTradesCsv {

  import opened Common
  import opened Text
  import opened Numbers
  import opened Dates
  import opened Store
  import opened ImportText

  // ----- headers --------------------------------------------------------

  /** The names the alias table maps to. */
  const TradeColumns: set<string> := {"date", "symbol", "action", "qty", "price", "amount"}

  /** `_HEADER_ALIASES.get(n)`, the table grouped by the name each header maps to. */
  function HeaderAlias(n: string): (r: Option<string>)
    ensures r.Some? ==> r.value in TradeColumns
  {
    if n in {"trade_date", "date_time", "transaction_date"} then Some("date")
    else if n in {"symbol", "ticker", "underlying", "ticker_symbol"} then Some("symbol")
    else if n in {"side", "type", "transaction_type", "activity", "action", "trade_type"} then Some("action")
    else if n in {"qty", "quantity", "shares", "contracts"} then Some("qty")
    else if n in {"price", "trade_price", "execution_price", "fill_price"} then Some("price")
    else if n in {"amount", "value", "total", "net_amount", "proceeds"} then Some("amount")
    else None
  }

  /** Each column name is a normalised header that the alias lookup leaves as it is. */
  lemma TradeColumnsCanonical(c: string)
    requires c in TradeColumns
    ensures IsHeaderKey(c) && NormalizeHeader(c) == c && HeaderAlias(c).GetOr(c) == c
  {
    LowerWordIsKey(c);
    HeaderKeyPlain(c);
    UnderscoredNoop(c);
    TradeColumnsAliased(c);
  }

  /** "date" is no key of the table; the other five map to themselves. */
  lemma TradeColumnsAliased(c: string)
    requires c in TradeColumns
    ensures HeaderAlias(c) == (if c == "date" then None else Some(c))
  {
    if c == "date" {
    } else if c == "symbol" {
    } else if c == "action" {
    } else if c == "qty" {
    } else if c == "price" {
    } else {
      assert c == "amount";
    }
  }

  lemma LowerWordIsKey(c: string)
    requires c in TradeColumns
    ensures IsHeaderKey(c)
  {
    assert forall i :: 0 <= i < |c| ==> IsLowerAscii(c[i]);
  }

  /** `_canonical_header`: the normalised header, renamed when the alias table knows it. */
  function CanonicalHeader(header: string): (r: string)
    ensures IsHeaderKey(r)
    ensures r in TradeColumns || r == NormalizeHeader(header)
  {
    var n := NormalizeHeader(header);
    match HeaderAlias(n)
    case Some(c) => TradeColumnsCanonical(c); c
    case None => n
  }

  /** Canonicalising a canonical header changes nothing: the alias targets map to themselves. */
  lemma CanonicalHeaderIdempotent(header: string)
    ensures CanonicalHeader(CanonicalHeader(header)) == CanonicalHeader(header)
  {
    var n := NormalizeHeader(header);
    NormalizeHeaderIdempotent(header);
    match HeaderAlias(n)
    case Some(c) => TradeColumnsCanonical(c);
    case None =>
  }

  function CanonicalHeaders(headers: seq<string>): (r: seq<string>)
    ensures |r| == |headers|
  {
    seq(|headers|, i requires 0 <= i < |headers| => CanonicalHeader(headers[i]))
  }

  /** The `canonical_headers` loop. */
  method CanonicalizeHeaders(headers: seq<string>) returns (canonical: seq<string>)
    ensures canonical == CanonicalHeaders(headers)
  {
    canonical := [];
    for i := 0 to |headers|
      invariant |canonical| == i
      invariant forall j :: 0 <= j < i ==> canonical[j] == CanonicalHeader(headers[j])
    {
      canonical := canonical + [CanonicalHeader(headers[i])];
    }
  }


  // ----- actions --------------------------------------------------------

  /** `_ACTION_ALIASES.get(tag)`, the table grouped by the action each label maps to. */
  function ActionAlias(tag: string): (r: Option<string>)
    ensures r.Some? ==> r.value == "BUY" || r.value == "SELL"
  {
    if tag in {"BUY", "BOT", "B", "BTO", "BUY_TO_OPEN", "BUY_TO_CLOSE", "BUY_TO_COVER"} then Some("BUY")
    else if tag in {"SELL", "SLD", "S", "STC", "SELL_TO_CLOSE", "SELL_TO_OPEN", "SOLD", "SELL_SHORT"} then Some("SELL")
    else None
  }

  predicate IsActionChar(c: char) { IsUpperAlnum(c) || c == '_' || c == ' ' }

  predicate IsLabelChar(c: char) { IsUpperAlnum(c) || c == '_' }

  /** An action label in normal form: capitals, digits and underscores, no underscore at either end. */
  predicate IsActionLabel(s: string)
  {
    && (forall i :: 0 <= i < |s| ==> IsLabelChar(s[i]))
    && (s == [] || (s[0] != '_' && s[|s| - 1] != '_'))
  }

  /**
   * The label `_parse_action` looks up: stripped and upper-cased, runs of
   * characters outside [A-Z0-9_ ] become a space, runs of whitespace
   * become "_", and underscores at either end are dropped.
   */
  function ActionLabel(value: string): (r: string)
    ensures IsActionLabel(r)
  {
    ActionLabelShape(value);
    StripChar(SubRuns(SubRuns(Upper(Strip(value)), IsActionChar, " "), NotSpace, "_"), '_')
  }

  lemma ActionLabelShape(value: string)
    ensures IsActionLabel(StripChar(SubRuns(SubRuns(Upper(Strip(value)), IsActionChar, " "), NotSpace, "_"), '_'))
  {
    var spaced := SubRuns(Upper(Strip(value)), IsActionChar, " ");
    var joined := SubRuns(spaced, NotSpace, "_");
    var r := StripChar(joined, '_');
    SubRunsWithin(Upper(Strip(value)), IsActionChar, " ", IsActionChar);
    SubRunsWithin(spaced, NotSpace, "_", IsLabelChar);
    var i, j := StripCharShape(joined, '_');
    forall k | 0 <= k < |r| ensures IsLabelChar(r[k]) {
      assert r[k] == joined[i + k];
    }
  }

  /**
   * `_parse_action`: the normalised label is looked up in the alias table;
   * failing that, a label containing "BUY" is a buy and one containing
   * "SELL" or "SLD" a sale; anything else is not an action.
   */
  function ParseAction(value: Option<string>): (r: Option<string>)
    ensures r.Some? ==> r.value == "BUY" || r.value == "SELL"
  {
    if value.None? then None
    else
      var tag := ActionLabel(value.value);
      if tag == [] then None
      else if ActionAlias(tag).Some? then ActionAlias(tag)
      else if Contains(tag, "BUY") then Some("BUY")
      else if Contains(tag, "SELL") || Contains(tag, "SLD") then Some("SELL")
      else None
  }

  /** A label already in normal form is its own normalisation. */
  lemma ActionLabelNoop(s: string)
    requires IsActionLabel(s) && s != []
    ensures ActionLabel(s) == s
  {
    forall i | 0 <= i < |s| ensures !IsSpace(s[i]) && UpperChar(s[i]) == s[i] && IsActionChar(s[i]) {
      assert IsUpperAlnum(s[i]) || s[i] == '_';
    }
    StripNoop(s);
    assert Upper(s) == s;
    SubRunsKeepAll(s, IsActionChar, " ");
    SubRunsKeepAll(s, NotSpace, "_");
    StripCharNoop(s, '_');
  }

  /** Every alias in the table is recognised as written. */
  lemma ActionAliasesRecognised(key: string)
    requires ActionAlias(key).Some?
    ensures ParseAction(Some(key)) == ActionAlias(key)
  {
    ActionLabelNoop(key);
  }

  /** Case does not matter to the action. */
  lemma ParseActionIgnoresCase(value: string)
    ensures ParseAction(Some(Upper(value))) == ParseAction(Some(value))
  {
    ActionLabelIgnoresCase(value);
  }

  lemma ActionLabelIgnoresCase(value: string)
    ensures ActionLabel(Upper(value)) == ActionLabel(value)
  {
    var t := Strip(value);
    StripUpper(value);
    assert Upper(Upper(t)) == Upper(t);
  }

  /** Outside the table, the action is decided by the words the tag contains. */
  lemma ParseActionFallback(value: string)
    requires ActionLabel(value) != [] && ActionAlias(ActionLabel(value)).None?
    ensures ParseAction(Some(value)) == Some("BUY") <==> Contains(ActionLabel(value), "BUY")
    ensures ParseAction(Some(value)) == Some("SELL") <==>
      !Contains(ActionLabel(value), "BUY") && (Contains(ActionLabel(value), "SELL") || Contains(ActionLabel(value), "SLD"))
  {
  }

  // ----- one row --------------------------------------------------------

  /** A row's fields as the parsing helpers read them from its values. */
  datatype ParsedRow = ParsedRow(date: Option<string>, symbol: string, action: Option<string>,
                                 qty: Option<real>, amount: Option<real>, price: Option<real>)

  function ParseRow(values: map<string, string>): (p: ParsedRow)
    ensures p.date.Some? ==> IsIsoDate(p.date.value)
    ensures forall i :: 0 <= i < |p.symbol| ==> IsSymbolChar(p.symbol[i])
    ensures p.action.Some? ==> p.action.value == "BUY" || p.action.value == "SELL"
  {
    ParsedRow(ParseImportDate(Get(values, "date")), SanitizeSymbol(Get(values, "symbol").GetOr("")),
              ParseAction(Get(values, "action")), ParseNumber(CellValue(Get(values, "qty"))),
              ParseNumber(CellValue(Get(values, "amount"))), ParseNumber(CellValue(Get(values, "price"))))
  }

  /**
   * The decisions of the `parse_trade_csv` row loop: the trade a parsed row
   * makes, or `None` when the row is skipped.
   */
  function Assemble(p: ParsedRow): Option<TradeFields>
  {
    if p.date.None? || p.symbol == [] || p.action.None? || p.qty.None? || p.qty.value == 0.0 then None
    else
      var q := Abs(p.qty.value);
      var price := FilledPrice(p.price, p.amount, q);
      var amount := FilledAmount(p.amount, price, q, p.action.value);
      if price.None? || amount.None? then None
      else Some(TradeFields(p.date.value, p.symbol, p.action.value, q, price.value, amount.value))
  }

  /** A missing price is |amount|/qty when the amount is known. */
  function FilledPrice(price: Option<real>, amount: Option<real>, q: real): Option<real>
    requires q != 0.0
  {
    if price.None? && amount.Some? then Some(PerUnit(amount.value, q)) else price
  }

  /** A missing amount is qty·price, signed by the direction, when the price is known. */
  function FilledAmount(amount: Option<real>, price: Option<real>, q: real, action: string): Option<real>
  {
    if amount.None? && price.Some? then Some(Signed(action, q, price.value)) else amount
  }

  /** The trade a row's values make, or `None` when the row is skipped. */
  function TradeRow(values: map<string, string>): Option<TradeFields>
  {
    Assemble(ParseRow(values))
  }

  /** A row is skipped exactly when a required field is missing, qty is 0, or neither price nor amount is known. */
  lemma AssembleSkipped(p: ParsedRow)
    ensures Assemble(p).None? <==>
      p.date.None? || p.symbol == [] || p.action.None? || p.qty in {None, Some(0.0)} || (p.price.None? && p.amount.None?)
  {
  }

  /** What an accepted row holds: a printed date, a clean symbol, BUY or SELL, and |qty| > 0. */
  predicate WellFormedTrade(t: TradeFields)
  {
    && IsIsoDate(t.date)
    && t.symbol != [] && (forall i :: 0 <= i < |t.symbol| ==> IsSymbolChar(t.symbol[i]))
    && (t.action == "BUY" || t.action == "SELL")
    && t.qty > 0.0
  }

  /** A row assembled from clean fields is well formed. */
  lemma AssembleWellFormed(p: ParsedRow)
    requires Clean(p) && Assemble(p).Some?
    ensures WellFormedTrade(Assemble(p).value)
  {
  }

  /**
   * A missing price is |amount|/qty, so price·qty gives back |amount|; a
   * missing amount is price·qty, negative for a buy and positive for a sale.
   */
  lemma AssembleDerived(p: ParsedRow)
    requires Assemble(p).Some?
    ensures var t := Assemble(p).value;
      && t.qty == Abs(p.qty.value) > 0.0
      && (p.price.Some? ==> t.price == p.price.value)
      && (p.amount.Some? ==> t.amount == p.amount.value)
      && (p.price.None? ==> t.price * t.qty == Abs(t.amount) && t.price >= 0.0)
      && (p.amount.None? ==> Abs(t.amount) == t.qty * Abs(t.price)
                             && (t.price > 0.0 ==> (t.action == "BUY" <==> t.amount < 0.0)))
  {
    var t := Assemble(p).value;
    if p.amount.None? {
      assert t.amount == Direction(t.action) * t.qty * t.price;
      if t.price < 0.0 {
        assert Abs(t.price) == -t.price;
      }
    }
  }

  /** The `parse_trade_csv` row loop body, reassigning price and amount as the source does. */
  method AcceptRow(values: map<string, string>) returns (trade: Option<TradeFields>)
    ensures trade == TradeRow(values)
  {
    var p := ParseRow(values);
    if p.date.None? || p.symbol == [] || p.action.None? {
      return None;
    }
    if p.qty.None? || p.qty.value == 0.0 {
      return None;
    }
    var q := Abs(p.qty.value);
    var price := p.price;
    var amount := p.amount;
    if price.None? && amount.Some? {
      price := Some(PerUnit(amount.value, q));
    }
    assert price == FilledPrice(p.price, p.amount, q);
    if amount.None? && price.Some? {
      amount := Some(Signed(p.action.value, q, price.value));
    }
    assert amount == FilledAmount(p.amount, price, q, p.action.value);
    if price.None? || amount.None? {
      return None;
    }
    trade := Some(TradeFields(p.date.value, p.symbol, p.action.value, q, price.value, amount.value));
  }

  // ----- the whole file -----------------------------------------------------

  /** A parsed row whose fields hold what the parsing helpers promise. */
  predicate Clean(p: ParsedRow)
  {
    && (p.date.Some? ==> IsIsoDate(p.date.value))
    && (forall i :: 0 <= i < |p.symbol| ==> IsSymbolChar(p.symbol[i]))
    && (p.action.Some? ==> p.action.value == "BUY" || p.action.value == "SELL")
  }

  /** Each data row parsed, `None` standing for a blank row. */
  function ParsedRows(headers: seq<string>, raws: seq<seq<string>>): (ps: seq<Option<ParsedRow>>)
    ensures |ps| == |raws|
    ensures forall i :: 0 <= i < |ps| ==> ps[i].Some? ==> Clean(ps[i].value)
  {
    seq(|raws|, i requires 0 <= i < |raws| =>
      if IsBlankRow(raws[i]) then None else Some(ParseRow(RowValues(headers, raws[i]))))
  }

  /** What one data row contributes: nothing when blank or skipped, else its trade. */
  function Emit(p: Option<ParsedRow>): (r: seq<TradeFields>)
    ensures |r| <= 1
  {
    if p.Some? && Assemble(p.value).Some? then [Assemble(p.value).value] else []
  }

  /** The trades the parsed rows make, in row order. */
  function Collect(ps: seq<Option<ParsedRow>>): (r: seq<TradeFields>)
    ensures |r| <= |ps|
    decreases |ps|
  {
    if ps == [] then [] else Collect(ps[..|ps| - 1]) + Emit(ps[|ps| - 1])
  }

  lemma CollectStep(ps: seq<Option<ParsedRow>>, k: nat)
    requires k < |ps|
    ensures Collect(ps[..k + 1]) == Collect(ps[..k]) + Emit(ps[k])
  {
    assert ps[..k + 1][..k] == ps[..k];
  }

  /** `parse_trade_csv` on a table whose first row is the header row. */
  function TradeCsvRows(table: seq<seq<string>>): seq<TradeFields>
  {
    if table == [] || table[0] == [] then []
    else Collect(ParsedRows(CanonicalHeaders(table[0]), table[1..]))
  }

  /**
   * The output is the accepted rows in input order: `idx` lists the rows
   * that make a trade, strictly increasing, and the j-th trade is the one
   * row `idx[j]` makes.
   */
  lemma {:induction false} CollectOrigin(ps: seq<Option<ParsedRow>>) returns (idx: seq<nat>)
    ensures |idx| == |Collect(ps)|
    ensures forall j :: 0 <= j < |idx| ==> idx[j] < |ps| && Emit(ps[idx[j]]) == [Collect(ps)[j]]
    ensures forall j, k :: 0 <= j < k < |idx| ==> idx[j] < idx[k]
    ensures forall i :: 0 <= i < |ps| && Emit(ps[i]) != [] ==> i in idx
  {
    var parts := Emissions(ps);
    CollectIsConcat(ps);
    idx := ConcatOrigin(parts);
    assert Origins(parts, Collect(ps), idx);
  }

  /** Each parsed row's contribution. */
  function Emissions(ps: seq<Option<ParsedRow>>): (r: seq<seq<TradeFields>>)
    ensures |r| == |ps| && forall i :: 0 <= i < |ps| ==> r[i] == Emit(ps[i])
  {
    seq(|ps|, i requires 0 <= i < |ps| => Emit(ps[i]))
  }

  lemma {:induction false} CollectIsConcat(ps: seq<Option<ParsedRow>>)
    ensures Collect(ps) == Concat(Emissions(ps))
    decreases |ps|
  {
    if ps != [] {
      var n := |ps| - 1;
      CollectIsConcat(ps[..n]);
      assert Emissions(ps)[..n] == Emissions(ps[..n]);
    }
  }

  /** Every trade collected from clean rows is well formed. */
  lemma {:induction false} CollectWellFormed(ps: seq<Option<ParsedRow>>)
    requires forall i :: 0 <= i < |ps| ==> ps[i].Some? ==> Clean(ps[i].value)
    ensures forall j :: 0 <= j < |Collect(ps)| ==> WellFormedTrade(Collect(ps)[j])
    decreases |ps|
  {
    if ps != [] {
      var n := |ps| - 1;
      CollectWellFormed(ps[..n]);
      if Emit(ps[n]) != [] {
        AssembleWellFormed(ps[n].value);
      }
    }
  }

  /** Every row `parse_trade_csv` emits is well formed. */
  lemma TradeCsvRowsWellFormed(table: seq<seq<string>>)
    ensures forall j :: 0 <= j < |TradeCsvRows(table)| ==> WellFormedTrade(TradeCsvRows(table)[j])
  {
    if table != [] && table[0] != [] {
      CollectWellFormed(ParsedRows(CanonicalHeaders(table[0]), table[1..]));
    }
  }

  /** The `parse_trade_csv` loop over the data rows. */
  method ParseTradeCsv(table: seq<seq<string>>) returns (rows: seq<TradeFields>)
    ensures rows == TradeCsvRows(table)
  {
    rows := [];
    if table == [] || table[0] == [] {
      return;
    }
    var headers := CanonicalizeHeaders(table[0]);
    var raws := table[1..];
    ghost var ps := ParsedRows(headers, raws);
    for k := 0 to |raws|
      invariant rows == Collect(ps[..k])
    {
      var raw := raws[k];
      CollectStep(ps, k);
      if !IsBlankRow(raw) {
        var trade := AcceptRow(RowValues(headers, raw));
        assert Emit(ps[k]) == if trade.Some? then [trade.value] else [];
        if trade.Some? {
          rows := rows + [trade.value];
        }
      }
    }
    assert ps[..|raws|] == ps;
  }
}
