/**
 * The statement extractor script: it reads a thinkorswim account statement,
 * takes the trade history and the equities sections, parses both, and runs
 * the long-only daily profit-and-loss engine. Its trade-section reader is
 * the importer's own (`ImportThinkorswim.ExtractTradeSection`). Its trade
 * parser keeps rows the importer drops: it does not filter on symbol or
 * side, and it keeps the side as written.
 */
module TosExtract {
  import opened Common
  import opened Text
  import opened Numbers
  import opened Dates
  import opened ImportText
  import ImportThinkorswim
  import LongOnlyPnl
  import Utils

  // ----- parse_trades ---------------------------------------------------

  /** One parsed trade: date, side as written, symbol, quantity, price. */
  datatype TosTrade = TosTrade(date: Date, side: string, symbol: string, quantity: real, price: real)

  /**
   * One CSV row: at least twelve cells; the date is the first word of cell
   * 1 as "%m/%d/%y"; the side is cell 3 stripped; the quantity the magnitude
   * of cell 4; the symbol cell 6 upper-cased; the price cell 10. A cell
   * that does not parse drops the row.
   */
  function ParseTradeRow(row: seq<string>): (r: Option<TosTrade>)
    ensures r.Some? ==> |row| >= 12 && r.value.quantity >= 0.0
  {
    if |row| < 12 then None
    else
      var day := ParseDateWith(SplitOn(row[1], ' ')[0], MonthDayShortYear);
      var qty := ParseDecimal(row[4]);
      var price := ParseDecimal(row[10]);
      if day.None? || qty.None? || price.None? then None
      else Some(TosTrade(day.value, Strip(row[3]), Upper(Strip(row[6])), Abs(qty.value), price.value))
  }

  /**
   * Every row the importer's section parser turns into a trade, the
   * extractor turns into the same trade: same day, same symbol, quantity
   * and price, and a side that upper-cases to the importer's.
   */
  lemma ExtractorKeepsImported(row: seq<string>)
    requires ImportThinkorswim.SectionTrade(row).Some?
    ensures ParseTradeRow(row).Some?
    ensures var t := ParseTradeRow(row).value; var s := ImportThinkorswim.SectionTrade(row).value;
      && FormatDate(t.date) == s.date && Upper(t.side) == s.action && t.symbol == s.symbol
      && t.quantity == s.qty && t.price == s.price
  {
  }

  /**
   * The extractor keeps more: a row it reads that the importer drops has an
   * empty symbol or a side that is neither BUY nor SELL in any case.
   */
  lemma ExtractorKeepsMore(row: seq<string>)
    requires ParseTradeRow(row).Some? && ImportThinkorswim.SectionTrade(row).None?
    ensures ParseTradeRow(row).value.symbol == [] ||
      (Upper(ParseTradeRow(row).value.side) != "BUY" && Upper(ParseTradeRow(row).value.side) != "SELL")
  {
  }

  /** Each row's contribution: its trade, or nothing. */
  function TradeParts(rows: seq<seq<string>>): (parts: seq<seq<TosTrade>>)
    ensures |parts| == |rows|
    ensures forall i :: 0 <= i < |rows| ==> parts[i] == (if ParseTradeRow(rows[i]).Some? then [ParseTradeRow(rows[i]).value] else [])
  {
    seq(|rows|, i requires 0 <= i < |rows| => if ParseTradeRow(rows[i]).Some? then [ParseTradeRow(rows[i]).value] else [])
  }

  /** The parsed trades in row order. */
  function TradesOf(rows: seq<seq<string>>): seq<TosTrade>
  {
    Concat(TradeParts(rows))
  }

  /** `parse_trades`: one pass over the rows, skipping those that do not parse. */
  method ParseTrades(rows: seq<seq<string>>) returns (trades: seq<TosTrade>)
    ensures trades == TradesOf(rows)
  {
    trades := [];
    ghost var parts := TradeParts(rows);
    for k := 0 to |rows|
      invariant trades == Concat(parts[..k])
    {
      var t := ParseTradeRow(rows[k]);
      if t.Some? {
        trades := trades + [t.value];
      }
      ConcatStep(parts, k);
    }
    assert parts[..|rows|] == parts;
  }

  /**
   * Every parsed trade comes from a row, in row order, and every row that
   * parses is in the output.
   */
  lemma TradesOfOrigin(rows: seq<seq<string>>) returns (origin: seq<nat>)
    ensures |origin| == |TradesOf(rows)|
    ensures forall j :: 0 <= j < |origin| ==> origin[j] < |rows| && ParseTradeRow(rows[origin[j]]) == Some(TradesOf(rows)[j])
    ensures forall j, k :: 0 <= j < k < |origin| ==> origin[j] < origin[k]
    ensures forall i :: 0 <= i < |rows| && ParseTradeRow(rows[i]).Some? ==> i in origin
  {
    var parts := TradeParts(rows);
    origin := ConcatOrigin(parts);
    forall i | 0 <= i < |rows| && ParseTradeRow(rows[i]).Some? ensures i in origin {
      assert parts[i] != [];
    }
  }

  // ----- extract_equities_section ------------------------------------------

  const EquitiesHeading: string := "Symbol,Description,Qty"

  predicate EquitiesHeader(line: string)
  {
    StartsWith(line, EquitiesHeading)
  }

  predicate EquitiesStop(line: string)
  {
    Strip(line) == [] || Contains(line, "OVERALL TOTALS")
  }

  /** The stripped lines after the first heading line, up to a blank or "OVERALL TOTALS" line. */
  function EquitiesSection(lines: seq<string>): seq<string>
  {
    match ImportThinkorswim.FirstMatch(lines, EquitiesHeader, 0)
    case None => []
    case Some(m) => ImportThinkorswim.Section(lines, m + 1, EquitiesStop)
  }

  method ExtractEquitiesSection(lines: seq<string>) returns (section: seq<string>)
    ensures section == EquitiesSection(lines)
  {
    var start := ImportThinkorswim.FindFirst(lines, EquitiesHeader);
    if start.None? {
      return [];
    }
    section := ImportThinkorswim.CollectSection(lines, start.value + 1, EquitiesStop);
  }

  /** Without a heading line there is no section. */
  lemma NoHeadingNoEquities(lines: seq<string>)
    requires forall i :: 0 <= i < |lines| ==> !EquitiesHeader(lines[i])
    ensures EquitiesSection(lines) == []
  {
  }

  /**
   * With one, the section starts on the line after the first heading and
   * holds the stripped lines up to the first blank or "OVERALL TOTALS" line.
   */
  lemma EquitiesAfterHeading(lines: seq<string>, m: nat)
    requires m < |lines| && EquitiesHeader(lines[m])
    requires forall j :: 0 <= j < m ==> !EquitiesHeader(lines[j])
    ensures EquitiesSection(lines) == ImportThinkorswim.Section(lines, m + 1, EquitiesStop)
  {
    assert ImportThinkorswim.FirstMatch(lines, EquitiesHeader, 0) == Some(m);
  }

  // ----- parse_equities ---------------------------------------------------

  /** One end-of-period holding. */
  datatype EquityHolding = EquityHolding(symbol: string, quantity: int, avgCost: real, mark: real, unrealized: real)

  /** `(mark - trade_price) * qty`. */
  function OpenGain(mark: real, avgCost: real, qty: int): real
  {
    (mark - avgCost) * (qty as real)
  }

  /**
   * One CSV row: the symbol is cell 0 stripped and upper-cased, the
   * quantity cell 2 as an integer with every '+' removed, the trade price
   * cell 3 and the mark cell 4. A short row or a cell that does not parse
   * drops the row.
   */
  function ParseEquityRow(row: seq<string>): (r: Option<EquityHolding>)
    ensures r.Some? ==> |row| >= 5 && r.value.unrealized == OpenGain(r.value.mark, r.value.avgCost, r.value.quantity)
  {
    if |row| < 5 then None
    else
      var qty := ParseInt(ReplaceChar(row[2], '+', ""));
      var tradePrice := ParseDecimal(row[3]);
      var mark := ParseDecimal(row[4]);
      if qty.None? || tradePrice.None? || mark.None? then None
      else Some(EquityHolding(Upper(Strip(row[0])), qty.value, tradePrice.value, mark.value,
                              OpenGain(mark.value, tradePrice.value, qty.value)))
  }

  /** A leading '+' on the quantity makes no difference. */
  lemma PlusSignIgnored(row: seq<string>, qty: string)
    requires |row| >= 5
    ensures ParseEquityRow(row[2 := "+" + qty]) == ParseEquityRow(row[2 := qty])
  {
    assert ReplaceChar("+" + qty, '+', "") == ReplaceChar(qty, '+', "") by {
      assert ("+" + qty)[1..] == qty;
    }
  }

  /**
   * The statement's unrealized figure for a long holding is what the engine
   * would mark for the same position if the day's last trade were at the
   * statement's mark.
   */
  lemma HoldingGainAgrees(h: EquityHolding, d: Date, side: string, qty: real)
    requires h.quantity > 0 && h.unrealized == OpenGain(h.mark, h.avgCost, h.quantity)
    ensures h.unrealized == LongOnlyPnl.Mark(
      LongOnlyPnl.Entry(h.symbol, LongOnlyPnl.Holding(h.quantity as real, h.avgCost)),
      [LongOnlyPnl.Fill(d, side, h.symbol, qty, h.mark)])
  {
  }

  function EquityParts(rows: seq<seq<string>>): (parts: seq<seq<EquityHolding>>)
    ensures |parts| == |rows|
    ensures forall i :: 0 <= i < |rows| ==> parts[i] == (if ParseEquityRow(rows[i]).Some? then [ParseEquityRow(rows[i]).value] else [])
  {
    seq(|rows|, i requires 0 <= i < |rows| => if ParseEquityRow(rows[i]).Some? then [ParseEquityRow(rows[i]).value] else [])
  }

  function HoldingsOf(rows: seq<seq<string>>): seq<EquityHolding>
  {
    Concat(EquityParts(rows))
  }

  /** `parse_equities`: one pass over the rows, skipping those that do not parse. */
  method ParseEquities(rows: seq<seq<string>>) returns (holdings: seq<EquityHolding>)
    ensures holdings == HoldingsOf(rows)
  {
    holdings := [];
    ghost var parts := EquityParts(rows);
    for k := 0 to |rows|
      invariant holdings == Concat(parts[..k])
    {
      var h := ParseEquityRow(rows[k]);
      if h.Some? {
        holdings := holdings + [h.value];
      }
      ConcatStep(parts, k);
    }
    assert parts[..|rows|] == parts;
  }

  /** Every holding comes from a row that parses, in row order; every row that parses is kept. */
  lemma HoldingsOfOrigin(rows: seq<seq<string>>) returns (origin: seq<nat>)
    ensures |origin| == |HoldingsOf(rows)|
    ensures forall j :: 0 <= j < |origin| ==> origin[j] < |rows| && ParseEquityRow(rows[origin[j]]) == Some(HoldingsOf(rows)[j])
    ensures forall j, k :: 0 <= j < k < |origin| ==> origin[j] < origin[k]
    ensures forall i :: 0 <= i < |rows| && ParseEquityRow(rows[i]).Some? ==> i in origin
  {
    var parts := EquityParts(rows);
    origin := ConcatOrigin(parts);
    forall i | 0 <= i < |rows| && ParseEquityRow(rows[i]).Some? ensures i in origin {
      assert parts[i] != [];
    }
  }

  // ----- compute_daily_pnl ------------------------------------------------

  /** Truncation moves toward zero by less than one. */
  lemma TruncSpec(x: real)
    ensures x >= 0.0 ==> Utils.Truncate(x) >= 0 && (Utils.Truncate(x) as real) <= x < (Utils.Truncate(x) as real) + 1.0
    ensures x < 0.0 ==> Utils.Truncate(x) <= 0 && x <= (Utils.Truncate(x) as real) < x + 1.0
  {
  }

  /** Whole numbers are kept. */
  lemma TruncWhole(n: int)
    ensures Utils.Truncate(n as real) == n
  {
    if n < 0 {
      assert -(n as real) == (-n) as real;
    }
  }

  /** The trade as the engine reads it: whole shares, side and symbol as parsed. */
  function TradeFill(t: TosTrade): LongOnlyPnl.Fill
  {
    LongOnlyPnl.Fill(t.date, t.side, t.symbol, Utils.Truncate(t.quantity) as real, t.price)
  }

  function TradeFills(trades: seq<TosTrade>): seq<LongOnlyPnl.Fill>
  {
    seq(|trades|, i requires 0 <= i < |trades| => TradeFill(trades[i]))
  }

  /** `compute_daily_pnl`: the long-only engine over whole-share trades. */
  method ComputeDailyPnl(trades: seq<TosTrade>) returns (rows: seq<LongOnlyPnl.PnlRow>)
    ensures rows == LongOnlyPnl.DailyPnl(TradeFills(trades))
  {
    rows := LongOnlyPnl.ComputeDailyPnl(TradeFills(trades));
  }

  /**
   * Parsed quantities are magnitudes, so the engine's book never goes short
   * and keeps one entry per symbol.
   */
  lemma ExtractorStaysLong(trades: seq<TosTrade>)
    requires forall i :: 0 <= i < |trades| ==> trades[i].quantity >= 0.0
    ensures LongOnlyPnl.NonNegative(TradeFills(trades))
  {
  }

  /** A side written in anything but capitals is ignored by the engine. */
  lemma LowerCaseSideIgnored(h: LongOnlyPnl.Holding, t: TosTrade)
    requires t.side != "BUY" && t.side != "SELL"
    ensures LongOnlyPnl.Apply(h, TradeFill(t)) == LongOnlyPnl.Sale(h, 0.0)
  {
    LongOnlyPnl.OtherSideIgnored(h, TradeFill(t));
  }
}
