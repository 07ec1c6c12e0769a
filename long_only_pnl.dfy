/**
 * The long-only daily profit-and-loss engine behind the thinkorswim
 * importer's `compute_daily_pnl_records` and the statement extractor's
 * `compute_daily_pnl`. Each symbol's position is a share count and an
 * average cost. A buy re-averages the cost. A sale realises
 * `(price - average) * sold` on at most the shares held and never opens a
 * short. After each trading day, open positions are marked at that day's
 * last traded price. A symbol that did not trade that day is marked at its
 * own average cost.
 */
module LongOnlyPnl {
  import opened Common
  import opened Dates

  const BUY: string := "BUY"
  const SELL: string := "SELL"

  /** One trade handed to the engine. */
  datatype Fill = Fill(date: Date, side: string, symbol: string, qty: real, price: real)

  /** A position: `{"shares": …, "avg_cost": …}`. */
  datatype Holding = Holding(shares: real, avgCost: real)

  /** The default that `positions.setdefault` inserts. */
  const Flat := Holding(0.0, 0.0)

  /** One entry of the positions dictionary; the book keeps insertion order. */
  datatype Entry = Entry(symbol: string, holding: Holding)

  /** No symbol has two entries. */
  predicate Keyed(book: seq<Entry>)
  {
    forall i, j :: 0 <= i < j < |book| ==> book[i].symbol != book[j].symbol
  }

  /** The index of a symbol's entry, if it has one. */
  function Find(book: seq<Entry>, symbol: string): (r: Option<nat>)
    ensures r.Some? ==> r.value < |book| && book[r.value].symbol == symbol
    ensures r.None? ==> forall i :: 0 <= i < |book| ==> book[i].symbol != symbol
  {
    if book == [] then None
    else if book[0].symbol == symbol then Some(0)
    else
      match Find(book[1..], symbol)
      case None => None
      case Some(i) => Some(i + 1)
  }

  /** `positions.setdefault(sym, {"shares": 0, "avg_cost": 0})`, read. */
  function HoldingOf(book: seq<Entry>, symbol: string): Holding
  {
    match Find(book, symbol)
    case Some(i) => book[i].holding
    case None => Flat
  }

  /** The symbol's entry set to `h`; a new symbol goes at the end. */
  function Put(book: seq<Entry>, symbol: string, h: Holding): seq<Entry>
  {
    match Find(book, symbol)
    case Some(i) => book[i := Entry(symbol, h)]
    case None => book + [Entry(symbol, h)]
  }

  /** In a keyed book the entry found is the only one with that symbol. */
  lemma FindKeyed(book: seq<Entry>, symbol: string, i: nat)
    requires Keyed(book) && i < |book| && book[i].symbol == symbol
    ensures Find(book, symbol) == Some(i)
  {
  }

  /** Setting an entry keeps every existing entry in its place; a new symbol is appended. */
  lemma PutPlaces(book: seq<Entry>, symbol: string, h: Holding)
    ensures |Put(book, symbol, h)| == |book| + (if Find(book, symbol).None? then 1 else 0)
    ensures forall i :: 0 <= i < |book| ==> Put(book, symbol, h)[i].symbol == book[i].symbol
    ensures Find(book, symbol).None? ==> Put(book, symbol, h)[|book|] == Entry(symbol, h)
    ensures Find(book, symbol).Some? ==> Put(book, symbol, h)[Find(book, symbol).value] == Entry(symbol, h)
    ensures forall i :: 0 <= i < |book| && book[i].symbol != symbol ==> Put(book, symbol, h)[i] == book[i]
  {
  }

  /** Setting an entry keeps the book keyed. */
  lemma PutKeyed(book: seq<Entry>, symbol: string, h: Holding)
    requires Keyed(book)
    ensures Keyed(Put(book, symbol, h))
  {
    PutPlaces(book, symbol, h);
  }

  /** Setting an entry changes that symbol's holding and no other. */
  lemma PutReads(book: seq<Entry>, symbol: string, h: Holding, other: string)
    requires Keyed(book)
    ensures HoldingOf(Put(book, symbol, h), other) == if other == symbol then h else HoldingOf(book, other)
  {
    var r := Put(book, symbol, h);
    PutPlaces(book, symbol, h);
    PutKeyed(book, symbol, h);
    if other == symbol {
      match Find(book, symbol)
      case Some(i) => FindKeyed(r, symbol, i);
      case None => FindKeyed(r, symbol, |book|);
    } else {
      match Find(book, other)
      case Some(j) => FindKeyed(r, other, j);
      case None =>
        assert forall i :: 0 <= i < |r| ==> r[i].symbol != other by {
          forall i | 0 <= i < |r| ensures r[i].symbol != other {
            if i < |book| {
              assert r[i].symbol == book[i].symbol;
            }
          }
        }
    }
  }

  // ----- one trade ------------------------------------------------------

  /** A buy: the cost of the old shares plus the new ones, averaged over the new count. */
  function Bought(h: Holding, qty: real, price: real): Holding
  {
    var totalCost := h.avgCost * h.shares + price * qty;
    var shares := h.shares + qty;
    Holding(shares, if shares != 0.0 then totalCost / shares else h.avgCost)
  }

  /** What a sale leaves and what it realises. */
  datatype Sale = Sale(holding: Holding, realised: real)

  /** `(price - average) * shares`: the gain on `shares` shares. */
  function Gain(price: real, avgCost: real, shares: real): real
  {
    (price - avgCost) * shares
  }

  /** A sale: realise on at most the shares held; nothing when flat or short. */
  function Sold(h: Holding, qty: real, price: real): Sale
  {
    if h.shares > 0.0 then
      var sold := Min(qty, h.shares);
      var left := h.shares - sold;
      Sale(Holding(if left < 0.0 then 0.0 else left, h.avgCost), Gain(price, h.avgCost, sold))
    else Sale(h, 0.0)
  }

  /** A trade applied to the symbol's holding: BUY, SELL, or any other side, which changes nothing. */
  function Apply(h: Holding, f: Fill): Sale
  {
    if f.side == BUY then Sale(Bought(h, f.qty, f.price), 0.0)
    else if f.side == SELL then Sold(h, f.qty, f.price)
    else Sale(h, 0.0)
  }

  /** A buy keeps the cost basis: shares times average cost grows by exactly the price paid. */
  lemma BoughtKeepsCost(h: Holding, qty: real, price: real)
    requires h.shares + qty != 0.0
    ensures Bought(h, qty, price).shares == h.shares + qty
    ensures Bought(h, qty, price).avgCost * Bought(h, qty, price).shares == h.avgCost * h.shares + price * qty
  {
  }

  /** Buying into a long (or flat) position averages between the old cost and the price. */
  lemma BoughtAveragesBetween(h: Holding, qty: real, price: real)
    requires h.shares >= 0.0 && qty > 0.0
    ensures Min(h.avgCost, price) <= Bought(h, qty, price).avgCost <= Max(h.avgCost, price)
  {
    var n := h.shares + qty;
    var c := h.avgCost * h.shares + price * qty;
    assert Bought(h, qty, price).avgCost == c / n;
    if h.avgCost <= price {
      assert c - h.avgCost * n == (price - h.avgCost) * qty;
      assert price * n - c == (price - h.avgCost) * h.shares;
      Between(c, n, h.avgCost, price);
    } else {
      assert c - price * n == (h.avgCost - price) * h.shares;
      assert h.avgCost * n - c == (h.avgCost - price) * qty;
      Between(c, n, price, h.avgCost);
    }
  }

  /** A quotient by a positive number between two bounds of the product. */
  lemma Between(c: real, n: real, lo: real, hi: real)
    requires n > 0.0 && lo * n <= c <= hi * n
    ensures lo <= c / n <= hi
  {
    assert c / n - lo == (c - lo * n) / n;
    assert hi - c / n == (hi * n - c) / n;
  }

  /**
   * Selling from a long position with a non-negative quantity closes at
   * most the shares held: what is left is `shares - qty` floored at zero,
   * the average cost is unchanged, and the gain is on exactly the shares
   * that left.
   */
  lemma SoldClosesAtMostHeld(h: Holding, qty: real, price: real)
    requires h.shares > 0.0 && qty >= 0.0
    ensures Sold(h, qty, price).holding.shares == Max(h.shares - qty, 0.0)
    ensures Sold(h, qty, price).holding.avgCost == h.avgCost
    ensures Sold(h, qty, price).realised == Gain(price, h.avgCost, h.shares - Sold(h, qty, price).holding.shares)
  {
  }

  /** A sale against a flat or short position does nothing and realises nothing. */
  lemma SoldWhenFlat(h: Holding, qty: real, price: real)
    requires h.shares <= 0.0
    ensures Sold(h, qty, price) == Sale(h, 0.0)
  {
  }

  /** Buying from flat and selling everything realises the price difference on the shares. */
  lemma RoundTrip(avgCost: real, qty: real, buyPrice: real, sellPrice: real)
    requires qty > 0.0
    ensures Bought(Holding(0.0, avgCost), qty, buyPrice) == Holding(qty, buyPrice)
    ensures Sold(Holding(qty, buyPrice), qty, sellPrice) == Sale(Holding(0.0, buyPrice), Gain(sellPrice, buyPrice, qty))
  {
    assert (avgCost * 0.0 + buyPrice * qty) / (0.0 + qty) == buyPrice;
  }

  /** A side other than exactly "BUY" or "SELL" changes nothing and realises nothing. */
  lemma OtherSideIgnored(h: Holding, f: Fill)
    requires f.side != BUY && f.side != SELL
    ensures Apply(h, f) == Sale(h, 0.0)
  {
  }

  /** With non-negative quantities a holding never goes short. */
  lemma ApplyLongOnly(h: Holding, f: Fill)
    requires h.shares >= 0.0 && f.qty >= 0.0
    ensures Apply(h, f).holding.shares >= 0.0
  {
  }

  // ----- one day's trades --------------------------------------------------

  /** The book and the realised total of the day so far. */
  datatype Ledger = Ledger(book: seq<Entry>, realised: real)

  /** One row of the day's `iterrows()` loop. */
  function TradeStep(l: Ledger, f: Fill): Ledger
  {
    var s := Apply(HoldingOf(l.book, f.symbol), f);
    Ledger(Put(l.book, f.symbol, s.holding), l.realised + s.realised)
  }

  /** The trades in order. */
  function RunTrades(l: Ledger, trades: seq<Fill>): Ledger
    decreases |trades|
  {
    if trades == [] then l
    else TradeStep(RunTrades(l, trades[..|trades| - 1]), trades[|trades| - 1])
  }

  /** Every holding is long or flat. */
  predicate LongOnly(book: seq<Entry>)
  {
    forall i :: 0 <= i < |book| ==> book[i].holding.shares >= 0.0
  }

  /** Non-negative quantities */
  predicate NonNegative(trades: seq<Fill>)
  {
    forall i :: 0 <= i < |trades| ==> trades[i].qty >= 0.0
  }

  lemma TradeStepKeeps(l: Ledger, f: Fill)
    requires Keyed(l.book) && LongOnly(l.book) && f.qty >= 0.0
    ensures Keyed(TradeStep(l, f).book) && LongOnly(TradeStep(l, f).book)
  {
    var h := HoldingOf(l.book, f.symbol);
    ApplyLongOnly(h, f);
    PutKeyed(l.book, f.symbol, Apply(h, f).holding);
    PutPlaces(l.book, f.symbol, Apply(h, f).holding);
  }

  /**
   * With non-negative quantities the book stays keyed and long-only through
   * any run of trades.
   */
  lemma {:induction false} RunTradesKeeps(l: Ledger, trades: seq<Fill>)
    requires Keyed(l.book) && LongOnly(l.book) && NonNegative(trades)
    ensures Keyed(RunTrades(l, trades).book) && LongOnly(RunTrades(l, trades).book)
    decreases |trades|
  {
    if trades != [] {
      RunTradesKeeps(l, trades[..|trades| - 1]);
      TradeStepKeeps(RunTrades(l, trades[..|trades| - 1]), trades[|trades| - 1]);
    }
  }

  /** No sale, no realised profit: a day of buys (or unknown sides) realises nothing. */
  lemma {:induction false} NoSaleNoRealised(l: Ledger, trades: seq<Fill>)
    requires forall i :: 0 <= i < |trades| ==> trades[i].side != SELL
    ensures RunTrades(l, trades).realised == l.realised
    decreases |trades|
  {
    if trades != [] {
      var front := trades[..|trades| - 1];
      var last := trades[|trades| - 1];
      NoSaleNoRealised(l, front);
      var m := RunTrades(l, front);
      assert Apply(HoldingOf(m.book, last.symbol), last).realised == 0.0;
    }
  }

  /** Every traded symbol has an entry after the run, traded or not. */
  lemma {:induction false} RunTradesEntries(l: Ledger, trades: seq<Fill>)
    ensures forall i :: 0 <= i < |trades| ==> Find(RunTrades(l, trades).book, trades[i].symbol).Some?
    ensures |l.book| <= |RunTrades(l, trades).book|
    ensures forall i :: 0 <= i < |l.book| ==> RunTrades(l, trades).book[i].symbol == l.book[i].symbol
    decreases |trades|
  {
    if trades != [] {
      var front := trades[..|trades| - 1];
      var m := RunTrades(l, front);
      RunTradesEntries(l, front);
      var f := trades[|trades| - 1];
      var h := Apply(HoldingOf(m.book, f.symbol), f).holding;
      PutPlaces(m.book, f.symbol, h);
      var after := Put(m.book, f.symbol, h);
      assert RunTrades(l, trades).book == after;
      forall i | 0 <= i < |trades|
        ensures Find(after, trades[i].symbol).Some?
      {
        if i < |trades| - 1 {
          assert front[i] == trades[i];
          var k := Find(m.book, trades[i].symbol).value;
          assert after[k].symbol == trades[i].symbol;
        } else if Find(m.book, f.symbol).None? {
          assert after[|m.book|].symbol == f.symbol;
        } else {
          assert after[Find(m.book, f.symbol).value].symbol == f.symbol;
        }
      }
    }
  }

  method ProcessTrades(book: seq<Entry>, trades: seq<Fill>) returns (after: seq<Entry>, realised: real)
    ensures Ledger(after, realised) == RunTrades(Ledger(book, 0.0), trades)
  {
    after := book;
    realised := 0.0;
    for k := 0 to |trades|
      invariant Ledger(after, realised) == RunTrades(Ledger(book, 0.0), trades[..k])
    {
      var t := trades[k];
      var pos := HoldingOf(after, t.symbol);
      if t.side == BUY {
        pos := Bought(pos, t.qty, t.price);
      } else if t.side == SELL {
        var sale := Sold(pos, t.qty, t.price);
        pos := sale.holding;
        realised := realised + sale.realised;
      }
      after := Put(after, t.symbol, pos);
      assert trades[..k + 1][..k] == trades[..k];
    }
    assert trades[..|trades|] == trades;
  }

  // ----- marking to market ---------------------------------------------

  /** The price of the symbol's last trade of the day, if it traded. */
  function LastPrice(trades: seq<Fill>, symbol: string): (r: Option<real>)
    decreases |trades|
  {
    if trades == [] then None
    else if trades[|trades| - 1].symbol == symbol then Some(trades[|trades| - 1].price)
    else LastPrice(trades[..|trades| - 1], symbol)
  }

  /** It is the price of a trade in the symbol after which the symbol does not trade again. */
  lemma {:induction false} LastPriceSpec(trades: seq<Fill>, symbol: string)
    ensures LastPrice(trades, symbol).None? <==> forall i :: 0 <= i < |trades| ==> trades[i].symbol != symbol
    ensures LastPrice(trades, symbol).Some? ==>
      exists i :: 0 <= i < |trades| && trades[i].symbol == symbol && trades[i].price == LastPrice(trades, symbol).value &&
        forall j :: i < j < |trades| ==> trades[j].symbol != symbol
    decreases |trades|
  {
    if trades != [] && trades[|trades| - 1].symbol != symbol {
      var front := trades[..|trades| - 1];
      LastPriceSpec(front, symbol);
      assert forall i :: 0 <= i < |front| ==> front[i] == trades[i];
    }
  }

  /** One position's unrealised profit: long positions only, at the last price or the average cost. */
  function Mark(e: Entry, trades: seq<Fill>): real
  {
    if e.holding.shares > 0.0 then
      Gain(LastPrice(trades, e.symbol).GetOr(e.holding.avgCost), e.holding.avgCost, e.holding.shares)
    else 0.0
  }

  /** The day's unrealised total over the positions in dictionary order. */
  function Unrealised(book: seq<Entry>, trades: seq<Fill>): real
    decreases |book|
  {
    if book == [] then 0.0
    else Unrealised(book[..|book| - 1], trades) + Mark(book[|book| - 1], trades)
  }

  /** A position that did not trade today is marked at its own cost and adds nothing. */
  lemma UntradedMarksNothing(e: Entry, trades: seq<Fill>)
    requires forall i :: 0 <= i < |trades| ==> trades[i].symbol != e.symbol
    ensures Mark(e, trades) == 0.0
  {
    LastPriceSpec(trades, e.symbol);
  }

  /** A day on which no held symbol trades has no unrealised profit. */
  lemma {:induction false} QuietDayMarksNothing(book: seq<Entry>, trades: seq<Fill>)
    requires forall i, j :: 0 <= i < |book| && 0 <= j < |trades| ==> trades[j].symbol != book[i].symbol
    ensures Unrealised(book, trades) == 0.0
    decreases |book|
  {
    if book != [] {
      QuietDayMarksNothing(book[..|book| - 1], trades);
      UntradedMarksNothing(book[|book| - 1], trades);
    }
  }

  method MarkToMarket(book: seq<Entry>, trades: seq<Fill>) returns (total: real)
    ensures total == Unrealised(book, trades)
  {
    total := 0.0;
    for k := 0 to |book|
      invariant total == Unrealised(book[..k], trades)
    {
      if book[k].holding.shares > 0.0 {
        total := total + Mark(book[k], trades);
      }
      assert book[..k + 1][..k] == book[..k];
    }
    assert book[..|book|] == book;
  }

  // ----- trading days --------------------------------------------------

  /** Strictly ascending, hence distinct. */
  predicate Ascending(days: seq<Date>)
  {
    forall i, j :: 0 <= i < j < |days| ==> DateBefore(days[i], days[j])
  }

  /** `d` inserted into ascending `days` unless already there. */
  function InsertDate(days: seq<Date>, d: Date): seq<Date>
  {
    if days == [] then [d]
    else if days[0] == d then days
    else if DateBefore(d, days[0]) then [d] + days
    else [days[0]] + InsertDate(days[1..], d)
  }

  lemma {:induction false} InsertDateSpec(days: seq<Date>, d: Date)
    requires Ascending(days)
    ensures Ascending(InsertDate(days, d))
    ensures forall x :: x in InsertDate(days, d) <==> x in days || x == d
  {
    if days != [] && days[0] != d && !DateBefore(d, days[0]) {
      var rest := InsertDate(days[1..], d);
      InsertDateSpec(days[1..], d);
      assert forall x :: x in days[1..] ==> DateBefore(days[0], x) by {
        forall x | x in days[1..] ensures DateBefore(days[0], x) {
          var j :| 0 <= j < |days[1..]| && days[1..][j] == x;
          assert days[j + 1] == x;
        }
      }
      assert DateBefore(days[0], d);
      assert forall j :: 0 <= j < |rest| ==> DateBefore(days[0], rest[j]) by {
        forall j | 0 <= j < |rest| ensures DateBefore(days[0], rest[j]) {
          assert rest[j] in rest;
        }
      }
    }
  }

  /** `sort_values("date").groupby("date")`'s keys: the distinct dates, ascending. */
  function TradingDays(fills: seq<Fill>): seq<Date>
    decreases |fills|
  {
    if fills == [] then []
    else InsertDate(TradingDays(fills[..|fills| - 1]), fills[|fills| - 1].date)
  }

  /** The trading days are ascending and are exactly the dates that occur. */
  lemma {:induction false} TradingDaysSpec(fills: seq<Fill>)
    ensures Ascending(TradingDays(fills))
    ensures forall i :: 0 <= i < |fills| ==> fills[i].date in TradingDays(fills)
    ensures forall j :: 0 <= j < |TradingDays(fills)| ==> exists i :: 0 <= i < |fills| && fills[i].date == TradingDays(fills)[j]
    decreases |fills|
  {
    if fills != [] {
      var front := fills[..|fills| - 1];
      var before := TradingDays(front);
      var days := TradingDays(fills);
      var last := fills[|fills| - 1];
      TradingDaysSpec(front);
      InsertDateSpec(before, last.date);
      forall i | 0 <= i < |fills|
        ensures fills[i].date in days
      {
        if i < |front| {
          assert front[i].date in before;
        }
      }
      forall j | 0 <= j < |days|
        ensures exists i :: 0 <= i < |fills| && fills[i].date == days[j]
      {
        if days[j] != last.date {
          assert days[j] in before;
          var k :| 0 <= k < |before| && before[k] == days[j];
          var i :| 0 <= i < |front| && front[i].date == before[k];
          assert fills[i].date == days[j];
        }
      }
    }
  }

  /** One group of the `groupby`: the day's trades in input order. */
  function DayTrades(fills: seq<Fill>, d: Date): seq<Fill>
    decreases |fills|
  {
    if fills == [] then []
    else DayTrades(fills[..|fills| - 1], d) + (if fills[|fills| - 1].date == d then [fills[|fills| - 1]] else [])
  }

  /** The day's group holds exactly the trades of that date. */
  lemma {:induction false} DayTradesSpec(fills: seq<Fill>, d: Date)
    ensures forall f :: f in DayTrades(fills, d) <==> f in fills && f.date == d
    decreases |fills|
  {
    if fills != [] {
      var front := fills[..|fills| - 1];
      DayTradesSpec(front, d);
      assert fills == front + [fills[|fills| - 1]];
    }
  }

  // ----- the daily table ------------------------------------------------

  /** One day's figures before the cumulative column. */
  datatype DayPnl = DayPnl(date: Date, realised: real, unrealised: real, total: real)

  /** The positions carried into the next day and the rows so far. */
  datatype Close = Close(book: seq<Entry>, rows: seq<DayPnl>)

  /** One trading day: its trades in order, then the mark to market. */
  function CloseDay(c: Close, fills: seq<Fill>, d: Date): Close
  {
    var trades := DayTrades(fills, d);
    Closed(c.rows, d, RunTrades(Ledger(c.book, 0.0), trades), trades)
  }

  /** The day's row from its ledger, with the positions marked against its trades. */
  function Closed(rows: seq<DayPnl>, d: Date, l: Ledger, trades: seq<Fill>): Close
  {
    var u := Unrealised(l.book, trades);
    Close(l.book, rows + [DayPnl(d, l.realised, u, l.realised + u)])
  }

  function RunDays(fills: seq<Fill>, days: seq<Date>): Close
    decreases |days|
  {
    if days == [] then Close([], [])
    else CloseDay(RunDays(fills, days[..|days| - 1]), fills, days[|days| - 1])
  }

  /** One output row, with `cumulative_pl`. */
  datatype PnlRow = PnlRow(date: Date, realised: real, unrealised: real, total: real, cumulative: real)

  /** The table with its running total: each row adds its total to the previous row's. */
  function WithCumulative(rows: seq<DayPnl>): seq<PnlRow>
    decreases |rows|
  {
    if rows == [] then []
    else
      var front := WithCumulative(rows[..|rows| - 1]);
      var last := rows[|rows| - 1];
      var before := if front == [] then 0.0 else front[|front| - 1].cumulative;
      front + [PnlRow(last.date, last.realised, last.unrealised, last.total, before + last.total)]
  }

  /** The engine: one row per trading day, in date order. */
  function DailyPnl(fills: seq<Fill>): seq<PnlRow>
  {
    WithCumulative(RunDays(fills, TradingDays(fills)).rows)
  }

  /** Each day gets one row, in the order given, and a row's total is its realised plus unrealised. */
  lemma {:induction false} RunDaysRows(fills: seq<Fill>, days: seq<Date>)
    ensures |RunDays(fills, days).rows| == |days|
    ensures forall i :: 0 <= i < |days| ==> RunDays(fills, days).rows[i].date == days[i]
    ensures forall i :: 0 <= i < |days| ==>
      RunDays(fills, days).rows[i].total == RunDays(fills, days).rows[i].realised + RunDays(fills, days).rows[i].unrealised
    decreases |days|
  {
    if days != [] {
      RunDaysRows(fills, days[..|days| - 1]);
    }
  }

  /** With non-negative quantities the carried book stays keyed and long-only. */
  lemma {:induction false} RunDaysLongOnly(fills: seq<Fill>, days: seq<Date>)
    requires NonNegative(fills)
    ensures Keyed(RunDays(fills, days).book) && LongOnly(RunDays(fills, days).book)
    decreases |days|
  {
    if days != [] {
      var c := RunDays(fills, days[..|days| - 1]);
      var d := days[|days| - 1];
      RunDaysLongOnly(fills, days[..|days| - 1]);
      DayTradesSpec(fills, d);
      var trades := DayTrades(fills, d);
      assert NonNegative(trades) by {
        forall i | 0 <= i < |trades| ensures trades[i].qty >= 0.0 {
          assert trades[i] in fills;
        }
      }
      RunTradesKeeps(Ledger(c.book, 0.0), trades);
    }
  }

  /** The totals column of the output table. */
  function TotalColumn(rows: seq<PnlRow>): (r: seq<real>)
    ensures |r| == |rows| && forall i :: 0 <= i < |rows| ==> r[i] == rows[i].total
  {
    seq(|rows|, i requires 0 <= i < |rows| => rows[i].total)
  }

  /** The cumulative column is the running sum of the totals; the other columns are copied. */
  lemma {:induction false} WithCumulativeCopies(rows: seq<DayPnl>)
    ensures |WithCumulative(rows)| == |rows|
    ensures forall i :: 0 <= i < |rows| ==>
      var w := WithCumulative(rows)[i];
      w.date == rows[i].date && w.realised == rows[i].realised && w.unrealised == rows[i].unrealised && w.total == rows[i].total
    decreases |rows|
  {
    if rows != [] {
      WithCumulativeCopies(rows[..|rows| - 1]);
    }
  }

  /** The cumulative column is the running sum of the totals column. */
  lemma {:induction false} WithCumulativeRunning(rows: seq<DayPnl>)
    ensures forall i :: 0 <= i < |WithCumulative(rows)| ==> WithCumulative(rows)[i].cumulative == SumReals(TotalColumn(WithCumulative(rows))[..i + 1])
    decreases |rows|
  {
    if rows != [] {
      var front := rows[..|rows| - 1];
      var x := rows[|rows| - 1].total;
      var f := WithCumulative(front);
      var w := WithCumulative(rows);
      WithCumulativeRunning(front);
      var tf := TotalColumn(f);
      var tw := TotalColumn(w);
      assert w == f + [w[|f|]];
      assert tw == tf + [x];
      SumRealsAppend(tf, x);
      forall i | 0 <= i < |w|
        ensures w[i].cumulative == SumReals(tw[..i + 1])
      {
        if i < |f| {
          assert tw[..i + 1] == tf[..i + 1];
        } else {
          assert tw[..i + 1] == tf + [x];
          if f != [] {
            assert tf[..|f|] == tf;
          }
        }
      }
    }
  }

  /** The table's dates are strictly ascending, so no date has two rows. */
  lemma DailyPnlAscending(fills: seq<Fill>)
    ensures forall i, j :: 0 <= i < j < |DailyPnl(fills)| ==> DateBefore(DailyPnl(fills)[i].date, DailyPnl(fills)[j].date)
  {
    TradingDaysSpec(fills);
    DailyPnlDates(fills);
  }

  /** Every row's date is some trade's date, and every trade's date has a row. */
  lemma DailyPnlCoversDates(fills: seq<Fill>)
    ensures forall i :: 0 <= i < |DailyPnl(fills)| ==> exists k :: 0 <= k < |fills| && fills[k].date == DailyPnl(fills)[i].date
    ensures forall k :: 0 <= k < |fills| ==> exists i :: 0 <= i < |DailyPnl(fills)| && DailyPnl(fills)[i].date == fills[k].date
  {
    var days := TradingDays(fills);
    TradingDaysSpec(fills);
    DailyPnlDates(fills);
    var r := DailyPnl(fills);
    forall k | 0 <= k < |fills|
      ensures exists i :: 0 <= i < |r| && r[i].date == fills[k].date
    {
      var i :| 0 <= i < |days| && days[i] == fills[k].date;
      assert r[i].date == fills[k].date;
    }
  }

  /** No trades, no rows; any trade, some row. */
  lemma DailyPnlEmpty(fills: seq<Fill>)
    ensures DailyPnl(fills) == [] <==> fills == []
  {
    TradingDaysSpec(fills);
    DailyPnlDates(fills);
    if fills != [] {
      assert fills[0].date in TradingDays(fills);
    }
  }

  /** Row `i` is the `i`-th trading day's. */
  lemma DailyPnlDates(fills: seq<Fill>)
    ensures |DailyPnl(fills)| == |TradingDays(fills)|
    ensures forall i :: 0 <= i < |DailyPnl(fills)| ==> DailyPnl(fills)[i].date == TradingDays(fills)[i]
  {
    var days := TradingDays(fills);
    RunDaysRows(fills, days);
    WithCumulativeCopies(RunDays(fills, days).rows);
  }

  /** Each row's total is its realised plus unrealised profit, and the cumulative column is the running total. */
  lemma DailyPnlTotals(fills: seq<Fill>)
    ensures forall i :: 0 <= i < |DailyPnl(fills)| ==> DailyPnl(fills)[i].total == DailyPnl(fills)[i].realised + DailyPnl(fills)[i].unrealised
    ensures forall i :: 0 <= i < |DailyPnl(fills)| ==> DailyPnl(fills)[i].cumulative == SumReals(TotalColumn(DailyPnl(fills))[..i + 1])
  {
    var days := TradingDays(fills);
    RunDaysRows(fills, days);
    WithCumulativeCopies(RunDays(fills, days).rows);
    WithCumulativeRunning(RunDays(fills, days).rows);
  }

  /**
   * `compute_daily_pnl`: group the trades by day in date order, run each
   * day's trades, mark the open positions, then add the running total.
   */
  method ComputeDailyPnl(fills: seq<Fill>) returns (rows: seq<PnlRow>)
    ensures rows == DailyPnl(fills)
  {
    var days := TradingDays(fills);
    var closed := CloseDays(fills, days);
    rows := Cumulate(closed.rows);
  }

  /** The loop over the `groupby("date")` groups. */
  method CloseDays(fills: seq<Fill>, days: seq<Date>) returns (closed: Close)
    ensures closed == RunDays(fills, days)
  {
    var book: seq<Entry> := [];
    var daily: seq<DayPnl> := [];
    for i := 0 to |days|
      invariant Close(book, daily) == RunDays(fills, days[..i])
    {
      var trades := DayTrades(fills, days[i]);
      var after, realised := ProcessTrades(book, trades);
      var unrealised := MarkToMarket(after, trades);
      assert days[..i + 1][..i] == days[..i];
      book := after;
      daily := daily + [DayPnl(days[i], realised, unrealised, realised + unrealised)];
    }
    assert days[..|days|] == days;
    closed := Close(book, daily);
  }

  /** `daily_df["total_pl"].cumsum()` as a running total. */
  method Cumulate(daily: seq<DayPnl>) returns (rows: seq<PnlRow>)
    ensures rows == WithCumulative(daily)
  {
    rows := [];
    var running := 0.0;
    for i := 0 to |daily|
      invariant rows == WithCumulative(daily[..i])
      invariant running == if rows == [] then 0.0 else rows[|rows| - 1].cumulative
    {
      running := running + daily[i].total;
      rows := rows + [PnlRow(daily[i].date, daily[i].realised, daily[i].unrealised, daily[i].total, running)];
      assert daily[..i + 1][..i] == daily[..i];
    }
    assert daily[..|daily|] == daily;
  }
}
