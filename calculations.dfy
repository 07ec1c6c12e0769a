/**
 * The running-average ledger of `app/services/calculations.py`: one net
 * position per symbol (shares, negative when short, their average cost and
 * the last price seen) and the realised profit booked per day.
 */
module Calculations {

  import opened Common
  import opened Text
  import opened Numbers
  import opened Dates
  import opened Utils

  // ----- one position ---------------------------------------------------

  /** A symbol's entry: net shares (negative when short), their average cost, the last trade price. */
  datatype Holding = Holding(shares: real, avgCost: real, lastPrice: Option<real>)

  /** The entry a symbol gets on first use. */
  const Flat: Holding := Holding(0.0, 0.0, None)

  /** The profit of closing `qty` units bought at `cost` by selling at `price` (or shorted at `price`, covered at `cost`). */
  function Spread(price: real, cost: real, qty: real): real
  {
    (price - cost) * qty
  }

  /** The average cost after adding `added` units at `price` to `held` units at `cost`. */
  function Mean(cost: real, held: real, price: real, added: real): real
    requires held >= 0.0 && added > 0.0
  {
    (cost * held + price * added) / (held + added)
  }

  /**
   * The BUY branch of `_apply_trade_to_position`: cover min(qty, -shares) of
   * a short, booking cost - price on each unit; forget the cost when that
   * flattens the position; add what is left long at the mean price.
   */
  function Bought(h: Holding, qty: real, price: real): (r: (Holding, real))
    ensures r.0.lastPrice == Some(price)
    ensures qty > 0.0 ==> r.0.shares == h.shares + qty
    ensures h.shares >= 0.0 ==> r.1 == 0.0
  {
    var covered := if h.shares < 0.0 then Min(qty, -h.shares) else 0.0;
    var left := h.shares + covered;
    var costLeft := if covered != 0.0 && left == 0.0 then 0.0 else h.avgCost;
    var added := qty - covered;
    if added > 0.0 then (Holding(left + added, Mean(costLeft, left, price, added), Some(price)), Spread(h.avgCost, price, covered))
    else (Holding(left, costLeft, Some(price)), Spread(h.avgCost, price, covered))
  }

  /**
   * The SELL branch: sell min(qty, shares) of a long, booking price - cost
   * on each unit; forget the cost when that flattens the position; add what
   * is left short at the mean price.
   */
  function Sold(h: Holding, qty: real, price: real): (r: (Holding, real))
    ensures r.0.lastPrice == Some(price)
    ensures qty > 0.0 ==> r.0.shares == h.shares - qty
    ensures h.shares <= 0.0 ==> r.1 == 0.0
  {
    var sold := if h.shares > 0.0 then Min(qty, h.shares) else 0.0;
    var left := h.shares - sold;
    var costLeft := if sold != 0.0 && left == 0.0 then 0.0 else h.avgCost;
    var added := qty - sold;
    if added > 0.0 then (Holding(left - added, Mean(costLeft, -left, price, added), Some(price)), Spread(price, h.avgCost, sold))
    else (Holding(left, costLeft, Some(price)), Spread(price, h.avgCost, sold))
  }

  /**
   * `_apply_trade_to_position` as a value: the new entry and the realised
   * profit. Any side but BUY and SELL only records the price.
   */
  function Traded(h: Holding, side: string, qty: real, price: real): (r: (Holding, real))
    ensures r.0.lastPrice == Some(price)
    ensures side != "BUY" && side != "SELL" ==> r == (h.(lastPrice := Some(price)), 0.0)
    ensures qty > 0.0 && side == "BUY" ==> r.0.shares == h.shares + qty
    ensures qty > 0.0 && side == "SELL" ==> r.0.shares == h.shares - qty
    ensures side == "BUY" && h.shares >= 0.0 ==> r.1 == 0.0
    ensures side == "SELL" && h.shares <= 0.0 ==> r.1 == 0.0
  {
    if side == "BUY" then Bought(h, qty, price)
    else if side == "SELL" then Sold(h, qty, price)
    else (h.(lastPrice := Some(price)), 0.0)
  }

  /**
   * `_apply_trade_to_position`, step by step as the source updates its
   * locals. Any side but BUY and SELL only records the price.
   */
  method ApplyTradeToPosition(position: Holding, side: string, qty: real, price: real) returns (updated: Holding, realized: real)
    ensures (updated, realized) == Traded(position, side, qty, price)
  {
    if side == "BUY" {
      updated, realized := ApplyBuy(position, qty, price);
    } else if side == "SELL" {
      updated, realized := ApplySell(position, qty, price);
    } else {
      updated, realized := position.(lastPrice := Some(price)), 0.0;
    }
  }

  /** The BUY branch: cover the short first, reset the cost when that flattens it, then add what remains long. */
  method ApplyBuy(position: Holding, qty: real, price: real) returns (updated: Holding, realized: real)
    ensures (updated, realized) == Bought(position, qty, price)
  {
    ghost var covered := if position.shares < 0.0 then Min(qty, -position.shares) else 0.0;
    ghost var costLeft := if covered != 0.0 && position.shares + covered == 0.0 then 0.0 else position.avgCost;
    var shares := position.shares;
    var avgCost := position.avgCost;
    realized := 0.0;
    var remaining := qty;
    if shares < 0.0 {
      var coverQty := Min(remaining, -shares);
      realized := realized + Spread(avgCost, price, coverQty);
      shares := shares + coverQty;
      remaining := remaining - coverQty;
      if shares == 0.0 {
        avgCost := 0.0;
      }
    }
    assert shares == position.shares + covered && avgCost == costLeft && remaining == qty - covered;
    if remaining > 0.0 {
      var costBasis := if shares > 0.0 then avgCost * shares else 0.0;
      costBasis := costBasis + price * remaining;
      ghost var held := shares;
      shares := shares + remaining;
      avgCost := if shares != 0.0 then costBasis / shares else 0.0;
      assert avgCost == Mean(costLeft, held, price, remaining);
    }
    updated := Holding(shares, avgCost, Some(price));
  }

  /** The SELL branch: sell the long down first, reset the cost when that flattens it, then add what remains short. */
  method ApplySell(position: Holding, qty: real, price: real) returns (updated: Holding, realized: real)
    ensures (updated, realized) == Sold(position, qty, price)
  {
    ghost var sold := if position.shares > 0.0 then Min(qty, position.shares) else 0.0;
    ghost var costLeft := if sold != 0.0 && position.shares - sold == 0.0 then 0.0 else position.avgCost;
    var shares := position.shares;
    var avgCost := position.avgCost;
    realized := 0.0;
    var remaining := qty;
    if shares > 0.0 {
      var sellQty := Min(remaining, shares);
      realized := realized + Spread(price, avgCost, sellQty);
      shares := shares - sellQty;
      remaining := remaining - sellQty;
      if shares == 0.0 {
        avgCost := 0.0;
      }
    }
    assert shares == position.shares - sold && avgCost == costLeft && remaining == qty - sold;
    if remaining > 0.0 {
      var shortShares := if shares < 0.0 then -shares else 0.0;
      var totalProceeds := if shortShares != 0.0 then avgCost * shortShares else 0.0;
      totalProceeds := totalProceeds + price * remaining;
      ghost var held := shortShares;
      shortShares := shortShares + remaining;
      if shortShares != 0.0 {
        avgCost := totalProceeds / shortShares;
        shares := -shortShares;
      }
      assert avgCost == Mean(costLeft, held, price, remaining);
    }
    updated := Holding(shares, avgCost, Some(price));
  }

  // ----- properties of one trade ------------------------------------------

  /** Opening from nothing prices the position at the trade price, whatever cost was carried. */
  lemma MeanOfNothing(cost: real, price: real, added: real)
    requires added > 0.0
    ensures Mean(cost, 0.0, price, added) == price
  {
    assert cost * 0.0 + price * added == price * added;
    assert (price * added) / added == price;
  }

  /** The average cost keeps the total cost: mean times the new count is old cost plus the new units' cost. */
  lemma MeanTotal(cost: real, held: real, price: real, added: real)
    requires held >= 0.0 && added > 0.0
    ensures Mean(cost, held, price, added) * (held + added) == cost * held + price * added
  {
  }

  /** Averaging non-negative costs with a positive price gives a positive cost. */
  lemma MeanPositive(cost: real, held: real, price: real, added: real)
    requires cost >= 0.0 && held >= 0.0 && price > 0.0 && added > 0.0
    ensures Mean(cost, held, price, added) > 0.0
  {
    assert cost * held >= 0.0;
    assert price * added > 0.0;
  }

  /**
   * A BUY against a short covers min(qty, -shares) and books (cost - price)
   * on each unit; a partial cover keeps the cost, an exact cover flattens to
   * zero cost, and a larger BUY flips long at the trade price.
   */
  lemma BuyAgainstShort(h: Holding, qty: real, price: real)
    requires h.shares < 0.0 && qty > 0.0
    ensures Traded(h, "BUY", qty, price).1 == (h.avgCost - price) * Min(qty, -h.shares)
    ensures qty < -h.shares ==> Traded(h, "BUY", qty, price).0.avgCost == h.avgCost
    ensures qty == -h.shares ==> Traded(h, "BUY", qty, price).0 == Holding(0.0, 0.0, Some(price))
    ensures qty > -h.shares ==> Traded(h, "BUY", qty, price).0 == Holding(h.shares + qty, price, Some(price))
  {
    assert Traded(h, "BUY", qty, price) == Bought(h, qty, price);
    if qty > -h.shares {
      MeanOfNothing(0.0, price, qty + h.shares);
    }
  }

  /**
   * A SELL against a long sells min(qty, shares) and books (price - cost) on
   * each unit; a partial sale keeps the cost, an exact sale flattens to zero
   * cost, and a larger SELL flips short at the trade price.
   */
  lemma SellAgainstLong(h: Holding, qty: real, price: real)
    requires h.shares > 0.0 && qty > 0.0
    ensures Traded(h, "SELL", qty, price).1 == (price - h.avgCost) * Min(qty, h.shares)
    ensures qty < h.shares ==> Traded(h, "SELL", qty, price).0.avgCost == h.avgCost
    ensures qty == h.shares ==> Traded(h, "SELL", qty, price).0 == Holding(0.0, 0.0, Some(price))
    ensures qty > h.shares ==> Traded(h, "SELL", qty, price).0 == Holding(h.shares - qty, price, Some(price))
  {
    assert Traded(h, "SELL", qty, price) == Sold(h, qty, price);
    if qty > h.shares {
      MeanOfNothing(0.0, price, qty - h.shares);
    }
  }

  /**
   * Adding to a long (or opening from flat) keeps the total cost: the new
   * average times the new shares is the old cost plus price times qty. The
   * same holds for adding to a short, on the absolute share count.
   */
  lemma AddToSide(h: Holding, side: string, qty: real, price: real)
    requires qty > 0.0
    requires (side == "BUY" && h.shares >= 0.0) || (side == "SELL" && h.shares <= 0.0)
    ensures Traded(h, side, qty, price).1 == 0.0
    ensures Abs(Traded(h, side, qty, price).0.shares) == Abs(h.shares) + qty
    ensures Traded(h, side, qty, price).0.avgCost * (Abs(h.shares) + qty) == h.avgCost * Abs(h.shares) + price * qty
  {
    if side == "BUY" {
      assert Traded(h, side, qty, price) == Bought(h, qty, price);
      assert Bought(h, qty, price).0.avgCost == Mean(h.avgCost, h.shares, price, qty);
      MeanTotal(h.avgCost, h.shares, price, qty);
    } else {
      assert Traded(h, side, qty, price) == Sold(h, qty, price);
      assert Sold(h, qty, price).0.avgCost == Mean(h.avgCost, -h.shares, price, qty);
      MeanTotal(h.avgCost, -h.shares, price, qty);
    }
  }

  /** A long of 10 hit by a SELL of 15 ends short 5 at the sale price, booking the 10 sold. */
  lemma FlipExample(avgCost: real, last: Option<real>, price: real)
    ensures Traded(Holding(10.0, avgCost, last), "SELL", 15.0, price)
      == (Holding(-5.0, price, Some(price)), (price - avgCost) * 10.0)
  {
    SellAgainstLong(Holding(10.0, avgCost, last), 15.0, price);
  }

  /**
   * The shape every ledger entry keeps: a flat position carries no cost and
   * an open one a positive cost.
   */
  predicate HoldingValid(h: Holding)
  {
    (h.shares == 0.0 ==> h.avgCost == 0.0) && (h.shares != 0.0 ==> h.avgCost > 0.0)
  }

  /** A trade the ledger accepts (positive quantity and price) keeps an entry valid. */
  lemma TradedValid(h: Holding, side: string, qty: real, price: real)
    requires HoldingValid(h) && qty > 0.0 && price > 0.0
    ensures HoldingValid(Traded(h, side, qty, price).0)
  {
    if side == "BUY" {
      if h.shares < 0.0 {
        BuyAgainstShort(h, qty, price);
      } else {
        assert Traded(h, side, qty, price) == Bought(h, qty, price);
        assert Bought(h, qty, price).0.avgCost == Mean(h.avgCost, h.shares, price, qty);
        MeanPositive(h.avgCost, h.shares, price, qty);
      }
    } else if side == "SELL" {
      if h.shares > 0.0 {
        SellAgainstLong(h, qty, price);
      } else {
        assert Traded(h, side, qty, price) == Sold(h, qty, price);
        assert Sold(h, qty, price).0.avgCost == Mean(h.avgCost, -h.shares, price, qty);
        MeanPositive(h.avgCost, -h.shares, price, qty);
      }
    }
  }

  // ----- the input rows -----------------------------------------------------

  /**
   * One trade dictionary. A key that is absent reads as `None`/`Null`;
   * `qty`/`quantity`/`price` may hold numbers or text.
   */
  datatype TradeRow = TradeRow(
    date: Stamp, datetime: Stamp, symbol: Option<string>, action: Option<string>, side: Option<string>,
    qty: Cell, quantity: Cell, price: Cell)

  /** Python truthiness of a cell: `None`, zero and the empty string are false. */
  predicate Truthy(c: Cell)
  {
    match c
    case Null => false
    case Num(n) => n != 0.0
    case Str(s) => s != []
  }

  /** `a or b or 0.0`. */
  function FirstTruthy(a: Cell, b: Cell): (r: Cell)
    ensures Truthy(r) || r == Num(0.0)
  {
    if Truthy(a) then a else if Truthy(b) then b else Num(0.0)
  }

  /** `float(value)`: a number as is, decimal text parsed; anything else raises. */
  function ToFloat(c: Cell): (r: Option<real>)
    ensures c.Num? ==> r == Some(c.n)
    ensures c.Null? ==> r == None
  {
    match c
    case Null => None
    case Num(n) => Some(n)
    case Str(s) => ParseDecimal(s)
  }

  /** `(trade.get("symbol") or "").strip().upper()`. */
  function RowSymbol(t: TradeRow): string
  {
    Upper(Strip(t.symbol.GetOr("")))
  }

  /** `(trade.get("action") or trade.get("side") or "").strip().upper()`. */
  function RowSide(t: TradeRow): string
  {
    var raw := if t.action.GetOr("") != "" then t.action.value else t.side.GetOr("");
    Upper(Strip(raw))
  }

  /** `float(trade.get("qty") or trade.get("quantity") or 0.0)`, `None` when it raises. */
  function RowQty(t: TradeRow): Option<real>
  {
    ToFloat(FirstTruthy(t.qty, t.quantity))
  }

  /** `float(trade.get("price") or 0.0)`, `None` when it raises. */
  function RowPrice(t: TradeRow): Option<real>
  {
    ToFloat(FirstTruthy(t.price, Null))
  }

  /** The fields of a trade the ledger acts on. */
  datatype Accepted = Accepted(day: string, symbol: string, side: string, qty: real, price: real)

  /**
   * The skip rules of `Ledger.apply`: a trade is acted on exactly when its
   * numbers parse, its symbol is not blank, its side is BUY or SELL, and its
   * quantity and price are positive.
   */
  function Accept(t: TradeRow): (r: Option<Accepted>)
    ensures r.Some? <==> RowQty(t).Some? && RowPrice(t).Some? && RowSymbol(t) != [] && RowSide(t) in {"BUY", "SELL"}
                         && RowQty(t).value > 0.0 && RowPrice(t).value > 0.0
    ensures r.Some? ==> r.value == Accepted(Ymd(t.date), RowSymbol(t), RowSide(t), RowQty(t).value, RowPrice(t).value)
    ensures r.Some? ==> r.value.qty > 0.0 && r.value.price > 0.0 && (r.value.side == "BUY" || r.value.side == "SELL")
  {
    var qty := RowQty(t);
    var price := RowPrice(t);
    if qty.None? || price.None? then None
    else if RowSymbol(t) == [] || RowSide(t) !in {"BUY", "SELL"} then None
    else if qty.value <= 0.0 || price.value <= 0.0 then None
    else Some(Accepted(Ymd(t.date), RowSymbol(t), RowSide(t), qty.value, price.value))
  }

  // ----- the sort order -----------------------------------------------------

  /** Which kind of value a stamp is; Python orders values of one kind only. */
  function Kind(s: Stamp): nat
  {
    match s
    case NoStamp => 0
    case TextStamp(_) => 1
    case DateStamp(_) => 2
    case DateTimeStamp(_, _) => 3
  }

  /**
   * `a <= b` on stamps of one kind: text by code points, dates and timestamps
   * chronologically, `None` only equal to itself. Stamps of different kinds
   * are ranked by kind, which Python never gets to do (see `Orderable`).
   */
  predicate StampLe(a: Stamp, b: Stamp)
  {
    if Kind(a) != Kind(b) then Kind(a) < Kind(b)
    else match a
      case NoStamp => true
      case TextStamp(x) => LexLessEq(x, b.text)
      case DateStamp(x) => DateLe(x, b.date)
      case DateTimeStamp(d, t) => DateTimeLe(DateTime(d, t), DateTime(b.day, b.time))
  }

  /** The sort key `(row.get("date"), row.get("datetime"))`, compared as a tuple. */
  predicate KeyLe(a: TradeRow, b: TradeRow)
  {
    if a.date != b.date then StampLe(a.date, b.date) else StampLe(a.datetime, b.datetime)
  }

  /**
   * Whether `sorted` can compare the keys: every date is of one kind, and
   * trades with equal dates have timestamps of one kind. A comparison sort
   * compares every pair that ends up adjacent, so when this fails some
   * comparison of two unlike values raises `TypeError`.
   */
  predicate Orderable(trades: seq<TradeRow>)
  {
    forall i, j :: 0 <= i < |trades| && 0 <= j < |trades| ==>
      Kind(trades[i].date) == Kind(trades[j].date) &&
      (trades[i].date == trades[j].date ==> Kind(trades[i].datetime) == Kind(trades[j].datetime))
  }

  predicate Sorted(trades: seq<TradeRow>)
  {
    forall i :: 0 <= i < |trades| - 1 ==> KeyLe(trades[i], trades[i + 1])
  }

  /** Insert `x` before the first trade it does not sort after, so it stays ahead of equal keys. */
  function Insert(x: TradeRow, trades: seq<TradeRow>): (r: seq<TradeRow>)
    ensures multiset(r) == multiset(trades) + multiset{x}
    ensures |r| == |trades| + 1
    ensures r[0] == x || (trades != [] && r[0] == trades[0])
  {
    if trades == [] || KeyLe(x, trades[0]) then [x] + trades
    else
      assert trades == [trades[0]] + trades[1..];
      [trades[0]] + Insert(x, trades[1..])
  }

  /** `sorted(trades, key=...)`: a stable sort on the key. */
  function SortTrades(trades: seq<TradeRow>): (r: seq<TradeRow>)
    ensures multiset(r) == multiset(trades)
    ensures |r| == |trades|
  {
    if trades == [] then []
    else
      assert trades == [trades[0]] + trades[1..];
      Insert(trades[0], SortTrades(trades[1..]))
  }

  /** The trades whose key is exactly `(date, datetime)`, in order. */
  function WithKey(trades: seq<TradeRow>, date: Stamp, datetime: Stamp): (r: seq<TradeRow>)
    ensures |r| <= |trades|
  {
    if trades == [] then []
    else KeyPart(trades[0], date, datetime) + WithKey(trades[1..], date, datetime)
  }

  // ----- the sort order, proved ---------------------------------------------

  lemma KeyLeTotal(a: TradeRow, b: TradeRow)
    ensures KeyLe(a, b) || KeyLe(b, a)
  {
    if a.date == b.date {
      if a.datetime.TextStamp? && b.datetime.TextStamp? {
        LexTotal(a.datetime.text, b.datetime.text);
      }
    } else if a.date.TextStamp? && b.date.TextStamp? {
      LexTotal(a.date.text, b.date.text);
    }
  }

  /** Equal keys are in order both ways. */
  lemma KeyLeReflexive(a: TradeRow, b: TradeRow)
    ensures a.date == b.date && a.datetime == b.datetime ==> KeyLe(a, b)
  {
  }

  lemma {:induction false} InsertSorted(x: TradeRow, trades: seq<TradeRow>)
    requires Sorted(trades)
    ensures Sorted(Insert(x, trades))
  {
    if trades != [] && !KeyLe(x, trades[0]) {
      KeyLeTotal(x, trades[0]);
      assert Sorted(trades[1..]) by {
        forall i | 0 <= i < |trades[1..]| - 1 ensures KeyLe(trades[1..][i], trades[1..][i + 1]) {
          assert KeyLe(trades[i + 1], trades[i + 2]);
        }
      }
      InsertSorted(x, trades[1..]);
    }
  }

  /** `sorted` puts the trades in key order and keeps every one of them. */
  lemma {:induction false} SortTradesSorted(trades: seq<TradeRow>)
    ensures Sorted(SortTrades(trades)) && multiset(SortTrades(trades)) == multiset(trades)
  {
    if trades != [] {
      SortTradesSorted(trades[1..]);
      InsertSorted(trades[0], SortTrades(trades[1..]));
    }
  }

  /** The trades among `[y]` with key `(date, datetime)`. */
  function KeyPart(y: TradeRow, date: Stamp, datetime: Stamp): seq<TradeRow>
  {
    if y.date == date && y.datetime == datetime then [y] else []
  }

  lemma WithKeyCons(y: TradeRow, rest: seq<TradeRow>, date: Stamp, datetime: Stamp)
    ensures WithKey([y] + rest, date, datetime) == KeyPart(y, date, datetime) + WithKey(rest, date, datetime)
  {
    assert ([y] + rest)[1..] == rest;
  }

  /** Two trades out of key order cannot both have the key `(date, datetime)`. */
  lemma KeyPartApart(x: TradeRow, y: TradeRow, date: Stamp, datetime: Stamp)
    requires !KeyLe(x, y)
    ensures KeyPart(x, date, datetime) == [] || KeyPart(y, date, datetime) == []
  {
    KeyLeReflexive(x, y);
  }

  lemma {:induction false} InsertWithKey(x: TradeRow, trades: seq<TradeRow>, date: Stamp, datetime: Stamp)
    ensures WithKey(Insert(x, trades), date, datetime) == KeyPart(x, date, datetime) + WithKey(trades, date, datetime)
  {
    if trades == [] || KeyLe(x, trades[0]) {
      WithKeyCons(x, trades, date, datetime);
    } else {
      var y, rest := trades[0], trades[1..];
      assert Insert(x, trades) == [y] + Insert(x, rest);
      assert trades == [y] + rest;
      InsertWithKey(x, rest, date, datetime);
      PassOver(x, y, rest, Insert(x, rest), date, datetime);
    }
  }

  /** Inserting `x` past a `y` it does not sort before keeps the trades of each key in order. */
  lemma PassOver(x: TradeRow, y: TradeRow, rest: seq<TradeRow>, inserted: seq<TradeRow>, date: Stamp, datetime: Stamp)
    requires !KeyLe(x, y)
    requires WithKey(inserted, date, datetime) == KeyPart(x, date, datetime) + WithKey(rest, date, datetime)
    ensures WithKey([y] + inserted, date, datetime) == KeyPart(x, date, datetime) + WithKey([y] + rest, date, datetime)
  {
    WithKeyCons(y, inserted, date, datetime);
    WithKeyCons(y, rest, date, datetime);
    KeyPartApart(x, y, date, datetime);
  }

  /** The sort is stable: trades with equal keys keep their input order. */
  lemma {:induction false} SortTradesStable(trades: seq<TradeRow>, date: Stamp, datetime: Stamp)
    ensures WithKey(SortTrades(trades), date, datetime) == WithKey(trades, date, datetime)
  {
    if trades != [] {
      SortTradesStable(trades[1..], date, datetime);
      InsertWithKey(trades[0], SortTrades(trades[1..]), date, datetime);
    }
  }

  /** Trades already in key order are left as they are. */
  lemma {:induction false} SortedUnchanged(trades: seq<TradeRow>)
    requires Sorted(trades)
    ensures SortTrades(trades) == trades
  {
    if trades != [] {
      assert Sorted(trades[1..]) by {
        forall i | 0 <= i < |trades[1..]| - 1 ensures KeyLe(trades[1..][i], trades[1..][i + 1]) {
          assert KeyLe(trades[i + 1], trades[i + 2]);
        }
      }
      SortedUnchanged(trades[1..]);
      assert trades == [trades[0]] + trades[1..];
    }
  }

  // ----- the ledger as a value ------------------------------------------------

  /** The two fields of a `Ledger`. */
  datatype Book = Book(positions: map<string, Holding>, realized: map<string, real>)

  /** `self.positions[symbol]` of the defaultdict: a new symbol starts flat. */
  function HoldingOf(positions: map<string, Holding>, symbol: string): Holding
  {
    if symbol in positions then positions[symbol] else Flat
  }

  /** `realized_by_date[day]` of the defaultdict: 0.0 for a day not booked yet. */
  function BookedOn(realized: map<string, real>, day: string): real
  {
    if day in realized then realized[day] else 0.0
  }

  /**
   * One pass of the loop of `Ledger.apply`: a skipped trade changes nothing;
   * an accepted one updates its symbol's entry, and its realisation, when not
   * zero, is added to its day.
   */
  function Step(b: Book, t: TradeRow): (r: Book)
    ensures Accept(t).None? ==> r == b
    ensures Accept(t).Some? ==> var a := Accept(t).value;
      r.positions == b.positions[a.symbol := Traded(HoldingOf(b.positions, a.symbol), a.side, a.qty, a.price).0]
    ensures r.realized.Keys >= b.realized.Keys
    ensures forall d :: d in r.realized.Keys - b.realized.Keys ==> Accept(t).Some? && d == Accept(t).value.day
  {
    match Accept(t)
    case None => b
    case Some(a) => Onto(b, a, Traded(HoldingOf(b.positions, a.symbol), a.side, a.qty, a.price))
  }

  /** An accepted trade moves its symbol to the traded holding and adds a non-zero realisation to its day. */
  function Onto(b: Book, a: Accepted, traded: (Holding, real)): Book
  {
    var (h, gain) := traded;
    var realized := if gain != 0.0 then b.realized[a.day := BookedOn(b.realized, a.day) + gain] else b.realized;
    Book(b.positions[a.symbol := h], realized)
  }

  /** The loop of `Ledger.apply` over trades already in processing order. */
  function Run(b: Book, trades: seq<TradeRow>): Book
    decreases |trades|
  {
    if trades == [] then b else Step(Run(b, trades[..|trades| - 1]), trades[|trades| - 1])
  }

  /** Why `Ledger.apply` raises. */
  datatype LedgerError = UnorderableKeys

  /** `Ledger.apply` as a value: the book it leaves and the map it returns. */
  function ApplySpec(b: Book, trades: seq<TradeRow>): (r: Result<Book, LedgerError>)
    ensures trades == [] ==> r == Ok(b)
    ensures r.Err? <==> !Orderable(trades)
  {
    if trades == [] then Ok(b)
    else if !Orderable(trades) then Err(UnorderableKeys)
    else Ok(Run(b, SortTrades(trades)))
  }

  // ----- properties of the ledger ---------------------------------------------

  predicate BookValid(b: Book)
  {
    forall s :: s in b.positions ==> HoldingValid(b.positions[s])
  }

  /** Every entry stays flat-at-zero-cost or open-at-positive-cost, whatever the trades. */
  lemma {:induction false} RunValid(b: Book, trades: seq<TradeRow>)
    requires BookValid(b)
    ensures BookValid(Run(b, trades))
  {
    if trades != [] {
      var before := Run(b, trades[..|trades| - 1]);
      RunValid(b, trades[..|trades| - 1]);
      var t := trades[|trades| - 1];
      if Accept(t).Some? {
        var a := Accept(t).value;
        TradedValid(HoldingOf(before.positions, a.symbol), a.side, a.qty, a.price);
      }
    }
  }

  /** The accepted trades of one symbol, in order. */
  function OfSymbol(trades: seq<TradeRow>, symbol: string): (r: seq<Accepted>)
    ensures forall i :: 0 <= i < |r| ==> r[i].symbol == symbol && r[i].qty > 0.0
    decreases |trades|
  {
    if trades == [] then []
    else
      var last := trades[|trades| - 1];
      OfSymbol(trades[..|trades| - 1], symbol)
        + (if Accept(last).Some? && Accept(last).value.symbol == symbol then [Accept(last).value] else [])
  }

  /** One symbol's entry after its own trades, one at a time. */
  function RunHolding(h: Holding, trades: seq<Accepted>): Holding
    decreases |trades|
  {
    if trades == [] then h
    else
      var last := trades[|trades| - 1];
      Traded(RunHolding(h, trades[..|trades| - 1]), last.side, last.qty, last.price).0
  }

  /** A symbol's entry depends only on that symbol's accepted trades: other symbols never touch it. */
  lemma {:induction false} RunPerSymbol(b: Book, trades: seq<TradeRow>, symbol: string)
    ensures HoldingOf(Run(b, trades).positions, symbol) == RunHolding(HoldingOf(b.positions, symbol), OfSymbol(trades, symbol))
  {
    if trades != [] {
      RunPerSymbol(b, trades[..|trades| - 1], symbol);
      var mine := OfSymbol(trades[..|trades| - 1], symbol);
      var last := trades[|trades| - 1];
      if Accept(last).Some? && Accept(last).value.symbol == symbol {
        assert (mine + [Accept(last).value])[..|mine|] == mine;
      } else {
        assert mine + [] == mine;
      }
    }
  }

  /** The net quantity of accepted trades: + for BUY, - for SELL. */
  function NetQty(trades: seq<Accepted>): real
    decreases |trades|
  {
    if trades == [] then 0.0
    else
      var last := trades[|trades| - 1];
      NetQty(trades[..|trades| - 1]) + (if last.side == "BUY" then last.qty else if last.side == "SELL" then -last.qty else 0.0)
  }

  /** The net shares of an entry move by exactly the signed quantities of its trades. */
  lemma {:induction false} RunHoldingShares(h: Holding, trades: seq<Accepted>)
    requires forall i :: 0 <= i < |trades| ==> trades[i].qty > 0.0
    ensures RunHolding(h, trades).shares == h.shares + NetQty(trades)
  {
    if trades != [] {
      RunHoldingShares(h, trades[..|trades| - 1]);
    }
  }

  /** A symbol's net shares after the ledger runs: its starting shares plus its BUYs less its SELLs. */
  lemma NetShares(b: Book, trades: seq<TradeRow>, symbol: string)
    ensures HoldingOf(Run(b, trades).positions, symbol).shares == HoldingOf(b.positions, symbol).shares + NetQty(OfSymbol(trades, symbol))
  {
    RunPerSymbol(b, trades, symbol);
    RunHoldingShares(HoldingOf(b.positions, symbol), OfSymbol(trades, symbol));
  }

  /** Only days of accepted trades ever get a realised entry. */
  lemma {:induction false} RunDays(b: Book, trades: seq<TradeRow>, day: string)
    requires day in Run(b, trades).realized && day !in b.realized
    ensures exists i :: 0 <= i < |trades| && Accept(trades[i]).Some? && Accept(trades[i]).value.day == day
  {
    if trades != [] {
      var prefix := trades[..|trades| - 1];
      if day in Run(b, prefix).realized {
        RunDays(b, prefix, day);
        var i :| 0 <= i < |prefix| && Accept(prefix[i]).Some? && Accept(prefix[i]).value.day == day;
        assert trades[i] == prefix[i];
      } else {
        assert Accept(trades[|trades| - 1]).Some? && Accept(trades[|trades| - 1]).value.day == day;
      }
    }
  }

  // ----- the ledger object ------------------------------------------------------

  class Ledger {
    var positions: map<string, Holding>
    var realizedByDate: map<string, real>

    /** A new ledger holds no positions and no realised profit. */
    constructor ()
      ensures positions == map[] && realizedByDate == map[]
    {
      positions := map[];
      realizedByDate := map[];
    }

    function Snapshot(): Book
      reads this
    {
      Book(positions, realizedByDate)
    }

    /**
     * `Ledger.apply`: with no trades, return the map as it is; otherwise
     * sort them by (date, datetime) and run them through the positions,
     * returning the updated realised-by-day map. Unlike keys raise before
     * anything changes.
     */
    method Apply(trades: seq<TradeRow>) returns (r: Result<map<string, real>, LedgerError>)
      modifies this
      ensures trades == [] ==> r == Ok(old(realizedByDate)) && unchanged(this)
      ensures !Orderable(trades) ==> r == Err(UnorderableKeys) && unchanged(this)
      ensures Orderable(trades) ==> Snapshot() == Run(old(Snapshot()), SortTrades(trades)) && r == Ok(realizedByDate)
    {
      if |trades| == 0 {
        return Ok(realizedByDate);
      }
      if !Orderable(trades) {
        return Err(UnorderableKeys);
      }
      var sortedTrades := SortTrades(trades);
      var i := 0;
      while i < |sortedTrades|
        invariant 0 <= i <= |sortedTrades|
        invariant Snapshot() == Run(old(Snapshot()), sortedTrades[..i])
      {
        var trade := sortedTrades[i];
        assert sortedTrades[..i + 1][..i] == sortedTrades[..i];
        ProcessTrade(trade);
        i := i + 1;
      }
      assert sortedTrades[..i] == sortedTrades;
      r := Ok(realizedByDate);
    }

    /** The body of the loop of `Ledger.apply` for one trade. */
    method ProcessTrade(trade: TradeRow)
      modifies this
      ensures Snapshot() == Step(old(Snapshot()), trade)
    {
      ghost var before := Snapshot();
      var day := Ymd(trade.date);
      var symbol := RowSymbol(trade);
      var side := RowSide(trade);
      var qty := RowQty(trade);
      var price := RowPrice(trade);
      if qty.None? || price.None? {
        return;
      }
      if symbol == [] || side !in {"BUY", "SELL"} {
        return;
      }
      if qty.value <= 0.0 || price.value <= 0.0 {
        return;
      }
      var accepted := Accepted(day, symbol, side, qty.value, price.value);
      assert Accept(trade) == Some(accepted);
      var position := HoldingOf(positions, symbol);
      var updated, realized := ApplyTradeToPosition(position, side, qty.value, price.value);
      positions := positions[symbol := updated];
      if realized != 0.0 {
        realizedByDate := realizedByDate[day := BookedOn(realizedByDate, day) + realized];
      }
      StepOnto(before, trade, accepted, updated, realized, Snapshot());
    }
  }

  // ----- the tests, as lemmas ---------------------------------------------------

  /** A trade that the ledger accepts with exactly these fields. */
  predicate AcceptedAs(t: TradeRow, day: string, symbol: string, side: string, qty: real, price: real)
  {
    Accept(t) == Some(Accepted(day, symbol, side, qty, price))
  }

  /** Opening from flat: the entry holds the quantity at the trade price, and nothing is realised. */
  lemma OpenFromFlat(side: string, qty: real, price: real)
    requires qty > 0.0 && (side == "BUY" || side == "SELL")
    ensures Traded(Flat, side, qty, price) == (Holding(if side == "BUY" then qty else -qty, price, Some(price)), 0.0)
  {
    assert Mean(0.0, 0.0, price, qty) == price;
  }

  /**
   * An accepted trade whose realisation is `gain` moves its symbol to `h` and,
   * when the gain is not zero, adds it to its day: `after` is that book.
   */
  lemma StepOnto(b: Book, t: TradeRow, a: Accepted, h: Holding, gain: real, after: Book)
    requires Accept(t) == Some(a) && Traded(HoldingOf(b.positions, a.symbol), a.side, a.qty, a.price) == (h, gain)
    requires after.positions == b.positions[a.symbol := h]
    requires after.realized == if gain != 0.0 then b.realized[a.day := BookedOn(b.realized, a.day) + gain] else b.realized
    ensures Step(b, t) == after
  {
    StepIsOnto(b, t, a);
    OntoIs(b, a, h, gain, after);
  }

  lemma StepIsOnto(b: Book, t: TradeRow, a: Accepted)
    requires Accept(t) == Some(a)
    ensures Step(b, t) == Onto(b, a, Traded(HoldingOf(b.positions, a.symbol), a.side, a.qty, a.price))
  {
  }

  lemma OntoIs(b: Book, a: Accepted, h: Holding, gain: real, after: Book)
    requires after.positions == b.positions[a.symbol := h]
    requires after.realized == if gain != 0.0 then b.realized[a.day := BookedOn(b.realized, a.day) + gain] else b.realized
    ensures Onto(b, a, (h, gain)) == after
  {
  }

  /** Two trades, in order, from a book `b0` through `b1` to `b2`. */
  lemma RunTwo(b0: Book, b1: Book, b2: Book, first: TradeRow, second: TradeRow)
    requires Step(b0, first) == b1 && Step(b1, second) == b2
    ensures Run(b0, [first, second]) == b2
  {
    assert [first, second][..1] == [first];
    assert [first][..0] == [];
    assert Run(b0, [first]) == Step(b0, first);
  }

  /** Two comparable trades already in key order are applied to an empty ledger in that order. */
  lemma TwoSteps(first: TradeRow, second: TradeRow, b1: Book, b2: Book)
    requires Orderable([first, second]) && KeyLe(first, second)
    requires Step(Book(map[], map[]), first) == b1 && Step(b1, second) == b2
    ensures ApplySpec(Book(map[], map[]), [first, second]) == Ok(b2)
  {
    assert Sorted([first, second]);
    SortedUnchanged([first, second]);
    RunTwo(Book(map[], map[]), b1, b2, first, second);
  }

  /** A BUY accepted into an empty book opens a long at its price and books nothing. */
  lemma BuyIntoEmpty(buy: TradeRow, day: string, symbol: string, qty: real, price: real)
    requires AcceptedAs(buy, day, symbol, "BUY", qty, price)
    ensures Step(Book(map[], map[]), buy) == Book(map[symbol := Holding(qty, price, Some(price))], map[])
  {
    OpenFromFlat("BUY", qty, price);
    StepOnto(Book(map[], map[]), buy, Accepted(day, symbol, "BUY", qty, price), Holding(qty, price, Some(price)), 0.0,
             Book(map[symbol := Holding(qty, price, Some(price))], map[]));
  }

  /** A SELL of 0 < q2 <= q1 against a long of q1 at p1 leaves q1 - q2 at p1 (or flat) and realises (p2 - p1) * q2. */
  lemma SellDown(q1: real, p1: real, last: Option<real>, q2: real, p2: real)
    requires 0.0 < q2 <= q1
    ensures Traded(Holding(q1, p1, last), "SELL", q2, p2) == (Holding(q1 - q2, if q2 == q1 then 0.0 else p1, Some(p2)), (p2 - p1) * q2)
  {
    var t := Traded(Holding(q1, p1, last), "SELL", q2, p2);
    SellAgainstLong(Holding(q1, p1, last), q2, p2);
    assert t.1 == (p2 - p1) * q2;
    assert t.0.shares == q1 - q2;
    assert t.0.avgCost == if q2 == q1 then 0.0 else p1;
  }

  /**
   * A SELL of q2 <= q1 against a lone long of q1 at p1 leaves `left` = q1 - q2
   * shares at `cost` (p1, or zero when flat) and books `gain` = (p2 - p1) * q2
   * on its day, when that is not zero.
   */
  lemma SellFromLong(sell: TradeRow, day: string, symbol: string, q1: real, p1: real, last: Option<real>, q2: real, p2: real,
                     left: real, cost: real, gain: real)
    requires AcceptedAs(sell, day, symbol, "SELL", q2, p2) && q2 <= q1
    requires left == q1 - q2 && cost == (if q2 == q1 then 0.0 else p1) && gain == (p2 - p1) * q2 && gain != 0.0
    ensures Step(Book(map[symbol := Holding(q1, p1, last)], map[]), sell)
      == Book(map[symbol := Holding(left, cost, Some(p2))], map[day := gain])
  {
    var held, after := Holding(q1, p1, last), Holding(left, cost, Some(p2));
    var b, target := Book(map[symbol := held], map[]), Book(map[symbol := after], map[day := gain]);
    assert q2 > 0.0;
    SellDown(q1, p1, last, q2, p2);
    assert HoldingOf(b.positions, symbol) == held && BookedOn(b.realized, day) == 0.0;
    assert b.positions[symbol := after] == target.positions;
    StepOnto(b, sell, Accepted(day, symbol, "SELL", q2, p2), after, gain, target);
  }

  /**
   * The figures of a SELL of q2 <= q1 at p2 against a long of q1 at p1:
   * `left` shares stay at `cost` and `gain` is booked, when not zero.
   */
  predicate SaleFigures(q1: real, p1: real, q2: real, p2: real, left: real, cost: real, gain: real)
  {
    q2 <= q1 && left == q1 - q2 && cost == (if q2 == q1 then 0.0 else p1) && gain == (p2 - p1) * q2 && gain != 0.0
  }

  /**
   * BUY q1 at p1, then a later SELL of q2 <= q1 at p2, from an empty book:
   * nothing is booked for the buy, `gain` = (p2 - p1) * q2 is booked on the
   * sale's day, and `left` = q1 - q2 shares stay at `cost` = p1 (none, at
   * zero cost, when q2 == q1).
   */
  lemma BuyThenSell(buy: TradeRow, sell: TradeRow, d1: string, d2: string, symbol: string, q1: real, p1: real, q2: real, p2: real,
                    left: real, cost: real, gain: real)
    requires AcceptedAs(buy, d1, symbol, "BUY", q1, p1) && AcceptedAs(sell, d2, symbol, "SELL", q2, p2)
    requires Orderable([buy, sell]) && KeyLe(buy, sell) && SaleFigures(q1, p1, q2, p2, left, cost, gain)
    ensures ApplySpec(Book(map[], map[]), [buy, sell]) == Ok(Book(map[symbol := Holding(left, cost, Some(p2))], map[d2 := gain]))
  {
    var b1 := Book(map[symbol := Holding(q1, p1, Some(p1))], map[]);
    BuyIntoEmpty(buy, d1, symbol, q1, p1);
    SellFromLong(sell, d2, symbol, q1, p1, Some(p1), q2, p2, left, cost, gain);
    TwoSteps(buy, sell, b1, Book(map[symbol := Holding(left, cost, Some(p2))], map[d2 := gain]));
  }

  /** A row as the tests write it: a text date, no timestamp, an action, numeric qty and price. */
  function PlainRow(day: string, symbol: string, action: string, qty: real, price: real): TradeRow
  {
    TradeRow(TextStamp(day), NoStamp, Some(symbol), Some(action), None, Num(qty), Null, Num(price))
  }

  /** Such a row is accepted as written when its symbol and action are already clean upper case. */
  lemma PlainRowAccepted(day: string, symbol: string, action: string, qty: real, price: real)
    requires Upper(Strip(symbol)) == symbol && symbol != [] && Upper(Strip(action)) == action && action in {"BUY", "SELL"}
    requires qty > 0.0 && price > 0.0
    ensures AcceptedAs(PlainRow(day, symbol, action, qty, price), day, symbol, action, qty, price)
  {
  }

  /** Two such rows can be sorted, and are in order when their dates are. */
  lemma PlainRowsOrdered(a: TradeRow, b: TradeRow)
    requires a.date.TextStamp? && b.date.TextStamp? && a.datetime == NoStamp && b.datetime == NoStamp
    requires LexLessEq(a.date.text, b.date.text)
    ensures Orderable([a, b]) && KeyLe(a, b)
  {
  }

  /** A plain BUY row and a plain SELL row on a later day are both accepted and already in order. */
  lemma PlainPair(d1: string, d2: string, symbol: string, q1: real, p1: real, q2: real, p2: real)
    requires Upper(Strip(symbol)) == symbol && symbol != [] && Upper(Strip("BUY")) == "BUY" && Upper(Strip("SELL")) == "SELL"
    requires LexLessEq(d1, d2) && q1 > 0.0 && q2 > 0.0 && p1 > 0.0 && p2 > 0.0
    ensures AcceptedAs(PlainRow(d1, symbol, "BUY", q1, p1), d1, symbol, "BUY", q1, p1)
    ensures AcceptedAs(PlainRow(d2, symbol, "SELL", q2, p2), d2, symbol, "SELL", q2, p2)
    ensures Orderable([PlainRow(d1, symbol, "BUY", q1, p1), PlainRow(d2, symbol, "SELL", q2, p2)])
    ensures KeyLe(PlainRow(d1, symbol, "BUY", q1, p1), PlainRow(d2, symbol, "SELL", q2, p2))
  {
    PlainRowAccepted(d1, symbol, "BUY", q1, p1);
    PlainRowAccepted(d2, symbol, "SELL", q2, p2);
    PlainRowsOrdered(PlainRow(d1, symbol, "BUY", q1, p1), PlainRow(d2, symbol, "SELL", q2, p2));
  }

  /** The two sides the ledger acts on are clean upper case already. */
  lemma CleanSides()
    ensures Upper(Strip("BUY")) == "BUY" && Upper(Strip("SELL")) == "SELL"
  {
    CapitalsClean("BUY");
    CapitalsClean("SELL");
  }

  /** Two strings that differ only in their last character are ordered by it. */
  lemma LastCharOrder(p: string, a: char, b: char)
    requires a < b
    ensures LexLess(p + [a], p + [b])
  {
    LexLessAppend(p, p, [a], [b]);
  }

  /** The tests' dates are in order as text. */
  lemma TestDatesOrdered()
    ensures LexLess("2024-01-02", "2024-01-03") && LexLess("2024-02-01", "2024-02-02")
  {
    LastCharOrder("2024-01-0", '2', '3');
    assert "2024-01-0" + ['2'] == "2024-01-02" && "2024-01-0" + ['3'] == "2024-01-03";
    LastCharOrder("2024-02-0", '1', '2');
    assert "2024-02-0" + ['1'] == "2024-02-01" && "2024-02-0" + ['2'] == "2024-02-02";
  }

  /** The tests' symbols are clean upper case already. */
  lemma TestSymbolsClean()
    ensures Upper(Strip("AAPL")) == "AAPL" && Upper(Strip("XYZ")) == "XYZ"
  {
    CapitalsClean("AAPL");
    CapitalsClean("XYZ");
  }

  /** The arithmetic of the two tests, in the form `BuyThenSell` asks for it. */
  lemma TestNumbers()
    ensures SaleFigures(100.0, 1.0, 50.0, 1.2, 50.0, 1.0, 10.0)
    ensures SaleFigures(100.0, 1.0, 1.0, 0.99, 99.0, 1.0, -0.01)
  {
  }

  /**
   * Test 1: BUY 100 at 1.0, SELL 50 at 1.2 on a later day (the test uses
   * AAPL, 2024-01-02 and 2024-01-03): 10.0 realised on the sale's day, 50
   * shares left at 1.0.
   */
  lemma ExampleProfit(buy: TradeRow, sell: TradeRow, d1: string, d2: string, symbol: string)
    requires AcceptedAs(buy, d1, symbol, "BUY", 100.0, 1.0) && AcceptedAs(sell, d2, symbol, "SELL", 50.0, 1.2)
    requires Orderable([buy, sell]) && KeyLe(buy, sell)
    ensures ApplySpec(Book(map[], map[]), [buy, sell]) == Ok(Book(map[symbol := Holding(50.0, 1.0, Some(1.2))], map[d2 := 10.0]))
  {
    TestNumbers();
    BuyThenSell(buy, sell, d1, d2, symbol, 100.0, 1.0, 50.0, 1.2, 50.0, 1.0, 10.0);
  }

  /**
   * Test 2: BUY 100 at 1.0, SELL 1 at 0.99 on a later day (the test uses
   * XYZ, 2024-02-01 and 2024-02-02): a loss of 0.01 on the sale's day.
   */
  lemma ExampleLoss(buy: TradeRow, sell: TradeRow, d1: string, d2: string, symbol: string)
    requires AcceptedAs(buy, d1, symbol, "BUY", 100.0, 1.0) && AcceptedAs(sell, d2, symbol, "SELL", 1.0, 0.99)
    requires Orderable([buy, sell]) && KeyLe(buy, sell)
    ensures ApplySpec(Book(map[], map[]), [buy, sell]) == Ok(Book(map[symbol := Holding(99.0, 1.0, Some(0.99))], map[d2 := -0.01]))
  {
    TestNumbers();
    BuyThenSell(buy, sell, d1, d2, symbol, 100.0, 1.0, 1.0, 0.99, 99.0, 1.0, -0.01);
  }

  /**
   * The tests' rows meet the examples' requirements: each is accepted as
   * written, and the two are comparable and in order.
   */
  lemma TestRowsAccepted(d1: string, d2: string, symbol: string)
    requires LexLessEq(d1, d2) && Upper(Strip(symbol)) == symbol && symbol != []
    ensures AcceptedAs(PlainRow(d1, symbol, "BUY", 100.0, 1.0), d1, symbol, "BUY", 100.0, 1.0)
    ensures AcceptedAs(PlainRow(d2, symbol, "SELL", 50.0, 1.2), d2, symbol, "SELL", 50.0, 1.2)
    ensures AcceptedAs(PlainRow(d2, symbol, "SELL", 1.0, 0.99), d2, symbol, "SELL", 1.0, 0.99)
    ensures Orderable([PlainRow(d1, symbol, "BUY", 100.0, 1.0), PlainRow(d2, symbol, "SELL", 50.0, 1.2)])
    ensures Orderable([PlainRow(d1, symbol, "BUY", 100.0, 1.0), PlainRow(d2, symbol, "SELL", 1.0, 0.99)])
    ensures KeyLe(PlainRow(d1, symbol, "BUY", 100.0, 1.0), PlainRow(d2, symbol, "SELL", 50.0, 1.2))
    ensures KeyLe(PlainRow(d1, symbol, "BUY", 100.0, 1.0), PlainRow(d2, symbol, "SELL", 1.0, 0.99))
  {
    CleanSides();
    PlainPair(d1, d2, symbol, 100.0, 1.0, 50.0, 1.2);
    PlainPair(d1, d2, symbol, 100.0, 1.0, 1.0, 0.99);
  }
}
