/**
 * The lot-matching position engine: each symbol keeps open long and short
 * lots; a BUY first covers shorts and opens a long lot with what is left, a
 * SELL does the mirror image, lots are drawn down first-in-first-out or
 * last-in-first-out, and a trade's fee is split between the realised profit
 * and the basis of the newly opened lot.
 */
module TradeMatching {

  import opened Common
  import opened Text

  /** One open lot: a quantity bought (or sold short) at a price. */
  datatype Lot = Lot(qty: real, price: real)

  /** The consumption order of `_consume_lots`. */
  datatype Method = Fifo | Lifo

  /** Which list a closing trade draws down: a SELL closes longs, a BUY covers shorts. */
  datatype ClosingSide = SellClosesLong | BuyCoversShort

  /** `_validate_method`: only "lifo" (any case, surrounding blanks) selects LIFO. */
  function ValidateMethod(name: Option<string>): (m: Method)
    ensures name == None ==> m == Fifo
  {
    match name
    case None => Fifo
    case Some(s) => if Lower(Strip(s)) == "lifo" then Lifo else Fifo
  }

  function Qtys(lots: seq<Lot>): (r: seq<real>)
    ensures |r| == |lots| && forall i :: 0 <= i < |lots| ==> r[i] == lots[i].qty
  {
    seq(|lots|, i requires 0 <= i < |lots| => lots[i].qty)
  }

  /** What a lot cost to open. */
  function LotCost(l: Lot): real
  {
    l.qty * l.price
  }

  function Costs(lots: seq<Lot>): (r: seq<real>)
    ensures |r| == |lots| && forall i :: 0 <= i < |lots| ==> r[i] == LotCost(lots[i])
  {
    seq(|lots|, i requires 0 <= i < |lots| => LotCost(lots[i]))
  }

  /** `_total_quantity`: the open quantity of a list of lots. */
  function TotalQuantity(lots: seq<Lot>): real
  {
    SumReals(Qtys(lots))
  }

  /** The cost basis of a list of lots, Σ qty·price. */
  function CostSum(lots: seq<Lot>): real
  {
    SumReals(Costs(lots))
  }

  predicate AllPositive(lots: seq<Lot>)
  {
    forall i :: 0 <= i < |lots| ==> lots[i].qty > 0.0
  }

  function Remove(lots: seq<Lot>, i: nat): (r: seq<Lot>)
    requires i < |lots|
    ensures |r| == |lots| - 1
  {
    lots[..i] + lots[i + 1..]
  }

  /** The profit of closing `take` units of a lot bought (or shorted) at `lotPrice`. */
  function Gain(side: ClosingSide, price: real, lotPrice: real, take: real): real
  {
    match side
    case SellClosesLong => (price - lotPrice) * take
    case BuyCoversShort => (lotPrice - price) * take
  }

  /**
   * The profit of closing `consumed` units at `price` against lots whose
   * basis was `basis`: proceeds less basis for a SELL, basis less cost for a
   * BUY.
   */
  function ClosingGain(side: ClosingSide, price: real, consumed: real, basis: real): real
  {
    match side
    case SellClosesLong => price * consumed - basis
    case BuyCoversShort => basis - price * consumed
  }

  /** The index `_consume_lots` draws from: the oldest lot for FIFO, the newest for LIFO. */
  function PickIndex(lots: seq<Lot>, m: Method): (i: nat)
    requires lots != []
    ensures i < |lots|
    ensures m == Fifo ==> i == 0
    ensures m == Lifo ==> i == |lots| - 1
  {
    if m == Fifo then 0 else |lots| - 1
  }

  /** The outcome of drawing lots down: the lots left, the realised profit and the quantity consumed. */
  datatype Consumption = Consumption(lots: seq<Lot>, realized: real, consumed: real)

  /** One pass of the loop of `_consume_lots`: the list after drawing down its chosen lot. */
  function StepLots(lots: seq<Lot>, i: nat, take: real): seq<Lot>
    requires i < |lots|
  {
    var left := lots[i].qty - take;
    if left <= 0.0 then Remove(lots, i) else lots[i := Lot(left, lots[i].price)]
  }

  /**
   * `_consume_lots` as a value: while something remains and lots are open,
   * take min(remaining, lot qty) from the chosen lot, book its gain, and drop
   * the lot once it is empty.
   */
  function ConsumeLots(lots: seq<Lot>, remaining: real, price: real, m: Method, side: ClosingSide): Consumption
    decreases |lots|, if remaining > 0.0 then 1 else 0
  {
    if remaining <= 0.0 || lots == [] then Consumption(lots, 0.0, 0.0)
    else
      var i := PickIndex(lots, m);
      var take := Min(remaining, lots[i].qty);
      var rest := ConsumeLots(StepLots(lots, i, take), remaining - take, price, m, side);
      Consumption(rest.lots, Gain(side, price, lots[i].price, take) + rest.realized, take + rest.consumed)
  }

  // ----- lemmas about lots ----------------------------------------------

  lemma TotalAppend(lots: seq<Lot>, l: Lot)
    ensures TotalQuantity(lots + [l]) == TotalQuantity(lots) + l.qty
    ensures CostSum(lots + [l]) == CostSum(lots) + LotCost(l)
  {
    assert Qtys(lots + [l]) == Qtys(lots) + [l.qty];
    assert Costs(lots + [l]) == Costs(lots) + [LotCost(l)];
    SumRealsAppend(Qtys(lots), l.qty);
    SumRealsAppend(Costs(lots), LotCost(l));
  }

  lemma TotalRemove(lots: seq<Lot>, i: nat)
    requires i < |lots|
    ensures TotalQuantity(Remove(lots, i)) == TotalQuantity(lots) - lots[i].qty
    ensures CostSum(Remove(lots, i)) == CostSum(lots) - LotCost(lots[i])
  {
    var q := Qtys(lots);
    var c := Costs(lots);
    assert Qtys(Remove(lots, i)) == q[..i] + q[i + 1..];
    assert Costs(Remove(lots, i)) == c[..i] + c[i + 1..];
    SumRealsRemove(q, i);
    SumRealsRemove(c, i);
  }

  lemma TotalUpdate(lots: seq<Lot>, i: nat, l: Lot)
    requires i < |lots|
    ensures TotalQuantity(lots[i := l]) == TotalQuantity(lots) - lots[i].qty + l.qty
    ensures CostSum(lots[i := l]) == CostSum(lots) - LotCost(lots[i]) + LotCost(l)
  {
    assert Qtys(lots[i := l]) == Qtys(lots)[i := l.qty];
    assert Costs(lots[i := l]) == Costs(lots)[i := LotCost(l)];
    SumRealsUpdate(Qtys(lots), i, l.qty);
    SumRealsUpdate(Costs(lots), i, LotCost(l));
  }

  /** Open quantity is positive exactly when some lot is open. */
  lemma {:induction false} TotalPositive(lots: seq<Lot>)
    requires AllPositive(lots)
    ensures TotalQuantity(lots) >= 0.0
    ensures TotalQuantity(lots) == 0.0 <==> lots == []
  {
    if lots != [] {
      var init := lots[..|lots| - 1];
      assert lots == init + [lots[|lots| - 1]];
      TotalAppend(init, lots[|lots| - 1]);
      TotalPositive(init);
    }
  }

  lemma LessTake(q: real, t: real, p: real)
    ensures LotCost(Lot(q - t, p)) == LotCost(Lot(q, p)) - LotCost(Lot(t, p))
  {
    assert (q - t) * p == q * p - t * p;
  }

  /** One step of the loop: the open quantity drops by `take` and the basis by the cost of `take` units of the lot. */
  lemma StepFacts(lots: seq<Lot>, i: nat, take: real)
    requires i < |lots| && take <= lots[i].qty
    ensures TotalQuantity(StepLots(lots, i, take)) == TotalQuantity(lots) - take
    ensures CostSum(StepLots(lots, i, take)) == CostSum(lots) - LotCost(Lot(take, lots[i].price))
  {
    var q, p := lots[i].qty, lots[i].price;
    if q - take <= 0.0 {
      assert Lot(take, p) == lots[i];
      TotalRemove(lots, i);
    } else {
      TotalUpdate(lots, i, Lot(q - take, p));
      assert lots[i] == Lot(q, p);
      LessTake(q, take, p);
    }
  }

  lemma GainLinear(side: ClosingSide, price: real, lotPrice: real, take: real)
    ensures Gain(side, price, lotPrice, take) == ClosingGain(side, price, take, LotCost(Lot(take, lotPrice)))
  {
  }

  /** Gains of successive closes add up: the arithmetic of one loop iteration. */
  lemma RealizedStep(side: ClosingSide, price: real, take: real, cost: real, consumed: real, total: real,
                     c0: real, c1: real, c2: real, gain: real, rest: real, realized: real)
    requires c1 == c0 - cost && total == take + consumed
    requires gain == ClosingGain(side, price, take, cost) && rest == ClosingGain(side, price, consumed, c1 - c2)
    requires realized == gain + rest
    ensures realized == ClosingGain(side, price, total, c0 - c2)
  {
    assert price * take + price * consumed == price * total;
  }

  lemma StepPositive(lots: seq<Lot>, i: nat, take: real)
    requires i < |lots| && AllPositive(lots)
    ensures AllPositive(StepLots(lots, i, take))
  {
    var next := StepLots(lots, i, take);
    if lots[i].qty - take <= 0.0 {
      forall j | 0 <= j < |next| ensures next[j].qty > 0.0 {
        if j < i { assert next[j] == lots[j]; } else { assert next[j] == lots[j + 1]; }
      }
    }
  }

  /** Every lot `_consume_lots` leaves behind is still open. */
  lemma {:induction false} ConsumePositive(lots: seq<Lot>, remaining: real, price: real, m: Method, side: ClosingSide)
    requires AllPositive(lots)
    ensures AllPositive(ConsumeLots(lots, remaining, price, m, side).lots)
    decreases |lots|, if remaining > 0.0 then 1 else 0
  {
    if remaining > 0.0 && lots != [] {
      var i := PickIndex(lots, m);
      var take := Min(remaining, lots[i].qty);
      StepPositive(lots, i, take);
      ConsumePositive(StepLots(lots, i, take), remaining - take, price, m, side);
    }
  }

  /**
   * Over open lots, `_consume_lots` consumes min(quantity, open quantity)
   * (nothing for a non-positive quantity) and the open quantity drops by
   * exactly that much.
   */
  lemma {:induction false} ConsumeAmount(lots: seq<Lot>, remaining: real, price: real, m: Method, side: ClosingSide)
    requires AllPositive(lots)
    ensures var c := ConsumeLots(lots, remaining, price, m, side);
      c.consumed == (if remaining <= 0.0 then 0.0 else Min(remaining, TotalQuantity(lots))) &&
      TotalQuantity(c.lots) == TotalQuantity(lots) - c.consumed
    decreases |lots|, if remaining > 0.0 then 1 else 0
  {
    if remaining > 0.0 && lots != [] {
      var i := PickIndex(lots, m);
      var take := Min(remaining, lots[i].qty);
      StepPositive(lots, i, take);
      ConsumeAmount(StepLots(lots, i, take), remaining - take, price, m, side);
      AmountCase(lots, remaining, price, m, side, i, take);
    } else {
      TotalPositive(lots);
    }
  }

  /** The inductive step of `ConsumeAmount`, given its claim for the lots after one draw-down. */
  lemma AmountCase(lots: seq<Lot>, remaining: real, price: real, m: Method, side: ClosingSide, i: nat, take: real)
    requires AllPositive(lots) && remaining > 0.0 && lots != []
    requires i == PickIndex(lots, m) && take == Min(remaining, lots[i].qty)
    requires var c := ConsumeLots(StepLots(lots, i, take), remaining - take, price, m, side);
      c.consumed == (if remaining - take <= 0.0 then 0.0 else Min(remaining - take, TotalQuantity(StepLots(lots, i, take)))) &&
      TotalQuantity(c.lots) == TotalQuantity(StepLots(lots, i, take)) - c.consumed
    ensures var c := ConsumeLots(lots, remaining, price, m, side);
      c.consumed == Min(remaining, TotalQuantity(lots)) &&
      TotalQuantity(c.lots) == TotalQuantity(lots) - c.consumed
  {
    var next := StepLots(lots, i, take);
    StepFacts(lots, i, take);
    StepPositive(lots, i, take);
    TotalPositive(next);
    ConsumeUnfold(lots, remaining, price, m, side, i, take);
    var rest := ConsumeLots(next, remaining - take, price, m, side);
    AmountStep(remaining, take, lots[i].qty, TotalQuantity(lots), TotalQuantity(next), rest.consumed, TotalQuantity(rest.lots));
  }

  /** The arithmetic of one step of `ConsumeAmount`, on plain numbers. */
  lemma AmountStep(remaining: real, take: real, q: real, total: real, totalNext: real, restConsumed: real, restLeft: real)
    requires remaining > 0.0 && q > 0.0 && take == Min(remaining, q)
    requires totalNext == total - take && totalNext >= 0.0
    requires restConsumed == (if remaining - take <= 0.0 then 0.0 else Min(remaining - take, totalNext))
    requires restLeft == totalNext - restConsumed
    ensures take + restConsumed == Min(remaining, total) && restLeft == total - (take + restConsumed)
  {
  }

  /** One unfolding of `ConsumeLots` when something remains and a lot is open. */
  lemma ConsumeUnfold(lots: seq<Lot>, remaining: real, price: real, m: Method, side: ClosingSide, i: nat, take: real)
    requires remaining > 0.0 && lots != []
    requires i == PickIndex(lots, m) && take == Min(remaining, lots[i].qty)
    ensures var rest := ConsumeLots(StepLots(lots, i, take), remaining - take, price, m, side);
      var c := ConsumeLots(lots, remaining, price, m, side);
      c.lots == rest.lots &&
      c.realized == Gain(side, price, lots[i].price, take) + rest.realized &&
      c.consumed == take + rest.consumed
  {
  }

  /**
   * The realised profit of `_consume_lots` is Σ (price − lot price)·take when
   * a SELL closes longs and Σ (lot price − price)·take when a BUY covers
   * shorts: the proceeds on the consumed quantity against the basis that left
   * the list.
   */
  lemma {:induction false} ConsumeRealized(lots: seq<Lot>, remaining: real, price: real, m: Method, side: ClosingSide)
    ensures GainBooked(ConsumeLots(lots, remaining, price, m, side), side, price, CostSum(lots))
    decreases |lots|, if remaining > 0.0 then 1 else 0
  {
    var c := ConsumeLots(lots, remaining, price, m, side);
    if remaining > 0.0 && lots != [] {
      var i := PickIndex(lots, m);
      var take := Min(remaining, lots[i].qty);
      var next := StepLots(lots, i, take);
      ConsumeRealized(next, remaining - take, price, m, side);
      CaseFacts(lots, remaining, price, m, side, i, take);
      GainAccumulates(side, price, CostSum(lots), CostSum(next), lots[i].price, take,
        ConsumeLots(next, remaining - take, price, m, side), c);
    } else {
      assert c == Consumption(lots, 0.0, 0.0);
      NothingGained(side, price, c.consumed, CostSum(lots) - CostSum(c.lots), c.realized);
    }
  }

  /** `c` books the profit `ClosingGain` of what it consumed from lots whose basis was `basis`. */
  predicate GainBooked(c: Consumption, side: ClosingSide, price: real, basis: real)
  {
    c.realized == ClosingGain(side, price, c.consumed, basis - CostSum(c.lots))
  }

  /** How one loop iteration's outcome `c` is built from the outcome `rest` of the iterations after it. */
  predicate StepRel(c: Consumption, rest: Consumption, side: ClosingSide, price: real, lotPrice: real, take: real, c0: real, c1: real)
  {
    c1 == c0 - LotCost(Lot(take, lotPrice)) &&
    c.lots == rest.lots && c.consumed == take + rest.consumed &&
    c.realized == Gain(side, price, lotPrice, take) + rest.realized
  }

  /** The inductive step of `ConsumeRealized`, on values. */
  lemma GainAccumulates(side: ClosingSide, price: real, c0: real, c1: real, lotPrice: real, take: real, rest: Consumption, c: Consumption)
    requires StepRel(c, rest, side, price, lotPrice, take, c0, c1)
    requires GainBooked(rest, side, price, c1)
    ensures GainBooked(c, side, price, c0)
  {
    GainLinear(side, price, lotPrice, take);
    RealizedStep(side, price, take, LotCost(Lot(take, lotPrice)), rest.consumed, c.consumed, c0, c1, CostSum(rest.lots),
      Gain(side, price, lotPrice, take), rest.realized, c.realized);
  }

  lemma CaseFacts(lots: seq<Lot>, remaining: real, price: real, m: Method, side: ClosingSide, i: nat, take: real)
    requires remaining > 0.0 && lots != []
    requires i == PickIndex(lots, m) && take == Min(remaining, lots[i].qty)
    ensures var next := StepLots(lots, i, take);
      StepRel(ConsumeLots(lots, remaining, price, m, side), ConsumeLots(next, remaining - take, price, m, side),
        side, price, lots[i].price, take, CostSum(lots), CostSum(next))
  {
    StepFacts(lots, i, take);
    ConsumeUnfold(lots, remaining, price, m, side, i, take);
  }

  lemma NothingGained(side: ClosingSide, price: real, consumed: real, basis: real, realized: real)
    requires consumed == 0.0 && basis == 0.0 && realized == 0.0
    ensures realized == ClosingGain(side, price, consumed, basis)
  {
    assert price * 0.0 == 0.0;
  }

  /** Closing everything that is open empties the list. */
  lemma ConsumeAll(lots: seq<Lot>, remaining: real, price: real, m: Method, side: ClosingSide)
    requires AllPositive(lots) && remaining >= TotalQuantity(lots)
    ensures ConsumeLots(lots, remaining, price, m, side).lots == []
  {
    ConsumeAmount(lots, remaining, price, m, side);
    ConsumePositive(lots, remaining, price, m, side);
    var c := ConsumeLots(lots, remaining, price, m, side);
    TotalPositive(lots);
    TotalPositive(c.lots);
  }

  /** Under FIFO, closing less than the first lot reduces that lot and leaves the others alone. */
  lemma FifoPartialClose(lots: seq<Lot>, remaining: real, price: real, side: ClosingSide)
    requires lots != [] && 0.0 < remaining < lots[0].qty
    ensures ConsumeLots(lots, remaining, price, Fifo, side)
      == Consumption([Lot(lots[0].qty - remaining, lots[0].price)] + lots[1..], Gain(side, price, lots[0].price, remaining), remaining)
  {
    var next := StepLots(lots, 0, remaining);
    assert next == [Lot(lots[0].qty - remaining, lots[0].price)] + lots[1..];
    assert ConsumeLots(next, 0.0, price, Fifo, side) == Consumption(next, 0.0, 0.0);
  }

  /** Under LIFO, closing less than the last lot reduces that lot and leaves the others alone. */
  lemma LifoPartialClose(lots: seq<Lot>, remaining: real, price: real, side: ClosingSide)
    requires lots != [] && 0.0 < remaining < lots[|lots| - 1].qty
    ensures var last := lots[|lots| - 1];
      ConsumeLots(lots, remaining, price, Lifo, side)
      == Consumption(lots[..|lots| - 1] + [Lot(last.qty - remaining, last.price)], Gain(side, price, last.price, remaining), remaining)
  {
    var k := |lots| - 1;
    var next := StepLots(lots, k, remaining);
    assert next == lots[..k] + [Lot(lots[k].qty - remaining, lots[k].price)];
    assert ConsumeLots(next, 0.0, price, Lifo, side) == Consumption(next, 0.0, 0.0);
  }

  /**
   * `left` is what FIFO can leave of `lots`: a suffix of it whose first lot
   * may have been drawn down.
   */
  predicate FifoShape(lots: seq<Lot>, left: seq<Lot>)
  {
    |left| <= |lots| &&
    (left != [] ==> left[1..] == lots[|lots| - |left| + 1..] && left[0].price == lots[|lots| - |left|].price)
  }

  /** `left` is what LIFO can leave of `lots`: a prefix whose last lot may have been drawn down. */
  predicate LifoShape(lots: seq<Lot>, left: seq<Lot>)
  {
    |left| <= |lots| &&
    (left != [] ==> left[..|left| - 1] == lots[..|left| - 1] && left[|left| - 1].price == lots[|left| - 1].price)
  }

  lemma FifoShapeStep(lots: seq<Lot>, next: seq<Lot>, left: seq<Lot>)
    requires lots != [] && FifoShape(next, left)
    requires next == lots[1..] || (|next| == |lots| && next[1..] == lots[1..] && next[0].price == lots[0].price && left == next)
    ensures FifoShape(lots, left)
  {
    if next == lots[1..] && left != [] {
      var d := |next| - |left|;
      assert next[d + 1..] == lots[d + 2..];
      assert next[d] == lots[d + 1];
    }
  }

  lemma LifoShapeStep(lots: seq<Lot>, next: seq<Lot>, left: seq<Lot>)
    requires lots != [] && LifoShape(next, left)
    requires next == lots[..|lots| - 1] || (|next| == |lots| && next[..|lots| - 1] == lots[..|lots| - 1] && next[|lots| - 1].price == lots[|lots| - 1].price && left == next)
    ensures LifoShape(lots, left)
  {
    if next == lots[..|lots| - 1] && left != [] {
      assert next[..|left| - 1] == lots[..|left| - 1];
      assert next[|left| - 1] == lots[|left| - 1];
    }
  }

  /** A step that does not empty its lot ends the loop. */
  lemma StepEndsLoop(lots: seq<Lot>, remaining: real, price: real, m: Method, side: ClosingSide, i: nat, take: real)
    requires i < |lots| && take == Min(remaining, lots[i].qty) && lots[i].qty - take > 0.0
    ensures ConsumeLots(StepLots(lots, i, take), remaining - take, price, m, side).lots == StepLots(lots, i, take)
  {
  }

  /** FIFO only ever touches the front of the list. */
  lemma {:induction false} FifoLeavesSuffix(lots: seq<Lot>, remaining: real, price: real, side: ClosingSide)
    ensures FifoShape(lots, ConsumeLots(lots, remaining, price, Fifo, side).lots)
    decreases |lots|, if remaining > 0.0 then 1 else 0
  {
    if remaining > 0.0 && lots != [] {
      var take := Min(remaining, lots[0].qty);
      var next := StepLots(lots, 0, take);
      ConsumeUnfold(lots, remaining, price, Fifo, side, 0, take);
      var left := ConsumeLots(next, remaining - take, price, Fifo, side).lots;
      FifoLeavesSuffix(next, remaining - take, price, side);
      if lots[0].qty - take > 0.0 {
        StepEndsLoop(lots, remaining, price, Fifo, side, 0, take);
        assert next[1..] == lots[1..];
      }
      FifoShapeStep(lots, next, left);
    }
  }

  /** LIFO only ever touches the back of the list. */
  lemma {:induction false} LifoLeavesPrefix(lots: seq<Lot>, remaining: real, price: real, side: ClosingSide)
    ensures LifoShape(lots, ConsumeLots(lots, remaining, price, Lifo, side).lots)
    decreases |lots|, if remaining > 0.0 then 1 else 0
  {
    if remaining > 0.0 && lots != [] {
      var k := |lots| - 1;
      var take := Min(remaining, lots[k].qty);
      var next := StepLots(lots, k, take);
      ConsumeUnfold(lots, remaining, price, Lifo, side, k, take);
      var left := ConsumeLots(next, remaining - take, price, Lifo, side).lots;
      LifoLeavesPrefix(next, remaining - take, price, side);
      if lots[k].qty - take > 0.0 {
        StepEndsLoop(lots, remaining, price, Lifo, side, k, take);
        assert next[..k] == lots[..k];
      } else {
        assert next == lots[..k];
      }
      LifoShapeStep(lots, next, left);
    }
  }

  /** Only "lifo", in any case and with surrounding blanks, selects LIFO. */
  lemma ValidateMethodLifo(s: string)
    ensures ValidateMethod(Some(s)) == Lifo <==> Lower(Strip(s)) == "lifo"
  {
  }

  // ----- positions ------------------------------------------------------

  /** A symbol's position: its open lots on both sides and the summary fields derived from them. */
  datatype PositionState = PositionState(longLots: seq<Lot>, shortLots: seq<Lot>, shares: real, avgCost: real, lastPrice: Option<real>)

  /** `create_position`: no lots, nothing held, no price seen. */
  function CreatePosition(): (s: PositionState)
    ensures s.longLots == [] && s.shortLots == [] && s.shares == 0.0 && s.avgCost == 0.0 && s.lastPrice == None
  {
    PositionState([], [], 0.0, 0.0, None)
  }

  /**
   * The average cost `_update_position_summary` reports: the quantity-weighted
   * mean price of the long lots when the position is net long, else of the
   * short lots when it is net short, else 0.
   */
  function AverageCost(longLots: seq<Lot>, shortLots: seq<Lot>): real
  {
    var totalLong := TotalQuantity(longLots);
    var totalShort := TotalQuantity(shortLots);
    var net := totalLong - totalShort;
    if totalLong > 0.0 && net >= 0.0 then CostSum(longLots) / totalLong
    else if totalShort > 0.0 && net <= 0.0 then CostSum(shortLots) / totalShort
    else 0.0
  }

  /** `_update_position_summary`: shares and average cost recomputed from the lots. */
  function Summarize(s: PositionState): (r: PositionState)
    ensures r.longLots == s.longLots && r.shortLots == s.shortLots && r.lastPrice == s.lastPrice
  {
    s.(shares := TotalQuantity(s.longLots) - TotalQuantity(s.shortLots), avgCost := AverageCost(s.longLots, s.shortLots))
  }

  /** `abs(float(fee or 0.0))`. */
  function FeeValue(fee: Option<real>): (f: real)
    ensures f >= 0.0
    ensures fee == None ==> f == 0.0
  {
    Abs(fee.GetOr(0.0))
  }

  /** The part of the fee charged to the closing part of a trade: its share consumed/qty. */
  function ClosedFee(fee: real, consumed: real, qty: real): real
  {
    if qty != 0.0 then fee * (consumed / qty) else 0.0
  }

  /** The price of a newly opened lot: the rest of the fee raises a long's basis and lowers a short's. */
  function OpenPrice(side: ClosingSide, price: real, openFee: real, remaining: real): real
    requires remaining > 0.0
  {
    if openFee == 0.0 then price
    else match side
      case BuyCoversShort => price + openFee / remaining
      case SellClosesLong => price - openFee / remaining
  }

  /** The lists a trade leaves: the list it closes, the list it opens into, and what it realised. */
  datatype SideOutcome = SideOutcome(closing: seq<Lot>, opening: seq<Lot>, realized: real)

  /**
   * One branch of `apply_trade`: close min(qty, open quantity) of the other
   * side, charge the closed share of the fee to the realised profit, and open
   * a lot for whatever quantity is left with the rest of the fee in its price.
   */
  function TradeSide(closing: seq<Lot>, opening: seq<Lot>, side: ClosingSide, qty: real, price: real, fee: real, m: Method): SideOutcome
  {
    Settle(ConsumeLots(closing, Min(qty, TotalQuantity(closing)), price, m, side), opening, side, qty, price, fee)
  }

  /** What a trade leaves once its closing part `c` is known: the fee split and the new lot. */
  function Settle(c: Consumption, opening: seq<Lot>, side: ClosingSide, qty: real, price: real, fee: real): SideOutcome
  {
    var closedFee := ClosedFee(fee, c.consumed, qty);
    var remaining := Max(qty - c.consumed, 0.0);
    var openFee := fee - closedFee;
    var grown := if remaining > 0.0 then opening + [Lot(remaining, OpenPrice(side, price, openFee, remaining))] else opening;
    SideOutcome(c.lots, grown, c.realized - closedFee)
  }

  /** `apply_trade` as a value: the new position and the realised profit. */
  function ApplySpec(s: PositionState, side: string, qty: real, price: real, fee: Option<real>, name: Option<string>): (r: (PositionState, real))
    ensures r.0.lastPrice == Some(price)
    ensures side != "BUY" && side != "SELL" ==> r.0.longLots == s.longLots && r.0.shortLots == s.shortLots && r.1 == 0.0
  {
    var m := ValidateMethod(name);
    var f := FeeValue(fee);
    if side == "BUY" then
      var o := TradeSide(s.shortLots, s.longLots, BuyCoversShort, qty, price, f, m);
      (Summarize(s.(longLots := o.opening, shortLots := o.closing, lastPrice := Some(price))), o.realized)
    else if side == "SELL" then
      var o := TradeSide(s.longLots, s.shortLots, SellClosesLong, qty, price, f, m);
      (Summarize(s.(longLots := o.closing, shortLots := o.opening, lastPrice := Some(price))), o.realized)
    else
      (Summarize(s.(lastPrice := Some(price))), 0.0)
  }

  /**
   * The invariant every trade keeps: all open lots have positive quantity,
   * longs and shorts are never held at once, and the summary fields agree
   * with the lots.
   */
  predicate WellFormed(s: PositionState)
  {
    AllPositive(s.longLots) && AllPositive(s.shortLots) && (s.longLots == [] || s.shortLots == []) &&
    s.shares == TotalQuantity(s.longLots) - TotalQuantity(s.shortLots) &&
    s.avgCost == AverageCost(s.longLots, s.shortLots)
  }

  /**
   * The loop invariant of `_consume_lots`: what has been realised and consumed
   * so far, plus what the rest of the loop will realise and consume from
   * `lots`, is the outcome `spec` of the whole call.
   */
  predicate ConsumedSoFar(spec: Consumption, lots: seq<Lot>, remaining: real, realized: real, consumed: real,
                          price: real, m: Method, side: ClosingSide)
  {
    var rest := ConsumeLots(lots, remaining, price, m, side);
    spec == Consumption(rest.lots, realized + rest.realized, consumed + rest.consumed)
  }

  lemma ConsumeLoopStep(spec: Consumption, lots: seq<Lot>, remaining: real, realized: real, consumed: real,
                        price: real, m: Method, side: ClosingSide, i: nat, take: real)
    requires remaining > 0.0 && lots != []
    requires i == PickIndex(lots, m) && take == Min(remaining, lots[i].qty)
    requires ConsumedSoFar(spec, lots, remaining, realized, consumed, price, m, side)
    ensures ConsumedSoFar(spec, StepLots(lots, i, take), remaining - take, realized + Gain(side, price, lots[i].price, take),
                          consumed + take, price, m, side)
  {
    ConsumeUnfold(lots, remaining, price, m, side, i, take);
  }

  /** The loop of `_consume_lots` on the list it draws down, returning the list as it leaves it. */
  method DrawLots(lots: seq<Lot>, quantity: real, price: real, m: Method, side: ClosingSide)
    returns (left: seq<Lot>, realized: real, consumed: real)
    ensures Consumption(left, realized, consumed) == ConsumeLots(lots, quantity, price, m, side)
  {
    ghost var spec := ConsumeLots(lots, quantity, price, m, side);
    left, realized, consumed := lots, 0.0, 0.0;
    var remaining := quantity;
    while remaining > 0.0 && left != []
      invariant ConsumedSoFar(spec, left, remaining, realized, consumed, price, m, side)
      decreases |left|, if remaining > 0.0 then 1 else 0
    {
      var index := if m == Fifo then 0 else |left| - 1;
      var lot := left[index];
      var take := Min(remaining, lot.qty);
      ConsumeLoopStep(spec, left, remaining, realized, consumed, price, m, side, index, take);
      realized := realized + Gain(side, price, lot.price, take);
      left := DrawDown(left, index, take);
      consumed := consumed + take;
      remaining := remaining - take;
    }
    ConsumeLoopDone(spec, left, remaining, realized, consumed, price, m, side);
  }

  lemma ConsumeLoopDone(spec: Consumption, lots: seq<Lot>, remaining: real, realized: real, consumed: real,
                        price: real, m: Method, side: ClosingSide)
    requires remaining <= 0.0 || lots == []
    requires ConsumedSoFar(spec, lots, remaining, realized, consumed, price, m, side)
    ensures spec == Consumption(lots, realized, consumed)
  {
  }

  /** One lot drawn down in place: reduce its quantity by `take` and drop it once nothing is left. */
  method DrawDown(lots: seq<Lot>, index: nat, take: real) returns (next: seq<Lot>)
    requires index < |lots|
    ensures next == StepLots(lots, index, take)
  {
    var lot := lots[index];
    next := lots[index := Lot(lot.qty - take, lot.price)];
    if next[index].qty <= 0.0 {
      next := next[..index] + next[index + 1..];
    }
  }

  // ----- properties of a trade -----------------------------------------

  /** A trade consumes min(qty, open quantity) of the list it closes, and empties it when it closes all of it. */
  lemma TradeConsumes(closing: seq<Lot>, qty: real, price: real, m: Method, side: ClosingSide)
    requires AllPositive(closing) && qty > 0.0
    ensures var c := ConsumeLots(closing, Min(qty, TotalQuantity(closing)), price, m, side);
      var k := Min(qty, TotalQuantity(closing));
      c.consumed == k && TotalQuantity(c.lots) == TotalQuantity(closing) - k && AllPositive(c.lots) &&
      (k == TotalQuantity(closing) ==> c.lots == [])
  {
    var c := ConsumeLots(closing, Min(qty, TotalQuantity(closing)), price, m, side);
    TotalPositive(closing);
    ConsumeAmount(closing, Min(qty, TotalQuantity(closing)), price, m, side);
    ConsumePositive(closing, Min(qty, TotalQuantity(closing)), price, m, side);
    TotalPositive(c.lots);
  }

  /**
   * BUY covers min(qty, Σ short) before opening a long lot for the rest, and
   * SELL mirrors it: the closed list drops by what was closed, the opened
   * list grows by the rest, and a list is opened into only once the other is
   * empty.
   */
  lemma TradeQuantities(closing: seq<Lot>, opening: seq<Lot>, side: ClosingSide, qty: real, price: real, fee: real, m: Method)
    requires AllPositive(closing) && AllPositive(opening) && qty > 0.0
    ensures var o := TradeSide(closing, opening, side, qty, price, fee, m);
      var k := Min(qty, TotalQuantity(closing));
      TotalQuantity(o.closing) == TotalQuantity(closing) - k &&
      TotalQuantity(o.opening) == TotalQuantity(opening) + (qty - k) &&
      AllPositive(o.closing) && AllPositive(o.opening) &&
      (qty <= TotalQuantity(closing) ==> o.opening == opening) &&
      (qty > TotalQuantity(closing) ==> o.closing == [])
  {
    var k := Min(qty, TotalQuantity(closing));
    var c := ConsumeLots(closing, k, price, m, side);
    TradeConsumes(closing, qty, price, m, side);
    var o := Settle(c, opening, side, qty, price, fee);
    if qty - k > 0.0 {
      var l := o.opening[|o.opening| - 1];
      assert o.opening == opening + [l];
      TotalAppend(opening, l);
    }
  }

  /**
   * The realised profit of a trade is what its closing part realised,
   * ClosingGain over the basis it took off the list, less the share
   * consumed/qty of the fee.
   */
  lemma TradeRealized(closing: seq<Lot>, opening: seq<Lot>, side: ClosingSide, qty: real, price: real, fee: real, m: Method)
    requires AllPositive(closing) && qty > 0.0
    ensures var o := TradeSide(closing, opening, side, qty, price, fee, m);
      var k := Min(qty, TotalQuantity(closing));
      o.realized == ClosingGain(side, price, k, CostSum(closing) - CostSum(o.closing)) - fee * (k / qty)
  {
    var k := Min(qty, TotalQuantity(closing));
    TradeConsumes(closing, qty, price, m, side);
    ConsumeRealized(closing, k, price, m, side);
  }

  /**
   * The fee is charged exactly once: its share consumed/qty reduces the
   * realised profit and the rest goes into the new lot's basis (raising a
   * long's, lowering a short's); a trade that opens nothing charges all of it
   * to the realised profit.
   */
  lemma FeeSplit(closing: seq<Lot>, opening: seq<Lot>, side: ClosingSide, qty: real, price: real, fee: real, m: Method)
    requires AllPositive(closing) && qty > 0.0
    ensures FeeCharged(TradeSide(closing, opening, side, qty, price, fee, m), ConsumeLots(closing, Min(qty, TotalQuantity(closing)), price, m, side),
                       opening, side, qty, price, fee, Min(qty, TotalQuantity(closing)))
  {
    var k := Min(qty, TotalQuantity(closing));
    TradeConsumes(closing, qty, price, m, side);
    SettleFee(ConsumeLots(closing, k, price, m, side), opening, side, qty, price, fee, k);
  }

  /**
   * `o` charges the fee as `apply_trade` does once its closing part `c` has
   * consumed `k` of `qty`.
   */
  predicate FeeCharged(o: SideOutcome, c: Consumption, opening: seq<Lot>, side: ClosingSide, qty: real, price: real, fee: real, k: real)
    requires qty > 0.0
  {
    o.realized == c.realized - fee * (k / qty) &&
    (k == qty ==> o.opening == opening && o.realized == c.realized - fee) &&
    (k < qty ==> CostSum(o.opening) == CostSum(opening) + OpenBasis(side, (qty - k) * price, fee - fee * (k / qty)))
  }

  lemma SettleFee(c: Consumption, opening: seq<Lot>, side: ClosingSide, qty: real, price: real, fee: real, k: real)
    requires qty > 0.0 && c.consumed == k && k <= qty
    ensures FeeCharged(Settle(c, opening, side, qty, price, fee), c, opening, side, qty, price, fee, k)
  {
    var o := Settle(c, opening, side, qty, price, fee);
    if k == qty {
      assert k / qty == 1.0;
    } else {
      var rem := qty - k;
      var openFee := fee - fee * (k / qty);
      var l := Lot(rem, OpenPrice(side, price, openFee, rem));
      assert o.opening == opening + [l];
      TotalAppend(opening, l);
      OpenLotBasis(side, price, openFee, rem);
    }
  }

  /** The basis of a new lot: its cost at the trade price, plus (long) or minus (short) the fee it carries. */
  function OpenBasis(side: ClosingSide, cost: real, openFee: real): real
  {
    match side
    case BuyCoversShort => cost + openFee
    case SellClosesLong => cost - openFee
  }

  lemma OpenLotBasis(side: ClosingSide, price: real, openFee: real, rem: real)
    requires rem > 0.0
    ensures LotCost(Lot(rem, OpenPrice(side, price, openFee, rem))) == OpenBasis(side, rem * price, openFee)
  {
    if openFee != 0.0 {
      assert rem * (openFee / rem) == openFee;
    }
  }

  /** A purely opening trade realises nothing and opens one lot for the whole quantity, fee in its price. */
  lemma OpeningRealizesNothing(opening: seq<Lot>, side: ClosingSide, qty: real, price: real, fee: real, m: Method)
    requires qty > 0.0
    ensures var o := TradeSide([], opening, side, qty, price, fee, m);
      o.realized == 0.0 && o.closing == [] && o.opening == opening + [Lot(qty, OpenPrice(side, price, fee, qty))]
  {
    TotalPositive([]);
    assert Min(qty, TotalQuantity([])) == 0.0;
  }

  /** A trade of no or negative quantity closes and opens nothing and realises nothing. */
  lemma NonPositiveQuantity(closing: seq<Lot>, opening: seq<Lot>, side: ClosingSide, qty: real, price: real, fee: real, m: Method)
    requires AllPositive(closing) && qty <= 0.0
    ensures TradeSide(closing, opening, side, qty, price, fee, m) == SideOutcome(closing, opening, 0.0)
  {
    TotalPositive(closing);
  }

  /** Flat, only long, or only short: the average cost is the mean price of whatever is held. */
  lemma AverageCostOfHeld(s: PositionState)
    requires WellFormed(s)
    ensures s.longLots != [] ==> s.avgCost * TotalQuantity(s.longLots) == CostSum(s.longLots) && s.shares == TotalQuantity(s.longLots)
    ensures s.shortLots != [] ==> s.avgCost * TotalQuantity(s.shortLots) == CostSum(s.shortLots) && s.shares == -TotalQuantity(s.shortLots)
    ensures s.longLots == [] && s.shortLots == [] ==> s.avgCost == 0.0 && s.shares == 0.0
  {
    TotalPositive(s.longLots);
    TotalPositive(s.shortLots);
  }

  /** A new position is well formed. */
  lemma CreatePositionWellFormed()
    ensures WellFormed(CreatePosition())
  {
    TotalPositive([]);
  }

  /** Summarising lots that satisfy the lot part of the invariant gives a well-formed position. */
  lemma SummarizeWellFormed(s: PositionState)
    requires AllPositive(s.longLots) && AllPositive(s.shortLots) && (s.longLots == [] || s.shortLots == [])
    ensures WellFormed(Summarize(s))
  {
  }

  lemma TradeKeepsOneSide(closing: seq<Lot>, opening: seq<Lot>, side: ClosingSide, qty: real, price: real, fee: real, m: Method)
    requires AllPositive(closing) && AllPositive(opening) && (closing == [] || opening == [])
    ensures var o := TradeSide(closing, opening, side, qty, price, fee, m);
      AllPositive(o.closing) && AllPositive(o.opening) && (o.closing == [] || o.opening == [])
  {
    if qty > 0.0 {
      TradeQuantities(closing, opening, side, qty, price, fee, m);
    } else {
      NonPositiveQuantity(closing, opening, side, qty, price, fee, m);
    }
  }

  /** Every trade keeps the position well formed: in particular longs and shorts are never held at once. */
  lemma ApplyWellFormed(s: PositionState, side: string, qty: real, price: real, fee: Option<real>, name: Option<string>)
    requires WellFormed(s)
    ensures WellFormed(ApplySpec(s, side, qty, price, fee, name).0)
  {
    var m := ValidateMethod(name);
    var f := FeeValue(fee);
    if side == "BUY" {
      TradeKeepsOneSide(s.shortLots, s.longLots, BuyCoversShort, qty, price, f, m);
    } else if side == "SELL" {
      TradeKeepsOneSide(s.longLots, s.shortLots, SellClosesLong, qty, price, f, m);
    }
  }

  /** A BUY of qty > 0 raises the net shares by qty and a SELL lowers them by qty. */
  lemma ApplyShares(s: PositionState, side: string, qty: real, price: real, fee: Option<real>, name: Option<string>)
    requires WellFormed(s) && qty > 0.0
    ensures side == "BUY" ==> ApplySpec(s, side, qty, price, fee, name).0.shares == s.shares + qty
    ensures side == "SELL" ==> ApplySpec(s, side, qty, price, fee, name).0.shares == s.shares - qty
    ensures side != "BUY" && side != "SELL" ==> ApplySpec(s, side, qty, price, fee, name).0.shares == s.shares
  {
    var m := ValidateMethod(name);
    var f := FeeValue(fee);
    if side == "BUY" {
      TradeQuantities(s.shortLots, s.longLots, BuyCoversShort, qty, price, f, m);
    } else if side == "SELL" {
      TradeQuantities(s.longLots, s.shortLots, SellClosesLong, qty, price, f, m);
    }
  }

  lemma SingleLot(l: Lot)
    ensures TotalQuantity([l]) == l.qty && CostSum([l]) == LotCost(l)
  {
    TotalAppend([], l);
    assert [] + [l] == [l];
  }

  /** Opening `qty` at `price` without a fee from a flat position. */
  lemma ExampleOpen(side: ClosingSide, qty: real, price: real)
    requires qty > 0.0
    ensures TradeSide([], [], side, qty, price, 0.0, Fifo) == SideOutcome([], [Lot(qty, price)], 0.0)
  {
    OpeningRealizesNothing([], side, qty, price, 0.0, Fifo);
  }

  /** Closing part of a single lot without a fee. */
  lemma ExamplePartialClose(side: ClosingSide, l: Lot, qty: real, price: real)
    requires 0.0 < qty < l.qty
    ensures TradeSide([l], [], side, qty, price, 0.0, Fifo) == SideOutcome([Lot(l.qty - qty, l.price)], [], Gain(side, price, l.price, qty))
  {
    SingleLot(l);
    FifoPartialClose([l], qty, price, side);
    assert [Lot(l.qty - qty, l.price)] + [l][1..] == [Lot(l.qty - qty, l.price)];
  }

  /** The summary of a single open lot: its quantity (negative when short) at its price. */
  lemma SummarizeOne(l: Lot, sh: real, avg: real, last: Option<real>)
    requires l.qty > 0.0
    ensures Summarize(PositionState([l], [], sh, avg, last)) == PositionState([l], [], l.qty, l.price, last)
    ensures Summarize(PositionState([], [l], sh, avg, last)) == PositionState([], [l], -l.qty, l.price, last)
  {
    SingleLot(l);
    TotalPositive([]);
    assert l.qty * l.price / l.qty == l.price;
  }

  /** A trade without fee or method name: FIFO, no fee. */
  lemma PlainTrade(s: PositionState, side: string, qty: real, price: real)
    ensures side == "BUY" ==> var o := TradeSide(s.shortLots, s.longLots, BuyCoversShort, qty, price, 0.0, Fifo);
      ApplySpec(s, side, qty, price, None, None) == (Summarize(s.(longLots := o.opening, shortLots := o.closing, lastPrice := Some(price))), o.realized)
    ensures side == "SELL" ==> var o := TradeSide(s.longLots, s.shortLots, SellClosesLong, qty, price, 0.0, Fifo);
      ApplySpec(s, side, qty, price, None, None) == (Summarize(s.(longLots := o.closing, shortLots := o.opening, lastPrice := Some(price))), o.realized)
  {
  }

  /** From flat, a BUY or SELL without a fee opens one lot of its quantity at its price and realises nothing. */
  lemma OpenFromFlat(side: string, qty: real, price: real)
    requires qty > 0.0 && (side == "BUY" || side == "SELL")
    ensures ApplySpec(CreatePosition(), side, qty, price, None, None) ==
      if side == "BUY" then (PositionState([Lot(qty, price)], [], qty, price, Some(price)), 0.0)
      else (PositionState([], [Lot(qty, price)], -qty, price, Some(price)), 0.0)
  {
    PlainTrade(CreatePosition(), side, qty, price);
    SummarizeOne(Lot(qty, price), 0.0, 0.0, Some(price));
    if side == "BUY" {
      ExampleOpen(BuyCoversShort, qty, price);
    } else {
      ExampleOpen(SellClosesLong, qty, price);
    }
  }

  /** Closing all of a single lot without a fee empties the list and books the whole gain. */
  lemma ExampleFullClose(side: ClosingSide, l: Lot, price: real)
    requires l.qty > 0.0
    ensures TradeSide([l], [], side, l.qty, price, 0.0, Fifo) == SideOutcome([], [], Gain(side, price, l.price, l.qty))
  {
    SingleLot(l);
    assert StepLots([l], 0, l.qty) == [];
    assert ConsumeLots([], 0.0, price, Fifo, side) == Consumption([], 0.0, 0.0);
    assert ConsumeLots([l], l.qty, price, Fifo, side) == Consumption([], Gain(side, price, l.price, l.qty), l.qty);
  }

  /** A SELL, without a fee, of part of a single long lot: the rest stays at the lot's price. */
  lemma PartialSell(l: Lot, sh: real, avg: real, last: Option<real>, qty: real, price: real)
    requires 0.0 < qty < l.qty
    ensures ApplySpec(PositionState([l], [], sh, avg, last), "SELL", qty, price, None, None)
      == (PositionState([Lot(l.qty - qty, l.price)], [], l.qty - qty, l.price, Some(price)), (price - l.price) * qty)
  {
    ExamplePartialClose(SellClosesLong, l, qty, price);
    PlainTrade(PositionState([l], [], sh, avg, last), "SELL", qty, price);
    SummarizeOne(Lot(l.qty - qty, l.price), sh, avg, Some(price));
    var o := TradeSide([l], [], SellClosesLong, qty, price, 0.0, Fifo);
    assert o.realized == (price - l.price) * qty;
    var st := PositionState([l], [], sh, avg, last).(longLots := o.closing, shortLots := o.opening, lastPrice := Some(price));
    assert st == PositionState([Lot(l.qty - qty, l.price)], [], sh, avg, Some(price));
  }

  /** A BUY, without a fee, covering part of a single short lot: the rest stays short at the lot's price. */
  lemma PartialCover(l: Lot, sh: real, avg: real, last: Option<real>, qty: real, price: real)
    requires 0.0 < qty < l.qty
    ensures ApplySpec(PositionState([], [l], sh, avg, last), "BUY", qty, price, None, None)
      == (PositionState([], [Lot(l.qty - qty, l.price)], -(l.qty - qty), l.price, Some(price)), (l.price - price) * qty)
  {
    ExamplePartialClose(BuyCoversShort, l, qty, price);
    PlainTrade(PositionState([], [l], sh, avg, last), "BUY", qty, price);
    SummarizeOne(Lot(l.qty - qty, l.price), sh, avg, Some(price));
    var o := TradeSide([l], [], BuyCoversShort, qty, price, 0.0, Fifo);
    assert o.realized == (l.price - price) * qty;
    var st := PositionState([], [l], sh, avg, last).(longLots := o.opening, shortLots := o.closing, lastPrice := Some(price));
    assert st == PositionState([], [Lot(l.qty - qty, l.price)], sh, avg, Some(price));
  }

  /** A SELL, without a fee, of all of a single long lot: flat, with the whole gain booked. */
  lemma FullSell(l: Lot, sh: real, avg: real, last: Option<real>, price: real)
    requires l.qty > 0.0
    ensures ApplySpec(PositionState([l], [], sh, avg, last), "SELL", l.qty, price, None, None)
      == (PositionState([], [], 0.0, 0.0, Some(price)), (price - l.price) * l.qty)
  {
    ExampleFullClose(SellClosesLong, l, price);
    PlainTrade(PositionState([l], [], sh, avg, last), "SELL", l.qty, price);
    TotalPositive([]);
    var o := TradeSide([l], [], SellClosesLong, l.qty, price, 0.0, Fifo);
    assert o.realized == (price - l.price) * l.qty;
    var st := PositionState([l], [], sh, avg, last).(longLots := o.closing, shortLots := o.opening, lastPrice := Some(price));
    assert st == PositionState([], [], sh, avg, Some(price));
  }

  /** BUY 10 at 100, then SELL 10 at 110: flat again with 100 realised. */
  lemma ExampleRoundTrip()
    ensures ApplySpec(PositionState([Lot(10.0, 100.0)], [], 10.0, 100.0, Some(100.0)), "SELL", 10.0, 110.0, None, None)
      == (PositionState([], [], 0.0, 0.0, Some(110.0)), 100.0)
  {
    FullSell(Lot(10.0, 100.0), 10.0, 100.0, Some(100.0), 110.0);
    assert (110.0 - 100.0) * 10.0 == 100.0;
  }

  /** Then SELL 5 at 155: 25 realised, 5 shares left at 150. */
  lemma ExampleSell()
    ensures ApplySpec(PositionState([Lot(10.0, 150.0)], [], 10.0, 150.0, Some(150.0)), "SELL", 5.0, 155.0, None, None)
      == (PositionState([Lot(5.0, 150.0)], [], 5.0, 150.0, Some(155.0)), 25.0)
  {
    PartialSell(Lot(10.0, 150.0), 10.0, 150.0, Some(150.0), 5.0, 155.0);
    assert 10.0 - 5.0 == 5.0 && (155.0 - 150.0) * 5.0 == 25.0;
  }

  /** Then BUY 4 at 180 to cover: 80 realised, 6 still short at 200. */
  lemma ExampleCover()
    ensures ApplySpec(PositionState([], [Lot(10.0, 200.0)], -10.0, 200.0, Some(200.0)), "BUY", 4.0, 180.0, None, None)
      == (PositionState([], [Lot(6.0, 200.0)], -6.0, 200.0, Some(180.0)), 80.0)
  {
    PartialCover(Lot(10.0, 200.0), -10.0, 200.0, Some(200.0), 4.0, 180.0);
    assert 10.0 - 4.0 == 6.0 && (200.0 - 180.0) * 4.0 == 80.0;
  }

  /** Two long lots closed by one SELL: FIFO books against the older price, LIFO against the newer. */
  lemma ExampleFifoLifo()
    ensures ConsumeLots([Lot(1.0, 10.0), Lot(1.0, 20.0)], 1.0, 30.0, Fifo, SellClosesLong) == Consumption([Lot(1.0, 20.0)], 20.0, 1.0)
    ensures ConsumeLots([Lot(1.0, 10.0), Lot(1.0, 20.0)], 1.0, 30.0, Lifo, SellClosesLong) == Consumption([Lot(1.0, 10.0)], 10.0, 1.0)
  {
    var lots := [Lot(1.0, 10.0), Lot(1.0, 20.0)];
    assert StepLots(lots, 0, 1.0) == [Lot(1.0, 20.0)];
    assert StepLots(lots, 1, 1.0) == [Lot(1.0, 10.0)];
  }

  /** `apply_trade` sees the fee and the method name only through their validated values. */
  lemma ApplyDependsOnValidated(s: PositionState, side: string, qty: real, price: real,
                                fee1: Option<real>, name1: Option<string>, fee2: Option<real>, name2: Option<string>)
    requires FeeValue(fee1) == FeeValue(fee2) && ValidateMethod(name1) == ValidateMethod(name2)
    ensures ApplySpec(s, side, qty, price, fee1, name1) == ApplySpec(s, side, qty, price, fee2, name2)
  {
  }

  /** A zero fee and the name "fifo" act as the defaults (no fee, no method). */
  lemma ApplyDefaults(s: PositionState, side: string, qty: real, price: real)
    ensures ApplySpec(s, side, qty, price, Some(0.0), Some("fifo")) == ApplySpec(s, side, qty, price, None, None)
  {
    assert Strip("fifo") == "fifo" by {
      StripNoop("fifo");
    }
    assert Lower("fifo") != "lifo";
    ApplyDependsOnValidated(s, side, qty, price, Some(0.0), Some("fifo"), None, None);
  }

  // ----- the position object --------------------------------------------

  /** The two lot lists of a position. */
  datatype Book = LongBook | ShortBook

  /** The list a closing trade draws down. */
  function Closes(side: ClosingSide): Book
  {
    match side
    case SellClosesLong => LongBook
    case BuyCoversShort => ShortBook
  }

  function Other(b: Book): Book
  {
    match b
    case LongBook => ShortBook
    case ShortBook => LongBook
  }

  /** The list a trade opens into: a BUY opens longs, a SELL opens shorts. */
  function Opens(side: ClosingSide): Book
  {
    match side
    case SellClosesLong => ShortBook
    case BuyCoversShort => LongBook
  }

  /** A position updated in place by trades, as `apply_trade` updates its dictionary. */
  class Position {
    var longLots: seq<Lot>
    var shortLots: seq<Lot>
    var shares: real
    var avgCost: real
    var lastPrice: Option<real>

    function State(): PositionState
      reads this
    {
      PositionState(longLots, shortLots, shares, avgCost, lastPrice)
    }

    function Lots(b: Book): seq<Lot>
      reads this
    {
      match b
      case LongBook => longLots
      case ShortBook => shortLots
    }

    /** `create_position`. */
    constructor()
      ensures State() == CreatePosition()
    {
      longLots, shortLots := [], [];
      shares, avgCost := 0.0, 0.0;
      lastPrice := None;
    }

    /** `_append_lot`. */
    method AppendLot(b: Book, quantity: real, price: real)
      modifies this
      ensures Lots(b) == old(Lots(b)) + [Lot(quantity, price)]
      ensures Lots(Other(b)) == old(Lots(Other(b)))
      ensures shares == old(shares) && avgCost == old(avgCost) && lastPrice == old(lastPrice)
    {
      if b == LongBook {
        longLots := longLots + [Lot(quantity, price)];
      } else {
        shortLots := shortLots + [Lot(quantity, price)];
      }
    }

    /**
     * `_consume_lots` on the list `side` closes: draw lots down in the order of
     * `m` until `quantity` is consumed or no lot is left.
     */
    method Consume(side: ClosingSide, quantity: real, price: real, m: Method) returns (realized: real, consumed: real)
      modifies this
      ensures var c := ConsumeLots(old(Lots(Closes(side))), quantity, price, m, side);
        realized == c.realized && consumed == c.consumed && Lots(Closes(side)) == c.lots
      ensures Lots(Opens(side)) == old(Lots(Opens(side)))
      ensures shares == old(shares) && avgCost == old(avgCost) && lastPrice == old(lastPrice)
    {
      var lots;
      lots, realized, consumed := DrawLots(Lots(Closes(side)), quantity, price, m, side);
      if side == SellClosesLong {
        longLots := lots;
      } else {
        shortLots := lots;
      }
    }

    /** `_update_position_summary`. */
    method UpdateSummary()
      modifies this
      ensures State() == Summarize(old(State()))
    {
      var totalLong := TotalQuantity(longLots);
      var totalShort := TotalQuantity(shortLots);
      var net := totalLong - totalShort;
      shares := net;
      var avg := 0.0;
      if totalLong > 0.0 && net >= 0.0 {
        avg := CostSum(longLots) / totalLong;
      } else if totalShort > 0.0 && net <= 0.0 {
        avg := CostSum(shortLots) / totalShort;
      }
      avgCost := avg;
    }

    /**
     * One branch of `apply_trade`: close against the list `side` draws down,
     * split the fee, and open a lot with what is left on the other list.
     */
    method TradeOn(side: ClosingSide, qty: real, price: real, feeValue: real, m: Method) returns (realized: real)
      modifies this
      ensures var o := TradeSide(old(Lots(Closes(side))), old(Lots(Opens(side))), side, qty, price, feeValue, m);
        realized == o.realized && Lots(Closes(side)) == o.closing && Lots(Opens(side)) == o.opening
      ensures shares == old(shares) && avgCost == old(avgCost) && lastPrice == old(lastPrice)
    {
      ghost var opening := Lots(Opens(side));
      var totalClosing := TotalQuantity(Lots(Closes(side)));
      ghost var c := ConsumeLots(Lots(Closes(side)), Min(qty, totalClosing), price, m, side);
      var closedRealized, consumed := Consume(side, Min(qty, totalClosing), price, m);
      assert Lots(Opens(side)) == opening && c == Consumption(Lots(Closes(side)), closedRealized, consumed);
      realized := closedRealized;
      var closedFee := ClosedFee(feeValue, consumed, qty);
      realized := realized - closedFee;
      var remaining := Max(qty - consumed, 0.0);
      var openFee := feeValue - closedFee;
      if remaining > 0.0 {
        var effectivePrice := price;
        if openFee != 0.0 {
          effectivePrice := OpenPrice(side, price, openFee, remaining);
        }
        AppendLot(Opens(side), remaining, effectivePrice);
      }
    }

    /** `apply_trade`: update the position in place and return the realised profit. */
    method ApplyTrade(side: string, qty: real, price: real, fee: Option<real>, name: Option<string>) returns (realized: real)
      modifies this
      ensures (State(), realized) == ApplySpec(old(State()), side, qty, price, fee, name)
    {
      var m := ValidateMethod(name);
      var feeValue := FeeValue(fee);
      realized := 0.0;
      if side == "BUY" {
        realized := TradeOn(BuyCoversShort, qty, price, feeValue, m);
      } else if side == "SELL" {
        realized := TradeOn(SellClosesLong, qty, price, feeValue, m);
      }
      lastPrice := Some(price);
      UpdateSummary();
    }
  }
}
