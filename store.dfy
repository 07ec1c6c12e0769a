/**
 * The tables of `app/core/models.py` that the import, calendar and summary
 * code reads and writes, as one in-memory database: `daily_summary` keyed
 * by its date string, `trades` in insertion order, and the `meta` key/value
 * table. A transaction is modelled by computing the new tables first and
 * assigning them at the commit.
 */
module Store {

  import opened Common

  /** A `daily_summary` row (the date is its key). */
  datatype DailySummary = DailySummary(realized: real, unrealized: real, totalInvested: real, updatedAt: string)

  /** The six columns a trade is deduplicated on (`uix_trade_dedup`). */
  datatype TradeFields = TradeFields(date: string, symbol: string, action: string, qty: real, price: real, amount: real)

  /** A `trades` row: its autoincrement id and its columns. */
  datatype Trade = Trade(id: int, fields: TradeFields)

  class Database {
    var summaries: map<string, DailySummary>
    var trades: seq<Trade>
    var meta: map<string, string>

    constructor (summaries: map<string, DailySummary>, trades: seq<Trade>, meta: map<string, string>)
      ensures this.summaries == summaries && this.trades == trades && this.meta == meta
    {
      this.summaries := summaries;
      this.trades := trades;
      this.meta := meta;
    }
  }

  /** The next autoincrement id: one past the largest in use. */
  function NextTradeId(trades: seq<Trade>): (id: int)
    ensures id >= 1
    ensures forall i :: 0 <= i < |trades| ==> trades[i].id < id
  {
    if trades == [] then 1
    else
      var rest := NextTradeId(trades[..|trades| - 1]);
      var last := trades[|trades| - 1].id;
      if last + 1 > rest then last + 1 else rest
  }

  /** Whether some stored trade has exactly these six columns. */
  predicate Stored(trades: seq<Trade>, f: TradeFields)
  {
    exists i :: 0 <= i < |trades| && trades[i].fields == f
  }
}
