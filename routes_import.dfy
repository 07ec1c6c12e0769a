/**
 * The persistence side of `app/api/routes_import.py`: inserting imported
 * trades without duplicates, reconciling recomputed daily figures with the
 * stored daily summaries (overwrite when close, report a conflict when
 * not), the daily-summary CSV upsert, and the form that settles conflicts.
 */
module RoutesImport {

  import opened Common
  import opened Numbers
  import opened Store
  import Text
  import Dates
  import LongOnlyPnl
  import ImportThinkorswim

  /** `_is_close(a, b, tol)`. */
  predicate IsClose(a: real, b: real, tol: real)
  {
    Abs(a - b) <= tol
  }

  const DefaultTolerance: real := 0.01

  /** Closeness is symmetric, and a value is close to itself for any tolerance that is not negative. */
  lemma IsCloseFacts(a: real, b: real, tol: real)
    ensures IsClose(a, b, tol) <==> a - tol <= b <= a + tol
    ensures IsClose(a, b, tol) <==> IsClose(b, a, tol)
    ensures tol >= 0.0 ==> IsClose(a, a, tol)
  {
  }

  // ----- _persist_trade_rows --------------------------------------------

  /** Why a request raises instead of answering: a commit that breaks a uniqueness constraint, or a form field `float` rejects. */
  datatype RequestError = IntegrityError | NotANumber(field: string)

  /** Whether a row is already in the committed table on all six columns. */
  function StoredIn(trades: seq<Trade>): TradeFields -> bool
  {
    f => Stored(trades, f)
  }

  /**
   * The rows `_persist_trade_rows` adds to the session, in order. The session
   * does not autoflush, so the query sees the committed table only: a row
   * added earlier in the same call is not found and is added again.
   */
  function NewRows(trades: seq<Trade>, rows: seq<TradeFields>): seq<TradeFields>
  {
    Unknown(rows, StoredIn(trades))
  }

  /** The trades table once the added rows are committed, each under a fresh autoincrement id. */
  function Persisted(trades: seq<Trade>, rows: seq<TradeFields>): (r: seq<Trade>)
    ensures |r| == |trades| + |NewRows(trades, rows)| && r[..|trades|] == trades
    ensures forall k :: 0 <= k < |NewRows(trades, rows)| ==> r[|trades| + k].fields == NewRows(trades, rows)[k]
  {
    if rows == [] then trades
    else
      var before := Persisted(trades, rows[..|rows| - 1]);
      var row := rows[|rows| - 1];
      assert NewRows(trades, rows) == NewRows(trades, rows[..|rows| - 1]) + (if Stored(trades, row) then [] else [row]);
      if Stored(trades, row) then before else before + [Trade(NextTradeId(before), row)]
  }

  /**
   * `_persist_trade_rows(db, rows)`: returns how many rows it added, or the
   * `IntegrityError` the commit raises on `uix_trade_dedup` when two added
   * rows coincide, in which case nothing is stored.
   */
  method PersistTradeRows(db: Database, rows: seq<TradeFields>) returns (r: Result<nat, RequestError>)
    modifies db
    ensures NoRepeats(NewRows(old(db.trades), rows)) ==>
      r == Ok(|NewRows(old(db.trades), rows)|) && db.trades == Persisted(old(db.trades), rows)
    ensures !NoRepeats(NewRows(old(db.trades), rows)) ==> r == Err(IntegrityError) && db.trades == old(db.trades)
    ensures db.summaries == old(db.summaries) && db.meta == old(db.meta)
  {
    var inserted := 0;
    var trades := db.trades;
    var pending: seq<TradeFields> := [];
    var i := 0;
    while i < |rows|
      invariant 0 <= i <= |rows|
      invariant pending == NewRows(db.trades, rows[..i])
      invariant trades == Persisted(db.trades, rows[..i])
      invariant inserted == |pending|
    {
      assert rows[..i + 1][..i] == rows[..i];
      var present := Stored(db.trades, rows[i]);
      if !present {
        trades := trades + [Trade(NextTradeId(trades), rows[i])];
        pending := pending + [rows[i]];
        inserted := inserted + 1;
      }
      i := i + 1;
    }
    assert rows[..i] == rows;
    if !NoRepeats(pending) {
      return Err(IntegrityError);
    }
    db.trades := trades;
    r := Ok(inserted);
  }

  /** The commit succeeds exactly when every row that occurs twice in the file is already stored. */
  lemma PersistCommits(trades: seq<Trade>, rows: seq<TradeFields>)
    ensures NoRepeats(NewRows(trades, rows)) <==>
      forall i, j :: 0 <= i < j < |rows| && rows[i] == rows[j] ==> Stored(trades, rows[i])
  {
    UnknownNoRepeats(rows, StoredIn(trades));
  }

  /** Every row is stored once the commit has gone through. */
  lemma PersistedStoresAll(trades: seq<Trade>, rows: seq<TradeFields>)
    ensures forall j :: 0 <= j < |rows| ==> Stored(Persisted(trades, rows), rows[j])
  {
    var after := Persisted(trades, rows);
    var added := NewRows(trades, rows);
    forall j | 0 <= j < |rows|
      ensures Stored(after, rows[j])
    {
      if Stored(trades, rows[j]) {
        var k :| 0 <= k < |trades| && trades[k].fields == rows[j];
        assert after[..|trades|][k] == trades[k];
      } else {
        assert rows[j] in rows;
        assert rows[j] in added;
        var k :| 0 <= k < |added| && added[k] == rows[j];
        assert after[|trades| + k].fields == rows[j];
      }
    }
  }

  /** No two trades share all six columns. */
  predicate Deduplicated(trades: seq<Trade>)
  {
    forall i, j :: 0 <= i < j < |trades| ==> trades[i].fields != trades[j].fields
  }

  /** On a table without duplicates, the committed table has none exactly when the added rows hold no repeat. */
  lemma PersistedDeduplicated(trades: seq<Trade>, rows: seq<TradeFields>)
    requires Deduplicated(trades)
    ensures Deduplicated(Persisted(trades, rows)) <==> NoRepeats(NewRows(trades, rows))
  {
    var p, added, n := Persisted(trades, rows), NewRows(trades, rows), |trades|;
    if NoRepeats(added) {
      forall i, j | 0 <= i < j < |p|
        ensures p[i].fields != p[j].fields
      {
        PersistedPair(trades, rows, i, j);
      }
    } else {
      var i, j :| 0 <= i < j < |added| && added[i] == added[j];
      PersistedAt(trades, rows, n + i);
      PersistedAt(trades, rows, n + j);
    }
  }

  lemma PersistedPair(trades: seq<Trade>, rows: seq<TradeFields>, i: nat, j: nat)
    requires Deduplicated(trades) && NoRepeats(NewRows(trades, rows))
    requires i < j < |Persisted(trades, rows)|
    ensures Persisted(trades, rows)[i].fields != Persisted(trades, rows)[j].fields
  {
    var added, n := NewRows(trades, rows), |trades|;
    PersistedAt(trades, rows, i);
    PersistedAt(trades, rows, j);
    if i < n <= j {
      var f := added[j - n];
      assert f in added;
      assert !StoredIn(trades)(f);
      assert trades[i].fields != f;
    }
  }

  /** The columns of the committed table's `k`-th row: a stored row's, or an added row's. */
  lemma PersistedAt(trades: seq<Trade>, rows: seq<TradeFields>, k: nat)
    requires k < |Persisted(trades, rows)|
    ensures var added := NewRows(trades, rows);
      Persisted(trades, rows)[k].fields == if k < |trades| then trades[k].fields else added[k - |trades|]
  {
    var p := Persisted(trades, rows);
    if k < |trades| {
      assert p[..|trades|][k] == p[k];
    }
  }

  /** Importing the same rows a second time adds nothing, and its commit goes through. */
  lemma PersistIdempotent(trades: seq<Trade>, rows: seq<TradeFields>)
    ensures Persisted(Persisted(trades, rows), rows) == Persisted(trades, rows)
    ensures NewRows(Persisted(trades, rows), rows) == []
  {
    var once := Persisted(trades, rows);
    PersistedStoresAll(trades, rows);
    PersistNothingNew(once, rows);
  }

  /** Rows that are all stored already add nothing. */
  lemma {:induction false} PersistNothingNew(trades: seq<Trade>, rows: seq<TradeFields>)
    requires forall j :: 0 <= j < |rows| ==> Stored(trades, rows[j])
    ensures NewRows(trades, rows) == [] && Persisted(trades, rows) == trades
  {
    if rows != [] {
      var init := rows[..|rows| - 1];
      assert forall j :: 0 <= j < |init| ==> init[j] == rows[j];
      PersistNothingNew(trades, init);
      assert rows == init + [rows[|rows| - 1]];
    }
  }

  /** Two equal rows that are not stored yet make the commit fail. */
  lemma TwinNewRowsFail(trades: seq<Trade>, row: TradeFields)
    requires !Stored(trades, row)
    ensures !NoRepeats(NewRows(trades, [row, row]))
  {
    var twins := [row, row];
    PersistCommits(trades, twins);
    assert twins[0] == twins[1] && !Stored(trades, twins[0]);
  }

  // ----- _finalize_trade_import -----------------------------------------

  /** One entry of the recomputed `daily_map`. */
  datatype DayFigures = DayFigures(day: string, realized: real, unrealized: real)

  /** A reported disagreement: the stored figures and the recomputed ones. */
  datatype Conflict = Conflict(date: string, existingRealized: real, existingUnrealized: real,
                               existingUpdatedAt: string, newRealized: real, newUnrealized: real)

  /** The stored row is within the tolerance on realised and on unrealised. */
  predicate Agrees(s: DailySummary, f: DayFigures)
  {
    IsClose(s.realized, f.realized, DefaultTolerance) && IsClose(s.unrealized, f.unrealized, DefaultTolerance)
  }

  /** What is written for a recomputed day: invested follows unrealised. */
  function Written(f: DayFigures, now: string): DailySummary
  {
    DailySummary(f.realized, f.unrealized, f.unrealized, now)
  }

  /** The summaries and the conflicts after reconciling `daily` in order. */
  function Reconcile(stored: map<string, DailySummary>, daily: seq<DayFigures>, now: string)
    : (r: (map<string, DailySummary>, seq<Conflict>))
  {
    if daily == [] then (stored, [])
    else
      var (summaries, conflicts) := Reconcile(stored, daily[..|daily| - 1], now);
      var f := daily[|daily| - 1];
      if f.day !in summaries || Agrees(summaries[f.day], f) then (summaries[f.day := Written(f, now)], conflicts)
      else
        var s := summaries[f.day];
        (summaries, conflicts + [Conflict(f.day, s.realized, s.unrealized, s.updatedAt, f.realized, f.unrealized)])
  }

  /** The response: the conflicts page when there is one, else a redirect home. */
  datatype ImportResponse = ConflictsPage(conflicts: seq<Conflict>, inserted: nat) | RedirectTo(url: string, status: int)

  /**
   * The reconciliation of `_finalize_trade_import`, for the daily figures
   * recomputed from all stored trades.
   */
  method FinalizeTradeImport(db: Database, daily: seq<DayFigures>, inserted: nat, now: string)
    returns (response: ImportResponse)
    modifies db
    ensures (db.summaries, if response.ConflictsPage? then response.conflicts else []) == Reconcile(old(db.summaries), daily, now)
    ensures response.ConflictsPage? <==> Reconcile(old(db.summaries), daily, now).1 != []
    ensures response.ConflictsPage? ==> response.inserted == inserted
    ensures response.RedirectTo? ==> response == RedirectTo("/", 303)
    ensures db.trades == old(db.trades) && db.meta == old(db.meta)
  {
    var summaries := db.summaries;
    var conflicts: seq<Conflict> := [];
    var i := 0;
    while i < |daily|
      invariant 0 <= i <= |daily|
      invariant (summaries, conflicts) == Reconcile(db.summaries, daily[..i], now)
    {
      assert daily[..i + 1][..i] == daily[..i];
      var f := daily[i];
      if f.day !in summaries {
        summaries := summaries[f.day := Written(f, now)];
      } else if IsClose(summaries[f.day].realized, f.realized, DefaultTolerance)
             && IsClose(summaries[f.day].unrealized, f.unrealized, DefaultTolerance) {
        summaries := summaries[f.day := Written(f, now)];
      } else {
        var s := summaries[f.day];
        conflicts := conflicts + [Conflict(f.day, s.realized, s.unrealized, s.updatedAt, f.realized, f.unrealized)];
      }
      i := i + 1;
    }
    assert daily[..i] == daily;
    db.summaries := summaries;
    if |conflicts| > 0 {
      response := ConflictsPage(conflicts, inserted);
    } else {
      response := RedirectTo("/", 303);
    }
  }

  predicate DistinctDays(daily: seq<DayFigures>)
  {
    forall i, j :: 0 <= i < j < |daily| ==> daily[i].day != daily[j].day
  }

  /** A day of `daily` is written when new or close, and kept as stored otherwise; other days are untouched. */
  predicate ReconciledDay(stored: map<string, DailySummary>, result: map<string, DailySummary>, f: DayFigures, now: string)
  {
    if f.day !in stored || Agrees(stored[f.day], f) then f.day in result && result[f.day] == Written(f, now)
    else f.day in result && result[f.day] == stored[f.day]
  }

  function ConflictOf(stored: map<string, DailySummary>, f: DayFigures): Conflict
    requires f.day in stored
  {
    var s := stored[f.day];
    Conflict(f.day, s.realized, s.unrealized, s.updatedAt, f.realized, f.unrealized)
  }

  /** The stored days that disagree, in `daily_map` order. */
  function Disagreements(stored: map<string, DailySummary>, daily: seq<DayFigures>): seq<Conflict>
  {
    if daily == [] then []
    else
      var f := daily[|daily| - 1];
      Disagreements(stored, daily[..|daily| - 1])
        + (if f.day in stored && !Agrees(stored[f.day], f) then [ConflictOf(stored, f)] else [])
  }

  /** The days of `daily_map`. */
  function DaysOf(daily: seq<DayFigures>): set<string>
  {
    set i | 0 <= i < |daily| :: daily[i].day
  }

  /** Reconciling touches only the days of `daily_map`, and afterwards every one of them has a row. */
  lemma {:induction false} ReconcileKeepsOthers(stored: map<string, DailySummary>, daily: seq<DayFigures>, now: string)
    ensures Reconcile(stored, daily, now).0.Keys == stored.Keys + DaysOf(daily)
    ensures forall k :: k in stored && k !in DaysOf(daily) ==> Reconcile(stored, daily, now).0[k] == stored[k]
  {
    if daily != [] {
      var prefix := daily[..|daily| - 1];
      assert forall i :: 0 <= i < |prefix| ==> prefix[i] == daily[i];
      ReconcileKeepsOthers(stored, prefix, now);
      assert DaysOf(daily) == DaysOf(prefix) + {daily[|daily| - 1].day};
    }
  }

  /** Before a day of a dict of distinct days is reached, its row is the stored one. */
  lemma ReconcileReachesStored(stored: map<string, DailySummary>, daily: seq<DayFigures>, now: string)
    requires daily != [] && DistinctDays(daily)
    ensures var f := daily[|daily| - 1];
      var before := Reconcile(stored, daily[..|daily| - 1], now).0;
      (f.day in before <==> f.day in stored) && (f.day in stored ==> before[f.day] == stored[f.day])
  {
    var prefix := daily[..|daily| - 1];
    ReconcileKeepsOthers(stored, prefix, now);
    assert daily[|daily| - 1].day !in DaysOf(prefix);
  }

  /** For a dict of distinct days, each day is written when new or close and kept as stored when not. */
  lemma {:induction false} ReconcileDays(stored: map<string, DailySummary>, daily: seq<DayFigures>, now: string)
    requires DistinctDays(daily)
    ensures forall i :: 0 <= i < |daily| ==> ReconciledDay(stored, Reconcile(stored, daily, now).0, daily[i], now)
  {
    if daily != [] {
      var prefix := daily[..|daily| - 1];
      var f := daily[|daily| - 1];
      assert forall i :: 0 <= i < |prefix| ==> prefix[i] == daily[i];
      ReconcileDays(stored, prefix, now);
      ReconcileReachesStored(stored, daily, now);
      var before := Reconcile(stored, prefix, now).0;
      var after := Reconcile(stored, daily, now).0;
      forall i | 0 <= i < |prefix|
        ensures ReconciledDay(stored, after, daily[i], now)
      {
        assert daily[i].day != f.day;
        assert ReconciledDay(stored, before, prefix[i], now);
      }
    }
  }

  /** For a dict of distinct days, the conflicts are the stored days that disagree, in order. */
  lemma {:induction false} ReconcileConflicts(stored: map<string, DailySummary>, daily: seq<DayFigures>, now: string)
    requires DistinctDays(daily)
    ensures Reconcile(stored, daily, now).1 == Disagreements(stored, daily)
  {
    if daily != [] {
      var prefix := daily[..|daily| - 1];
      assert forall i :: 0 <= i < |prefix| ==> prefix[i] == daily[i];
      ReconcileConflicts(stored, prefix, now);
      ReconcileReachesStored(stored, daily, now);
    }
  }

  // ----- the daily figures of _finalize_trade_import ----------------------

  /** The query's order: by `Trade.date` (text, SQLite's binary collation), then by `Trade.id`. */
  predicate QueryLe(a: Trade, b: Trade)
  {
    if a.fields.date != b.fields.date then Text.LexLess(a.fields.date, b.fields.date) else a.id <= b.id
  }

  predicate InQueryOrder(trades: seq<Trade>)
  {
    forall i :: 0 <= i < |trades| - 1 ==> QueryLe(trades[i], trades[i + 1])
  }

  /** Insert `x` before the first trade it does not sort after. */
  function QueryInsert(x: Trade, trades: seq<Trade>): (r: seq<Trade>)
    ensures multiset(r) == multiset(trades) + multiset{x}
    ensures |r| == |trades| + 1
    ensures r[0] == x || (trades != [] && r[0] == trades[0])
  {
    if trades == [] || QueryLe(x, trades[0]) then [x] + trades
    else
      assert trades == [trades[0]] + trades[1..];
      [trades[0]] + QueryInsert(x, trades[1..])
  }

  /** `db.query(Trade).order_by(Trade.date.asc(), Trade.id.asc()).all()`. */
  function QueryOrdered(trades: seq<Trade>): (r: seq<Trade>)
    ensures multiset(r) == multiset(trades)
  {
    if trades == [] then []
    else
      assert trades == [trades[0]] + trades[1..];
      QueryInsert(trades[0], QueryOrdered(trades[1..]))
  }

  lemma QueryLeTotal(a: Trade, b: Trade)
    ensures QueryLe(a, b) || QueryLe(b, a)
  {
    Text.LexTotal(a.fields.date, b.fields.date);
  }

  lemma {:induction false} QueryInsertOrdered(x: Trade, trades: seq<Trade>)
    requires InQueryOrder(trades)
    ensures InQueryOrder(QueryInsert(x, trades))
  {
    if trades != [] && !QueryLe(x, trades[0]) {
      QueryLeTotal(x, trades[0]);
      assert InQueryOrder(trades[1..]) by {
        forall i | 0 <= i < |trades[1..]| - 1 ensures QueryLe(trades[1..][i], trades[1..][i + 1]) {
          assert QueryLe(trades[i + 1], trades[i + 2]);
        }
      }
      QueryInsertOrdered(x, trades[1..]);
    }
  }

  /** The query returns every stored trade, in (date, id) order. */
  lemma {:induction false} QueryOrderedSorted(trades: seq<Trade>)
    ensures InQueryOrder(QueryOrdered(trades)) && multiset(QueryOrdered(trades)) == multiset(trades)
  {
    if trades != [] {
      QueryOrderedSorted(trades[1..]);
      QueryInsertOrdered(trades[0], QueryOrdered(trades[1..]));
    }
  }

  /**
   * The record built for one stored trade: none when its date does not
   * read as `%Y-%m-%d` (the `ValueError` is skipped), otherwise the parsed
   * date with action and symbol upper-cased.
   */
  function TradeRecord(t: Trade): (r: Option<ImportThinkorswim.PnlRecord>)
    ensures r.Some? ==> Dates.ValidDate(r.value.date)
  {
    match Dates.ParseDateWith(t.fields.date, Dates.YearMonthDay)
    case None => None
    case Some(d) =>
      Some(ImportThinkorswim.PnlRecord(d, Text.Upper(t.fields.action), Text.Upper(t.fields.symbol), t.fields.qty, t.fields.price))
  }

  /** `trade_records`: the records of the trades whose date parses, in query order. */
  function TradeRecords(trades: seq<Trade>): (r: seq<ImportThinkorswim.PnlRecord>)
    ensures |r| <= |trades|
  {
    if trades == [] then []
    else
      var before := TradeRecords(trades[..|trades| - 1]);
      match TradeRecord(trades[|trades| - 1])
      case None => before
      case Some(x) => before + [x]
  }

  /** Every record carries a date that exists. */
  lemma {:induction false} TradeRecordsValid(trades: seq<Trade>)
    ensures forall i :: 0 <= i < |TradeRecords(trades)| ==> Dates.ValidDate(TradeRecords(trades)[i].date)
  {
    if trades != [] {
      TradeRecordsValid(trades[..|trades| - 1]);
      TradeRecordsSnoc(trades);
    }
  }

  /** `trade_records` grows by the last trade's record, if it has one. */
  lemma TradeRecordsSnoc(trades: seq<Trade>)
    requires trades != []
    ensures var last := TradeRecord(trades[|trades| - 1]);
      TradeRecords(trades) == TradeRecords(trades[..|trades| - 1]) + (if last.Some? then [last.value] else [])
  {
  }

  /** Every trade whose date parses contributes its record. */
  lemma {:induction false} TradeRecordsKeep(trades: seq<Trade>, j: nat)
    requires j < |trades| && TradeRecord(trades[j]).Some?
    ensures TradeRecord(trades[j]).value in TradeRecords(trades)
  {
    var prefix := trades[..|trades| - 1];
    TradeRecordsSnoc(trades);
    if j < |prefix| {
      assert prefix[j] == trades[j];
      TradeRecordsKeep(prefix, j);
      InFront(TradeRecords(prefix), if TradeRecord(trades[|trades| - 1]).Some? then [TradeRecord(trades[|trades| - 1]).value] else [],
        TradeRecord(trades[j]).value);
    } else {
      assert j == |trades| - 1;
    }
  }

  /** An element of the front of a concatenation is an element of the whole. */
  lemma InFront<T>(front: seq<T>, tail: seq<T>, x: T)
    requires x in front
    ensures x in front + tail
  {
  }

  /** The loop that fills `trade_records`. */
  method BuildTradeRecords(trades: seq<Trade>) returns (records: seq<ImportThinkorswim.PnlRecord>)
    ensures records == TradeRecords(trades)
  {
    records := [];
    var i := 0;
    while i < |trades|
      invariant 0 <= i <= |trades|
      invariant records == TradeRecords(trades[..i])
    {
      assert trades[..i + 1][..i] == trades[..i];
      var parsed := Dates.ParseDateWith(trades[i].fields.date, Dates.YearMonthDay);
      if parsed.Some? {
        var t := trades[i].fields;
        records := records + [ImportThinkorswim.PnlRecord(parsed.value, Text.Upper(t.action), Text.Upper(t.symbol), t.qty, t.price)];
      }
      i := i + 1;
    }
    assert trades[..i] == trades;
  }

  predicate ValidRowDates(rows: seq<LongOnlyPnl.PnlRow>)
  {
    forall i :: 0 <= i < |rows| ==> Dates.ValidDate(rows[i].date)
  }

  /** One `daily_map` entry: the row's date as `%Y-%m-%d` with its realised and unrealised profit. */
  function RowFigures(row: LongOnlyPnl.PnlRow): DayFigures
    requires Dates.ValidDate(row.date)
  {
    DayFigures(Dates.FormatDate(row.date), row.realised, row.unrealised)
  }

  function FiguresOf(rows: seq<LongOnlyPnl.PnlRow>): (daily: seq<DayFigures>)
    requires ValidRowDates(rows)
    ensures |daily| == |rows|
  {
    seq(|rows|, i requires 0 <= i < |rows| && ValidRowDates(rows) => RowFigures(rows[i]))
  }

  /** The loop that fills `daily_map` from the engine's table. */
  method BuildDailyMap(rows: seq<LongOnlyPnl.PnlRow>) returns (daily: seq<DayFigures>)
    requires ValidRowDates(rows)
    ensures daily == FiguresOf(rows)
  {
    daily := [];
    var i := 0;
    while i < |rows|
      invariant 0 <= i <= |rows|
      invariant daily == FiguresOf(rows)[..i]
    {
      daily := daily + [DayFigures(Dates.FormatDate(rows[i].date), rows[i].realised, rows[i].unrealised)];
      i := i + 1;
    }
  }

  /** The engine's rows carry only dates of the records it was given. */
  lemma EngineRowsValid(records: seq<ImportThinkorswim.PnlRecord>)
    requires forall i :: 0 <= i < |records| ==> Dates.ValidDate(records[i].date)
    ensures ValidRowDates(LongOnlyPnl.DailyPnl(ImportThinkorswim.RecordFills(records)))
  {
    LongOnlyPnl.DailyPnlCoversDates(ImportThinkorswim.RecordFills(records));
  }

  /** Ascending dates print as distinct day keys, so `daily_map` loses no row to an overwritten key. */
  lemma AscendingFiguresDistinct(rows: seq<LongOnlyPnl.PnlRow>)
    requires ValidRowDates(rows)
    requires forall i, j :: 0 <= i < j < |rows| ==> Dates.DateBefore(rows[i].date, rows[j].date)
    ensures DistinctDays(FiguresOf(rows))
  {
    var daily := FiguresOf(rows);
    forall i, j | 0 <= i < j < |daily| ensures daily[i].day != daily[j].day {
      if daily[i].day == daily[j].day {
        Dates.FormatDateInjective(rows[i].date, rows[j].date);
        assert false;
      }
    }
  }

  /** The daily figures `_finalize_trade_import` derives from the stored trades. */
  function StoreDailyFigures(trades: seq<Trade>): (daily: seq<DayFigures>)
    ensures DistinctDays(daily)
  {
    var records := TradeRecords(QueryOrdered(trades));
    var rows := LongOnlyPnl.DailyPnl(ImportThinkorswim.RecordFills(records));
    TradeRecordsValid(QueryOrdered(trades));
    EngineRowsValid(records);
    LongOnlyPnl.DailyPnlAscending(ImportThinkorswim.RecordFills(records));
    AscendingFiguresDistinct(rows);
    FiguresOf(rows)
  }

  /** A row's day is among the figures of its table. */
  lemma RowDayCovered(rows: seq<LongOnlyPnl.PnlRow>, i: nat)
    requires i < |rows| && ValidRowDates(rows)
    ensures Dates.FormatDate(rows[i].date) in DaysOf(FiguresOf(rows))
  {
    assert FiguresOf(rows)[i] == RowFigures(rows[i]);
  }

  /** Every record's date has its day among the figures of the engine's table. */
  lemma RecordDaysCovered(records: seq<ImportThinkorswim.PnlRecord>, k: nat)
    requires k < |records| && Dates.ValidDate(records[k].date)
    requires ValidRowDates(LongOnlyPnl.DailyPnl(ImportThinkorswim.RecordFills(records)))
    ensures Dates.FormatDate(records[k].date) in DaysOf(FiguresOf(LongOnlyPnl.DailyPnl(ImportThinkorswim.RecordFills(records))))
  {
    var fills := ImportThinkorswim.RecordFills(records);
    var rows := LongOnlyPnl.DailyPnl(fills);
    assert fills[k].date == records[k].date;
    LongOnlyPnl.DailyPnlCoversDates(fills);
    var i :| 0 <= i < |rows| && rows[i].date == fills[k].date;
    RowDayCovered(rows, i);
  }

  /** Every stored trade whose date parses has its day among the daily figures. */
  lemma StoreDaysCoverTrades(trades: seq<Trade>, t: Trade)
    requires t in trades && TradeRecord(t).Some?
    ensures Dates.FormatDate(TradeRecord(t).value.date) in DaysOf(StoreDailyFigures(trades))
  {
    var ordered := QueryOrdered(trades);
    assert t in multiset(ordered);
    var j :| 0 <= j < |ordered| && ordered[j] == t;
    var records := TradeRecords(ordered);
    TradeRecordsKeep(ordered, j);
    var k :| 0 <= k < |records| && records[k] == TradeRecord(t).value;
    TradeRecordsValid(ordered);
    EngineRowsValid(records);
    RecordDaysCovered(records, k);
  }

  /**
   * `_finalize_trade_import`: the trades in query order become records, the
   * long-only engine turns them into daily rows, and the rows' figures are
   * reconciled with the stored summaries.
   */
  method FinalizeFromStore(db: Database, inserted: nat, now: string) returns (response: ImportResponse)
    modifies db
    ensures (db.summaries, if response.ConflictsPage? then response.conflicts else [])
      == Reconcile(old(db.summaries), StoreDailyFigures(old(db.trades)), now)
    ensures forall f :: f in StoreDailyFigures(old(db.trades)) ==> ReconciledDay(old(db.summaries), db.summaries, f, now)
    ensures response.ConflictsPage? ==> response.conflicts == Disagreements(old(db.summaries), StoreDailyFigures(old(db.trades)))
    ensures response.ConflictsPage? ==> response.inserted == inserted
    ensures response.RedirectTo? ==> response == RedirectTo("/", 303)
    ensures db.trades == old(db.trades) && db.meta == old(db.meta)
  {
    var ordered := QueryOrdered(db.trades);
    var records := BuildTradeRecords(ordered);
    var rows := ImportThinkorswim.ComputeDailyPnlRecords(records);
    TradeRecordsValid(ordered);
    EngineRowsValid(records);
    var daily := BuildDailyMap(rows);
    assert daily == StoreDailyFigures(db.trades);
    ghost var stored := db.summaries;
    ReconcileDays(stored, daily, now);
    ReconcileConflicts(stored, daily, now);
    response := FinalizeTradeImport(db, daily, inserted, now);
  }

  // ----- import_trades and import_thinkorswim ----------------------------

  /** The two upload routes differ only in the error key of their redirect. */
  datatype TradeUpload = TradeCsvUpload | ThinkorswimUpload

  function NoTradesUrl(upload: TradeUpload): string
  {
    match upload
    case TradeCsvUpload => "/settings?trade_csv_error=no_trades#stock-data-import"
    case ThinkorswimUpload => "/settings?thinkorswim_error=no_trades#stock-data-import"
  }

  /**
   * `import_trades` / `import_thinkorswim`, given the rows the file parsed
   * to: no rows redirect back to the settings page and change nothing; a
   * failed commit raises and changes nothing; otherwise the rows are
   * persisted and the import finalized.
   */
  method ImportTradeRows(db: Database, upload: TradeUpload, rows: seq<TradeFields>, now: string)
    returns (r: Result<ImportResponse, RequestError>)
    modifies db
    ensures rows == [] ==> r == Ok(RedirectTo(NoTradesUrl(upload), 303)) && db.trades == old(db.trades) && db.summaries == old(db.summaries)
    ensures rows != [] && !NoRepeats(NewRows(old(db.trades), rows)) ==>
      r == Err(IntegrityError) && db.trades == old(db.trades) && db.summaries == old(db.summaries)
    ensures rows != [] && NoRepeats(NewRows(old(db.trades), rows)) ==>
      && r.Ok?
      && db.trades == Persisted(old(db.trades), rows)
      && (db.summaries, if r.value.ConflictsPage? then r.value.conflicts else [])
         == Reconcile(old(db.summaries), StoreDailyFigures(Persisted(old(db.trades), rows)), now)
      && (r.value.ConflictsPage? ==> r.value.inserted == |db.trades| - |old(db.trades)|)
      && (r.value.RedirectTo? ==> r.value == RedirectTo("/", 303))
    ensures db.meta == old(db.meta)
  {
    if rows == [] {
      return Ok(RedirectTo(NoTradesUrl(upload), 303));
    }
    var inserted := PersistTradeRows(db, rows);
    if inserted.Err? {
      return Err(inserted.error);
    }
    var response := FinalizeFromStore(db, inserted.value, now);
    r := Ok(response);
  }

  // ----- import_daily_summaries -----------------------------------------

  /** A row of the daily-summary CSV; an absent key is `None`. */
  datatype SummaryRow = SummaryRow(date: string, realized: Option<real>, unrealized: Option<real>,
                                   totalInvested: Option<real>, updatedAt: Option<string>)

  /** Realised and unrealised default to 0, invested to unrealised, the timestamp to now (also for ""). */
  function SummaryOf(row: SummaryRow, now: string): (s: DailySummary)
    ensures s.unrealized == row.unrealized.GetOr(0.0)
    ensures s.totalInvested == (if row.totalInvested.Some? then row.totalInvested.value else s.unrealized)
    ensures s.updatedAt == (if row.updatedAt.Some? && row.updatedAt.value != "" then row.updatedAt.value else now)
  {
    var unrealized := row.unrealized.GetOr(0.0);
    DailySummary(row.realized.GetOr(0.0), unrealized, row.totalInvested.GetOr(unrealized),
                 if row.updatedAt.Some? && row.updatedAt.value != "" then row.updatedAt.value else now)
  }

  const NoSummariesUrl := "/settings?daily_summary_error=no_summaries#stock-data-import"

  /** The summaries after upserting `rows` in order. */
  function Upserted(stored: map<string, DailySummary>, rows: seq<SummaryRow>, now: string): map<string, DailySummary>
  {
    if rows == [] then stored
    else Upserted(stored, rows[..|rows| - 1], now)[rows[|rows| - 1].date := SummaryOf(rows[|rows| - 1], now)]
  }

  /** Whether a day already has a committed row. */
  function StoredDay(stored: map<string, DailySummary>): string -> bool
  {
    d => d in stored
  }

  function RowDate(row: SummaryRow): string
  {
    row.date
  }

  /**
   * The dates `import_daily_summaries` adds as new rows, in file order. The
   * session does not autoflush, so `db.get` does not see a row added earlier
   * in the same call: a new date listed twice is added twice.
   */
  function NewDates(stored: map<string, DailySummary>, rows: seq<SummaryRow>): seq<string>
  {
    if rows == [] then []
    else
      var n := |rows| - 1;
      NewDates(stored, rows[..n]) + (if rows[n].date in stored then [] else [rows[n].date])
  }

  /** The new dates are the file's dates that have no stored row. */
  lemma {:induction false} NewDatesUnknown(stored: map<string, DailySummary>, rows: seq<SummaryRow>)
    ensures NewDates(stored, rows) == Unknown(Mapped(rows, RowDate), StoredDay(stored))
  {
    if rows != [] {
      var n := |rows| - 1;
      NewDatesUnknown(stored, rows[..n]);
      assert Mapped(rows[..n], RowDate) == Mapped(rows, RowDate)[..n];
    }
  }

  /**
   * `import_daily_summaries`, on the parsed rows: a stored day takes each of
   * its rows in turn, a new day is added; the commit fails on the primary key,
   * and nothing changes, when a new day was added twice.
   */
  method ImportDailySummaries(db: Database, rows: seq<SummaryRow>, now: string) returns (r: Result<ImportResponse, RequestError>)
    modifies db
    ensures rows == [] ==> r == Ok(RedirectTo(NoSummariesUrl, 303)) && db.summaries == old(db.summaries)
    ensures rows != [] && NoRepeats(NewDates(old(db.summaries), rows)) ==>
      r == Ok(RedirectTo("/", 303)) && db.summaries == Upserted(old(db.summaries), rows, now)
    ensures rows != [] && !NoRepeats(NewDates(old(db.summaries), rows)) ==>
      r == Err(IntegrityError) && db.summaries == old(db.summaries)
    ensures db.trades == old(db.trades) && db.meta == old(db.meta)
  {
    if |rows| == 0 {
      return Ok(RedirectTo(NoSummariesUrl, 303));
    }
    var summaries := db.summaries;
    var added: seq<string> := [];
    var i := 0;
    while i < |rows|
      invariant 0 <= i <= |rows|
      invariant summaries == Upserted(db.summaries, rows[..i], now)
      invariant added == NewDates(db.summaries, rows[..i])
    {
      assert rows[..i + 1][..i] == rows[..i];
      var found := rows[i].date in db.summaries;
      if !found {
        added := added + [rows[i].date];
      }
      summaries := summaries[rows[i].date := SummaryOf(rows[i], now)];
      i := i + 1;
    }
    assert rows[..i] == rows;
    if !NoRepeats(added) {
      return Err(IntegrityError);
    }
    db.summaries := summaries;
    r := Ok(RedirectTo("/", 303));
  }

  /** The commit succeeds exactly when every date listed twice already has a stored row. */
  lemma SummariesCommit(stored: map<string, DailySummary>, rows: seq<SummaryRow>)
    ensures NoRepeats(NewDates(stored, rows)) <==>
      forall i, j :: 0 <= i < j < |rows| && rows[i].date == rows[j].date ==> rows[i].date in stored
  {
    var dates := Mapped(rows, RowDate);
    NewDatesUnknown(stored, rows);
    UnknownNoRepeats(dates, StoredDay(stored));
    assert forall i :: 0 <= i < |rows| ==> dates[i] == rows[i].date;
  }

  /** The last row for `day`, the one whose values remain after the upserts. */
  lemma {:induction false} UpsertedMeaning(stored: map<string, DailySummary>, rows: seq<SummaryRow>, now: string, day: string)
    ensures day in Upserted(stored, rows, now) <==> day in stored || exists i :: 0 <= i < |rows| && rows[i].date == day
    ensures forall i :: (0 <= i < |rows| && rows[i].date == day && (forall j :: i < j < |rows| ==> rows[j].date != day)
      ==> Upserted(stored, rows, now)[day] == SummaryOf(rows[i], now))
    ensures (forall i :: 0 <= i < |rows| ==> rows[i].date != day) && day in stored ==> Upserted(stored, rows, now)[day] == stored[day]
  {
    if rows != [] {
      var prefix := rows[..|rows| - 1];
      assert forall i :: 0 <= i < |prefix| ==> prefix[i] == rows[i];
      UpsertedMeaning(stored, prefix, now, day);
    }
  }

  // ----- resolve_conflicts ----------------------------------------------

  /** The submitted form: the `date` list and the other fields. */
  datatype Form = Form(dates: seq<string>, fields: map<string, string>)

  /** `float(form.get(key, 0.0))`: a missing field is 0, text that `float` rejects raises `ValueError`. */
  function FormNumber(form: Form, key: string): Result<real, string>
  {
    if key !in form.fields then Ok(0.0)
    else
      var v := ParseDecimal(form.fields[key]);
      if v.Some? then Ok(v.value) else Err(key)
  }

  predicate ChoosesNew(form: Form, day: string)
  {
    "choice_" + day in form.fields && form.fields["choice_" + day] == "new"
  }

  /** The summaries after the first `n` submitted dates, or the field that failed to parse. */
  function Resolve(stored: map<string, DailySummary>, form: Form, n: nat, now: string): Result<map<string, DailySummary>, string>
    requires n <= |form.dates|
  {
    if n == 0 then Ok(stored)
    else
      var before := Resolve(stored, form, n - 1, now);
      var day := form.dates[n - 1];
      if before.Err? || !ChoosesNew(form, day) then before
      else
        var realized := FormNumber(form, "new_realized_" + day);
        var unrealized := FormNumber(form, "new_unrealized_" + day);
        if realized.Err? then Err(realized.error)
        else if unrealized.Err? then Err(unrealized.error)
        else Ok(before.value[day := DailySummary(realized.value, unrealized.value, unrealized.value, now)])
  }

  /** Whether a submitted date stays out of the session's new rows: it has a committed row, or its choice is not "new". */
  function StoredOrKept(stored: map<string, DailySummary>, form: Form): string -> bool
  {
    d => d in stored || !ChoosesNew(form, d)
  }

  /** The dates `resolve_conflicts` adds as new rows among the first `n` submitted, in form order; `db.get` does not see one added earlier. */
  function NewChosen(stored: map<string, DailySummary>, form: Form, n: nat): seq<string>
    requires n <= |form.dates|
  {
    if n == 0 then []
    else
      var day := form.dates[n - 1];
      NewChosen(stored, form, n - 1) + (if day in stored || !ChoosesNew(form, day) then [] else [day])
  }

  /** The new dates are the submitted dates that are chosen as "new" and have no stored row. */
  lemma {:induction false} NewChosenUnknown(stored: map<string, DailySummary>, form: Form, n: nat)
    requires n <= |form.dates|
    ensures NewChosen(stored, form, n) == Unknown(form.dates[..n], StoredOrKept(stored, form))
  {
    if n > 0 {
      NewChosenUnknown(stored, form, n - 1);
      assert form.dates[..n][..n - 1] == form.dates[..n - 1];
    }
  }

  /**
   * `resolve_conflicts`: each submitted date whose choice is "new" is
   * overwritten (or created) with the submitted figures. A number that does
   * not parse raises before the commit, and a new date added twice makes the
   * commit fail; either way the table stays as it was.
   */
  method ResolveConflicts(db: Database, form: Form, now: string) returns (r: Result<ImportResponse, RequestError>)
    modifies db
    ensures var spec := Resolve(old(db.summaries), form, |form.dates|, now);
      && (spec.Err? ==> r == Err(NotANumber(spec.error)) && db.summaries == old(db.summaries))
      && (spec.Ok? && !NoRepeats(NewChosen(old(db.summaries), form, |form.dates|)) ==>
            r == Err(IntegrityError) && db.summaries == old(db.summaries))
      && (spec.Ok? && NoRepeats(NewChosen(old(db.summaries), form, |form.dates|)) ==>
            r == Ok(RedirectTo("/", 303)) && db.summaries == spec.value)
    ensures db.trades == old(db.trades) && db.meta == old(db.meta)
  {
    var summaries := db.summaries;
    var added: seq<string> := [];
    var i := 0;
    while i < |form.dates|
      invariant 0 <= i <= |form.dates|
      invariant Resolve(db.summaries, form, i, now) == Ok(summaries)
      invariant added == NewChosen(db.summaries, form, i)
    {
      var day := form.dates[i];
      if ChoosesNew(form, day) {
        var realized := FormNumber(form, "new_realized_" + day);
        if realized.Err? {
          ResolveStaysFailed(db.summaries, form, i + 1, now);
          return Err(NotANumber(realized.error));
        }
        var unrealized := FormNumber(form, "new_unrealized_" + day);
        if unrealized.Err? {
          ResolveStaysFailed(db.summaries, form, i + 1, now);
          return Err(NotANumber(unrealized.error));
        }
        var found := day in db.summaries;
        if !found {
          added := added + [day];
        }
        summaries := summaries[day := DailySummary(realized.value, unrealized.value, unrealized.value, now)];
      }
      i := i + 1;
    }
    if !NoRepeats(added) {
      return Err(IntegrityError);
    }
    db.summaries := summaries;
    r := Ok(RedirectTo("/", 303));
  }

  /** The commit succeeds exactly when every date submitted twice as "new" already has a stored row. */
  lemma ResolveCommits(stored: map<string, DailySummary>, form: Form)
    ensures NoRepeats(NewChosen(stored, form, |form.dates|)) <==>
      forall i, j :: 0 <= i < j < |form.dates| && form.dates[i] == form.dates[j] && ChoosesNew(form, form.dates[i])
        ==> form.dates[i] in stored
  {
    assert form.dates[..|form.dates|] == form.dates;
    NewChosenUnknown(stored, form, |form.dates|);
    UnknownNoRepeats(form.dates, StoredOrKept(stored, form));
  }

  lemma {:induction false} ResolveStaysFailed(stored: map<string, DailySummary>, form: Form, n: nat, now: string)
    requires n <= |form.dates| && Resolve(stored, form, n, now).Err?
    ensures Resolve(stored, form, |form.dates|, now) == Resolve(stored, form, n, now)
    decreases |form.dates| - n
  {
    if n < |form.dates| {
      ResolveStaysFailed(stored, form, n + 1, now);
    }
  }

  /** Only dates chosen as "new" are written; every other stored day is left as it was. */
  lemma {:induction false} ResolveWritesOnlyChosen(stored: map<string, DailySummary>, form: Form, n: nat, now: string, day: string)
    requires n <= |form.dates| && Resolve(stored, form, n, now).Ok?
    requires !ChoosesNew(form, day) || forall i :: 0 <= i < n ==> form.dates[i] != day
    ensures var result := Resolve(stored, form, n, now).value;
      (day in result <==> day in stored) && (day in stored ==> result[day] == stored[day])
  {
    if n > 0 {
      ResolveWritesOnlyChosen(stored, form, n - 1, now, day);
    }
  }

  /** A date chosen as "new" ends with the submitted figures, invested following unrealised. */
  lemma {:induction false} ResolveWritesChosen(stored: map<string, DailySummary>, form: Form, n: nat, now: string, i: nat)
    requires i < n <= |form.dates| && Resolve(stored, form, n, now).Ok? && ChoosesNew(form, form.dates[i])
    ensures var day := form.dates[i];
      var realized := FormNumber(form, "new_realized_" + day);
      var unrealized := FormNumber(form, "new_unrealized_" + day);
      && realized.Ok? && unrealized.Ok? && day in Resolve(stored, form, n, now).value
      && Resolve(stored, form, n, now).value[day] == DailySummary(realized.value, unrealized.value, unrealized.value, now)
  {
    if i < n - 1 {
      ResolveWritesChosen(stored, form, n - 1, now, i);
    }
  }
}
