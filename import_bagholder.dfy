/**
 * `app/services/import_bagholder.py`: the daily-summary CSV that BagHolder
 * itself exports, read back into daily rows. The table arrives already split
 * into rows of cells; headers are normalised without the "#" rule and
 * mapped through a small alias table, blank rows and rows without a
 * readable date are skipped, and the three figures fall back to defaults.
 */
module ImportBagholder {

  import opened Common
  import opened Text
  import opened Numbers
  import opened ImportText
  import RoutesImport

  // ----- headers --------------------------------------------------------

  /** `_HEADER_ALIASES`. */
  function BagholderAlias(n: string): (r: Option<string>)
    ensures r.Some? ==> r.value in {"realized", "unrealized", "total_invested"}
  {
    if n in {"realized_pl", "realizedpnl", "realized_pnl"} then Some("realized")
    else if n in {"unrealized_pl", "unrealized_pnl"} then Some("unrealized")
    else if n in {"total", "totalinvested", "total_investment"} then Some("total_invested")
    else None
  }

  /** `_canonical_header`: the plain normal form, then its alias when it has one. */
  function BagholderHeader(header: string): string
  {
    var n := NormalizeHeaderPlain(header);
    BagholderAlias(n).GetOr(n)
  }

  function BagholderHeaders(headers: seq<string>): (r: seq<string>)
    ensures |r| == |headers|
  {
    seq(|headers|, i requires 0 <= i < |headers| => BagholderHeader(headers[i]))
  }

  /** A canonical header is a normal-form key, and canonicalising it again changes nothing. */
  lemma BagholderHeaderIdempotent(header: string)
    ensures IsHeaderKey(BagholderHeader(header))
    ensures BagholderHeader(BagholderHeader(header)) == BagholderHeader(header)
  {
    var n := NormalizeHeaderPlain(header);
    var c := BagholderHeader(header);
    if BagholderAlias(n).Some? {
      CanonicalKeys(c);
    } else {
      HeaderKeyPlain(n);
      UnderscoredNoop(n);
    }
  }

  /** The three target names are normal-form keys that no alias rewrites. */
  lemma CanonicalKeys(c: string)
    requires c in {"realized", "unrealized", "total_invested"}
    ensures IsHeaderKey(c) && NormalizeHeaderPlain(c) == c && BagholderAlias(c).None?
  {
    CanonicalKeyShape(c);
    HeaderKeyPlain(c);
    UnderscoredNoop(c);
    CanonicalNotAliased(c);
  }

  lemma CanonicalKeyShape(c: string)
    requires c in {"realized", "unrealized", "total_invested"}
    ensures IsHeaderKey(c)
  {
    if c == "total_invested" {
      assert forall i :: 0 <= i < |c| && i != 5 ==> IsLowerAscii(c[i]);
    } else {
      assert forall i :: 0 <= i < |c| ==> IsLowerAscii(c[i]);
    }
  }

  lemma CanonicalNotAliased(c: string)
    requires c in {"realized", "unrealized", "total_invested"}
    ensures BagholderAlias(c).None?
  {
    if c == "realized" {
    } else if c == "unrealized" {
    } else {
      assert c == "total_invested";
    }
  }

  /**
   * The aliased headers of the importer's tests, "Date", "Realized PnL",
   * "Unrealized PnL", "Total" and "Updated At", normalise (by `OneWordHeader`
   * and `TwoWordHeader`) to these keys, which land on the five names the row
   * reader looks up.
   */
  lemma SampleAliases(keys: seq<string>)
    requires keys == ["date", "realized_pnl", "unrealized_pnl", "total", "updated_at"]
    ensures BagholderAlias(keys[0]).GetOr(keys[0]) == "date"
    ensures BagholderAlias(keys[1]).GetOr(keys[1]) == "realized"
    ensures BagholderAlias(keys[2]).GetOr(keys[2]) == "unrealized"
    ensures BagholderAlias(keys[3]).GetOr(keys[3]) == "total_invested"
    ensures BagholderAlias(keys[4]).GetOr(keys[4]) == "updated_at"
  {
  }

  /** A one-word header whose lower-case form is `key` lands on the key's alias, or on the key itself. */
  lemma OneWordHeader(h: string, key: string, target: string)
    requires Lower(h) == key && AllKept(key, IsLowerAlnum)
    requires BagholderAlias(key).GetOr(key) == target
    ensures BagholderHeader(h) == target
  {
    HeaderWord(h);
  }

  /** A two-word header whose lower-case words joined by "_" make `key` lands on the key's alias, or on the key itself. */
  lemma TwoWordHeader(h: string, a: string, b: string, la: string, lb: string, key: string)
    requires h == a + " " + b && a != [] && b != []
    requires Lower(a) == la && Lower(b) == lb && AllKept(la, IsLowerAlnum) && AllKept(lb, IsLowerAlnum)
    requires key == la + "_" + lb
    ensures BagholderHeader(h) == BagholderAlias(key).GetOr(key)
  {
    HeaderWords(a, b);
  }

  // ----- one row ----------------------------------------------------------

  /** A row of the returned list: every field is present. */
  datatype BagholderRow = BagholderRow(date: string, realized: real, unrealized: real,
                                       totalInvested: real, updatedAt: string)

  /** The number under `key`, as `_parse_number(values.get(key))` reads it. */
  function NumberAt(values: map<string, string>, key: string): Option<real>
  {
    ParseNumber(CellValue(Get(values, key)))
  }

  /**
   * One non-blank row's dictionary: no row without a readable date; realised
   * and unrealised default to 0, invested to the unrealised figure, and the
   * timestamp is the stripped "updated_at" cell or "".
   */
  function BagholderRowOf(values: map<string, string>): (r: Option<BagholderRow>)
    ensures r.Some? <==> ParseImportDate(Get(values, "date")).Some?
    ensures r.Some? ==> IsIsoDate(r.value.date)
  {
    var date := ParseImportDate(Get(values, "date"));
    if date.None? then None
    else
      var unrealized := NumberAt(values, "unrealized").GetOr(0.0);
      Some(BagholderRow(date.value, NumberAt(values, "realized").GetOr(0.0), unrealized,
                        NumberAt(values, "total_invested").GetOr(unrealized),
                        Strip(Get(values, "updated_at").GetOr(""))))
  }

  /** Each figure is the cell's number when it has one and its default otherwise. */
  lemma BagholderRowDefaults(values: map<string, string>)
    requires BagholderRowOf(values).Some?
    ensures var r := BagholderRowOf(values).value;
      && (NumberAt(values, "realized").Some? ==> r.realized == NumberAt(values, "realized").value)
      && (NumberAt(values, "realized").None? ==> r.realized == 0.0)
      && (NumberAt(values, "unrealized").Some? ==> r.unrealized == NumberAt(values, "unrealized").value)
      && (NumberAt(values, "unrealized").None? ==> r.unrealized == 0.0)
      && (NumberAt(values, "total_invested").Some? ==> r.totalInvested == NumberAt(values, "total_invested").value)
      && (NumberAt(values, "total_invested").None? ==> r.totalInvested == r.unrealized)
      && (!("total_invested" in values) || Strip(values["total_invested"]) == [] ==> r.totalInvested == r.unrealized)
      && ("updated_at" !in values ==> r.updatedAt == "")
      && Strip(r.updatedAt) == r.updatedAt
  {
    var r := BagholderRowOf(values).value;
    StripIdempotent(Get(values, "updated_at").GetOr(""));
  }

  /**
   * The rows of the importer's third test: a row whose date cell is empty,
   * or reads "invalid", gives no row whatever its figures.
   */
  lemma SkipsInvalidDates(values: map<string, string>)
    requires Get(values, "date") in {Some(""), Some("invalid")}
    ensures BagholderRowOf(values).None?
  {
    if values["date"] == "invalid" {
      NoSeparatorNoDate("invalid");
    }
  }

  /**
   * A returned row handed to the daily-summary upsert keeps its three
   * figures, and its timestamp unless that is empty, in which case the
   * upsert's clock fills it in.
   */
  lemma UpsertKeepsRow(r: BagholderRow, now: string)
    ensures var s := RoutesImport.SummaryOf(AsSummaryRow(r), now);
      && s.realized == r.realized && s.unrealized == r.unrealized && s.totalInvested == r.totalInvested
      && s.updatedAt == (if r.updatedAt == "" then now else r.updatedAt)
  {
  }

  /** A returned row as the upsert's `row.get(...)` reads it: every key present. */
  function AsSummaryRow(r: BagholderRow): RoutesImport.SummaryRow
  {
    RoutesImport.SummaryRow(r.date, Some(r.realized), Some(r.unrealized), Some(r.totalInvested), Some(r.updatedAt))
  }

  // ----- the whole table ---------------------------------------------------

  /** What one raw row contributes: nothing when it is blank or has no date. */
  function Kept(headers: seq<string>, raw: seq<string>): (r: seq<BagholderRow>)
    ensures |r| <= 1
  {
    if IsBlankRow(raw) then []
    else
      var row := BagholderRowOf(RowValues(headers, raw));
      if row.Some? then [row.value] else []
  }

  /** Each raw row's contribution, in table order. */
  function Contributions(headers: seq<string>, raws: seq<seq<string>>): (parts: seq<seq<BagholderRow>>)
    ensures |parts| == |raws|
    ensures forall i :: 0 <= i < |raws| ==> parts[i] == Kept(headers, raws[i])
  {
    seq(|raws|, i requires 0 <= i < |raws| => Kept(headers, raws[i]))
  }

  /** The rows the loop keeps from `raws`, in order. */
  function BagholderRows(headers: seq<string>, raws: seq<seq<string>>): seq<BagholderRow>
  {
    Concat(Contributions(headers, raws))
  }

  /** `parse_bagholder_csv` on a decoded table: no header row, or an empty one, gives no rows. */
  function BagholderCsv(table: seq<seq<string>>): (rows: seq<BagholderRow>)
    ensures table == [] || table[0] == [] ==> rows == []
  {
    if table == [] || table[0] == [] then []
    else BagholderRows(BagholderHeaders(table[0]), table[1..])
  }

  /**
   * Every returned row comes from a row of the table, in order: the j-th
   * returned row is the reading of the `origin[j]`-th raw row, the origins
   * increase, and every raw row that is neither blank nor dateless is one of
   * them.
   */
  lemma BagholderRowsOrigin(headers: seq<string>, raws: seq<seq<string>>) returns (origin: seq<nat>)
    ensures |origin| == |BagholderRows(headers, raws)|
    ensures forall j :: 0 <= j < |origin| ==>
      origin[j] < |raws| && Kept(headers, raws[origin[j]]) == [BagholderRows(headers, raws)[j]]
    ensures forall j, k :: 0 <= j < k < |origin| ==> origin[j] < origin[k]
    ensures forall i :: 0 <= i < |raws| && Kept(headers, raws[i]) != [] ==> i in origin
  {
    origin := ConcatOrigin(Contributions(headers, raws));
  }

  /** Every returned row has an ISO date and a stripped timestamp. */
  lemma BagholderRowsWellFormed(headers: seq<string>, raws: seq<seq<string>>)
    ensures forall r :: r in BagholderRows(headers, raws) ==> IsIsoDate(r.date) && Strip(r.updatedAt) == r.updatedAt
  {
    forall r | r in BagholderRows(headers, raws) ensures IsIsoDate(r.date) && Strip(r.updatedAt) == r.updatedAt {
      var i := ConcatMember(Contributions(headers, raws), r);
      BagholderRowDefaults(RowValues(headers, raws[i]));
    }
  }

  /** `parse_bagholder_csv` after decoding: canonical headers, then one pass over the data rows. */
  method ParseBagholderCsv(table: seq<seq<string>>) returns (rows: seq<BagholderRow>)
    ensures rows == BagholderCsv(table)
  {
    rows := [];
    if table == [] || table[0] == [] {
      return;
    }
    var headers := [];
    for i := 0 to |table[0]|
      invariant headers == BagholderHeaders(table[0][..i])
    {
      headers := headers + [BagholderHeader(table[0][i])];
    }
    assert table[0][..|table[0]|] == table[0];
    var raws := table[1..];
    ghost var parts := Contributions(headers, raws);
    for k := 0 to |raws|
      invariant rows == Concat(parts[..k])
    {
      ConcatStep(parts, k);
      var raw := raws[k];
      if IsBlankRow(raw) {
        continue;
      }
      var values := RowValues(headers, raw);
      var date := ParseImportDate(Get(values, "date"));
      if date.None? {
        continue;
      }
      var realized := NumberAt(values, "realized");
      var unrealized := NumberAt(values, "unrealized");
      var totalInvested := NumberAt(values, "total_invested");
      var updatedAt := Strip(Get(values, "updated_at").GetOr(""));
      if realized.None? {
        realized := Some(0.0);
      }
      if unrealized.None? {
        unrealized := Some(0.0);
      }
      if totalInvested.None? {
        totalInvested := unrealized;
      }
      rows := rows + [BagholderRow(date.value, realized.value, unrealized.value, totalInvested.value, updatedAt)];
    }
    assert parts[..|raws|] == parts;
  }
}
