/**
 * The thinkorswim statement importer (app/services/import_thinkorswim.py):
 * action labels and their resolution, header mappings and the row
 * dictionary, the "Account Trade History" section and its parser,
 * deduplication of the parsed trades, and the order in which the parsers
 * are tried. The daily P&L over the parsed trades is in `LongOnlyPnl`.
 */
module ImportThinkorswim {

  import opened Common
  import opened Text
  import opened Numbers
  import opened Dates
  import opened Store
  import opened ImportText
  import LongOnlyPnl

  // ----- action labels ------------------------------------------------

  /** `TRADE_ACTION_MAP`: the labels thinkorswim writes for each side. */
  function TradeAction(name: string): (r: Option<string>)
    ensures r.Some? ==> r.value == "BUY" || r.value == "SELL"
  {
    if name in {"BUY", "BOT", "BTO", "BUY_TO_OPEN", "BUY_TO_CLOSE", "BUY_TO_COVER", "BOUGHT"} then Some("BUY")
    else if name in {"SELL", "SLD", "STC", "SELL_TO_CLOSE", "SELL_TO_OPEN", "SOLD",
                      "SELL_SHORT", "SELL_SHORT_TO_OPEN", "SELL_SHORT_TO_CLOSE"} then Some("SELL")
    else None
  }

  /** A normalised action label: runs of capitals and digits joined by single underscores. */
  predicate IsActionLabel(s: string)
  {
    WordsBy(s, IsUpperAlnum, '_')
  }

  /**
   * `_normalize_action_label`: strip, upper-case, "&" becomes "AND", every
   * run of other characters becomes one "_", and underscores at either end
   * are dropped. A missing label is blank.
   */
  function NormalizeActionLabel(text: Option<string>): (r: string)
    ensures IsActionLabel(r)
  {
    var name := Strip(text.GetOr(""));
    if name == [] then []
    else
      ActionLabelShape(name);
      StripChar(SubRuns(ReplaceChar(Upper(name), '&', "AND"), IsUpperAlnum, "_"), '_')
  }

  lemma ActionLabelShape(name: string)
    ensures IsActionLabel(StripChar(SubRuns(ReplaceChar(Upper(name), '&', "AND"), IsUpperAlnum, "_"), '_'))
  {
    SubRunsStripped(ReplaceChar(Upper(name), '&', "AND"), IsUpperAlnum, '_');
  }

  /** A normalised label has no whitespace at its ends, no lower-case letter and no "&". */
  lemma ActionLabelPlain(s: string)
    requires IsActionLabel(s)
    ensures Strip(s) == s && Upper(s) == s && '&' !in s
  {
    forall i | 0 <= i < |s| ensures !IsSpace(s[i]) && UpperChar(s[i]) == s[i] && s[i] != '&' {
      assert IsUpperAlnum(s[i]) || s[i] == '_';
    }
    StripNoop(s);
  }

  /** A label already in normal form is its own normal form. */
  lemma ActionLabelNoop(s: string)
    requires IsActionLabel(s)
    ensures NormalizeActionLabel(Some(s)) == s
  {
    ActionLabelPlain(s);
    if s != [] {
      SubRunsNoop(s, IsUpperAlnum, '_');
      StripCharNoop(s, '_');
    }
  }

  /** Normalising a label twice is normalising it once. */
  lemma NormalizeActionLabelIdempotent(text: Option<string>)
    ensures NormalizeActionLabel(Some(NormalizeActionLabel(text))) == NormalizeActionLabel(text)
  {
    ActionLabelNoop(NormalizeActionLabel(text));
  }

  /** Labels that differ only in letter case normalise alike. */
  lemma NormalizeActionLabelIgnoresCase(text: string)
    ensures NormalizeActionLabel(Some(Upper(text))) == NormalizeActionLabel(Some(text))
  {
    StripUpper(text);
    var name := Strip(text);
    assert Upper(Upper(name)) == Upper(name);
    assert Strip(Upper(text)) == [] <==> name == [];
  }

  /**
   * `_resolve_action`: a blank label is no action; a label in the table
   * resolves through it; otherwise a label containing "BUY" is a buy, one
   * containing "SELL" or "SLD" a sale, and anything else no action.
   */
  function ResolveAction(text: Option<string>): (r: Option<string>)
    ensures r.Some? ==> r.value == "BUY" || r.value == "SELL"
    ensures r.Some? ==> NormalizeActionLabel(text) != []
  {
    var name := NormalizeActionLabel(text);
    if name == [] then None
    else if TradeAction(name).Some? then TradeAction(name)
    else if Contains(name, "BUY") then Some("BUY")
    else if Contains(name, "SELL") || Contains(name, "SLD") then Some("SELL")
    else None
  }

  /** The table decides every label it lists, whatever words the label contains. */
  lemma ResolveActionTableFirst(text: Option<string>)
    requires TradeAction(NormalizeActionLabel(text)).Some?
    ensures ResolveAction(text) == TradeAction(NormalizeActionLabel(text))
  {
    assert NormalizeActionLabel(text) != [];
  }

  /** Outside the table a label is read by the words it contains, "BUY" before "SELL" and "SLD". */
  lemma ResolveActionByWords(text: Option<string>)
    requires TradeAction(NormalizeActionLabel(text)).None?
    ensures ResolveAction(text) == Some("BUY") <==> Contains(NormalizeActionLabel(text), "BUY")
    ensures ResolveAction(text) == Some("SELL") <==>
      !Contains(NormalizeActionLabel(text), "BUY") &&
      (Contains(NormalizeActionLabel(text), "SELL") || Contains(NormalizeActionLabel(text), "SLD"))
  {
    var name := NormalizeActionLabel(text);
    if name == [] {
      assert !Contains(name, "BUY") && !Contains(name, "SELL") && !Contains(name, "SLD");
    }
  }

  /** Resolution ignores letter case. */
  lemma ResolveActionIgnoresCase(text: string)
    ensures ResolveAction(Some(Upper(text))) == ResolveAction(Some(text))
  {
    NormalizeActionLabelIgnoresCase(text);
  }

  /** "BUY" and "SELL" are their own normal forms. */
  lemma SidesAreLabels()
    ensures NormalizeActionLabel(Some("BUY")) == "BUY" && NormalizeActionLabel(Some("SELL")) == "SELL"
  {
    assert IsActionLabel("BUY") by {
      assert forall i :: 0 <= i < 3 ==> IsUpperAlnum("BUY"[i]);
    }
    assert IsActionLabel("SELL") by {
      assert forall i :: 0 <= i < 4 ==> IsUpperAlnum("SELL"[i]);
    }
    ActionLabelNoop("BUY");
    ActionLabelNoop("SELL");
  }

  /**
   * A resolved action resolves to itself again, which `_parse_dataframe`
   * relies on when it resolves the action a second time.
   */
  lemma ResolveActionIdempotent(text: Option<string>)
    ensures ResolveAction(text).Some? ==> ResolveAction(ResolveAction(text)) == ResolveAction(text)
  {
    SidesAreLabels();
    assert TradeAction("BUY") == Some("BUY") && TradeAction("SELL") == Some("SELL");
  }

  // ----- header mappings and the row dictionary -------------------------

  /** `COLUMN_ALIASES`, grouped by the canonical column each alias stands for. */
  function ColumnAlias(key: string): (r: Option<string>)
    ensures r.Some? ==> r.value in {"date", "time", "qty", "symbol", "description", "action", "price", "amount"}
  {
    if key in {"trade_date", "trade_date_et", "transaction_date", "date_time"} then Some("date")
    else if key in {"time", "trade_time", "transaction_time", "exec_time", "exec_time_et",
                    "execution_time", "execution_time_et", "order_time"} then Some("time")
    else if key in {"quantity", "qty", "quantity_executed", "shares", "trade_quantity", "filled_quantity"} then Some("qty")
    else if key in {"instrument", "ticker_symbol", "underlying", "underlying_symbol", "symbol"} then Some("symbol")
    else if key == "description" then Some("description")
    else if key in {"side", "type", "trade_type", "transaction_type", "activity"} then Some("action")
    else if key in {"price", "trade_price", "execution_price", "fill_price", "avg_price",
                    "average_price", "net_price"} then Some("price")
    else if key in {"amount", "net_amount", "trade_amount", "trade_value", "value",
                    "gross_amount", "proceeds"} then Some("amount")
    else None
  }

  /** A canonical column name is left alone by the alias table. */
  lemma CanonicalColumnsFixed(c: string)
    requires c in {"date", "time", "qty", "symbol", "description", "action", "price", "amount"}
    ensures ColumnAlias(c).GetOr(c) == c
  {
  }

  /** The (canonical, normalised) pair `_prepare_header_mappings` makes of one header cell. */
  function HeaderMapping(cell: string): (m: (string, string))
    ensures IsHeaderKey(m.1)
  {
    var normalized := NormalizeHeader(cell);
    (ColumnAlias(normalized).GetOr(normalized), normalized)
  }

  /** `_prepare_header_mappings`: one pair per header cell, in order. */
  function HeaderMappings(header: seq<string>): (ms: seq<(string, string)>)
    ensures |ms| == |header| && forall i :: 0 <= i < |header| ==> ms[i] == HeaderMapping(header[i])
  {
    seq(|header|, i requires 0 <= i < |header| => HeaderMapping(header[i]))
  }

  /** Aliasing a mapped column again changes nothing: every canonical name is a fixed point. */
  lemma HeaderMappingStable(cell: string)
    ensures ColumnAlias(HeaderMapping(cell).0).GetOr(HeaderMapping(cell).0) == HeaderMapping(cell).0
  {
    var n := NormalizeHeader(cell);
    if ColumnAlias(n).Some? {
      CanonicalColumnsFixed(ColumnAlias(n).value);
    }
  }

  /** The keys a cell under `mapping` fills: the canonical name, and the normalised one when it differs. */
  function KeysOf(mapping: (string, string)): set<string>
  {
    (if mapping.0 != [] then {mapping.0} else {}) +
    (if mapping.1 != [] && mapping.1 != mapping.0 then {mapping.1} else {})
  }

  /** Cell `i` of `row` is under a header and not blank, and offers its stripped text for `key`. */
  predicate Offers(row: seq<string>, mappings: seq<(string, string)>, i: int, key: string)
  {
    0 <= i < |row| && i < |mappings| && Strip(row[i]) != [] && key in KeysOf(mappings[i])
  }

  /** Cell `i` is the first cell offering `key`. */
  predicate FirstOffer(row: seq<string>, mappings: seq<(string, string)>, i: int, key: string)
  {
    Offers(row, mappings, i, key) && forall j :: 0 <= j < i ==> !Offers(row, mappings, j, key)
  }

  /**
   * `_map_row_values`: a key is present exactly when some non-blank cell
   * under a header offers it, and it holds the stripped text of the first
   * such cell. Blank cells and cells past the last header are never read.
   */
  method MapRowValues(row: seq<string>, mappings: seq<(string, string)>) returns (values: map<string, string>)
    ensures forall key :: key in values <==> exists i :: Offers(row, mappings, i, key)
    ensures forall key, i :: FirstOffer(row, mappings, i, key) ==> key in values && values[key] == Strip(row[i])
  {
    values := map[];
    var idx := 0;
    while idx < |row| && idx < |mappings|
      invariant idx <= |row| && idx <= |mappings|
      invariant forall key :: key in values <==> exists i :: 0 <= i < idx && Offers(row, mappings, i, key)
      invariant forall key, i :: 0 <= i < idx && FirstOffer(row, mappings, i, key) ==> key in values && values[key] == Strip(row[i])
    {
      ghost var before := values;
      var (canonical, normalized) := mappings[idx];
      var text := Strip(row[idx]);
      if text != [] {
        if canonical != [] && canonical !in values {
          values := values[canonical := text];
        }
        if normalized != [] && normalized != canonical && normalized !in values {
          values := values[normalized := text];
        }
      }
      assert forall key :: key in values <==> key in before || Offers(row, mappings, idx, key);
      MapRowStep(row, mappings, idx, before, values);
      idx := idx + 1;
    }
  }

  /** One cell of `_map_row_values`: keys already present keep their text, the cell's new keys get its text. */
  lemma MapRowStep(row: seq<string>, mappings: seq<(string, string)>, idx: nat,
                   before: map<string, string>, after: map<string, string>)
    requires idx < |row| && idx < |mappings|
    requires forall key :: key in before <==> exists i :: 0 <= i < idx && Offers(row, mappings, i, key)
    requires forall key, i :: 0 <= i < idx && FirstOffer(row, mappings, i, key) ==> key in before && before[key] == Strip(row[i])
    requires forall key :: key in after <==> key in before || Offers(row, mappings, idx, key)
    requires forall key :: key in before ==> after[key] == before[key]
    requires forall key :: key in after && key !in before ==> after[key] == Strip(row[idx])
    ensures forall key :: key in after <==> exists i :: 0 <= i < idx + 1 && Offers(row, mappings, i, key)
    ensures forall key, i :: 0 <= i < idx + 1 && FirstOffer(row, mappings, i, key) ==> key in after && after[key] == Strip(row[i])
  {
    forall key | key in after ensures exists i :: 0 <= i < idx + 1 && Offers(row, mappings, i, key) {
      if key !in before {
        assert Offers(row, mappings, idx, key);
      }
    }
    forall key, i | 0 <= i < idx + 1 && FirstOffer(row, mappings, i, key)
      ensures key in after && after[key] == Strip(row[i])
    {
      if i == idx {
        assert key !in before;
      }
    }
  }

  // ----- deduplication ------------------------------------------------

  /** What `_deduplicate_trades` compares: date, upper-cased symbol and action, quantity, price, amount. */
  datatype TradeKey = TradeKey(date: string, symbol: string, action: string, qty: real, price: real, amount: real)

  function KeyOf(t: TradeFields): TradeKey
  {
    TradeKey(t.date, Upper(t.symbol), Upper(t.action), t.qty, t.price, t.amount)
  }

  function KeysIn(rows: seq<TradeFields>): set<TradeKey>
  {
    set i | 0 <= i < |rows| :: KeyOf(rows[i])
  }

  /** The rows in order, each dropped when an earlier row has its key. */
  function Deduplicated(rows: seq<TradeFields>): seq<TradeFields>
  {
    if rows == [] then []
    else
      var front := Deduplicated(rows[..|rows| - 1]);
      var last := rows[|rows| - 1];
      if KeyOf(last) in KeysIn(front) then front else front + [last]
  }

  /** Row `i` is the first with its key. */
  predicate FirstOccurrence(rows: seq<TradeFields>, i: int)
  {
    0 <= i < |rows| && forall k :: 0 <= k < i ==> KeyOf(rows[k]) != KeyOf(rows[i])
  }

  lemma KeysInSnoc(rows: seq<TradeFields>, t: TradeFields)
    ensures KeysIn(rows + [t]) == KeysIn(rows) + {KeyOf(t)}
  {
    var all := rows + [t];
    assert KeyOf(all[|rows|]) in KeysIn(all);
    forall x | x in KeysIn(all) ensures x in KeysIn(rows) + {KeyOf(t)} {
      var i :| 0 <= i < |all| && x == KeyOf(all[i]);
      if i < |rows| {
        assert all[i] == rows[i];
      }
    }
    forall x | x in KeysIn(rows) ensures x in KeysIn(all) {
      var i :| 0 <= i < |rows| && x == KeyOf(rows[i]);
      assert all[i] == rows[i];
    }
  }

  /** Deduplication keeps every key of its input. */
  lemma {:induction false} DeduplicatedKeys(rows: seq<TradeFields>)
    ensures KeysIn(Deduplicated(rows)) == KeysIn(rows)
    decreases |rows|
  {
    if rows != [] {
      var n := |rows| - 1;
      var front := rows[..n];
      DeduplicatedKeys(front);
      KeysInSnoc(front, rows[n]);
      assert front + [rows[n]] == rows;
      if KeyOf(rows[n]) !in KeysIn(Deduplicated(front)) {
        KeysInSnoc(Deduplicated(front), rows[n]);
      }
    }
  }

  /**
   * `origin` says where each row of `out` came from: the j-th kept row is
   * input row `origin[j]`, the origins increase, and they are exactly the
   * first occurrences of the input's keys.
   */
  ghost predicate IsOrigin(rows: seq<TradeFields>, out: seq<TradeFields>, origin: seq<nat>)
  {
    && |origin| == |out|
    && (forall j :: 0 <= j < |origin| ==> origin[j] < |rows| && out[j] == rows[origin[j]])
    && (forall j, k :: 0 <= j < k < |origin| ==> origin[j] < origin[k])
    && (forall i :: FirstOccurrence(rows, i) <==> i in origin)
  }

  /** The output of deduplication is the input's first occurrences, in their input order. */
  lemma {:induction false} DeduplicatedOrigin(rows: seq<TradeFields>) returns (origin: seq<nat>)
    ensures IsOrigin(rows, Deduplicated(rows), origin)
    decreases |rows|
  {
    if rows == [] {
      origin := [];
    } else {
      var n := |rows| - 1;
      var front := rows[..n];
      var before := DeduplicatedOrigin(front);
      DeduplicatedKeys(front);
      if KeyOf(rows[n]) in KeysIn(Deduplicated(front)) {
        OriginRepeat(rows, Deduplicated(front), before);
        origin := before;
      } else {
        OriginFresh(rows, Deduplicated(front), before);
        origin := before + [n];
      }
    }
  }

  /** A last row whose key was seen before adds nothing. */
  lemma OriginRepeat(rows: seq<TradeFields>, out: seq<TradeFields>, origin: seq<nat>)
    requires rows != [] && IsOrigin(rows[..|rows| - 1], out, origin)
    requires KeysIn(out) == KeysIn(rows[..|rows| - 1]) && KeyOf(rows[|rows| - 1]) in KeysIn(out)
    ensures IsOrigin(rows, out, origin)
  {
    var n := |rows| - 1;
    var front := rows[..n];
    FirstOccurrencePrefix(rows, n);
    var k :| 0 <= k < n && KeyOf(front[k]) == KeyOf(rows[n]);
    assert rows[k] == front[k];
    assert !FirstOccurrence(rows, n);
    assert forall j :: 0 <= j < |origin| ==> rows[origin[j]] == front[origin[j]];
  }

  /** A last row with a new key is kept, with its own index as origin. */
  lemma OriginFresh(rows: seq<TradeFields>, out: seq<TradeFields>, origin: seq<nat>)
    requires rows != [] && IsOrigin(rows[..|rows| - 1], out, origin)
    requires KeysIn(out) == KeysIn(rows[..|rows| - 1]) && KeyOf(rows[|rows| - 1]) !in KeysIn(out)
    ensures IsOrigin(rows, out + [rows[|rows| - 1]], origin + [|rows| - 1])
  {
    var n := |rows| - 1;
    var front := rows[..n];
    FirstOccurrencePrefix(rows, n);
    forall k | 0 <= k < n ensures KeyOf(rows[k]) != KeyOf(rows[n]) {
      assert rows[k] == front[k];
      assert KeyOf(front[k]) in KeysIn(front);
    }
    assert forall j :: 0 <= j < |origin| ==> rows[origin[j]] == front[origin[j]];
  }

  /** Whether a row is a first occurrence depends only on the rows before it. */
  lemma FirstOccurrencePrefix(rows: seq<TradeFields>, n: nat)
    requires n <= |rows|
    ensures forall i :: 0 <= i < n ==> (FirstOccurrence(rows, i) <==> FirstOccurrence(rows[..n], i))
  {
    forall i | 0 <= i < n ensures FirstOccurrence(rows, i) <==> FirstOccurrence(rows[..n], i) {
      assert forall k :: 0 <= k <= i ==> rows[k] == rows[..n][k];
    }
  }

  /** No two kept rows share a key. */
  lemma DeduplicatedDistinct(rows: seq<TradeFields>)
    ensures forall j, k :: 0 <= j < k < |Deduplicated(rows)| ==> KeyOf(Deduplicated(rows)[j]) != KeyOf(Deduplicated(rows)[k])
  {
    var out := Deduplicated(rows);
    var origin := DeduplicatedOrigin(rows);
    forall j, k | 0 <= j < k < |out| ensures KeyOf(out[j]) != KeyOf(out[k]) {
      assert origin[k] in origin;
      assert FirstOccurrence(rows, origin[k]);
      assert origin[j] < origin[k];
    }
  }

  /** Deduplication empties only an empty input. */
  lemma DeduplicatedEmpty(rows: seq<TradeFields>)
    ensures Deduplicated(rows) == [] <==> rows == []
  {
    DeduplicatedKeys(rows);
    if rows != [] {
      assert KeyOf(rows[0]) in KeysIn(rows);
    }
  }

  /** `_deduplicate_trades`: a `seen` set of keys and the list of rows kept so far. */
  method DeduplicateTrades(rows: seq<TradeFields>) returns (unique: seq<TradeFields>)
    ensures unique == Deduplicated(rows)
  {
    unique := [];
    if rows != [] {
      var seen: set<TradeKey> := {};
      for k := 0 to |rows|
        invariant unique == Deduplicated(rows[..k]) && seen == KeysIn(unique)
      {
        assert rows[..k + 1][..k] == rows[..k];
        var key := KeyOf(rows[k]);
        if key !in seen {
          KeysInSnoc(unique, rows[k]);
          seen := seen + {key};
          unique := unique + [rows[k]];
        }
      }
      assert rows[..|rows|] == rows;
    }
  }

  // ----- statement sections -------------------------------------------

  /** The index of the first line at or after `from` that satisfies `p`. */
  function FirstMatch(lines: seq<string>, p: string -> bool, from: nat): (r: Option<nat>)
    ensures r.Some? ==> from <= r.value < |lines| && p(lines[r.value])
    ensures r.Some? ==> forall j :: from <= j < r.value ==> !p(lines[j])
    ensures r.None? ==> forall j :: from <= j < |lines| ==> !p(lines[j])
    decreases |lines| - from
  {
    if from >= |lines| then None
    else if p(lines[from]) then Some(from)
    else FirstMatch(lines, p, from + 1)
  }

  /** Where a section that starts at `start` ends: the first `stop` line, or the end of the text. */
  function SectionEnd(lines: seq<string>, start: nat, stop: string -> bool): nat
  {
    if start >= |lines| then start else FirstMatch(lines, stop, start).GetOr(|lines|)
  }

  /**
   * `for line in lines[start:]`, stripping each line and breaking at the
   * first line `stop` accepts.
   */
  function Section(lines: seq<string>, start: nat, stop: string -> bool): seq<string>
    decreases |lines| - start
  {
    if start >= |lines| || stop(lines[start]) then []
    else [Strip(lines[start])] + Section(lines, start + 1, stop)
  }

  /**
   * A section is the stripped lines from `start` up to the first `stop`
   * line or the end of the text; none of them is a `stop` line.
   */
  lemma {:induction false} SectionSpec(lines: seq<string>, start: nat, stop: string -> bool)
    ensures var r := Section(lines, start, stop);
      && start <= SectionEnd(lines, start, stop) && |r| == SectionEnd(lines, start, stop) - start
      && (forall i :: 0 <= i < |r| ==> r[i] == Strip(lines[start + i]) && !stop(lines[start + i]))
      && (SectionEnd(lines, start, stop) < |lines| ==> stop(lines[SectionEnd(lines, start, stop)]))
    decreases |lines| - start
  {
    if start < |lines| && !stop(lines[start]) {
      SectionSpec(lines, start + 1, stop);
      var rest := Section(lines, start + 1, stop);
      assert forall i :: 0 < i <= |rest| ==> Section(lines, start, stop)[i] == rest[i - 1];
    }
  }

  /** The marker search of the section extractors. */
  method FindFirst(lines: seq<string>, p: string -> bool) returns (r: Option<nat>)
    ensures r == FirstMatch(lines, p, 0)
  {
    var i := 0;
    while i < |lines| && !p(lines[i])
      invariant i <= |lines| && FirstMatch(lines, p, i) == FirstMatch(lines, p, 0)
    {
      i := i + 1;
    }
    r := if i < |lines| then Some(i) else None;
  }

  /** The append loop of the section extractors. */
  method CollectSection(lines: seq<string>, start: nat, stop: string -> bool) returns (section: seq<string>)
    ensures section == Section(lines, start, stop)
  {
    section := [];
    var k := start;
    while k < |lines| && !stop(lines[k])
      invariant start <= k && section + Section(lines, k, stop) == Section(lines, start, stop)
      decreases |lines| - k
    {
      section := section + [Strip(lines[k])];
      k := k + 1;
    }
  }

  predicate TradeHistoryMarker(line: string)
  {
    Contains(line, "Account Trade History")
  }

  /** A blank line, or one naming the "Equities" or "Profits" section that follows the trades. */
  predicate TradeSectionStop(line: string)
  {
    Strip(line) == [] || Contains(line, "Equities") || Contains(line, "Profits")
  }

  /** The lines `_extract_trade_section` returns. */
  function TradeSection(lines: seq<string>): seq<string>
  {
    match FirstMatch(lines, TradeHistoryMarker, 0)
    case None => []
    case Some(m) => Section(lines, m + 2, TradeSectionStop)
  }

  /**
   * `_extract_trade_section` over the text's lines: nothing without an
   * "Account Trade History" line; otherwise the section that starts two
   * lines after the first such line (skipping the column header).
   */
  method ExtractTradeSection(lines: seq<string>) returns (section: seq<string>)
    ensures section == TradeSection(lines)
  {
    var start := FindFirst(lines, TradeHistoryMarker);
    if start.None? {
      section := [];
    } else {
      section := CollectSection(lines, start.value + 2, TradeSectionStop);
    }
  }

  /** Without an "Account Trade History" line there is no section. */
  lemma NoMarkerNoSection(lines: seq<string>)
    requires forall i :: 0 <= i < |lines| ==> !TradeHistoryMarker(lines[i])
    ensures TradeSection(lines) == []
  {
  }

  /** With one, the section is read from two lines below the first such line. */
  lemma SectionAfterMarker(lines: seq<string>, m: nat)
    requires m < |lines| && TradeHistoryMarker(lines[m])
    requires forall j :: 0 <= j < m ==> !TradeHistoryMarker(lines[j])
    ensures TradeSection(lines) == Section(lines, m + 2, TradeSectionStop)
  {
    assert FirstMatch(lines, TradeHistoryMarker, 0) == Some(m);
  }

  // ----- the section parser -------------------------------------------

  /**
   * One CSV row of the trade section, read by `_parse_trade_section` and
   * turned into a trade by `_parse_statement_trade_lines`: at least twelve
   * cells; the date is the first word of cell 1 as "%m/%d/%y"; the side is
   * cell 3, the quantity the magnitude of cell 4, the symbol cell 6 and the
   * price cell 10. A cell that does not parse, an empty symbol or a side
   * other than BUY and SELL drops the row.
   */
  function SectionTrade(row: seq<string>): (r: Option<TradeFields>)
    ensures r.Some? ==> |row| >= 12
    ensures r.Some? ==> (r.value.action == "BUY" || r.value.action == "SELL") && r.value.action == Upper(Strip(row[3]))
    ensures r.Some? ==> r.value.symbol != [] && r.value.symbol == Upper(Strip(row[6]))
    ensures r.Some? ==> r.value.qty >= 0.0
    ensures r.Some? && r.value.action == "SELL" ==> r.value.amount == Notional(r.value.qty, r.value.price)
    ensures r.Some? && r.value.action == "BUY" ==> r.value.amount == -Notional(r.value.qty, r.value.price)
  {
    if |row| < 12 then None
    else
      var day := ParseDateWith(SplitOn(row[1], ' ')[0], MonthDayShortYear);
      var side := Upper(Strip(row[3]));
      var qty := ParseDecimal(row[4]);
      var symbol := Upper(Strip(row[6]));
      var price := ParseDecimal(row[10]);
      if day.None? || qty.None? || price.None? then None
      else if symbol == [] || !(side == "BUY" || side == "SELL") then None
      else
        var q := Abs(qty.value);
        SignedSides(q, price.value);
        Some(TradeFields(FormatDate(day.value), symbol, side, q, price.value, Signed(side, q, price.value)))
  }

  /** The date is written as "%Y-%m-%d". */
  lemma SectionTradeDate(row: seq<string>)
    requires SectionTrade(row).Some?
    ensures IsIsoDate(SectionTrade(row).value.date)
  {
    var d := ParseDateWith(SplitOn(row[1], ' ')[0], MonthDayShortYear).value;
    ParseFormatDate(d);
  }

  /** `qty * price`. */
  function Notional(q: real, price: real): real
  {
    q * price
  }

  /** A sale's amount is quantity times price; a buy's is its negation. */
  lemma SignedSides(q: real, price: real)
    ensures Signed("SELL", q, price) == Notional(q, price) && Signed("BUY", q, price) == -Notional(q, price)
  {
  }

  /** Each row's contribution: its trade, or nothing. */
  function SectionParts(cells: seq<seq<string>>): (parts: seq<seq<TradeFields>>)
    ensures |parts| == |cells|
    ensures forall i :: 0 <= i < |cells| ==> parts[i] == (if SectionTrade(cells[i]).Some? then [SectionTrade(cells[i]).value] else [])
  {
    seq(|cells|, i requires 0 <= i < |cells| => if SectionTrade(cells[i]).Some? then [SectionTrade(cells[i]).value] else [])
  }

  /** `_parse_statement_trade_lines` over the section's CSV rows. */
  function StatementTrades(cells: seq<seq<string>>): seq<TradeFields>
  {
    Concat(SectionParts(cells))
  }

  /**
   * The statement trades are the rows that make a trade, in row order: each
   * output comes from a row with at least twelve cells and a BUY or SELL
   * side, and every row that makes a trade is in the output.
   */
  lemma StatementTradesOrigin(cells: seq<seq<string>>) returns (origin: seq<nat>)
    ensures |origin| == |StatementTrades(cells)|
    ensures forall j :: 0 <= j < |origin| ==> origin[j] < |cells| && SectionTrade(cells[origin[j]]) == Some(StatementTrades(cells)[j])
    ensures forall j, k :: 0 <= j < k < |origin| ==> origin[j] < origin[k]
    ensures forall i :: 0 <= i < |cells| && SectionTrade(cells[i]).Some? ==> i in origin
  {
    var parts := SectionParts(cells);
    origin := ConcatOrigin(parts);
    forall i | 0 <= i < |cells| && SectionTrade(cells[i]).Some? ensures i in origin {
      assert parts[i] != [];
    }
  }

  // ----- parser order -------------------------------------------------

  /**
   * `parse_thinkorswim_csv`: the trades of the first parser that finds any,
   * in the order trade-history section, plain-text statement, statement
   * rows, data frame; deduplicated. The section parser is modelled; the
   * results of the other three are inputs.
   */
  function ParseThinkorswim(section: seq<seq<string>>, plaintext: seq<TradeFields>,
                            statementRows: seq<TradeFields>, frame: seq<TradeFields>): seq<TradeFields>
  {
    var fromSection := StatementTrades(section);
    if fromSection != [] then Deduplicated(fromSection)
    else if plaintext != [] then Deduplicated(plaintext)
    else if statementRows != [] then Deduplicated(statementRows)
    else Deduplicated(frame)
  }

  /** The parser that `parse_thinkorswim_csv` takes its trades from. */
  function ChosenSource(section: seq<seq<string>>, plaintext: seq<TradeFields>,
                        statementRows: seq<TradeFields>, frame: seq<TradeFields>): (r: seq<TradeFields>)
    ensures r == StatementTrades(section) || r == plaintext || r == statementRows || r == frame
  {
    if StatementTrades(section) != [] then StatementTrades(section)
    else if plaintext != [] then plaintext
    else if statementRows != [] then statementRows
    else frame
  }

  /**
   * The result is empty only when every parser found nothing; otherwise it
   * holds one row per distinct key of the chosen parser's trades, first
   * occurrences first.
   */
  lemma ParseThinkorswimSpec(section: seq<seq<string>>, plaintext: seq<TradeFields>,
                             statementRows: seq<TradeFields>, frame: seq<TradeFields>)
    ensures var r := ParseThinkorswim(section, plaintext, statementRows, frame);
      && (r == [] <==> StatementTrades(section) == [] && plaintext == [] && statementRows == [] && frame == [])
      && KeysIn(r) == KeysIn(ChosenSource(section, plaintext, statementRows, frame))
      && (forall j, k :: 0 <= j < k < |r| ==> KeyOf(r[j]) != KeyOf(r[k]))
  {
    var source := ChosenSource(section, plaintext, statementRows, frame);
    assert ParseThinkorswim(section, plaintext, statementRows, frame) == Deduplicated(source);
    DeduplicatedEmpty(source);
    DeduplicatedKeys(source);
    DeduplicatedDistinct(source);
  }

  /** Once the section parser finds trades, the other parsers' results do not matter. */
  lemma SectionFirst(section: seq<seq<string>>, p1: seq<TradeFields>, s1: seq<TradeFields>, f1: seq<TradeFields>,
                     p2: seq<TradeFields>, s2: seq<TradeFields>, f2: seq<TradeFields>)
    requires StatementTrades(section) != []
    ensures ParseThinkorswim(section, p1, s1, f1) == ParseThinkorswim(section, p2, s2, f2)
  {
  }

  // ----- daily profit and loss ---------------------------------------------

  /** One record handed to `compute_daily_pnl_records`. */
  datatype PnlRecord = PnlRecord(date: Date, side: string, symbol: string, quantity: real, price: real)

  /** The record as the engine reads it: side and symbol upper-cased. */
  function RecordFill(r: PnlRecord): LongOnlyPnl.Fill
  {
    LongOnlyPnl.Fill(r.date, Upper(r.side), Upper(r.symbol), r.quantity, r.price)
  }

  function RecordFills(records: seq<PnlRecord>): seq<LongOnlyPnl.Fill>
  {
    seq(|records|, i requires 0 <= i < |records| => RecordFill(records[i]))
  }

  /**
   * `compute_daily_pnl_records`: no records give an empty table; otherwise
   * the long-only engine over the records with side and symbol upper-cased.
   */
  method ComputeDailyPnlRecords(records: seq<PnlRecord>) returns (rows: seq<LongOnlyPnl.PnlRow>)
    ensures rows == LongOnlyPnl.DailyPnl(RecordFills(records))
    ensures rows == [] <==> records == []
  {
    if records == [] {
      rows := [];
      LongOnlyPnl.DailyPnlEmpty([]);
      assert RecordFills(records) == [];
      return;
    }
    var fills := RecordFills(records);
    rows := LongOnlyPnl.ComputeDailyPnl(fills);
    LongOnlyPnl.DailyPnlEmpty(fills);
  }

  /** Side and symbol are read without regard to case. */
  lemma PnlRecordsIgnoreCase(a: seq<PnlRecord>, b: seq<PnlRecord>)
    requires |a| == |b|
    requires forall i :: 0 <= i < |a| ==>
      a[i].date == b[i].date && a[i].quantity == b[i].quantity && a[i].price == b[i].price &&
      Upper(a[i].side) == Upper(b[i].side) && Upper(a[i].symbol) == Upper(b[i].symbol)
    ensures LongOnlyPnl.DailyPnl(RecordFills(a)) == LongOnlyPnl.DailyPnl(RecordFills(b))
  {
    assert RecordFills(a) == RecordFills(b);
  }
}
