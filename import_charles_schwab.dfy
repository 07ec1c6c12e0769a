/**
 * The Charles Schwab transaction-history importer
 * (`parse_charles_schwab_csv`). Headers go through the shared normaliser and
 * Schwab's own alias table; every non-blank row becomes a `values`
 * dictionary; then each row is classified: BUY, SELL and REINVEST SHARES
 * rows become trades, dividend actions and any other action with an amount
 * become dividend rows, and the rest is skipped.
 *
 * The CSV text arrives already split into rows of cells, the first row
 * being the header row.
 */
module ImportCharlesSchwab {

  import opened Common
  import opened Text
  import opened Numbers
  import opened ImportText

  // ----- headers --------------------------------------------------------

  /** `_HEADER_ALIASES.get(n)`, the table grouped by the name each header maps to. */
  function SchwabAlias(n: string): Option<string>
  {
    if n in {"date", "trade_date"} then Some("date")
    else if n in {"action", "transaction", "transaction_type", "type"} then Some("action")
    else if n in {"symbol", "ticker"} then Some("symbol")
    else if n in {"symbol_description", "symbol___description"} then Some("symbol_description")
    else if n == "description" then Some("description")
    else if n in {"quantity", "shares"} then Some("qty")
    else if n in {"price", "trade_price"} then Some("price")
    else if n in {"amount", "total", "value"} then Some("amount")
    else if n in {"fees", "fees___comm", "fees_comm", "fees_&_comm", "fees_and_comm", "fee"} then Some("fee")
    else None
  }

  /** `_canonical_header`: the normalised header, renamed when the alias table knows it. */
  function SchwabHeader(header: string): string
  {
    var n := NormalizeHeader(header);
    SchwabAlias(n).GetOr(n)
  }

  function SchwabHeaders(headers: seq<string>): (r: seq<string>)
    ensures |r| == |headers|
  {
    seq(|headers|, i requires 0 <= i < |headers| => SchwabHeader(headers[i]))
  }

  /**
   * Three keys of the table can never be looked up: the normaliser joins
   * words with single underscores and keeps no '&', so "symbol___description",
   * "fees___comm" and "fees_&_comm" are never produced.
   */
  lemma UnreachableAliases(header: string)
    ensures NormalizeHeader(header) !in {"symbol___description", "fees___comm", "fees_&_comm"}
  {
    var a, b, c := "symbol___description", "fees___comm", "fees_&_comm";
    assert !IsHeaderKey(a) by { assert a[6] == '_' && a[7] == '_'; }
    assert !IsHeaderKey(b) by { assert b[4] == '_' && b[5] == '_'; }
    assert !IsHeaderKey(c) by { assert c[5] == '&'; }
  }

  // ----- action keys ----------------------------------------------------

  /** An action key: upper-case letters and digits in words joined by single spaces. */
  predicate IsActionKey(s: string)
  {
    WordsBy(s, IsUpperAlnum, ' ')
  }

  /**
   * `_normalize_action_key`: stripped and upper-cased; empty text is no key;
   * otherwise every run of characters outside [A-Z0-9] becomes one space,
   * every run of whitespace one space, and the result is stripped.
   */
  function NormalizeActionKey(value: Option<string>): (r: Option<string>)
    ensures r.Some? ==> IsActionKey(r.value)
    ensures value.None? || Strip(value.value) == [] ==> r.None?
  {
    if value.None? then None
    else
      var text := Upper(Strip(value.value));
      if text == [] then None
      else
        ActionKeyShape(text);
        Some(Strip(SubRuns(SubRuns(text, IsUpperAlnum, " "), NotSpace, " ")))
  }

  lemma ActionKeyShape(text: string)
    ensures IsActionKey(Strip(SubRuns(SubRuns(text, IsUpperAlnum, " "), NotSpace, " ")))
  {
    var spaced := SubRuns(text, IsUpperAlnum, " ");
    SubRunsSeparated(text, IsUpperAlnum, ' ');
    SpacedWordsNotSpace(spaced);
    SubRunsNoop(spaced, NotSpace, ' ');
    assert SubRuns(spaced, NotSpace, " ") == spaced;
    StrippedWords(spaced);
  }

  lemma SpacedWordsNotSpace(s: string)
    requires SeparatedBy(s, IsUpperAlnum, ' ')
    ensures SeparatedBy(s, NotSpace, ' ')
  {
    forall i | 0 <= i < |s| ensures NotSpace(s[i]) || s[i] == ' ' {
      assert IsUpperAlnum(s[i]) || s[i] == ' ';
    }
  }

  lemma StrippedWords(s: string)
    requires SeparatedBy(s, IsUpperAlnum, ' ')
    ensures IsActionKey(Strip(s))
  {
    var r := Strip(s);
    var i, j := StripShape(s);
    forall k | 0 <= k < |r| ensures IsUpperAlnum(r[k]) || r[k] == ' ' {
      assert r[k] == s[i + k];
    }
    forall k | 0 <= k < |r| - 1 && r[k] == ' ' ensures r[k + 1] != ' ' {
      assert r[k] == s[i + k] && r[k + 1] == s[i + k + 1];
    }
  }

  /** A key in normal form is its own normalisation. */
  lemma NormalizeActionKeyNoop(key: string)
    requires IsActionKey(key) && key != []
    ensures NormalizeActionKey(Some(key)) == Some(key)
  {
    forall i | 0 <= i < |key| ensures UpperChar(key[i]) == key[i] && NotSpace(key[i]) <==> key[i] != ' ' {
    }
    StripNoop(key);
    assert Upper(key) == key;
    SubRunsNoop(key, IsUpperAlnum, ' ');
    SubRunsNoop(key, NotSpace, ' ');
  }

  /** Case does not matter to the key. */
  lemma NormalizeActionKeyIgnoresCase(value: string)
    ensures NormalizeActionKey(Some(Upper(value))) == NormalizeActionKey(Some(value))
  {
    StripUpper(value);
    assert Upper(Upper(Strip(value))) == Upper(Strip(value));
  }

  /** `_TRADE_ACTIONS.get(key)`: REINVEST SHARES is booked as a buy. */
  function TradeAction(key: string): (r: Option<string>)
    ensures r.Some? ==> r.value == "BUY" || r.value == "SELL"
  {
    if key == "BUY" || key == "REINVEST SHARES" then Some("BUY")
    else if key == "SELL" then Some("SELL")
    else None
  }

  predicate IsDividendAction(key: string)
  {
    key in {"BANK INTEREST", "CASH DIVIDEND", "QUAL DIV REINVEST", "QUALIFIED DIVIDEND", "REINVEST DIVIDEND"}
  }

  predicate IsIgnoredAction(key: string)
  {
    key == "MONEYLINK TRANSFER"
  }

  // ----- action labels ----------------------------------------------------

  /** `part.upper()` for a word of at most three characters, `part.capitalize()` otherwise. */
  function FormatWord(w: string): (r: string)
    ensures |r| == |w|
    ensures forall i :: 0 <= i < |w| ==>
      r[i] == if |w| <= 3 || i == 0 then UpperChar(w[i]) else LowerChar(w[i])
  {
    if |w| <= 3 then Upper(w) else [UpperChar(w[0])] + Lower(w[1..])
  }

  function FormatWords(ws: seq<string>): (r: seq<string>)
    ensures |r| == |ws|
    ensures forall i :: 0 <= i < |ws| ==> r[i] == FormatWord(ws[i])
  {
    seq(|ws|, i requires 0 <= i < |ws| => FormatWord(ws[i]))
  }

  /** `_format_action_label`: the key's non-empty words, each formatted, joined by single spaces. */
  function FormatActionLabel(key: string): string
  {
    Join(FormatWords(NonEmpty(SplitOn(key, ' '))), " ")
  }

  lemma FormatWordNoSpace(w: string)
    requires ' ' !in w
    ensures ' ' !in FormatWord(w)
  {
    var r := FormatWord(w);
    forall i | 0 <= i < |r| ensures r[i] != ' ' {
      assert w[i] != ' ';
    }
  }

  /** The label's words are the key's non-empty words, each formatted. */
  lemma FormatActionLabelWords(key: string)
    requires NonEmpty(SplitOn(key, ' ')) != []
    ensures SplitOn(FormatActionLabel(key), ' ') == FormatWords(NonEmpty(SplitOn(key, ' ')))
  {
    var ws := NonEmpty(SplitOn(key, ' '));
    var fs := FormatWords(ws);
    forall i | 0 <= i < |fs| ensures ' ' !in fs[i] {
      assert ws[i] in SplitOn(key, ' ');
      FormatWordNoSpace(ws[i]);
    }
    SplitOnJoin(fs, ' ');
  }

  /** Upper-casing the label gives the key back: formatting changes case only. */
  lemma FormatActionLabelUpper(key: string)
    requires IsActionKey(key)
    ensures Upper(FormatActionLabel(key)) == key
  {
    var parts := SplitOn(key, ' ');
    if key == [] {
      assert parts == [[]];
    } else {
      WordsByParts(key, IsUpperAlnum, ' ');
      NonEmptyNoop(parts);
      var fs := FormatWords(parts);
      forall i | 0 <= i < |parts| ensures Upper(fs[i]) == parts[i] {
        FormatWordUpper(parts[i]);
      }
      UpperJoin(fs, parts, " ");
      JoinSplitOn(key, ' ');
    }
  }

  lemma FormatWordUpper(w: string)
    requires AllKept(w, IsUpperAlnum)
    ensures Upper(FormatWord(w)) == w
  {
    var r := FormatWord(w);
    var u := Upper(r);
    forall k | 0 <= k < |w| ensures u[k] == w[k] {
      var c := w[k];
      assert IsUpperAlnum(c);
      assert r[k] == UpperChar(c) || r[k] == LowerChar(c);
      CapitalCase(c);
    }
  }

  /** A capital or a digit comes back from either case by upper-casing. */
  lemma CapitalCase(c: char)
    requires IsUpperAlnum(c)
    ensures UpperChar(LowerChar(c)) == c && UpperChar(UpperChar(c)) == c
  {
  }

  /** The dividend label the sample file shows. */
  lemma CashDividendLabel(key: string)
    requires key == "CASH DIVIDEND"
    ensures FormatActionLabel(key) == "Cash Dividend"
  {
    var cash, dividend := "CASH", "DIVIDEND";
    CashDividendWords(key, cash, dividend);
    TwoWordLabel(key, cash, dividend);
    CashWord();
    DividendWord();
    assert FormatActionLabel(key) == "Cash" + " " + "Dividend";
    CashDividendJoined();
  }

  lemma TwoWordLabel(key: string, a: string, b: string)
    requires SplitOn(key, ' ') == [a, b] && a != [] && b != []
    ensures FormatActionLabel(key) == FormatWord(a) + " " + FormatWord(b)
  {
    NonEmptyNoop([a, b]);
    var fs := FormatWords([a, b]);
    assert fs == [FormatWord(a), FormatWord(b)];
    assert fs[1..] == [FormatWord(b)];
    assert NonEmpty(SplitOn(key, ' ')) == [a, b];
    assert FormatActionLabel(key) == Join(fs, " ");
    assert Join(fs[1..], " ") == FormatWord(b);
    assert Join(fs, " ") == FormatWord(a) + " " + FormatWord(b);
  }

  lemma CashDividendWords(key: string, a: string, b: string)
    requires key == "CASH DIVIDEND" && a == "CASH" && b == "DIVIDEND"
    ensures SplitOn(key, ' ') == [a, b]
  {
    assert a + [' '] + b == key;
    assert ' ' !in b;
    SplitOnFirst(a, ' ', b);
  }

  lemma CashWord()
    ensures FormatWord("CASH") == "Cash"
  {
    assert "CASH"[1..] == "ASH";
    assert Lower("ASH") == "ash";
  }

  lemma DividendWord()
    ensures FormatWord("DIVIDEND") == "Dividend"
  {
    var w, r := "DIVIDEND", FormatWord("DIVIDEND");
    forall i | 0 <= i < |w| ensures r[i] == "Dividend"[i] {
      assert r[i] == if i == 0 then UpperChar(w[i]) else LowerChar(w[i]);
    }
  }

  lemma CashDividendJoined()
    ensures "Cash" + " " + "Dividend" == "Cash Dividend"
  {
  }

  // ----- symbols and descriptions ---------------------------------------

  /** `_normalize_description`: stripped, every run of whitespace one space. */
  function NormalizeDescription(value: Option<string>): (r: string)
    ensures WordsBy(r, NotSpace, ' ')
  {
    if value.None? || value.value == [] then []
    else
      DescriptionShape(value.value);
      SubRuns(Strip(value.value), NotSpace, " ")
  }

  lemma DescriptionShape(text: string)
    ensures WordsBy(SubRuns(Strip(text), NotSpace, " "), NotSpace, ' ')
  {
    var s := Strip(text);
    SubRunsSeparated(s, NotSpace, ' ');
    if s != [] {
      var _, _ := StripShape(text);
      SubRunsLast(s, NotSpace, " ");
    }
  }

  /** Text already in that form is left unchanged. */
  lemma NormalizeDescriptionNoop(text: string)
    requires WordsBy(text, NotSpace, ' ')
    ensures NormalizeDescription(Some(text)) == text
  {
    if text != [] {
      StripNoop(text);
      SubRunsNoop(text, NotSpace, ' ');
    }
  }

  /**
   * `_split_symbol_description`: the stripped text is split at runs of
   * whitespace; the sanitised first piece is the symbol and the other
   * non-empty pieces, joined by single spaces, the description.
   */
  function SplitSymbolDescription(value: Option<string>): (r: (string, string))
    ensures forall i :: 0 <= i < |r.0| ==> IsSymbolChar(r.0[i])
  {
    if value.None? || value.value == [] then ([], [])
    else
      var text := Strip(value.value);
      if text == [] then ([], [])
      else
        var parts := SplitOn(SubRuns(text, NotSpace, " "), ' ');
        (SanitizeSymbol(parts[0]), Join(NonEmpty(Stripped(parts[1..])), " "))
  }

  function Stripped(parts: seq<string>): (r: seq<string>)
    ensures |r| == |parts|
    ensures forall i :: 0 <= i < |parts| ==> r[i] == Strip(parts[i])
  {
    seq(|parts|, i requires 0 <= i < |parts| => Strip(parts[i]))
  }

  /** On words separated by single spaces, the first word is the symbol and the rest, as they are, the description. */
  lemma SplitSymbolDescriptionWords(text: string)
    requires WordsBy(text, NotSpace, ' ') && text != []
    ensures SplitSymbolDescription(Some(text)) == (SanitizeSymbol(SplitOn(text, ' ')[0]), Join(SplitOn(text, ' ')[1..], " "))
  {
    StripNoop(text);
    SubRunsNoop(text, NotSpace, ' ');
    var parts := SplitOn(text, ' ');
    WordsByParts(text, NotSpace, ' ');
    var rest := parts[1..];
    forall i | 0 <= i < |rest| ensures Strip(rest[i]) == rest[i] {
      assert rest[i] == parts[i + 1];
      assert AllKept(rest[i], NotSpace);
      StripNoop(rest[i]);
    }
    assert Stripped(rest) == rest;
    NonEmptyNoop(rest);
  }

  /**
   * The symbol and description a row ends with (`parse_charles_schwab_csv`,
   * the symbol lines): the "symbol" and "description" columns win; the
   * combined "symbol_description" column fills in whichever came out empty.
   */
  function SymbolAndDescription(symbolCell: Option<string>, descriptionCell: Option<string>, combined: Option<string>): (r: (string, string))
    ensures forall i :: 0 <= i < |r.0| ==> IsSymbolChar(r.0[i])
    ensures SanitizeSymbol(symbolCell.GetOr("")) != [] ==> r.0 == SanitizeSymbol(symbolCell.GetOr(""))
    ensures SanitizeSymbol(symbolCell.GetOr("")) == [] ==>
      r.0 == (if combined.Some? && combined.value != [] then SplitSymbolDescription(combined).0 else [])
    ensures NormalizeDescription(descriptionCell) != [] ==> r.1 == NormalizeDescription(descriptionCell)
    ensures NormalizeDescription(descriptionCell) == [] ==>
      r.1 == (if combined.Some? && combined.value != [] then NormalizeDescription(Some(SplitSymbolDescription(combined).1)) else [])
  {
    var symbol := SanitizeSymbol(symbolCell.GetOr(""));
    var description := NormalizeDescription(descriptionCell);
    var hasCombined := combined.Some? && combined.value != [];
    if symbol == [] && hasCombined then
      var (altSymbol, altDescription) := SplitSymbolDescription(combined);
      (if altSymbol != [] then altSymbol else symbol,
       if description == [] && altDescription != [] then NormalizeDescription(Some(altDescription)) else description)
    else if symbol != [] && description == [] && hasCombined then
      var (_, altDescription) := SplitSymbolDescription(combined);
      (symbol, if altDescription != [] then NormalizeDescription(Some(altDescription)) else description)
    else
      (symbol, description)
  }

  // ----- one row --------------------------------------------------------

  /** A row's fields as the parsing helpers read them; qty, price and fee are 0.0 when missing. */
  datatype SchwabRow = SchwabRow(date: Option<string>, key: Option<string>, symbol: string, description: string,
                                 qty: real, price: real, fee: real, amount: Option<real>)

  function ParseSchwabRow(values: map<string, string>): (r: SchwabRow)
    ensures r.date.Some? ==> IsIsoDate(r.date.value)
    ensures r.key.Some? ==> IsActionKey(r.key.value)
  {
    var sd := SymbolAndDescription(Get(values, "symbol"), Get(values, "description"), Get(values, "symbol_description"));
    SchwabRow(ParseImportDate(Get(values, "date")), NormalizeActionKey(Get(values, "action")), sd.0, sd.1,
              ParseNumber(CellValue(Get(values, "qty"))).GetOr(0.0),
              ParseNumber(CellValue(Get(values, "price"))).GetOr(0.0),
              ParseNumber(CellValue(Get(values, "fee"))).GetOr(0.0),
              ParseNumber(CellValue(Get(values, "amount"))))
  }

  /** A trade row of the export; `time` is always "". */
  datatype SchwabTrade = SchwabTrade(date: string, symbol: string, action: string, qty: real, price: real,
                                     amount: real, fee: real, time: string)

  /** A dividend row (or an unknown action kept visible); `time` is always "". */
  datatype SchwabDividend = SchwabDividend(date: string, symbol: string, description: string, action: string,
                                           qty: real, price: real, fee: real, amount: real, time: string)

  /** What one row contributes. */
  datatype Entry = Skipped | TradeEntry(trade: SchwabTrade) | DividendEntry(dividend: SchwabDividend)

  function DividendOf(r: SchwabRow, date: string, key: string, amount: real): SchwabDividend
  {
    SchwabDividend(date, r.symbol, r.description, FormatActionLabel(key), r.qty, r.price, Abs(r.fee), amount, "")
  }

  /** The classification in `parse_charles_schwab_csv`. */
  function Classify(r: SchwabRow): Entry
  {
    if r.date.None? || r.key.None? || r.key.value == [] || IsIgnoredAction(r.key.value) then Skipped
    else
      var key := r.key.value;
      if TradeAction(key).Some? then
        if r.qty == 0.0 then Skipped
        else
          var action := TradeAction(key).value;
          var q := Abs(r.qty);
          var price := if r.price == 0.0 && r.amount.Some? then PerUnit(r.amount.value, q) else r.price;
          var amount := if r.amount.None? && price != 0.0 then Some(Signed(action, q, price)) else r.amount;
          if amount.None? || price == 0.0 then Skipped
          else TradeEntry(SchwabTrade(r.date.value, r.symbol, action, q, price, amount.value, Abs(r.fee), ""))
      else if IsDividendAction(key) then
        if r.amount.None? then Skipped
        else DividendEntry(DividendOf(r, r.date.value, key, r.amount.value))
      else if r.amount.Some? then DividendEntry(DividendOf(r, r.date.value, key, r.amount.value))
      else Skipped
  }

  /** Rows without a date, without an action, or with an ignored action are skipped. */
  lemma ClassifySkipped(r: SchwabRow)
    requires r.date.None? || r.key.None? || r.key.value == [] || IsIgnoredAction(r.key.value)
    ensures Classify(r) == Skipped
  {
  }

  /**
   * A trade action with a date is dropped exactly when its quantity is 0,
   * or its price is 0 and its amount is missing or 0.
   */
  lemma ClassifyTradeSkipped(r: SchwabRow)
    requires r.date.Some? && r.key.Some? && TradeAction(r.key.value).Some?
    ensures Classify(r).Skipped? <==> r.qty == 0.0 || (r.price == 0.0 && r.amount in {None, Some(0.0)})
  {
    if r.qty != 0.0 && r.price == 0.0 && r.amount.Some? && r.amount.value != 0.0 {
      assert PerUnit(r.amount.value, Abs(r.qty)) > 0.0;
    }
  }

  /**
   * What a trade holds: the mapped action (REINVEST SHARES is a buy),
   * |qty| > 0, |fee|, a non-zero price, the file's price and amount when
   * present, a derived price times qty giving |amount| back, and a derived
   * amount negative for a buy at a positive price.
   */
  lemma ClassifyTrade(r: SchwabRow)
    requires Classify(r).TradeEntry?
    ensures var t := Classify(r).trade;
      && r.date == Some(t.date) && r.key.Some?
      && t.action == TradeAction(r.key.value).value
      && t.action == (if r.key.value == "SELL" then "SELL" else "BUY")
      && t.symbol == r.symbol && t.time == ""
      && t.qty == Abs(r.qty) > 0.0 && t.fee == Abs(r.fee) >= 0.0
      && t.price != 0.0
      && (r.price != 0.0 ==> t.price == r.price)
      && (r.amount.Some? ==> t.amount == r.amount.value)
      && (r.price == 0.0 ==> t.price * t.qty == Abs(t.amount))
      && (r.amount.None? ==> t.amount == Direction(t.action) * t.qty * t.price
                             && (t.price > 0.0 ==> (t.action == "BUY" <==> t.amount < 0.0)))
  {
  }

  /**
   * A dated row whose action is neither a trade nor ignored becomes a
   * dividend row exactly when it has an amount, labelled with the formatted
   * action; dividend actions and unknown actions are treated alike.
   */
  lemma ClassifyDividend(r: SchwabRow)
    requires r.date.Some? && r.key.Some? && r.key.value != []
    requires TradeAction(r.key.value).None? && !IsIgnoredAction(r.key.value)
    ensures Classify(r).DividendEntry? <==> r.amount.Some?
    ensures Classify(r).DividendEntry? ==>
      var d := Classify(r).dividend;
      && d.date == r.date.value && d.symbol == r.symbol && d.description == r.description
      && d.action == FormatActionLabel(r.key.value)
      && (IsActionKey(r.key.value) ==> Upper(d.action) == r.key.value)
      && d.qty == r.qty && d.price == r.price && d.fee == Abs(r.fee) && d.amount == r.amount.value
  {
    if IsActionKey(r.key.value) {
      FormatActionLabelUpper(r.key.value);
    }
  }

  /** The `parse_charles_schwab_csv` classification step, reassigning price and amount as the source does. */
  method ClassifyRow(values: map<string, string>) returns (entry: Entry)
    ensures entry == Classify(ParseSchwabRow(values))
  {
    var r := ParseSchwabRow(values);
    if r.date.None? {
      return Skipped;
    }
    if r.key.None? || r.key.value == [] || IsIgnoredAction(r.key.value) {
      return Skipped;
    }
    var key := r.key.value;
    if TradeAction(key).Some? {
      if r.qty == 0.0 {
        return Skipped;
      }
      var action := TradeAction(key).value;
      var q := Abs(r.qty);
      var price := r.price;
      var amount := r.amount;
      if price == 0.0 && amount.Some? {
        price := PerUnit(amount.value, q);
      }
      if amount.None? && price != 0.0 {
        amount := Some(Signed(action, q, price));
      }
      if amount.None? || price == 0.0 {
        return Skipped;
      }
      return TradeEntry(SchwabTrade(r.date.value, r.symbol, action, q, price, amount.value, Abs(r.fee), ""));
    }
    if IsDividendAction(key) {
      if r.amount.None? {
        return Skipped;
      }
      return DividendEntry(DividendOf(r, r.date.value, key, r.amount.value));
    }
    if r.amount.Some? {
      return DividendEntry(DividendOf(r, r.date.value, key, r.amount.value));
    }
    return Skipped;
  }

  // ----- the whole file -----------------------------------------------------

  /** The `values` dictionaries of the non-blank data rows, in order (the first loop). */
  function RowDicts(headers: seq<string>, raws: seq<seq<string>>): (rows: seq<map<string, string>>)
    ensures |rows| <= |raws|
    decreases |raws|
  {
    if raws == [] then []
    else
      var n := |raws| - 1;
      RowDicts(headers, raws[..n]) + (if IsBlankRow(raws[n]) then [] else [RowValues(headers, raws[n])])
  }

  function Classified(rows: seq<map<string, string>>): (es: seq<Entry>)
    ensures |es| == |rows|
  {
    seq(|rows|, i requires 0 <= i < |rows| => Classify(ParseSchwabRow(rows[i])))
  }

  /** The trades among the entries, in order. */
  function TradesOf(es: seq<Entry>): (r: seq<SchwabTrade>)
    ensures |r| <= |es|
    decreases |es|
  {
    if es == [] then []
    else TradesOf(es[..|es| - 1]) + (if es[|es| - 1].TradeEntry? then [es[|es| - 1].trade] else [])
  }

  /** The dividend rows among the entries, in order. */
  function DividendsOf(es: seq<Entry>): (r: seq<SchwabDividend>)
    ensures |r| <= |es|
    decreases |es|
  {
    if es == [] then []
    else DividendsOf(es[..|es| - 1]) + (if es[|es| - 1].DividendEntry? then [es[|es| - 1].dividend] else [])
  }

  /** `parse_charles_schwab_csv` on a table whose first row is the header row. */
  function SchwabCsv(table: seq<seq<string>>): (seq<SchwabTrade>, seq<SchwabDividend>)
  {
    if table == [] then ([], [])
    else
      var es := Classified(RowDicts(SchwabHeaders(table[0]), table[1..]));
      (TradesOf(es), DividendsOf(es))
  }

  /** Each row lands in at most one of the two lists. */
  lemma {:induction false} EntriesSplit(es: seq<Entry>)
    ensures |TradesOf(es)| + |DividendsOf(es)| <= |es|
    decreases |es|
  {
    if es != [] {
      EntriesSplit(es[..|es| - 1]);
    }
  }

  /** A trade the importer emits is dated, has |qty| > 0, a non-negative fee and a non-zero price. */
  predicate WellFormedTrade(t: SchwabTrade)
  {
    IsIsoDate(t.date) && (t.action == "BUY" || t.action == "SELL") && t.qty > 0.0 && t.fee >= 0.0 && t.price != 0.0
  }

  lemma TradesWellFormed(rows: seq<map<string, string>>)
    ensures forall j :: 0 <= j < |TradesOf(Classified(rows))| ==> WellFormedTrade(TradesOf(Classified(rows))[j])
  {
    var es := Classified(rows);
    forall i | 0 <= i < |es| && es[i].TradeEntry? ensures WellFormedTrade(es[i].trade) {
      ClassifyTrade(ParseSchwabRow(rows[i]));
    }
    EntryTradesWellFormed(es);
  }

  /** The trades picked out of well-formed trade entries are well formed. */
  lemma {:induction false} EntryTradesWellFormed(es: seq<Entry>)
    requires forall i :: 0 <= i < |es| && es[i].TradeEntry? ==> WellFormedTrade(es[i].trade)
    ensures forall j :: 0 <= j < |TradesOf(es)| ==> WellFormedTrade(TradesOf(es)[j])
    decreases |es|
  {
    if es != [] {
      var n := |es| - 1;
      var init := es[..n];
      assert forall i :: 0 <= i < n ==> init[i] == es[i];
      EntryTradesWellFormed(init);
    }
  }

  /** Every trade of a Schwab export is well formed, and no row is counted twice. */
  lemma SchwabCsvWellFormed(table: seq<seq<string>>)
    ensures var (trades, dividends) := SchwabCsv(table);
      && |trades| + |dividends| <= (if table == [] then 0 else |table| - 1)
      && forall j :: 0 <= j < |trades| ==> WellFormedTrade(trades[j])
  {
    if table != [] {
      var rows := RowDicts(SchwabHeaders(table[0]), table[1..]);
      EntriesSplit(Classified(rows));
      TradesWellFormed(rows);
    }
  }

  lemma EntriesStep(es: seq<Entry>, k: nat)
    requires k < |es|
    ensures TradesOf(es[..k + 1]) == TradesOf(es[..k]) + (if es[k].TradeEntry? then [es[k].trade] else [])
    ensures DividendsOf(es[..k + 1]) == DividendsOf(es[..k]) + (if es[k].DividendEntry? then [es[k].dividend] else [])
  {
    assert es[..k + 1][..k] == es[..k];
  }

  /**
   * The sample export of the importer's tests, as its five rows read: a buy,
   * a sale, a share reinvestment, a cash dividend and a MoneyLink transfer
   * give three trades and one dividend row.
   */
  lemma SampleExport(buy: SchwabRow, sell: SchwabRow, reinvest: SchwabRow, dividend: SchwabRow, transfer: SchwabRow)
    requires buy == SchwabRow(Some("2025-10-27"), Some("BUY"), "CODX", "CO-DIAGNOSTICS INC", 100.0, 1.25, 0.12, Some(-125.12))
    requires sell == SchwabRow(Some("2025-10-27"), Some("SELL"), "CODX", "CO-DIAGNOSTICS INC", 50.0, 1.40, 0.05, Some(69.95))
    requires reinvest == SchwabRow(Some("2025-10-28"), Some("REINVEST SHARES"), "GDXY", "YIELDMAX GOLD", 10.0, 1.00, 0.0, Some(-10.0))
    requires dividend == SchwabRow(Some("2025-10-27"), Some("CASH DIVIDEND"), "GDXY", "YIELDMAX GOLD", 0.0, 0.0, 0.0, Some(43.41))
    requires transfer == SchwabRow(Some("2025-10-27"), Some("MONEYLINK TRANSFER"), "", "", 0.0, 0.0, 0.0, Some(-1000.0))
    ensures var es := [Classify(buy), Classify(sell), Classify(reinvest), Classify(dividend), Classify(transfer)];
      && |TradesOf(es)| == 3 && |DividendsOf(es)| == 1
      && TradesOf(es)[0] == SchwabTrade("2025-10-27", "CODX", "BUY", 100.0, 1.25, -125.12, 0.12, "")
      && TradesOf(es)[1].action == "SELL" && TradesOf(es)[1].amount == 69.95
      && TradesOf(es)[2].action == "BUY" && TradesOf(es)[2].qty == 10.0 && TradesOf(es)[2].amount == -10.0
      && DividendsOf(es)[0].symbol == "GDXY" && DividendsOf(es)[0].amount == 43.41
      && DividendsOf(es)[0].action == "Cash Dividend"
  {
    var t1 := SchwabTrade("2025-10-27", "CODX", "BUY", 100.0, 1.25, -125.12, 0.12, "");
    var t2 := SchwabTrade("2025-10-27", "CODX", "SELL", 50.0, 1.40, 69.95, 0.05, "");
    var t3 := SchwabTrade("2025-10-28", "GDXY", "BUY", 10.0, 1.00, -10.0, 0.0, "");
    assert Classify(buy) == TradeEntry(t1);
    assert Classify(sell) == TradeEntry(t2);
    assert Classify(reinvest) == TradeEntry(t3);
    var d := SampleDividend(dividend);
    assert Classify(transfer) == Skipped;
    SampleLists(TradeEntry(t1), TradeEntry(t2), TradeEntry(t3), DividendEntry(d), Skipped);
  }

  lemma SampleDividend(r: SchwabRow) returns (d: SchwabDividend)
    requires r == SchwabRow(Some("2025-10-27"), Some("CASH DIVIDEND"), "GDXY", "YIELDMAX GOLD", 0.0, 0.0, 0.0, Some(43.41))
    ensures Classify(r) == DividendEntry(d)
    ensures d.symbol == "GDXY" && d.amount == 43.41 && d.action == "Cash Dividend"
  {
    var key := r.key.value;
    assert TradeAction(key).None? && !IsIgnoredAction(key) && IsDividendAction(key);
    CashDividendLabel(key);
    d := DividendOf(r, r.date.value, key, r.amount.value);
    assert d.action == "Cash Dividend";
  }

  lemma SampleLists(e1: Entry, e2: Entry, e3: Entry, e4: Entry, e5: Entry)
    requires e1.TradeEntry? && e2.TradeEntry? && e3.TradeEntry? && e4.DividendEntry? && e5.Skipped?
    ensures TradesOf([e1, e2, e3, e4, e5]) == [e1.trade, e2.trade, e3.trade]
    ensures DividendsOf([e1, e2, e3, e4, e5]) == [e4.dividend]
  {
    var es := [e1, e2, e3, e4, e5];
    assert es[..0] == [];
    EntriesStep(es, 0);
    EntriesStep(es, 1);
    EntriesStep(es, 2);
    EntriesStep(es, 3);
    EntriesStep(es, 4);
    assert es[..5] == es;
  }

  /** The `canonical_headers` loop. */
  method CanonicalizeSchwabHeaders(headers: seq<string>) returns (canonical: seq<string>)
    ensures canonical == SchwabHeaders(headers)
  {
    canonical := [];
    for i := 0 to |headers|
      invariant canonical == SchwabHeaders(headers[..i])
    {
      canonical := canonical + [SchwabHeader(headers[i])];
    }
    assert headers[..|headers|] == headers;
  }

  /** The first loop: the `values` dictionary of every non-blank row. */
  method CollectRowDicts(headers: seq<string>, raws: seq<seq<string>>) returns (rows: seq<map<string, string>>)
    ensures rows == RowDicts(headers, raws)
  {
    rows := [];
    for k := 0 to |raws|
      invariant rows == RowDicts(headers, raws[..k])
    {
      assert raws[..k + 1][..k] == raws[..k];
      if !IsBlankRow(raws[k]) {
        rows := rows + [RowValues(headers, raws[k])];
      }
    }
    assert raws[..|raws|] == raws;
  }

  /** The second loop: each row classified and appended to its list. */
  method ClassifyRows(rows: seq<map<string, string>>) returns (trades: seq<SchwabTrade>, dividends: seq<SchwabDividend>)
    ensures trades == TradesOf(Classified(rows)) && dividends == DividendsOf(Classified(rows))
  {
    trades, dividends := [], [];
    ghost var es := Classified(rows);
    for k := 0 to |rows|
      invariant trades == TradesOf(es[..k]) && dividends == DividendsOf(es[..k])
    {
      var entry := ClassifyRow(rows[k]);
      assert es[k] == entry;
      EntriesStep(es, k);
      match entry
      case TradeEntry(t) => trades := trades + [t];
      case DividendEntry(d) => dividends := dividends + [d];
      case Skipped =>
    }
    assert es[..|rows|] == es;
  }

  /** `parse_charles_schwab_csv` on a table whose first row is the header row. */
  method ParseSchwabCsv(table: seq<seq<string>>) returns (trades: seq<SchwabTrade>, dividends: seq<SchwabDividend>)
    ensures (trades, dividends) == SchwabCsv(table)
  {
    if table == [] {
      return [], [];
    }
    var headers := CanonicalizeSchwabHeaders(table[0]);
    var rows := CollectRowDicts(headers, table[1..]);
    trades, dividends := ClassifyRows(rows);
  }
}
