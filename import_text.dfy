/**
 * Text normalisers shared by the CSV importers. The trade, Schwab and
 * thinkorswim importers each carry the same `_normalize_header` and
 * `_sanitize_symbol`; the BagHolder importer's header normaliser lacks the
 * "#" rule; the trade, Schwab and BagHolder importers share `_parse_date`,
 * and the trade and Schwab importers build a row's `values` dictionary and
 * fill a missing price or amount the same way. Each is defined once here.
 */
module ImportText {

  import opened Common
  import opened Text
  import opened Dates
  import opened Numbers

  // ----- headers --------------------------------------------------------

  /** A header in normal form: lower-case letters and digits, words joined by single underscores. */
  predicate IsHeaderKey(s: string)
  {
    && SeparatedBy(s, IsLowerAlnum, '_')
    && (s == [] || (s[0] != '_' && s[|s| - 1] != '_'))
  }

  /** `re.sub(r"[^a-z0-9]+", "_", text).strip("_")`. */
  function Underscored(text: string): (r: string)
    ensures IsHeaderKey(r)
  {
    UnderscoredShape(text);
    StripChar(SubRuns(text, IsLowerAlnum, "_"), '_')
  }

  lemma UnderscoredShape(text: string)
    ensures IsHeaderKey(StripChar(SubRuns(text, IsLowerAlnum, "_"), '_'))
  {
    var joined := SubRuns(text, IsLowerAlnum, "_");
    var r := StripChar(joined, '_');
    SubRunsSeparated(text, IsLowerAlnum, '_');
    var i, j := StripCharShape(joined, '_');
    forall k | 0 <= k < |r| ensures IsLowerAlnum(r[k]) || r[k] == '_' {
      assert r[k] == joined[i + k];
    }
    forall k | 0 <= k < |r| - 1 && r[k] == '_' ensures r[k + 1] != '_' {
      assert r[k] == joined[i + k] && r[k + 1] == joined[i + k + 1];
    }
  }

  /** A header already in normal form passes through `Underscored` unchanged. */
  lemma UnderscoredNoop(s: string)
    requires IsHeaderKey(s)
    ensures Underscored(s) == s
  {
    SubRunsNoop(s, IsLowerAlnum, '_');
    StripCharNoop(s, '_');
  }

  /** A header in normal form has no whitespace, no capitals and no '#'. */
  lemma HeaderKeyPlain(s: string)
    requires IsHeaderKey(s)
    ensures Strip(s) == s && Lower(s) == s && '#' !in s
  {
    forall i | 0 <= i < |s| ensures !IsSpace(s[i]) && LowerChar(s[i]) == s[i] && s[i] != '#' {
      assert IsLowerAlnum(s[i]) || s[i] == '_';
    }
    StripNoop(s);
  }

  /**
   * `_normalize_header` of the trade, Schwab and thinkorswim importers:
   * strip, lower-case, "#" becomes "number", every run of other characters
   * becomes one "_", and underscores at either end are dropped.
   */
  function NormalizeHeader(header: string): (r: string)
    ensures IsHeaderKey(r)
  {
    Underscored(ReplaceChar(Lower(Strip(header)), '#', "number"))
  }

  /** `_normalize_header` of the BagHolder importer: the same without the "#" rule. */
  function NormalizeHeaderPlain(header: string): (r: string)
    ensures IsHeaderKey(r)
  {
    Underscored(Lower(Strip(header)))
  }

  /** A single word of letters and digits normalises to its lower-case form. */
  lemma HeaderWord(a: string)
    requires AllKept(Lower(a), IsLowerAlnum)
    ensures NormalizeHeaderPlain(a) == Lower(a)
  {
    var l := Lower(a);
    assert forall i :: 0 <= i < |a| ==> !IsSpace(a[i]) by {
      forall i | 0 <= i < |a| ensures !IsSpace(a[i]) {
        assert IsLowerAlnum(l[i]);
      }
    }
    StripNoop(a);
    SubRunsKeepAll(l, IsLowerAlnum, "_");
    StripCharNoop(l, '_');
  }

  /** Two such words separated by a space normalise to their lower-case forms joined by "_". */
  lemma HeaderWords(a: string, b: string)
    requires a != [] && b != []
    requires AllKept(Lower(a), IsLowerAlnum) && AllKept(Lower(b), IsLowerAlnum)
    ensures NormalizeHeaderPlain(a + " " + b) == Lower(a) + "_" + Lower(b)
  {
    LowerWords(a, b);
    UnderscoredWords(Lower(a), Lower(b));
  }

  lemma LowerWords(a: string, b: string)
    requires a != [] && b != []
    requires AllKept(Lower(a), IsLowerAlnum) && AllKept(Lower(b), IsLowerAlnum)
    ensures Lower(Strip(a + " " + b)) == Lower(a) + " " + Lower(b)
  {
    var s := a + " " + b;
    EndsNotSpace(a, b);
    StripNoop(s);
    LowerConcat3(a, " ", b);
  }

  lemma EndsNotSpace(a: string, b: string)
    requires a != [] && b != []
    requires AllKept(Lower(a), IsLowerAlnum) && AllKept(Lower(b), IsLowerAlnum)
    ensures var s := a + " " + b; !IsSpace(s[0]) && !IsSpace(s[|s| - 1])
  {
    assert IsLowerAlnum(Lower(a)[0]);
    assert IsLowerAlnum(Lower(b)[|b| - 1]);
  }

  lemma LowerConcat3(a: string, m: string, b: string)
    ensures Lower(a + m + b) == Lower(a) + Lower(m) + Lower(b)
  {
    LowerConcat(a, m);
    LowerConcat(a + m, b);
  }

  lemma UnderscoredWords(la: string, lb: string)
    requires la != [] && lb != []
    requires AllKept(la, IsLowerAlnum) && AllKept(lb, IsLowerAlnum)
    ensures Underscored(la + " " + lb) == la + "_" + lb
  {
    SubRunsWordGap(la, ' ', lb, IsLowerAlnum, "_");
    SubRunsKeepAll(lb, IsLowerAlnum, "_");
    assert la + [' '] + lb == la + " " + lb;
    StripCharNoop(la + "_" + lb, '_');
  }

  /** Normalising a normalised header changes nothing. */
  lemma NormalizeHeaderIdempotent(header: string)
    ensures NormalizeHeader(NormalizeHeader(header)) == NormalizeHeader(header)
  {
    var s := NormalizeHeader(header);
    HeaderKeyPlain(s);
    UnderscoredNoop(s);
  }

  lemma NormalizeHeaderPlainIdempotent(header: string)
    ensures NormalizeHeaderPlain(NormalizeHeaderPlain(header)) == NormalizeHeaderPlain(header)
  {
    var s := NormalizeHeaderPlain(header);
    HeaderKeyPlain(s);
    UnderscoredNoop(s);
  }

  /** The two normalisers differ only on labels holding a '#'. */
  lemma NormalizeHeaderWithoutHash(header: string)
    requires '#' !in header
    ensures NormalizeHeader(header) == NormalizeHeaderPlain(header)
  {
    var i, j := StripShape(header);
    assert '#' !in Lower(Strip(header)) by {
      forall k | 0 <= k < |Strip(header)| ensures LowerChar(Strip(header)[k]) != '#' {
        assert Strip(header)[k] == header[i + k];
      }
    }
  }

  // ----- symbols --------------------------------------------------------

  /** The characters a sanitised symbol may hold: A-Z, 0-9 and '.'. */
  predicate IsSymbolChar(c: char) { IsUpperAlnum(c) || c == '.' }

  predicate NotSymbolChar(c: char) { !IsSymbolChar(c) }

  /** `_sanitize_symbol`: strip, upper-case, and drop every character outside [A-Z0-9.]. */
  function SanitizeSymbol(value: string): (r: string)
    ensures forall i :: 0 <= i < |r| ==> IsSymbolChar(r[i])
  {
    if value == [] then []
    else
      RemoveWhere(Upper(Strip(value)), NotSymbolChar)
  }

  /** Sanitising a sanitised symbol changes nothing. */
  lemma SanitizeSymbolIdempotent(value: string)
    ensures SanitizeSymbol(SanitizeSymbol(value)) == SanitizeSymbol(value)
  {
    var s := SanitizeSymbol(value);
    if s != [] {
      forall i | 0 <= i < |s| ensures !IsSpace(s[i]) && UpperChar(s[i]) == s[i] {
        assert IsSymbolChar(s[i]);
      }
      StripNoop(s);
      assert Upper(s) == s;
      RemoveWhereNoop(s, NotSymbolChar);
    }
  }

  /** Case and surrounding whitespace do not matter to the sanitised symbol. */
  lemma SanitizeSymbolIgnoresCase(value: string)
    ensures SanitizeSymbol(Upper(value)) == SanitizeSymbol(value)
  {
    StripUpper(value);
    assert Upper(Upper(Strip(value))) == Upper(Strip(value));
  }

  // ----- dates ----------------------------------------------------------

  /** A date printed as "%Y-%m-%d": it reads back as a calendar date that prints the same. */
  predicate IsIsoDate(s: string)
  {
    var d := ParseDateWith(s, YearMonthDay);
    d.Some? && FormatDate(d.value) == s
  }

  /**
   * `_parse_date` of the trade, Schwab and BagHolder importers: missing or
   * empty text is missing; otherwise the stripped text is tried as
   * "%Y-%m-%d", "%m/%d/%Y" and "%m/%d/%y" in turn, and the first date that
   * parses is printed as "%Y-%m-%d".
   */
  function ParseImportDate(value: Option<string>): (r: Option<string>)
    ensures r.Some? ==> IsIsoDate(r.value)
    ensures value.None? || value == Some("") ==> r.None?
  {
    if value.None? || value.value == [] then None
    else
      match ParseDateFirst(Strip(value.value), ImportDateFormats)
      case None => None
      case Some(d) =>
        ParseFormatDate(d);
        Some(FormatDate(d))
  }

  /** A date is accepted exactly when one of the three layouts reads the stripped text. */
  lemma ParseImportDateAccepts(text: string)
    requires text != []
    ensures ParseImportDate(Some(text)).Some? <==>
      exists k :: 0 <= k < |ImportDateFormats| && ParseDateWith(Strip(text), ImportDateFormats[k]).Some?
  {
  }

  /** "%Y-%m-%d" is tried first, so a date in that layout is printed as it reads. */
  lemma ParseImportDateIso(text: string, d: Date)
    requires ParseDateWith(Strip(text), YearMonthDay) == Some(d)
    ensures ParseImportDate(Some(text)) == Some(FormatDate(d))
  {
  }

  /** Text holding neither '-' nor '/' is no date in any of the three layouts. */
  lemma NoSeparatorNoDate(text: string)
    requires '-' !in text && '/' !in text
    ensures ParseImportDate(Some(text)).None?
  {
    if text != [] {
      var t := Strip(text);
      var i, j := StripShape(text);
      assert '-' !in t && '/' !in t by {
        forall k | 0 <= k < |t| ensures t[k] != '-' && t[k] != '/' {
          assert t[k] == text[i + k];
        }
      }
      assert SplitOn(t, '-') == [t] && SplitOn(t, '/') == [t];
      forall k | 0 <= k < |ImportDateFormats| ensures ParseDateWith(t, ImportDateFormats[k]).None? {
      }
    }
  }

  /** An emitted date is read back unchanged. */
  lemma ParseImportDateIdempotent(value: Option<string>)
    requires ParseImportDate(value).Some?
    ensures ParseImportDate(ParseImportDate(value)) == ParseImportDate(value)
  {
    var s := ParseImportDate(value).value;
    var d := ParseDateWith(s, YearMonthDay).value;
    FormatDateStripped(d);
  }

  // ----- rows --------------------------------------------------------------

  /** A row whose every cell is blank after stripping. */
  predicate IsBlankRow(raw: seq<string>)
  {
    forall i :: 0 <= i < |raw| ==> Strip(raw[i]) == []
  }

  /** The stripped i-th cell, or "" past the end of a short row. */
  function CellAt(raw: seq<string>, i: nat): string
  {
    if i < |raw| then Strip(raw[i]) else ""
  }

  /** The `values` dictionary: header i maps to cell i, a later duplicate header overwriting an earlier one. */
  function RowValues(headers: seq<string>, raw: seq<string>): (m: map<string, string>)
    ensures forall h :: h in m <==> h in headers
    decreases |headers|
  {
    if headers == [] then map[]
    else
      var i := |headers| - 1;
      RowValues(headers[..i], raw)[headers[i] := CellAt(raw, i)]
  }

  /** A header holds the cell under its last occurrence, and "" when the row is too short to reach it. */
  lemma {:induction false} RowValuesLastWins(headers: seq<string>, raw: seq<string>, i: nat)
    requires i < |headers|
    requires forall j :: i < j < |headers| ==> headers[j] != headers[i]
    ensures RowValues(headers, raw)[headers[i]] == CellAt(raw, i)
    ensures i >= |raw| ==> RowValues(headers, raw)[headers[i]] == ""
    decreases |headers|
  {
    var last, key := |headers| - 1, headers[i];
    var init := headers[..last];
    RowValuesStep(headers, raw);
    if i < last {
      assert init[i] == key;
      assert headers[last] != key;
      forall j | i < j < |init| ensures init[j] != key {
        assert init[j] == headers[j];
      }
      RowValuesLastWins(init, raw, i);
    }
  }

  lemma RowValuesStep(headers: seq<string>, raw: seq<string>)
    requires headers != []
    ensures RowValues(headers, raw) == RowValues(headers[..|headers| - 1], raw)[headers[|headers| - 1] := CellAt(raw, |headers| - 1)]
  {
  }

  /** `values.get(key)`. */
  function Get(values: map<string, string>, key: string): Option<string>
  {
    if key in values then Some(values[key]) else None
  }

  /** A cell as `_parse_number` receives it. */
  function CellValue(v: Option<string>): Cell
  {
    if v.Some? then Str(v.value) else Null
  }

  // ----- amounts ------------------------------------------------------

  /** The direction sign of a derived amount: money leaves on a buy. */
  function Direction(action: string): real
  {
    if action == "BUY" then -1.0 else 1.0
  }

  /** `abs(amount) / qty`. */
  function PerUnit(amount: real, q: real): real
    requires q != 0.0
  {
    Abs(amount) / q
  }

  /** `qty * price`, negated for a buy. */
  function Signed(action: string, q: real, price: real): real
  {
    Direction(action) * q * price
  }

  // ----- kept rows ----------------------------------------------------

  /** The importers' `rows.append` loops: each input contributes at most one output, in order. */
  function Concat<T>(parts: seq<seq<T>>): (r: seq<T>)
    decreases |parts|
  {
    if parts == [] then [] else Concat(parts[..|parts| - 1]) + parts[|parts| - 1]
  }

  lemma ConcatStep<T>(parts: seq<seq<T>>, k: nat)
    requires k < |parts|
    ensures Concat(parts[..k + 1]) == Concat(parts[..k]) + parts[k]
  {
    assert parts[..k + 1][..k] == parts[..k];
  }

  /** Every output is the contribution of some input. */
  lemma {:induction false} ConcatMember<T>(parts: seq<seq<T>>, x: T) returns (i: nat)
    requires x in Concat(parts)
    ensures i < |parts| && x in parts[i]
    decreases |parts|
  {
    var n := |parts| - 1;
    if x in parts[n] {
      i := n;
    } else {
      i := ConcatMember(parts[..n], x);
    }
  }

  /**
   * Where each output of such a loop came from: the j-th output is the only
   * contribution of input `origin[j]`, the origins increase, and every input
   * that contributed is one of them.
   */
  ghost predicate Origins<T>(parts: seq<seq<T>>, out: seq<T>, origin: seq<nat>)
  {
    && |origin| == |out|
    && (forall j :: 0 <= j < |origin| ==> origin[j] < |parts| && parts[origin[j]] == [out[j]])
    && (forall j, k :: 0 <= j < k < |origin| ==> origin[j] < origin[k])
    && (forall i :: 0 <= i < |parts| && parts[i] != [] ==> i in origin)
  }

  lemma OriginsStep<T>(init: seq<seq<T>>, out: seq<T>, before: seq<nat>, last: seq<T>)
    requires Origins(init, out, before) && |last| <= 1
    ensures Origins(init + [last], out + last, if last == [] then before else before + [|init|])
  {
    var parts := init + [last];
    assert forall i :: 0 <= i < |init| ==> parts[i] == init[i];
    assert parts[|init|] == last;
    if last != [] {
      var origin := before + [|init|];
      assert origin[|before|] == |init| && (out + last)[|out|] == last[0];
      assert forall j :: 0 <= j < |before| ==> origin[j] == before[j] && (out + last)[j] == out[j];
    } else {
      assert out + last == out;
    }
  }

  lemma {:induction false} ConcatOrigin<T>(parts: seq<seq<T>>) returns (origin: seq<nat>)
    requires forall i :: 0 <= i < |parts| ==> |parts[i]| <= 1
    ensures Origins(parts, Concat(parts), origin)
    decreases |parts|
  {
    if parts == [] {
      origin := [];
    } else {
      var n := |parts| - 1;
      var init, last := parts[..n], parts[n];
      assert forall i :: 0 <= i < n ==> init[i] == parts[i];
      var before := ConcatOrigin(init);
      var out := Concat(init);
      assert Concat(parts) == out + last;
      assert init + [last] == parts;
      OriginsStep(init, out, before, last);
      origin := if last == [] then before else before + [n];
    }
  }
}
