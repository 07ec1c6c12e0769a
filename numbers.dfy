/**
 * Numeric parsing shared by the importers: Python's `float()` on decimal
 * text, and the spreadsheet-style `_parse_number` / `_parse_float` helpers
 * that strip currency symbols and read "(x)" as a negative amount.
 */
module Numbers {

  import opened Common
  import opened Text

  /** A loosely typed cell value: Python's `None`, a number, or a piece of text. */
  datatype Cell = Null | Num(n: real) | Str(s: string)

  /** An unsigned decimal numeral: digits, optionally one '.', at least one digit. */
  predicate IsUnsignedDecimal(t: string)
  {
    if '.' in t then
      var k := IndexOf(t, '.');
      AllDigits(t[..k]) && AllDigits(t[k + 1..]) && |t| >= 2
    else
      t != [] && AllDigits(t)
  }

  function UnsignedDecimalValue(t: string): (v: real)
    requires IsUnsignedDecimal(t)
    ensures v >= 0.0
  {
    if '.' in t then
      var k := IndexOf(t, '.');
      DigitsValue(t[..k]) as real + Shift(DigitsValue(t[k + 1..]) as real, |t| - k - 1)
    else
      DigitsValue(t) as real
  }

  /** `x / 10^k`. */
  function Shift(x: real, k: nat): (r: real)
    ensures x >= 0.0 ==> r >= 0.0
  {
    if k == 0 then x else Shift(x, k - 1) / 10.0
  }

  /**
   * Python's `float(text)` on the decimal subset of its syntax: surrounding
   * whitespace, an optional sign, then an unsigned decimal numeral.
   */
  function ParseDecimal(s: string): Option<real>
  {
    var t := Strip(s);
    if t != [] && (t[0] == '+' || t[0] == '-') then
      var body := t[1..];
      if IsUnsignedDecimal(body) then
        Some(if t[0] == '-' then -UnsignedDecimalValue(body) else UnsignedDecimalValue(body))
      else None
    else if IsUnsignedDecimal(t) then Some(UnsignedDecimalValue(t))
    else None
  }

  predicate IsCommaOrDollar(c: char) { c == ',' || c == '$' }

  /** "(x)" is read as "-x"; anything else is left alone. */
  function Parenthesised(text: string): string
  {
    if StartsWith(text, "(") && EndsWith(text, ")") && |text| >= 2 then "-" + text[1..|text| - 1]
    else text
  }

  /**
   * `_parse_number` of the trade, Schwab and BagHolder importers: numbers pass
   * through; text is stripped, blank is missing, "," and "$" are dropped,
   * "(x)" becomes "-x", and anything `float` rejects is missing.
   */
  function ParseNumber(value: Cell): (r: Option<real>)
    ensures value.Null? ==> r == None
    ensures value.Num? ==> r == Some(value.n)
    ensures value.Str? && Strip(value.s) == [] ==> r == None
  {
    match value
    case Null => None
    case Num(n) => Some(n)
    case Str(s) =>
      var text := Strip(s);
      if text == [] then None
      else ParseDecimal(Parenthesised(RemoveWhere(text, IsCommaOrDollar)))
  }

  /**
   * thinkorswim's `_parse_float`: like `ParseNumber`, except that the
   * placeholders "~", "-" and "--" are rejected before any text is removed.
   */
  function ParseFloatTos(value: Cell): (r: Option<real>)
    ensures value.Null? ==> r == None
    ensures value.Str? && Strip(value.s) in {"~", "-", "--"} ==> r == None
  {
    match value
    case Null => None
    case Num(n) => Some(n)
    case Str(s) =>
      var text := Strip(s);
      if text == [] || text in {"~", "-", "--"} then None
      else ParseDecimal(Parenthesised(RemoveWhere(text, IsCommaOrDollar)))
  }

  // ----- properties -----------------------------------------------------

  lemma AllDigitsNoDot(s: string)
    requires AllDigits(s)
    ensures '.' !in s
  {
  }

  /** Every character of an unsigned decimal numeral is a digit or the point. */
  lemma UnsignedChars(t: string)
    requires IsUnsignedDecimal(t)
    ensures forall i :: 0 <= i < |t| ==> IsDigit(t[i]) || t[i] == '.'
  {
    if '.' in t {
      var k := IndexOf(t, '.');
      forall i | 0 <= i < |t| ensures IsDigit(t[i]) || t[i] == '.' {
        if i < k {
          assert t[..k][i] == t[i];
        } else if i > k {
          assert t[k + 1..][i - k - 1] == t[i];
        }
      }
    }
  }

  lemma UnsignedOfNat(n: nat)
    ensures IsUnsignedDecimal(NatToString(n)) && UnsignedDecimalValue(NatToString(n)) == n as real
  {
    DigitsValueOfNatToString(n);
    AllDigitsNoDot(NatToString(n));
  }

  lemma NoSpaceEnds(s: string)
    requires s != [] && !IsSpace(s[0]) && !IsSpace(s[|s| - 1])
    ensures Strip(s) == s
  {
    StripNoop(s);
  }

  /** `float(str(n))` is `n` for a natural number. */
  lemma ParseDecimalOfNat(n: nat)
    ensures ParseDecimal(NatToString(n)) == Some(n as real)
  {
    var s := NatToString(n);
    UnsignedOfNat(n);
    NoSpaceEnds(s);
  }

  lemma ParseDecimalNegative(p: string)
    requires Strip(p) == p && p != [] && p[0] == '-' && IsUnsignedDecimal(p[1..])
    ensures ParseDecimal(p) == Some(-UnsignedDecimalValue(p[1..]))
  {
  }

  /** `float(t)` for an unsigned numeral `t`. */
  lemma ParseDecimalUnsigned(t: string)
    requires IsUnsignedDecimal(t)
    ensures ParseDecimal(t) == Some(UnsignedDecimalValue(t))
  {
    UnsignedChars(t);
    assert !IsSpace(t[0]) && !IsSpace(t[|t| - 1]);
    NoSpaceEnds(t);
  }

  /** `float("-" + t)` for an unsigned numeral `t`. */
  lemma ParseDecimalMinus(t: string)
    requires IsUnsignedDecimal(t)
    ensures ParseDecimal("-" + t) == Some(-UnsignedDecimalValue(t))
  {
    UnsignedChars(t);
    var p := "-" + t;
    assert p[|p| - 1] == t[|t| - 1];
    NoSpaceEnds(p);
    assert p[1..] == t;
    ParseDecimalNegative(p);
  }

  /** `float("-" + str(n))` is `-n`. */
  lemma ParseDecimalOfNegNat(n: nat)
    ensures ParseDecimal("-" + NatToString(n)) == Some(-(n as real))
  {
    UnsignedOfNat(n);
    ParseDecimalMinus(NatToString(n));
    var u := UnsignedDecimalValue(NatToString(n));
    assert ParseDecimal("-" + NatToString(n)) == Some(-u);
    assert u == n as real;
  }

  /** The numeral "i.f" reads as i + f / 10^|f|. */
  lemma UnsignedSplit(ip: string, fp: string)
    requires AllDigits(ip) && AllDigits(fp) && |ip| + |fp| >= 1
    ensures IsUnsignedDecimal(ip + "." + fp)
    ensures UnsignedDecimalValue(ip + "." + fp) == DigitsValue(ip) as real + Shift(DigitsValue(fp) as real, |fp|)
  {
    PointAt(ip, fp);
    UnsignedAt(ip + "." + fp, |ip|, ip, fp);
  }

  /** In "i.f" with a digit string `i`, the first point follows `i`. */
  lemma PointAt(ip: string, fp: string)
    requires AllDigits(ip)
    ensures var t := ip + "." + fp;
      '.' in t && IndexOf(t, '.') == |ip| && t[..|ip|] == ip && t[|ip| + 1..] == fp && |t| == |ip| + |fp| + 1
  {
    var t := ip + "." + fp;
    AllDigitsNoDot(ip);
    assert t[..|ip|] == ip;
    assert t[|ip|] == '.';
    IndexOfFirst(t, '.', |ip|);
    assert t[|ip| + 1..] == fp;
  }

  /** A numeral whose first point splits it into digit strings `ip` and `fp`. */
  lemma UnsignedAt(t: string, k: nat, ip: string, fp: string)
    requires '.' in t && IndexOf(t, '.') == k && k < |t| && t[..k] == ip && t[k + 1..] == fp && |t| == |ip| + |fp| + 1
    requires AllDigits(ip) && AllDigits(fp) && |ip| + |fp| >= 1
    ensures IsUnsignedDecimal(t)
    ensures UnsignedDecimalValue(t) == DigitsValue(ip) as real + Shift(DigitsValue(fp) as real, |fp|)
  {
    assert AllDigits(t[..k]) && AllDigits(t[k + 1..]);
    assert |t| - k - 1 == |fp|;
  }

  /** The numeral "a.bb" with two fraction digits reads as a + bb/100. */
  lemma UnsignedCents(a: nat, b: nat)
    requires b < 100
    ensures IsUnsignedDecimal(NatToString(a) + "." + PadInt(b, 2))
    ensures UnsignedDecimalValue(NatToString(a) + "." + PadInt(b, 2)) == a as real + b as real / 100.0
  {
    var ip := NatToString(a);
    var fp := PadInt(b, 2);
    NatToStringLength(b, 2);
    PadIntDigits(b, 2);
    DigitsValueOfNatToString(a);
    UnsignedSplit(ip, fp);
    assert Shift(b as real, 1) == b as real / 10.0;
    assert Shift(b as real, 2) == b as real / 100.0;
  }

  lemma ParseNumberText(s: string)
    requires Strip(s) != []
    ensures ParseNumber(Str(s)) == ParseDecimal(Parenthesised(RemoveWhere(Strip(s), IsCommaOrDollar)))
  {
  }

  /** An unsigned amount in parentheses holds no comma and no dollar sign. */
  lemma ParenthesisedPlain(t: string)
    requires IsUnsignedDecimal(t)
    ensures RemoveWhere("(" + t + ")", IsCommaOrDollar) == "(" + t + ")"
  {
    var s := "(" + t + ")";
    UnsignedChars(t);
    assert forall i :: 0 <= i < |s| ==> !IsCommaOrDollar(s[i]) by {
      forall i | 0 <= i < |s| ensures !IsCommaOrDollar(s[i]) {
        if 0 < i < |s| - 1 {
          assert s[i] == t[i - 1];
        }
      }
    }
    RemoveWhereNoop(s, IsCommaOrDollar);
  }

  /** Wrapping an unsigned amount in parentheses negates it. */
  lemma ParseNumberParenthesised(t: string)
    requires IsUnsignedDecimal(t)
    ensures ParseNumber(Str("(" + t + ")")) == Some(-UnsignedDecimalValue(t))
  {
    var s := "(" + t + ")";
    NoSpaceEnds(s);
    ParenthesisedPlain(t);
    assert Parenthesised(s) == "-" + t by {
      assert s[1..|s| - 1] == t;
    }
    ParseNumberText(s);
    ParseDecimalMinus(t);
  }

  /** Amounts printed with a dollar sign and digit grouping parse back to their value. */
  lemma ParseNumberIgnoresCurrency(s: string, t: string)
    requires IsUnsignedDecimal(t)
    requires RemoveWhere(s, IsCommaOrDollar) == t
    requires s != [] && !IsSpace(s[0]) && !IsSpace(s[|s| - 1])
    ensures ParseNumber(Str(s)) == Some(UnsignedDecimalValue(t))
  {
    NoSpaceEnds(s);
    UnsignedChars(t);
    assert Parenthesised(t) == t;
    ParseNumberText(s);
    ParseDecimalUnsigned(t);
  }

  /** A negative amount printed as "-" followed by dollar sign and digit grouping parses back to its value. */
  lemma ParseNumberIgnoresCurrencyNegative(s: string, t: string)
    requires IsUnsignedDecimal(t)
    requires RemoveWhere(s, IsCommaOrDollar) == t
    requires s != [] && !IsSpace(s[|s| - 1])
    ensures ParseNumber(Str("-" + s)) == Some(-UnsignedDecimalValue(t))
  {
    var m := "-" + s;
    assert m[|m| - 1] == s[|s| - 1];
    NoSpaceEnds(m);
    MinusKept(s, t);
    MinusNotParenthesised(t);
    ParseNumberText(m);
    ParseDecimalMinus(t);
  }

  lemma MinusKept(s: string, t: string)
    requires RemoveWhere(s, IsCommaOrDollar) == t
    ensures RemoveWhere("-" + s, IsCommaOrDollar) == "-" + t
  {
    RemoveWhereConcat("-", s, IsCommaOrDollar);
    assert RemoveWhere("-", IsCommaOrDollar) == "-";
  }

  lemma MinusNotParenthesised(t: string)
    ensures Parenthesised("-" + t) == "-" + t
  {
    assert ("-" + t)[0] == '-';
  }

  lemma PlaceholdersRejected()
    ensures ParseDecimal(Parenthesised(RemoveWhere("~", IsCommaOrDollar))) == None
    ensures ParseDecimal(Parenthesised(RemoveWhere("-", IsCommaOrDollar))) == None
    ensures ParseDecimal(Parenthesised(RemoveWhere("--", IsCommaOrDollar))) == None
  {
    PlainRejected("~");
    PlainRejected("-");
    PlainRejected("--");
  }

  /** The characters of the placeholders are none of the characters a number is made of. */
  lemma PlaceholderChar(c: char)
    requires c == '~' || c == '-'
    ensures !IsSpace(c) && !IsDigit(c) && !IsCommaOrDollar(c) && c != '.' && c != '('
  {
  }

  /** Text of `~` and `-` only, with no digit after a leading sign, is rejected by `float`. */
  lemma PlainRejected(t: string)
    requires t != [] && forall i :: 0 <= i < |t| ==> t[i] == '~' || t[i] == '-'
    requires t[0] == '-' ==> t[1..] == [] || t[1] == '-'
    ensures ParseDecimal(Parenthesised(RemoveWhere(t, IsCommaOrDollar))) == None
  {
    PlainKept(t);
    PlainNotNumeral(t);
  }

  /** Such text is left alone by the clean-up before `float`. */
  lemma PlainKept(t: string)
    requires t != [] && forall i :: 0 <= i < |t| ==> t[i] == '~' || t[i] == '-'
    ensures Parenthesised(RemoveWhere(t, IsCommaOrDollar)) == t && Strip(t) == t
  {
    forall i | 0 <= i < |t| ensures !IsCommaOrDollar(t[i]) {
      PlaceholderChar(t[i]);
    }
    RemoveWhereNoop(t, IsCommaOrDollar);
    PlaceholderChar(t[0]);
    PlaceholderChar(t[|t| - 1]);
    assert t[..1] != "(" by { assert t[..1][0] == t[0]; }
    NoSpaceEnds(t);
  }

  /** Such text is no numeral, and neither is what follows a leading sign. */
  lemma PlainNotNumeral(t: string)
    requires t != [] && forall i :: 0 <= i < |t| ==> t[i] == '~' || t[i] == '-'
    requires t[0] == '-' ==> t[1..] == [] || t[1] == '-'
    ensures !IsUnsignedDecimal(t) && (t[0] == '-' ==> !IsUnsignedDecimal(t[1..]))
  {
    forall i | 0 <= i < |t| ensures t[i] != '.' {
      PlaceholderChar(t[i]);
    }
    PlaceholderChar(t[0]);
    assert '.' !in t;
    if t[0] == '-' && |t| > 1 {
      PlaceholderChar(t[1]);
      var body := t[1..];
      assert '.' !in body && body[0] == t[1];
    }
  }

  /** The placeholders thinkorswim rejects explicitly are rejected by `ParseNumber` too. */
  lemma ParseFloatTosAgrees(value: Cell)
    ensures ParseFloatTos(value) == ParseNumber(value)
  {
    if value.Str? && Strip(value.s) in {"~", "-", "--"} {
      PlaceholdersRejected();
      ParseNumberText(value.s);
    }
  }
}
