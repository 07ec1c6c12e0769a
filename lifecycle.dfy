/**
 * The colour and money template filters of `app/core/lifecycle.py`: parsing a
 * "#rrggbb" colour, printing it as "r, g, b" or "rgba(...)", blending it
 * with white, choosing a contrasting text colour, and printing an amount as
 * dollars and cents.
 */
module Lifecycle {

  import opened Common
  import opened Text
  import opened Numbers

  // ----- hex colours ----------------------------------------------------

  datatype Rgb = Rgb(r: nat, g: nat, b: nat)

  predicate IsChannel(c: Rgb) { c.r < 256 && c.g < 256 && c.b < 256 }

  /** The text `^#[0-9a-fA-F]{6}$` matches in full. */
  predicate HexColorText(t: string)
  {
    |t| == 7 && t[0] == '#' && forall i :: 1 <= i < 7 ==> IsHexDigit(t[i])
  }

  /** `int(t[k:k+2], 16)`. */
  function HexPair(t: string, k: nat): (v: nat)
    requires k + 2 <= |t| && IsHexDigit(t[k]) && IsHexDigit(t[k + 1])
    ensures v < 256
  {
    HexValue(t[k]) * 16 + HexValue(t[k + 1])
  }

  /**
   * `_parse_hex_color(color)`: a non-string (`None` here) or text that is not
   * "#" and six hex digits after stripping is refused; otherwise the three
   * channels.
   */
  function ParseHexColor(color: Option<string>): (r: Option<Rgb>)
    ensures r.Some? <==> color.Some? && HexColorText(Strip(color.value))
    ensures r.Some? ==> IsChannel(r.value)
  {
    if color.None? then None
    else
      var candidate := Strip(color.value);
      if !HexColorText(candidate) then None
      else Some(Rgb(HexPair(candidate, 1), HexPair(candidate, 3), HexPair(candidate, 5)))
  }

  /** The colour `f"#{r:02x}{g:02x}{b:02x}"` prints. */
  function HexText(c: Rgb): (t: string)
    requires IsChannel(c)
    ensures HexColorText(t)
  {
    "#" + Hex2(c.r) + Hex2(c.g) + Hex2(c.b)
  }

  /** Printing a colour as hex and parsing it gives the colour back. */
  lemma ParseHexText(c: Rgb)
    requires IsChannel(c)
    ensures ParseHexColor(Some(HexText(c))) == Some(c)
  {
    var t := HexText(c);
    assert !IsSpace(t[0]) && !IsSpace(t[6]);
    StripNoop(t);
  }

  /** Surrounding whitespace is ignored. */
  lemma ParseHexStrips(s: string)
    ensures ParseHexColor(Some(s)) == ParseHexColor(Some(Strip(s)))
  {
    StripIdempotent(s);
  }

  // ----- hex_to_rgb / hex_to_rgba ----------------------------------------

  /** The three channels as `f"{r}, {g}, {b}"` prints them. */
  function RgbText(c: Rgb): string
  {
    NatToString(c.r) + ", " + NatToString(c.g) + ", " + NatToString(c.b)
  }

  /** `hex_to_rgb(value)`: "r, g, b", or "0, 0, 0" for a colour that does not parse. */
  function HexToRgb(value: Option<string>): string
  {
    var c := ParseHexColor(value);
    if c.None? then "0, 0, 0" else RgbText(c.value)
  }

  /** The three numbers `hex_to_rgb` prints read back with `int()` as the parsed channels. */
  lemma HexToRgbFields(value: Option<string>)
    requires ParseHexColor(value).Some?
    ensures var c := ParseHexColor(value).value;
      SplitOn(HexToRgb(value), ',') == [NatToString(c.r), " " + NatToString(c.g), " " + NatToString(c.b)]
      && ParseInt(NatToString(c.r)) == Some(c.r as int)
      && ParseInt(" " + NatToString(c.g)) == Some(c.g as int)
      && ParseInt(" " + NatToString(c.b)) == Some(c.b as int)
  {
    var c := ParseHexColor(value).value;
    RgbTextFields(c, RgbText(c));
  }

  lemma RgbTextFields(c: Rgb, t: string)
    requires t == RgbText(c)
    ensures SplitOn(t, ',') == [NatToString(c.r), " " + NatToString(c.g), " " + NatToString(c.b)]
    ensures ParseInt(NatToString(c.r)) == Some(c.r as int)
    ensures ParseInt(" " + NatToString(c.g)) == Some(c.g as int)
    ensures ParseInt(" " + NatToString(c.b)) == Some(c.b as int)
  {
    var r, g, b := NatToString(c.r), NatToString(c.g), NatToString(c.b);
    CommaSpace(r, g, b, t);
    ParseIntOfNat(c.r);
    SpacedInt(c.g);
    SpacedInt(c.b);
    SplitFields(r, " " + g, " " + b);
  }

  lemma CommaSpace(r: string, g: string, b: string, t: string)
    requires t == r + ", " + g + ", " + b
    ensures t == r + "," + (" " + g) + "," + (" " + b)
  {
  }

  lemma SplitFields(x: string, y: string, z: string)
    requires ',' !in x && ',' !in y && ',' !in z
    ensures SplitOn(x + "," + y + "," + z, ',') == [x, y, z]
  {
    assert x + "," + y + "," + z == x + [','] + (y + [','] + z);
    SplitOnFirst(x, ',', y + [','] + z);
    SplitOnFirst(y, ',', z);
    assert SplitOn(z, ',') == [z];
  }

  lemma SpacedInt(n: nat)
    ensures ',' !in NatToString(n) && ',' !in " " + NatToString(n)
    ensures ParseInt(" " + NatToString(n)) == Some(n as int)
  {
    var s := NatToString(n);
    DigitsValueOfNatToString(n);
    assert !IsSpace(s[0]) && !IsSpace(s[|s| - 1]);
    var t := " " + s;
    assert t[1..] == s;
    assert TrimLeftSpace(t) == TrimLeftSpace(s);
    StripNoop(s);
    assert Strip(t) == s;
  }

  /** `max(0.0, min(1.0, x))`. */
  function Clamp01(x: real): (r: real)
    ensures 0.0 <= r <= 1.0
    ensures 0.0 <= x <= 1.0 ==> r == x
    ensures x <= 0.0 ==> r == 0.0
    ensures x >= 1.0 ==> r == 1.0
  {
    Max(0.0, Min(1.0, x))
  }

  /** Python's `round(x)` on an exact value: to the nearest integer, ties to the even one. */
  function RoundHalfEven(x: real): (n: int)
    ensures (n as real) - 0.5 <= x <= (n as real) + 0.5
  {
    var f := x.Floor;
    var frac := x - f as real;
    if frac < 0.5 then f
    else if frac > 0.5 then f + 1
    else if f % 2 == 0 then f else f + 1
  }

  /** `f"{x:.2f}"` for 0 <= x: to the nearest cent, ties to the even cent. */
  function Fixed2(x: real): (s: string)
    requires x >= 0.0
  {
    var cents := RoundHalfEven(x * 100.0);
    NatToString(cents / 100) + "." + PadInt(cents % 100, 2)
  }

  /** `hex_to_rgba(value, alpha)`: the channels (or zeros) and the alpha clamped to [0, 1]. */
  function HexToRgba(value: Option<string>, alpha: real): string
  {
    var c := ParseHexColor(value);
    var channels := if c.None? then "0, 0, 0" else RgbText(c.value);
    "rgba(" + channels + ", " + Fixed2(Clamp01(alpha)) + ")"
  }

  /** Only the clamped alpha matters: `hex_to_rgba` prints `hex_to_rgb`'s channels and an alpha in [0, 1]. */
  lemma HexToRgbaClamps(value: Option<string>, alpha: real)
    ensures HexToRgba(value, alpha) == "rgba(" + HexToRgb(value) + ", " + Fixed2(Clamp01(alpha)) + ")"
    ensures HexToRgba(value, alpha) == HexToRgba(value, Clamp01(alpha))
    ensures alpha >= 1.0 ==> HexToRgba(value, alpha) == HexToRgba(value, 1.0)
    ensures alpha <= 0.0 ==> HexToRgba(value, alpha) == HexToRgba(value, 0.0)
  {
  }

  // ----- mix_with_white --------------------------------------------------

  /** One channel moved towards 255 by `blend`, rounded. */
  function Blend(c: nat, blend: real): (v: nat)
    requires c < 256 && 0.0 <= blend <= 1.0
    ensures c <= v < 256
  {
    var x := (1.0 - blend) * c as real + blend * 255.0;
    BlendBounds(c, blend, x);
    RoundHalfEven(x)
  }

  lemma BlendBounds(c: nat, blend: real, x: real)
    requires c < 256 && 0.0 <= blend <= 1.0 && x == (1.0 - blend) * c as real + blend * 255.0
    ensures c as real <= x <= 255.0
  {
    var room := 255.0 - c as real;
    assert x - c as real == blend * room;
    assert 255.0 - x == (1.0 - blend) * room;
    MulNonNegative(blend, room);
    MulNonNegative(1.0 - blend, room);
  }

  lemma MulNonNegative(x: real, y: real)
    requires x >= 0.0 && y >= 0.0
    ensures x * y >= 0.0
  {
  }

  /** `mix_with_white(value, blend)`: "#ffffff" for a colour that does not parse. */
  function MixWithWhite(value: Option<string>, blend: real): (t: string)
    ensures HexColorText(t)
  {
    var c := ParseHexColor(value);
    var b := Clamp01(blend);
    if c.None? then "#ffffff"
    else HexText(Rgb(Blend(c.value.r, b), Blend(c.value.g, b), Blend(c.value.b, b)))
  }

  /** Blending keeps a parseable colour and never darkens a channel. */
  lemma MixLightens(value: Option<string>, blend: real)
    requires ParseHexColor(value).Some?
    ensures var c := ParseHexColor(value).value;
      var m := ParseHexColor(Some(MixWithWhite(value, blend)));
      m.Some? && c.r <= m.value.r && c.g <= m.value.g && c.b <= m.value.b
  {
    var c := ParseHexColor(value).value;
    var b := Clamp01(blend);
    ParseHexText(Rgb(Blend(c.r, b), Blend(c.g, b), Blend(c.b, b)));
  }

  /** A blend of 0 or less reprints the colour; a blend of 1 or more is white. */
  lemma MixExtremes(value: Option<string>, blend: real)
    requires ParseHexColor(value).Some?
    ensures blend <= 0.0 ==> MixWithWhite(value, blend) == HexText(ParseHexColor(value).value)
    ensures blend >= 1.0 ==> MixWithWhite(value, blend) == "#ffffff"
  {
    var c := ParseHexColor(value).value;
    if blend <= 0.0 {
      NoBlend(c.r);
      NoBlend(c.g);
      NoBlend(c.b);
    }
    if blend >= 1.0 {
      FullBlend(c.r);
      FullBlend(c.g);
      FullBlend(c.b);
      assert Hex2(255) == "ff";
    }
  }

  lemma NoBlend(c: nat)
    requires c < 256
    ensures Blend(c, 0.0) == c
  {
    assert (1.0 - 0.0) * c as real + 0.0 * 255.0 == c as real;
  }

  lemma FullBlend(c: nat)
    requires c < 256
    ensures Blend(c, 1.0) == 255
  {
    assert (1.0 - 1.0) * c as real + 1.0 * 255.0 == 255.0;
  }

  // ----- pick_contrast ---------------------------------------------------

  /** The weighted brightness `0.299 r + 0.587 g + 0.114 b`, before the division by 255. */
  function Brightness(c: Rgb): real
  {
    0.299 * c.r as real + 0.587 * c.g as real + 0.114 * c.b as real
  }

  /** `pick_contrast(value)`: black text on a colour brighter than 0.55, white otherwise or when it does not parse. */
  function PickContrast(value: Option<string>): (t: string)
    ensures t == "#000000" || t == "#ffffff"
  {
    var c := ParseHexColor(value);
    if c.None? then "#ffffff"
    else if Brightness(c.value) / 255.0 > 0.55 then "#000000"
    else "#ffffff"
  }

  /** A colour at least as bright in every channel as one that takes black text also takes black text. */
  lemma PickContrastMonotone(lighter: Option<string>, darker: Option<string>)
    requires ParseHexColor(lighter).Some? && ParseHexColor(darker).Some?
    requires var l, d := ParseHexColor(lighter).value, ParseHexColor(darker).value;
      d.r <= l.r && d.g <= l.g && d.b <= l.b
    requires PickContrast(darker) == "#000000"
    ensures PickContrast(lighter) == "#000000"
  {
    var l, d := ParseHexColor(lighter).value, ParseHexColor(darker).value;
    assert Brightness(d) <= Brightness(l);
  }

  // ----- format_money ----------------------------------------------------

  /** `quantize(Decimal("0.01"), ROUND_HALF_UP)` in cents: to the nearest cent, ties away from zero. */
  function RoundHalfUp(x: real): (n: int)
    ensures (n as real) - 0.5 <= x <= (n as real) + 0.5
    ensures x >= 0.0 ==> n >= 0 && (x - x.Floor as real == 0.5 ==> n == x.Floor + 1)
    ensures x < 0.0 ==> n <= 0 && ((-x) - (-x).Floor as real == 0.5 ==> n == -((-x).Floor + 1))
  {
    if x >= 0.0 then (x + 0.5).Floor else -((-x + 0.5).Floor)
  }

  /** The whole-dollar part with "," between each group of three digits, as `f"{v:,}"` prints it. */
  function Grouped(n: nat): (s: string)
    ensures s != [] && IsDigit(s[|s| - 1]) && IsDigit(s[0])
    decreases n
  {
    if n < 1000 then NatToString(n) else Grouped(n / 1000) + "," + PadInt(n % 1000, 3)
  }

  /** The amount a money text shows: sign, "$", grouped dollars, "." and two cent digits. */
  function MoneyText(x: real): string
  {
    CentsText(RoundHalfUp(x * 100.0))
  }

  /** A whole number of cents printed as `f"{sign}${abs(q):,.2f}"`. */
  function CentsText(q: int): (t: string)
    ensures t != [] && (t[0] == '-' <==> q < 0)
  {
    var a := if q < 0 then -q else q;
    (if q < 0 then "-" else "") + DollarsText(a)
  }

  /** "$", the grouped dollars, "." and two cent digits of `a` cents. */
  function DollarsText(a: nat): (t: string)
    ensures t != [] && t[0] == '$'
  {
    "$" + Grouped(a / 100) + "." + PadInt(a % 100, 2)
  }

  /**
   * What `Decimal(text)` makes of a string: a finite value, an infinity or a
   * NaN, or nothing it can read (`InvalidOperation`).
   */
  datatype DecimalReading = Finite(value: real) | NonFinite | Unreadable

  /** Why `format_money` raises `InvalidOperation` after its `try`: at `quantize` or at `quantized < 0`. */
  datatype MoneyError = NotFinite | TooManyDigits

  /** "Infinity", "Inf", "NaN" or "sNaN" with optional digits, in any letter case. */
  predicate IsNonFinite(body: string)
  {
    var l := Lower(body);
    l == "inf" || l == "infinity"
    || (|l| >= 3 && l[..3] == "nan" && AllDigits(l[3..]))
    || (|l| >= 4 && l[..4] == "snan" && AllDigits(l[4..]))
  }

  /** The exponent after the `e` or `E`: an optional sign, then at least one digit. */
  function ExponentValue(t: string): Option<int>
  {
    var signed := t != [] && (t[0] == '+' || t[0] == '-');
    var digits := if signed then t[1..] else t;
    if digits == [] || !AllDigits(digits) then None
    else
      var v: int := DigitsValue(digits);
      Some(if signed && t[0] == '-' then -v else v)
  }

  /** `x * 10^e` for a whole exponent of either sign. */
  function Scale(x: real, e: int): real
  {
    if e >= 0 then x * Pow10(e) as real else Shift(x, -e)
  }

  /** An unsigned numeral with an optional exponent, as `Decimal` reads it: "12.5", "1e3", ".5E-2". */
  function UnsignedScientific(t: string): Option<real>
  {
    var l := Lower(t);
    if 'e' in l then
      var k := IndexOf(l, 'e');
      var e := ExponentValue(t[k + 1..]);
      if IsUnsignedDecimal(t[..k]) && e.Some? then Some(Scale(UnsignedDecimalValue(t[..k]), e.value)) else None
    else if IsUnsignedDecimal(t) then Some(UnsignedDecimalValue(t))
    else None
  }

  /** `Decimal(text)`: surrounding whitespace, an optional sign, then a numeral or a special value. */
  function ReadDecimal(s: string): DecimalReading
  {
    SignedReading(Strip(s))
  }

  /** A stripped text: an optional sign, which negates a finite value, then the body. */
  function SignedReading(t: string): DecimalReading
  {
    if t != [] && (t[0] == '+' || t[0] == '-') then
      var r := BodyReading(t[1..]);
      if t[0] == '-' && r.Finite? then Finite(-r.value) else r
    else BodyReading(t)
  }

  /** The text after the sign: a special value, or an unsigned numeral with an optional exponent. */
  function BodyReading(body: string): DecimalReading
  {
    if IsNonFinite(body) then NonFinite
    else match UnsignedScientific(body)
      case None => Unreadable
      case Some(v) => Finite(v)
  }

  /** `quantize` keeps at most 28 digits of coefficient; 10^28 cents has 29. */
  const MaxCents: int := 10_000_000_000_000_000_000_000_000_000

  /** The largest amount, in dollars, whose cents still fit: anything from here up rounds to 10^28 cents. */
  const DigitLimit: real := 99_999_999_999_999_999_999_999_999.995

  /** `quantize(Decimal("0.01"), ROUND_HALF_UP)` of a finite amount and its printing, or the overflow. */
  function QuantizedMoney(x: real): Result<string, MoneyError>
  {
    var q := RoundHalfUp(x * 100.0);
    if q >= MaxCents || -q >= MaxCents then Err(TooManyDigits) else Ok(MoneyText(x))
  }

  /**
   * `format_money(value)`: `Decimal(str(value))` rounded half-up to cents and
   * printed as `-$1,234.50`. `None` (whose text is "None") and text `Decimal`
   * cannot read print as "$0.00"; an infinity or NaN, and an amount too large
   * for 28 digits of cents, raise.
   */
  function FormatMoney(value: Cell): (r: Result<string, MoneyError>)
    ensures value.Null? ==> r == Ok("$0.00")
    ensures value.Num? ==> r == QuantizedMoney(value.n)
    ensures value.Str? ==> r == match ReadDecimal(value.s)
      case Unreadable => Ok("$0.00")
      case NonFinite => Err(NotFinite)
      case Finite(v) => QuantizedMoney(v)
  {
    match value
    case Null => Ok("$0.00")
    case Num(n) => QuantizedMoney(n)
    case Str(s) =>
      match ReadDecimal(s)
      case Unreadable => Ok("$0.00")
      case NonFinite => Err(NotFinite)
      case Finite(v) => QuantizedMoney(v)
  }

  /** An amount prints exactly when it lies strictly within the digit limit either side of zero. */
  lemma QuantizedMoneyLimit(x: real)
    ensures QuantizedMoney(x).Ok? <==> -DigitLimit < x < DigitLimit
    ensures QuantizedMoney(x).Ok? ==> QuantizedMoney(x).value == MoneyText(x)
  {
    var q := RoundHalfUp(x * 100.0);
    if x >= 0.0 {
      assert q == (x * 100.0 + 0.5).Floor;
      assert q >= MaxCents <==> x * 100.0 + 0.5 >= MaxCents as real;
    } else {
      assert q == -((-x * 100.0 + 0.5).Floor);
      assert -q >= MaxCents <==> -x * 100.0 + 0.5 >= MaxCents as real;
    }
  }

  /** On the text Python's `float` reads, `Decimal` reads the same value. */
  lemma ReadDecimalAgrees(s: string)
    requires ParseDecimal(s).Some?
    ensures ReadDecimal(s) == Finite(ParseDecimal(s).value)
  {
    var t := Strip(s);
    var signed := t != [] && (t[0] == '+' || t[0] == '-');
    var body := if signed then t[1..] else t;
    assert IsUnsignedDecimal(body);
    PlainNumeral(body);
  }

  /** A plain numeral is no special value and has no exponent. */
  lemma PlainNumeral(body: string)
    requires IsUnsignedDecimal(body)
    ensures !IsNonFinite(body) && UnsignedScientific(body) == Some(UnsignedDecimalValue(body))
  {
    NumeralNotSpecial(body, body);
    UnsignedChars(body);
    var l := Lower(body);
    assert forall i :: 0 <= i < |l| ==> l[i] == LowerChar(body[i]) != 'e';
  }

  /** `Decimal` reads a numeral with an exponent in either letter case as the numeral shifted by the exponent. */
  lemma ScientificBody(m: string, x: char, e: nat)
    requires IsUnsignedDecimal(m) && (x == 'e' || x == 'E')
    ensures BodyReading(m + [x] + NatToString(e)) == Finite(Scale(UnsignedDecimalValue(m), e))
  {
    var body := m + [x] + NatToString(e);
    NumeralNotSpecial(m, body);
    ExponentAt(m, x, body);
    assert body[..|m|] == m;
    assert body[|m| + 1..] == NatToString(e);
    DigitsExponent(e);
  }

  /** A text that starts with a numeral is no special value. */
  lemma NumeralNotSpecial(m: string, body: string)
    requires IsUnsignedDecimal(m) && |m| <= |body| && body[..|m|] == m
    ensures !IsNonFinite(body)
  {
    UnsignedChars(m);
    assert body[0] == m[0];
    assert Lower(body)[0] == LowerChar(m[0]);
  }

  /** The exponent letter after a numeral is the first "e" of the lower-cased text. */
  lemma ExponentAt(m: string, x: char, body: string)
    requires IsUnsignedDecimal(m) && (x == 'e' || x == 'E') && |m| < |body| && body[..|m|] == m && body[|m|] == x
    ensures 'e' in Lower(body) && IndexOf(Lower(body), 'e') == |m|
  {
    var l := Lower(body);
    UnsignedChars(m);
    assert l[|m|] == 'e';
    assert 'e' !in l[..|m|] by {
      forall i | 0 <= i < |m| ensures l[..|m|][i] != 'e' {
        assert body[i] == m[i];
        assert l[..|m|][i] == LowerChar(m[i]);
      }
    }
    IndexOfFirst(l, 'e', |m|);
  }

  lemma DigitsExponent(e: nat)
    ensures ExponentValue(NatToString(e)) == Some(e)
  {
    DigitsValueOfNatToString(e);
  }

  /** `Decimal` also reads "1e2", and `format_money` prints it as "$100.00" where `float`'s syntax alone gives "$0.00". */
  lemma MoneyExponent()
    ensures FormatMoney(Str("1e2")) == Ok("$100.00")
  {
    assert NatToString(2) == "2" && NatToString(1) == "1";
    assert "1" + ['e'] + NatToString(2) == "1e2";
    UnsignedOfNat(1);
    ScientificBody("1", 'e', 2);
    StripNoop("1e2");
    assert ReadDecimal("1e2") == Finite(Scale(1.0, 2));
    assert Scale(1.0, 2) == 100.0;
    assert RoundHalfUp(100.0 * 100.0) == 10000;
    HundredDollars();
  }

  lemma HundredDollars()
    ensures CentsText(10000) == "$100.00"
  {
    assert NatToString(100) == "100";
    assert PadInt(0, 2) == "00";
    assert DollarsText(10000) == "$" + "100" + "." + "00";
  }

  /** "Infinity", "Inf", "NaN" and "sNaN", in any letter case, are special values. */
  lemma SpecialNames(name: string)
    requires var l := Lower(name); l == "inf" || l == "infinity" || l == "nan" || l == "snan"
    ensures BodyReading(name) == NonFinite
  {
    var l := Lower(name);
    if l == "nan" {
      assert l[..3] == "nan" && l[3..] == [];
    } else if l == "snan" {
      assert l[..4] == "snan" && l[4..] == [];
    }
  }

  /** A special value raises in `format_money`, signed or not. */
  lemma SpecialsRaise(neg: bool, name: string)
    requires var l := Lower(name); l == "inf" || l == "infinity" || l == "nan" || l == "snan"
    ensures FormatMoney(Str(name)) == Err(NotFinite)
    ensures FormatMoney(Str((if neg then "-" else "+") + name)) == Err(NotFinite)
  {
    SpecialNames(name);
    SpecialEnds(name);
    StripNoop(name);
    SignedSpecial(if neg then '-' else '+', name);
    assert (if neg then "-" else "+") + name == [if neg then '-' else '+'] + name;
  }

  lemma SignedSpecial(sign: char, body: string)
    requires sign == '+' || sign == '-'
    requires body != [] && !IsSpace(body[|body| - 1]) && BodyReading(body) == NonFinite
    ensures ReadDecimal([sign] + body) == NonFinite
  {
    var t := [sign] + body;
    assert t[|t| - 1] == body[|body| - 1] && t[1..] == body;
    StripNoop(t);
  }

  /** A special value's name starts and ends with a letter. */
  lemma SpecialEnds(name: string)
    requires var l := Lower(name); l == "inf" || l == "infinity" || l == "nan" || l == "snan"
    ensures name != [] && !IsSpace(name[0]) && !IsSpace(name[|name| - 1]) && name[0] != '+' && name[0] != '-'
  {
    var l := Lower(name);
    assert |l| >= 3;
    assert l[0] in "ins" && l[|l| - 1] in "fyn";
    LetterNotSpace(name[0]);
    LetterNotSpace(name[|name| - 1]);
  }

  lemma LetterNotSpace(c: char)
    requires LowerChar(c) in "insfy"
    ensures !IsSpace(c) && c != '+' && c != '-'
  {
  }

  /** The printed amount starts with "-" exactly when the rounded amount is below zero. */
  lemma MoneySign(x: real)
    ensures MoneyText(x)[0] == '-' <==> RoundHalfUp(x * 100.0) < 0
    ensures RoundHalfUp(x * 100.0) >= 0 ==> MoneyText(x)[0] == '$'
  {
  }

  /** An amount that rounds to zero cents, even from below, prints without a sign. */
  lemma MoneyNegativeZero()
    ensures MoneyText(-0.004) == "$0.00"
  {
    assert RoundHalfUp(-0.004 * 100.0) == 0;
    assert Grouped(0) == "0";
    assert PadInt(0, 2) == "00";
  }

  /** Dropping the commas of the grouped dollars leaves digits worth the dollars. */
  lemma {:induction false} GroupedDigits(n: nat)
    ensures var t := RemoveWhere(Grouped(n), IsCommaOrDollar);
      t != [] && AllDigits(t) && DigitsValue(t) == n
    decreases n
  {
    if n < 1000 {
      var s := NatToString(n);
      RemoveWhereNoop(s, IsCommaOrDollar);
      DigitsValueOfNatToString(n);
    } else {
      var head := Grouped(n / 1000);
      var tail := PadInt(n % 1000, 3);
      GroupedDigits(n / 1000);
      var h := RemoveWhere(head, IsCommaOrDollar);
      PaddedDigits(n % 1000, 3, tail);
      GlueRemove(head, ",", tail, h);
      GroupedValue(n, h, tail, RemoveWhere(Grouped(n), IsCommaOrDollar));
    }
  }

  lemma GroupedValue(n: nat, h: string, tail: string, t: string)
    requires n >= 1000 && t == h + tail
    requires AllDigits(h) && h != [] && DigitsValue(h) == n / 1000
    requires AllDigits(tail) && |tail| == 3 && DigitsValue(tail) == n % 1000
    ensures t != [] && AllDigits(t) && DigitsValue(t) == n
  {
    DigitsValueConcat(h, tail);
    ThousandsArith(DigitsValue(t), n / 1000, Pow10(|tail|), n % 1000, n);
  }

  lemma ThousandsArith(v: int, q: int, p: int, r: int, n: nat)
    requires v == q * p + r && p == Pow10(3) && q == n / 1000 && r == n % 1000
    ensures v == n
  {
    assert p == 1000;
  }

  /** A number below 10^width zero-padded to `width` digits. */
  lemma PaddedDigits(n: nat, width: nat, s: string)
    requires n < Pow10(width) && width >= 1 && s == PadInt(n, width)
    ensures |s| == width && AllDigits(s) && DigitsValue(s) == n
    ensures RemoveWhere(s, IsCommaOrDollar) == s
  {
    NatToStringLength(n, width);
    PadIntDigits(n, width);
    RemoveWhereNoop(s, IsCommaOrDollar);
  }

  /** Removing "," and "$" around a one-character separator that is itself removed. */
  lemma GlueRemove(head: string, sep: string, tail: string, h: string)
    requires sep == "," || sep == "$"
    requires RemoveWhere(head, IsCommaOrDollar) == h && RemoveWhere(tail, IsCommaOrDollar) == tail
    ensures RemoveWhere(head + sep + tail, IsCommaOrDollar) == h + tail
  {
    RemoveWhereConcat(head + sep, tail, IsCommaOrDollar);
    RemoveWhereConcat(head, sep, IsCommaOrDollar);
    assert RemoveWhere(sep, IsCommaOrDollar) == [];
  }

  /** The importers' number parser reads a printed amount back as the rounded amount. */
  lemma MoneyRoundTrip(x: real)
    ensures var r := ParseNumber(Str(MoneyText(x)));
      r.Some? && r.value == RoundHalfUp(x * 100.0) as real / 100.0
  {
    CentsRoundTrip(RoundHalfUp(x * 100.0));
  }

  lemma CentsRoundTrip(q: int)
    ensures var r := ParseNumber(Str(CentsText(q)));
      r.Some? && r.value == q as real / 100.0
  {
    var a: nat := if q < 0 then -q else q;
    var body := DollarsText(a);
    var t := RemoveWhere(Grouped(a / 100), IsCommaOrDollar) + "." + PadInt(a % 100, 2);
    MoneyDigits(a, body, t);
    if q < 0 {
      assert CentsText(q) == "-" + body;
      NegativeCents(q, a, body, t, CentsText(q));
    } else {
      assert CentsText(q) == body;
      PositiveCents(q, a, body, t, CentsText(q));
    }
  }

  lemma NegativeCents(q: int, a: nat, body: string, t: string, text: string)
    requires q < 0 && a == -q && text == "-" + body
    requires IsUnsignedDecimal(t) && UnsignedDecimalValue(t) == a as real / 100.0
    requires RemoveWhere(body, IsCommaOrDollar) == t
    requires body != [] && !IsSpace(body[0]) && !IsSpace(body[|body| - 1])
    ensures var r := ParseNumber(Str(text));
      r.Some? && r.value == q as real / 100.0
  {
    ParseNumberIgnoresCurrencyNegative(body, t);
  }

  lemma PositiveCents(q: int, a: nat, body: string, t: string, text: string)
    requires q >= 0 && a == q && text == body
    requires IsUnsignedDecimal(t) && UnsignedDecimalValue(t) == a as real / 100.0
    requires RemoveWhere(body, IsCommaOrDollar) == t
    requires body != [] && !IsSpace(body[0]) && !IsSpace(body[|body| - 1])
    ensures var r := ParseNumber(Str(text));
      r.Some? && r.value == q as real / 100.0
  {
    ParseNumberIgnoresCurrency(body, t);
  }

  /** Once "$" and "," go, the text after the sign is an unsigned numeral worth the cents over 100. */
  lemma MoneyDigits(a: nat, body: string, t: string)
    requires body == DollarsText(a)
    requires t == RemoveWhere(Grouped(a / 100), IsCommaOrDollar) + "." + PadInt(a % 100, 2)
    ensures IsUnsignedDecimal(t) && UnsignedDecimalValue(t) == a as real / 100.0
    ensures RemoveWhere(body, IsCommaOrDollar) == t
    ensures body != [] && !IsSpace(body[0]) && !IsSpace(body[|body| - 1])
  {
    var g := Grouped(a / 100);
    var cents := PadInt(a % 100, 2);
    var h := RemoveWhere(g, IsCommaOrDollar);
    GroupedDigits(a / 100);
    assert Pow10(2) == 100;
    PaddedDigits(a % 100, 2, cents);
    Dollars(h, cents, a / 100, a % 100, t);
    CentsValue(a);
    DollarsRemove(g, cents, h, body, t);
    DollarsEnds(g, cents, body);
  }

  lemma CentsValue(a: nat)
    ensures a as real / 100.0 == (a / 100) as real + (a % 100) as real / 100.0
  {
  }

  lemma DollarsRemove(g: string, cents: string, h: string, body: string, t: string)
    requires RemoveWhere(g, IsCommaOrDollar) == h && AllDigits(cents) && |cents| == 2
    requires body == "$" + g + "." + cents && t == h + "." + cents
    ensures RemoveWhere(body, IsCommaOrDollar) == t
  {
    var rest := "." + cents;
    var tail := g + rest;
    DollarsShape(g, cents, h, body, t, rest, tail);
    CentsPlain(cents, rest);
    RemoveWhereConcat(g, rest, IsCommaOrDollar);
    DollarDropped(tail, t);
  }

  lemma DollarsShape(g: string, cents: string, h: string, body: string, t: string, rest: string, tail: string)
    requires body == "$" + g + "." + cents && t == h + "." + cents
    requires rest == "." + cents && tail == g + rest
    ensures body == "$" + tail && t == h + rest
  {
  }

  /** The point and the two cent digits hold no "," and no "$". */
  lemma CentsPlain(cents: string, rest: string)
    requires AllDigits(cents) && |cents| == 2 && rest == "." + cents
    ensures RemoveWhere(rest, IsCommaOrDollar) == rest
  {
    assert forall i :: 0 <= i < |rest| ==> !IsCommaOrDollar(rest[i]) by {
      forall i | 0 <= i < |rest| ensures !IsCommaOrDollar(rest[i]) {
        if i > 0 {
          assert rest[i] == cents[i - 1];
        }
      }
    }
    RemoveWhereNoop(rest, IsCommaOrDollar);
  }

  lemma DollarDropped(tail: string, r: string)
    requires RemoveWhere(tail, IsCommaOrDollar) == r
    ensures RemoveWhere("$" + tail, IsCommaOrDollar) == r
  {
    RemoveWhereConcat("$", tail, IsCommaOrDollar);
    assert RemoveWhere("$", IsCommaOrDollar) == [];
  }

  lemma DollarsEnds(g: string, cents: string, body: string)
    requires AllDigits(cents) && |cents| == 2 && body == "$" + g + "." + cents
    ensures body != [] && !IsSpace(body[0]) && !IsSpace(body[|body| - 1])
  {
    assert body[0] == '$';
    assert body[|body| - 1] == cents[1];
    assert IsDigit(cents[1]);
  }

  lemma Dollars(h: string, cents: string, whole: nat, c: nat, t: string)
    requires h != [] && AllDigits(h) && DigitsValue(h) == whole
    requires |cents| == 2 && AllDigits(cents) && DigitsValue(cents) == c
    requires t == h + "." + cents
    ensures IsUnsignedDecimal(t) && UnsignedDecimalValue(t) == whole as real + c as real / 100.0
  {
    UnsignedSplit(h, cents);
    assert Shift(c as real, 1) == c as real / 10.0;
    assert Shift(c as real, 2) == c as real / 100.0;
  }
}
