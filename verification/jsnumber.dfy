/** JavaScript's conversions between strings and numbers, as the scripts
    use them through `Number(...)`, `String(...)` and template literals.
    Numbers are exact reals: the rounding of IEEE doubles is not modelled. */
module JsNumber {
  import opened Text
  import opened Options

  /** A JavaScript number value. */
  datatype Number = Finite(x: real) | Infinite(negative: bool) | NaN {

    /** `Number.isFinite`. */
    predicate IsFinite() {
      Finite?
    }
  }

  function Pow10(e: nat): (r: real)
    ensures r >= 1.0
  {
    if e == 0 then 1.0 else 10.0 * Pow10(e - 1)
  }

  /** `v * 10^e` for a signed exponent. */
  function Scale(v: real, e: int): (r: real)
    ensures v >= 0.0 ==> r >= 0.0
  {
    if e >= 0 then v * Pow10(e) else v / Pow10(-e)
  }

  /** The value of `whole.fraction` written in decimal digits. */
  function MantissaValue(whole: string, fraction: string): (r: real)
    requires AllDigits(whole) && AllDigits(fraction)
    ensures r >= 0.0
  {
    var f := DigitsValue(fraction) as real / Pow10(|fraction|);
    assert f >= 0.0;
    DigitsValue(whole) as real + f
  }

  /** Value of a hexadecimal, octal or binary digit; 16 when `c` is none. */
  function RadixDigit(c: char): nat {
    if '0' <= c <= '9' then c as int - '0' as int
    else if 'a' <= c <= 'f' then c as int - 'a' as int + 10
    else if 'A' <= c <= 'F' then c as int - 'A' as int + 10
    else 16
  }

  /** The radix a `0x`/`0o`/`0b` prefix letter selects, 0 for any other letter. */
  function RadixOf(c: char): nat {
    if c == 'x' || c == 'X' then 16
    else if c == 'o' || c == 'O' then 8
    else if c == 'b' || c == 'B' then 2
    else 0
  }

  predicate AllRadixDigits(s: string, radix: nat) {
    forall i :: 0 <= i < |s| ==> RadixDigit(s[i]) < radix
  }

  function RadixValue(s: string, radix: nat): nat
    requires AllRadixDigits(s, radix)
  {
    if |s| == 0 then 0
    else radix * RadixValue(s[..|s| - 1], radix) + RadixDigit(s[|s| - 1])
  }

  /** NonDecimalIntegerLiteral after its prefix: at least one digit of the radix. */
  function ParseRadix(digits: string, radix: nat): (r: Number)
    ensures r.Finite? || r.NaN?
  {
    if |digits| > 0 && AllRadixDigits(digits, radix) then Finite(RadixValue(digits, radix) as real)
    else NaN
  }

  predicate IsExponentMark(c: char) {
    c == 'e' || c == 'E'
  }

  predicate IsDot(c: char) {
    c == '.'
  }

  /** An ExponentPart's signed digits: `[+-]? digits`. */
  function ParseExponent(s: string): Option<int> {
    if |s| > 0 && (s[0] == '+' || s[0] == '-') then
      if |s| > 1 && AllDigits(s[1..]) then
        var magnitude: int := DigitsValue(s[1..]);
        Some(if s[0] == '-' then -magnitude else magnitude)
      else None
    else if |s| > 0 && AllDigits(s) then Some(DigitsValue(s))
    else None
  }

  /** StrUnsignedDecimalLiteral without `Infinity`:
      `digits [. digits?] [exp]` or `. digits [exp]`. */
  function ParseUnsignedDecimal(s: string): (r: Number)
    ensures r.Finite? ==> r.x >= 0.0
    ensures r.Finite? || r.NaN?
  {
    var e := IndexWhere(s, IsExponentMark);
    var mantissa := s[..e];
    var exponent := if e < |s| then ParseExponent(s[e + 1..]) else Some(0);
    var dot := IndexWhere(mantissa, IsDot);
    var whole := mantissa[..dot];
    var fraction := if dot < |mantissa| then mantissa[dot + 1..] else "";
    if AllDigits(whole) && AllDigits(fraction) && |whole| + |fraction| > 0 && exponent.Some? then
      Finite(Scale(MantissaValue(whole, fraction), exponent.value))
    else NaN
  }

  function Negate(n: Number): Number {
    match n
    case Finite(x) => Finite(-x)
    case Infinite(neg) => Infinite(!neg)
    case NaN => NaN
  }

  /** `Number(s)` for a string `s` (the StringToNumber operation of ECMAScript). */
  function StringToNumber(s: string): (r: Number)
    ensures Trim(s) == "" ==> r == Finite(0.0)
  {
    var t := Trim(s);
    if |t| == 0 then Finite(0.0)
    else if t == "Infinity" || t == "+Infinity" then Infinite(false)
    else if t == "-Infinity" then Infinite(true)
    else if |t| >= 2 && t[0] == '0' && RadixOf(t[1]) > 0 then ParseRadix(t[2..], RadixOf(t[1]))
    else if t[0] == '-' then Negate(ParseUnsignedDecimal(t[1..]))
    else if t[0] == '+' then ParseUnsignedDecimal(t[1..])
    else ParseUnsignedDecimal(t)
  }

  /** `String(i)` for an integer `i`. */
  function IntToString(i: int): (r: string)
    ensures |r| > 0
  {
    if i < 0 then "-" + NatToDecimal(-i) else NatToDecimal(i)
  }

  /** Decimal digits of a fraction in [0, 1), at most `places` of them,
      stopping once the remainder is zero. */
  function FractionDigits(f: real, places: nat): string
    requires 0.0 <= f < 1.0
    decreases places
  {
    if f == 0.0 || places == 0 then ""
    else
      var d := (f * 10.0).Floor;
      [DigitChar(d)] + FractionDigits(f * 10.0 - d as real, places - 1)
  }

  /** `String(x)` for a finite number `x`. */
  function NumberToString(x: real): (r: string)
    ensures |r| > 0 && (IsDigit(r[0]) || r[0] == '-')
  {
    var magnitude := if x < 0.0 then -x else x;
    var whole := magnitude.Floor;
    var digits := NatToDecimal(whole) +
      (if magnitude == whole as real then "" else "." + FractionDigits(magnitude - whole as real, 16));
    if x < 0.0 then "-" + digits else digits
  }

  /** `String(n)` for any number value. */
  function ToString(n: Number): (r: string)
    ensures |r| > 0
  {
    match n
    case Finite(x) => NumberToString(x)
    case Infinite(neg) => if neg then "-Infinity" else "Infinity"
    case NaN => "NaN"
  }

  /** For integers the number notation is the integer notation. */
  lemma IntegralNumberToString(i: int)
    ensures NumberToString(i as real) == IntToString(i)
  {
    if i < 0 {
      assert (-(i as real)).Floor == -i;
    } else {
      assert (i as real).Floor == i;
    }
  }

  /** `Number(String(n)) === n` for every natural number `n`: the decimal
      notation an index is written in reads back as that index. */
  lemma NatStringRoundTrip(n: nat)
    ensures StringToNumber(IntToString(n)) == Finite(n as real)
  {
    var t := NatToDecimal(n);
    assert IntToString(n) == t;
    DigitsDispatch(t);
    UnsignedDigits(t);
    DecimalRoundTrip(n);
  }

  /** A digit string without a leading zero reaches the plain decimal parser. */
  lemma DigitsDispatch(t: string)
    requires |t| > 0 && AllDigits(t) && (|t| > 1 ==> t[0] != '0')
    ensures StringToNumber(t) == ParseUnsignedDecimal(t)
  {
    TrimOfTrimmed(t);
    assert t[0] != 'I' && t[0] != '+' && t[0] != '-';
    assert t != "Infinity" && t != "+Infinity" && t != "-Infinity";
  }

  /** A plain digit string parses to its decimal value. */
  lemma UnsignedDigits(t: string)
    requires |t| > 0 && AllDigits(t)
    ensures ParseUnsignedDecimal(t) == Finite(DigitsValue(t) as real)
  {
    PlainDigitsParts(t);
    MantissaOfWhole(t);
    ScaleZero(DigitsValue(t) as real);
  }

  /** A digit string is all mantissa, all whole part, with exponent 0. */
  lemma PlainDigitsParts(t: string)
    requires |t| > 0 && AllDigits(t)
    ensures ParseUnsignedDecimal(t) == Finite(Scale(MantissaValue(t, ""), 0))
  {
    NoMarkInDigits(t);
    assert t[..|t|] == t;
  }

  lemma MantissaOfWhole(t: string)
    requires AllDigits(t)
    ensures MantissaValue(t, "") == DigitsValue(t) as real
  {
    assert Pow10(0) == 1.0;
  }

  lemma ScaleZero(v: real)
    ensures Scale(v, 0) == v
  {
    assert Pow10(0) == 1.0;
  }

  /** A digit string contains neither an exponent mark nor a decimal point. */
  lemma NoMarkInDigits(s: string)
    requires AllDigits(s)
    ensures IndexWhere(s, IsExponentMark) == |s|
    ensures IndexWhere(s, IsDot) == |s|
  {
  }
}
