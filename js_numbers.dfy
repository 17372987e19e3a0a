/**
 * JavaScript numbers as far as the review handlers use them: the global
 * `Number(string)` conversion applied to path and query parameters, and
 * strict equality `===` between numbers.
 *
 * Values are exact reals; rounding to IEEE-754 doubles is not modelled.
 */
module JsNumbers {
  import opened Wrappers

  datatype JsNumber = Finite(value: real) | PosInfinity | NegInfinity | NaN

  /** `a === b` on two numbers: NaN equals nothing, not even itself. */
  predicate StrictEquals(a: JsNumber, b: JsNumber): (eq: bool)
    ensures eq <==> a == b && !a.NaN?
  {
    match a
    case Finite(x) => b.Finite? && b.value == x
    case PosInfinity => b.PosInfinity?
    case NegInfinity => b.NegInfinity?
    case NaN => false
  }

  /**
   * The characters StringToNumber strips from both ends: the white space
   * and line terminators of ECMA-262 (section 7.1.4.1.1), including every
   * character of Unicode category Zs.
   */
  predicate IsWhiteSpace(c: char) {
    var u := c as int;
    || (0x09 <= u <= 0x0D)
    || u == 0x20 || u == 0xA0 || u == 0x1680
    || (0x2000 <= u <= 0x200A)
    || u == 0x2028 || u == 0x2029 || u == 0x202F || u == 0x205F
    || u == 0x3000 || u == 0xFEFF
  }

  function TrimStart(s: string): (t: string)
    ensures t == [] || !IsWhiteSpace(t[0])
    ensures |t| <= |s| && t == s[|s| - |t|..]
    ensures forall i :: 0 <= i < |s| - |t| ==> IsWhiteSpace(s[i])
  {
    if s != [] && IsWhiteSpace(s[0]) then TrimStart(s[1..]) else s
  }

  function TrimEnd(s: string): (t: string)
    ensures t == [] || !IsWhiteSpace(t[|t| - 1])
  {
    if s != [] && IsWhiteSpace(s[|s| - 1]) then TrimEnd(s[..|s| - 1]) else s
  }

  /** The value of a digit in radixes up to 36; 36 for a character that is no digit at all. */
  function DigitValue(c: char): nat {
    if '0' <= c <= '9' then (c - '0') as nat
    else if 'a' <= c <= 'z' then (c - 'a') as nat + 10
    else if 'A' <= c <= 'Z' then (c - 'A') as nat + 10
    else 36
  }

  predicate AllDigits(s: string, radix: nat) {
    forall i :: 0 <= i < |s| ==> DigitValue(s[i]) < radix
  }

  /** The value of a digit string read most significant digit first. */
  function DigitsValue(s: string, radix: nat): nat {
    if s == [] then 0 else DigitsValue(s[..|s| - 1], radix) * radix + DigitValue(s[|s| - 1])
  }

  function Pow10(x: int): (p: real)
    ensures p > 0.0
    decreases if x < 0 then -x else x
  {
    if x == 0 then 1.0
    else if x > 0 then 10.0 * Pow10(x - 1)
    else Pow10(x + 1) / 10.0
  }

  /** The first position holding `c1` or `c2`, or `|s|` when there is none. */
  function IndexOf(s: string, c1: char, c2: char): (i: nat)
    ensures i <= |s|
    ensures i < |s| ==> s[i] == c1 || s[i] == c2
    ensures forall j :: 0 <= j < i ==> s[j] != c1 && s[j] != c2
  {
    if s == [] then 0
    else if s[0] == c1 || s[0] == c2 then 0
    else 1 + IndexOf(s[1..], c1, c2)
  }

  /** `0x`, `0o` and `0b` literals: unsigned, at least one digit. */
  function NonDecimal(ds: string, radix: nat): JsNumber {
    if ds != [] && AllDigits(ds, radix) then Finite(DigitsValue(ds, radix) as real) else NaN
  }

  /** The digits of a decimal literal before the exponent: `12`, `12.`, `12.5` or `.5`. */
  function Mantissa(s: string): Option<real> {
    var d := IndexOf(s, '.', '.');
    var whole := s[..d];
    var fraction := if d < |s| then s[d + 1..] else [];
    if |whole| + |fraction| > 0 && AllDigits(whole, 10) && AllDigits(fraction, 10) then
      Some(DigitsValue(whole, 10) as real + DigitsValue(fraction, 10) as real / Pow10(|fraction|))
    else
      None
  }

  /** The exponent after `e` or `E`: an optional sign and at least one digit. */
  function Exponent(s: string): Option<int> {
    var signed := s != [] && (s[0] == '+' || s[0] == '-');
    var digits := if signed then s[1..] else s;
    if digits != [] && AllDigits(digits, 10) then
      Some(if signed && s[0] == '-' then -(DigitsValue(digits, 10) as int) else DigitsValue(digits, 10))
    else
      None
  }

  /** StrUnsignedDecimalLiteral: `Infinity`, or a mantissa with an optional exponent. */
  function UnsignedDecimal(t: string): JsNumber {
    if t == "Infinity" then PosInfinity
    else
      var e := IndexOf(t, 'e', 'E');
      match Mantissa(t[..e])
      case None => NaN
      case Some(m) =>
        if e == |t| then Finite(m)
        else
          match Exponent(t[e + 1..])
          case None => NaN
          case Some(x) => Finite(m * Pow10(x))
  }

  function Negate(n: JsNumber): JsNumber {
    match n
    case Finite(v) => Finite(-v)
    case PosInfinity => NegInfinity
    case NegInfinity => PosInfinity
    case NaN => NaN
  }

  /**
   * `Number(s)` for a string `s`: surrounding white space is ignored, the
   * empty string is 0, and anything that is not a numeric literal is NaN.
   */
  function ToNumber(s: string): (n: JsNumber)
    ensures (forall i :: 0 <= i < |s| ==> IsWhiteSpace(s[i])) ==> n == Finite(0.0)
  {
    var t := TrimEnd(TrimStart(s));
    if t == [] then Finite(0.0)
    else if |t| >= 2 && t[0] == '0' && (t[1] == 'x' || t[1] == 'X') then NonDecimal(t[2..], 16)
    else if |t| >= 2 && t[0] == '0' && (t[1] == 'o' || t[1] == 'O') then NonDecimal(t[2..], 8)
    else if |t| >= 2 && t[0] == '0' && (t[1] == 'b' || t[1] == 'B') then NonDecimal(t[2..], 2)
    else if t[0] == '-' then Negate(UnsignedDecimal(t[1..]))
    else if t[0] == '+' then UnsignedDecimal(t[1..])
    else UnsignedDecimal(t)
  }

  function DigitChar(d: nat): (c: char)
    requires d < 10
    ensures DigitValue(c) == d
  {
    '0' + d as char
  }

  /** The decimal digits of `n`, without leading zeros. */
  function NatString(n: nat): string
    decreases n
  {
    if n < 10 then [DigitChar(n)] else NatString(n / 10) + [DigitChar(n % 10)]
  }

  /** `String(n)` for an integer `n` of magnitude below 10^21, where JavaScript prints no exponent. */
  function DecimalString(n: int): string {
    if n < 0 then "-" + NatString(-n) else NatString(n)
  }

  lemma {:induction false} NatStringDigits(n: nat)
    ensures NatString(n) != [] && AllDigits(NatString(n), 10)
    ensures DigitsValue(NatString(n), 10) == n
    decreases n
  {
    if n >= 10 {
      NatStringDigits(n / 10);
      var s := NatString(n);
      assert s[..|s| - 1] == NatString(n / 10);
    }
  }

  /** A plain digit string reads as its decimal value. */
  lemma DecimalDigitsValue(ds: string)
    requires ds != [] && AllDigits(ds, 10)
    ensures UnsignedDecimal(ds) == Finite(DigitsValue(ds, 10) as real)
  {
    assert DigitValue(ds[0]) < 10;
    assert ds != "Infinity";
    var e := IndexOf(ds, 'e', 'E');
    var d := IndexOf(ds, '.', '.');
    assert ds[..e] == ds;
    assert ds[..e][..d] == ds;
  }

  lemma TrimKeeps(s: string)
    requires s != [] && !IsWhiteSpace(s[0]) && !IsWhiteSpace(s[|s| - 1])
    ensures TrimEnd(TrimStart(s)) == s
  {
  }

  lemma NumberOfDigits(ds: string)
    requires ds != [] && AllDigits(ds, 10)
    ensures ToNumber(ds) == Finite(DigitsValue(ds, 10) as real)
  {
    assert DigitValue(ds[0]) < 10;
    assert DigitValue(ds[|ds| - 1]) < 10;
    TrimKeeps(ds);
    assert |ds| >= 2 ==> DigitValue(ds[1]) < 10;
    DecimalDigitsValue(ds);
  }

  lemma NumberOfNegativeDigits(ds: string)
    requires ds != [] && AllDigits(ds, 10)
    ensures ToNumber("-" + ds) == Finite(-(DigitsValue(ds, 10) as real))
  {
    var s := "-" + ds;
    assert DigitValue(ds[|ds| - 1]) < 10;
    assert s[|s| - 1] == ds[|ds| - 1];
    TrimKeeps(s);
    assert s[0] == '-' && s[1..] == ds;
    DecimalDigitsValue(ds);
  }

  /** Round trip: `Number(String(n)) === n` for every integer `n` printed in plain decimal. */
  lemma NumberOfDecimalString(n: int)
    ensures DecimalString(n) != ""
    ensures ToNumber(DecimalString(n)) == Finite(n as real)
  {
    if n < 0 {
      NatStringDigits(-n);
      NumberOfNegativeDigits(NatString(-n));
    } else {
      NatStringDigits(n);
      NumberOfDigits(NatString(n));
    }
  }
}
