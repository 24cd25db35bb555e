/**
 * The part of JavaScript's `parseFloat` the importer needs, over exact
 * values: skip leading whitespace, read an optional sign, then either the
 * word `Infinity` or the longest decimal literal at the front of the
 * string (digits, an optional fraction, an optional exponent). Anything
 * else gives NaN.
 */
module JsNumbers {
  import opened Wrappers
  import opened Text

  /** A JavaScript number, with finite values exact rather than rounded. */
  datatype Number = NaN | Finite(value: real) | Infinite(negative: bool)

  /** Unary minus. */
  function Negate(n: Number): (m: Number)
    ensures n.NaN? <==> m.NaN?
    ensures n.Finite? ==> m == Finite(-n.value)
  {
    match n
    case NaN => NaN
    case Finite(v) => Finite(-v)
    case Infinite(neg) => Infinite(!neg)
  }

  function Pow10(n: nat): (p: nat)
    ensures p >= 1
  {
    if n == 0 then 1 else 10 * Pow10(n - 1)
  }

  /** Ten to the power `e`, for any integer `e`. */
  function Scale(e: int): (r: real)
    ensures r > 0.0
    ensures e == 0 ==> r == 1.0
  {
    if e >= 0 then Pow10(e) as real else 1.0 / (Pow10(-e) as real)
  }

  function DigitValue(c: char): nat {
    if IsDigit(c) then c as int - '0' as int else 0
  }

  /** The value of a string of decimal digits, most significant first. */
  function DigitsValue(s: string): nat {
    if s == [] then 0 else DigitsValue(s[..|s| - 1]) * 10 + DigitValue(s[|s| - 1])
  }

  /** The number of digits at the front of `s`. */
  function DigitRun(s: string): (n: nat)
    ensures n <= |s|
    ensures forall i :: 0 <= i < n ==> IsDigit(s[i])
    ensures n == |s| || !IsDigit(s[n])
  {
    if s != [] && IsDigit(s[0]) then 1 + DigitRun(s[1..]) else 0
  }

  /**
   * The exponent written at the front of `r` (`e`/`E`, an optional sign,
   * at least one digit), or 0 when `r` does not start with one.
   */
  function ExponentOf(r: string): int {
    if |r| >= 2 && (r[0] == 'e' || r[0] == 'E') then
      var digits := if r[1] == '+' || r[1] == '-' then r[2..] else r[1..];
      var n := DigitRun(digits);
      if n == 0 then 0
      else if r[1] == '-' then -(DigitsValue(digits[..n]) as int)
      else DigitsValue(digits[..n])
    else 0
  }

  /** The value of whole digits, a decimal point and fraction digits. */
  function DecimalValue(whole: string, fraction: string): real {
    DigitsValue(whole) as real + DigitsValue(fraction) as real / Pow10(|fraction|) as real
  }

  /** The value of a literal with the given whole digits, fraction digits and exponent. */
  function LiteralValue(whole: string, fraction: string, exponent: int): real {
    DecimalValue(whole, fraction) * Scale(exponent)
  }

  /**
   * The longest unsigned decimal literal at the front of `u`: digits with an
   * optional `.` and fraction, or `.` and at least one fraction digit; then
   * an optional exponent. None when there is none.
   */
  function UnsignedDecimal(u: string): Option<real> {
    var n1 := DigitRun(u);
    var rest := u[n1..];
    if |rest| > 0 && rest[0] == '.' then
      var n2 := DigitRun(rest[1..]);
      if n1 == 0 && n2 == 0 then None
      else Some(LiteralValue(u[..n1], rest[1..1 + n2], ExponentOf(rest[1 + n2..])))
    else if n1 == 0 then None
    else Some(LiteralValue(u[..n1], [], ExponentOf(rest)))
  }

  /** An unsigned number at the front of `u`: `Infinity` or a decimal literal. */
  function UnsignedNumber(u: string): Number {
    if StartsWith(u, "Infinity") then Infinite(false)
    else match UnsignedDecimal(u)
      case None => NaN
      case Some(m) => Finite(m)
  }

  /** A number with an optional leading `+` or `-`. */
  function SignedNumber(t: string): Number {
    var signed := t != [] && (t[0] == '-' || t[0] == '+');
    var magnitude := UnsignedNumber(if signed then t[1..] else t);
    if signed && t[0] == '-' then Negate(magnitude) else magnitude
  }

  /** `parseFloat(s)`. */
  function ParseFloat(s: string): Number {
    SignedNumber(TrimStart(s))
  }

  lemma {:induction false} DigitsValueAppend(a: string, b: string)
    ensures DigitsValue(a + b) == DigitsValue(a) * Pow10(|b|) + DigitsValue(b)
  {
    if b == [] {
      assert a + b == a;
    } else {
      var b' := b[..|b| - 1];
      var last := DigitValue(b[|b| - 1]);
      assert (a + b)[..|a + b| - 1] == a + b' && (a + b)[|a + b| - 1] == b[|b| - 1];
      DigitsValueAppend(a, b');
      ShiftDigit(DigitsValue(a), Pow10(|b'|), DigitsValue(b'), last);
    }
  }

  /** Appending one digit to `x * p + y` multiplies by ten and adds it. */
  lemma ShiftDigit(x: nat, p: nat, y: nat, d: nat)
    ensures (x * p + y) * 10 + d == x * (p * 10) + (y * 10 + d)
  {
    assert x * p * 10 == x * (p * 10);
  }

  lemma {:induction false} DigitRunAppend(d: string, x: string)
    requires AllDigits(d)
    requires x == [] || !IsDigit(x[0])
    ensures DigitRun(d + x) == |d|
  {
    if d == [] {
      assert d + x == x;
    } else {
      assert (d + x)[1..] == d[1..] + x;
      DigitRunAppend(d[1..], x);
    }
  }

  /**
   * A literal made of whole digits, `.`, fraction digits and a tail that
   * cannot continue the literal parses to exactly its decimal value.
   */
  lemma DecimalLiteral(d: string, f: string, tail: string)
    requires d != [] && AllDigits(d) && AllDigits(f)
    requires tail == [] || (!IsDigit(tail[0]) && tail[0] != 'e' && tail[0] != 'E')
    ensures ParseFloat(d + "." + f + tail) == Finite(DecimalValue(d, f))
  {
    var s := d + "." + f + tail;
    assert s[0] == d[0];
    ParseUnsigned(s);
    UnsignedLiteral(d, f, tail);
    LiteralWithoutExponent(d, f);
    calc {
      ParseFloat(s);
      Finite(UnsignedDecimal(s).value);
      Finite(LiteralValue(d, f, 0));
    }
  }

  /** Text starting with a digit is read as an unsigned literal. */
  lemma ParseUnsigned(s: string)
    requires s != [] && IsDigit(s[0])
    ensures UnsignedDecimal(s).Some? ==> ParseFloat(s) == Finite(UnsignedDecimal(s).value)
    ensures UnsignedDecimal(s).None? ==> ParseFloat(s) == NaN
  {
    assert TrimStart(s) == s;
    assert !StartsWith(s, "Infinity") by { assert s[0] != 'I'; }
  }

  lemma LiteralWithoutExponent(d: string, f: string)
    ensures LiteralValue(d, f, 0) == DecimalValue(d, f)
  {
    assert Scale(0) == 1.0;
  }

  /** The literal at the front of `d + rest`, where `d` is the whole digit run and `rest` starts with `.`. */
  lemma DecimalAt(d: string, rest: string, n2: nat)
    requires d != [] && DigitRun(d + rest) == |d|
    requires rest != [] && rest[0] == '.' && n2 < |rest|
    requires DigitRun(rest[1..]) == n2
    requires ExponentOf(rest[1 + n2..]) == 0
    ensures UnsignedDecimal(d + rest) == Some(LiteralValue(d, rest[1..1 + n2], 0))
  {
    var u := d + rest;
    assert u[..|d|] == d && u[|d|..] == rest;
  }

  /** The fraction digits and what follows them, after the point. */
  lemma FractionAt(f: string, tail: string)
    requires AllDigits(f)
    requires tail == [] || (!IsDigit(tail[0]) && tail[0] != 'e' && tail[0] != 'E')
    ensures var rest := "." + f + tail;
      && DigitRun(rest[1..]) == |f|
      && rest[1..1 + |f|] == f
      && ExponentOf(rest[1 + |f|..]) == 0
  {
    var rest := "." + f + tail;
    assert rest[1..] == f + tail;
    DigitRunAppend(f, tail);
    assert rest[1 + |f|..] == tail;
  }

  lemma UnsignedLiteral(d: string, f: string, tail: string)
    requires d != [] && AllDigits(d) && AllDigits(f)
    requires tail == [] || (!IsDigit(tail[0]) && tail[0] != 'e' && tail[0] != 'E')
    ensures UnsignedDecimal(d + "." + f + tail) == Some(LiteralValue(d, f, 0))
  {
    var rest := "." + f + tail;
    assert d + "." + f + tail == d + rest;
    DigitRunAppend(d, rest);
    FractionAt(f, tail);
    DecimalAt(d, rest, |f|);
  }

  /** Text that starts with no whitespace, sign, digit, `.` or `I` is not a number. */
  lemma NotANumber(s: string)
    requires |s| > 0
    requires !IsWhitespace(s[0]) && !IsDigit(s[0])
    requires s[0] !in {'+', '-', '.', 'I'}
    ensures ParseFloat(s) == NaN
  {
    assert TrimStart(s) == s;
    assert !StartsWith(s, "Infinity") by { assert s[0] != 'I'; }
  }
}
