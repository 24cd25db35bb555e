/**
 * `convertFinancialValue`: amounts written the Brazilian way, with `.`
 * between thousands, `,` before the cents and parentheses around a
 * negative amount. The converter does not map bad text to zero: what
 * `parseFloat` cannot read stays NaN.
 */
module FinancialValues {
  import opened Text
  import opened JsNumbers

  /** Starts with `(` and ends with `)`: the only shape read as negative. */
  predicate IsParenthesized(s: string) {
    StartsWith(s, "(") && EndsWith(s, ")")
  }

  /** Every `.` removed, then the first `,` turned into `.`. */
  function Clean(s: string): string {
    ReplaceFirst(RemoveChar(s, '.'), ',', '.')
  }

  /** `convertFinancialValue(valueStr)`. */
  function ConvertFinancialValue(valueStr: string): Number {
    var isNegative := IsParenthesized(valueStr);
    assert isNegative ==> valueStr[0] == '(' && valueStr[|valueStr| - 1] == ')';
    var cleanValue := if isNegative then valueStr[1..|valueStr| - 1] else valueStr;
    var numValue := ParseFloat(Clean(cleanValue));
    if isNegative then Negate(numValue) else numValue
  }

  // A reference formatter: the way an amount in cents is written in the
  // ledger, used to state what the converter reads back.

  function DigitChar(d: nat): (c: char)
    requires d < 10
    ensures IsDigit(c) && DigitValue(c) == d
  {
    ('0' as int + d) as char
  }

  /** The decimal digits of `n`, without leading zeros. */
  function Digits(n: nat): (s: string)
    ensures s != [] && AllDigits(s) && DigitsValue(s) == n
  {
    if n < 10 then [DigitChar(n)]
    else
      var s := Digits(n / 10) + [DigitChar(n % 10)];
      assert s[..|s| - 1] == Digits(n / 10);
      s
  }

  /** The last `width` decimal digits of `n`, zero-padded. */
  function Fixed(n: nat, width: nat): (s: string)
    requires n < Pow10(width)
    ensures |s| == width
  {
    if width == 0 then [] else Fixed(n / 10, width - 1) + [DigitChar(n % 10)]
  }

  lemma {:induction false} FixedDigits(n: nat, width: nat)
    requires n < Pow10(width)
    ensures AllDigits(Fixed(n, width)) && DigitsValue(Fixed(n, width)) == n
  {
    if width > 0 {
      var s := Fixed(n, width);
      var init := Fixed(n / 10, width - 1);
      FixedDigits(n / 10, width - 1);
      assert s[..|s| - 1] == init;
      assert forall i :: 0 <= i < |s| - 1 ==> s[i] == init[i];
    }
  }

  /**
   * `k` with a `.` between groups of three digits. With the dots removed it
   * is the plain digit string of `k` (`GroupedDigits`).
   */
  function Grouped(k: nat): (s: string)
    ensures s != [] && IsDigit(s[0])
  {
    if k < 1000 then Digits(k) else Grouped(k / 1000) + "." + Fixed(k % 1000, 3)
  }

  lemma {:induction false} GroupedDigits(k: nat)
    ensures ',' !in Grouped(k)
    ensures RemoveChar(Grouped(k), '.') != [] && AllDigits(RemoveChar(Grouped(k), '.'))
    ensures DigitsValue(RemoveChar(Grouped(k), '.')) == k
  {
    var s := Grouped(k);
    if k < 1000 {
      RemoveCharAbsent(s, '.');
    } else {
      var q := k / 1000;
      var head := Grouped(q);
      var group := Fixed(k % 1000, 3);
      var digits := RemoveChar(head, '.');
      GroupedDigits(q);
      FixedDigits(k % 1000, 3);
      assert s == head + ("." + group);
      assert ',' !in s;
      RemoveCharAppend(head, "." + group, '.');
      assert ("." + group)[1..] == group;
      RemoveCharAbsent(group, '.');
      assert RemoveChar(s, '.') == digits + group;
      DigitsValueAppend(digits, group);
      assert Pow10(3) == 1000;
      assert DigitsValue(digits + group) == q * 1000 + k % 1000;
      assert forall i :: 0 <= i < |digits + group| ==>
        (digits + group)[i] == if i < |digits| then digits[i] else group[i - |digits|];
    }
  }

  /** A non-negative amount of cents: grouped units, `,` and two digits. */
  function Magnitude(cents: nat): string {
    Grouped(cents / 100) + "," + Fixed(cents % 100, 2)
  }

  /** An amount of cents as the ledger writes it, negative ones in parentheses. */
  function FormatAmount(cents: int): string {
    if cents < 0 then "(" + Magnitude(-cents) + ")" else Magnitude(cents)
  }

  /** Cleaning and parsing a written magnitude followed by non-numeric text gives its value. */
  lemma MagnitudeValue(cents: nat, tail: string)
    requires '.' !in tail && ',' !in tail
    requires tail == [] || (!IsDigit(tail[0]) && tail[0] != 'e' && tail[0] != 'E')
    ensures ParseFloat(Clean(Magnitude(cents) + tail)) == Finite(cents as real / 100.0)
  {
    var d := RemoveChar(Grouped(cents / 100), '.');
    var f := Fixed(cents % 100, 2);
    GroupedDigits(cents / 100);
    FixedDigits(cents % 100, 2);
    CleanMagnitude(cents, tail);
    DecimalLiteral(d, f, tail);
    TwoDigitFraction(d, f);
    CentsSplit(cents);
  }

  lemma CleanMagnitude(cents: nat, tail: string)
    requires '.' !in tail && ',' !in tail
    ensures Clean(Magnitude(cents) + tail)
         == RemoveChar(Grouped(cents / 100), '.') + "." + Fixed(cents % 100, 2) + tail
  {
    GroupedDigits(cents / 100);
    FixedDigits(cents % 100, 2);
    CleanParts(Grouped(cents / 100), Fixed(cents % 100, 2), tail);
  }

  /** Cleaning `g,f` followed by `tail`: the dots of `g` go, the comma becomes the point. */
  lemma CleanParts(g: string, f: string, tail: string)
    requires ',' !in g && AllDigits(f) && '.' !in tail
    ensures Clean(g + "," + f + tail) == RemoveChar(g, '.') + "." + f + tail
  {
    var d := RemoveChar(g, '.');
    var rest := f + tail;
    assert '.' !in [','] + rest;
    calc {
      Clean(g + "," + f + tail);
      { Associate(g, [','], f); Associate(g, [','] + f, tail); Associate([','], f, tail); }
      ReplaceFirst(RemoveChar(g + ([','] + rest), '.'), ',', '.');
      { RemoveCharAppend(g, [','] + rest, '.'); RemoveCharAbsent([','] + rest, '.'); }
      ReplaceFirst(d + ([','] + rest), ',', '.');
      { Associate(d, [','], rest); }
      ReplaceFirst(d + [','] + rest, ',', '.');
      { ReplaceFirstAfter(d, ',', '.', rest); }
      d + ['.'] + rest;
      { Associate(d + ".", f, tail); }
      d + "." + f + tail;
    }
  }

  lemma Associate(a: string, b: string, c: string)
    ensures a + (b + c) == a + b + c
  {
  }

  lemma TwoDigitFraction(d: string, f: string)
    requires |f| == 2
    ensures DecimalValue(d, f) == DigitsValue(d) as real + DigitsValue(f) as real / 100.0
  {
    assert Pow10(2) == 100;
  }

  lemma CentsSplit(cents: nat)
    ensures (cents / 100) as real + (cents % 100) as real / 100.0 == cents as real / 100.0
  {
    var q, r := cents / 100, cents % 100;
    assert cents == 100 * q + r;
    assert cents as real == 100.0 * q as real + r as real;
  }

  /** Every amount the ledger can write is read back exactly. */
  lemma FormatRoundTrip(cents: int)
    ensures ConvertFinancialValue(FormatAmount(cents)) == Finite(cents as real / 100.0)
  {
    if cents < 0 {
      NegativeFormatRoundTrip(cents);
    } else {
      PositiveFormatRoundTrip(cents);
    }
  }

  /** The two signs of `FormatRoundTrip`, one lemma each. */
  lemma NegativeFormatRoundTrip(cents: int)
    requires cents < 0
    ensures ConvertFinancialValue(FormatAmount(cents)) == Finite(cents as real / 100.0)
  {
    var n: nat := -cents;
    calc {
      ConvertFinancialValue(FormatAmount(cents));
      { assert FormatAmount(cents) == "(" + Magnitude(n) + ")"; }
      ConvertFinancialValue("(" + Magnitude(n) + ")");
      { NegativeRoundTrip(n); }
      Finite(-(n as real / 100.0));
      { assert -(n as real / 100.0) == cents as real / 100.0; }
      Finite(cents as real / 100.0);
    }
  }

  lemma PositiveFormatRoundTrip(cents: int)
    requires cents >= 0
    ensures ConvertFinancialValue(FormatAmount(cents)) == Finite(cents as real / 100.0)
  {
    calc {
      ConvertFinancialValue(FormatAmount(cents));
      { assert FormatAmount(cents) == Magnitude(cents); }
      ConvertFinancialValue(Magnitude(cents));
      { PositiveRoundTrip(cents); }
      Finite(cents as real / 100.0);
    }
  }

  lemma PositiveRoundTrip(cents: nat)
    ensures ConvertFinancialValue(Magnitude(cents)) == Finite(cents as real / 100.0)
  {
    MagnitudeLeads(cents, []);
    assert Magnitude(cents) + [] == Magnitude(cents);
    PlainConverts(Magnitude(cents));
    MagnitudeAlone(cents);
  }

  lemma NegativeRoundTrip(cents: nat)
    ensures ConvertFinancialValue("(" + Magnitude(cents) + ")") == Finite(-(cents as real / 100.0))
  {
    MagnitudeAlone(cents);
    WrappedConverts(Magnitude(cents), cents as real / 100.0);
  }

  /** A written magnitude with nothing after it reads back as its amount. */
  lemma MagnitudeAlone(cents: nat)
    ensures ParseFloat(Clean(Magnitude(cents))) == Finite(cents as real / 100.0)
  {
    assert Magnitude(cents) + [] == Magnitude(cents);
    MagnitudeValue(cents, []);
  }

  /** A written magnitude, whatever follows it, starts with a digit. */
  lemma MagnitudeLeads(cents: nat, tail: string)
    ensures Magnitude(cents) + tail != [] && IsDigit((Magnitude(cents) + tail)[0])
  {
    assert (Magnitude(cents) + tail)[0] == Grouped(cents / 100)[0];
  }

  /** Text that does not start with `(` is cleaned and parsed as it is. */
  lemma PlainConverts(s: string)
    requires s != [] && s[0] != '('
    ensures ConvertFinancialValue(s) == ParseFloat(Clean(s))
  {
    assert !IsParenthesized(s) by {
      assert s[..1][0] == s[0];
    }
  }

  /** Text in parentheses whose inside reads as `x` reads as `-x`. */
  lemma WrappedConverts(m: string, x: real)
    requires ParseFloat(Clean(m)) == Finite(x)
    ensures ConvertFinancialValue("(" + m + ")") == Finite(-x)
  {
    var w := "(" + m + ")";
    assert w[..1] == "(" && w[|w| - 1..] == ")";
    assert w[1..|w| - 1] == m;
  }

  /** Wrapping any non-parenthesized text in parentheses negates what it converts to. */
  lemma ParenthesesNegate(s: string)
    requires !IsParenthesized(s)
    ensures ConvertFinancialValue("(" + s + ")") == Negate(ConvertFinancialValue(s))
  {
    var w := "(" + s + ")";
    assert w[..1] == "(" && w[|w| - 1..] == ")";
    assert w[1..|w| - 1] == s;
  }

  /** A closing parenthesis alone does not make a value negative: it is trailing text. */
  lemma ClosingParenthesisIgnored(cents: nat)
    ensures ConvertFinancialValue(Magnitude(cents) + ")") == Finite(cents as real / 100.0)
  {
    MagnitudeLeads(cents, ")");
    PlainConverts(Magnitude(cents) + ")");
    MagnitudeValue(cents, ")");
  }

  lemma CleanKeepsFirst(s: string)
    requires s != [] && s[0] != '.' && s[0] != ','
    ensures Clean(s) != [] && Clean(s)[0] == s[0]
  {
  }

  /** An opening parenthesis without a closing one makes the value NaN. */
  lemma OpeningParenthesisIsNaN(s: string)
    requires StartsWith(s, "(") && !EndsWith(s, ")")
    ensures ConvertFinancialValue(s) == NaN
  {
    assert s[0] == '(';
    CleanKeepsFirst(s);
    NotANumber(Clean(s));
  }

  /** Text starting with a letter other than `I` is NaN, not zero. */
  lemma WordIsNaN(s: string)
    requires s != [] && (('a' <= s[0] <= 'z') || ('A' <= s[0] <= 'Z' && s[0] != 'I'))
    ensures ConvertFinancialValue(s) == NaN
  {
    assert !IsParenthesized(s) by { assert s[0] != '('; }
    CleanKeepsFirst(s);
    NotANumber(Clean(s));
  }

  /** The empty cell would convert to NaN; the row loop gives it 0 before it gets here. */
  lemma EmptyIsNaN()
    ensures ConvertFinancialValue("") == NaN
  {
  }

  /** `"1.500,00"` is 1500 and `"(200,50)"` is -200.5. */
  lemma LedgerExamples()
    ensures ConvertFinancialValue("1.500,00") == Finite(1500.0)
    ensures ConvertFinancialValue("(200,50)") == Finite(-200.5)
  {
    ThousandsWritten();
    FormatRoundTrip(150000);
    NegativeWritten();
    FormatRoundTrip(-20050);
  }

  lemma ThousandsWritten()
    ensures FormatAmount(150000) == "1.500,00"
  {
    assert FormatAmount(150000) == "1.500" + "," + "00" by {
      FifteenHundred();
      ZeroCents();
      MagnitudeParts(150000, 1500, 0, "1.500", "00");
    }
    assert "1.500" + "," + "00" == "1.500,00";
  }

  /** A magnitude is its grouped units, `,` and its two cent digits. */
  lemma MagnitudeParts(cents: nat, units: nat, fraction: nat, unitsText: string, fractionText: string)
    requires cents == units * 100 + fraction && fraction < 100
    requires Grouped(units) == unitsText && Fixed(fraction, 2) == fractionText
    ensures FormatAmount(cents) == unitsText + "," + fractionText
    ensures cents > 0 ==> FormatAmount(-(cents as int)) == "(" + FormatAmount(cents) + ")"
  {
    assert cents / 100 == units && cents % 100 == fraction;
  }

  lemma FifteenHundred()
    ensures Grouped(1500) == "1.500"
  {
    FiveHundred();
    assert Grouped(1) == Digits(1) == "1";
    assert Grouped(1500) == Grouped(1) + "." + Fixed(500, 3);
  }

  lemma FiveHundred()
    ensures Fixed(500, 3) == "500"
  {
    assert Fixed(5, 1) == Fixed(0, 0) + [DigitChar(5)] == "5";
    assert Fixed(50, 2) == Fixed(5, 1) + [DigitChar(0)] == "50";
    assert Fixed(500, 3) == Fixed(50, 2) + [DigitChar(0)];
  }

  lemma ZeroCents()
    ensures Fixed(0, 2) == "00"
  {
    assert Fixed(0, 1) == Fixed(0, 0) + [DigitChar(0)] == "0";
    assert Fixed(0, 2) == Fixed(0, 1) + [DigitChar(0)];
  }

  lemma TwoHundred()
    ensures Grouped(200) == "200"
  {
    assert Digits(2) == "2";
    assert Digits(20) == Digits(2) + [DigitChar(0)] == "20";
    assert Digits(200) == Digits(20) + [DigitChar(0)] == "200";
  }

  lemma FiftyCents()
    ensures Fixed(50, 2) == "50"
  {
    assert Fixed(5, 1) == Fixed(0, 0) + [DigitChar(5)] == "5";
    assert Fixed(50, 2) == Fixed(5, 1) + [DigitChar(0)];
  }

  lemma NegativeWritten()
    ensures FormatAmount(-20050) == "(200,50)"
  {
    TwoHundred();
    FiftyCents();
    MagnitudeParts(20050, 200, 50, "200", "50");
    assert "200" + "," + "50" == "200,50";
    assert "(" + "200,50" + ")" == "(200,50)";
  }
}
