/**
 * internal/drift/metadata_diff.go, normalizeMetadataNumber: the canonical text
 * of a JSON number.  Two numbers are compared through it, so it must name the
 * exact decimal value, whatever the exponent.
 */
module MetadataNumber {
  import opened Common
  import opened DecimalText
  import opened Strings

  /** A number as section 6 of RFC 8259 writes it. */
  datatype Exponent = Exponent(upper: bool, sign: string, digits: string)

  datatype Literal = Literal(minus: bool, whole: string, fraction: Option<string>, exponent: Option<Exponent>)

  predicate WellFormed(n: Literal) {
    && Plain(n.whole)
    && (n.fraction.Some? ==> n.fraction.value != "" && AllDigits(n.fraction.value))
    && (n.exponent.Some? ==>
          && n.exponent.value.sign in ["", "+", "-"]
          && n.exponent.value.digits != "" && AllDigits(n.exponent.value.digits))
  }

  function Fraction(n: Literal): string {
    if n.fraction.Some? then n.fraction.value else ""
  }

  function MantissaText(n: Literal): string {
    (if n.minus then "-" else "") + n.whole + (if n.fraction.Some? then "." + n.fraction.value else "")
  }

  function Text(n: Literal): string {
    MantissaText(n) +
    match n.exponent
    case None => ""
    case Some(x) => (if x.upper then "E" else "e") + x.sign + x.digits
  }

  function Signed(minus: bool, n: nat): int {
    if minus then 0 - n else n
  }

  /** The integer that the digits spell, and the power of ten it is scaled by. */
  function Mantissa(n: Literal): int
    requires WellFormed(n)
  {
    Signed(n.minus, Number(n.whole + Fraction(n)))
  }

  function Scale(n: Literal): int
    requires WellFormed(n)
  {
    (match n.exponent
     case None => 0
     case Some(x) =>
       Signed(x.sign == "-", Number(x.digits))) - |Fraction(n)|
  }

  function Power(e: int): (p: real)
    ensures p > 0.0
    decreases if e < 0 then -e else e
  {
    if e == 0 then 1.0 else if e > 0 then 10.0 * Power(e - 1) else Power(e + 1) / 10.0
  }

  function Decimal(m: int, e: int): real {
    m as real * Power(e)
  }

  /** The exact value of a number. */
  function Value(n: Literal): real
    requires WellFormed(n)
  {
    Decimal(Mantissa(n), Scale(n))
  }

  // ------------------------------------------------------------------
  // Canonical form, by arithmetic.

  /** The same value with every factor of ten moved into the exponent. */
  function Norm(m: int, e: int): (r: (int, int))
    decreases if m < 0 then -m else m
  {
    if m == 0 then (0, 0) else if m % 10 == 0 then Norm(m / 10, e + 1) else (m, e)
  }

  function IntText(e: int): string {
    if e < 0 then "-" + Digits(-e) else Digits(e)
  }

  function CanonicalText(m: int, e: int): string {
    if m == 0 then "0" else IntText(m) + ExponentText(e)
  }

  function Canonical(n: Literal): string
    requires WellFormed(n)
  {
    var (m, e) := Norm(Mantissa(n), Scale(n));
    CanonicalText(m, e)
  }

  lemma PowerStep(e: int)
    ensures Power(e + 1) == 10.0 * Power(e)
  {
  }

  lemma {:induction false} NormKeepsValue(m: int, e: int)
    ensures
      var (m', e') := Norm(m, e);
      && Decimal(m', e') == Decimal(m, e)
      && (m' == 0 ==> m == 0 && e' == 0) && (m' != 0 ==> m' % 10 != 0)
    decreases if m < 0 then -m else m
  {
    hide Decimal;
    if m == 0 {
      ZeroDecimal(e);
      ZeroDecimal(0);
    } else if m % 10 == 0 {
      NormKeepsValue(m / 10, e + 1);
      DecimalShifts(m / 10, e);
      assert m == 10 * (m / 10);
    }
  }

  lemma ZeroDecimal(e: int)
    ensures Decimal(0, e) == 0.0
  {
    hide Power;
  }

  lemma DecimalShifts(m: int, e: int)
    ensures Decimal(m, e + 1) == Decimal(10 * m, e)
  {
    hide Power;
    PowerStep(e);
    assert (10 * m) as real == m as real * 10.0;
  }

  lemma {:induction false} PowerSplits(e: int, k: nat)
    ensures Power(e + k) == Pow10(k) as real * Power(e)
  {
    if k > 0 {
      PowerSplits(e, k - 1);
      PowerStep(e + k - 1);
    }
  }

  /** A value has one normal form. */
  lemma NormIsUnique(m0: int, e0: int, m1: int, e1: int)
    requires Decimal(m0, e0) == Decimal(m1, e1)
    requires m0 == 0 ==> e0 == 0
    requires m1 == 0 ==> e1 == 0
    requires m0 != 0 ==> m0 % 10 != 0
    requires m1 != 0 ==> m1 % 10 != 0
    ensures m0 == m1 && e0 == e1
  {
    if e0 < e1 {
      NormIsUniqueOrdered(m1, e1, m0, e0);
    } else {
      NormIsUniqueOrdered(m0, e0, m1, e1);
    }
  }

  lemma NormIsUniqueOrdered(m0: int, e0: int, m1: int, e1: int)
    requires Decimal(m0, e0) == Decimal(m1, e1) && e0 >= e1
    requires m0 == 0 ==> e0 == 0
    requires m1 == 0 ==> e1 == 0
    requires m0 != 0 ==> m0 % 10 != 0
    requires m1 != 0 ==> m1 % 10 != 0
    ensures m0 == m1 && e0 == e1
  {
    AlignScales(m0, e0, m1, e1);
    var k := e0 - e1;
    if k > 0 {
      TenDivides(m0, m1, k);
      NonzeroProduct(m0, Pow10(k));
    }
  }

  /** Equal values differ by a power of ten in the mantissa. */
  lemma AlignScales(m0: int, e0: int, m1: int, e1: int)
    requires Decimal(m0, e0) == Decimal(m1, e1) && e0 >= e1
    ensures m0 * Pow10(e0 - e1) == m1
  {
    hide Power, Pow10;
    var p, q := Pow10(e0 - e1), Power(e1);
    PowerSplits(e1, e0 - e1);
    assert Power(e0) == p as real * q;
    assert m0 as real * (p as real * q) == m1 as real * q;
    CancelPower(m0, m1, p, q);
  }

  lemma TenDivides(m0: int, m1: int, k: nat)
    requires k > 0 && m0 * Pow10(k) == m1
    ensures m1 % 10 == 0 && Pow10(k) > 0
  {
    assert m1 == 10 * (m0 * Pow10(k - 1));
    Pow10Positive(k);
  }

  lemma {:induction false} Pow10Positive(k: nat)
    ensures Pow10(k) > 0
  {
    if k > 0 {
      Pow10Positive(k - 1);
    }
  }

  lemma NonzeroProduct(m: int, p: nat)
    requires m * p == 0 && p > 0
    ensures m == 0
  {
  }

  lemma CancelPower(m0: int, m1: int, p: nat, q: real)
    requires q > 0.0 && m0 as real * (p as real * q) == m1 as real * q
    ensures m0 * p == m1
  {}

  // ------------------------------------------------------------------
  // The canonical text is itself a number, and says everything about the value.

  function CanonicalLiteral(m: int, e: int): Literal {
    if m == 0 then Literal(false, "0", None, None)
    else
      Literal(m < 0, Digits(if m < 0 then -m else m), None,
              if e == 0 then None
              else Some(Exponent(false, if e < 0 then "-" else "", Digits(if e < 0 then -e else e))))
  }

  lemma CanonicalLiteralForm(m: int, e: int)
    requires m == 0 ==> e == 0
    ensures WellFormed(CanonicalLiteral(m, e))
  {
    hide Digits, Number;
    DigitsAreNumber(if m < 0 then -m else m);
  }

  lemma CanonicalLiteralMantissa(m: int, e: int)
    requires WellFormed(CanonicalLiteral(m, e))
    ensures Mantissa(CanonicalLiteral(m, e)) == m
  {
    hide Digits, Number, WellFormed, Plain;
    var c := CanonicalLiteral(m, e);
    DigitsAreNumber(if m < 0 then -m else m);
    assert c.whole + Fraction(c) == c.whole;
    ZeroIsZero();
  }

  lemma ZeroIsZero()
    ensures Number("0") == 0
  {
    assert "0"[..0] == "";
  }

  lemma CanonicalLiteralScale(m: int, e: int)
    requires WellFormed(CanonicalLiteral(m, e)) && (m == 0 ==> e == 0)
    ensures Scale(CanonicalLiteral(m, e)) == e
  {
    hide Digits, Number, WellFormed, Plain;
    DigitsAreNumber(if e < 0 then -e else e);
  }

  lemma CanonicalLiteralReads(m: int, e: int)
    requires m == 0 ==> e == 0
    ensures
      var c := CanonicalLiteral(m, e);
      WellFormed(c) && Text(c) == CanonicalText(m, e) && Mantissa(c) == m && Scale(c) == e
  {
    hide *;
    CanonicalLiteralForm(m, e);
    CanonicalLiteralMantissa(m, e);
    CanonicalLiteralScale(m, e);
    CanonicalLiteralText(m, e);
  }

  lemma CanonicalLiteralText(m: int, e: int)
    requires m == 0 ==> e == 0
    ensures Text(CanonicalLiteral(m, e)) == CanonicalText(m, e)
  {
    hide Digits, Number;
    var c := CanonicalLiteral(m, e);
    assert m != 0 ==> MantissaText(c) == IntText(m);
    if m != 0 && e != 0 {
      var x := c.exponent.value;
      assert x.sign + x.digits == IntText(e);
      assert MantissaText(c) + ("e" + x.sign + x.digits) == IntText(m) + ("e" + (x.sign + x.digits));
    }
  }

  /** The result is a JSON number with exactly the value of the input. */
  lemma CanonicalKeepsValue(n: Literal) returns (c: Literal)
    requires WellFormed(n)
    ensures WellFormed(c) && Text(c) == Canonical(n) && Value(c) == Value(n)
    ensures Canonical(c) == Canonical(n)
  {
    var (m, e) := Norm(Mantissa(n), Scale(n));
    NormKeepsValue(Mantissa(n), Scale(n));
    c := CanonicalLiteral(m, e);
    CanonicalLiteralReads(m, e);
    NormKeepsValue(m, e);
  }

  lemma IntTextReads(m: int)
    ensures 'e' !in IntText(m)
    ensures m >= 0 ==> AllDigits(IntText(m)) && Number(IntText(m)) == m
    ensures m < 0 ==> IntText(m)[0] == '-' && AllDigits(IntText(m)[1..]) && Number(IntText(m)[1..]) == -m
  {
    DigitsAreNumber(if m < 0 then -m else m);
  }

  lemma IntTextInjective(a: int, b: int)
    requires IntText(a) == IntText(b)
    ensures a == b
  {
    IntTextReads(a);
    IntTextReads(b);
  }

  /** A text is cut at its first 'e' in one way. */
  lemma CutIsUnique(a: string, x: string, b: string, y: string)
    requires a + x == b + y && 'e' !in a && 'e' !in b
    requires (x == "" || x[0] == 'e') && (y == "" || y[0] == 'e')
    ensures a == b && x == y
  {
    var t := a + x;
    assert t[..|a|] == a && t[..|b|] == b && t[|a|..] == x && t[|b|..] == y;
  }

  function ExponentText(e: int): string {
    if e == 0 then "" else "e" + IntText(e)
  }

  lemma CanonicalTextInjective(m0: int, e0: int, m1: int, e1: int)
    requires CanonicalText(m0, e0) == CanonicalText(m1, e1)
    requires (m0 == 0 ==> e0 == 0) && (m1 == 0 ==> e1 == 0)
    ensures m0 == m1 && e0 == e1
  {
    assert IntText(0) == "0";
    IntTextReads(m0);
    IntTextReads(m1);
    CutIsUnique(IntText(m0), ExponentText(e0), IntText(m1), ExponentText(e1));
    IntTextInjective(m0, m1);
    if e0 != 0 {
      assert ExponentText(e0)[1..] == IntText(e0) && ExponentText(e1)[1..] == IntText(e1);
      IntTextInjective(e0, e1);
    }
  }

  /** Equal texts for equal values, and only for them. */
  lemma CanonicalDecides(a: Literal, b: Literal)
    requires WellFormed(a) && WellFormed(b)
    ensures Canonical(a) == Canonical(b) <==> Value(a) == Value(b)
  {
    var (ma, ea) := Norm(Mantissa(a), Scale(a));
    var (mb, eb) := Norm(Mantissa(b), Scale(b));
    NormKeepsValue(Mantissa(a), Scale(a));
    NormKeepsValue(Mantissa(b), Scale(b));
    if Value(a) == Value(b) {
      NormIsUnique(ma, ea, mb, eb);
    }
    if Canonical(a) == Canonical(b) {
      CanonicalTextInjective(ma, ea, mb, eb);
    }
  }

  // ------------------------------------------------------------------
  // The library calls of the original, on the characters of a number.

  /** strings.TrimLeft(s, "0") */
  function TrimLeftZeros(s: string): (t: string)
    ensures |t| <= |s| && t == s[|s| - |t|..] && (t != "" ==> t[0] != '0')
  {
    if s != "" && s[0] == '0' then TrimLeftZeros(s[1..]) else s
  }

  /** strings.TrimRight(s, "0") */
  function TrimRightZeros(s: string): (t: string)
    ensures |t| <= |s| && t == s[..|t|] && (t != "" ==> t[|t| - 1] != '0')
  {
    if s != "" && s[|s| - 1] == '0' then TrimRightZeros(s[..|s| - 1]) else s
  }

  predicate IsIntText(s: string) {
    var digits := if s != "" && (s[0] == '-' || s[0] == '+') then s[1..] else s;
    digits != "" && AllDigits(digits)
  }

  /** big.Int.SetString in base ten. */
  function SetString(s: string): int
    requires IsIntText(s)
  {
    if s[0] == '-' then Signed(true, Number(s[1..]))
    else if s[0] == '+' then Number(s[1..])
    else Number(s)
  }

  lemma SetStringReads(sign: string, digits: string)
    requires sign in ["", "+", "-"] && digits != "" && AllDigits(digits)
    ensures IsIntText(sign + digits) && SetString(sign + digits) == Signed(sign == "-", Number(digits))
  {
    assert sign != "" ==> (sign + digits)[1..] == digits;
    assert sign == "" ==> sign + digits == digits;
  }

  lemma {:induction false} LeadingZero(s: string)
    requires AllDigits(s)
    ensures Number("0" + s) == Number(s)
  {
    if s == "" {
      assert "0" + s == "0" && "0"[..0] == "";
    } else {
      var k := |s| - 1;
      LeadingZero(s[..k]);
      assert ("0" + s)[..k + 1] == "0" + s[..k] && ("0" + s)[k + 1] == s[k];
    }
  }

  lemma {:induction false} TrimLeftKeepsNumber(s: string)
    requires AllDigits(s)
    ensures AllDigits(TrimLeftZeros(s)) && Number(TrimLeftZeros(s)) == Number(s)
  {
    if s != "" && s[0] == '0' {
      TrimLeftKeepsNumber(s[1..]);
      LeadingZero(s[1..]);
      assert s == "0" + s[1..];
    }
  }

  lemma NormStep(m: int, e: int)
    ensures m != 0 ==> Norm(10 * m, e) == Norm(m, e + 1)
    ensures m % 10 != 0 ==> Norm(m, e) == (m, e)
  {
  }

  lemma TrimRightStep(s: string)
    requires s != ""
    ensures TrimRightZeros(s) == if s[|s| - 1] == '0' then TrimRightZeros(s[..|s| - 1]) else s
  {
  }

  lemma LastDigit(s: string)
    requires AllDigits(s) && s != ""
    ensures Number(s) == 10 * Number(s[..|s| - 1]) + DigitOf(s[|s| - 1])
    ensures DigitOf(s[|s| - 1]) == 0 <==> s[|s| - 1] == '0'
  {
  }

  lemma {:induction false} TrimRightMovesScale(s: string, minus: bool, e: int)
    requires AllDigits(s) && s != "" && s[0] != '0'
    ensures TrimRightZeros(s) != "" && Plain(TrimRightZeros(s))
    ensures
      Norm(Signed(minus, Number(s)), e) == (Signed(minus, Number(TrimRightZeros(s))), e + |s| - |TrimRightZeros(s)|)
  {
    hide Norm, Number, TrimRightZeros, Digits;
    PlainIsDigits(s);
    LastDigit(s);
    TrimRightStep(s);
    var front := s[..|s| - 1];
    if s[|s| - 1] == '0' {
      assert |s| > 1 && front[0] == s[0];
      TrimRightMovesScale(front, minus, e + 1);
      PlainIsDigits(front);
      NormStep(Signed(minus, Number(front)), e);
    } else {
      NormStep(Signed(minus, Number(s)), e);
    }
  }

  lemma LowerKeeps(s: string)
    requires forall i :: 0 <= i < |s| ==> !('A' <= s[i] <= 'Z')
    ensures ToLower(s) == s
  {
  }

  lemma LowerTail(m: string, upper: bool, sign: string, digits: string)
    requires ToLower(m) == m && ToLower(sign + digits) == sign + digits
    ensures ToLower(m + ((if upper then "E" else "e") + sign + digits)) == m + ['e'] + (sign + digits)
  {}

  /** Lower-cased, a number is its mantissa, cut from its exponent by an 'e'. */
  lemma NumberCuts(n: Literal)
    requires WellFormed(n)
    ensures
      var text := ToLower(Text(n));
      var k := IndexByte(text, 'e');
      && (n.exponent.None? ==> k < 0 && text == MantissaText(n))
      && (n.exponent.Some? ==>
            k >= 0 && text[..k] == MantissaText(n) && text[k + 1..] == n.exponent.value.sign + n.exponent.value.digits)
  {
    var m := MantissaText(n);
    assert forall i :: 0 <= i < |m| ==> IsDigit(m[i]) || m[i] == '-' || m[i] == '.';
    LowerKeeps(m);
    if n.exponent.Some? {
      var x := n.exponent.value;
      LowerKeeps(x.sign + x.digits);
      LowerTail(m, x.upper, x.sign, x.digits);
      IndexAt(m, 'e', x.sign + x.digits);
    } else {
      assert Text(n) == m;
    }
  }

  /** Without its sign, the mantissa falls apart at the decimal point. */
  lemma MantissaCuts(n: Literal)
    requires WellFormed(n)
    ensures
      var m := MantissaText(n);
      && m != "" && (m[0] == '-' <==> n.minus) && AllDigits(n.whole + Fraction(n))
      && (var u := if n.minus then m[1..] else m;
          var k := IndexByte(u, '.');
          if n.fraction.None? then k < 0 && u == n.whole + Fraction(n) && Fraction(n) == ""
          else k >= 0 && u[..k] + u[k + 1..] == n.whole + Fraction(n) && |u| - k - 1 == |Fraction(n)|)
  {
    hide Number, IndexByte;
    var m := MantissaText(n);
    var tail := if n.fraction.Some? then "." + n.fraction.value else "";
    var u := if n.minus then m[1..] else m;
    assert u == n.whole + tail;
    DigitsOnly(n.whole);
    if n.fraction.Some? {
      assert u == n.whole + ['.'] + n.fraction.value;
      IndexAt(n.whole, '.', n.fraction.value);
    } else {
      assert n.whole + Fraction(n) == n.whole == u;
    }
  }

  lemma DigitsOnly(s: string)
    requires AllDigits(s)
    ensures '.' !in s && '-' !in s && 'e' !in s
  {
    assert forall i :: 0 <= i < |s| ==> IsDigit(s[i]);
  }

  lemma ZeroNorm(e: int)
    ensures Norm(0, e) == (0, 0)
  {
  }

  /** normalizeMetadataNumber, in three parts: the exponent, */
  method NormalizeMetadataNumber(value: string, ghost n: Literal) returns (r: string)
    requires WellFormed(n) && value == Text(n)
    ensures r == Canonical(n)
  {
    hide Number, Norm, Digits, ToLower, IndexByte;
    NumberCuts(n);
    var text := ToLower(value);
    var cut := IndexByte(text, 'e');
    var mantissa := if cut < 0 then text else text[..cut];
    var power := if cut < 0 then "" else text[cut + 1..];
    var exponent := 0;
    if power != "" {
      SetStringReads(n.exponent.value.sign, n.exponent.value.digits);
      exponent := SetString(power);
    }
    r := NormalizeMantissa(mantissa, exponent, n);
  }

  /** the sign and the decimal point, */
  method NormalizeMantissa(text: string, power: int, ghost n: Literal) returns (r: string)
    requires WellFormed(n) && text == MantissaText(n) && power - |Fraction(n)| == Scale(n)
    ensures r == Canonical(n)
  {
    hide Number, Norm, Digits, IndexByte, MantissaText, Fraction, CanonicalText;
    MantissaCuts(n);
    var mantissa, exponent := text, power;
    var sign := "";
    if mantissa[0] == '-' {
      sign, mantissa := "-", mantissa[1..];
    }
    var dot := IndexByte(mantissa, '.');
    if dot >= 0 {
      exponent := exponent - (|mantissa| - dot - 1);
      mantissa := mantissa[..dot] + mantissa[dot + 1..];
    }
    assert mantissa == n.whole + Fraction(n);
    r := StripZeros(sign, mantissa, exponent);
  }

  lemma CanonicalOfZero()
    ensures CanonicalText(0, 0) == "0"
  {
  }

  lemma CanonicalOfTrimmed(sign: string, trimmed: string, exponent: int)
    requires Plain(trimmed) && trimmed != "0" && (sign == "" || sign == "-")
    ensures CanonicalText(Signed(sign == "-", Number(trimmed)), exponent) ==
            sign + trimmed + (if exponent == 0 then "" else "e" + IntText(exponent))
  {
    hide Number, Digits;
    PlainIsDigits(trimmed);
    assert sign + trimmed + "" == sign + trimmed && "" + trimmed == trimmed;
  }

  /** and the leading and trailing zeros. */
  method StripZeros(sign: string, mantissa: string, scale: int) returns (r: string)
    requires AllDigits(mantissa) && (sign == "" || sign == "-")
    ensures
      var (m, e) := Norm(Signed(sign == "-", Number(mantissa)), scale);
      r == CanonicalText(m, e)
  {
    hide Number, Norm, Digits, TrimLeftZeros, TrimRightZeros, CanonicalText;
    ZeroNorm(scale);
    var digits := TrimLeftZeros(mantissa);
    TrimLeftKeepsNumber(mantissa);
    if digits == "" {
      EmptyNumber();
      CanonicalOfZero();
      return "0";
    }
    var trimmed := TrimRightZeros(digits);
    TrimRightMovesScale(digits, sign == "-", scale);
    var exponent := scale + (|digits| - |trimmed|);
    CanonicalOfTrimmed(sign, trimmed, exponent);
    if exponent == 0 {
      return sign + trimmed;
    }
    r := sign + trimmed + ("e" + IntText(exponent));
  }

  lemma EmptyNumber()
    ensures Number("") == 0
  {
  }
}
