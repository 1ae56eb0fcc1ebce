/** Decimal digits as text: what strconv and math/big print and read. */
module DecimalText {
  predicate IsDigit(c: char) {
    '0' <= c <= '9'
  }

  predicate AllDigits(s: string) {
    forall i :: 0 <= i < |s| ==> IsDigit(s[i])
  }

  function DigitOf(c: char): (d: nat)
    requires IsDigit(c)
    ensures d < 10
  {
    c as int - '0' as int
  }

  function CharOf(d: nat): (c: char)
    requires d < 10
    ensures IsDigit(c) && DigitOf(c) == d
  {
    ('0' as int + d) as char
  }

  /** The number that a run of digits stands for; the empty run is zero. */
  function Number(s: string): nat
    requires AllDigits(s)
  {
    if s == "" then 0 else 10 * Number(s[..|s| - 1]) + DigitOf(s[|s| - 1])
  }

  /** The usual decimal text, without leading zeros. */
  function Digits(n: nat): (s: string)
    ensures s != "" && AllDigits(s)
  {
    if n < 10 then [CharOf(n)] else Digits(n / 10) + [CharOf(n % 10)]
  }

  /** No leading zero, except the zero itself. */
  predicate Plain(s: string) {
    AllDigits(s) && s != "" && (s[0] != '0' || s == "0")
  }

  lemma {:induction false} DigitsAreNumber(n: nat)
    ensures Number(Digits(n)) == n && Plain(Digits(n)) && (n > 0 ==> Digits(n)[0] != '0')
  {
    if n >= 10 {
      DigitsAreNumber(n / 10);
      assert Digits(n)[..|Digits(n)| - 1] == Digits(n / 10);
    }
  }

  lemma DigitsStep(n: nat)
    ensures Digits(n) == if n < 10 then [CharOf(n)] else Digits(n / 10) + [CharOf(n % 10)]
  {
  }

  lemma {:induction false} PlainIsDigits(s: string)
    requires Plain(s)
    ensures Digits(Number(s)) == s && (s != "0" ==> Number(s) > 0)
  {
    hide Digits;
    var t, last := s[..|s| - 1], s[|s| - 1];
    assert CharOf(DigitOf(last)) == last && s == t + [last];
    if |s| > 1 {
      PlainIsDigits(t);
      DigitsStep(10 * Number(t) + DigitOf(last));
    } else {
      assert Number(t) == 0;
      DigitsStep(DigitOf(last));
    }
  }

  function Pow10(k: nat): nat {
    if k == 0 then 1 else 10 * Pow10(k - 1)
  }

  lemma ShiftDigit(n: nat, p: nat, m: nat, d: nat)
    ensures 10 * (n * p + m) + d == n * (10 * p) + (10 * m + d)
  {
  }

  lemma {:induction false} NumberOfConcat(s: string, t: string)
    requires AllDigits(s) && AllDigits(t)
    ensures AllDigits(s + t) && Number(s + t) == Number(s) * Pow10(|t|) + Number(t)
  {
    if t == "" {
      assert s + t == s;
    } else {
      var k := |t| - 1;
      NumberOfConcat(s, t[..k]);
      assert (s + t)[..|s + t| - 1] == s + t[..k];
      assert (s + t)[|s + t| - 1] == t[k];
      ShiftDigit(Number(s), Pow10(k), Number(t[..k]), DigitOf(t[k]));
    }
  }
}
