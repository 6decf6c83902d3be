/** Amounts as text: canonical decimal, read and printed through two 19-digit halves. */
module AmountText {
  import opened Wrappers
  import opened Amounts
  import Money

  const MAX_DIGITS := 38

  // ---- decimal numerals ----

  predicate IsDigit(c: char) {
    '0' <= c <= '9'
  }

  function DigitOf(n: nat): char
    requires n < 10
  {
    '0' + n as char
  }

  function DigitValue(c: char): nat
    requires IsDigit(c)
  {
    c as int - '0' as int
  }

  predicate AllDigits(s: string) {
    forall i :: 0 <= i < |s| ==> IsDigit(s[i])
  }

  /** The number a string of digits denotes. */
  function Numeral(s: string): nat
    requires AllDigits(s)
  {
    if s == [] then 0 else 10 * Numeral(s[..|s| - 1]) + DigitValue(s[|s| - 1])
  }

  /** The shortest digits of a number. */
  function Decimal(n: nat): (s: string)
    ensures AllDigits(s) && s != []
  {
    if n < 10 then [DigitOf(n)] else Decimal(n / 10) + [DigitOf(n % 10)]
  }

  function Pow10(k: nat): (p: nat)
    ensures p > 0
  {
    if k == 0 then 1 else 10 * Pow10(k - 1)
  }

  /** No leading zero, unless the number is zero. */
  predicate Canonical(s: string) {
    AllDigits(s) && s != [] && (s[0] == '0' ==> |s| == 1)
  }

  lemma {:induction false} DecimalReads(n: nat)
    ensures Numeral(Decimal(n)) == n
    ensures Canonical(Decimal(n)) && (Decimal(n)[0] == '0' <==> n == 0)
  {
    if n < 10 {
      assert Numeral([DigitOf(n)][..0]) == 0;
    } else {
      DecimalReads(n / 10);
      var s := Decimal(n);
      assert s[..|s| - 1] == Decimal(n / 10);
    }
  }

  lemma {:induction false} NumeralPrints(s: string)
    requires Canonical(s)
    ensures Decimal(Numeral(s)) == s
    ensures |s| > 1 ==> Numeral(s) >= 10
  {
    var init, last := s[..|s| - 1], s[|s| - 1];
    if |s| == 1 {
      assert Numeral(init) == 0;
    } else {
      NumeralPrints(init);
      assert Numeral(s) / 10 == Numeral(init) && Numeral(s) % 10 == DigitValue(last);
      assert Numeral(init) >= 1 by {
        DecimalReads(Numeral(init));
      }
      assert s == init + [last];
    }
  }

  lemma {:induction false} NumeralBound(s: string)
    requires AllDigits(s)
    ensures Numeral(s) < Pow10(|s|)
  {
    if s != [] {
      NumeralBound(s[..|s| - 1]);
    }
  }

  lemma {:induction false} DecimalLength(n: nat, k: nat)
    requires n < Pow10(k) && k > 0
    ensures |Decimal(n)| <= k
  {
    if n >= 10 {
      DecimalLength(n / 10, k - 1);
    }
  }

  lemma {:induction false} NumeralConcat(a: string, b: string)
    requires AllDigits(a) && AllDigits(b)
    ensures AllDigits(a + b) && Numeral(a + b) == Numeral(a) * Pow10(|b|) + Numeral(b)
  {
    if b == [] {
      assert a + b == a;
    } else {
      var init := b[..|b| - 1];
      NumeralConcat(a, init);
      assert (a + b)[..|a + b| - 1] == a + init;
      assert Numeral(a) * Pow10(|b|) == 10 * (Numeral(a) * Pow10(|init|));
    }
  }

  function Zeros(k: nat): (s: string)
    ensures |s| == k && AllDigits(s)
  {
    seq(k, _ => '0')
  }

  lemma {:induction false} ZerosAreZero(k: nat)
    ensures Numeral(Zeros(k)) == 0
  {
    if k > 0 {
      ZerosAreZero(k - 1);
      assert Zeros(k)[..k - 1] == Zeros(k - 1);
    }
  }

  lemma Pow10Of19()
    ensures Pow10(19) == POW19 && Pow10(38) == POW19 * POW19
  {
    assert Pow10(5) == 100000;
    assert Pow10(10) == 10_000_000_000;
    assert Pow10(15) == 1_000_000_000_000_000;
    assert Pow10(19) == POW19;
    assert Pow10(24) == POW19 * 100_000;
    assert Pow10(29) == POW19 * 10_000_000_000;
    assert Pow10(34) == POW19 * 1_000_000_000_000_000;
  }

  /** Multiples of a positive number are at least that number apart. */
  lemma Steeper(x: int, y: int, p: int)
    requires p > 0 && x < y
    ensures x * p + p <= y * p
  {
    var d := y - x - 1;
    assert y * p == x * p + d * p + p by {
      assert y == x + d + 1;
      assert (x + d + 1) * p == x * p + d * p + p;
    }
    NonNegativeProduct(d, p);
  }

  lemma NonNegativeProduct(k: int, p: int)
    requires k >= 0 && p >= 0
    ensures k * p >= 0
  {
  }

  // ---- reading ----

  function SplitAt(digits: string): nat
    requires |digits| <= MAX_DIGITS
    ensures SplitAt(digits) <= |digits| && SplitAt(digits) <= 19 && |digits| - SplitAt(digits) <= 19
  {
    if |digits| > 19 then |digits| - 19 else 0
  }

  lemma HalfFits(part: string)
    requires AllDigits(part) && |part| <= 19
    ensures Numeral(part) < POW19
  {
    hide Numeral;
    hide Pow10;
    NumeralBound(part);
    PowMonotone(|part|, 19);
    Pow10Of19();
  }

  lemma {:induction false} PowMonotone(j: nat, k: nat)
    requires j <= k
    ensures Pow10(j) <= Pow10(k)
    decreases k - j
  {
    if j < k {
      PowMonotone(j + 1, k);
    }
  }

  function Joined(high: u64, low: u64): (a: Amount)
    requires high < POW19 && low < POW19
    ensures Value(a) == high * POW19 + low
  {
    var (hi, lo) := MulPow19(high);
    var (sum, carry) := Add64(lo, low, 0);
    CarryFits(high, low);
    Amount(hi + carry, sum)
  }

  /** The amount of up to 38 digits, from the halves left and right of the last 19. */
  function FromDigits(digits: string): Amount
    requires AllDigits(digits) && |digits| <= MAX_DIGITS
  {
    var split := SplitAt(digits);
    HalfFits(digits[..split]);
    HalfFits(digits[split..]);
    Joined(Numeral(digits[..split]), Numeral(digits[split..]))
  }

  lemma CarryFits(high: u64, low: u64)
    requires high < POW19 && low < POW19
    ensures var (hi, lo) := MulPow19(high);
      var (sum, carry) := Add64(lo, low, 0);
      hi + carry < TWO63 && (hi + carry) * TWO64 + sum == high * POW19 + low
  {
  }

  function ParseAmount(s: string): Option<Amount> {
    var negative := |s| > 0 && s[0] == '-';
    var digits := if negative then s[1..] else s;
    if |digits| == 0 || |digits| > MAX_DIGITS || (digits[0] == '0' && (|digits| > 1 || negative)) then None
    else if !AllDigits(digits) then None
    else
      var a := FromDigits(digits);
      Some(if negative then Neg(a) else a)
  }

  /** Scans the text once for its digits, then reads the two halves. */
  method Parse(s: string) returns (r: Option<Amount>)
    ensures r == ParseAmount(s)
  {
    var digits, negative := s, false;
    if |digits| > 0 && digits[0] == '-' {
      digits, negative := digits[1..], true;
    }
    if |digits| == 0 || |digits| > MAX_DIGITS || (digits[0] == '0' && (|digits| > 1 || negative)) {
      return None;
    }
    for i := 0 to |digits|
      invariant forall k :: 0 <= k < i ==> IsDigit(digits[k])
    {
      if digits[i] < '0' || digits[i] > '9' {
        return None;
      }
    }
    var a := FromDigits(digits);
    if negative {
      a := Neg(a);
    }
    return Some(a);
  }

  // ---- printing ----

  function SignText(v: int): string {
    if v < 0 then "-" else ""
  }

  function FormatInt(n: int): string {
    SignText(n) + Decimal(if n < 0 then -n else n)
  }

  /** The magnitude of an amount never traps the division: even -2^127 is below 10^19 times 2^64. */
  function ToString(a: Amount): string {
    var n := Int64(a.lo);
    if a.hi == (if n < 0 then TWO64 - 1 else 0) then FormatInt(n)
    else
      var sign := if Sign(a) < 0 then "-" else "";
      var abs := if Sign(a) < 0 then Neg(a) else a;
      NegIsExact(a);
      SignIsExact(a);
      MagnitudeFits(abs);
      var (high, low) := DivPow19(abs.hi, abs.lo);
      var lowDigits := Decimal(low);
      if high == 0 then sign + lowDigits
      else
        LowDigitsFit(low);
        sign + Decimal(high) + Zeros(19)[|lowDigits|..] + lowDigits
  }

  lemma MagnitudeFits(a: Amount)
    requires Value(a) >= 0 || Value(a) == -TWO127
    ensures a.hi < POW19 && a.hi * TWO64 + a.lo == (if Value(a) < 0 then TWO127 else Value(a))
    ensures (a.hi * TWO64 + a.lo) / POW19 < TWO64
  {
  }

  lemma LowDigitsFit(low: nat)
    requires low < POW19
    ensures |Decimal(low)| <= 19
  {
    Pow10Of19();
    DecimalLength(low, 19);
  }

  lemma Halves(high: nat, low: nat)
    requires high > 0 && low < POW19
    ensures |Decimal(low)| <= 19
    ensures Decimal(high) + Zeros(19)[|Decimal(low)|..] + Decimal(low) == Decimal(high * POW19 + low)
  {
    hide Decimal;
    hide Numeral;
    hide Pow10;
    LowDigitsFit(low);
    var pad := Zeros(19)[|Decimal(low)|..];
    var s := Decimal(high) + (pad + Decimal(low));
    assert pad == Zeros(19 - |Decimal(low)|);
    ZerosAreZero(|pad|);
    DecimalReads(high);
    DecimalReads(low);
    NumeralConcat(pad, Decimal(low));
    NumeralConcat(Decimal(high), pad + Decimal(low));
    Pow10Of19();
    assert Numeral(s) == high * POW19 + low;
    assert Canonical(s);
    NumeralPrints(s);
    assert s == Decimal(high) + pad + Decimal(low);
  }

  /** Every amount prints as the canonical decimal of its value: through the 64-bit path and through the two halves. */
  lemma ToStringIsDecimal(a: Amount)
    ensures ToString(a) == FormatInt(Value(a))
  {
    hide Decimal;
    NegIsExact(a);
    SignIsExact(a);
    var n := Int64(a.lo);
    if a.hi != (if n < 0 then TWO64 - 1 else 0) {
      var abs := if Sign(a) < 0 then Neg(a) else a;
      MagnitudeFits(abs);
      var (high, low) := DivPow19(abs.hi, abs.lo);
      if high != 0 {
        Halves(high, low);
        var sign := SignText(Value(a));
        assert sign + Decimal(high) + Zeros(19)[|Decimal(low)|..] + Decimal(low)
            == sign + (Decimal(high) + Zeros(19)[|Decimal(low)|..] + Decimal(low));
      }
    }
  }

  lemma FromDigitsIsExact(digits: string)
    requires AllDigits(digits) && |digits| <= MAX_DIGITS
    ensures Value(FromDigits(digits)) == Numeral(digits)
  {
    hide Value;
    hide Joined;
    hide Numeral;
    hide Pow10;
    var split := SplitAt(digits);
    HalfFits(digits[..split]);
    HalfFits(digits[split..]);
    SplitNumeral(digits);
  }

  lemma SplitNumeral(digits: string)
    requires AllDigits(digits) && |digits| <= MAX_DIGITS
    ensures var split := SplitAt(digits);
      Numeral(digits) == Numeral(digits[..split]) * POW19 + Numeral(digits[split..])
  {
    hide Pow10;
    var split := SplitAt(digits);
    assert digits == digits[..split] + digits[split..];
    if split > 0 {
      NumeralConcat(digits[..split], digits[split..]);
      Pow10Of19();
    } else {
      assert digits[..split] == "" && digits[split..] == digits;
    }
  }

  /** What is accepted: canonical digits, at most 38 of them, with a minus sign only before a nonzero number. */
  predicate Accepted(s: string) {
    if |s| > 0 && s[0] == '-' then Canonical(s[1..]) && s[1] != '0' && |s| <= MAX_DIGITS + 1
    else Canonical(s) && |s| <= MAX_DIGITS
  }

  lemma ParseIsExact(s: string)
    ensures ParseAmount(s).Some? <==> Accepted(s)
    ensures Accepted(s) ==> FormatInt(Value(ParseAmount(s).value)) == s && Money.InBound(Value(ParseAmount(s).value))
  {
    hide FromDigits;
    hide Value;
    hide Numeral;
    hide Decimal;
    if Accepted(s) {
      var negative := s[0] == '-';
      var digits := if negative then s[1..] else s;
      FromDigitsIsExact(digits);
      NumeralPrints(digits);
      NegIsExact(FromDigits(digits));
      WithinBound(digits);
      if negative {
        DecimalReads(Numeral(digits));
        assert s == "-" + digits;
      }
    }
  }

  lemma WithinBound(digits: string)
    requires AllDigits(digits) && |digits| <= MAX_DIGITS
    ensures Numeral(digits) <= Money.MAX_AMOUNT
  {
    hide Numeral;
    NumeralBound(digits);
    PowMonotone(|digits|, 38);
    Pow10Of19();
  }

  /** Every accepted text is reproduced exactly by printing what was read. */
  lemma PrintsWhatWasRead(s: string)
    requires ParseAmount(s).Some?
    ensures ToString(ParseAmount(s).value) == s
  {
    ParseIsExact(s);
    ToStringIsDecimal(ParseAmount(s).value);
  }

  lemma FormatAccepted(n: int)
    requires Money.InBound(n)
    ensures Accepted(FormatInt(n))
  {
    var abs := if n < 0 then -n else n;
    DecimalReads(abs);
    Pow10Of19();
    DecimalLength(abs, 38);
    if n < 0 {
      assert FormatInt(n)[1..] == Decimal(abs);
    }
  }

  /** The first character tells the sign, the rest is the magnitude. */
  lemma FormatParts(n: int)
    ensures FormatInt(n) != [] && (FormatInt(n)[0] == '-' <==> n < 0)
    ensures (if n < 0 then FormatInt(n)[1..] else FormatInt(n)) == Decimal(if n < 0 then -n else n)
  {
    hide Decimal;
  }

  lemma FormatInjective(m: int, n: int)
    requires FormatInt(m) == FormatInt(n)
    ensures m == n
  {
    hide Decimal;
    hide FormatInt;
    FormatParts(m);
    FormatParts(n);
    DecimalReads(if m < 0 then -m else m);
    DecimalReads(if n < 0 then -n else n);
  }

  /** An amount prints to text that reads back to it, limb for limb, exactly if it is within bounds. */
  lemma ReadsWhatWasPrinted(a: Amount)
    ensures ParseAmount(ToString(a)) == if Money.InBound(Value(a)) then Some(a) else None
  {
    ToStringIsDecimal(a);
    ParseIsExact(ToString(a));
    if Money.InBound(Value(a)) {
      FormatAccepted(Value(a));
    }
    if ParseAmount(ToString(a)).Some? {
      FormatInjective(Value(ParseAmount(ToString(a)).value), Value(a));
      ValueInjective(ParseAmount(ToString(a)).value, a);
    }
  }
}
