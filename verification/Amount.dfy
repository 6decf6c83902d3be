/** Amounts as the program stores them: two 64-bit limbs of a two's-complement 128-bit integer. */
module Amounts {
  import opened Wrappers
  import Money

  const TWO64: int := 0x1_0000_0000_0000_0000
  const TWO63: int := 0x8000_0000_0000_0000
  const TWO127: int := 0x8000_0000_0000_0000_0000_0000_0000_0000
  const POW19: int := 10_000_000_000_000_000_000

  type u64 = x: int | 0 <= x < TWO64

  datatype Amount = Amount(hi: u64, lo: u64)

  const ZERO := Amount(0, 0)

  // ---- word arithmetic ----

  function Int64(x: u64): int {
    if x < TWO63 then x else x - TWO64
  }

  function Add64(x: u64, y: u64, carry: u64): (r: (u64, u64))
    requires carry <= 1
    ensures r.1 <= 1 && r.0 + TWO64 * r.1 == x + y + carry
  {
    var sum := x + y + carry;
    if sum < TWO64 then (sum, 0) else (sum - TWO64, 1)
  }

  function Sub64(x: u64, y: u64, borrow: u64): (r: (u64, u64))
    requires borrow <= 1
    ensures r.1 <= 1 && r.0 - TWO64 * r.1 == x - y - borrow
  {
    var diff := x - y - borrow;
    if diff >= 0 then (diff, 0) else (diff + TWO64, 1)
  }

  /** The 128-bit product of a word and 10^19, as its high and low words. */
  function MulPow19(x: u64): (r: (u64, u64))
    ensures r.0 * TWO64 + r.1 == x * POW19
  {
    (x * POW19 / TWO64, x * POW19 % TWO64)
  }

  /** Division of a double word by 10^19; the machine instruction traps unless the quotient fits a word. */
  function DivPow19(hi: u64, lo: u64): (r: (u64, u64))
    requires hi < POW19
    ensures r.0 * POW19 + r.1 == hi * TWO64 + lo && r.1 < POW19
  {
    var n := hi * TWO64 + lo;
    (n / POW19, n % POW19)
  }

  // ---- amounts ----

  const MAX_AMOUNT: Amount :=
    var (hi, lo) := MulPow19(POW19);
    var (low, borrow) := Sub64(lo, 1, 0);
    Amount(hi - borrow, low)

  function NewAmount(n: int): Amount
    requires -TWO63 <= n < TWO63
  {
    if n < 0 then Amount(TWO64 - 1, n + TWO64) else Amount(0, n)
  }

  function Sign(a: Amount): int {
    if Int64(a.hi) < 0 then -1 else if a.hi == 0 && a.lo == 0 then 0 else 1
  }

  function Cmp(a: Amount, b: Amount): int {
    if Int64(a.hi) < Int64(b.hi) then -1
    else if Int64(a.hi) > Int64(b.hi) then 1
    else if a.lo < b.lo then -1
    else if a.lo > b.lo then 1
    else 0
  }

  function Neg(a: Amount): Amount {
    var (lo, borrow) := Sub64(0, a.lo, 0);
    var (hi, _) := Sub64(0, a.hi, borrow);
    Amount(hi, lo)
  }

  function Abs(a: Amount): Amount {
    if Sign(a) < 0 then Neg(a) else a
  }

  function Checked(a: Amount, b: Amount, sum: Amount): Option<Amount> {
    var wrapped := Sign(a) == Sign(b) && Sign(a) != 0 && Sign(sum) != Sign(a);
    if wrapped || Cmp(Abs(sum), MAX_AMOUNT) > 0 then None else Some(sum)
  }

  function Add(a: Amount, b: Amount): Option<Amount> {
    var (lo, carry) := Add64(a.lo, b.lo, 0);
    var (hi, _) := Add64(a.hi, b.hi, carry);
    Checked(a, b, Amount(hi, lo))
  }

  function Sub(a: Amount, b: Amount): Option<Amount> {
    Add(a, Neg(b))
  }

  // ---- what they mean ----

  /** The integer an amount stands for. */
  function Value(a: Amount): (v: int)
    ensures -TWO127 <= v < TWO127
  {
    Int64(a.hi) * TWO64 + a.lo
  }

  lemma ValueInjective(a: Amount, b: Amount)
    requires Value(a) == Value(b)
    ensures a == b
  {
    assert Int64(a.hi) == Int64(b.hi);
  }

  lemma MaxIs38Digits()
    ensures Value(MAX_AMOUNT) == Money.MAX_AMOUNT == POW19 * POW19 - 1
  {
  }

  lemma SignIsExact(a: Amount)
    ensures Sign(a) == if Value(a) < 0 then -1 else if Value(a) == 0 then 0 else 1
  {
  }

  lemma CmpIsExact(a: Amount, b: Amount)
    ensures Cmp(a, b) == if Value(a) < Value(b) then -1 else if Value(a) > Value(b) then 1 else 0
  {
  }

  /** Negation is exact, except that -2^127 has no counterpart and stays as it is. */
  lemma NegIsExact(a: Amount)
    ensures Value(Neg(a)) == if Value(a) == -TWO127 then -TWO127 else -Value(a)
  {
    var (lo, borrow) := Sub64(0, a.lo, 0);
    assert lo == if a.lo == 0 then 0 else TWO64 - a.lo;
  }

  /** The two-limb sum is the true sum, or off by 2^128 when that is out of range. */
  lemma SumWraps(a: Amount, b: Amount)
    ensures var (lo, carry) := Add64(a.lo, b.lo, 0);
      var (hi, _) := Add64(a.hi, b.hi, carry);
      var v, true_ := Value(Amount(hi, lo)), Value(a) + Value(b);
      v == if true_ >= TWO127 then true_ - 2 * TWO127 else if true_ < -TWO127 then true_ + 2 * TWO127 else true_
  {
  }

  /**
   For all 128-bit operands a sum is accepted exactly when it is within 38 digits, or is -2^127, whose absolute
   value wraps; and every accepted sum is the exact one. This is what Money.Add says.
   */
  lemma AddIsExact(a: Amount, b: Amount)
    ensures Add(a, b).Some? <==> Money.Fits(Value(a) + Value(b))
    ensures Add(a, b).Some? ==> Value(Add(a, b).value) == Value(a) + Value(b)
  {
    SumWraps(a, b);
    var (lo, carry) := Add64(a.lo, b.lo, 0);
    var (hi, _) := Add64(a.hi, b.hi, carry);
    var sum := Amount(hi, lo);
    SignIsExact(a);
    SignIsExact(b);
    SignIsExact(sum);
    NegIsExact(sum);
    CmpIsExact(Abs(sum), MAX_AMOUNT);
    MaxIs38Digits();
  }

  /** Subtraction is as exact as addition; only subtracting -2^127 itself adds it instead. */
  lemma SubIsExact(a: Amount, b: Amount)
    ensures var difference := if Value(b) == -TWO127 then Value(a) + Value(b) else Value(a) - Value(b);
      && (Sub(a, b).Some? <==> Money.Fits(difference))
      && (Sub(a, b).Some? ==> Value(Sub(a, b).value) == difference)
  {
    NegIsExact(b);
    AddIsExact(a, Neg(b));
  }

  /** Amounts within bounds: a sum is accepted if and only if it is within bounds too, but for the one sum -2^127. */
  lemma InRangeSums(a: Amount, b: Amount)
    requires Money.InBound(Value(a)) && Money.InBound(Value(b))
    ensures Value(a) + Value(b) != -TWO127 ==> (Add(a, b).Some? <==> Money.InBound(Value(a) + Value(b)))
    ensures Value(a) + Value(b) == -TWO127 ==> Add(a, b).Some? && !Money.InBound(Value(Add(a, b).value))
  {
    AddIsExact(a, b);
  }

  /** The sum that slips through: -2^126 twice, both within bounds, gives -2^127, which is not. */
  lemma OddSum()
    ensures var a := Amount(0xC000_0000_0000_0000, 0);
      && Value(a) == -TWO127 / 2 && Money.InBound(Value(a))
      && Add(a, a).Some? && Value(Add(a, a).value) == -TWO127 && !Money.InBound(-TWO127)
  {
    var a := Amount(0xC000_0000_0000_0000, 0);
    AddIsExact(a, a);
  }
}
