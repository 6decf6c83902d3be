/** Amounts read from the database's decimal numbers: an integer times a power of ten. */
module Numerics {
  import opened Wrappers
  import opened Amounts
  import opened AmountText
  import Money

  datatype Numeric = NotFinite | Numeric(coefficient: int, exponent: int)

  datatype ScanError = NotNumeric | Overflow | Fractional

  function Magnitude(n: int): nat {
    if n < 0 then -n else n
  }

  function BitLen(n: nat): nat {
    if n == 0 then 0 else 1 + BitLen(n / 2)
  }

  /** The two limbs of an integer. */
  function FromBig(n: int): Option<Amount> {
    if -TWO63 <= n < TWO63 then Some(NewAmount(n))
    else if Magnitude(n) > Value(MAX_AMOUNT) then None
    else
      var abs := Magnitude(n);
      MaxIs38Digits();
      var a := Amount(abs / TWO64, abs % TWO64);
      Some(if n < 0 then Neg(a) else a)
  }

  lemma FromBigIsExact(n: int)
    ensures FromBig(n).Some? <==> Money.InBound(n)
    ensures FromBig(n).Some? ==> Value(FromBig(n).value) == n
  {
    MaxIs38Digits();
    if FromBig(n).Some? && !(-TWO63 <= n < TWO63) {
      var abs := Magnitude(n);
      assert Value(Amount(abs / TWO64, abs % TWO64)) == abs;
      NegIsExact(Amount(abs / TWO64, abs % TWO64));
    }
  }

  function ToError(a: Option<Amount>): Result<Amount, ScanError> {
    if a.Some? then Ok(a.value) else Err(Overflow)
  }

  function ScanNumeric(n: Numeric): Result<Amount, ScanError> {
    if n.NotFinite? then Err(NotNumeric)
    else if n.coefficient == 0 then Ok(ZERO)
    else if n.exponent > MAX_DIGITS then Err(Overflow)
    else if -n.exponent > BitLen(Magnitude(n.coefficient)) then Err(Fractional)
    else if n.exponent >= 0 then ToError(FromBig(n.coefficient * Pow10(n.exponent)))
    else if n.coefficient % Pow10(-n.exponent) != 0 then Err(Fractional)
    else ToError(FromBig(n.coefficient / Pow10(-n.exponent)))
  }

  /** The number denotes the integer `v`. */
  predicate Denotes(n: Numeric, v: int) {
    && n.Numeric?
    && if n.exponent >= 0 then v == n.coefficient * Pow10(n.exponent) else v * Pow10(-n.exponent) == n.coefficient
  }

  lemma {:induction false} BitsBound(n: nat, k: nat)
    requires n > 0 && k > BitLen(n)
    ensures n < Pow10(k)
  {
    if n > 1 {
      BitsBound(n / 2, k - 1);
    } else {
      PowMonotone(1, k);
    }
  }

  lemma TooLarge(c: int, e: nat)
    requires c != 0 && e > MAX_DIGITS
    ensures !Money.InBound(c * Pow10(e))
  {
    hide Pow10;
    PowMonotone(38, e);
    Pow10Of19();
    if c > 0 {
      Steeper(0, c, Pow10(e));
    } else {
      Steeper(c, 0, Pow10(e));
    }
  }

  lemma NotDivisible(c: int, p: int, v: int)
    requires c != 0 && Magnitude(c) < p
    ensures v * p != c
  {
    if v > 0 {
      Steeper(0, v, p);
    } else if v < 0 {
      Steeper(v, 0, p);
    }
  }

  lemma Divides(c: int, p: int, v: int)
    requires p > 0
    ensures v * p == c <==> c % p == 0 && c / p == v
  {
    if v * p == c {
      DivideExactly(v, p);
    } else if c % p == 0 {
      assert c == (c / p) * p + c % p;
    }
  }

  lemma DivideExactly(v: int, p: int)
    requires p > 0
    ensures (v * p) % p == 0 && (v * p) / p == v
  {
    var c := v * p;
    OneQuotient(v, c / p, c % p, p);
  }

  lemma OneQuotient(v: int, q: int, r: int, p: int)
    requires v * p == q * p + r && 0 <= r < p
    ensures v == q && r == 0
  {
    if v > q {
      Steeper(q, v, p);
    } else if v < q {
      Steeper(v, q, p);
    }
  }

  /** A number is accepted exactly when it denotes an integer of at most 38 digits, and is read as that integer. */
  lemma ScanIsExact(n: Numeric)
    ensures ScanNumeric(n).Ok? <==> exists v :: Denotes(n, v) && Money.InBound(v)
    ensures ScanNumeric(n).Ok? ==> Denotes(n, Value(ScanNumeric(n).value))
  {
    hide Pow10;
    hide BitLen;
    if n.Numeric? {
      var c, e := n.coefficient, n.exponent;
      if c == 0 {
        assert Denotes(n, 0);
      } else if e > MAX_DIGITS {
        TooLarge(c, e);
      } else if -e > BitLen(Magnitude(c)) {
        BitsBound(Magnitude(c), -e);
        forall v ensures !Denotes(n, v) {
          NotDivisible(c, Pow10(-e), v);
        }
      } else if e >= 0 {
        FromBigIsExact(c * Pow10(e));
        assert Denotes(n, c * Pow10(e));
      } else {
        ScanFraction(n);
      }
    }
  }

  lemma ScanFraction(n: Numeric)
    requires n.Numeric? && n.coefficient != 0 && n.exponent < 0 && -n.exponent <= BitLen(Magnitude(n.coefficient))
    ensures ScanNumeric(n).Ok? <==> exists v :: Denotes(n, v) && Money.InBound(v)
    ensures ScanNumeric(n).Ok? ==> Denotes(n, Value(ScanNumeric(n).value))
  {
    hide Pow10;
    hide BitLen;
    hide FromBig;
    hide Value;
    var c, p := n.coefficient, Pow10(-n.exponent);
    var q := c / p;
    FromBigIsExact(q);
    Divides(c, p, q);
    forall v | Denotes(n, v) ensures v == q && c % p == 0 {
      Divides(c, p, v);
    }
  }
}
