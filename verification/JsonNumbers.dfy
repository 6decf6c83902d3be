/** JSON numbers compared by value: a normal form of their text, and equality of JSON trees by it. */
module JsonNumbers {
  import opened Wrappers
  import opened AmountText
  import opened MergePatches

  const MAX_INT := 0x7FFF_FFFF_FFFF_FFFF
  const MIN_INT := -0x8000_0000_0000_0000

  // ---- the grammar of section 6 of RFC 8259 ----

  datatype Exponent = Exponent(marker: char, sign: Option<char>, digits: string)

  datatype NumberText = NumberText(negative: bool, whole: string, fraction: Option<string>, exponent: Option<Exponent>)

  predicate ValidExponent(e: Exponent) {
    && (e.marker == 'e' || e.marker == 'E')
    && (e.sign.Some? ==> e.sign.value == '+' || e.sign.value == '-')
    && AllDigits(e.digits) && e.digits != []
  }

  predicate ValidNumber(n: NumberText) {
    && Canonical(n.whole)
    && (n.fraction.Some? ==> AllDigits(n.fraction.value) && n.fraction.value != [])
    && (n.exponent.Some? ==> ValidExponent(n.exponent.value))
  }

  function ExponentText(e: Exponent): string {
    (if e.sign.Some? then [e.sign.value] else []) + e.digits
  }

  function MantissaText(n: NumberText): string {
    n.whole + (if n.fraction.Some? then "." + n.fraction.value else "")
  }

  function Text(n: NumberText): string {
    (if n.negative then "-" else "")
    + (MantissaText(n) + (if n.exponent.Some? then [n.exponent.value.marker] + ExponentText(n.exponent.value) else ""))
  }

  // ---- what a number means ----

  function Signed(negative: bool, v: int): int {
    if negative then -v else v
  }

  function ExponentOf(e: Exponent): int
    requires ValidExponent(e)
  {
    Signed(e.sign == Some('-'), Numeral(e.digits))
  }

  function ExponentValue(n: NumberText): int
    requires ValidNumber(n)
  {
    if n.exponent.None? then 0 else ExponentOf(n.exponent.value)
  }

  function Fraction(n: NumberText): string {
    if n.fraction.Some? then n.fraction.value else ""
  }

  function Digits(n: NumberText): (d: string)
    requires ValidNumber(n)
    ensures AllDigits(d)
  {
    n.whole + Fraction(n)
  }

  /** The number is `Mantissa * 10^Scale`. */
  function Mantissa(n: NumberText): int
    requires ValidNumber(n)
  {
    Signed(n.negative, Numeral(Digits(n)))
  }

  function Scale(n: NumberText): int
    requires ValidNumber(n)
  {
    ExponentValue(n) - |Fraction(n)|
  }

  /** Equality of `m * 10^e` and `k * 10^f`, brought to the smaller power. */
  predicate SameValue(m: int, e: int, k: int, f: int) {
    if e >= f then m * Pow10(e - f) == k else m == k * Pow10(f - e)
  }

  // ---- the code: indexes, trims, and arithmetic on the exponent ----

  function IndexAny(s: string, chars: set<char>): (i: int)
    ensures -1 <= i < |s|
    ensures i >= 0 ==> s[i] in chars && forall k :: 0 <= k < i ==> s[k] !in chars
    ensures i < 0 ==> forall k :: 0 <= k < |s| ==> s[k] !in chars
  {
    if s == [] then -1
    else if s[0] in chars then 0
    else
      var i := IndexAny(s[1..], chars);
      if i < 0 then -1 else i + 1
  }

  /** A signed integer, if it is one and fits 64 bits. */
  function Atoi(s: string): Option<int> {
    var negative := |s| > 0 && s[0] == '-';
    var digits := if |s| > 0 && (s[0] == '-' || s[0] == '+') then s[1..] else s;
    if digits == [] || !AllDigits(digits) then None
    else
      var v := Signed(negative, Numeral(digits));
      if MIN_INT <= v <= MAX_INT then Some(v) else None
  }

  function TrimLeft(s: string): (r: string)
    ensures AllDigits(s) ==> AllDigits(r)
    ensures |r| <= |s|
  {
    if s != [] && s[0] == '0' then TrimLeft(s[1..]) else s
  }

  function TrimRight(s: string): (r: string)
    ensures AllDigits(s) ==> AllDigits(r)
    ensures |r| <= |s|
  {
    if s != [] && s[|s| - 1] == '0' then TrimRight(s[..|s| - 1]) else s
  }

  /** The sum in 64-bit arithmetic, which wraps. */
  function Wrap(x: int): int {
    (x - MIN_INT) % (MAX_INT - MIN_INT + 1) + MIN_INT
  }

  function CanonicalNumber(n: string): string {
    var negative := |n| > 0 && n[0] == '-';
    var sign, s := if negative then "-" else "", if negative then n[1..] else n;
    var i := IndexAny(s, {'e', 'E'});
    if i < 0 then Shifted(sign, 0, s)
    else
      match Atoi(s[i + 1..])
      case None => n
      case Some(exp) => Shifted(sign, exp, s[..i])
  }

  /** Drops the point and the zeros at both ends, moving the exponent along. */
  function Shifted(sign: string, exponent: int, s: string): string {
    var dot := IndexAny(s, {'.'});
    var digits := if dot >= 0 then s[..dot] + s[dot + 1..] else s;
    var exp := if dot >= 0 then Wrap(exponent - (|s| - dot - 1)) else exponent;
    var left := TrimLeft(digits);
    if left == "" then "0"
    else
      var trimmed := TrimRight(left);
      sign + trimmed + "e" + FormatInt(Wrap(exp + (|left| - |trimmed|)))
  }

  // ---- what the code computes from a number's parts ----

  /** The exponent fits an int, so it can be read. */
  predicate ExponentFits(n: NumberText)
    requires ValidNumber(n)
  {
    MIN_INT <= ExponentValue(n) <= MAX_INT
  }

  /** The normal form: no zeros at either end, and the power of ten that goes with it, as far as 64 bits tell it. */
  function Normal(n: NumberText): string
    requires ValidNumber(n)
  {
    var left := TrimLeft(Digits(n));
    if left == "" then "0"
    else
      var trimmed := TrimRight(left);
      (if n.negative then "-" else "") + trimmed + "e" + FormatInt(Wrap(Scale(n) + (|left| - |trimmed|)))
  }

  lemma DigitsHaveNo(s: string, chars: set<char>)
    requires AllDigits(s) && forall c :: c in chars ==> !IsDigit(c)
    ensures forall k :: 0 <= k < |s| ==> s[k] !in chars
  {
  }

  lemma IndexAfter(a: string, c: char, b: string, chars: set<char>)
    requires (forall k :: 0 <= k < |a| ==> a[k] !in chars) && c in chars
    ensures IndexAny(a + ([c] + b), chars) == |a|
  {
    var s := a + ([c] + b);
    assert s[|a|] == c && forall k :: 0 <= k < |a| ==> s[k] == a[k];
  }

  lemma IndexNone(a: string, chars: set<char>)
    requires forall k :: 0 <= k < |a| ==> a[k] !in chars
    ensures IndexAny(a, chars) == -1
  {
  }

  lemma AtoiReads(e: Exponent)
    requires ValidExponent(e)
    ensures Atoi(ExponentText(e)) == if MIN_INT <= ExponentOf(e) <= MAX_INT then Some(ExponentOf(e)) else None
  {
    hide Numeral;
    if e.sign.Some? {
      assert ExponentText(e)[1..] == e.digits;
    } else {
      assert ExponentText(e) == e.digits && IsDigit(e.digits[0]);
    }
  }

  lemma MantissaSplits(n: NumberText)
    requires ValidNumber(n)
    ensures var m := MantissaText(n);
      var dot := IndexAny(m, {'.'});
      && (dot >= 0 <==> n.fraction.Some?)
      && (dot >= 0 ==> m[..dot] + m[dot + 1..] == Digits(n) && |m| - dot - 1 == |Fraction(n)|)
      && (dot < 0 ==> m == Digits(n) && |Fraction(n)| == 0)
      && (forall k :: 0 <= k < |m| ==> m[k] !in {'e', 'E'})
      && m != [] && m[0] != '-'
  {
    DigitsHaveNo(n.whole, {'.'});
    if n.fraction.Some? {
      IndexAfter(n.whole, '.', n.fraction.value, {'.'});
      assert MantissaText(n) == n.whole + (['.'] + n.fraction.value);
    } else {
      IndexNone(n.whole, {'.'});
      assert MantissaText(n) == n.whole && Digits(n) == n.whole;
    }
  }

  lemma ExponentSplits(n: NumberText)
    requires ValidNumber(n)
    ensures var s := MantissaText(n) + (if n.exponent.Some? then [n.exponent.value.marker] + ExponentText(n.exponent.value) else "");
      var i := IndexAny(s, {'e', 'E'});
      && (i >= 0 <==> n.exponent.Some?)
      && (i >= 0 ==> s[..i] == MantissaText(n) && s[i + 1..] == ExponentText(n.exponent.value))
      && (i < 0 ==> s == MantissaText(n))
      && s != [] && s[0] != '-'
  {
    MantissaSplits(n);
    if n.exponent.Some? {
      IndexAfter(MantissaText(n), n.exponent.value.marker, ExponentText(n.exponent.value), {'e', 'E'});
    } else {
      IndexNone(MantissaText(n), {'e', 'E'});
      assert MantissaText(n) + "" == MantissaText(n);
    }
  }

  lemma WrapFits(x: int)
    ensures MIN_INT <= Wrap(x) <= MAX_INT
    ensures MIN_INT <= x <= MAX_INT ==> Wrap(x) == x
  {
  }

  lemma WrapTwice(x: int, y: int)
    ensures Wrap(Wrap(x) + y) == Wrap(x + y)
  {
  }

  lemma {:induction false} TrimLengths(s: string)
    ensures |TrimLeft(s)| <= |s| && |TrimRight(s)| <= |s|
  {
  }

  lemma CodeSplits(n: NumberText)
    requires ValidNumber(n)
    ensures CanonicalNumber(Text(n)) ==
      if ExponentFits(n) then Shifted(if n.negative then "-" else "", ExponentValue(n), MantissaText(n)) else Text(n)
  {
    hide Numeral;
    hide IndexAny;
    hide Shifted;
    hide Atoi;
    hide MantissaText;
    hide ExponentText;
    hide ExponentOf;
    hide Canonical;
    var s := MantissaText(n) + (if n.exponent.Some? then [n.exponent.value.marker] + ExponentText(n.exponent.value) else "");
    ExponentSplits(n);
    if n.exponent.Some? {
      AtoiReads(n.exponent.value);
    }
    if n.negative {
      assert Text(n)[0] == '-' && Text(n)[1..] == s;
    } else {
      assert Text(n) == s;
    }
  }

  /** On every number whose exponent can be read, the code computes the normal form; others it leaves as they are. */
  lemma CodeIsNormal(n: NumberText)
    requires ValidNumber(n)
    ensures CanonicalNumber(Text(n)) == if ExponentFits(n) then Normal(n) else Text(n)
  {
    hide Numeral;
    hide IndexAny;
    hide TrimLeft;
    hide TrimRight;
    hide FormatInt;
    hide Wrap;
    hide CanonicalNumber;
    hide MantissaText;
    CodeSplits(n);
    MantissaSplits(n);
    var left := TrimLeft(Digits(n));
    WrapFits(ExponentValue(n));
    WrapTwice(Scale(n), |left| - |TrimRight(left)|);
  }

  // ---- the normal form is one per value ----

  lemma LeadingZero(s: string)
    requires AllDigits(s) && s != [] && s[0] == '0'
    ensures AllDigits(s[1..]) && Numeral(s) == Numeral(s[1..])
  {
    hide Pow10;
    NumeralConcat(['0'], s[1..]);
    assert s == ['0'] + s[1..];
    assert ['0'][..0] == "" && Numeral(['0']) == 10 * Numeral("") + DigitValue('0') == 0;
    ZeroProduct(0, Pow10(|s[1..]|));
  }

  lemma ZeroProduct(a: nat, b: nat)
    ensures a == 0 ==> a * b == 0
  {
  }

  lemma {:induction false} TrimLeftKeeps(s: string)
    requires AllDigits(s)
    ensures Numeral(TrimLeft(s)) == Numeral(s)
    ensures TrimLeft(s) == "" <==> Numeral(s) == 0
    ensures TrimLeft(s) != "" ==> TrimLeft(s)[0] != '0'
  {
    hide Decimal;
    if s == [] {
      assert Numeral("") == 0;
    } else if s[0] == '0' {
      LeadingZero(s);
      TrimLeftKeeps(s[1..]);
    } else {
      NumeralPrints(s);
      DecimalReads(Numeral(s));
    }
  }

  lemma {:induction false} TrimRightKeeps(s: string)
    requires AllDigits(s)
    ensures Numeral(s) == Numeral(TrimRight(s)) * Pow10(|s| - |TrimRight(s)|)
    ensures TrimRight(s) == s[..|TrimRight(s)|]
    ensures TrimRight(s) != "" ==> Numeral(TrimRight(s)) % 10 != 0
  {
    hide Numeral;
    if s != [] && s[|s| - 1] == '0' {
      TrimRightKeeps(s[..|s| - 1]);
      LastDigit(s);
      var t := TrimRight(s);
      assert Pow10(|s| - |t|) == 10 * Pow10(|s| - 1 - |t|);
      TenTimes(Numeral(t), Pow10(|s| - 1 - |t|));
    } else if s != [] {
      LastDigit(s);
    }
  }

  lemma LastDigit(s: string)
    requires AllDigits(s) && s != []
    ensures Numeral(s) == 10 * Numeral(s[..|s| - 1]) + DigitValue(s[|s| - 1])
    ensures Numeral(s) % 10 == DigitValue(s[|s| - 1])
  {
    Remainder(Numeral(s[..|s| - 1]), DigitValue(s[|s| - 1]));
  }

  lemma Remainder(a: nat, d: nat)
    requires d < 10
    ensures (10 * a + d) % 10 == d
  {
  }

  lemma TenTimes(a: int, b: int)
    ensures 10 * (a * b) == a * (10 * b)
  {
  }

  /** The normal form in numbers: sign and digits, none of them a trailing zero, and the power of ten. */
  function Core(n: NumberText): (nat, int)
    requires ValidNumber(n)
  {
    var left := TrimLeft(Digits(n));
    var trimmed := TrimRight(left);
    (Numeral(trimmed), if left == "" then 0 else Scale(n) + (|left| - |trimmed|))
  }

  lemma CoreMeans(n: NumberText)
    requires ValidNumber(n)
    ensures var (c, e) := Core(n);
      && (Numeral(Digits(n)) == 0 <==> c == 0) && (c != 0 ==> c % 10 != 0)
      && (c == 0 ==> e == 0)
      && (c != 0 ==> e >= Scale(n) && Numeral(Digits(n)) == c * Pow10(e - Scale(n)))
  {
    hide Numeral;
    hide Pow10;
    var left := TrimLeft(Digits(n));
    TrimLeftKeeps(Digits(n));
    TrimRightKeeps(left);
    TrimLengths(left);
    if left == "" {
      assert TrimRight("") == "";
      TrimLeftKeeps("");
    } else {
      ZeroProduct(Numeral(TrimRight(left)), Pow10(|left| - |TrimRight(left)|));
      TrimRightEmpty(left);
    }
  }

  lemma TrimRightEmpty(s: string)
    requires AllDigits(s) && Numeral(s) != 0
    ensures TrimRight(s) != ""
  {
    hide Pow10;
    TrimRightKeeps(s);
    assert Numeral("") == 0;
  }

  // ---- equal values, equal normal forms ----

  /** Two positive numbers in normal form are equal only if they are the same digits at the same power. */
  lemma OneCore(c: nat, e: int, d: nat, f: int)
    requires c % 10 != 0 && d % 10 != 0 && SameValue(c, e, d, f)
    ensures c == d && e == f
  {
    if e > f {
      MultipleOfTen(c, e - f);
    } else if f > e {
      MultipleOfTen(d, f - e);
    }
  }

  lemma MultipleOfTen(c: nat, k: nat)
    requires k > 0
    ensures (c * Pow10(k)) % 10 == 0
  {
    hide Pow10;
    PowStep(k);
    TenTimes(c, Pow10(k - 1));
    TenDivides(c * Pow10(k - 1));
  }

  lemma PowStep(k: nat)
    requires k > 0
    ensures Pow10(k) == 10 * Pow10(k - 1)
  {
  }

  lemma TenDivides(x: int)
    ensures (10 * x) % 10 == 0
  {
  }

  lemma {:induction false} PowAdds(a: nat, b: nat)
    ensures Pow10(a + b) == Pow10(a) * Pow10(b)
  {
    hide Pow10;
    if a == 0 {
      assert Pow10(0) == 1 by {
        PowZero();
      }
    } else {
      PowAdds(a - 1, b);
      PowStep(a + b);
      PowStep(a);
      TenTimesLeft(Pow10(a - 1), Pow10(b));
    }
  }

  lemma PowZero()
    ensures Pow10(0) == 1
  {
  }

  lemma TenTimesLeft(x: int, y: int)
    ensures 10 * (x * y) == (10 * x) * y
  {
  }

  lemma Cancels(x: int, y: int, p: int)
    requires p > 0
    ensures x * p == y * p <==> x == y
  {
    if x < y {
      Steeper(x, y, p);
    } else if x > y {
      Steeper(y, x, p);
    }
  }

  lemma Regroup(x: int, a: int, b: int)
    ensures x * (a * b) == (x * a) * b
  {
  }

  /** Rescaling the left side does not change whether two numbers are equal. */
  lemma RescaleLeft(m: int, e: int, c: int, g: int, k: int, f: int)
    requires g >= e && m == c * Pow10(g - e)
    ensures SameValue(m, e, k, f) <==> SameValue(c, g, k, f)
  {
    if e >= f {
      PowAdds(g - e, e - f);
      Regroup(c, Pow10(g - e), Pow10(e - f));
    } else if g >= f {
      PowAdds(g - f, f - e);
      Regroup(c, Pow10(g - f), Pow10(f - e));
      Cancels(c * Pow10(g - f), k, Pow10(f - e));
    } else {
      PowAdds(f - g, g - e);
      Regroup(k, Pow10(f - g), Pow10(g - e));
      Cancels(c, k * Pow10(f - g), Pow10(g - e));
    }
  }

  lemma Symmetric(m: int, e: int, k: int, f: int)
    ensures SameValue(m, e, k, f) <==> SameValue(k, f, m, e)
  {
    if e == f {
      assert Pow10(0) == 1;
    }
  }

  lemma ZeroOnlyZero(m: int, e: int, k: int, f: int)
    requires SameValue(m, e, k, f)
    ensures m == 0 <==> k == 0
  {
    var p: int := if e >= f then Pow10(e - f) else Pow10(f - e);
    Cancels(if e >= f then m else k, 0, p);
    assert 0 * p == 0;
  }

  lemma Signs(m: int, e: int, k: int, f: int)
    requires m >= 0 && k >= 0
    ensures SameValue(-m, e, -k, f) <==> SameValue(m, e, k, f)
    ensures SameValue(m, e, -k, f) ==> m == 0 && k == 0
  {
    var p: int := if e >= f then Pow10(e - f) else Pow10(f - e);
    Opposite(m, p);
    Opposite(k, p);
    if SameValue(m, e, -k, f) {
      NonNegativeProduct(m, p);
      NonNegativeProduct(k, p);
      ZeroOnlyZero(m, e, -k, f);
    }
  }

  lemma Opposite(m: int, p: int)
    ensures (-m) * p == -(m * p)
  {
  }

  /** Magnitudes are equal exactly when their cores are. */
  lemma CoresDecide(n: NumberText, o: NumberText)
    requires ValidNumber(n) && ValidNumber(o)
    ensures SameValue(Numeral(Digits(n)), Scale(n), Numeral(Digits(o)), Scale(o)) <==> Core(n) == Core(o)
  {
    hide Core;
    hide Pow10;
    CoreMeans(n);
    CoreMeans(o);
    var (c, e) := Core(n);
    var (d, f) := Core(o);
    var m, k := Numeral(Digits(n)), Numeral(Digits(o));
    if c == 0 || d == 0 {
      ZeroCores(m, Scale(n), k, Scale(o));
    } else {
      RescaleLeft(m, Scale(n), c, e, k, Scale(o));
      Symmetric(c, e, k, Scale(o));
      RescaleLeft(k, Scale(o), d, f, c, e);
      Symmetric(d, f, c, e);
      if SameValue(c, e, d, f) {
        OneCore(c, e, d, f);
      } else {
        SelfSame(c, e);
      }
    }
  }

  lemma SelfSame(c: int, e: int)
    ensures SameValue(c, e, c, e)
  {
    assert Pow10(0) == 1;
  }

  lemma ZeroCores(m: nat, e: int, k: nat, f: int)
    requires m == 0 || k == 0
    ensures SameValue(m, e, k, f) <==> m == k
  {
    var p: int := if e >= f then Pow10(e - f) else Pow10(f - e);
    assert 0 * p == 0;
    if SameValue(m, e, k, f) {
      ZeroOnlyZero(m, e, k, f);
    }
  }

  // ---- equal cores, equal text ----

  lemma NormalText(n: NumberText)
    requires ValidNumber(n)
    ensures var (c, e) := Core(n);
      Normal(n) == if c == 0 then "0" else (if n.negative then "-" else "") + Decimal(c) + "e" + FormatInt(Wrap(e))
  {
    hide Numeral;
    hide Decimal;
    hide Pow10;
    var left := TrimLeft(Digits(n));
    TrimLeftKeeps(Digits(n));
    CoreMeans(n);
    if left != "" {
      TrimRightKeeps(left);
      TrimRightEmpty(left);
      assert TrimRight(left)[0] == left[0];
      NumeralPrints(TrimRight(left));
    }
  }

  /** The text of a nonzero normal form can be taken apart again. */
  lemma FormInjective(neg1: bool, c: nat, e: int, neg2: bool, d: nat, f: int)
    requires (if neg1 then "-" else "") + Decimal(c) + "e" + FormatInt(e) == (if neg2 then "-" else "") + Decimal(d) + "e" + FormatInt(f)
    ensures neg1 == neg2 && c == d && e == f
  {
    hide Decimal;
    hide FormatInt;
    hide IndexAny;
    var a, b := (if neg1 then "-" else "") + Decimal(c), (if neg2 then "-" else "") + Decimal(d);
    assert a + "e" + FormatInt(e) == a + (['e'] + FormatInt(e));
    assert b + "e" + FormatInt(f) == b + (['e'] + FormatInt(f));
    IndexAfter(a, 'e', FormatInt(e), {'e'});
    IndexAfter(b, 'e', FormatInt(f), {'e'});
    var s := a + "e" + FormatInt(e);
    assert a == s[..|a|] == b;
    assert FormatInt(e) == s[|a| + 1..] == FormatInt(f);
    FormatInjective(e, f);
    assert IsDigit(Decimal(c)[0]) && IsDigit(Decimal(d)[0]);
    assert neg1 == (a[0] == '-') && neg2 == (b[0] == '-');
    assert Decimal(c) == (if neg1 then a[1..] else a) && Decimal(d) == (if neg2 then b[1..] else b);
    DecimalReads(c);
    DecimalReads(d);
  }

  lemma NormalDecides(n: NumberText, o: NumberText)
    requires ValidNumber(n) && ValidNumber(o)
    ensures var ((c, e), (d, f)) := (Core(n), Core(o));
      Normal(n) == Normal(o) <==> c == d && (c == 0 || (n.negative == o.negative && Wrap(e) == Wrap(f)))
  {
    hide Wrap;
    hide Core;
    hide Normal;
    hide Decimal;
    hide FormatInt;
    NormalText(n);
    NormalText(o);
    CoreMeans(n);
    CoreMeans(o);
    var (c, e) := Core(n);
    var (d, f) := Core(o);
    if c != 0 && d != 0 {
      if Normal(n) == Normal(o) {
        FormInjective(n.negative, c, Wrap(e), o.negative, d, Wrap(f));
      }
    } else if (c == 0) != (d == 0) {
      NotZeroText(if c == 0 then o.negative else n.negative, if c == 0 then d else c, Wrap(if c == 0 then f else e));
    }
  }

  lemma NotZeroText(negative: bool, c: nat, e: int)
    ensures (if negative then "-" else "") + Decimal(c) + "e" + FormatInt(e) != "0"
  {
    assert |(if negative then "-" else "") + Decimal(c) + "e" + FormatInt(e)| >= 2;
  }

  /** A text has an exponent marker, and what follows it cannot be read. */
  predicate Unreadable(s: string) {
    var i := IndexAny(s, {'e', 'E'});
    i >= 0 && Atoi(s[i + 1..]).None?
  }

  lemma NormalIsReadable(n: NumberText)
    requires ValidNumber(n)
    ensures !Unreadable(Normal(n))
  {
    hide Core;
    hide Normal;
    hide Decimal;
    hide FormatInt;
    hide IndexAny;
    hide Atoi;
    hide Wrap;
    var (c, e) := Core(n);
    var a := (if n.negative then "-" else "") + Decimal(c);
    NormalText(n);
    WrapFits(e);
    AtoiFormats(Wrap(e));
    IndexNone("0", {'e', 'E'});
    IndexAfter(a, 'e', FormatInt(Wrap(e)), {'e', 'E'});
    var s := a + (['e'] + FormatInt(Wrap(e)));
    assert a + "e" + FormatInt(Wrap(e)) == s && s[|a| + 1..] == FormatInt(Wrap(e));
  }

  lemma UnreadIsUnreadable(o: NumberText)
    requires ValidNumber(o) && !ExponentFits(o)
    ensures Unreadable(Text(o))
  {
    hide IndexAny;
    hide Atoi;
    hide MantissaText;
    hide ExponentText;
    hide ExponentOf;
    var x := o.exponent.value;
    var b := (if o.negative then "-" else "") + MantissaText(o);
    MantissaSplits(o);
    AtoiReads(x);
    IndexAfter(b, x.marker, ExponentText(x), {'e', 'E'});
    var s := b + ([x.marker] + ExponentText(x));
    assert Text(o) == s;
    hide Text;
    assert s[|b| + 1..] == ExponentText(x);
  }

  lemma AtoiFormats(w: int)
    requires MIN_INT <= w <= MAX_INT
    ensures Atoi(FormatInt(w)) == Some(w)
  {
    hide Decimal;
    hide Numeral;
    FormatParts(w);
    DecimalReads(if w < 0 then -w else w);
    assert IsDigit(Decimal(if w < 0 then -w else w)[0]);
  }

  /** The same digits and sign, and powers of ten that differ by a multiple of 2^64. */
  predicate Aliased(n: NumberText, o: NumberText)
    requires ValidNumber(n) && ValidNumber(o)
  {
    var ((c, e), (d, f)) := (Core(n), Core(o));
    c == d != 0 && n.negative == o.negative && e != f && Wrap(e) == Wrap(f)
  }

  /**
   Exactly which JSON numbers the code gives the same text: those of the same value and those whose powers of ten
   wrap to the same 64 bits, if both exponents can be read; else only the same text.
   */
  lemma CanonicalExact(n: NumberText, o: NumberText)
    requires ValidNumber(n) && ValidNumber(o)
    ensures CanonicalNumber(Text(n)) == CanonicalNumber(Text(o)) <==>
      if ExponentFits(n) && ExponentFits(o) then SameValue(Mantissa(n), Scale(n), Mantissa(o), Scale(o)) || Aliased(n, o)
      else !ExponentFits(n) && !ExponentFits(o) && Text(n) == Text(o)
  {
    hide Core;
    hide CanonicalNumber;
    hide Normal;
    hide SameValue;
    hide Text;
    hide Wrap;
    hide Unreadable;
    CodeIsNormal(n);
    CodeIsNormal(o);
    if ExponentFits(n) && ExponentFits(o) {
      NormalDecides(n, o);
      CoreMeans(n);
      CoreMeans(o);
      ValuesDecide(n, o);
    } else if ExponentFits(n) {
      NormalIsReadable(n);
      UnreadIsUnreadable(o);
    } else if ExponentFits(o) {
      NormalIsReadable(o);
      UnreadIsUnreadable(n);
    }
  }

  /** The exponent can be read, and the power of ten of the normal form fits 64 bits too. */
  predicate Manageable(n: NumberText)
    requires ValidNumber(n)
  {
    ExponentFits(n) && MIN_INT <= Core(n).1 <= MAX_INT
  }

  /** As long as exponents fit 64 bits, two JSON numbers get the same text exactly when they have the same value. */
  lemma CanonicalDecides(n: NumberText, o: NumberText)
    requires ValidNumber(n) && ValidNumber(o) && Manageable(n) && Manageable(o)
    ensures CanonicalNumber(Text(n)) == CanonicalNumber(Text(o)) <==> SameValue(Mantissa(n), Scale(n), Mantissa(o), Scale(o))
  {
    hide Core;
    hide CanonicalNumber;
    hide SameValue;
    hide Wrap;
    CanonicalExact(n, o);
    WrapFits(Core(n).1);
    WrapFits(Core(o).1);
  }

  /** Numbers have the same value exactly when sign and core are the same. */
  lemma ValuesDecide(n: NumberText, o: NumberText)
    requires ValidNumber(n) && ValidNumber(o)
    ensures SameValue(Mantissa(n), Scale(n), Mantissa(o), Scale(o))
      <==> Core(n) == Core(o) && (Core(n).0 == 0 || n.negative == o.negative)
  {
    hide Numeral;
    hide Core;
    hide SameValue;
    CoresDecide(n, o);
    CoreMeans(n);
    CoreMeans(o);
    var m: int, k: int := Numeral(Digits(n)), Numeral(Digits(o));
    Signs(m, Scale(n), k, Scale(o));
    Signs(k, Scale(o), m, Scale(n));
    Symmetric(-m, Scale(n), k, Scale(o));
    if m == 0 || k == 0 {
      ZeroCores(m, Scale(n), k, Scale(o));
    }
  }

  function WithExponent(whole: string, exponent: int): NumberText {
    NumberText(false, whole, None, Some(Exponent('e', if exponent < 0 then Some('-') else None,
                                                 Decimal(if exponent < 0 then -exponent else exponent))))
  }

  lemma WithExponentMeans(whole: string, exponent: int)
    requires Canonical(whole)
    ensures var n := WithExponent(whole, exponent);
      ValidNumber(n) && ExponentValue(n) == Scale(n) == exponent && MantissaText(n) == Digits(n) == whole
  {
    hide Decimal;
    hide Numeral;
    DecimalReads(if exponent < 0 then -exponent else exponent);
  }

  lemma ShiftedCollide()
    ensures Shifted("", MAX_INT, "10") == Shifted("", MIN_INT, "1")
  {
    hide FormatInt;
    IndexNone("10", {'.'});
    IndexNone("1", {'.'});
    assert TrimLeft("10") == "10" && TrimLeft("1") == "1";
    assert "10"[..1] == "1" && TrimRight("1") == "1";
    assert TrimRight("10") == TrimRight("10"[..1]);
  }

  /** Past 64 bits the exponent wraps: 10e9223372036854775807 and 1e-9223372036854775808 get the same text. */
  lemma WrappedExponentsCollide()
    ensures var large, small := WithExponent("10", MAX_INT), WithExponent("1", MIN_INT);
      && ValidNumber(large) && ValidNumber(small)
      && CanonicalNumber(Text(large)) == CanonicalNumber(Text(small))
      && !SameValue(Mantissa(large), Scale(large), Mantissa(small), Scale(small))
  {
    hide Decimal;
    hide Pow10;
    hide Numeral;
    hide Shifted;
    hide CanonicalNumber;
    var large, small := WithExponent("10", MAX_INT), WithExponent("1", MIN_INT);
    WithExponentMeans("10", MAX_INT);
    WithExponentMeans("1", MIN_INT);
    CodeSplits(large);
    CodeSplits(small);
    ShiftedCollide();
    SmallNumerals();
    PowGrows(MAX_INT - MIN_INT);
  }

  lemma SmallNumerals()
    ensures Numeral("10") == 10 && Numeral("1") == 1
  {
    assert "1"[..0] == "" && "10"[..1] == "1";
    assert Numeral("1") == 10 * Numeral("") + 1;
  }

  lemma PowGrows(k: nat)
    ensures 10 * Pow10(k) != 1
  {
  }

  // ---- JSON trees ----

  predicate JsonEqual(a: Json, b: Json)
    decreases a
  {
    match a
    case Object(m) =>
      b.Object? && |m| == |b.members| && forall k :: k in m ==> k in b.members && JsonEqual(m[k], b.members[k])
    case Array(s) => b.Array? && |s| == |b.items| && forall i :: 0 <= i < |s| ==> JsonEqual(s[i], b.items[i])
    case Number(t) => b.Number? && CanonicalNumber(t) == CanonicalNumber(b.text)
    case _ => a == b
  }

  /** A tree with every number in its canonical text. */
  function NormalJson(a: Json): Json {
    match a
    case Object(m) => Object(map k | k in m :: NormalJson(m[k]))
    case Array(s) => Array(seq(|s|, i requires 0 <= i < |s| => NormalJson(s[i])))
    case Number(t) => Number(CanonicalNumber(t))
    case _ => a
  }

  /** Trees are equal exactly when their normal forms are; so equality is reflexive, symmetric and transitive. */
  lemma {:induction false} JsonEqualIsNormal(a: Json, b: Json)
    ensures JsonEqual(a, b) <==> NormalJson(a) == NormalJson(b)
    decreases a
  {
    hide CanonicalNumber;
    match a
    case Object(m) =>
      if b.Object? {
        forall k | k in m && k in b.members ensures JsonEqual(m[k], b.members[k]) <==> NormalJson(m[k]) == NormalJson(b.members[k]) {
          JsonEqualIsNormal(m[k], b.members[k]);
        }
        MembersDecide(m, b.members);
      }
    case Array(s) =>
      if b.Array? && |s| == |b.items| {
        forall i | 0 <= i < |s| ensures JsonEqual(s[i], b.items[i]) <==> NormalJson(s[i]) == NormalJson(b.items[i]) {
          JsonEqualIsNormal(s[i], b.items[i]);
        }
        var x, y := NormalJson(a).items, NormalJson(b).items;
        assert |x| == |y|;
        assert forall i :: 0 <= i < |s| ==> x[i] == NormalJson(s[i]) && y[i] == NormalJson(b.items[i]);
      } else if b.Array? {
        assert |NormalJson(a).items| != |NormalJson(b).items|;
      }
    case _ =>
  }

  lemma MembersDecide(m: Members, o: Members)
    requires forall k :: k in m && k in o ==> (JsonEqual(m[k], o[k]) <==> NormalJson(m[k]) == NormalJson(o[k]))
    ensures (|m| == |o| && forall k :: k in m ==> k in o && JsonEqual(m[k], o[k]))
       <==> NormalJson(Object(m)) == NormalJson(Object(o))
  {
    var x, y := NormalJson(Object(m)).members, NormalJson(Object(o)).members;
    assert x.Keys == m.Keys && y.Keys == o.Keys;
    if |m| == |o| && forall k :: k in m ==> k in o && JsonEqual(m[k], o[k]) {
      SameKeys(m.Keys, o.Keys);
      assert x == y;
    }
    if x == y {
      SameSize(m, o);
    }
  }

  lemma SameSize(m: Members, o: Members)
    requires NormalJson(Object(m)) == NormalJson(Object(o))
    ensures m.Keys == o.Keys && |m| == |o|
  {
    assert m.Keys == NormalJson(Object(m)).members.Keys == o.Keys;
    assert |m| == |m.Keys| == |o.Keys| == |o|;
  }

  lemma {:induction false} SameKeys(a: set<string>, b: set<string>)
    requires a <= b && |a| == |b|
    ensures a == b
    decreases |a|
  {
    if k :| k in b && k !in a {
      assert a <= b - {k};
      SubsetSize(a, b - {k});
    }
  }

  lemma {:induction false} SubsetSize(a: set<string>, b: set<string>)
    requires a <= b
    ensures |a| <= |b|
    decreases |a|
  {
    if k :| k in a {
      SubsetSize(a - {k}, b - {k});
    }
  }

  lemma JsonEqualIsEquivalence(a: Json, b: Json, c: Json)
    ensures JsonEqual(a, a)
    ensures JsonEqual(a, b) <==> JsonEqual(b, a)
    ensures JsonEqual(a, b) && JsonEqual(b, c) ==> JsonEqual(a, c)
  {
    hide JsonEqual;
    hide NormalJson;
    JsonEqualIsNormal(a, a);
    JsonEqualIsNormal(a, b);
    JsonEqualIsNormal(b, a);
    JsonEqualIsNormal(b, c);
    JsonEqualIsNormal(a, c);
  }
}
