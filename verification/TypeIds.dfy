/** Type ids: a prefix and 26 characters of five bits each, for the 128 bits of an id after two zero bits. */
module TypeIds {
  import opened Wrappers

  const ALPHABET := "0123456789abcdefghjkmnpqrstvwxyz"
  const SUFFIX := 26
  const BITS := 128

  /** An id as its bits, the most significant of its first byte first. */
  type Bits = b: seq<bool> | |b| == BITS witness seq(BITS, _ => false)

  /** Bit `b` of character `i`; the first two of all are not part of the id and are zero. */
  function BitOf(id: Bits, i: nat, b: nat): bool
    requires i < SUFFIX && b < 5
  {
    var bit := 5 * i + b - 2;
    bit >= 0 && id[bit]
  }

  function Digit(bit: bool): nat {
    if bit then 1 else 0
  }

  /** The value of the first `n` bits of character `i`. */
  function Prefix(id: Bits, i: nat, n: nat): nat
    requires i < SUFFIX && n <= 5
  {
    if n == 0 then 0 else 2 * Prefix(id, i, n - 1) + Digit(BitOf(id, i, n - 1))
  }

  lemma PrefixBound(id: Bits, i: nat)
    requires i < SUFFIX
    ensures Prefix(id, i, 5) < 32 && (i == 0 ==> Prefix(id, i, 5) < 8)
    ensures Prefix(id, i, 5) == 16 * Digit(BitOf(id, i, 0)) + 8 * Digit(BitOf(id, i, 1)) + 4 * Digit(BitOf(id, i, 2))
                                + 2 * Digit(BitOf(id, i, 3)) + Digit(BitOf(id, i, 4))
  {
    assert Prefix(id, i, 1) == Digit(BitOf(id, i, 0));
    assert Prefix(id, i, 2) == 2 * Prefix(id, i, 1) + Digit(BitOf(id, i, 1));
    assert Prefix(id, i, 3) == 2 * Prefix(id, i, 2) + Digit(BitOf(id, i, 2));
    assert Prefix(id, i, 4) == 2 * Prefix(id, i, 3) + Digit(BitOf(id, i, 3));
    assert Prefix(id, i, 5) == 2 * Prefix(id, i, 4) + Digit(BitOf(id, i, 4));
  }

  function CharOf(id: Bits, i: nat): char
    requires i < SUFFIX
  {
    PrefixBound(id, i);
    ALPHABET[Prefix(id, i, 5)]
  }

  function Encode(prefix: string, id: Bits): string {
    prefix + "_" + seq(SUFFIX, i requires 0 <= i < SUFFIX => CharOf(id, i))
  }

  /** Shifts the bits of every character in, one by one. */
  method EncodeLoop(prefix: string, id: Bits) returns (s: string)
    ensures s == Encode(prefix, id)
  {
    var out := new char[SUFFIX](_ => '0');
    for i := 0 to SUFFIX
      invariant forall k :: 0 <= k < i ==> out[k] == CharOf(id, k)
    {
      var v := 0;
      for b := 0 to 5
        invariant v == Prefix(id, i, b)
      {
        var bit := 5 * i + b - 2;
        v := 2 * v;
        if bit >= 0 && id[bit] {
          v := v + 1;
        }
      }
      PrefixBound(id, i);
      out[i] := ALPHABET[v];
    }
    s := prefix + "_" + out[..];
  }

  /** The value of a character, if it is one of the alphabet. */
  function DecodeTable(c: char): (r: Option<nat>)
    ensures r.Some? ==> r.value < 32 == |ALPHABET| && ALPHABET[r.value] == c
  {
    IndexIn(c, 0)
  }

  function IndexIn(c: char, from: nat): (r: Option<nat>)
    requires from <= |ALPHABET|
    ensures r.Some? ==> from <= r.value < |ALPHABET| && ALPHABET[r.value] == c
    ensures r.None? ==> forall k :: from <= k < |ALPHABET| ==> ALPHABET[k] != c
    decreases |ALPHABET| - from
  {
    if from == |ALPHABET| then None else if ALPHABET[from] == c then Some(from) else IndexIn(c, from + 1)
  }

  lemma AlphabetDistinct()
    ensures |ALPHABET| == 32
    ensures forall i, j :: 0 <= i < j < 32 ==> ALPHABET[i] != ALPHABET[j]
    ensures forall i :: 0 <= i < 32 ==> (ALPHABET[i] <= '7' <==> i < 8)
  {
    forall i, j | 0 <= i < j < 32 ensures ALPHABET[i] < ALPHABET[j] {
      Ascending(i, j);
    }
    assert ALPHABET[7] == '7';
  }

  lemma {:induction false} Ascending(i: nat, j: nat)
    requires i < j < 32 == |ALPHABET|
    ensures ALPHABET[i] < ALPHABET[j]
    decreases j - i
  {
    assert forall k :: 0 <= k < 31 ==> ALPHABET[k] < ALPHABET[k + 1];
    if i + 1 < j {
      Ascending(i + 1, j);
    }
  }

  /** Bit `b`, counted from the most significant, of a five-bit value. */
  function ValueBit(v: nat, b: nat): bool
    requires v < 32 && b < 5
  {
    (v / (if b == 0 then 16 else if b == 1 then 8 else if b == 2 then 4 else if b == 3 then 2 else 1)) % 2 == 1
  }

  predicate WellFormed(suffix: string) {
    |suffix| == SUFFIX && suffix[0] <= '7' && forall i :: 0 <= i < SUFFIX ==> DecodeTable(suffix[i]).Some?
  }

  function Decoded(suffix: string): Bits
    requires WellFormed(suffix)
  {
    seq(BITS, bit requires 0 <= bit < BITS =>
      AlphabetDistinct();
      ValueBit(DecodeTable(suffix[(bit + 2) / 5]).value, (bit + 2) % 5))
  }

  function Parse(prefix: string, s: string): Option<Bits> {
    var head := prefix + "_";
    if !(head <= s) then None
    else
      var suffix := s[|head|..];
      if WellFormed(suffix) then Some(Decoded(suffix)) else None
  }

  /** Sets the bits of the id character by character, stopping at one outside the alphabet. */
  method ParseLoop(prefix: string, s: string) returns (r: Option<Bits>)
    ensures r == Parse(prefix, s)
  {
    hide DecodeTable;
    hide ValueBit;
    var head := prefix + "_";
    if !(head <= s) {
      return None;
    }
    var suffix := s[|head|..];
    if |suffix| != SUFFIX || suffix[0] > '7' {
      return None;
    }
    AlphabetDistinct();
    var id := new bool[BITS](_ => false);
    for i := 0 to SUFFIX
      invariant forall k :: 0 <= k < i ==> DecodeTable(suffix[k]).Some?
      invariant forall bit :: 0 <= bit < BITS && bit < 5 * i - 2 ==>
        id[bit] == ValueBit(DecodeTable(suffix[(bit + 2) / 5]).value, (bit + 2) % 5)
      invariant forall bit :: 0 <= bit < BITS && bit >= 5 * i - 2 ==> !id[bit]
    {
      var v := DecodeTable(suffix[i]);
      if v.None? {
        return None;
      }
      SetBits(id, i, v.value);
      forall bit | 0 <= bit < BITS && 5 * i - 2 <= bit < 5 * (i + 1) - 2
        ensures id[bit] == ValueBit(DecodeTable(suffix[(bit + 2) / 5]).value, (bit + 2) % 5)
      {
        assert (bit + 2) / 5 == i && (bit + 2) % 5 == bit + 2 - 5 * i;
      }
    }
    assert id[..] == Decoded(suffix);
    return Some(id[..]);
  }

  /** Sets the bits character `i` stands for, on an id with none of them set. */
  method SetBits(id: array<bool>, i: nat, v: nat)
    requires id.Length == BITS && i < SUFFIX && v < 32
    requires forall bit :: 0 <= bit < BITS && bit >= 5 * i - 2 ==> !id[bit]
    modifies id
    ensures forall bit :: 0 <= bit < BITS && bit < 5 * i - 2 ==> id[bit] == old(id[bit])
    ensures forall bit :: 0 <= bit < BITS && 5 * i - 2 <= bit < 5 * i + 3 ==> id[bit] == ValueBit(v, bit + 2 - 5 * i)
    ensures forall bit :: 0 <= bit < BITS && bit >= 5 * i + 3 ==> !id[bit]
  {
    hide ValueBit;
    for b := 0 to 5
      invariant forall bit :: 0 <= bit < BITS && bit < 5 * i - 2 ==> id[bit] == old(id[bit])
      invariant forall bit :: 0 <= bit < BITS && 5 * i - 2 <= bit < 5 * i + b - 2 ==> id[bit] == ValueBit(v, bit + 2 - 5 * i)
      invariant forall bit :: 0 <= bit < BITS && bit >= 5 * i + b - 2 ==> !id[bit]
    {
      var bit := 5 * i + b - 2;
      if bit >= 0 && ValueBit(v, b) {
        id[bit] := true;
      }
    }
  }

  // ---- the two undo each other ----

  lemma EncodedReads(id: Bits, i: nat)
    requires i < SUFFIX
    ensures DecodeTable(CharOf(id, i)) == Some(Prefix(id, i, 5))
  {
    AlphabetDistinct();
    PrefixBound(id, i);
    var v := DecodeTable(CharOf(id, i));
    assert ALPHABET[Prefix(id, i, 5)] == CharOf(id, i);
  }

  lemma BitsOfValue(d0: nat, d1: nat, d2: nat, d3: nat, d4: nat)
    requires d0 <= 1 && d1 <= 1 && d2 <= 1 && d3 <= 1 && d4 <= 1
    ensures var v := 16 * d0 + 8 * d1 + 4 * d2 + 2 * d3 + d4;
      && v < 32 && ValueBit(v, 0) == (d0 == 1) && ValueBit(v, 1) == (d1 == 1) && ValueBit(v, 2) == (d2 == 1)
      && ValueBit(v, 3) == (d3 == 1) && ValueBit(v, 4) == (d4 == 1)
  {
  }

  lemma PrefixBits(id: Bits, i: nat, b: nat)
    requires i < SUFFIX && b < 5
    ensures Prefix(id, i, 5) < 32 && ValueBit(Prefix(id, i, 5), b) == BitOf(id, i, b)
  {
    hide Prefix;
    hide ValueBit;
    hide BitOf;
    PrefixBound(id, i);
    BitsOfValue(Digit(BitOf(id, i, 0)), Digit(BitOf(id, i, 1)), Digit(BitOf(id, i, 2)), Digit(BitOf(id, i, 3)), Digit(BitOf(id, i, 4)));
  }

  lemma EncodedSuffix(prefix: string, id: Bits) returns (suffix: string)
    ensures Encode(prefix, id) == prefix + "_" + suffix
    ensures WellFormed(suffix) && forall i :: 0 <= i < SUFFIX ==> DecodeTable(suffix[i]) == Some(Prefix(id, i, 5))
  {
    hide DecodeTable;
    suffix := seq(SUFFIX, i requires 0 <= i < SUFFIX => CharOf(id, i));
    forall i | 0 <= i < SUFFIX ensures DecodeTable(suffix[i]) == Some(Prefix(id, i, 5)) {
      EncodedReads(id, i);
    }
    AlphabetDistinct();
    PrefixBound(id, 0);
  }

  /** Every id is read back from its text. */
  lemma ParseEncode(prefix: string, id: Bits)
    ensures Parse(prefix, Encode(prefix, id)) == Some(id)
  {
    hide DecodeTable;
    hide Encode;
    hide Prefix;
    hide ValueBit;
    var head := prefix + "_";
    var suffix := EncodedSuffix(prefix, id);
    assert head <= head + suffix && (head + suffix)[|head|..] == suffix;
    forall bit | 0 <= bit < BITS ensures Decoded(suffix)[bit] == id[bit] {
      var i, b := (bit + 2) / 5, (bit + 2) % 5;
      PrefixBits(id, i, b);
      assert 5 * i + b - 2 == bit;
    }
    assert Decoded(suffix) == id;
  }

  lemma DecodedBits(suffix: string, i: nat, b: nat)
    requires WellFormed(suffix) && i < SUFFIX && b < 5 && |ALPHABET| == 32
    ensures BitOf(Decoded(suffix), i, b) == (5 * i + b >= 2 && ValueBit(DecodeTable(suffix[i]).value, b))
  {
    var bit := 5 * i + b - 2;
    if bit >= 0 {
      assert (bit + 2) / 5 == i && (bit + 2) % 5 == b;
    }
  }

  lemma FiveBits(v: nat)
    requires v < 32
    ensures v == 16 * Digit(ValueBit(v, 0)) + 8 * Digit(ValueBit(v, 1)) + 4 * Digit(ValueBit(v, 2)) + 2 * Digit(ValueBit(v, 3)) + Digit(ValueBit(v, 4))
    ensures v < 8 ==> !ValueBit(v, 0) && !ValueBit(v, 1)
  {
  }

  lemma CharDecoded(suffix: string, i: nat)
    requires WellFormed(suffix) && i < SUFFIX
    ensures CharOf(Decoded(suffix), i) == suffix[i]
  {
    hide DecodeTable;
    hide Prefix;
    hide ValueBit;
    hide BitOf;
    hide Digit;
    hide Decoded;
    var id, v := Decoded(suffix), DecodeTable(suffix[i]).value;
    AlphabetDistinct();
    FiveBits(v);
    PrefixBound(id, i);
    DecodedBit(suffix, i, 0);
    DecodedBit(suffix, i, 1);
    DecodedBit(suffix, i, 2);
    DecodedBit(suffix, i, 3);
    DecodedBit(suffix, i, 4);
    assert Prefix(id, i, 5) == v;
  }

  /** The two bits before the id are zero in the text too, which starts with 7 or below. */
  lemma DecodedBit(suffix: string, i: nat, b: nat)
    requires WellFormed(suffix) && i < SUFFIX && b < 5 && |ALPHABET| == 32
    ensures BitOf(Decoded(suffix), i, b) == ValueBit(DecodeTable(suffix[i]).value, b)
  {
    hide DecodeTable;
    hide ValueBit;
    AlphabetDistinct();
    DecodedBits(suffix, i, b);
    FiveBits(DecodeTable(suffix[i]).value);
  }

  /** Every text that is accepted is the text of the id it is read as. */
  lemma EncodeParse(prefix: string, s: string)
    requires Parse(prefix, s).Some?
    ensures Encode(prefix, Parse(prefix, s).value) == s
  {
    hide DecodeTable;
    hide CharOf;
    hide Decoded;
    var head := prefix + "_";
    var suffix := s[|head|..];
    var id := Decoded(suffix);
    forall i | 0 <= i < SUFFIX ensures CharOf(id, i) == suffix[i] {
      CharDecoded(suffix, i);
    }
    assert s == head + suffix;
    assert seq(SUFFIX, i requires 0 <= i < SUFFIX => CharOf(id, i)) == suffix;
  }

  // ---- the number both spell ----

  /** The number that bits denote, the most significant first. */
  function Binary(bits: seq<bool>): nat {
    if bits == [] then 0 else 2 * Binary(bits[..|bits| - 1]) + Digit(bits[|bits| - 1])
  }

  /** The number that characters of the alphabet denote in base 32, the most significant first. */
  function Base32(text: string): Option<nat> {
    if text == [] then Some(0)
    else
      var high :- Base32(text[..|text| - 1]);
      var low :- DecodeTable(text[|text| - 1]);
      Some(32 * high + low)
  }

  lemma OneBit(id: Bits, i: nat, b: nat)
    requires i < SUFFIX && b < 5 && 5 * i + b >= 2
    ensures Binary(id[..5 * i + b - 1]) == 2 * Binary(id[..5 * i + b - 2]) + Digit(BitOf(id, i, b))
  {
    var n := 5 * i + b - 1;
    assert id[..n][..n - 1] == id[..n - 1];
  }

  /** The bits of the characters before i. */
  function Before(id: Bits, i: nat): seq<bool>
    requires i <= SUFFIX
  {
    if i == 0 then [] else id[..5 * i - 2]
  }

  lemma FiveMore(id: Bits, i: nat)
    requires i < SUFFIX
    ensures Binary(Before(id, i + 1)) == 32 * Binary(Before(id, i)) + Prefix(id, i, 5)
  {
    PrefixBound(id, i);
    if i == 0 {
      assert id[..0] == [];
    } else {
      OneBit(id, i, 0);
      OneBit(id, i, 1);
    }
    OneBit(id, i, 2);
    OneBit(id, i, 3);
    OneBit(id, i, 4);
  }

  lemma {:induction false} SpelledSoFar(id: Bits, n: nat)
    requires n <= SUFFIX
    ensures Base32(seq(n, i requires 0 <= i < n => CharOf(id, i))) == Some(Binary(Before(id, n)))
  {
    hide Prefix;
    hide DecodeTable;
    hide CharOf;
    hide Binary;
    hide Before;
    if n == 0 {
      NothingSpelled(id);
    } else {
      SpelledSoFar(id, n - 1);
      FiveMore(id, n - 1);
      var text := seq(n, i requires 0 <= i < n => CharOf(id, i));
      assert text[..n - 1] == seq(n - 1, i requires 0 <= i < n - 1 => CharOf(id, i));
      CharDigit(id, n - 1);
    }
  }

  lemma CharDigit(id: Bits, i: nat)
    requires i < SUFFIX
    ensures DecodeTable(CharOf(id, i)) == Some(Prefix(id, i, 5))
  {
    PrefixBound(id, i);
    OnlyIndex(Prefix(id, i, 5));
  }

  lemma NothingSpelled(id: Bits)
    ensures Binary(Before(id, 0)) == 0
  {
  }

  lemma OnlyIndex(v: nat)
    requires v < 32
    ensures DecodeTable(ALPHABET[v]) == Some(v)
  {
    AlphabetDistinct();
    assert DecodeTable(ALPHABET[v]).Some?;
  }

  /** The text of an id is its prefix, an underscore, and 26 characters that spell in base 32 the number its bits spell in binary. */
  lemma EncodeSpells(prefix: string, id: Bits)
    ensures var s := Encode(prefix, id);
      && |s| == |prefix| + 1 + SUFFIX && s[..|prefix|] == prefix && s[|prefix|] == '_'
      && Base32(s[|prefix| + 1..]) == Some(Binary(id))
  {
    SpelledSoFar(id, SUFFIX);
    assert Encode(prefix, id)[|prefix| + 1..] == seq(SUFFIX, i requires 0 <= i < SUFFIX => CharOf(id, i));
    assert Before(id, SUFFIX) == id;
  }
}
