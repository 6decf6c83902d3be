/** The byte strings that are hashed for a sealed transaction, and what they determine. */
module SealEncoding {
  import opened Wrappers
  import opened Amounts

  type byte = x: int | 0 <= x < 256

  /** A journal entry as it is hashed; the account is a 16-byte id. */
  datatype Entry = Entry(account: seq<byte>, currency: seq<byte>, side: seq<byte>, amount: Amount, after: Amount)

  /** What the encodings read of a transaction; times are microseconds. */
  datatype Content = Content(
    id: seq<byte>,
    ledger: seq<byte>,
    key: seq<byte>,
    external: seq<byte>,
    description: seq<byte>,
    metadata: seq<byte>,
    reverses: Option<seq<byte>>,
    createdAt: int,
    effectiveAt: int,
    postedAt: Option<int>,
    entries: seq<Entry>)

  const TWO32: int := 0x1_0000_0000

  // ---- pieces ----

  function Pow256(k: nat): (p: nat)
    ensures p > 0
  {
    if k == 0 then 1 else 256 * Pow256(k - 1)
  }

  /** The last `k` bytes of a number, most significant first. */
  function BigEndian(n: nat, k: nat): (b: seq<byte>)
    ensures |b| == k
  {
    if k == 0 then [] else BigEndian(n / 256, k - 1) + [n % 256]
  }

  function U32(n: nat): (b: seq<byte>)
    ensures |b| == 4
  {
    BigEndian(n % TWO32, 4)
  }

  function U64(x: u64): (b: seq<byte>)
    ensures |b| == 8
  {
    BigEndian(x, 8)
  }

  predicate IsInt64(n: int) {
    -TWO63 <= n < TWO63
  }

  /** A signed 64-bit integer, in two's complement. */
  function I64(n: int): (b: seq<byte>)
    requires IsInt64(n)
    ensures |b| == 8
  {
    U64(if n < 0 then n + TWO64 else n)
  }

  /** A byte string after its length in 32 bits. */
  function Text(b: seq<byte>): seq<byte> {
    U32(|b|) + b
  }

  function Wide(a: Amount): (b: seq<byte>)
    ensures |b| == 16
  {
    U64(a.hi) + U64(a.lo)
  }

  function Reversal(r: Option<seq<byte>>): seq<byte> {
    if r.Some? then [1] + r.value else [0]
  }

  /** The bytes of an amount at either width; the narrow one keeps the low word. */
  function AmountBytes(a: Amount, narrow: bool): seq<byte> {
    if narrow then U64(a.lo) else Wide(a)
  }

  function EntryBytes(e: Entry, narrow: bool): seq<byte> {
    e.account + (Text(e.currency) + (Text(e.side) + (AmountBytes(e.amount, narrow) + AmountBytes(e.after, narrow))))
  }

  function EntriesBytes(es: seq<Entry>, narrow: bool): seq<byte> {
    if es == [] then [] else EntryBytes(es[0], narrow) + EntriesBytes(es[1..], narrow)
  }

  function Tail(es: seq<Entry>, narrow: bool): seq<byte> {
    U32(|es|) + EntriesBytes(es, narrow)
  }

  // ---- the encodings ----

  predicate FitsInt64(a: Amount) {
    a.hi == if Int64(a.lo) < 0 then TWO64 - 1 else 0
  }

  predicate Narrow(t: Content) {
    forall e :: e in t.entries ==> FitsInt64(e.amount) && FitsInt64(e.after)
  }

  predicate Is16(b: seq<byte>) {
    |b| == 16
  }

  predicate Short(b: seq<byte>) {
    |b| < TWO32
  }

  predicate WellFormedEntry(e: Entry) {
    Is16(e.account) && Short(e.currency) && Short(e.side)
  }

  /** Ids of 16 bytes, lengths that fit 32 bits, times that fit 64. */
  predicate WellFormed(t: Content) {
    && Is16(t.id) && Is16(t.ledger) && (t.reverses.Some? ==> Is16(t.reverses.value))
    && Short(t.key) && Short(t.external) && Short(t.description) && Short(t.metadata)
    && IsInt64(t.createdAt) && IsInt64(t.effectiveAt) && (t.postedAt.Some? ==> IsInt64(t.postedAt.value))
    && |t.entries| < TWO32 && forall e :: e in t.entries ==> WellFormedEntry(e)
  }

  /** The original encoding: version 1 while every amount fits 64 bits, else version 2. */
  function EncodeV1(t: Content): seq<byte>
    requires WellFormed(t)
  {
    [if Narrow(t) then 1 else 2]
    + (t.id + (Text(t.key) + (Text(t.description) + (Text(t.metadata) + (Reversal(t.reverses)
    + (I64(t.createdAt) + Tail(t.entries, Narrow(t))))))))
  }

  function PostedOrZero(t: Content): int {
    if t.postedAt.Some? then t.postedAt.value else 0
  }

  function EncodeV3(t: Content): seq<byte>
    requires WellFormed(t)
  {
    [3]
    + (t.id + (t.ledger + (Text(t.key) + (Text(t.external) + (Text(t.description) + (Text(t.metadata) + (Reversal(t.reverses)
    + (I64(t.createdAt) + (I64(t.effectiveAt) + (I64(PostedOrZero(t)) + Tail(t.entries, false)))))))))))
  }

  /** The encoding a seal names: none for the original ones. */
  function Encode(t: Content, third: bool): seq<byte>
    requires WellFormed(t)
  {
    if third then EncodeV3(t) else EncodeV1(t)
  }

  // ---- each piece can be read off the front ----

  lemma FixedFront(x: seq<byte>, r: seq<byte>, y: seq<byte>, s: seq<byte>)
    requires |x| == |y| && x + r == y + s
    ensures x == y && r == s
  {
    assert x == (x + r)[..|x|] && y == (y + s)[..|y|];
    assert r == (x + r)[|x|..] && s == (y + s)[|y|..];
  }

  lemma {:induction false} BigEndianInjective(m: nat, n: nat, k: nat)
    requires m < Pow256(k) && n < Pow256(k) && BigEndian(m, k) == BigEndian(n, k)
    ensures m == n
  {
    if k > 0 {
      var a, b := BigEndian(m, k), BigEndian(n, k);
      assert a[..k - 1] == BigEndian(m / 256, k - 1) && b[..k - 1] == BigEndian(n / 256, k - 1);
      assert a[k - 1] == m % 256 && b[k - 1] == n % 256;
      BigEndianInjective(m / 256, n / 256, k - 1);
    }
  }

  lemma Widths()
    ensures Pow256(4) == TWO32 && Pow256(8) == TWO64
  {
    assert Pow256(2) == 65536;
    assert Pow256(4) == 65536 * Pow256(2);
    assert Pow256(6) == 65536 * Pow256(4);
  }

  lemma TextFront(a: seq<byte>, r: seq<byte>, b: seq<byte>, s: seq<byte>)
    requires Short(a) && Short(b) && Text(a) + r == Text(b) + s
    ensures a == b && r == s
  {
    hide BigEndian;
    hide Pow256;
    assert Text(a) + r == U32(|a|) + (a + r) && Text(b) + s == U32(|b|) + (b + s);
    FixedFront(U32(|a|), a + r, U32(|b|), b + s);
    Widths();
    BigEndianInjective(|a|, |b|, 4);
    FixedFront(a, r, b, s);
  }

  lemma I64Front(m: int, r: seq<byte>, n: int, s: seq<byte>)
    requires IsInt64(m) && IsInt64(n) && I64(m) + r == I64(n) + s
    ensures m == n && r == s
  {
    hide BigEndian;
    hide Pow256;
    FixedFront(I64(m), r, I64(n), s);
    Widths();
    BigEndianInjective(if m < 0 then m + TWO64 else m, if n < 0 then n + TWO64 else n, 8);
  }

  lemma U64Injective(x: u64, y: u64)
    requires U64(x) == U64(y)
    ensures x == y
  {
    hide BigEndian;
    hide Pow256;
    Widths();
    BigEndianInjective(x, y, 8);
  }

  lemma AmountFront(a: Amount, r: seq<byte>, b: Amount, s: seq<byte>, narrow: bool)
    requires AmountBytes(a, narrow) + r == AmountBytes(b, narrow) + s
    requires narrow ==> FitsInt64(a) && FitsInt64(b)
    ensures a == b && r == s
  {
    hide BigEndian;
    hide Pow256;
    FixedFront(AmountBytes(a, narrow), r, AmountBytes(b, narrow), s);
    if narrow {
      U64Injective(a.lo, b.lo);
    } else {
      FixedFront(U64(a.hi), U64(a.lo), U64(b.hi), U64(b.lo));
      U64Injective(a.hi, b.hi);
      U64Injective(a.lo, b.lo);
    }
  }

  lemma ReversalFront(a: Option<seq<byte>>, r: seq<byte>, b: Option<seq<byte>>, s: seq<byte>)
    requires (a.Some? ==> Is16(a.value)) && (b.Some? ==> Is16(b.value))
    requires Reversal(a) + r == Reversal(b) + s
    ensures a == b && r == s
  {
    assert (Reversal(a) + r)[0] == Reversal(a)[0] && (Reversal(b) + s)[0] == Reversal(b)[0];
    FixedFront(Reversal(a), r, Reversal(b), s);
    if a.Some? {
      FixedFront([1], a.value, [1], b.value);
    }
  }

  predicate NarrowEntry(e: Entry) {
    FitsInt64(e.amount) && FitsInt64(e.after)
  }

  lemma EntryFront(e: Entry, r: seq<byte>, f: Entry, s: seq<byte>, narrow: bool)
    requires WellFormedEntry(e) && WellFormedEntry(f)
    requires narrow ==> NarrowEntry(e) && NarrowEntry(f)
    requires EntryBytes(e, narrow) + r == EntryBytes(f, narrow) + s
    ensures e == f && r == s
  {
    hide Text;
    hide AmountBytes;
    var e3, f3 := AmountBytes(e.after, narrow) + r, AmountBytes(f.after, narrow) + s;
    var e2, f2 := AmountBytes(e.amount, narrow) + e3, AmountBytes(f.amount, narrow) + f3;
    var e1, f1 := Text(e.side) + e2, Text(f.side) + f2;
    assert EntryBytes(e, narrow) + r == e.account + (Text(e.currency) + e1);
    assert EntryBytes(f, narrow) + s == f.account + (Text(f.currency) + f1);
    FixedFront(e.account, Text(e.currency) + e1, f.account, Text(f.currency) + f1);
    TextFront(e.currency, e1, f.currency, f1);
    TextFront(e.side, e2, f.side, f2);
    AmountFront(e.amount, e3, f.amount, f3, narrow);
    AmountFront(e.after, r, f.after, s, narrow);
  }

  lemma {:induction false} EntriesInjective(es: seq<Entry>, fs: seq<Entry>, narrow: bool)
    requires |es| == |fs| && EntriesBytes(es, narrow) == EntriesBytes(fs, narrow)
    requires forall e :: e in es ==> WellFormedEntry(e) && (narrow ==> NarrowEntry(e))
    requires forall e :: e in fs ==> WellFormedEntry(e) && (narrow ==> NarrowEntry(e))
    ensures es == fs
  {
    if es != [] {
      assert es[0] in es && fs[0] in fs;
      EntryFront(es[0], EntriesBytes(es[1..], narrow), fs[0], EntriesBytes(fs[1..], narrow), narrow);
      EntriesInjective(es[1..], fs[1..], narrow);
      assert es == [es[0]] + es[1..] && fs == [fs[0]] + fs[1..];
    }
  }

  lemma TailInjective(t: Content, u: Content, narrow: bool)
    requires WellFormed(t) && WellFormed(u) && Tail(t.entries, narrow) == Tail(u.entries, narrow)
    requires narrow ==> Narrow(t) && Narrow(u)
    ensures t.entries == u.entries
  {
    hide BigEndian;
    hide Pow256;
    FixedFront(U32(|t.entries|), EntriesBytes(t.entries, narrow), U32(|u.entries|), EntriesBytes(u.entries, narrow));
    Widths();
    BigEndianInjective(|t.entries|, |u.entries|, 4);
    EntriesInjective(t.entries, u.entries, narrow);
  }

  // ---- injectivity ----

  /** A transaction with its posting time, if it has none, read as zero. */
  function Coalesced(t: Content): Content {
    t.(postedAt := Some(PostedOrZero(t)))
  }

  /** What the original encoding covers: not the ledger, the external id, or the effective and posting times. */
  function Covered(t: Content): Content {
    t.(ledger := [], external := [], effectiveAt := 0, postedAt := None)
  }

  lemma SameCoalesced(t: Content, u: Content)
    requires WellFormed(t) && WellFormed(u) && Coalesced(t) == Coalesced(u)
    ensures EncodeV3(t) == EncodeV3(u)
  {
    assert t == Coalesced(u).(postedAt := t.postedAt) && u == Coalesced(t).(postedAt := u.postedAt);
  }

  lemma SameCovered(t: Content, u: Content)
    requires WellFormed(t) && WellFormed(u) && Covered(t) == Covered(u)
    ensures EncodeV1(t) == EncodeV1(u)
  {
    assert t == Covered(u).(ledger := t.ledger, external := t.external, effectiveAt := t.effectiveAt, postedAt := t.postedAt);
  }

  /**
   The third encoding determines every field, for any number of entries, up to one thing: no posting time and a
   posting time of zero are encoded alike.
   */
  lemma V3Injective(t: Content, u: Content)
    requires WellFormed(t) && WellFormed(u)
    ensures EncodeV3(t) == EncodeV3(u) <==> Coalesced(t) == Coalesced(u)
  {
    hide Text;
    hide I64;
    hide Reversal;
    hide Tail;
    if EncodeV3(t) == EncodeV3(u) {
      var t9, u9 := I64(PostedOrZero(t)) + Tail(t.entries, false), I64(PostedOrZero(u)) + Tail(u.entries, false);
      var t8, u8 := I64(t.effectiveAt) + t9, I64(u.effectiveAt) + u9;
      var t7, u7 := I64(t.createdAt) + t8, I64(u.createdAt) + u8;
      var t6, u6 := Reversal(t.reverses) + t7, Reversal(u.reverses) + u7;
      var t5, u5 := Text(t.metadata) + t6, Text(u.metadata) + u6;
      var t4, u4 := Text(t.description) + t5, Text(u.description) + u5;
      var t3, u3 := Text(t.external) + t4, Text(u.external) + u4;
      var t2, u2 := Text(t.key) + t3, Text(u.key) + u3;
      FixedFront([3], t.id + (t.ledger + t2), [3], u.id + (u.ledger + u2));
      FixedFront(t.id, t.ledger + t2, u.id, u.ledger + u2);
      FixedFront(t.ledger, t2, u.ledger, u2);
      TextFront(t.key, t3, u.key, u3);
      TextFront(t.external, t4, u.external, u4);
      TextFront(t.description, t5, u.description, u5);
      TextFront(t.metadata, t6, u.metadata, u6);
      ReversalFront(t.reverses, t7, u.reverses, u7);
      I64Front(t.createdAt, t8, u.createdAt, u8);
      I64Front(t.effectiveAt, t9, u.effectiveAt, u9);
      I64Front(PostedOrZero(t), Tail(t.entries, false), PostedOrZero(u), Tail(u.entries, false));
      TailInjective(t, u, false);
    }
    if Coalesced(t) == Coalesced(u) {
      SameCoalesced(t, u);
    }
  }

  /** With posting times set, as they are on every sealed transaction, equal bytes mean equal transactions. */
  lemma V3InjectiveWhenPosted(t: Content, u: Content)
    requires WellFormed(t) && WellFormed(u) && t.postedAt.Some? && u.postedAt.Some?
    ensures EncodeV3(t) == EncodeV3(u) <==> t == u
  {
    V3Injective(t, u);
  }

  /** The pair the third encoding does not tell apart. */
  lemma V3MissingTimeCollides(t: Content)
    requires WellFormed(t) && t.postedAt == Some(0)
    ensures WellFormed(t.(postedAt := None)) && EncodeV3(t.(postedAt := None)) == EncodeV3(t)
    ensures t.(postedAt := None) != t
  {
    V3Injective(t.(postedAt := None), t);
  }

  /** The original encoding, across its two widths, determines every field it covers. */
  lemma V1Injective(t: Content, u: Content)
    requires WellFormed(t) && WellFormed(u)
    ensures EncodeV1(t) == EncodeV1(u) <==> Covered(t) == Covered(u)
  {
    hide Text;
    hide I64;
    hide Reversal;
    hide Tail;
    if EncodeV1(t) == EncodeV1(u) {
      assert EncodeV1(t)[0] == EncodeV1(u)[0];
      var narrow := Narrow(t);
      var t5, u5 := I64(t.createdAt) + Tail(t.entries, narrow), I64(u.createdAt) + Tail(u.entries, narrow);
      var t4, u4 := Reversal(t.reverses) + t5, Reversal(u.reverses) + u5;
      var t3, u3 := Text(t.metadata) + t4, Text(u.metadata) + u4;
      var t2, u2 := Text(t.description) + t3, Text(u.description) + u3;
      var t1, u1 := Text(t.key) + t2, Text(u.key) + u2;
      FixedFront([if narrow then 1 else 2], t.id + t1, [if narrow then 1 else 2], u.id + u1);
      FixedFront(t.id, t1, u.id, u1);
      TextFront(t.key, t2, u.key, u2);
      TextFront(t.description, t3, u.description, u3);
      TextFront(t.metadata, t4, u.metadata, u4);
      ReversalFront(t.reverses, t5, u.reverses, u5);
      I64Front(t.createdAt, Tail(t.entries, narrow), u.createdAt, Tail(u.entries, narrow));
      TailInjective(t, u, narrow);
    }
    if Covered(t) == Covered(u) {
      SameCovered(t, u);
    }
  }

  /** The third encoding never equals an original one: the version byte keeps them apart. */
  lemma EncodingsApart(t: Content, u: Content)
    requires WellFormed(t) && WellFormed(u)
    ensures EncodeV3(t) != EncodeV1(u)
  {
    assert EncodeV3(t)[0] == 3 && EncodeV1(u)[0] != 3;
  }

  // ---- writing the bytes step by step ----

  lemma Joined(a: seq<byte>, b: seq<byte>, c: seq<byte>)
    ensures (a + b) + c == a + (b + c)
  {
  }

  /** A running hash, as the bytes written to it so far. */
  class Hasher {
    var written: seq<byte>

    constructor ()
      ensures written == []
    {
      written := [];
    }

    /** Writes `b`; of what was still to come, `rest` remains. */
    method Write(b: seq<byte>, ghost rest: seq<byte>)
      modifies this
      ensures written == old(written) + b
      ensures written + rest == old(written) + (b + rest)
    {
      Joined(written, b, rest);
      written := written + b;
    }

    method WriteBytes(b: seq<byte>, ghost rest: seq<byte>)
      modifies this
      ensures written + rest == old(written) + (Text(b) + rest)
    {
      Joined(U32(|b|), b, rest);
      Write(U32(|b|), b + rest);
      Write(b, rest);
    }

    method WriteReversal(r: Option<seq<byte>>, ghost rest: seq<byte>)
      modifies this
      ensures written + rest == old(written) + (Reversal(r) + rest)
    {
      if r.Some? {
        Joined([1], r.value, rest);
        Write([1], r.value + rest);
        Write(r.value, rest);
      } else {
        Write([0], rest);
      }
    }

    method WriteEntries(es: seq<Entry>, narrow: bool)
      modifies this
      ensures written == old(written) + Tail(es, narrow)
    {
      hide Text;
      hide AmountBytes;
      ghost var goal := written + Tail(es, narrow);
      Write(U32(|es|), EntriesBytes(es, narrow));
      assert es[0..] == es;
      for i := 0 to |es|
        invariant written + EntriesBytes(es[i..], narrow) == goal
      {
        var e := es[i];
        ghost var rest := EntriesBytes(es[i + 1..], narrow);
        assert es[i..][0] == e && es[i..][1..] == es[i + 1..];
        EntrySplits(e, narrow, rest);
        Write(e.account, Text(e.currency) + (Text(e.side) + (AmountBytes(e.amount, narrow) + (AmountBytes(e.after, narrow) + rest))));
        WriteBytes(e.currency, Text(e.side) + (AmountBytes(e.amount, narrow) + (AmountBytes(e.after, narrow) + rest)));
        WriteBytes(e.side, AmountBytes(e.amount, narrow) + (AmountBytes(e.after, narrow) + rest));
        Write(AmountBytes(e.amount, narrow), AmountBytes(e.after, narrow) + rest);
        Write(AmountBytes(e.after, narrow), rest);
      }
      assert written + [] == written;
    }

    method WriteV3(t: Content)
      requires WellFormed(t) && written == []
      modifies this
      ensures written == EncodeV3(t)
    {
      hide Text;
      hide Reversal;
      hide Tail;
      hide I64;
      ghost var r9 := I64(PostedOrZero(t)) + Tail(t.entries, false);
      ghost var r7 := I64(t.createdAt) + (I64(t.effectiveAt) + r9);
      ghost var r5 := Text(t.metadata) + (Reversal(t.reverses) + r7);
      ghost var r3 := Text(t.external) + (Text(t.description) + r5);
      Write([3], t.id + (t.ledger + (Text(t.key) + r3)));
      Write(t.id, t.ledger + (Text(t.key) + r3));
      Write(t.ledger, Text(t.key) + r3);
      WriteBytes(t.key, r3);
      WriteBytes(t.external, Text(t.description) + r5);
      WriteBytes(t.description, r5);
      WriteBytes(t.metadata, Reversal(t.reverses) + r7);
      WriteReversal(t.reverses, r7);
      Write(I64(t.createdAt), I64(t.effectiveAt) + r9);
      Write(I64(t.effectiveAt), r9);
      Write(I64(PostedOrZero(t)), Tail(t.entries, false));
      WriteEntries(t.entries, false);
      assert [] + EncodeV3(t) == EncodeV3(t);
    }

    method WriteV1(t: Content)
      requires WellFormed(t) && written == []
      modifies this
      ensures written == EncodeV1(t)
    {
      hide Text;
      hide Reversal;
      hide Tail;
      hide I64;
      var narrow := IsNarrow(t.entries);
      ghost var r5 := I64(t.createdAt) + Tail(t.entries, narrow);
      ghost var r3 := Text(t.metadata) + (Reversal(t.reverses) + r5);
      Write([if narrow then 1 else 2], t.id + (Text(t.key) + (Text(t.description) + r3)));
      Write(t.id, Text(t.key) + (Text(t.description) + r3));
      WriteBytes(t.key, Text(t.description) + r3);
      WriteBytes(t.description, r3);
      WriteBytes(t.metadata, Reversal(t.reverses) + r5);
      WriteReversal(t.reverses, r5);
      Write(I64(t.createdAt), Tail(t.entries, narrow));
      WriteEntries(t.entries, narrow);
      assert [] + EncodeV1(t) == EncodeV1(t);
    }

    /** Stops at the first amount that needs more than 64 bits. */
    method IsNarrow(es: seq<Entry>) returns (narrow: bool)
      ensures narrow <==> forall e :: e in es ==> FitsInt64(e.amount) && FitsInt64(e.after)
    {
      for i := 0 to |es|
        invariant forall k :: 0 <= k < i ==> FitsInt64(es[k].amount) && FitsInt64(es[k].after)
      {
        if !FitsInt64(es[i].amount) || !FitsInt64(es[i].after) {
          return false;
        }
      }
      return true;
    }
  }

  lemma EntrySplits(e: Entry, narrow: bool, rest: seq<byte>)
    ensures EntryBytes(e, narrow) + rest
         == e.account + (Text(e.currency) + (Text(e.side) + (AmountBytes(e.amount, narrow) + (AmountBytes(e.after, narrow) + rest))))
  {
    hide Text;
    hide AmountBytes;
  }
}
