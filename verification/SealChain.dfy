/**
 The seal chain: each seal links the hash of a transaction to the seal before it. The hash and the keyed link are
 idealised as injective and never equal to the genesis value: a digest is the term that was hashed.
 */
module SealChain {
  import opened Wrappers
  import opened SealEncoding

  datatype Digest = Genesis | Hashed(bytes: seq<byte>) | Linked(prev: Digest, seq_: int, entry: Digest)

  type TxnKey = seq<byte>

  /** A stored seal; `third` is the recorded encoding, absent on seals from before it. */
  datatype Seal = Seal(seq_: int, txn: TxnKey, entry: Digest, chain: Digest, third: bool)

  datatype Head = Head(seq_: int, hash: Digest)

  const START := Head(0, Genesis)

  datatype Issue =
    | WrongSeq(expected: int, found: int)
    | Missing(seq_: int, txn: TxnKey)
    | Altered(seq_: int, txn: TxnKey)
    | BadLink(seq_: int)

  type Txns = map<TxnKey, Content>

  predicate Storable(txns: Txns) {
    forall k :: k in txns ==> WellFormed(txns[k]) && txns[k].id == k
  }

  // ---- sealing ----

  function Link(prev: Digest, seq_: int, entry: Digest): Digest {
    Linked(prev, seq_, entry)
  }

  function SealOf(head: Head, t: Content): Seal
    requires WellFormed(t)
  {
    var entry := Hashed(EncodeV3(t));
    Seal(head.seq_ + 1, t.id, entry, Link(head.hash, head.seq_ + 1, entry), true)
  }

  function HeadOf(s: Seal): Head {
    Head(s.seq_, s.chain)
  }

  predicate AllWellFormed(batch: seq<Content>) {
    forall t :: t in batch ==> WellFormed(t)
  }

  /** The seals of a batch of transactions after a head. */
  function SealsAfter(head: Head, batch: seq<Content>): seq<Seal>
    requires AllWellFormed(batch)
    decreases |batch|
  {
    if batch == [] then []
    else
      var s := SealOf(head, batch[0]);
      [s] + SealsAfter(HeadOf(s), batch[1..])
  }

  lemma NextSeal(head: Head, batch: seq<Content>, i: nat)
    requires AllWellFormed(batch) && i < |batch|
    ensures AllWellFormed(batch[i..]) && AllWellFormed(batch[i + 1..])
    ensures SealsAfter(head, batch[i..])
      == [SealOf(head, batch[i])] + SealsAfter(HeadOf(SealOf(head, batch[i])), batch[i + 1..])
  {
    assert batch[i..][0] == batch[i] && batch[i..][1..] == batch[i + 1..];
  }

  lemma NoSeals(head: Head)
    ensures SealsAfter(head, []) == []
  {
  }

  function LastHead(seals: seq<Seal>): Head {
    if seals == [] then START else HeadOf(seals[|seals| - 1])
  }

  /** The link of the last seal to the one numbered just before it, or to the genesis value if there is none. */
  predicate HeadVerifies(seals: seq<Seal>) {
    seals == [] ||
    var last := seals[|seals| - 1];
    var prev := if |seals| > 1 && seals[|seals| - 2].seq_ == last.seq_ - 1 then seals[|seals| - 2].chain else Genesis;
    last.chain == Link(prev, last.seq_, last.entry)
  }

  class Sealer {
    var seals: seq<Seal>
    var highest: int

    constructor ()
      ensures seals == [] && highest == 0
    {
      seals, highest := [], 0;
    }

    /** Seals a batch after the verified head, unless the head has gone back or does not verify. */
    method SealBatch(batch: seq<Content>) returns (r: Option<nat>)
      requires AllWellFormed(batch)
      modifies this
      ensures r.Some? <==> HeadVerifies(old(seals)) && old(highest) <= LastHead(old(seals)).seq_
      ensures r.None? ==> seals == old(seals) && highest == old(highest)
      ensures r.Some? ==> r == Some(|batch|) && seals == old(seals) + SealsAfter(LastHead(old(seals)), batch)
      ensures r.Some? ==> highest >= old(highest) && highest >= LastHead(seals).seq_
    {
      hide EncodeV3;
      hide WellFormed;
      hide SealsAfter;
      if !HeadVerifies(seals) {
        return None;
      }
      var head := LastHead(seals);
      if head.seq_ < highest {
        return None;
      }
      var rows: seq<Seal> := [];
      ghost var start := head;
      assert batch[0..] == batch;
      for i := 0 to |batch|
        invariant SealsAfter(start, batch) == rows + SealsAfter(head, batch[i..])
        invariant seals == old(seals) && highest == old(highest)
        invariant |rows| == i && (i > 0 ==> head == HeadOf(rows[i - 1])) && (i == 0 ==> head == start)
      {
        var t := batch[i];
        NextSeal(head, batch, i);
        var seq_ := head.seq_ + 1;
        var entry := Hashed(EncodeV3(t));
        var hash := Link(head.hash, seq_, entry);
        Associate(rows, [SealOf(head, t)], SealsAfter(Head(seq_, hash), batch[i + 1..]));
        rows := rows + [Seal(seq_, t.id, entry, hash, true)];
        head := Head(seq_, hash);
      }
      assert batch[|batch|..] == [] && rows + [] == rows;
      NoSeals(head);
      seals := seals + rows;
      highest := if head.seq_ > highest then head.seq_ else highest;
      return Some(|batch|);
    }
  }

  // ---- verifying ----

  /** The stored transaction still hashes, in the seal's encoding, to what was sealed. */
  predicate Matches(txns: Txns, s: Seal)
    requires Storable(txns) && s.txn in txns
  {
    Hashed(Encode(txns[s.txn], s.third)) == s.entry
  }

  /** What is wrong with one seal, given the chain hash before it and the number it should have. */
  function IssuesOf(s: Seal, prev: Digest, next: int, txns: Txns): seq<Issue>
    requires Storable(txns)
  {
    (if s.seq_ != next then [WrongSeq(next, s.seq_)] else [])
    + (if s.txn !in txns then [Missing(s.seq_, s.txn)]
       else if !Matches(txns, s) then [Altered(s.seq_, s.txn)] else [])
    + (if Link(prev, s.seq_, s.entry) != s.chain then [BadLink(s.seq_)] else [])
  }

  /** What is wrong with a whole chain, read in one go. */
  function Issues(seals: seq<Seal>, prev: Digest, next: int, txns: Txns): seq<Issue>
    requires Storable(txns)
  {
    if seals == [] then []
    else IssuesOf(seals[0], prev, next, txns) + Issues(seals[1..], seals[0].chain, seals[0].seq_ + 1, txns)
  }

  predicate Sorted(seals: seq<Seal>) {
    forall i, j :: 0 <= i < j < |seals| ==> seals[i].seq_ < seals[j].seq_
  }

  /** The seals numbered `next` and above. */
  function From(seals: seq<Seal>, next: int): seq<Seal> {
    if seals == [] || seals[0].seq_ >= next then seals else From(seals[1..], next)
  }

  lemma {:induction false} FromSuffix(seals: seq<Seal>, next: int)
    requires Sorted(seals)
    ensures |From(seals, next)| <= |seals| && From(seals, next) == seals[|seals| - |From(seals, next)|..]
    ensures Sorted(From(seals, next))
    ensures forall s :: s in From(seals, next) ==> s.seq_ >= next
  {
    if seals != [] && seals[0].seq_ < next {
      FromSuffix(seals[1..], next);
    }
  }

  /** Past a seal of the rest, the rest goes on with the one after it. */
  lemma FromNext(seals: seq<Seal>, next: int, n: nat)
    requires Sorted(seals) && 0 < n <= |From(seals, next)|
    ensures From(seals, From(seals, next)[n - 1].seq_ + 1) == From(seals, next)[n..]
  {
    hide From;
    FromSuffix(seals, next);
    var k := |seals| - |From(seals, next)|;
    assert From(seals, next)[n - 1] == seals[k + n - 1];
    FromAt(seals, k + n);
  }

  lemma {:induction false} FromAt(seals: seq<Seal>, n: nat)
    requires Sorted(seals) && 0 < n <= |seals|
    ensures From(seals, seals[n - 1].seq_ + 1) == seals[n..]
  {
    if n == 1 {
      assert seals[1..] == [] || seals[1].seq_ >= seals[0].seq_ + 1;
    } else {
      assert seals[0].seq_ < seals[n - 1].seq_;
      FromAt(seals[1..], n - 1);
    }
  }

  function LeftOff(a: seq<Seal>, prev: Digest, next: int): Head {
    if a == [] then Head(next - 1, prev) else HeadOf(a[|a| - 1])
  }

  lemma {:induction false} IssuesAppend(a: seq<Seal>, b: seq<Seal>, prev: Digest, next: int, txns: Txns)
    requires Storable(txns)
    ensures var left := LeftOff(a, prev, next);
      Issues(a + b, prev, next, txns) == Issues(a, prev, next, txns) + Issues(b, left.hash, left.seq_ + 1, txns)
    decreases |a|
  {
    hide IssuesOf;
    hide Storable;
    var left := LeftOff(a, prev, next);
    if a == [] {
      assert a + b == b;
    } else {
      IssuesAppend(a[1..], b, a[0].chain, a[0].seq_ + 1, txns);
      assert left == LeftOff(a[1..], a[0].chain, a[0].seq_ + 1);
      assert (a + b)[0] == a[0] && (a + b)[1..] == a[1..] + b;
      Associate(IssuesOf(a[0], prev, next, txns), Issues(a[1..], a[0].chain, a[0].seq_ + 1, txns), Issues(b, left.hash, left.seq_ + 1, txns));
    }
  }

  method VerifySeal(p: Seal, prev: Digest, next: int, txns: Txns) returns (found: seq<Issue>)
    requires Storable(txns)
    ensures found == IssuesOf(p, prev, next, txns)
  {
    found := [];
    if p.seq_ != next {
      found := found + [WrongSeq(next, p.seq_)];
    }
    if p.txn !in txns {
      found := found + [Missing(p.seq_, p.txn)];
    } else if !Matches(txns, p) {
      found := found + [Altered(p.seq_, p.txn)];
    }
    if Link(prev, p.seq_, p.entry) != p.chain {
      found := found + [BadLink(p.seq_)];
    }
  }

  /** The issues of one page, and the chain hash and number it leaves off at. */
  method VerifyPage(page: seq<Seal>, prev: Digest, next: int, txns: Txns) returns (issues: seq<Issue>, left: Head)
    requires Storable(txns)
    ensures issues == Issues(page, prev, next, txns) && left == LeftOff(page, prev, next)
  {
    hide IssuesOf;
    hide Issues;
    hide Storable;
    NoIssues(prev, next, txns);
    issues, left := [], Head(next - 1, prev);
    for i := 0 to |page|
      invariant issues == Issues(page[..i], prev, next, txns) && left == LeftOff(page[..i], prev, next)
    {
      var found := VerifySeal(page[i], left.hash, left.seq_ + 1, txns);
      assert page[..i + 1] == page[..i] + [page[i]];
      IssuesAppend(page[..i], [page[i]], prev, next, txns);
      OneIssue(page[i], left.hash, left.seq_ + 1, txns);
      issues, left := issues + found, HeadOf(page[i]);
    }
    assert page[..|page|] == page;
  }

  lemma OneIssue(p: Seal, prev: Digest, next: int, txns: Txns)
    requires Storable(txns)
    ensures Issues([p], prev, next, txns) == IssuesOf(p, prev, next, txns)
  {
    hide IssuesOf;
    assert [p][1..] == [];
    assert IssuesOf(p, prev, next, txns) + [] == IssuesOf(p, prev, next, txns);
  }

  /**
   Verifies page by page, each page a query for the next seals. Whatever the page size, the issues are those of one
   pass over all seals from number one.
   */
  method VerifyChain(seals: seq<Seal>, txns: Txns, pageSize: nat) returns (issues: seq<Issue>, head: Head)
    requires Storable(txns) && Sorted(seals) && pageSize > 0
    ensures issues == Issues(From(seals, 1), Genesis, 1, txns)
    ensures head == LastHead(From(seals, 1))
  {
    hide Issues;
    hide From;
    hide Sorted;
    hide Storable;
    issues := [];
    var prev, next := Genesis, 1;
    ghost var all := From(seals, 1);
    ghost var done := 0;
    NoIssues(prev, next, txns);
    while true
      invariant 0 <= done <= |all| && From(seals, next) == all[done..]
      invariant issues == Issues(all[..done], Genesis, 1, txns)
      invariant prev == (if done == 0 then Genesis else all[done - 1].chain)
      invariant next == (if done == 0 then 1 else all[done - 1].seq_ + 1)
      decreases |all| - done
    {
      var rest := From(seals, next);
      var page := if |rest| <= pageSize then rest else rest[..pageSize];
      if |page| == 0 {
        break;
      }
      var found, left := VerifyPage(page, prev, next, txns);
      FromNext(seals, next, |page|);
      assert all[..done] + page == all[..done + |page|];
      IssuesAppend(all[..done], page, Genesis, 1, txns);
      issues := issues + found;
      prev, next := left.hash, left.seq_ + 1;
      done := done + |page|;
    }
    assert all[..done] == all;
    head := Head(next - 1, prev);
  }

  lemma NoIssues(prev: Digest, next: int, txns: Txns)
    requires Storable(txns)
    ensures Issues([], prev, next, txns) == []
  {
  }

  // ---- chains built by sealing are clean ----

  /** The transactions of a batch are stored as they were sealed. */
  predicate Kept(batch: seq<Content>, txns: Txns) {
    forall t :: t in batch ==> WellFormed(t) && t.id in txns && txns[t.id] == t
  }

  lemma {:induction false} SealedIsClean(head: Head, batch: seq<Content>, txns: Txns)
    requires Storable(txns) && Kept(batch, txns)
    ensures Issues(SealsAfter(head, batch), head.hash, head.seq_ + 1, txns) == []
    decreases |batch|
  {
    hide EncodeV3;
    hide WellFormed;
    if batch != [] {
      assert batch[0] in batch;
      var s := SealOf(head, batch[0]);
      assert Kept(batch[1..], txns);
      SealedIsClean(HeadOf(s), batch[1..], txns);
      assert SealsAfter(head, batch)[1..] == SealsAfter(HeadOf(s), batch[1..]);
      assert IssuesOf(s, head.hash, head.seq_ + 1, txns) == [];
    }
  }

  /** The chain after any number of sealing calls. */
  function Built(batches: seq<seq<Content>>): seq<Seal>
    requires forall b :: b in batches ==> AllWellFormed(b)
    decreases |batches|
  {
    if batches == [] then []
    else
      var before := Built(batches[..|batches| - 1]);
      before + SealsAfter(LastHead(before), batches[|batches| - 1])
  }

  lemma {:induction false} SealsNumbered(head: Head, batch: seq<Content>)
    requires AllWellFormed(batch)
    ensures |SealsAfter(head, batch)| == |batch|
    ensures forall i :: 0 <= i < |batch| ==> SealsAfter(head, batch)[i].seq_ == head.seq_ + 1 + i
    ensures LinkedAfter(head, SealsAfter(head, batch))
    decreases |batch|
  {
    hide EncodeV3;
    hide WellFormed;
    if batch != [] {
      var s := SealOf(head, batch[0]);
      assert AllWellFormed(batch[1..]);
      SealsNumbered(HeadOf(s), batch[1..]);
      assert SealsAfter(head, batch)[1..] == SealsAfter(HeadOf(s), batch[1..]);
      LinkedCons(head, SealsAfter(head, batch));
    }
  }

  predicate LinkedAt(head: Head, seals: seq<Seal>, i: nat)
    requires i < |seals|
  {
    seals[i].chain == Link(if i == 0 then head.hash else seals[i - 1].chain, seals[i].seq_, seals[i].entry)
  }

  predicate LinkedAfter(head: Head, seals: seq<Seal>) {
    forall i :: 0 <= i < |seals| ==> LinkedAt(head, seals, i)
  }

  lemma LinkedCons(head: Head, seals: seq<Seal>)
    requires seals != [] && LinkedAt(head, seals, 0) && LinkedAfter(HeadOf(seals[0]), seals[1..])
    ensures LinkedAfter(head, seals)
  {
    forall i | 0 <= i < |seals| ensures LinkedAt(head, seals, i) {
      if i > 0 {
        assert LinkedAt(HeadOf(seals[0]), seals[1..], i - 1);
      }
    }
  }

  /** A chain numbered from one without gaps, each seal linked to the one before. */
  predicate Whole(seals: seq<Seal>) {
    (forall i :: 0 <= i < |seals| ==> seals[i].seq_ == i + 1) && LinkedAfter(START, seals)
  }

  lemma WholeExtends(seals: seq<Seal>, batch: seq<Content>)
    requires Whole(seals) && AllWellFormed(batch)
    ensures Whole(seals + SealsAfter(LastHead(seals), batch))
  {
    hide SealsAfter;
    SealsNumbered(LastHead(seals), batch);
    var more := SealsAfter(LastHead(seals), batch);
    var all := seals + more;
    forall i | 0 <= i < |all| ensures LinkedAt(START, all, i) {
      if i < |seals| {
        assert LinkedAt(START, seals, i);
      } else {
        assert LinkedAt(LastHead(seals), more, i - |seals|);
      }
    }
  }

  lemma WholeNone()
    ensures Whole([])
  {
  }

  /** A whole chain is what its own queries take it to be, and its head verifies. */
  lemma WholeHead(seals: seq<Seal>)
    requires Whole(seals)
    ensures Sorted(seals) && From(seals, 1) == seals && HeadVerifies(seals) && LastHead(seals).seq_ == |seals|
  {
    if seals != [] {
      assert LinkedAt(START, seals, |seals| - 1);
    }
  }

  /**
   Whatever batches are sealed, in however many calls, the chain is numbered from one without gaps, every later
   call finds its head verified, and verification finds nothing wrong, over any page size.
   */
  lemma {:induction false} BuiltIsClean(batches: seq<seq<Content>>, txns: Txns)
    requires Storable(txns) && (forall b :: b in batches ==> AllWellFormed(b) && Kept(b, txns))
    ensures Whole(Built(batches)) && HeadVerifies(Built(batches)) && LastHead(Built(batches)).seq_ == |Built(batches)|
    ensures Issues(From(Built(batches), 1), Genesis, 1, txns) == []
    decreases |batches|
  {
    hide Issues;
    hide SealsAfter;
    hide Storable;
    hide AllWellFormed;
    hide Kept;
    hide Whole;
    hide HeadVerifies;
    hide Sorted;
    hide From;
    if batches == [] {
      NoIssues(Genesis, 1, txns);
      WholeNone();
    } else {
      var init, last := batches[..|batches| - 1], batches[|batches| - 1];
      assert last in batches;
      BuiltIsClean(init, txns);
      WholeHead(Built(init));
      CleanExtends(Built(init), last, txns);
    }
    WholeHead(Built(batches));
  }

  lemma CleanExtends(before: seq<Seal>, batch: seq<Content>, txns: Txns)
    requires Storable(txns) && AllWellFormed(batch) && Kept(batch, txns)
    requires Whole(before) && Issues(before, Genesis, 1, txns) == []
    ensures Whole(before + SealsAfter(LastHead(before), batch))
    ensures Issues(before + SealsAfter(LastHead(before), batch), Genesis, 1, txns) == []
  {
    hide Issues;
    hide SealsAfter;
    hide Storable;
    hide AllWellFormed;
    hide Kept;
    hide Whole;
    WholeExtends(before, batch);
    SealedIsClean(LastHead(before), batch, txns);
    IssuesAppend(before, SealsAfter(LastHead(before), batch), Genesis, 1, txns);
  }

  // ---- the head determines the chain ----

  /** Without issues a chain is numbered in order, linked throughout, and hashes what is stored. */
  lemma {:induction false} CleanParts(seals: seq<Seal>, prev: Digest, next: int, txns: Txns)
    requires Storable(txns) && Issues(seals, prev, next, txns) == []
    ensures forall i :: 0 <= i < |seals| ==> seals[i].seq_ == next + i && seals[i].txn in txns && Matches(txns, seals[i])
    ensures LinkedAfter(Head(next - 1, prev), seals)
    decreases |seals|
  {
    hide Encode;
    if seals != [] {
      CleanParts(seals[1..], seals[0].chain, seals[0].seq_ + 1, txns);
      LinkedCons(Head(next - 1, prev), seals);
    }
  }

  lemma CleanIsWhole(seals: seq<Seal>, txns: Txns)
    requires Storable(txns) && Issues(seals, Genesis, 1, txns) == []
    ensures Whole(seals)
  {
    hide Issues;
    CleanParts(seals, Genesis, 1, txns);
  }

  /** Two transactions that neither encoding, whichever was used, tells apart. */
  predicate SameSealed(t: Content, u: Content, third: bool) {
    if third then Coalesced(t) == Coalesced(u) else Covered(t) == Covered(u)
  }

  lemma SameEntrySameContent(t: Content, third: bool, u: Content, fourth: bool)
    requires WellFormed(t) && WellFormed(u) && Encode(t, third) == Encode(u, fourth)
    ensures third == fourth && SameSealed(t, u, third) && t.id == u.id
  {
    if third != fourth {
      if third {
        EncodingsApart(t, u);
      } else {
        EncodingsApart(u, t);
      }
    } else if third {
      V3Injective(t, u);
      assert t.id == Coalesced(t).id == u.id;
    } else {
      V1Injective(t, u);
      assert t.id == Covered(t).id == u.id;
    }
  }

  /**
   Two clean chains, over whatever stores, whose heads have the same number and hash have the same seals, one by
   one, and sealed the same content.
   */
  lemma HeadDeterminesChain(a: seq<Seal>, aTxns: Txns, b: seq<Seal>, bTxns: Txns)
    requires Storable(aTxns) && Storable(bTxns)
    requires Issues(a, Genesis, 1, aTxns) == [] && Issues(b, Genesis, 1, bTxns) == []
    requires LastHead(a) == LastHead(b)
    ensures a == b
    ensures forall s :: s in a ==> s.txn in aTxns && s.txn in bTxns && SameSealed(aTxns[s.txn], bTxns[s.txn], s.third)
  {
    hide Issues;
    hide Encode;
    hide SameSealed;
    hide WellFormed;
    CleanParts(a, Genesis, 1, aTxns);
    CleanParts(b, Genesis, 1, bTxns);
    CleanIsWhole(a, aTxns);
    CleanIsWhole(b, bTxns);
    assert |a| == |b|;
    ChainsAgree(a, b, |a|);
    forall i | 0 <= i < |a|
      ensures a[i] == b[i] && SameSealed(aTxns[a[i].txn], bTxns[a[i].txn], a[i].third)
    {
      SameEntrySameContent(aTxns[a[i].txn], a[i].third, bTxns[b[i].txn], b[i].third);
    }
  }

  /** Going back from an equal chain hash, link by link. */
  lemma {:induction false} ChainsAgree(a: seq<Seal>, b: seq<Seal>, n: nat)
    requires |a| == |b| && n <= |a| && Whole(a) && Whole(b)
    requires n > 0 ==> a[n - 1].chain == b[n - 1].chain
    ensures forall i :: 0 <= i < n ==> a[i].entry == b[i].entry && a[i].chain == b[i].chain
  {
    if n > 0 {
      assert LinkedAt(START, a, n - 1) && LinkedAt(START, b, n - 1);
      ChainsAgree(a, b, n - 1);
    }
  }
}
