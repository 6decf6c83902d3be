/**
 Sealing over time: posted transactions commit in any order while sealing calls read and link them. However late one
 commits, the chain has each posted transaction up to its head once, in order, and verifies.
 */
module SealRuns {
  import opened Wrappers
  import opened SealEncoding
  import opened SealChain
  import Snapshots
  import Feeds

  type Rows = seq<Snapshots.Row<Content>>

  /** The content of the row with a key. */
  function Find(rows: Rows, k: Feeds.Key): (r: Option<Content>)
    ensures r.Some? ==> exists i :: 0 <= i < |rows| && Feeds.KeyOf(rows[i]) == k && rows[i].data == r.value
    ensures r.None? ==> forall i :: 0 <= i < |rows| ==> Feeds.KeyOf(rows[i]) != k
  {
    if rows == [] then None
    else if Feeds.KeyOf(rows[0]) == k then Some(rows[0].data)
    else
      var r := Find(rows[1..], k);
      assert forall i :: 0 <= i < |rows[1..]| ==> rows[1..][i] == rows[i + 1];
      assert rows == [rows[0]] + rows[1..];
      r
  }

  lemma {:induction false} FindKept(rows: Rows, more: Rows, k: Feeds.Key)
    requires Find(rows, k).Some?
    ensures Find(rows + more, k) == Find(rows, k)
  {
    if Feeds.KeyOf(rows[0]) != k {
      FindKept(rows[1..], more, k);
      assert (rows + more)[1..] == rows[1..] + more;
    }
  }

  predicate Found(rows: Rows, ks: seq<Feeds.Key>) {
    forall k :: k in ks ==> Find(rows, k).Some?
  }

  /** Contents that can be sealed, no two of one transaction. */
  predicate Sealable(rows: Rows) {
    && (forall i :: 0 <= i < |rows| ==> WellFormed(rows[i].data))
    && (forall i, j :: 0 <= i < j < |rows| ==> rows[i].data.id != rows[j].data.id)
  }

  function Contents(rows: Rows, ks: seq<Feeds.Key>): (cs: seq<Content>)
    requires Sealable(rows) && Found(rows, ks)
    ensures |cs| == |ks| && forall i :: 0 <= i < |ks| ==> cs[i] == Find(rows, ks[i]).value
    ensures AllWellFormed(cs)
  {
    seq(|ks|, i requires 0 <= i < |ks| => Find(rows, ks[i]).value)
  }

  // ---- the chain of a run ----

  datatype State = State(feed: Feeds.Feed<Content>, seals: seq<Seal>)

  /** Seals are never pruned; a row is inserted as its transaction posts, once. */
  ghost predicate Can(s: State, step: Feeds.Step<Content>) {
    && Feeds.Can(s.feed, step) && !step.Prune?
    && (step.Client? && step.action.Insert? ==>
          WellFormed(step.action.data) && forall r :: r in s.feed.store.rows ==> r.data.id != step.action.data.id)
  }

  /** The seals are those of what has been handled, in that order. */
  ghost predicate Invariant(s: State) {
    && Feeds.Invariant(s.feed)
    && Sealable(s.feed.store.rows)
    && Found(s.feed.store.rows, s.feed.handled)
    && (s.feed.inHand.Some? ==> Found(s.feed.store.rows, s.feed.inHand.value))
    && s.seals == SealsAfter(START, Contents(s.feed.store.rows, s.feed.handled))
  }

  /** The seals with more transactions linked to the head. In every run the rows are there and can be sealed. */
  function Sealed(s: State, ks: seq<Feeds.Key>): seq<Seal> {
    var rows := s.feed.store.rows;
    if Sealable(rows) && Found(rows, ks) then s.seals + SealsAfter(LastHead(s.seals), Contents(rows, ks)) else s.seals
  }

  /** A sealing call that ends links what it had read. */
  ghost function Take(s: State, step: Feeds.Step<Content>): State
    requires Can(s, step)
  {
    State(Feeds.Take(s.feed, step), if step.Finish? then Sealed(s, s.feed.inHand.value) else s.seals)
  }

  const INITIAL := State(Feeds.Initial<Content>(), [])

  lemma {:induction false} SealsAppend(head: Head, a: seq<Content>, b: seq<Content>)
    requires AllWellFormed(a) && AllWellFormed(b)
    ensures AllWellFormed(a + b)
    ensures var first := SealsAfter(head, a);
      SealsAfter(head, a + b) == first + SealsAfter(if first == [] then head else HeadOf(first[|first| - 1]), b)
    decreases |a|
  {
    hide SealOf;
    hide WellFormed;
    if a == [] {
      assert a + b == b;
    } else {
      assert AllWellFormed(a[1..]);
      var s := SealOf(head, a[0]);
      var rest := SealsAfter(HeadOf(s), a[1..]);
      SealsAppend(HeadOf(s), a[1..], b);
      assert (a + b)[0] == a[0] && (a + b)[1..] == a[1..] + b;
      var last := if rest == [] then HeadOf(s) else HeadOf(rest[|rest| - 1]);
      Associate([s], rest, SealsAfter(last, b));
    }
  }

  lemma CommittedIsFound(f: Feeds.Feed<Content>, ks: seq<Feeds.Key>)
    requires forall k :: k in ks ==> Feeds.Committed(f, k)
    ensures Found(f.store.rows, ks)
  {
    forall k | k in ks ensures Find(f.store.rows, k).Some? {
      assert Feeds.Committed(f, k);
    }
  }

  lemma RowsKept(s: State, step: Feeds.Step<Content>, ks: seq<Feeds.Key>)
    requires Sealable(s.feed.store.rows) && Can(s, step) && Found(s.feed.store.rows, ks)
    ensures var rows := Feeds.Take(s.feed, step).store.rows;
      Sealable(rows) && Found(rows, ks) && Contents(rows, ks) == Contents(s.feed.store.rows, ks)
  {
    var before, rows := s.feed.store.rows, Feeds.Take(s.feed, step).store.rows;
    if rows != before {
      var r := rows[|rows| - 1];
      assert rows == before + [r];
      forall i | 0 <= i < |before| ensures rows[i].data.id != r.data.id {
        assert before[i] in before;
      }
      forall k | k in ks ensures Find(rows, k) == Find(before, k) {
        FindKept(before, [r], k);
      }
    }
  }

  lemma TakeKeeps(s: State, step: Feeds.Step<Content>)
    requires Invariant(s) && Can(s, step)
    ensures Invariant(Take(s, step))
  {
    hide Sealable;
    hide Found;
    hide SealsAfter;
    hide Feeds.Invariant;
    hide Feeds.IsBatch;
    Feeds.TakeKeeps(s.feed, step);
    RowsKept(s, step, s.feed.handled);
    HandsFound(s, step);
    if step.Finish? {
      FinishSeals(s.feed.store.rows, s.feed.handled, s.feed.inHand.value);
    }
  }

  /** Sealing what was read after what was sealed before is sealing it all. */
  lemma FinishSeals(rows: Rows, done: seq<Feeds.Key>, more: seq<Feeds.Key>)
    requires Sealable(rows) && Found(rows, done) && Found(rows, more)
    ensures Found(rows, done + more)
    ensures var before := SealsAfter(START, Contents(rows, done));
      SealsAfter(START, Contents(rows, done + more)) == before + SealsAfter(LastHead(before), Contents(rows, more))
  {
    assert Contents(rows, done + more) == Contents(rows, done) + Contents(rows, more);
    SealsAppend(START, Contents(rows, done), Contents(rows, more));
  }

  lemma HandsFound(s: State, step: Feeds.Step<Content>)
    requires Invariant(s) && Can(s, step)
    ensures var f := Feeds.Take(s.feed, step);
      f.inHand.Some? ==> Found(f.store.rows, f.inHand.value)
  {
    Feeds.TakeKeeps(s.feed, step);
    var f := Feeds.Take(s.feed, step);
    if f.inHand.Some? {
      assert Feeds.Complete(f, f.handled + f.inHand.value);
      forall k | k in f.inHand.value ensures Feeds.Committed(f, k) {
        assert k in f.handled + f.inHand.value;
      }
      CommittedIsFound(f, f.inHand.value);
    }
  }

  ghost predicate Run(trace: seq<State>, steps: seq<Feeds.Step<Content>>) {
    && |trace| == |steps| + 1 && trace[0] == INITIAL
    && forall i :: 0 <= i < |steps| ==>
      Can(trace[i], steps[i]) && trace[i + 1] == Take(trace[i], steps[i])
  }

  lemma {:induction false} RunKeeps(trace: seq<State>, steps: seq<Feeds.Step<Content>>, n: nat)
    requires Run(trace, steps) && n < |trace|
    ensures Invariant(trace[n])
  {
    hide Invariant;
    hide Take;
    if n == 0 {
      InitialHolds();
    } else {
      RunKeeps(trace, steps, n - 1);
      TakeKeeps(trace[n - 1], steps[n - 1]);
    }
  }

  lemma InitialHolds()
    ensures Invariant(INITIAL)
  {
    Feeds.InitialInvariant<Content>();
  }

  // ---- what the chain covers ----

  /** The transactions by id, as verification looks them up. */
  function ById(rows: Rows): (txns: Txns)
    requires Sealable(rows)
    ensures Storable(txns) && forall r :: r in rows ==> r.data.id in txns && txns[r.data.id] == r.data
  {
    map r | r in rows :: r.data.id := r.data
  }

  lemma {:induction false} SealsName(head: Head, batch: seq<Content>)
    requires AllWellFormed(batch)
    ensures |SealsAfter(head, batch)| == |batch|
    ensures forall i :: 0 <= i < |batch| ==> SealsAfter(head, batch)[i].txn == batch[i].id
    decreases |batch|
  {
    hide EncodeV3;
    hide WellFormed;
    if batch != [] {
      assert AllWellFormed(batch[1..]);
      SealsName(HeadOf(SealOf(head, batch[0])), batch[1..]);
      assert SealsAfter(head, batch)[1..] == SealsAfter(HeadOf(SealOf(head, batch[0])), batch[1..]);
    }
  }

  /** The contents of keys in order are stored as they are sealed, and are of different transactions. */
  lemma ContentsKept(rows: Rows, ks: seq<Feeds.Key>)
    requires Sealable(rows) && Found(rows, ks) && Feeds.Increasing(ks)
    ensures Kept(Contents(rows, ks), ById(rows))
    ensures forall i, j :: 0 <= i < j < |ks| ==> Contents(rows, ks)[i].id != Contents(rows, ks)[j].id
  {
    var cs := Contents(rows, ks);
    forall c | c in cs ensures WellFormed(c) && c.id in ById(rows) && ById(rows)[c.id] == c {
      var i :| 0 <= i < |ks| && cs[i] == c;
      assert Find(rows, ks[i]).Some?;
    }
    forall i, j | 0 <= i < j < |ks| ensures cs[i].id != cs[j].id {
      assert Feeds.Less(ks[i], ks[j]);
      var a := RowOf(rows, ks[i]);
      var b := RowOf(rows, ks[j]);
    }
  }

  lemma RowOf(rows: Rows, k: Feeds.Key) returns (i: nat)
    requires Find(rows, k).Some?
    ensures i < |rows| && Feeds.KeyOf(rows[i]) == k && rows[i].data == Find(rows, k).value
  {
    i :| 0 <= i < |rows| && Feeds.KeyOf(rows[i]) == k && rows[i].data == Find(rows, k).value;
  }

  /** A transaction has a seal. */
  predicate HasSeal(seals: seq<Seal>, txn: TxnKey) {
    exists i :: 0 <= i < |seals| && seals[i].txn == txn
  }

  /** A committed posted transaction at or below the last one sealed. */
  predicate BelowHead(f: Feeds.Feed<Content>, r: Snapshots.Row<Content>) {
    && r in f.store.rows && Snapshots.Visible(f.store, r)
    && Feeds.Cursor(f).Some? && Feeds.AtMost(Feeds.KeyOf(r), Feeds.Cursor(f).value)
  }

  lemma BelowHeadIsSealed(s: State, r: Snapshots.Row<Content>)
    requires Invariant(s) && BelowHead(s.feed, r)
    ensures HasSeal(s.seals, r.data.id)
  {
    hide SealsAfter;
    hide Sealable;
    hide Found;
    var f, rows := s.feed, s.feed.store.rows;
    var i := HandledAt(f, r);
    SealsName(START, Contents(rows, f.handled));
    assert s.seals[i].txn == Contents(rows, f.handled)[i].id;
  }

  lemma HandledAt(f: Feeds.Feed<Content>, r: Snapshots.Row<Content>) returns (i: nat)
    requires Feeds.Invariant(f) && BelowHead(f, r)
    ensures i < |f.handled| && f.handled[i] == Feeds.KeyOf(r) && Find(f.store.rows, f.handled[i]) == Some(r.data)
  {
    var at :| 0 <= at < |f.store.rows| && f.store.rows[at] == r;
    assert Feeds.Committed(f, Feeds.KeyOf(r));
    i :| 0 <= i < |f.handled| && f.handled[i] == Feeds.KeyOf(r);
    var found := RowOf(f.store.rows, f.handled[i]);
    assert found == at;
  }

  /**
   At any moment of any run: the chain is numbered from one without gaps and linked throughout; it verifies against
   the stored transactions; no transaction is sealed twice; and no posted transaction at or below its last one is
   without a seal, however late it committed.
   */
  lemma ChainCoversPosted(trace: seq<State>, steps: seq<Feeds.Step<Content>>, n: nat)
    requires Run(trace, steps) && n < |trace|
    ensures var s := trace[n];
      && Whole(s.seals) && |s.seals| == |s.feed.handled|
      && Sealable(s.feed.store.rows) && Issues(s.seals, Genesis, 1, ById(s.feed.store.rows)) == []
      && (forall i, j :: 0 <= i < j < |s.seals| ==> s.seals[i].txn != s.seals[j].txn)
      && (forall r :: BelowHead(s.feed, r) ==> HasSeal(s.seals, r.data.id))
  {
    RunKeeps(trace, steps, n);
    var s := trace[n];
    ChainIsWhole(s);
    forall r | BelowHead(s.feed, r) ensures HasSeal(s.seals, r.data.id) {
      BelowHeadIsSealed(s, r);
    }
  }

  lemma ChainIsWhole(s: State)
    requires Invariant(s)
    ensures Whole(s.seals) && |s.seals| == |s.feed.handled|
    ensures Issues(s.seals, Genesis, 1, ById(s.feed.store.rows)) == []
    ensures forall i, j :: 0 <= i < j < |s.seals| ==> s.seals[i].txn != s.seals[j].txn
  {
    hide Sealable;
    hide Found;
    hide SealsAfter;
    hide Issues;
    var rows, ks := s.feed.store.rows, s.feed.handled;
    var cs := Contents(rows, ks);
    ContentsKept(rows, ks);
    SealsNumbered(START, cs);
    SealsName(START, cs);
    SealedIsClean(START, cs, ById(rows));
  }
}
