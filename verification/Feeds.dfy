/**
 Reading committed rows exactly once, in (transaction id, row id) order, behind transactions that commit late: the
 protocol that sealing and event dispatch share. Sealing keeps its position as the last seal; dispatch as a stored
 cursor, and its handled events may be pruned.
 */
module Feeds {
  import opened Wrappers
  import opened Snapshots

  datatype Key = Key(xid: Xid, id: nat)

  predicate Less(a: Key, b: Key) {
    a.xid < b.xid || (a.xid == b.xid && a.id < b.id)
  }

  predicate AtMost(a: Key, b: Key) {
    a == b || Less(a, b)
  }

  function KeyOf<T>(r: Row<T>): Key {
    Key(r.xid, r.id)
  }

  /** The rows, the keys handled so far in order, the batch one reader may have in hand, and the pruned rows. */
  datatype Feed<T> = Feed(store: Store<T>, handled: seq<Key>, inHand: Option<seq<Key>>, pruned: set<Key>)

  function Cursor<T>(f: Feed<T>): Option<Key> {
    if f.handled == [] then None else Some(f.handled[|f.handled| - 1])
  }

  predicate Past(cursor: Option<Key>, k: Key) {
    cursor.None? || Less(cursor.value, k)
  }

  /** A key whose row has been committed, pruned since or not. */
  predicate Committed<T>(f: Feed<T>, k: Key) {
    exists i :: 0 <= i < |f.store.rows| && KeyOf(f.store.rows[i]) == k && Visible(f.store, f.store.rows[i])
  }

  /** A row the reading query selects: visible, its transaction below the snapshot's oldest, past the cursor. */
  predicate Eligible<T>(f: Feed<T>, k: Key) {
    Committed(f, k) && k !in f.pruned && Ended(f.store, k.xid + 1) && Past(Cursor(f), k)
  }

  predicate Increasing(ks: seq<Key>) {
    forall i, j :: 0 <= i < j < |ks| ==> Less(ks[i], ks[j])
  }

  /** What the reading query returns: the first `limit` eligible keys in order. */
  ghost predicate IsBatch<T>(f: Feed<T>, limit: nat, batch: seq<Key>) {
    && Increasing(batch) && |batch| <= limit
    && (forall k :: k in batch ==> Eligible(f, k))
    && (forall k :: Eligible(f, k) ==> k in batch || (|batch| == limit && (batch == [] || Less(batch[|batch| - 1], k))))
  }

  datatype Step<T> =
    | Client(action: Action<T>)
    | Read(limit: nat, batch: seq<Key>)
    | Finish
    | GiveUp
    | Prune(keys: set<Key>)

  /** One reader at a time holds the lock, from reading its batch until its transaction ends. */
  ghost predicate Can<T>(f: Feed<T>, s: Step<T>) {
    match s
    case Client(a) => Enabled(f.store, a)
    case Read(limit, batch) => f.inHand.None? && IsBatch(f, limit, batch)
    case Finish => f.inHand.Some?
    case GiveUp => f.inHand.Some?
    case Prune(keys) => forall k :: k in keys ==> Cursor(f).Some? && AtMost(k, Cursor(f).value) && Committed(f, k) && k !in f.pruned
  }

  ghost function Take<T>(f: Feed<T>, s: Step<T>): Feed<T>
    requires Can(f, s)
  {
    match s
    case Client(a) => f.(store := Do(f.store, a))
    case Read(_, batch) => f.(inHand := Some(batch))
    case Finish => f.(handled := f.handled + f.inHand.value, inHand := None)
    case GiveUp => f.(inHand := None)
    case Prune(keys) => f.(pruned := f.pruned + keys)
  }

  // ---- the invariant ----

  /** `ks` is sorted, committed, behind every running transaction, and has every committed key up to its last. */
  ghost predicate Complete<T>(f: Feed<T>, ks: seq<Key>) {
    && Increasing(ks)
    && (forall k :: k in ks ==> Committed(f, k) && Ended(f.store, k.xid + 1))
    && (forall k :: Committed(f, k) && ks != [] && AtMost(k, ks[|ks| - 1]) ==> k in ks)
  }

  ghost predicate Invariant<T>(f: Feed<T>) {
    && Valid(f.store)
    && Complete(f, f.handled)
    && (f.inHand.Some? ==> Complete(f, f.handled + f.inHand.value))
    && (forall k :: k in f.pruned ==> k in f.handled)
  }

  function Initial<T>(): Feed<T> {
    Feed(Store(0, {}, {}, []), [], None, {})
  }

  lemma InitialInvariant<T>()
    ensures Invariant(Initial<T>())
  {
  }

  lemma ClientKeepsComplete<T>(f: Feed<T>, a: Action<T>, ks: seq<Key>)
    requires Valid(f.store) && Enabled(f.store, a) && Complete(f, ks)
    ensures Complete(f.(store := Do(f.store, a)), ks)
  {
    var g := f.(store := Do(f.store, a));
    forall k ensures Committed(f, k) ==> Committed(g, k) {
      if Committed(f, k) {
        var i :| 0 <= i < |f.store.rows| && KeyOf(f.store.rows[i]) == k && Visible(f.store, f.store.rows[i]);
        assert g.store.rows[i] == f.store.rows[i];
      }
    }
    forall k | Committed(g, k) && ks != [] && AtMost(k, ks[|ks| - 1]) ensures k in ks {
      assert ks[|ks| - 1] in ks;
      var i :| 0 <= i < |g.store.rows| && KeyOf(g.store.rows[i]) == k && Visible(g.store, g.store.rows[i]);
      assert i < |f.store.rows| && g.store.rows[i] == f.store.rows[i] && Committed(f, k);
    }
  }

  /** Reading past the cursor extends what is complete: nothing can still commit at or below the batch. */
  lemma ReadIsComplete<T>(f: Feed<T>, limit: nat, batch: seq<Key>)
    requires Invariant(f) && IsBatch(f, limit, batch)
    ensures Complete(f, f.handled + batch)
  {
    var ks := f.handled + batch;
    forall k | k in batch ensures Committed(f, k) && Past(Cursor(f), k) {
      assert Eligible(f, k);
    }
    HandledThenBatch(f, batch);
    forall k | Committed(f, k) && ks != [] && AtMost(k, ks[|ks| - 1]) ensures k in ks {
      if !(f.handled != [] && AtMost(k, f.handled[|f.handled| - 1])) {
        assert batch != [] && ks[|ks| - 1] == batch[|batch| - 1];
        assert batch[|batch| - 1] in batch && Eligible(f, batch[|batch| - 1]);
        assert k !in f.pruned by {
          if k in f.pruned {
            BelowLast(f.handled, k);
          }
        }
        assert Past(Cursor(f), k);
        assert Eligible(f, k);
      }
    }
  }

  lemma BelowLast(ks: seq<Key>, k: Key)
    requires Increasing(ks) && k in ks
    ensures AtMost(k, ks[|ks| - 1])
  {
    var i :| 0 <= i < |ks| && ks[i] == k;
    if i < |ks| - 1 {
      assert Less(ks[i], ks[|ks| - 1]);
    }
  }

  lemma HandledThenBatch<T>(f: Feed<T>, batch: seq<Key>)
    requires Increasing(f.handled) && Increasing(batch)
    requires forall k :: k in batch ==> Past(Cursor(f), k)
    ensures Increasing(f.handled + batch)
  {
    var ks := f.handled + batch;
    forall i, j | 0 <= i < j < |ks| ensures Less(ks[i], ks[j]) {
      if i < |f.handled| <= j {
        assert ks[j] in batch && f.handled[i] in f.handled;
        BelowLast(f.handled, f.handled[i]);
      }
    }
  }

  lemma TakeKeeps<T>(f: Feed<T>, s: Step<T>)
    requires Invariant(f) && Can(f, s)
    ensures Invariant(Take(f, s))
  {
    match s
    case Client(a) =>
      DoKeepsValid(f.store, a);
      ClientKeepsComplete(f, a, f.handled);
      if f.inHand.Some? {
        ClientKeepsComplete(f, a, f.handled + f.inHand.value);
      }
    case Read(limit, batch) => ReadIsComplete(f, limit, batch);
      SameStore(f, Take(f, s), f.handled);
      SameStore(f, Take(f, s), f.handled + batch);
    case Finish => SameStore(f, Take(f, s), f.handled + f.inHand.value);
    case GiveUp => SameStore(f, Take(f, s), f.handled);
    case Prune(keys) =>
      SameStore(f, Take(f, s), f.handled);
      if f.inHand.Some? {
        SameStore(f, Take(f, s), f.handled + f.inHand.value);
      }
      forall k | k in keys ensures k in f.handled {
        assert Committed(f, k);
      }
  }

  lemma SameStore<T>(f: Feed<T>, g: Feed<T>, ks: seq<Key>)
    requires g.store == f.store && Complete(f, ks)
    ensures Complete(g, ks)
  {
    assert forall k :: Committed(g, k) == Committed(f, k);
  }

  // ---- whole runs ----

  ghost predicate Run<T(!new)>(trace: seq<Feed<T>>, steps: seq<Step<T>>) {
    && |trace| == |steps| + 1 && trace[0] == Initial()
    && forall i :: 0 <= i < |steps| ==> Can(trace[i], steps[i]) && trace[i + 1] == Take(trace[i], steps[i])
  }

  lemma {:induction false} RunKeeps<T(!new)>(trace: seq<Feed<T>>, steps: seq<Step<T>>, n: nat)
    requires Run(trace, steps) && n < |trace|
    ensures Invariant(trace[n])
  {
    if n == 0 {
      InitialInvariant<T>();
    } else {
      RunKeeps(trace, steps, n - 1);
      TakeKeeps(trace[n - 1], steps[n - 1]);
    }
  }

  lemma {:induction false} HandledGrows<T(!new)>(trace: seq<Feed<T>>, steps: seq<Step<T>>, m: nat, n: nat)
    requires Run(trace, steps) && m <= n < |trace|
    ensures trace[m].handled <= trace[n].handled
    decreases n
  {
    if m < n {
      HandledGrows(trace, steps, m, n - 1);
    }
  }

  /**
   At any moment of any run, with transactions committing and aborting in any order: what has been handled is in
   strictly increasing (transaction, row) order, so each row once; it was committed; no row committed by now at or
   below the cursor is missing, however late it committed; pruned rows had been handled. And what is handled never
   changes, it only gets longer.
   */
  lemma ExactlyOnceInOrder<T(!new)>(trace: seq<Feed<T>>, steps: seq<Step<T>>, m: nat, n: nat)
    requires Run(trace, steps) && m <= n < |trace|
    ensures trace[m].handled <= trace[n].handled
    ensures forall i, j :: 0 <= i < j < |trace[n].handled| ==> Less(trace[n].handled[i], trace[n].handled[j])
    ensures forall k :: k in trace[n].handled ==> Committed(trace[n], k)
    ensures Cursor(trace[m]).Some? ==>
      forall k :: Committed(trace[n], k) && AtMost(k, Cursor(trace[m]).value) ==> k in trace[m].handled
    ensures forall k :: k in trace[n].pruned ==> k in trace[n].handled
  {
    RunKeeps(trace, steps, m);
    RunKeeps(trace, steps, n);
    HandledGrows(trace, steps, m, n);
    if Cursor(trace[m]).Some? {
      forall k | Committed(trace[n], k) && AtMost(k, Cursor(trace[m]).value) ensures k in trace[m].handled {
        LateCommitsFollow(trace[m].handled, trace[n].handled, trace[n], k);
      }
    }
  }

  lemma LateCommitsFollow<T>(early: seq<Key>, late: seq<Key>, f: Feed<T>, k: Key)
    requires early <= late && early != [] && Complete(f, late)
    requires Committed(f, k) && AtMost(k, early[|early| - 1])
    ensures k in early
  {
    assert early[|early| - 1] == late[|early| - 1];
    BelowLast(late, late[|early| - 1]);
    assert k in late;
    var i :| 0 <= i < |late| && late[i] == k;
    if i >= |early| {
      assert Less(late[|early| - 1], late[i]);
    } else {
      assert early[i] == k;
    }
  }

  // ---- progress ----

  /** A committed row behind every running transaction that is not yet handled is eligible. */
  lemma UnhandledIsEligible<T>(f: Feed<T>, k: Key)
    requires Invariant(f) && Committed(f, k) && Ended(f.store, k.xid + 1) && k !in f.handled
    ensures Eligible(f, k)
  {
  }

  /** Each read of a positive limit hands over something as long as an unhandled row is behind all running transactions. */
  lemma ReadsMakeProgress<T>(f: Feed<T>, k: Key, limit: nat, batch: seq<Key>)
    requires Invariant(f) && Committed(f, k) && Ended(f.store, k.xid + 1) && k !in f.handled
    requires limit > 0 && IsBatch(f, limit, batch)
    ensures batch != [] && (k in batch || (|batch| == limit && Less(batch[|batch| - 1], k)))
  {
    UnhandledIsEligible(f, k);
  }

  /** The smallest eligible key among the first `n` rows. */
  lemma {:induction false} FirstEligible<T>(f: Feed<T>, n: nat) returns (first: Option<Key>)
    requires n <= |f.store.rows|
    ensures first.Some? ==> Eligible(f, first.value)
    ensures forall i :: 0 <= i < n && Eligible(f, KeyOf(f.store.rows[i])) ==>
      first.Some? && AtMost(first.value, KeyOf(f.store.rows[i]))
  {
    if n == 0 {
      return None;
    }
    first := FirstEligible(f, n - 1);
    var k := KeyOf(f.store.rows[n - 1]);
    if Eligible(f, k) && (first.None? || Less(k, first.value)) {
      first := Some(k);
    }
  }

  /** The query always has an answer. */
  lemma {:induction false} BatchExists<T>(f: Feed<T>, limit: nat) returns (batch: seq<Key>)
    ensures IsBatch(f, limit, batch)
    decreases limit
  {
    var first := FirstEligible(f, |f.store.rows|);
    if limit == 0 || first.None? {
      return [];
    }
    var g := f.(handled := f.handled + [first.value]);
    var rest := BatchExists(g, limit - 1);
    batch := [first.value] + rest;
    forall k ensures Eligible(g, k) <==> Eligible(f, k) && Less(first.value, k) {
      assert Committed(g, k) == Committed(f, k);
    }
    FirstThenRest(f, first.value, rest, limit);
  }

  lemma FirstThenRest<T>(f: Feed<T>, first: Key, rest: seq<Key>, limit: nat)
    requires limit > 0 && Eligible(f, first)
    requires forall k :: Eligible(f, k) ==> AtMost(first, k)
    requires IsBatch(f.(handled := f.handled + [first]), limit - 1, rest)
    requires forall k :: Eligible(f.(handled := f.handled + [first]), k) <==> Eligible(f, k) && Less(first, k)
    ensures IsBatch(f, limit, [first] + rest)
  {
    var batch := [first] + rest;
    forall i, j | 0 <= i < j < |batch| ensures Less(batch[i], batch[j]) {
      assert rest[j - 1] in rest;
    }
    forall k | Eligible(f, k) && k !in batch ensures |batch| == limit && Less(batch[|batch| - 1], k) {
      assert k != first && k !in rest;
    }
  }
}
