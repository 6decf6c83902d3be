/**
 Database transactions as readers see them: transaction ids grow as they are handed out, transactions commit or
 abort in any order, and a row is visible once its transaction has committed.
 */
module Snapshots {

  type Xid = nat

  datatype Row<T> = Row(xid: Xid, id: nat, data: T)

  datatype Store<T> = Store(next: Xid, active: set<Xid>, committed: set<Xid>, rows: seq<Row<T>>)

  datatype Action<T> =
    | Begin
    | Insert(xid: Xid, id: nat, data: T)
    | Commit(xid: Xid)
    | Abort(xid: Xid)

  predicate Valid<T>(s: Store<T>) {
    && (forall x :: x in s.active ==> x < s.next && x !in s.committed)
    && (forall x :: x in s.committed ==> x < s.next)
    && (forall i :: 0 <= i < |s.rows| ==> s.rows[i].xid < s.next)
    && (forall i, j :: 0 <= i < j < |s.rows| ==> s.rows[i].id != s.rows[j].id)
  }

  predicate Enabled<T>(s: Store<T>, a: Action<T>) {
    match a
    case Begin => true
    case Insert(xid, id, _) => xid in s.active && forall i :: 0 <= i < |s.rows| ==> s.rows[i].id != id
    case Commit(xid) => xid in s.active
    case Abort(xid) => xid in s.active
  }

  function Do<T>(s: Store<T>, a: Action<T>): Store<T>
    requires Enabled(s, a)
  {
    match a
    case Begin => s.(next := s.next + 1, active := s.active + {s.next})
    case Insert(xid, id, data) => s.(rows := s.rows + [Row(xid, id, data)])
    case Commit(xid) => s.(active := s.active - {xid}, committed := s.committed + {xid})
    case Abort(xid) => s.(active := s.active - {xid})
  }

  predicate Visible<T>(s: Store<T>, r: Row<T>) {
    r.xid in s.committed
  }

  ghost function AnyOf(ids: set<Xid>): (x: Xid)
    requires ids != {}
    ensures x in ids
  {
    var x :| x in ids;
    x
  }

  /** The smallest id of a set, or `top` if it has none below it. */
  ghost function Least(ids: set<Xid>, top: Xid): Xid {
    if ids == {} then top
    else
      var rest := Least(ids - {AnyOf(ids)}, top);
      if AnyOf(ids) < rest then AnyOf(ids) else rest
  }

  lemma {:induction false} LeastIsLeast(ids: set<Xid>, top: Xid)
    ensures Least(ids, top) <= top && (Least(ids, top) == top || Least(ids, top) in ids)
    ensures forall x :: x in ids ==> Least(ids, top) <= x
  {
    if ids != {} {
      LeastIsLeast(ids - {AnyOf(ids)}, top);
      forall x | x in ids ensures Least(ids, top) <= x {
        assert x == AnyOf(ids) || x in ids - {AnyOf(ids)};
      }
    }
  }

  /** The oldest running transaction, or the next one: `pg_snapshot_xmin`. */
  ghost function Xmin<T>(s: Store<T>): Xid {
    Least(s.active, s.next)
  }

  /** Every transaction below the bound has ended. */
  predicate Ended<T>(s: Store<T>, bound: Xid) {
    bound <= s.next && forall x :: x in s.active ==> bound <= x
  }

  lemma XminEnds<T>(s: Store<T>)
    ensures forall b: Xid :: Ended(s, b) <==> b <= Xmin(s)
  {
    LeastIsLeast(s.active, s.next);
  }

  lemma DoKeepsValid<T>(s: Store<T>, a: Action<T>)
    requires Valid(s) && Enabled(s, a)
    ensures Valid(Do(s, a))
  {
  }

  /** Below a bound whose transactions have ended nothing changes any more: no commit, no new row. */
  ghost predicate Settled<T>(s: Store<T>, t: Store<T>, bound: Xid) {
    && Ended(t, bound)
    && |s.rows| <= |t.rows| && t.rows[..|s.rows|] == s.rows
    && (forall x :: x < bound ==> (x in s.committed <==> x in t.committed))
    && (forall i :: |s.rows| <= i < |t.rows| ==> bound <= t.rows[i].xid)
  }

  lemma DoKeepsSettled<T>(s: Store<T>, t: Store<T>, a: Action<T>, bound: Xid)
    requires Valid(t) && Settled(s, t, bound) && Enabled(t, a)
    ensures Settled(s, Do(t, a), bound)
  {
  }

  /** A run of transactions of any number of clients. */
  ghost predicate Run<T(!new)>(trace: seq<Store<T>>, actions: seq<Action<T>>) {
    && |trace| == |actions| + 1
    && forall i :: 0 <= i < |actions| ==> Enabled(trace[i], actions[i]) && trace[i + 1] == Do(trace[i], actions[i])
  }

  /** Whatever had ended at some moment of a run stays as it was, to the end of the run. */
  lemma {:induction false} EndedIsSettled<T(!new)>(trace: seq<Store<T>>, actions: seq<Action<T>>, bound: Xid)
    requires Run(trace, actions) && Valid(trace[0]) && Ended(trace[0], bound)
    ensures Valid(trace[|actions|]) && Settled(trace[0], trace[|actions|], bound)
    decreases |actions|
  {
    if actions != [] {
      var n := |actions| - 1;
      assert Run(trace[..n + 1], actions[..n]);
      EndedIsSettled(trace[..n + 1], actions[..n], bound);
      DoKeepsSettled(trace[0], trace[n], actions[n], bound);
      DoKeepsValid(trace[n], actions[n]);
    }
  }
}
