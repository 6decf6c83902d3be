/** Statements: totals and entries bounded by a transaction id, so that nothing posted later can change them. */
module Statements {
  import opened Wrappers
  import opened Money
  import opened Kernel
  import opened Sums
  import opened Snapshots

  /** A journal posting with the effective time of its transaction. */
  datatype Line = Line(account: AccountId, side: Side, amount: int, effectiveAt: Time)

  datatype Range = Range(from: Option<Time>, until: Option<Time>) {
    predicate Holds(t: Time) {
      && (from.None? || from.value <= t)
      && (until.None? || t < until.value)
    }
  }

  datatype Statement = Statement(
    account: AccountId,
    range: Range,
    startDebits: int, startCredits: int,
    endDebits: int, endCredits: int,
    count: int,
    postedBefore: Xid)

  function Narrow(a: Range, b: Range): Range {
    Range(if b.from.Some? && (a.from.None? || b.from.value > a.from.value) then b.from else a.from,
          if b.until.Some? && (a.until.None? || b.until.value < a.until.value) then b.until else a.until)
  }

  lemma NarrowIntersects(a: Range, b: Range, t: Time)
    ensures Narrow(a, b).Holds(t) <==> a.Holds(t) && b.Holds(t)
  {
  }

  // ---- the queries, each on the snapshot of its own moment ----

  predicate Selected(s: Store<Line>, r: Row<Line>, account: AccountId, range: Range, bound: Xid) {
    Visible(s, r) && r.xid < bound && r.data.account == account && range.Holds(r.data.effectiveAt)
  }

  function AmountOn(s: Store<Line>, account: AccountId, range: Range, bound: Xid, side: Side): Row<Line> -> int {
    (r: Row<Line>) => if Selected(s, r, account, range, bound) && r.data.side == side then r.data.amount else 0
  }

  function One(s: Store<Line>, account: AccountId, range: Range, bound: Xid): Row<Line> -> int {
    (r: Row<Line>) => if Selected(s, r, account, range, bound) then 1 else 0
  }

  function Total(s: Store<Line>, account: AccountId, range: Range, bound: Xid, side: Side): int {
    Sum(s.rows, AmountOn(s, account, range, bound, side))
  }

  function Count(s: Store<Line>, account: AccountId, range: Range, bound: Xid): int {
    Sum(s.rows, One(s, account, range, bound))
  }

  /** The listed entries, in posting order. */
  function Entries(s: Store<Line>, rows: seq<Row<Line>>, account: AccountId, range: Range, bound: Xid): seq<Row<Line>> {
    if rows == [] then []
    else (if Selected(s, rows[0], account, range, bound) then [rows[0]] else []) + Entries(s, rows[1..], account, range, bound)
  }

  function ListEntries(s: Store<Line>, st: Statement): seq<Row<Line>> {
    Entries(s, s.rows, st.account, st.range, st.postedBefore)
  }

  /**
   A statement as it is created: the bound is read first, the opening and the period totals in two later queries,
   each of which sees whatever has committed by then.
   */
  function CreateStatement(opening: Store<Line>, period: Store<Line>, account: AccountId, from: Time, until: Time, bound: Xid)
    : Option<Statement>
  {
    var before, during := Range(None, Some(from)), Range(Some(from), Some(until));
    var startDebits, startCredits :=
      Total(opening, account, before, bound, Debit), Total(opening, account, before, bound, Credit);
    if until <= from || !InBound(startDebits) || !InBound(startCredits)
       || !InBound(Total(period, account, during, bound, Debit)) || !InBound(Total(period, account, during, bound, Credit)) then None
    else
      var endDebits :- Add(startDebits, Total(period, account, during, bound, Debit));
      var endCredits :- Add(startCredits, Total(period, account, during, bound, Credit));
      Some(Statement(account, during, startDebits, startCredits, endDebits, endCredits,
                     Count(period, account, during, bound), bound))
  }

  // ---- frozen ----

  lemma SettledSelects(s: Store<Line>, t: Store<Line>, bound: Xid, account: AccountId, range: Range)
    requires Settled(s, t, bound)
    ensures forall r :: r in s.rows ==> Selected(s, r, account, range, bound) == Selected(t, r, account, range, bound)
    ensures forall r :: r in t.rows[|s.rows|..] ==> !Selected(t, r, account, range, bound)
  {
    forall r | r in t.rows[|s.rows|..] ensures !Selected(t, r, account, range, bound) {
      var i :| 0 <= i < |t.rows| - |s.rows| && t.rows[|s.rows|..][i] == r;
      assert t.rows[|s.rows| + i] == r;
    }
  }

  lemma FrozenTotal(s: Store<Line>, t: Store<Line>, bound: Xid, account: AccountId, range: Range, side: Side)
    requires Settled(s, t, bound)
    ensures Total(s, account, range, bound, side) == Total(t, account, range, bound, side)
    ensures Count(s, account, range, bound) == Count(t, account, range, bound)
  {
    SettledSelects(s, t, bound, account, range);
    var late := t.rows[|s.rows|..];
    assert t.rows == s.rows + late;
    SumAppend(s.rows, late, AmountOn(t, account, range, bound, side));
    SumAppend(s.rows, late, One(t, account, range, bound));
    SumZero(late, AmountOn(t, account, range, bound, side));
    SumZero(late, One(t, account, range, bound));
    SumSame(s.rows, AmountOn(s, account, range, bound, side), AmountOn(t, account, range, bound, side));
    SumSame(s.rows, One(s, account, range, bound), One(t, account, range, bound));
  }

  lemma {:induction false} SameEntries(s: Store<Line>, t: Store<Line>, rows: seq<Row<Line>>, late: seq<Row<Line>>,
                                       account: AccountId, range: Range, bound: Xid)
    requires forall r :: r in rows ==> Selected(s, r, account, range, bound) == Selected(t, r, account, range, bound)
    requires forall r :: r in late ==> !Selected(t, r, account, range, bound)
    ensures Entries(t, rows + late, account, range, bound) == Entries(s, rows, account, range, bound)
    decreases |rows| + |late|
  {
    if rows != [] {
      SameEntries(s, t, rows[1..], late, account, range, bound);
      assert (rows + late)[1..] == rows[1..] + late;
    } else if late != [] {
      SameEntries(s, t, [], late[1..], account, range, bound);
      assert ([] + late)[1..] == [] + late[1..] && [] + late == late;
    }
  }

  lemma FrozenEntries(s: Store<Line>, t: Store<Line>, bound: Xid, account: AccountId, range: Range)
    requires Settled(s, t, bound)
    ensures Entries(t, t.rows, account, range, bound) == Entries(s, s.rows, account, range, bound)
  {
    SettledSelects(s, t, bound, account, range);
    assert t.rows == s.rows + t.rows[|s.rows|..];
    SameEntries(s, t, s.rows, t.rows[|s.rows|..], account, range, bound);
  }

  function LineOn(side: Side): Row<Line> -> int {
    (r: Row<Line>) => if r.data.side == side then r.data.amount else 0
  }

  /** The listed entries add up to the totals and number the count. */
  lemma {:induction false} EntriesAddUp(s: Store<Line>, rows: seq<Row<Line>>, account: AccountId, range: Range, bound: Xid, side: Side)
    ensures Sum(Entries(s, rows, account, range, bound), LineOn(side)) == Sum(rows, AmountOn(s, account, range, bound, side))
    ensures |Entries(s, rows, account, range, bound)| == Sum(rows, One(s, account, range, bound))
  {
    if rows != [] {
      EntriesAddUp(s, rows[1..], account, range, bound, side);
      var first := if Selected(s, rows[0], account, range, bound) then [rows[0]] else [];
      SumAppend(first, Entries(s, rows[1..], account, range, bound), LineOn(side));
    }
  }

  /** Two moments of a run, both at or after the one whose running transactions set the bound, agree below it. */
  lemma LaterAgrees(trace: seq<Store<Line>>, actions: seq<Action<Line>>, at: nat, later: nat, bound: Xid)
    requires Run(trace, actions) && Valid(trace[0]) && at <= later <= |actions| && bound == Xmin(trace[at])
    ensures Settled(trace[at], trace[later], bound)
  {
    assert Run(trace[..at + 1], actions[..at]) && Ended(trace[0], 0);
    EndedIsSettled(trace[..at + 1], actions[..at], 0);
    XminEnds(trace[at]);
    assert Run(trace[at..later + 1], actions[at..later]);
    EndedIsSettled(trace[at..later + 1], actions[at..later], bound);
  }

  /** One side of a frozen statement. */
  lemma SideFrozen(s: Store<Line>, opening: Store<Line>, period: Store<Line>, listed: Store<Line>, bound: Xid,
                   account: AccountId, before: Range, during: Range, side: Side)
    requires Settled(s, opening, bound) && Settled(s, period, bound) && Settled(s, listed, bound)
    ensures Entries(listed, listed.rows, account, during, bound) == Entries(s, s.rows, account, during, bound)
    ensures |Entries(listed, listed.rows, account, during, bound)| == Count(period, account, during, bound)
    ensures Sum(Entries(listed, listed.rows, account, during, bound), LineOn(side)) == Total(period, account, during, bound, side)
    ensures Total(opening, account, before, bound, side) == Total(listed, account, before, bound, side)
  {
    FrozenEntries(s, listed, bound, account, during);
    FrozenTotal(s, opening, bound, account, before, side);
    FrozenTotal(s, period, bound, account, during, side);
    FrozenTotal(s, listed, bound, account, during, side);
    FrozenTotal(s, listed, bound, account, before, side);
    EntriesAddUp(listed, listed.rows, account, during, bound, side);
  }

  /**
   A statement is frozen. Its bound is read at one moment of a run, its opening and period totals at later ones; at
   any moment after the first, whatever has been posted since, even backdated, and whoever has committed late, the
   entries listed under it are the same, they number the stored count, per side they sum to ending minus starting,
   and the starting totals are what the entries before the period still add up to.
   */
  lemma StatementFrozen(trace: seq<Store<Line>>, actions: seq<Action<Line>>, boundAt: nat, openingAt: nat, periodAt: nat,
                        listedAt: nat, account: AccountId, from: Time, until: Time)
    requires Run(trace, actions) && Valid(trace[0])
    requires boundAt <= openingAt <= |actions| && boundAt <= periodAt <= |actions| && boundAt <= listedAt <= |actions|
    requires CreateStatement(trace[openingAt], trace[periodAt], account, from, until, Xmin(trace[boundAt])).Some?
    ensures var st := CreateStatement(trace[openingAt], trace[periodAt], account, from, until, Xmin(trace[boundAt])).value;
      var entries := ListEntries(trace[listedAt], st);
      && entries == ListEntries(trace[boundAt], st)
      && |entries| == st.count
      && Sum(entries, LineOn(Debit)) == st.endDebits - st.startDebits
      && Sum(entries, LineOn(Credit)) == st.endCredits - st.startCredits
      && st.startDebits == Total(trace[listedAt], account, Range(None, Some(from)), st.postedBefore, Debit)
      && st.startCredits == Total(trace[listedAt], account, Range(None, Some(from)), st.postedBefore, Credit)
  {
    hide Sum;
    hide Entries;
    hide Settled;
    hide Total;
    hide Count;
    hide Least;
    var bound := Xmin(trace[boundAt]);
    var before, during := Range(None, Some(from)), Range(Some(from), Some(until));
    LaterAgrees(trace, actions, boundAt, openingAt, bound);
    LaterAgrees(trace, actions, boundAt, periodAt, bound);
    LaterAgrees(trace, actions, boundAt, listedAt, bound);
    SideFrozen(trace[boundAt], trace[openingAt], trace[periodAt], trace[listedAt], bound, account, before, during, Debit);
    SideFrozen(trace[boundAt], trace[openingAt], trace[periodAt], trace[listedAt], bound, account, before, during, Credit);
  }

  // ---- what a statement covers ----

  /** A row counts for an account before a time, from another on if that is given: committed, and posted below the bound. */
  predicate Covered(s: Store<Line>, r: Row<Line>, account: AccountId, from: Option<Time>, until: Time, bound: Xid) {
    && Visible(s, r) && r.xid < bound && r.data.account == account
    && (from.Some? ==> from.value <= r.data.effectiveAt) && r.data.effectiveAt < until
  }

  function CoveredOn(s: Store<Line>, account: AccountId, from: Option<Time>, until: Time, bound: Xid, side: Side): Row<Line> -> int {
    (r: Row<Line>) => if Covered(s, r, account, from, until, bound) && r.data.side == side then r.data.amount else 0
  }

  lemma {:induction false} ListedAreCovered(s: Store<Line>, rows: seq<Row<Line>>, account: AccountId, from: Time, until: Time, bound: Xid)
    ensures forall r :: r in Entries(s, rows, account, Range(Some(from), Some(until)), bound) <==>
      r in rows && Covered(s, r, account, Some(from), until, bound)
  {
    if rows != [] {
      ListedAreCovered(s, rows[1..], account, from, until, bound);
    }
  }

  /**
   At the moment its bound is read a statement covers the account's committed rows below the bound: it starts with the
   sums of those effective before the period, ends with the sums of those effective before the period's end, and lists
   exactly those effective within the period.
   */
  lemma StatementCovers(s: Store<Line>, account: AccountId, from: Time, until: Time, bound: Xid)
    ensures var st := CreateStatement(s, s, account, from, until, bound);
      && (st.Some? ==>
            && st.value.account == account && st.value.postedBefore == bound && st.value.range == Range(Some(from), Some(until))
            && st.value.startDebits == Sum(s.rows, CoveredOn(s, account, None, from, bound, Debit))
            && st.value.startCredits == Sum(s.rows, CoveredOn(s, account, None, from, bound, Credit))
            && st.value.endDebits == Sum(s.rows, CoveredOn(s, account, None, until, bound, Debit))
            && st.value.endCredits == Sum(s.rows, CoveredOn(s, account, None, until, bound, Credit))
            && forall r :: r in ListEntries(s, st.value) <==> r in s.rows && Covered(s, r, account, Some(from), until, bound))
  {
    hide Sum;
    hide Entries;
    if from < until {
      ListedAreCovered(s, s.rows, account, from, until, bound);
      SideCovered(s, account, from, until, bound, Debit);
      SideCovered(s, account, from, until, bound, Credit);
    }
  }

  lemma SideCovered(s: Store<Line>, account: AccountId, from: Time, until: Time, bound: Xid, side: Side)
    requires from < until
    ensures Total(s, account, Range(None, Some(from)), bound, side) == Sum(s.rows, CoveredOn(s, account, None, from, bound, side))
    ensures Total(s, account, Range(None, Some(from)), bound, side) + Total(s, account, Range(Some(from), Some(until)), bound, side)
         == Sum(s.rows, CoveredOn(s, account, None, until, bound, side))
  {
    SumSame(s.rows, AmountOn(s, account, Range(None, Some(from)), bound, side), CoveredOn(s, account, None, from, bound, side));
    SumPlus(s.rows, CoveredOn(s, account, None, until, bound, side), CoveredOn(s, account, None, from, bound, side),
            AmountOn(s, account, Range(Some(from), Some(until)), bound, side));
  }
}
