/** Every accepted balance change, written to the tables, keeps their integrity. */
module Preservation {
  import opened Wrappers
  import opened Money
  import opened Kernel
  import opened Sums
  import opened BalanceChange
  import opened BalanceEffects
  import opened Tables

  // ---- accounts after a change ----

  function Share(c: Change, ps: seq<Posting>, id: AccountId, side: Side, when: bool): int {
    if when then Sum(ps, OnSide(id, side)) else 0
  }

  /** How every account, touched or not, stands after a change. */
  ghost predicate Moved(before: Account, after: Account, c: Change, id: AccountId) {
    && after.postedDebits == before.postedDebits + Share(c, c.add, id, Debit, !c.status.Pending?)
    && after.postedCredits == before.postedCredits + Share(c, c.add, id, Credit, !c.status.Pending?)
    && after.pendingDebits
       == before.pendingDebits - Sum(c.unpend, OnSide(id, Debit)) + Share(c, c.add, id, Debit, c.status.Pending?)
    && after.pendingCredits
       == before.pendingCredits - Sum(c.unpend, OnSide(id, Credit)) + Share(c, c.add, id, Credit, c.status.Pending?)
    && after.held == before.held - Owed(c.release, id)
    && SameTerms(before, after)
    && before.version <= after.version
  }

  predicate SameTerms(before: Account, after: Account) {
    && after.ledger == before.ledger && after.currency == before.currency && after.normalSide == before.normalSide
    && after.status == before.status && after.allowNegative == before.allowNegative
    && after.overdraftLimit == before.overdraftLimit
  }

  lemma UntouchedSums(ps: seq<Posting>, id: AccountId)
    requires id !in AccountsOf(ps)
    ensures Sum(ps, OnSide(id, Debit)) == 0 && Sum(ps, OnSide(id, Credit)) == 0
  {
    forall p | p in ps ensures p.account != id {
      assert p.account in AccountsOf(ps);
    }
    SumZero(ps, OnSide(id, Debit));
    SumZero(ps, OnSide(id, Credit));
  }

  lemma AccountMoves(base: Accounts, c: Change, id: AccountId)
    requires Transition(base, c).Ok? && id in base
    ensures var after := base + Transition(base, c).value.changed;
      && after.Keys == base.Keys
      && Moved(base[id], after[id], c, id)
      && (Computable(base[id]) ==> Computable(after[id]))
      && (AboveFloor(base[id]) ==> AboveFloor(after[id]))
  {
    TransitionEffect(base, c);
    if id in Touched(c) {
      TransitionFunds(base, c);
      TransitionFits(base, c);
      assert FundedAccount(base[id], Transition(base, c).value.changed[id]);
      EffectMoves(base[id], c, id);
    } else {
      UntouchedSums(c.unpend, id);
      UntouchedSums(c.add, id);
    }
  }

  lemma EffectMoves(a: Account, c: Change, id: AccountId)
    ensures Moved(a, Effect(a, c, id).(version := a.version + 1), c, id)
  {
  }

  lemma ReleaseWithinHeld(base: Accounts, c: Change)
    requires Transition(base, c).Ok? && c.release.Some?
    ensures c.release.value.account in base && c.release.value.amount <= base[c.release.value.account].held
  {
    var id := c.release.value.account;
    var unpended, w := StageParts(base, c);
    var start := Work(unpended, c.ledger, map[], None, []);
    assert id in base;
    UnpendEffect(base, map[], c.unpend, id);
    RecordEffect(base, start, c.add, c.status, id);
  }

  /** What an accepted change guarantees; nothing below looks further into how it was computed. */
  ghost predicate Guarantees(base: Accounts, c: Change, applied: Applied) {
    && applied.changed.Keys <= base.Keys
    && (forall id :: id in base ==> MovesSoundly(base[id], View(base, applied.changed, id), c, id))
    && (forall cur :: Sum(c.add, InCurrency(base, cur)) == 0)
    && Admitted(base, c.add, applied.ledger)
    && RecordedAs(base, NetIn(base, map[]), c.add, c.status, applied.postings)
    && (c.release.Some? ==>
          c.release.value.account in base && c.release.value.amount <= base[c.release.value.account].held)
  }

  ghost predicate MovesSoundly(before: Account, after: Account, c: Change, id: AccountId) {
    && Moved(before, after, c, id)
    && (Computable(before) ==> Computable(after))
    && (AboveFloor(before) ==> AboveFloor(after))
  }

  /** Every accepted change keeps the guarantees. */
  lemma TransitionGuarantees(base: Accounts, c: Change)
    requires Transition(base, c).Ok?
    ensures Guarantees(base, c, Transition(base, c).value)
  {
    TransitionEffect(base, c);
    forall id | id in base ensures MovesSoundly(base[id], View(base, Transition(base, c).value.changed, id), c, id) {
      AccountMoves(base, c, id);
    }
    TransitionBalances(base, c);
    TransitionRecords(base, c);
    if c.release.Some? {
      ReleaseWithinHeld(base, c);
    }
  }

  // ---- the tables after a change ----

  /** `after` is `db` with an accepted change written for transaction `id`, whose pending entries take version `v`. */
  ghost predicate Writes(db: Database, after: Database, id: TxnId, v: int, c: Change, applied: Applied) {
    && Guarantees(db.accounts, c, applied)
    && after.accounts == db.accounts + applied.changed
    && after.postings == db.postings + (if c.status.Posted? then RowsFor(id, applied.postings) else [])
    && after.entries == db.entries + (if c.status.Pending? then EntriesFor(id, v, applied.postings) else [])
    && after.holds == db.holds
    && after.settlements == db.settlements
    && (c.status.Archived? ==> c.add == [])
    && (forall p :: p in c.add ==> p.amount > 0)
    && (forall p :: p in c.unpend ==> p.amount > 0)
    && (c.release.Some? ==> c.release.value.amount > 0)
  }

  function NewRows(id: TxnId, c: Change, applied: Applied): seq<PostingRow> {
    if c.status.Posted? then RowsFor(id, applied.postings) else []
  }

  lemma RowsAligned(db: Database, id: TxnId, c: Change, applied: Applied)
    requires Guarantees(db.accounts, c, applied) && c.status.Posted?
    ensures var rows := NewRows(id, c, applied);
      && |rows| == |c.add|
      && forall k :: 0 <= k < |rows| ==>
        && c.add[k].account in db.accounts
        && rows[k].txn == id
        && rows[k].account == c.add[k].account
        && rows[k].side == c.add[k].side
        && rows[k].amount == c.add[k].amount
        && rows[k].currency == db.accounts[c.add[k].account].currency
        && rows[k].settlement == None
        && rows[k].balanceAfter == Net(db.accounts[c.add[k].account]) + Sum(c.add[..k + 1], NetOn(c.add[k].account))
  {
  }

  lemma TrialBalanceKept(db: Database, after: Database, id: TxnId, v: int, c: Change, applied: Applied)
    requires Writes(db, after, id, v, c, applied) && TrialBalance(db)
    ensures TrialBalance(after)
  {
    forall cur: Currency ensures Sum(after.postings, RowIn(cur)) == 0 {
      var rows := NewRows(id, c, applied);
      SumAppend(db.postings, rows, RowIn(cur));
      if c.status.Posted? {
        RowsAligned(db, id, c, applied);
        SumAligned(rows, c.add, RowIn(cur), InCurrency(db.accounts, cur));
      }
    }
  }

  lemma PostedTotalsKept(db: Database, after: Database, id: TxnId, v: int, c: Change, applied: Applied)
    requires Writes(db, after, id, v, c, applied) && PostedTotals(db)
    ensures PostedTotals(after)
  {
    hide Sum;
    hide RecordedAs;
    hide Admitted;
    hide Computable;
    hide AboveFloor;
    forall a | a in after.accounts
      ensures after.accounts[a].postedDebits == Sum(after.postings, RowOn(a, Debit))
      ensures after.accounts[a].postedCredits == Sum(after.postings, RowOn(a, Credit))
    {
      assert MovesSoundly(db.accounts[a], View(db.accounts, applied.changed, a), c, a);
      PostedSide(db, after, id, v, c, applied, a, Debit);
      PostedSide(db, after, id, v, c, applied, a, Credit);
    }
  }

  lemma PostedSide(db: Database, after: Database, id: TxnId, v: int, c: Change, applied: Applied, a: AccountId, side: Side)
    requires Writes(db, after, id, v, c, applied)
    ensures Sum(after.postings, RowOn(a, side)) == Sum(db.postings, RowOn(a, side)) + Share(c, c.add, a, side, !c.status.Pending?)
  {
    hide MovesSoundly;
    hide Admitted;
    hide RowsFor;
    hide EntriesFor;
    var rows := NewRows(id, c, applied);
    SumAppend(db.postings, rows, RowOn(a, side));
    if c.status.Posted? {
      RowsAligned(db, id, c, applied);
      SumAligned(rows, c.add, RowOn(a, side), OnSide(a, side));
    } else {
      SumZero(rows, RowOn(a, side));
    }
  }

  lemma HeldFundsKept(db: Database, after: Database, id: TxnId, v: int, c: Change, applied: Applied)
    requires Writes(db, after, id, v, c, applied) && HeldFunds(db, None)
    ensures HeldFunds(after, c.release)
  {
    forall a | a in after.accounts
      ensures after.accounts[a].held + Owed(c.release, a) == Sum(after.holds, HeldOn(a))
    {
      assert MovesSoundly(db.accounts[a], View(db.accounts, applied.changed, a), c, a);
    }
  }

  lemma SettlementsNetKept(db: Database, after: Database, id: TxnId, v: int, c: Change, applied: Applied)
    requires Writes(db, after, id, v, c, applied) && SettlementsNet(db)
    ensures SettlementsNet(after)
  {
    forall s | 0 <= s < |after.settlements| ensures Sum(after.postings, RowSettled(s)) == 0 {
      var rows := NewRows(id, c, applied);
      SumAppend(db.postings, rows, RowSettled(s));
      if c.status.Posted? {
        RowsAligned(db, id, c, applied);
      }
      SumZero(rows, RowSettled(s));
    }
  }

  /** An account's postings net to its debits minus its credits. */
  lemma {:induction false} NetIsDebitsMinusCredits(rows: seq<PostingRow>, a: AccountId)
    ensures Sum(rows, RowNet(a)) == Sum(rows, RowOn(a, Debit)) - Sum(rows, RowOn(a, Credit))
  {
    if rows != [] {
      NetIsDebitsMinusCredits(rows[1..], a);
    }
  }

  lemma NewRowRuns(db: Database, id: TxnId, c: Change, applied: Applied, j: nat)
    requires Guarantees(db.accounts, c, applied) && c.status.Posted?
    requires PostedTotals(db) && j < |c.add|
    ensures var rows := NewRows(id, c, applied);
      && |rows| == |c.add|
      && rows[j].balanceAfter == Sum(db.postings + rows[..j + 1], RowNet(rows[j].account))
  {
    RowsAligned(db, id, c, applied);
    var rows := NewRows(id, c, applied);
    var a := rows[j].account;
    SumAppend(db.postings, rows[..j + 1], RowNet(a));
    SumAligned(rows[..j + 1], c.add[..j + 1], RowNet(a), NetOn(a));
    NetIsDebitsMinusCredits(db.postings, a);
  }

  lemma RunningBalanceKept(db: Database, after: Database, id: TxnId, v: int, c: Change, applied: Applied)
    requires Writes(db, after, id, v, c, applied) && RunningBalance(db.postings) && PostedTotals(db)
    ensures RunningBalance(after.postings)
  {
    hide Sum;
    hide MovesSoundly;
    hide Admitted;
    var rows := NewRows(id, c, applied);
    forall k | 0 <= k < |after.postings|
      ensures after.postings[k].balanceAfter == Sum(after.postings[..k + 1], RowNet(after.postings[k].account))
    {
      if k < |db.postings| {
        assert after.postings[..k + 1] == db.postings[..k + 1];
      } else {
        NewRowRuns(db, id, c, applied, k - |db.postings|);
        assert after.postings[..k + 1] == db.postings + rows[..k - |db.postings| + 1];
      }
    }
  }

  lemma AccountsSoundKept(db: Database, after: Database, id: TxnId, v: int, c: Change, applied: Applied)
    requires Writes(db, after, id, v, c, applied) && AccountsSound(db)
    ensures AccountsSound(after)
  {
    forall a | a in after.accounts ensures Computable(after.accounts[a]) && AboveFloor(after.accounts[a]) {
      assert MovesSoundly(db.accounts[a], View(db.accounts, applied.changed, a), c, a);
    }
  }

  lemma TermsKept(db: Database, after: Database, id: TxnId, v: int, c: Change, applied: Applied)
    requires Writes(db, after, id, v, c, applied)
    ensures after.accounts.Keys == db.accounts.Keys
    ensures forall a :: a in db.accounts ==> SameTerms(db.accounts[a], after.accounts[a])
  {
    forall a | a in db.accounts ensures SameTerms(db.accounts[a], after.accounts[a]) {
      assert MovesSoundly(db.accounts[a], View(db.accounts, applied.changed, a), c, a);
    }
  }

  function NewEntries(id: TxnId, v: int, c: Change, applied: Applied): seq<EntryRow> {
    if c.status.Pending? then EntriesFor(id, v, applied.postings) else []
  }

  lemma EntriesAligned(db: Database, id: TxnId, v: int, c: Change, applied: Applied)
    requires Guarantees(db.accounts, c, applied) && c.status.Pending?
    ensures var rows := NewEntries(id, v, c, applied);
      && |rows| == |c.add|
      && forall k :: 0 <= k < |rows| ==>
        && c.add[k].account in db.accounts
        && rows[k] == EntryRow(id, v, c.add[k].account, db.accounts[c.add[k].account].currency, c.add[k].side, c.add[k].amount)
  {
  }

  lemma NewRowsWellFormed(db: Database, after: Database, id: TxnId, v: int, c: Change, applied: Applied)
    requires Writes(db, after, id, v, c, applied)
    ensures forall r :: r in NewRows(id, c, applied) ==> JournalRow(after, r)
  {
    TermsKept(db, after, id, v, c, applied);
    if c.status.Posted? {
      RowsAligned(db, id, c, applied);
      forall r | r in NewRows(id, c, applied) ensures JournalRow(after, r) {
        var k :| 0 <= k < |c.add| && NewRows(id, c, applied)[k] == r;
        assert c.add[k] in c.add;
      }
    }
  }

  lemma NewEntriesWellFormed(db: Database, after: Database, id: TxnId, v: int, c: Change, applied: Applied)
    requires Writes(db, after, id, v, c, applied)
    requires id < |after.txns| && v <= after.txns[id].version
    ensures forall e :: e in NewEntries(id, v, c, applied) ==> PendingRow(after, e)
  {
    TermsKept(db, after, id, v, c, applied);
    if c.status.Pending? {
      EntriesAligned(db, id, v, c, applied);
      forall e | e in NewEntries(id, v, c, applied) ensures PendingRow(after, e) {
        var k :| 0 <= k < |c.add| && NewEntries(id, v, c, applied)[k] == e;
        assert c.add[k] in c.add;
      }
    }
  }

  lemma RowsKept(db: Database, after: Database, id: TxnId, v: int, c: Change, applied: Applied)
    requires Writes(db, after, id, v, c, applied) && RowsWellFormed(db)
    requires |db.txns| <= |after.txns| && id < |after.txns|
    requires forall i :: 0 <= i < |db.txns| ==> db.txns[i].version <= after.txns[i].version
    requires forall i :: 0 <= i < |after.txns| ==> after.txns[i].entriesVersion <= after.txns[i].version
    requires v <= after.txns[id].version
    ensures RowsWellFormed(after)
  {
    TermsKept(db, after, id, v, c, applied);
    NewRowsWellFormed(db, after, id, v, c, applied);
    NewEntriesWellFormed(db, after, id, v, c, applied);
    forall r | r in after.postings ensures JournalRow(after, r) {
      assert r in db.postings || r in NewRows(id, c, applied);
      if r in db.postings {
        assert JournalRow(db, r);
      }
    }
    forall e | e in after.entries ensures PendingRow(after, e) {
      assert e in db.entries || e in NewEntries(id, v, c, applied);
      if e in db.entries {
        assert PendingRow(db, e);
      }
    }
  }

  // ---- pending totals ----

  lemma PendingSide(db: Database, after: Database, id: TxnId, v: int, c: Change, applied: Applied, a: AccountId, side: Side)
    requires Writes(db, after, id, v, c, applied)
    requires id < |after.txns| && (c.status.Pending? ==> after.txns[id].status.Pending? && after.txns[id].entriesVersion == v)
    requires Sum(db.entries, LiveOn(after.txns, a, side))
          == Sum(db.entries, LiveOn(db.txns, a, side)) - Sum(c.unpend, OnSide(a, side))
    ensures Sum(after.entries, LiveOn(after.txns, a, side))
         == Sum(db.entries, LiveOn(db.txns, a, side)) - Sum(c.unpend, OnSide(a, side)) + Share(c, c.add, a, side, c.status.Pending?)
  {
    hide MovesSoundly;
    hide Admitted;
    hide EntriesFor;
    hide RowsFor;
    hide Sum;
    var added := NewEntries(id, v, c, applied);
    SumAppend(db.entries, added, LiveOn(after.txns, a, side));
    if c.status.Pending? {
      EntriesAligned(db, id, v, c, applied);
      SumAligned(added, c.add, LiveOn(after.txns, a, side), OnSide(a, side));
    } else {
      SumZero(added, LiveOn(after.txns, a, side));
    }
  }

  /** The pending entries that stop being live are exactly those unpended. */
  ghost predicate Unpends(db: Database, after: Database, c: Change) {
    forall a: AccountId, side: Side ::
      Sum(db.entries, LiveOn(after.txns, a, side)) == Sum(db.entries, LiveOn(db.txns, a, side)) - Sum(c.unpend, OnSide(a, side))
  }

  lemma PendingTotalsKept(db: Database, after: Database, id: TxnId, v: int, c: Change, applied: Applied)
    requires Writes(db, after, id, v, c, applied) && PendingTotals(db)
    requires id < |after.txns| && (c.status.Pending? ==> after.txns[id].status.Pending? && after.txns[id].entriesVersion == v)
    requires Unpends(db, after, c)
    ensures PendingTotals(after)
  {
    hide Sum;
    hide RecordedAs;
    hide Admitted;
    hide Computable;
    hide AboveFloor;
    forall a | a in after.accounts
      ensures after.accounts[a].pendingDebits == Sum(after.entries, LiveOn(after.txns, a, Debit))
      ensures after.accounts[a].pendingCredits == Sum(after.entries, LiveOn(after.txns, a, Credit))
    {
      assert MovesSoundly(db.accounts[a], View(db.accounts, applied.changed, a), c, a);
      PendingSide(db, after, id, v, c, applied, a, Debit);
      PendingSide(db, after, id, v, c, applied, a, Credit);
    }
  }

  // ---- closed accounts ----

  lemma ClosedUntouched(db: Database, after: Database, id: TxnId, v: int, c: Change, applied: Applied, a: AccountId)
    requires Writes(db, after, id, v, c, applied) && a in db.accounts
    requires db.accounts[a].status.Closed? && Empty(db.accounts[a])
    ensures Share(c, c.add, a, Debit, true) == 0 && Share(c, c.add, a, Credit, true) == 0
    ensures Sum(c.unpend, OnSide(a, Debit)) >= 0 && Sum(c.unpend, OnSide(a, Credit)) >= 0
    ensures Owed(c.release, a) == 0
  {
    assert a !in AccountsOf(c.add);
    UntouchedSums(c.add, a);
    SumNonNegative(c.unpend, OnSide(a, Debit));
    SumNonNegative(c.unpend, OnSide(a, Credit));
  }

  lemma LiveNonNegative(db: Database, a: AccountId, side: Side)
    requires RowsWellFormed(db)
    ensures Sum(db.entries, LiveOn(db.txns, a, side)) >= 0
  {
    forall e | e in db.entries ensures LiveOn(db.txns, a, side)(e) >= 0 {
      assert PendingRow(db, e);
    }
    SumNonNegative(db.entries, LiveOn(db.txns, a, side));
  }

  lemma ClosedEmptyKept(db: Database, after: Database, id: TxnId, v: int, c: Change, applied: Applied)
    requires Writes(db, after, id, v, c, applied) && ClosedEmpty(db)
    requires PendingTotals(after) && RowsWellFormed(after)
    ensures ClosedEmpty(after)
  {
    TermsKept(db, after, id, v, c, applied);
    forall a | a in after.accounts && after.accounts[a].status.Closed? ensures Empty(after.accounts[a]) {
      assert MovesSoundly(db.accounts[a], View(db.accounts, applied.changed, a), c, a);
      ClosedUntouched(db, after, id, v, c, applied, a);
      LiveNonNegative(after, a, Debit);
      LiveNonNegative(after, a, Credit);
    }
  }
}
