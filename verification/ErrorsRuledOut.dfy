/** Which errors a balance change can give, and which the integrity of the tables rules out. */
module ErrorsRuledOut {
  import opened Wrappers
  import opened Money
  import opened Kernel
  import opened Sums
  import opened BalanceChange
  import opened BalanceEffects
  import opened Tables
  import opened Preservation
  import opened TableWrites

  // ---- where each error comes from ----

  lemma {:induction false} UnpendErrors(base: Accounts, changed: Accounts, ps: seq<Posting>)
    requires Unpend(base, changed, ps).Err?
    ensures Unpend(base, changed, ps).error in {NotFound, ExceedsPending, Overflow}
    decreases |ps|
  {
    var a := Staged(base, changed, ps[0].account);
    if a.Ok? && UnpendOne(a.value, ps[0]).Ok? {
      UnpendErrors(base, changed[ps[0].account := UnpendOne(a.value, ps[0]).value], ps[1..]);
    }
  }

  lemma {:induction false} RecordAllErrors(base: Accounts, w: Work, ps: seq<Posting>, status: Status)
    requires RecordAll(base, w, ps, status).Err?
    requires w.deferred.Some? ==> w.deferred.value == LockVersion
    ensures RecordAll(base, w, ps, status).error in {NotFound, AccountNotOpen, CrossLedger, Invalid, Overflow}
    decreases |ps|
  {
    if RecordOne(base, w, ps[0], status).Ok? {
      RecordAllErrors(base, RecordOne(base, w, ps[0], status).value, ps[1..], status);
    }
  }

  lemma {:induction false} DeferredOnlyLocks(base: Accounts, w: Work, ps: seq<Posting>, status: Status)
    requires RecordAll(base, w, ps, status).Ok?
    requires w.deferred.Some? ==> w.deferred.value == LockVersion
    ensures var d := RecordAll(base, w, ps, status).value.deferred; d.Some? ==> d.value == LockVersion
    decreases |ps|
  {
    if ps != [] {
      DeferredOnlyLocks(base, RecordOne(base, w, ps[0], status).value, ps[1..], status);
    }
  }

  lemma {:induction false} LockErrors(changed: Accounts, ps: seq<Posting>)
    requires forall p :: p in ps ==> p.account in changed
    requires CheckLocks(changed, ps).Err?
    ensures CheckLocks(changed, ps).error in {Overflow, BalanceLock}
  {
    if BalancesOf(changed[ps[0].account]).Some? && CheckLocks(changed, ps[1..]).Err? {
      LockErrors(changed, ps[1..]);
    }
  }

  /** A change whose entries were never pending in full is the only one to exceed the pending totals. */
  lemma StageErrors(base: Accounts, c: Change)
    requires Stage(base, c).Err?
    ensures Stage(base, c).error !in {InsufficientFunds, SettlementMismatch}
    ensures Stage(base, c).error == ExceedsPending ==> Unpend(base, map[], c.unpend) == Err(ExceedsPending)
    ensures Stage(base, c).error == ExceedsHeld ==>
      c.release.Some? && (c.release.value.account in base ==> c.release.value.amount > base[c.release.value.account].held)
  {
    hide RecordAll;
    hide CheckLocks;
    hide Unpend;
    var unpended := Unpend(base, map[], c.unpend);
    if unpended.Err? {
      UnpendErrors(base, map[], c.unpend);
      return;
    }
    var start := Work(unpended.value, c.ledger, map[], None, []);
    var w := RecordAll(base, start, c.add, c.status);
    if w.Err? {
      RecordAllErrors(base, start, c.add, c.status);
      return;
    }
    DeferredOnlyLocks(base, start, c.add, c.status);
    UnpendKeys(base, map[], c.unpend);
    RecordKeys(base, start, c.add, c.status);
    if ReleaseStaged(base, w.value.changed, c.release).Ok? {
      StageKeys(base, c, unpended.value, w.value, ReleaseStaged(base, w.value.changed, c.release).value);
      LocksOnly(base, c, w.value);
    } else if c.release.value.account in base {
      UnpendEffect(base, map[], c.unpend, c.release.value.account);
      RecordEffect(base, start, c.add, c.status, c.release.value.account);
    }
  }

  lemma LocksOnly(base: Accounts, c: Change, w: Work)
    requires ReleaseStaged(base, w.changed, c.release).Ok?
    requires forall p :: p in w.done ==> p.account in ReleaseStaged(base, w.changed, c.release).value
    ensures var locks := CheckLocks(ReleaseStaged(base, w.changed, c.release).value, w.done);
      locks.Err? ==> locks.error in {Overflow, BalanceLock}
  {
    if CheckLocks(ReleaseStaged(base, w.changed, c.release).value, w.done).Err? {
      LockErrors(ReleaseStaged(base, w.changed, c.release).value, w.done);
    }
  }

  lemma NoMismatch(base: Accounts, c: Change)
    ensures Transition(base, c) != Err(SettlementMismatch)
  {
    if Stage(base, c).Err? {
      StageErrors(base, c);
    }
  }

  // ---- funds that do not go down ----

  /** The change leaves the funds of every account at least as they are. */
  ghost predicate RaisesFunds(base: Accounts, c: Change) {
    forall id :: id in base ==> Funds(Effect(base[id], c, id)) >= Funds(base[id])
  }

  /** An account whose funds do not go down is never short of funds. */
  lemma NoShortage(before: Account, after: Account)
    requires Funds(after) >= Funds(before)
    ensures FundsError(after, before) != Some(InsufficientFunds)
  {
    if Available(after).Some? && Available(before).Some? {
      AvailableIsFunds(after);
      AvailableIsFunds(before);
    }
  }

  lemma RaisingIsFunded(base: Accounts, c: Change)
    requires RaisesFunds(base, c)
    ensures Transition(base, c) != Err(InsufficientFunds)
  {
    if Stage(base, c).Err? {
      StageErrors(base, c);
    } else {
      StagedInBase(base, c);
      var staged := Stage(base, c).value.changed;
      forall id | id in staged ensures Funds(staged[id]) >= Funds(base[id]) {
        StageEffect(base, c, id);
      }
      CommitNeverShort(base, staged);
    }
  }

  lemma CommitNeverShort(base: Accounts, staged: Accounts)
    requires staged.Keys <= base.Keys
    requires forall id :: id in staged ==> Funds(staged[id]) >= Funds(base[id])
    ensures Commit(base, staged) != Err(InsufficientFunds)
  {
    forall id | id in staged ensures FundsError(staged[id], base[id]) != Some(InsufficientFunds) {
      NoShortage(base[id], staged[id]);
    }
  }

  lemma NeverExceedsHeld(base: Accounts, c: Change)
    requires c.release.Some? ==>
      c.release.value.account in base && c.release.value.amount <= base[c.release.value.account].held
    ensures Transition(base, c) != Err(ExceedsHeld)
  {
    if Stage(base, c).Err? {
      StageErrors(base, c);
    }
  }

  /** A change with nothing to take off, and no more to release than is held, exceeds nothing. */
  lemma NothingTakenOff(base: Accounts, c: Change)
    requires c.unpend == []
    requires c.release.Some? ==>
      c.release.value.account in base && c.release.value.amount <= base[c.release.value.account].held
    ensures Transition(base, c).Err? ==> Transition(base, c).error !in {ExceedsPending, ExceedsHeld, SettlementMismatch}
  {
    if Stage(base, c).Err? {
      StageErrors(base, c);
    }
  }

  // ---- pending totals that suffice ----

  function PendingOn(a: Account, side: Side): int {
    if side.Credit? then a.pendingCredits else a.pendingDebits
  }

  /** The pending totals cover the entries, account by account and side by side. */
  ghost predicate Covers(base: Accounts, changed: Accounts, ps: seq<Posting>) {
    && (forall p :: p in ps ==> p.account in base && p.amount > 0)
    && forall id, side :: id in base ==>
      && Fits(PendingOn(View(base, changed, id), side))
      && Sum(ps, OnSide(id, side)) <= PendingOn(View(base, changed, id), side)
  }

  lemma {:induction false} CoveredUnpends(base: Accounts, changed: Accounts, ps: seq<Posting>)
    requires changed.Keys <= base.Keys && Covers(base, changed, ps)
    ensures Unpend(base, changed, ps).Ok?
    decreases |ps|
  {
    if ps != [] {
      var p := ps[0];
      assert p in ps;
      var a := Staged(base, changed, p.account).value;
      forall q | q in ps[1..] ensures q.amount > 0 {
        assert q in ps;
      }
      SumNonNegative(ps[1..], OnSide(p.account, p.side));
      assert Sum(ps, OnSide(p.account, p.side)) <= PendingOn(a, p.side);
      var next := changed[p.account := UnpendOne(a, p).value];
      forall id, side | id in base
        ensures Fits(PendingOn(View(base, next, id), side))
        ensures Sum(ps[1..], OnSide(id, side)) <= PendingOn(View(base, next, id), side)
      {
        assert Sum(ps, OnSide(id, side)) <= PendingOn(View(base, changed, id), side);
        assert Fits(PendingOn(View(base, changed, id), side));
      }
      CoveredUnpends(base, next, ps[1..]);
    }
  }

  /** A pending transaction's entries are within the pending totals of their accounts. */
  lemma PendingEntriesCovered(db: Database, id: TxnId)
    requires MoneyChecks(db, None) && id < |db.txns| && db.txns[id].status.Pending?
    ensures Covers(db.accounts, map[], PostingsOf(db, id))
  {
    var v := db.txns[id].entriesVersion;
    EntriesPositive(db, db.entries, id, v);
    forall a, side | a in db.accounts
      ensures Fits(PendingOn(View(db.accounts, map[], a), side))
      ensures Sum(PostingsOf(db, id), OnSide(a, side)) <= PendingOn(View(db.accounts, map[], a), side)
    {
      SumOfEntries(db.entries, id, v, a, side);
      forall e | e in db.entries ensures EntryOn(id, v, a, side)(e) <= LiveOn(db.txns, a, side)(e) {
        assert PendingRow(db, e);
      }
      SumMonotone(db.entries, EntryOn(id, v, a, side), LiveOn(db.txns, a, side));
      assert Computable(db.accounts[a]);
    }
  }

  /** "exceeds the pending" cannot be reported for a stored pending transaction. */
  lemma NeverExceedsPending(db: Database, id: TxnId, c: Change)
    requires MoneyChecks(db, None) && id < |db.txns| && db.txns[id].status.Pending?
    requires c.unpend == PostingsOf(db, id)
    ensures Transition(db.accounts, c) != Err(ExceedsPending)
  {
    PendingEntriesCovered(db, id);
    CoveredUnpends(db.accounts, map[], c.unpend);
    if Stage(db.accounts, c).Err? {
      StageErrors(db.accounts, c);
    }
  }

  // ---- totals are not negative ----

  lemma TotalsNonNegative(db: Database, a: AccountId)
    requires MoneyChecks(db, None) && a in db.accounts
    ensures var acc := db.accounts[a];
      0 <= acc.postedDebits && 0 <= acc.postedCredits && 0 <= acc.pendingDebits && 0 <= acc.pendingCredits && 0 <= acc.held
  {
    forall r | r in db.postings ensures r.amount > 0 {
      assert JournalRow(db, r);
    }
    SumNonNegative(db.postings, RowOn(a, Debit));
    SumNonNegative(db.postings, RowOn(a, Credit));
    LiveNonNegative(db, a, Debit);
    LiveNonNegative(db, a, Credit);
    SumNonNegative(db.holds, HeldOn(a));
  }
}
