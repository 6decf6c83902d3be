/** What posting and archiving a pending transaction can and cannot do. */
module PendingOutcomes {
  import opened Wrappers
  import opened Money
  import opened Kernel
  import opened Sums
  import opened BalanceChange
  import opened BalanceEffects
  import opened Tables
  import opened Preservation
  import opened TableWrites
  import opened Engine
  import opened PendingTransactions
  import opened ErrorsRuledOut

  // ---- posting in part ----

  function At(limits: map<Slot, int>, k: Slot): int {
    if k in limits then limits[k] else 0
  }

  predicate Bounded(limits: map<Slot, int>) {
    forall k :: k in limits ==> 0 <= limits[k] <= MAX_AMOUNT
  }

  predicate Positive(ps: seq<Posting>) {
    forall p :: p in ps ==> p.amount > 0
  }

  lemma {:induction false} LimitsExact(limits: map<Slot, int>, ps: seq<Posting>)
    requires Bounded(limits) && Positive(ps)
    ensures Limits(limits, ps).Ok? <==> forall k: Slot :: At(limits, k) + Sum(ps, OnSide(k.0, k.1)) <= MAX_AMOUNT
    ensures Limits(limits, ps).Ok? ==>
      && Bounded(Limits(limits, ps).value)
      && forall k: Slot :: At(Limits(limits, ps).value, k) == At(limits, k) + Sum(ps, OnSide(k.0, k.1))
    decreases |ps|
  {
    if ps == [] {
      assert forall k: Slot :: Sum(ps, OnSide(k.0, k.1)) == 0;
    } else {
      var p := ps[0];
      assert p in ps && Positive(ps[1..]);
      var k := SlotOf(p);
      SumNonNegative(ps[1..], OnSide(k.0, k.1));
      if At(limits, k) + p.amount <= MAX_AMOUNT {
        var next := limits[k := At(limits, k) + p.amount];
        LimitsExact(next, ps[1..]);
        forall j: Slot
          ensures At(next, j) + Sum(ps[1..], OnSide(j.0, j.1)) == At(limits, j) + Sum(ps, OnSide(j.0, j.1))
        {
        }
      } else {
        assert At(limits, k) + Sum(ps, OnSide(k.0, k.1)) > MAX_AMOUNT;
      }
    }
  }

  lemma {:induction false} SpendExact(limits: map<Slot, int>, ps: seq<Posting>)
    requires Bounded(limits) && Positive(ps)
    ensures Spend(limits, ps).Ok? <==> forall k: Slot :: Sum(ps, OnSide(k.0, k.1)) <= At(limits, k)
    decreases |ps|
  {
    if ps == [] {
      assert forall k: Slot :: Sum(ps, OnSide(k.0, k.1)) == 0;
    } else {
      var p := ps[0];
      assert p in ps && Positive(ps[1..]);
      var k := SlotOf(p);
      SumNonNegative(ps[1..], OnSide(k.0, k.1));
      if p.amount <= At(limits, k) {
        var next := limits[k := At(limits, k) - p.amount];
        SpendExact(next, ps[1..]);
        forall j: Slot
          ensures At(next, j) - Sum(ps[1..], OnSide(j.0, j.1)) == At(limits, j) - Sum(ps, OnSide(j.0, j.1))
        {
        }
      } else {
        assert Sum(ps, OnSide(k.0, k.1)) > At(limits, k);
      }
    }
  }

  /**
   A part is accepted exactly when, account by account and side by side, it posts no more than was pending
   (and the pending sums are computable at all).
   */
  lemma CheckPartialExact(pending: seq<Posting>, posted: seq<Posting>)
    requires Positive(pending) && Positive(posted)
    ensures CheckPartial(pending, posted).Ok? <==>
      && (forall id, side :: Sum(pending, OnSide(id, side)) <= MAX_AMOUNT)
      && (forall id, side :: Sum(posted, OnSide(id, side)) <= Sum(pending, OnSide(id, side)))
  {
    LimitsExact(map[], pending);
    assert (forall k: Slot :: At(map[], k) + Sum(pending, OnSide(k.0, k.1)) <= MAX_AMOUNT)
      <==> (forall id, side :: Sum(pending, OnSide(id, side)) <= MAX_AMOUNT) by {
      PairwiseBound(pending);
    }
    if Limits(map[], pending).Ok? {
      var limits := Limits(map[], pending).value;
      SpendExact(limits, posted);
      PairwiseCover(limits, pending, posted);
    }
  }

  lemma PairwiseBound(ps: seq<Posting>)
    ensures (forall k: Slot :: At(map[], k) + Sum(ps, OnSide(k.0, k.1)) <= MAX_AMOUNT)
       <==> (forall id, side :: Sum(ps, OnSide(id, side)) <= MAX_AMOUNT)
  {
    if forall k: Slot :: At(map[], k) + Sum(ps, OnSide(k.0, k.1)) <= MAX_AMOUNT {
      forall id, side ensures Sum(ps, OnSide(id, side)) <= MAX_AMOUNT {
        var k: Slot := (id, side);
        assert At(map[], k) + Sum(ps, OnSide(k.0, k.1)) <= MAX_AMOUNT;
      }
    }
  }

  lemma PairwiseCover(limits: map<Slot, int>, pending: seq<Posting>, posted: seq<Posting>)
    requires forall k: Slot :: At(limits, k) == At(map[], k) + Sum(pending, OnSide(k.0, k.1))
    ensures (forall k: Slot :: Sum(posted, OnSide(k.0, k.1)) <= At(limits, k))
       <==> (forall id, side :: Sum(posted, OnSide(id, side)) <= Sum(pending, OnSide(id, side)))
  {
    if forall k: Slot :: Sum(posted, OnSide(k.0, k.1)) <= At(limits, k) {
      forall id, side ensures Sum(posted, OnSide(id, side)) <= Sum(pending, OnSide(id, side)) {
        var k: Slot := (id, side);
        assert Sum(posted, OnSide(k.0, k.1)) <= At(limits, k);
      }
    }
  }

  // ---- funds ----

  /** Every account of the tables has at least the funds it had. */
  ghost predicate FundsNotLowered(before: Accounts, after: Accounts) {
    forall a :: a in before ==> a in after && Funds(after[a]) >= Funds(before[a])
  }

  /** Posting no more than was pending, side by side, lowers no account's funds. */
  lemma PostingPartRaises(base: Accounts, c: Change)
    requires !c.status.Pending? && c.release.None? && Positive(c.add)
    requires forall id, side :: Sum(c.add, OnSide(id, side)) <= Sum(c.unpend, OnSide(id, side))
    ensures RaisesFunds(base, c)
  {
    forall id | id in base ensures Funds(Effect(base[id], c, id)) >= Funds(base[id]) {
      SumNonNegative(c.add, OnSide(id, base[id].normalSide));
      assert Sum(c.add, OnSide(id, base[id].normalSide.Opposite())) <= Sum(c.unpend, OnSide(id, base[id].normalSide.Opposite()));
    }
  }

  lemma RaisedWhenAccepted(base: Accounts, c: Change)
    requires Transition(base, c).Ok? && RaisesFunds(base, c)
    ensures FundsNotLowered(base, base + Transition(base, c).value.changed)
  {
    TransitionEffect(base, c);
    var changed := Transition(base, c).value.changed;
    forall a | a in base ensures Funds((base + changed)[a]) >= Funds(base[a]) {
      if a in changed {
        VersionFree(Effect(base[a], c, a), base[a].version + 1);
      }
    }
  }

  /**
   Posting a pending transaction, in full or in any part that is accepted, lowers no account's available
   balance, so it is never refused for want of funds; nor can it exceed what is pending.
   */
  lemma PostPendingKeepsFunds(db: Database, id: TxnId, postings: seq<Posting>)
    requires Sound(db)
    ensures var (after, r) := PostPending(db, id, postings);
      && FundsNotLowered(db.accounts, after.accounts)
      && r != Err(InsufficientFunds) && r != Err(ExceedsPending)
  {
    hide TrialBalance;
    hide PostedTotals;
    hide PendingTotals;
    hide HeldFunds;
    hide SettlementsNet;
    hide RunningBalance;
    hide RowsWellFormed;
    hide ClosedEmpty;
    if id < |db.txns| && db.txns[id].status.Pending? && (postings == [] || ValidEntries(postings)) {
      PendingEntriesPositive(db, id);
      var current := PostingsOf(db, id);
      if postings == [] || CheckPartial(current, postings).Ok? {
        var posted := if postings == [] then current else postings;
        if postings != [] {
          CheckPartialExact(current, postings);
        }
        PostedKeepsFunds(db, id, posted);
      } else {
        PartialErrors(current, postings);
      }
    }
  }

  lemma PostedKeepsFunds(db: Database, id: TxnId, posted: seq<Posting>)
    requires MoneyChecks(db, None) && id < |db.txns| && db.txns[id].status.Pending? && Positive(posted)
    requires forall a, side :: Sum(posted, OnSide(a, side)) <= Sum(PostingsOf(db, id), OnSide(a, side))
    ensures var t := Transition(db.accounts, EntryChange(db, id, posted, Posted));
      && t != Err(InsufficientFunds) && t != Err(ExceedsPending)
      && (t.Ok? ==> FundsNotLowered(db.accounts, db.accounts + t.value.changed))
  {
    var c := EntryChange(db, id, posted, Posted);
    PostingPartRaises(db.accounts, c);
    RaisingIsFunded(db.accounts, c);
    NeverExceedsPending(db, id, c);
    if Transition(db.accounts, c).Ok? {
      RaisedWhenAccepted(db.accounts, c);
    }
  }

  lemma PartialErrors(pending: seq<Posting>, posted: seq<Posting>)
    requires CheckPartial(pending, posted).Err?
    ensures CheckPartial(pending, posted).error in {Invalid, Overflow}
  {
    if Limits(map[], pending).Err? {
      LimitsErrors(map[], pending);
    } else {
      SpendErrors(Limits(map[], pending).value, posted);
    }
  }

  lemma {:induction false} LimitsErrors(limits: map<Slot, int>, ps: seq<Posting>)
    ensures Limits(limits, ps).Err? ==> Limits(limits, ps).error == Overflow
    decreases |ps|
  {
    if ps != [] && Add(At(limits, SlotOf(ps[0])), ps[0].amount).Some? {
      LimitsErrors(limits[SlotOf(ps[0]) := Add(At(limits, SlotOf(ps[0])), ps[0].amount).value], ps[1..]);
    }
  }

  lemma {:induction false} SpendErrors(limits: map<Slot, int>, ps: seq<Posting>)
    ensures Spend(limits, ps).Err? ==> Spend(limits, ps).error in {Invalid, Overflow}
    decreases |ps|
  {
    if ps != [] && SlotOf(ps[0]) in limits && Sub(limits[SlotOf(ps[0])], ps[0].amount).Some? {
      SpendErrors(limits[SlotOf(ps[0]) := Sub(limits[SlotOf(ps[0])], ps[0].amount).value], ps[1..]);
    }
  }

  // ---- archiving cannot fail ----

  /** Taking pending amounts off an account keeps its funds computable. */
  lemma UnpendedComputable(a: Account, ps: seq<Posting>, id: AccountId)
    requires Computable(a) && Positive(ps)
    requires 0 <= a.postedDebits && 0 <= a.postedCredits && 0 <= a.held
    requires forall side :: Sum(ps, OnSide(id, side)) <= PendingOn(a, side)
    ensures FundsError(Unpended(a, ps, id), a).None?
  {
    SumNonNegative(ps, OnSide(id, Debit));
    SumNonNegative(ps, OnSide(id, Credit));
    assert Sum(ps, OnSide(id, Debit)) <= PendingOn(a, Debit);
    assert Sum(ps, OnSide(id, Credit)) <= PendingOn(a, Credit);
    assert Funds(Unpended(a, ps, id)) >= Funds(a);
  }

  /** Archiving a stored pending transaction is always accepted, and gives back exactly the pending amounts. */
  lemma ArchivingAccepted(db: Database, id: TxnId)
    requires MoneyChecks(db, None) && id < |db.txns| && db.txns[id].status.Pending?
    ensures Transition(db.accounts, EntryChange(db, id, [], Archived)).Ok?
  {
    var c, base := EntryChange(db, id, [], Archived), db.accounts;
    PendingEntriesCovered(db, id);
    CoveredUnpends(base, map[], c.unpend);
    var unpended := Unpend(base, map[], c.unpend).value;
    UnpendKeys(base, map[], c.unpend);
    assert Stage(base, c) == Ok(Work(unpended, c.ledger, map[], None, []));
    forall a | a in unpended ensures FundsError(unpended[a], base[a]).None? {
      UnpendEffect(base, map[], c.unpend, a);
      TotalsNonNegative(db, a);
      forall side ensures Sum(c.unpend, OnSide(a, side)) <= PendingOn(base[a], side) {
        assert Sum(c.unpend, OnSide(a, side)) <= PendingOn(View(base, map[], a), side);
      }
      assert Computable(base[a]);
      UnpendedComputable(base[a], c.unpend, a);
    }
  }

  /** Archiving a transaction that is not posted always succeeds and lowers no account's available balance. */
  lemma ArchiveSucceeds(db: Database, id: TxnId)
    requires Sound(db) && id < |db.txns|
    ensures var (after, r) := ArchiveTransaction(db, id);
      && (r.Ok? <==> !db.txns[id].status.Posted?)
      && FundsNotLowered(db.accounts, after.accounts)
  {
    hide Transition;
    if db.txns[id].status.Pending? {
      var c := EntryChange(db, id, [], Archived);
      ArchivingAccepted(db, id);
      PendingEntriesPositive(db, id);
      forall a: AccountId, side: Side ensures Sum([], OnSide(a, side)) <= Sum(c.unpend, OnSide(a, side)) {
        SumNonNegative(c.unpend, OnSide(a, side));
      }
      PostingPartRaises(db.accounts, c);
      RaisedWhenAccepted(db.accounts, c);
    }
  }
}
