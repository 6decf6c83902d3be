/** Exactly which balance changes are accepted, and which are refused for want of funds. */
module Acceptance {
  import opened Wrappers
  import opened Money
  import opened Kernel
  import opened Sums
  import opened BalanceChange
  import opened BalanceEffects
  import opened Tables
  import opened ErrorsRuledOut
  import opened LockOutcomes

  // ---- funds ----

  /** Totals within bounds and not below zero, as those of every account in sound tables are. */
  predicate Ordinary(a: Account) {
    && 0 <= a.postedDebits <= MAX_AMOUNT && 0 <= a.postedCredits <= MAX_AMOUNT
    && 0 <= a.pendingDebits <= MAX_AMOUNT && 0 <= a.pendingCredits <= MAX_AMOUNT
    && 0 <= a.held <= MAX_AMOUNT && 0 <= a.overdraftLimit
  }

  /** What leaves the account, in all, is an amount. */
  predicate Countable(a: Account) {
    Outflow(a) + PendingOutflow(a) + a.held <= MAX_AMOUNT
  }

  /** The account may not go negative, goes down, and ends below its overdraft limit. */
  predicate Short(before: Account, after: Account) {
    !before.allowNegative && Funds(after) < Funds(before) && Funds(after) + before.overdraftLimit < 0
  }

  /** A fall that must be compared with the overdraft limit leaves a sum that is an amount. */
  predicate Comparable(before: Account, after: Account) {
    !before.allowNegative && Funds(after) < Funds(before) ==> Funds(after) + before.overdraftLimit <= MAX_AMOUNT
  }

  predicate Affords(before: Account, after: Account) {
    Countable(before) && Countable(after) && Comparable(before, after) && !Short(before, after)
  }

  lemma AvailableExact(a: Account)
    requires Ordinary(a)
    ensures Available(a) == if Countable(a) then Some(Funds(a)) else None
  {
  }

  lemma FundsExact(before: Account, after: Account)
    requires Ordinary(before) && Ordinary(after)
    requires after.allowNegative == before.allowNegative && after.overdraftLimit == before.overdraftLimit
    ensures FundsError(after, before).None? <==> Affords(before, after)
    ensures FundsError(after, before) == Some(InsufficientFunds) <==>
      Countable(before) && Countable(after) && Short(before, after)
    ensures FundsError(after, before).Some? ==> FundsError(after, before).value in {InsufficientFunds, Overflow}
  {
    AvailableExact(before);
    AvailableExact(after);
  }

  // ---- what can be taken off ----

  ghost predicate AllOrdinary(base: Accounts) {
    forall id :: id in base ==> Ordinary(base[id])
  }

  predicate Positives(ps: seq<Posting>) {
    forall p :: p in ps ==> p.amount > 0
  }

  /** The pending totals cover what is taken off them. */
  ghost predicate Covered(base: Accounts, ps: seq<Posting>) {
    && AccountsOf(ps) <= base.Keys
    && forall id, side :: id in base ==> Sum(ps, OnSide(id, side)) <= PendingOn(base[id], side)
  }

  lemma {:induction false} UnpendLeaves(base: Accounts, changed: Accounts, ps: seq<Posting>)
    requires Unpend(base, changed, ps).Ok? && changed.Keys <= base.Keys
    requires forall id, side :: id in base ==> PendingOn(View(base, changed, id), side) >= 0
    ensures forall id, side :: id in base ==> PendingOn(View(base, Unpend(base, changed, ps).value, id), side) >= 0
    decreases |ps|
  {
    if ps != [] {
      var a := Staged(base, changed, ps[0].account).value;
      var next := changed[ps[0].account := UnpendOne(a, ps[0]).value];
      forall id, side | id in base ensures PendingOn(View(base, next, id), side) >= 0 {
        assert PendingOn(View(base, changed, id), side) >= 0;
      }
      UnpendLeaves(base, next, ps[1..]);
    }
  }

  lemma UnpendExact(base: Accounts, ps: seq<Posting>)
    requires AllOrdinary(base) && Positives(ps)
    ensures Unpend(base, map[], ps).Ok? <==> Covered(base, ps)
  {
    if Unpend(base, map[], ps).Ok? {
      UnpendKeys(base, map[], ps);
      UnpendLeaves(base, map[], ps);
      forall id, side | id in base ensures Sum(ps, OnSide(id, side)) <= PendingOn(base[id], side) {
        UnpendEffect(base, map[], ps, id);
        assert PendingOn(View(base, Unpend(base, map[], ps).value, id), side) >= 0;
      }
    }
    if Covered(base, ps) {
      forall p | p in ps ensures p.account in base {
        assert p.account in AccountsOf(ps);
      }
      CoveredUnpends(base, map[], ps);
    }
  }

  // ---- what can be recorded ----

  predicate TotalsOrdinary(a: Account) {
    && 0 <= a.postedDebits <= MAX_AMOUNT && 0 <= a.postedCredits <= MAX_AMOUNT
    && 0 <= a.pendingDebits <= MAX_AMOUNT && 0 <= a.pendingCredits <= MAX_AMOUNT
  }

  /** An entry is on a known, open account of the ledger, in that account's currency. */
  predicate Fitting(base: Accounts, ledger: Option<LedgerId>, p: Posting) {
    && p.account in base && base[p.account].status.Open?
    && (ledger.Some? ==> ledger.value == base[p.account].ledger)
    && (p.currency.Some? ==> p.currency.value == base[p.account].currency)
  }

  /** All accounts of the entries are in one ledger: the given one, if one is given. */
  ghost predicate OneLedger(base: Accounts, ledger: Option<LedgerId>, ps: seq<Posting>) {
    && (forall p :: p in ps ==> Fitting(base, ledger, p))
    && (forall p, q :: p in ps && q in ps ==> base[p.account].ledger == base[q.account].ledger)
  }

  /** The running totals of each currency, entry by entry, are amounts. */
  ghost predicate RunningFits(base: Accounts, totals: map<Currency, int>, ps: seq<Posting>) {
    forall k: nat, cur :: k <= |ps| ==> Fits(RunningAt(base, totals, ps, k, cur))
  }

  function RunningAt(base: Accounts, totals: map<Currency, int>, ps: seq<Posting>, k: nat, cur: Currency): int
    requires k <= |ps|
  {
    TotalOf(totals, cur) + Sum(ps[..k], InCurrency(base, cur))
  }

  ghost predicate Recordable(base: Accounts, w: Work, ps: seq<Posting>, status: Status) {
    && OneLedger(base, w.ledger, ps)
    && RunningFits(base, w.totals, ps)
    && forall id :: id in base ==> TotalsOrdinary(Recorded(View(base, w.changed, id), ps, id, status))
  }

  ghost predicate WorkOrdinary(base: Accounts, w: Work) {
    && Faithful(base, w.changed)
    && (forall cur :: Fits(TotalOf(w.totals, cur)))
    && forall id :: id in base ==> TotalsOrdinary(View(base, w.changed, id))
  }

  /** Recording one entry, as sums over that entry alone. */
  lemma RecordedOne(a: Account, p: Posting, id: AccountId, status: Status)
    ensures Recorded(a, [p], id, status) ==
      (if p.account != id then a
       else match (status, p.side)
         case (Pending, Debit) => a.(pendingDebits := a.pendingDebits + p.amount)
         case (Pending, Credit) => a.(pendingCredits := a.pendingCredits + p.amount)
         case (_, Debit) => a.(postedDebits := a.postedDebits + p.amount)
         case (_, Credit) => a.(postedCredits := a.postedCredits + p.amount))
  {
    SumOfOne(p, OnSide(id, Debit));
    SumOfOne(p, OnSide(id, Credit));
  }

  lemma RecordExactly(a: Account, p: Posting, status: Status)
    requires TotalsOrdinary(a) && p.amount > 0
    ensures Record(a, p, status).Ok? <==> TotalsOrdinary(Recorded(a, [p], p.account, status))
    ensures Record(a, p, status).Ok? ==> Record(a, p, status).value.0 == Recorded(a, [p], p.account, status)
  {
    RecordedOne(a, p, p.account, status);
  }

  lemma RecordOneExact(base: Accounts, w: Work, p: Posting, status: Status)
    requires WorkOrdinary(base, w) && p.amount > 0
    ensures RecordOne(base, w, p, status).Ok? <==>
      && Fitting(base, w.ledger, p)
      && Fits(TotalOf(w.totals, base[p.account].currency) + p.Signed())
      && TotalsOrdinary(Recorded(View(base, w.changed, p.account), [p], p.account, status))
    ensures RecordOne(base, w, p, status).Ok? ==>
      var w' := RecordOne(base, w, p, status).value;
      && w'.ledger == Some(base[p.account].ledger)
      && w'.changed == w.changed[p.account := Recorded(View(base, w.changed, p.account), [p], p.account, status)]
      && w'.totals == w.totals[base[p.account].currency := TotalOf(w.totals, base[p.account].currency) + p.Signed()]
  {
    hide Record;
    hide Recorded;
    if p.account in base {
      var a := View(base, w.changed, p.account);
      var p' := p.(currency := Some(a.currency));
      assert Staged(base, w.changed, p.account) == Ok(a) && TotalsOrdinary(a);
      RecordExactly(a, p', status);
      RecordedAlike(a, p, p', status);
    }
  }

  lemma RecordedAlike(a: Account, p: Posting, q: Posting, status: Status)
    requires q == p.(currency := q.currency)
    ensures Recorded(a, [q], q.account, status) == Recorded(a, [p], p.account, status)
  {
    RecordedOne(a, p, p.account, status);
    RecordedOne(a, q, q.account, status);
  }

  lemma WorkStaysOrdinary(base: Accounts, w: Work, p: Posting, status: Status)
    requires WorkOrdinary(base, w) && p.amount > 0 && RecordOne(base, w, p, status).Ok?
    ensures var w' := RecordOne(base, w, p, status).value;
      && WorkOrdinary(base, w')
      && (forall cur :: TotalOf(w'.totals, cur) == TotalOf(w.totals, cur) + InCurrency(base, cur)(p))
      && (forall id :: id in base ==> View(base, w'.changed, id) == Recorded(View(base, w.changed, id), [p], id, status))
  {
    hide RecordOne;
    RecordOneExact(base, w, p, status);
    var w' := RecordOne(base, w, p, status).value;
    forall id | id in base ensures View(base, w'.changed, id) == Recorded(View(base, w.changed, id), [p], id, status) {
      RecordedOne(View(base, w.changed, id), p, id, status);
    }
    var a := View(base, w.changed, p.account);
    RecordedOne(a, p, p.account, status);
    forall id | id in base ensures TotalsOrdinary(View(base, w'.changed, id)) {
      assert TotalsOrdinary(View(base, w.changed, id));
    }
    forall id | id in w'.changed
      ensures id in base && w'.changed[id].status == base[id].status && w'.changed[id].ledger == base[id].ledger
      ensures w'.changed[id].currency == base[id].currency
    {
      assert id != p.account ==> id in w.changed;
    }
    forall cur ensures Fits(TotalOf(w'.totals, cur)) {
      assert Fits(TotalOf(w.totals, cur));
    }
  }

  lemma RecordedSplits(a: Account, p: Posting, ps: seq<Posting>, id: AccountId, status: Status)
    ensures Recorded(Recorded(a, [p], id, status), ps, id, status) == Recorded(a, [p] + ps, id, status)
  {
    forall side ensures Sum([p] + ps, OnSide(id, side)) == Sum([p], OnSide(id, side)) + Sum(ps, OnSide(id, side)) {
      SumAppend([p], ps, OnSide(id, side));
    }
  }

  lemma RunningSplits(base: Accounts, totals: map<Currency, int>, next: map<Currency, int>, p: Posting, ps: seq<Posting>)
    requires forall cur :: TotalOf(next, cur) == TotalOf(totals, cur) + InCurrency(base, cur)(p)
    requires forall cur :: Fits(TotalOf(totals, cur))
    ensures RunningFits(base, totals, [p] + ps) <==> RunningFits(base, next, ps)
  {
    var all := [p] + ps;
    forall k: nat, cur | k <= |ps| ensures RunningAt(base, totals, all, k + 1, cur) == RunningAt(base, next, ps, k, cur) {
      assert all[..k + 1] == [p] + ps[..k];
      SumAppend([p], ps[..k], InCurrency(base, cur));
      SumOfOne(p, InCurrency(base, cur));
    }
    if RunningFits(base, totals, all) {
      forall k: nat, cur | k <= |ps| ensures Fits(RunningAt(base, next, ps, k, cur)) {
        assert Fits(RunningAt(base, totals, all, k + 1, cur));
      }
    }
    if RunningFits(base, next, ps) {
      forall k: nat, cur | k <= |all| ensures Fits(RunningAt(base, totals, all, k, cur)) {
        if k > 0 {
          assert Fits(RunningAt(base, next, ps, k - 1, cur));
        }
      }
    }
  }

  lemma {:induction false} RecordExact(base: Accounts, w: Work, ps: seq<Posting>, status: Status)
    requires WorkOrdinary(base, w) && Positives(ps)
    ensures RecordAll(base, w, ps, status).Ok? <==> Recordable(base, w, ps, status)
    decreases |ps|
  {
    hide RecordOne;
    hide Recorded;
    if ps == [] {
      assert forall cur :: RunningAt(base, w.totals, ps, 0, cur) == TotalOf(w.totals, cur);
      forall id | id in base ensures Recorded(View(base, w.changed, id), ps, id, status) == View(base, w.changed, id) {
        RecordedNone(View(base, w.changed, id), id, status);
      }
    } else {
      var p, rest := ps[0], ps[1..];
      assert p in ps && ps == [p] + rest;
      if RecordOne(base, w, p, status).Ok? {
        var next := RecordOne(base, w, p, status).value;
        WorkStaysOrdinary(base, w, p, status);
        RecordOneExact(base, w, p, status);
        RecordExact(base, next, rest, status);
        RecordableSplits(base, w, p, next, rest, status);
      } else if Recordable(base, w, ps, status) {
        RecordableFirst(base, w, ps, status);
        RecordOneExact(base, w, p, status);
      }
    }
  }

  lemma RecordedNone(a: Account, id: AccountId, status: Status)
    ensures Recorded(a, [], id, status) == a
  {
  }

  lemma RecordableSplits(base: Accounts, w: Work, p: Posting, next: Work, rest: seq<Posting>, status: Status)
    requires WorkOrdinary(base, w) && Fitting(base, w.ledger, p) && next.ledger == Some(base[p.account].ledger)
    requires forall cur :: TotalOf(next.totals, cur) == TotalOf(w.totals, cur) + InCurrency(base, cur)(p)
    requires forall id :: id in base ==> View(base, next.changed, id) == Recorded(View(base, w.changed, id), [p], id, status)
    ensures Recordable(base, next, rest, status) <==> Recordable(base, w, [p] + rest, status)
  {
    hide Recorded;
    hide TotalsOrdinary;
    RunningSplits(base, w.totals, next.totals, p, rest);
    forall id | id in base
      ensures Recorded(View(base, next.changed, id), rest, id, status) == Recorded(View(base, w.changed, id), [p] + rest, id, status)
    {
      RecordedSplits(View(base, w.changed, id), p, rest, id, status);
    }
    OneLedgerSplits(base, w.ledger, next.ledger, p, rest);
  }

  lemma OneLedgerSplits(base: Accounts, ledger: Option<LedgerId>, next: Option<LedgerId>, p: Posting, rest: seq<Posting>)
    requires Fitting(base, ledger, p) && next == Some(base[p.account].ledger)
    ensures OneLedger(base, next, rest) <==> OneLedger(base, ledger, [p] + rest)
  {
    var all := [p] + rest;
    assert forall q :: q in all <==> q == p || q in rest;
    if OneLedger(base, ledger, all) {
      assert p in all;
      forall q | q in rest ensures Fitting(base, next, q) {
        assert q in all;
      }
    }
    if OneLedger(base, next, rest) {
      forall q | q in all ensures Fitting(base, ledger, q) && base[q.account].ledger == base[p.account].ledger {
        assert q == p || Fitting(base, next, q);
      }
    }
  }

  lemma RecordableFirst(base: Accounts, w: Work, ps: seq<Posting>, status: Status)
    requires WorkOrdinary(base, w) && Positives(ps) && ps != [] && Recordable(base, w, ps, status)
    ensures Fitting(base, w.ledger, ps[0])
    ensures Fits(TotalOf(w.totals, base[ps[0].account].currency) + ps[0].Signed())
    ensures TotalsOrdinary(Recorded(View(base, w.changed, ps[0].account), [ps[0]], ps[0].account, status))
  {
    var p := ps[0];
    assert p in ps && ps[..1] == [p] && ps == [p] + ps[1..];
    var cur := base[p.account].currency;
    assert Fits(RunningAt(base, w.totals, ps, 1, cur));
    SumOfOne(p, InCurrency(base, cur));
    FirstOrdinary(View(base, w.changed, p.account), p, ps[1..], status);
  }

  /** Entries only add to the totals, so if all of them leave ordinary totals, the first alone does. */
  lemma FirstOrdinary(a: Account, p: Posting, rest: seq<Posting>, status: Status)
    requires TotalsOrdinary(a) && p.amount > 0 && Positives(rest)
    requires TotalsOrdinary(Recorded(a, [p] + rest, p.account, status))
    ensures TotalsOrdinary(Recorded(a, [p], p.account, status))
  {
    RecordedSplits(a, p, rest, p.account, status);
    RecordedOne(a, p, p.account, status);
    SumNonNegative(rest, OnSide(p.account, Debit));
    SumNonNegative(rest, OnSide(p.account, Credit));
  }

  // ---- locks ----

  lemma {:induction false} LocksExact(changed: Accounts, ps: seq<Posting>)
    requires forall p :: p in ps ==> p.account in changed
    ensures CheckLocks(changed, ps).Ok? <==>
      forall p :: p in ps ==> BalancesOf(changed[p.account]).Some? && p.LocksHold(BalancesOf(changed[p.account]).value)
  {
    hide BalancesOf;
    if ps != [] {
      LocksExact(changed, ps[1..]);
      assert ps[0] in ps && forall p :: p in ps <==> p == ps[0] || p in ps[1..];
    }
  }

  // ---- what is accepted ----

  predicate Positive(c: Change) {
    Positives(c.unpend) && Positives(c.add) && (c.release.Some? ==> c.release.value.amount > 0)
  }

  /** Everything asked of a change but the funds. */
  ghost predicate Acceptable(base: Accounts, c: Change) {
    && Touched(c) <= base.Keys
    && Covered(base, c.unpend)
    && OneLedger(base, c.ledger, c.add)
    && (forall cur :: Sum(c.add, InCurrency(base, cur)) == 0)
    && RunningFits(base, map[], c.add)
    && (forall id :: id in base ==> TotalsOrdinary(Effect(base[id], c, id)))
    && (c.release.Some? ==> c.release.value.amount <= base[c.release.value.account].held)
    && (forall p :: p in c.add ==> VersionHolds(base, p) && BalanceLocksHold(base, c, p))
  }

  lemma UnpendedOrdinary(base: Accounts, c: Change, unpended: Accounts)
    requires AllOrdinary(base) && Positives(c.unpend) && Unpend(base, map[], c.unpend) == Ok(unpended)
    ensures unpended.Keys <= base.Keys
    ensures WorkOrdinary(base, Work(unpended, c.ledger, map[], None, []))
    ensures forall id :: id in base ==> View(base, unpended, id) == Unpended(base[id], c.unpend, id)
  {
    UnpendKeys(base, map[], c.unpend);
    UnpendFaithful(base, map[], c.unpend);
    UnpendExact(base, c.unpend);
    forall id | id in base
      ensures View(base, unpended, id) == Unpended(base[id], c.unpend, id) && TotalsOrdinary(View(base, unpended, id))
    {
      UnpendEffect(base, map[], c.unpend, id);
      SumNonNegative(c.unpend, OnSide(id, Debit));
      SumNonNegative(c.unpend, OnSide(id, Credit));
      assert Sum(c.unpend, OnSide(id, Debit)) <= PendingOn(base[id], Debit);
      assert Sum(c.unpend, OnSide(id, Credit)) <= PendingOn(base[id], Credit);
    }
  }

  /** The totals that recording leaves are those the whole change leaves. */
  lemma RecordableIsEffect(base: Accounts, c: Change, unpended: Accounts)
    requires AllOrdinary(base) && Positives(c.unpend) && Unpend(base, map[], c.unpend) == Ok(unpended)
    ensures Recordable(base, Work(unpended, c.ledger, map[], None, []), c.add, c.status) <==>
      && OneLedger(base, c.ledger, c.add) && RunningFits(base, map[], c.add)
      && forall id :: id in base ==> TotalsOrdinary(Effect(base[id], c, id))
  {
    UnpendedOrdinary(base, c, unpended);
    forall id | id in base
      ensures TotalsOrdinary(Recorded(View(base, unpended, id), c.add, id, c.status)) == TotalsOrdinary(Effect(base[id], c, id))
    {
    }
  }

  lemma ReleaseExact(base: Accounts, c: Change, unpended: Accounts, w: Work)
    requires AllOrdinary(base) && Positive(c) && Unpend(base, map[], c.unpend) == Ok(unpended)
    requires RecordAll(base, Work(unpended, c.ledger, map[], None, []), c.add, c.status) == Ok(w)
    ensures ReleaseStaged(base, w.changed, c.release).Ok? <==>
      (c.release.Some? ==> c.release.value.account in base && c.release.value.amount <= base[c.release.value.account].held)
  {
    hide Unpend;
    hide RecordAll;
    UnpendKeys(base, map[], c.unpend);
    RecordKeys(base, Work(unpended, c.ledger, map[], None, []), c.add, c.status);
    if c.release.Some? && c.release.value.account in base {
      var id := c.release.value.account;
      UnpendEffect(base, map[], c.unpend, id);
      RecordEffect(base, Work(unpended, c.ledger, map[], None, []), c.add, c.status, id);
      assert View(base, w.changed, id).held == base[id].held;
    }
  }

  lemma TotalsExact(base: Accounts, c: Change, unpended: Accounts, w: Work)
    requires Unpend(base, map[], c.unpend) == Ok(unpended)
    requires RecordAll(base, Work(unpended, c.ledger, map[], None, []), c.add, c.status) == Ok(w)
    ensures BalancedTotals(w.totals) <==> forall cur :: Sum(c.add, InCurrency(base, cur)) == 0
  {
    UnpendFaithful(base, map[], c.unpend);
    RecordAdmits(base, Work(unpended, c.ledger, map[], None, []), c.add, c.status);
    assert forall cur :: TotalOf(w.totals, cur) == Sum(c.add, InCurrency(base, cur));
    if forall cur :: Sum(c.add, InCurrency(base, cur)) == 0 {
      forall cur | cur in w.totals ensures w.totals[cur] == 0 {
        assert TotalOf(w.totals, cur) == Sum(c.add, InCurrency(base, cur));
      }
    }
  }

  lemma CheckedLocks(base: Accounts, c: Change, unpended: Accounts, w: Work, changed: Accounts)
    requires Unpend(base, map[], c.unpend) == Ok(unpended)
    requires RecordAll(base, Work(unpended, c.ledger, map[], None, []), c.add, c.status) == Ok(w)
    requires ReleaseStaged(base, w.changed, c.release) == Ok(changed) && changed.Keys <= base.Keys
    requires forall p :: p in w.done ==> p.account in changed
    ensures w.deferred.None? && CheckLocks(changed, w.done).Ok? <==>
      forall p :: p in c.add ==> VersionHolds(base, p) && BalanceLocksHold(base, c, p)
  {
    hide BalancesOf;
    hide Effect;
    hide Unpend;
    hide RecordAll;
    hide CheckLocks;
    hide ReleaseStaged;
    var start := Work(unpended, c.ledger, map[], None, []);
    DeferredExact(base, start, c.add, c.status);
    LocksExact(changed, w.done);
    RecordKeepsLocks(base, start, c.add, c.status);
    forall k | 0 <= k < |c.add|
      ensures |w.done| == |c.add| && c.add[k].account in changed && SameLocks(w.done[k], c.add[k])
      ensures changed[c.add[k].account] == Effect(base[c.add[k].account], c, c.add[k].account)
    {
      RecordedLock(base, c, unpended, w, changed, k);
    }
    if forall p :: p in w.done ==> BalancesOf(changed[p.account]).Some? && p.LocksHold(BalancesOf(changed[p.account]).value) {
      forall p | p in c.add ensures BalanceLocksHold(base, c, p) {
        var k :| 0 <= k < |c.add| && c.add[k] == p;
        assert w.done[k] in w.done;
      }
    }
    if forall p :: p in c.add ==> BalanceLocksHold(base, c, p) {
      forall q | q in w.done ensures BalancesOf(changed[q.account]).Some? && q.LocksHold(BalancesOf(changed[q.account]).value) {
        var k :| 0 <= k < |w.done| && w.done[k] == q;
        assert c.add[k] in c.add && BalanceLocksHold(base, c, c.add[k]);
      }
    }
  }

  lemma StageExact(base: Accounts, c: Change)
    requires AllOrdinary(base) && Positive(c)
    ensures Stage(base, c).Ok? <==> Acceptable(base, c)
  {
    hide Unpend;
    hide RecordAll;
    hide CheckLocks;
    hide Effect;
    hide Recordable;
    hide BalanceLocksHold;
    hide VersionHolds;
    UnpendExact(base, c.unpend);
    if Unpend(base, map[], c.unpend).Ok? {
      var unpended := Unpend(base, map[], c.unpend).value;
      var start := Work(unpended, c.ledger, map[], None, []);
      UnpendedOrdinary(base, c, unpended);
      RecordExact(base, start, c.add, c.status);
      RecordableIsEffect(base, c, unpended);
      if RecordAll(base, start, c.add, c.status).Ok? {
        var w := RecordAll(base, start, c.add, c.status).value;
        TotalsExact(base, c, unpended, w);
        ReleaseExact(base, c, unpended, w);
        if ReleaseStaged(base, w.changed, c.release).Ok? {
          var changed := ReleaseStaged(base, w.changed, c.release).value;
          StageKeys(base, c, unpended, w, changed);
          CheckedLocks(base, c, unpended, w, changed);
        }
      }
    }
  }

  lemma EffectOrdinary(base: Accounts, c: Change, id: AccountId)
    requires AllOrdinary(base) && Positive(c) && Acceptable(base, c) && id in base
    ensures Ordinary(Effect(base[id], c, id))
  {
    assert TotalsOrdinary(Effect(base[id], c, id));
  }

  /**
   A change is accepted exactly if it is acceptable and every account it touches can afford it; one that is
   acceptable is refused for want of funds exactly if one of them, which may not go negative, goes down to below its
   overdraft limit, and all sums can be computed.
   */
  lemma TransitionExact(base: Accounts, c: Change)
    requires AllOrdinary(base) && Positive(c)
    ensures Transition(base, c).Ok? <==>
      Acceptable(base, c) && forall id :: id in Touched(c) ==> Affords(base[id], Effect(base[id], c, id))
    ensures Transition(base, c) == Err(InsufficientFunds) <==>
      && Acceptable(base, c)
      && (forall id :: id in Touched(c) ==>
            var after := Effect(base[id], c, id); Countable(base[id]) && Countable(after) && Comparable(base[id], after))
      && exists id :: id in Touched(c) && Short(base[id], Effect(base[id], c, id))
  {
    hide Acceptable;
    hide Stage;
    hide Effect;
    hide Affords;
    hide FundsError;
    hide Short;
    hide Comparable;
    hide Countable;
    StageExact(base, c);
    if Stage(base, c).Ok? {
      StagedInBase(base, c);
      var staged := Stage(base, c).value.changed;
      forall id | id in staged
        ensures staged[id] == Effect(base[id], c, id)
        ensures FundsError(staged[id], base[id]).None? <==> Affords(base[id], staged[id])
        ensures FundsError(staged[id], base[id]) == Some(InsufficientFunds) <==>
          Countable(base[id]) && Countable(staged[id]) && Short(base[id], staged[id])
        ensures FundsError(staged[id], base[id]).Some? ==> FundsError(staged[id], base[id]).value in {InsufficientFunds, Overflow}
        ensures Affords(base[id], staged[id]) <==>
          Countable(base[id]) && Countable(staged[id]) && Comparable(base[id], staged[id]) && !Short(base[id], staged[id])
        ensures Short(base[id], staged[id]) ==> Comparable(base[id], staged[id])
      {
        StageEffect(base, c, id);
        EffectOrdinary(base, c, id);
        EffectKeepsTerms(base[id], c, id);
        FundsExact(base[id], staged[id]);
        AffordsParts(base[id], staged[id]);
      }
    } else {
      StageErrors(base, c);
      assert !Acceptable(base, c);
    }
  }

  lemma AffordsParts(before: Account, after: Account)
    ensures Affords(before, after) <==>
      Countable(before) && Countable(after) && Comparable(before, after) && !Short(before, after)
    ensures Short(before, after) ==> Comparable(before, after)
  {
  }

  /** Funds are held exactly if the account is known and open, the currency is its own and it can afford it. */
  lemma ReserveExact(base: Accounts, id: AccountId, currency: Option<Currency>, amount: int)
    requires AllOrdinary(base) && amount > 0
    ensures Reserve(base, id, currency, amount).Ok? <==>
      && id in base && base[id].status.Open? && (currency.Some? ==> currency.value == base[id].currency)
      && base[id].held + amount <= MAX_AMOUNT
      && Affords(base[id], base[id].(held := base[id].held + amount))
    ensures Reserve(base, id, currency, amount) == Err(InsufficientFunds) <==>
      && id in base && base[id].status.Open? && (currency.Some? ==> currency.value == base[id].currency)
      && base[id].held + amount <= MAX_AMOUNT
      && var after := base[id].(held := base[id].held + amount);
         Countable(base[id]) && Countable(after) && Short(base[id], after)
    ensures Reserve(base, id, currency, amount).Ok? ==>
      Reserve(base, id, currency, amount).value
        == map[id := base[id].(held := base[id].held + amount, version := base[id].version + 1)]
  {
    hide FundsError;
    hide Affords;
    hide Short;
    if id in base && base[id].held + amount <= MAX_AMOUNT {
      var after := base[id].(held := base[id].held + amount);
      FundsExact(base[id], after);
      var staged := map[id := after];
      assert staged[id] == after;
    }
  }

  /** Every account of sound tables is ordinary. */
  lemma SoundIsOrdinary(db: Database)
    requires MoneyChecks(db, None)
    ensures AllOrdinary(db.accounts)
  {
    forall id | id in db.accounts ensures Ordinary(db.accounts[id]) {
      TotalsNonNegative(db, id);
      assert Computable(db.accounts[id]);
    }
  }
}
