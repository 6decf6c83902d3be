/**
 Locks on entries: an accepted change meets every one of them, on the balances and versions it is about, and a request
 is refused or archived for a lock only if one of them fails.
 */
module LockOutcomes {
  import opened Wrappers
  import opened Money
  import opened Kernel
  import opened Sums
  import opened BalanceChange
  import opened BalanceEffects
  import opened Tables
  import opened Engine
  import opened ErrorsRuledOut

  /** The account is at the version the entry was made for, before the change. */
  predicate VersionHolds(base: Accounts, p: Posting) {
    p.account in base ==> p.lockVersion.Some? ==> p.lockVersion.value == base[p.account].version
  }

  /** The balances the whole change leaves on the entry's account, if they can be computed. */
  function Resulting(base: Accounts, c: Change, p: Posting): Option<Balances>
    requires p.account in base
  {
    BalancesOf(Effect(base[p.account], c, p.account))
  }

  /** The entry's balance locks hold of the balances the whole change leaves, not of those it finds. */
  predicate BalanceLocksHold(base: Accounts, c: Change, p: Posting) {
    p.account in base && Resulting(base, c, p).Some? && p.LocksHold(Resulting(base, c, p).value)
  }

  /** One of the entry's locks fails. */
  predicate LockFails(base: Accounts, c: Change, p: Posting) {
    p.account in base && (!VersionHolds(base, p) || (Resulting(base, c, p).Some? && !BalanceLocksHold(base, c, p)))
  }

  predicate SameLocks(p: Posting, q: Posting) {
    && p.account == q.account && p.lockVersion == q.lockVersion
    && p.pendingLock == q.pendingLock && p.postedLock == q.postedLock && p.availableLock == q.availableLock
  }

  // ---- recording ----

  lemma {:induction false} RecordKeepsLocks(base: Accounts, w: Work, ps: seq<Posting>, status: Status)
    requires RecordAll(base, w, ps, status).Ok?
    ensures var done := RecordAll(base, w, ps, status).value.done;
      && |done| == |w.done| + |ps| && done[..|w.done|] == w.done
      && forall k :: 0 <= k < |ps| ==> SameLocks(done[|w.done| + k], ps[k])
    decreases |ps|
  {
    if ps != [] {
      var w1 := RecordOne(base, w, ps[0], status).value;
      RecordKeepsLocks(base, w1, ps[1..], status);
      var done := RecordAll(base, w, ps, status).value.done;
      assert done[..|w1.done|][..|w.done|] == w.done && done[|w.done|] == w1.done[|w.done|];
      forall k | 0 <= k < |ps| ensures SameLocks(done[|w.done| + k], ps[k]) {
        if k > 0 {
          assert ps[k] == ps[1..][k - 1];
        }
      }
    }
  }

  /** A lock failure is deferred exactly if some entry's account is at another version. */
  lemma {:induction false} DeferredExact(base: Accounts, w: Work, ps: seq<Posting>, status: Status)
    requires RecordAll(base, w, ps, status).Ok?
    ensures RecordAll(base, w, ps, status).value.deferred.None? <==>
      w.deferred.None? && forall p :: p in ps ==> VersionHolds(base, p)
    decreases |ps|
  {
    if ps != [] {
      var w1 := RecordOne(base, w, ps[0], status).value;
      DeferredExact(base, w1, ps[1..], status);
      assert w1.deferred.None? <==> w.deferred.None? && VersionHolds(base, ps[0]);
      assert ps[0] in ps && forall p :: p in ps <==> p == ps[0] || p in ps[1..];
    }
  }

  // ---- checking ----

  lemma {:induction false} LocksDecide(changed: Accounts, ps: seq<Posting>)
    requires forall p :: p in ps ==> p.account in changed
    ensures CheckLocks(changed, ps).Ok? ==>
      forall p :: p in ps ==> BalancesOf(changed[p.account]).Some? && p.LocksHold(BalancesOf(changed[p.account]).value)
    ensures CheckLocks(changed, ps) == Err(BalanceLock) ==>
      exists p :: p in ps && BalancesOf(changed[p.account]).Some? && !p.LocksHold(BalancesOf(changed[p.account]).value)
  {
    if ps != [] {
      LocksDecide(changed, ps[1..]);
      assert ps[0] in ps && forall p :: p in ps <==> p == ps[0] || p in ps[1..];
    }
  }

  /** The accounts, recorded entries and errors a change that got as far as its locks is checked with. */
  lemma LockedParts(base: Accounts, c: Change) returns (unpended: Accounts, w: Work, changed: Accounts)
    requires Stage(base, c).Ok? || Stage(base, c).error in {BalanceLock, LockVersion}
    ensures Unpend(base, map[], c.unpend) == Ok(unpended)
    ensures RecordAll(base, Work(unpended, c.ledger, map[], None, []), c.add, c.status) == Ok(w)
    ensures ReleaseStaged(base, w.changed, c.release) == Ok(changed)
    ensures forall p :: p in w.done ==> p.account in changed
    ensures changed.Keys <= base.Keys
    ensures Stage(base, c).Ok? ==> w.deferred.None? && CheckLocks(changed, w.done) == Ok(Stage(base, c).value.done)
    ensures Stage(base, c).Ok? ==> Stage(base, c).value.changed == changed
    ensures Stage(base, c).Err? ==>
      w.deferred == Some(Stage(base, c).error) || (w.deferred.None? && CheckLocks(changed, w.done) == Err(Stage(base, c).error))
  {
    hide CheckLocks;
    if Unpend(base, map[], c.unpend).Err? {
      UnpendErrors(base, map[], c.unpend);
    }
    unpended := Unpend(base, map[], c.unpend).value;
    var start := Work(unpended, c.ledger, map[], None, []);
    if RecordAll(base, start, c.add, c.status).Err? {
      RecordAllErrors(base, start, c.add, c.status);
    }
    w := RecordAll(base, start, c.add, c.status).value;
    changed := ReleaseStaged(base, w.changed, c.release).value;
    StageKeys(base, c, unpended, w, changed);
  }

  lemma StagedView(base: Accounts, c: Change, unpended: Accounts, w: Work, changed: Accounts, id: AccountId)
    requires Unpend(base, map[], c.unpend) == Ok(unpended)
    requires RecordAll(base, Work(unpended, c.ledger, map[], None, []), c.add, c.status) == Ok(w)
    requires ReleaseStaged(base, w.changed, c.release) == Ok(changed)
    requires id in changed && changed.Keys <= base.Keys
    ensures changed[id] == Effect(base[id], c, id)
  {
    var start := Work(unpended, c.ledger, map[], None, []);
    UnpendKeys(base, map[], c.unpend);
    RecordKeys(base, start, c.add, c.status);
    UnpendEffect(base, map[], c.unpend, id);
    RecordEffect(base, start, c.add, c.status, id);
    ReleaseEffect(base, w.changed, c.release, id);
  }

  /** The recorded entries' locks are those asked for, on the balances the change leaves. */
  lemma RecordedLock(base: Accounts, c: Change, unpended: Accounts, w: Work, changed: Accounts, k: nat)
    requires Unpend(base, map[], c.unpend) == Ok(unpended)
    requires RecordAll(base, Work(unpended, c.ledger, map[], None, []), c.add, c.status) == Ok(w)
    requires ReleaseStaged(base, w.changed, c.release) == Ok(changed) && changed.Keys <= base.Keys
    requires forall p :: p in w.done ==> p.account in changed
    requires k < |c.add|
    ensures |w.done| == |c.add| && SameLocks(w.done[k], c.add[k]) && c.add[k].account in changed
    ensures changed[c.add[k].account] == Effect(base[c.add[k].account], c, c.add[k].account)
  {
    RecordKeepsLocks(base, Work(unpended, c.ledger, map[], None, []), c.add, c.status);
    assert w.done[k] in w.done && w.done[0 + k] == w.done[k];
    StagedView(base, c, unpended, w, changed, c.add[k].account);
  }

  // ---- what locks decide ----

  /** Every entry of an accepted change had its version, meets its locks on the resulting balances, and carries them. */
  lemma AcceptedMeetsLocks(base: Accounts, c: Change, k: nat)
    requires Transition(base, c).Ok? && k < |c.add|
    ensures VersionHolds(base, c.add[k]) && BalanceLocksHold(base, c, c.add[k])
    ensures var out := Transition(base, c).value.postings;
      |out| == |c.add| && out[k].resulting == Resulting(base, c, c.add[k])
  {
    hide Stage;
    hide CheckLocks;
    hide Effect;
    hide BalancesOf;
    StagedOk(base, c);
    var unpended, w, changed := LockedParts(base, c);
    RecordedLock(base, c, unpended, w, changed, k);
    DeferredExact(base, Work(unpended, c.ledger, map[], None, []), c.add, c.status);
    LocksDecide(changed, w.done);
    LocksKeepEntries(changed, w.done);
    assert w.done[k] in w.done && c.add[k] in c.add;
  }

  lemma StagedOk(base: Accounts, c: Change)
    requires Transition(base, c).Ok?
    ensures Stage(base, c).Ok? && Transition(base, c).value.postings == Stage(base, c).value.done
  {
  }

  /** A change is refused for a lock only if one of its entries' locks of that kind fails. */
  lemma RefusedForLock(base: Accounts, c: Change)
    ensures Transition(base, c) == Err(LockVersion) ==> exists p :: p in c.add && p.account in base && !VersionHolds(base, p)
    ensures Transition(base, c) == Err(BalanceLock) ==>
      exists p :: p in c.add && p.account in base && Resulting(base, c, p).Some? && !BalanceLocksHold(base, c, p)
  {
    var t := Transition(base, c);
    if t.Err? && t.error in {BalanceLock, LockVersion} {
      StageRefused(base, c);
      var unpended, w, changed := LockedParts(base, c);
      var start := Work(unpended, c.ledger, map[], None, []);
      DeferredOnlyLocks(base, start, c.add, c.status);
      if w.deferred.Some? {
        DeferredExact(base, start, c.add, c.status);
      } else {
        FailingLock(base, c, unpended, w, changed);
      }
    }
  }

  lemma StageRefused(base: Accounts, c: Change)
    requires Transition(base, c).Err? && Transition(base, c).error in {BalanceLock, LockVersion}
    ensures Stage(base, c) == Err(Transition(base, c).error)
  {
  }

  lemma FailingLock(base: Accounts, c: Change, unpended: Accounts, w: Work, changed: Accounts)
    requires Unpend(base, map[], c.unpend) == Ok(unpended)
    requires RecordAll(base, Work(unpended, c.ledger, map[], None, []), c.add, c.status) == Ok(w)
    requires ReleaseStaged(base, w.changed, c.release) == Ok(changed) && changed.Keys <= base.Keys
    requires forall p :: p in w.done ==> p.account in changed
    requires CheckLocks(changed, w.done) == Err(BalanceLock) || CheckLocks(changed, w.done) == Err(LockVersion)
    ensures CheckLocks(changed, w.done) == Err(BalanceLock)
    ensures exists p :: p in c.add && p.account in base && Resulting(base, c, p).Some? && !BalanceLocksHold(base, c, p)
  {
    hide Effect;
    hide BalancesOf;
    LockErrors(changed, w.done);
    LocksDecide(changed, w.done);
    var q :| q in w.done && BalancesOf(changed[q.account]).Some? && !q.LocksHold(BalancesOf(changed[q.account]).value);
    var k :| 0 <= k < |w.done| && w.done[k] == q;
    RecordKeepsLocks(base, Work(unpended, c.ledger, map[], None, []), c.add, c.status);
    RecordedLock(base, c, unpended, w, changed, k);
    assert c.add[k] in c.add;
  }

  /** A request is archived in place of being posted or left pending only if it asks for that and one of its locks fails. */
  lemma ArchivedForLock(db: Database, accounts: Accounts, taken: map<ExternalKey, Key>, req: Request, now: Time)
    requires req.input.postings != [] && !req.input.Status().Archived?
    requires DecideFresh(db, accounts, taken, req, now).Create?
    requires DecideFresh(db, accounts, taken, req, now).new_.txn.status.Archived?
    ensures req.input.archiveOnLockFailure
    ensures exists p :: p in req.input.postings && LockFails(accounts, ChangeOf(req), p)
  {
    var c := ChangeOf(req);
    RefusedForLock(accounts, c);
    if Transition(accounts, c) == Err(LockVersion) {
      var p :| p in c.add && p.account in accounts && !VersionHolds(accounts, p);
      assert LockFails(accounts, c, p);
    } else {
      var p :| p in c.add && p.account in accounts && Resulting(accounts, c, p).Some? && !BalanceLocksHold(accounts, c, p);
      assert LockFails(accounts, c, p);
    }
  }
}
