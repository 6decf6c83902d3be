/** Holds keep the tables sound, give back what they took, and cannot fail to be given back. */
module HoldOutcomes {
  import opened Wrappers
  import opened Money
  import opened Kernel
  import opened Sums
  import opened BalanceChange
  import opened BalanceEffects
  import opened Tables
  import opened Preservation
  import opened TableWrites
  import opened Engine
  import opened GroupCommit
  import opened EngineSound
  import opened ErrorsRuledOut
  import opened HoldOperations
  import opened PendingOutcomes

  // ---- moving the held total of one account ----

  /** `after` is `before` with `amount` less held, and funds the checks accept. */
  predicate HeldMoved(before: Account, after: Account, amount: int) {
    && after == before.(held := before.held - amount, version := after.version)
    && Computable(after) && AboveFloor(after)
    && (before.status.Closed? ==> amount == 0)
  }

  function WithAccount(db: Database, id: AccountId, a: Account): Database {
    db.(accounts := db.accounts + map[id := a])
  }

  lemma HeldMovesMoney(db: Database, id: AccountId, a: Account, amount: int)
    requires MoneyChecks(db, None) && id in db.accounts && HeldMoved(db.accounts[id], a, amount)
    ensures MoneyChecks(WithAccount(db, id, a), Some(Release(id, amount)))
  {
    HeldMovesAccounts(db, id, a, amount);
    HeldMovesTotals(db, id, a, amount);
    HeldMovesRows(db, id, a, amount);
  }

  lemma HeldMovesAccounts(db: Database, id: AccountId, a: Account, amount: int)
    requires AccountsSound(db) && ClosedEmpty(db) && id in db.accounts && HeldMoved(db.accounts[id], a, amount)
    ensures AccountsSound(WithAccount(db, id, a)) && ClosedEmpty(WithAccount(db, id, a))
  {
  }

  lemma HeldMovesTotals(db: Database, id: AccountId, a: Account, amount: int)
    requires PostedTotals(db) && PendingTotals(db) && HeldFunds(db, None)
    requires id in db.accounts && HeldMoved(db.accounts[id], a, amount)
    ensures var after := WithAccount(db, id, a);
      PostedTotals(after) && PendingTotals(after) && HeldFunds(after, Some(Release(id, amount)))
  {
  }

  lemma HeldMovesRows(db: Database, id: AccountId, a: Account, amount: int)
    requires RowsWellFormed(db) && id in db.accounts && HeldMoved(db.accounts[id], a, amount)
    ensures RowsWellFormed(WithAccount(db, id, a))
  {
    var after := WithAccount(db, id, a);
    forall r | r in after.postings ensures JournalRow(after, r) {
      assert JournalRow(db, r);
    }
    forall e | e in after.entries ensures PendingRow(after, e) {
      assert PendingRow(db, e);
    }
  }

  lemma HeldMovesKeepsTxns(db: Database, id: AccountId, a: Account)
    requires TxnChecks(db)
    ensures TxnChecks(WithAccount(db, id, a))
  {
    forall i | 0 <= i < |db.txns| ensures PostingsOf(WithAccount(db, id, a), i) == PostingsOf(db, i) {
    }
  }

  /** Resolving the hold whose funds were given back settles what was owed. */
  lemma ResolvingPays(db: Database, id: HoldId, h: Hold)
    requires id < |db.holds| && db.holds[id].status.HoldPending? && !h.status.HoldPending?
    requires h.account == db.holds[id].account && h.amount == db.holds[id].amount
    requires Integrity(db, Some(Release(h.account, h.amount)))
    ensures Integrity(Resolved(db, id, h), None)
  {
    var after := Resolved(db, id, h);
    forall a | a in after.accounts ensures after.accounts[a].held == Sum(after.holds, HeldOn(a)) {
      SumUpdate(db.holds, id, h, HeldOn(a));
      assert db.accounts[a].held + Owed(Some(Release(h.account, h.amount)), a) == Sum(db.holds, HeldOn(a));
    }
    ResolvedRows(db, id, h);
    forall i | 0 <= i < |db.txns| ensures PostingsOf(after, i) == PostingsOf(db, i) {
    }
  }

  lemma ResolvedRows(db: Database, id: HoldId, h: Hold)
    requires RowsWellFormed(db) && id < |db.holds|
    requires h.account == db.holds[id].account && h.amount == db.holds[id].amount
    ensures RowsWellFormed(Resolved(db, id, h))
  {
    var after := Resolved(db, id, h);
    forall r | r in after.postings ensures JournalRow(after, r) {
      assert JournalRow(db, r);
    }
    forall e | e in after.entries ensures PendingRow(after, e) {
      assert PendingRow(db, e);
    }
    assert db.holds[id] in db.holds;
  }

  // ---- creating a hold ----

  lemma ReserveMoves(base: Accounts, id: AccountId, currency: Option<Currency>, amount: int)
    requires Reserve(base, id, currency, amount).Ok?
    requires Computable(base[id]) && AboveFloor(base[id])
    ensures var changed := Reserve(base, id, currency, amount).value;
      changed.Keys == {id} && HeldMoved(base[id], changed[id], -amount) && base[id].status.Open?
  {
    var a := base[id].(held := base[id].held + amount);
    var staged := map[id := a];
    assert FundsError(staged[id], base[id]).None?;
    FundsKept(a, base[id]);
    VersionFree(a, a.version + 1);
  }

  lemma HoldAdded(db: Database, h: Hold)
    requires h.status.HoldPending? && h.account in db.accounts && h.amount > 0
    requires Integrity(db, Some(Release(h.account, -h.amount)))
    ensures Integrity(db.(holds := db.holds + [h]), None)
  {
    var after := db.(holds := db.holds + [h]);
    forall a | a in after.accounts ensures after.accounts[a].held == Sum(after.holds, HeldOn(a)) {
      SumAppend(db.holds, [h], HeldOn(a));
      assert db.accounts[a].held + Owed(Some(Release(h.account, -h.amount)), a) == Sum(db.holds, HeldOn(a));
    }
    forall r | r in after.postings ensures JournalRow(after, r) {
      assert JournalRow(db, r);
    }
    forall e | e in after.entries ensures PendingRow(after, e) {
      assert PendingRow(db, e);
    }
    forall i | 0 <= i < |db.txns| ensures PostingsOf(after, i) == PostingsOf(db, i) {
    }
  }

  lemma CreateHoldSound(db: Database, input: HoldInput)
    requires Sound(db)
    ensures Sound(CreateHold(db, input).0)
  {
    hide TrialBalance;
    hide PostedTotals;
    hide PendingTotals;
    hide HeldFunds;
    hide SettlementsNet;
    hide RunningBalance;
    hide RowsWellFormed;
    hide ClosedEmpty;
    hide TxnChecks;
    var in_ := input.(expiresAt := Truncate(input.expiresAt));
    var after := CreateHold(db, input).0;
    if after != db {
      var changed := Reserve(db.accounts, in_.account, in_.currency, in_.amount).value;
      assert Computable(db.accounts[in_.account]) && AboveFloor(db.accounts[in_.account]);
      ReserveMoves(db.accounts, in_.account, in_.currency, in_.amount);
      assert changed == map[in_.account := changed[in_.account]];
      HeldAddedSound(db, in_.account, changed[in_.account], after.holds[|db.holds|], after);
    }
  }

  lemma HeldAddedSound(db: Database, id: AccountId, a: Account, h: Hold, after: Database)
    requires Sound(db) && id in db.accounts && HeldMoved(db.accounts[id], a, -h.amount)
    requires h.status.HoldPending? && h.account == id && h.amount > 0
    requires after == WithAccount(db, id, a).(holds := db.holds + [h])
    ensures Sound(after)
  {
    hide TrialBalance;
    hide PostedTotals;
    hide PendingTotals;
    hide SettlementsNet;
    hide RunningBalance;
    hide RowsWellFormed;
    hide AccountsSound;
    hide ClosedEmpty;
    hide TxnChecks;
    HeldMovesMoney(db, id, a, -h.amount);
    HeldMovesKeepsTxns(db, id, a);
    HoldAdded(WithAccount(db, id, a), h);
  }

  // ---- giving funds back ----

  /** Giving back held funds keeps an account's funds computable, raises them, and so is always accepted. */
  lemma LessHeld(before: Account, amount: int)
    requires Computable(before) && 0 < amount <= before.held
    requires 0 <= before.postedDebits && 0 <= before.postedCredits && 0 <= before.pendingDebits && 0 <= before.pendingCredits
    ensures var after := before.(held := before.held - amount);
      && ReleaseHeld(before, amount) == Ok(after)
      && FundsError(after, before).None? && Computable(after)
      && Funds(after) == Funds(before) + amount
  {
    var after := before.(held := before.held - amount);
    assert Available(after) == Some(Funds(after));
  }

  /** A pending hold's amount is within what its account holds, and giving it back raises the funds. */
  lemma ReleaseAccepted(db: Database, id: HoldId)
    requires MoneyChecks(db, None) && id < |db.holds| && db.holds[id].status.HoldPending?
    ensures var h := db.holds[id];
      && h.account in db.accounts && 0 < h.amount <= db.accounts[h.account].held
      && ReleaseOf(db.accounts, h.account, h.amount) == Ok(map[h.account := GivenBack(db.accounts[h.account], h.amount)])
      && HeldMoved(db.accounts[h.account], GivenBack(db.accounts[h.account], h.amount), h.amount)
  {
    var h := db.holds[id];
    HoldWithinHeld(db, id);
    TotalsNonNegative(db, h.account);
    assert Computable(db.accounts[h.account]) && AboveFloor(db.accounts[h.account]);
    assert db.accounts[h.account].status.Closed? ==> Empty(db.accounts[h.account]);
    GivingBack(db.accounts, h.account, h.amount);
  }

  lemma GivingBack(base: Accounts, id: AccountId, amount: int)
    requires id in base && 0 < amount <= base[id].held
    requires Computable(base[id]) && AboveFloor(base[id]) && !base[id].status.Closed?
    requires 0 <= base[id].postedDebits && 0 <= base[id].postedCredits
    requires 0 <= base[id].pendingDebits && 0 <= base[id].pendingCredits
    ensures ReleaseOf(base, id, amount) == Ok(map[id := GivenBack(base[id], amount)])
    ensures HeldMoved(base[id], GivenBack(base[id], amount), amount)
  {
    LessHeld(base[id], amount);
    OneFunded(base, id, base[id].(held := base[id].held - amount));
    VersionFree(base[id].(held := base[id].held - amount), base[id].version + 1);
  }

  function GivenBack(a: Account, amount: int): Account {
    a.(held := a.held - amount, version := a.version + 1)
  }

  lemma OneFunded(base: Accounts, id: AccountId, a: Account)
    requires id in base && FundsError(a, base[id]).None?
    ensures Commit(base, map[id := a]) == Ok(map[id := a.(version := a.version + 1)])
  {
    assert Bumped(map[id := a]) == map[id := a.(version := a.version + 1)];
  }

  /** "exceeds held" cannot be reported for a stored pending hold. */
  lemma HoldWithinHeld(db: Database, id: HoldId)
    requires HeldFunds(db, None) && RowsWellFormed(db) && id < |db.holds| && db.holds[id].status.HoldPending?
    ensures var h := db.holds[id];
      h.account in db.accounts && 0 < h.amount <= db.accounts[h.account].held
  {
    var h := db.holds[id];
    assert h in db.holds;
    SumAtLeast(db.holds, HeldOn(h.account), id);
  }

  lemma GiveBackSound(db: Database, id: HoldId, status: HoldStatus)
    requires Sound(db) && id < |db.holds| && db.holds[id].status.HoldPending? && !status.HoldPending?
    ensures GiveBack(db, id, status).1 == Ok(id)
    ensures Sound(GiveBack(db, id, status).0)
    ensures FundsNotLowered(db.accounts, GiveBack(db, id, status).0.accounts)
  {
    hide MoneyChecks;
    hide TxnChecks;
    var h := db.holds[id];
    ReleaseAccepted(db, id);
    var a := GivenBack(db.accounts[h.account], h.amount);
    assert GiveBack(db, id, status).0 == Resolved(WithAccount(db, h.account, a), id, h.(status := status));
    LessHeldSound(db, id, a, h.(status := status));
  }

  lemma LessHeldSound(db: Database, id: HoldId, a: Account, h: Hold)
    requires Sound(db) && id < |db.holds| && db.holds[id].status.HoldPending? && !h.status.HoldPending?
    requires h.account == db.holds[id].account && h.amount == db.holds[id].amount
    requires h.account in db.accounts && HeldMoved(db.accounts[h.account], a, h.amount)
    ensures Sound(Resolved(WithAccount(db, h.account, a), id, h))
  {
    HeldMovesMoney(db, h.account, a, h.amount);
    HeldMovesKeepsTxns(db, h.account, a);
    ResolvingPays(WithAccount(db, h.account, a), id, h);
  }

  /** The tables once a hold has ended: its status, and its amount no longer held on its account, one version up. */
  function Ended(db: Database, id: HoldId, status: HoldStatus): Database
    requires id < |db.holds| && db.holds[id].account in db.accounts
  {
    var h := db.holds[id];
    var a := db.accounts[h.account];
    db.(accounts := db.accounts[h.account := a.(held := a.held - h.amount, version := a.version + 1)],
        holds := db.holds[id := h.(status := status)])
  }

  lemma GiveBackEnds(db: Database, id: HoldId, status: HoldStatus)
    requires Sound(db) && id < |db.holds| && db.holds[id].status.HoldPending?
    ensures db.holds[id].account in db.accounts && GiveBack(db, id, status) == (Ended(db, id, status), Ok(id))
  {
    hide MoneyChecks;
    hide TxnChecks;
    ReleaseAccepted(db, id);
    hide ReleaseOf;
    hide HeldMoved;
    var h := db.holds[id];
    var a := GivenBack(db.accounts[h.account], h.amount);
    assert db.accounts + map[h.account := a] == db.accounts[h.account := a];
  }

  /**
   Voiding a pending hold makes it voided and gives its amount back, one version up, and nothing else; a voided one
   stays as it is, and any other is refused. No funds go down.
   */
  lemma VoidSucceeds(db: Database, id: HoldId)
    requires Sound(db)
    ensures var (after, r) := VoidHold(db, id);
      && (r.Ok? <==> id < |db.holds| && (db.holds[id].status.HoldPending? || db.holds[id].status.Voided?))
      && (r.Ok? && db.holds[id].status.HoldPending? ==>
            db.holds[id].account in db.accounts && after == Ended(db, id, Voided))
      && (r.Err? || db.holds[id].status.Voided? ==> after == db)
      && Sound(after) && FundsNotLowered(db.accounts, after.accounts)
  {
    if id < |db.holds| && db.holds[id].status.HoldPending? {
      GiveBackSound(db, id, Voided);
      GiveBackEnds(db, id, Voided);
    }
  }

  function AmountOn(holds: seq<Hold>, a: AccountId): HoldId -> int {
    (id: HoldId) => if id < |holds| && holds[id].account == a then holds[id].amount else 0
  }

  function OneOn(holds: seq<Hold>, a: AccountId): HoldId -> int {
    (id: HoldId) => if id < |holds| && holds[id].account == a then 1 else 0
  }

  /** An account after some holds have ended: their amounts are no longer held, and each has moved its version by one. */
  function LessHolds(a: Account, holds: seq<Hold>, ids: seq<HoldId>, id: AccountId): Account {
    a.(held := a.held - Sum(ids, AmountOn(holds, id)), version := a.version + Sum(ids, OneOn(holds, id)))
  }

  /** Exactly the listed holds have expired and been given back, and no account has lost funds. */
  ghost predicate Expires(before: Database, ids: seq<HoldId>, after: Database) {
    && FundsNotLowered(before.accounts, after.accounts)
    && after == before.(accounts := after.accounts, holds := after.holds)
    && |after.holds| == |before.holds|
    && (forall k :: 0 <= k < |before.holds| ==>
          after.holds[k] == if k in ids then before.holds[k].(status := Expired) else before.holds[k])
    && after.accounts.Keys == before.accounts.Keys
    && forall a :: a in before.accounts ==> after.accounts[a] == LessHolds(before.accounts[a], before.holds, ids, a)
  }

  lemma ExpiresThen(before: Database, id: HoldId, mid: Database, ids: seq<HoldId>, after: Database)
    requires Expires(before, [id], mid) && Expires(mid, ids, after) && id !in ids
    ensures Expires(before, [id] + ids, after)
  {
    hide LessHolds;
    forall a | a in before.accounts ensures a in after.accounts && Funds(after.accounts[a]) >= Funds(before.accounts[a]) {
      assert a in mid.accounts;
    }
    forall a | a in before.accounts ensures after.accounts[a] == LessHolds(before.accounts[a], before.holds, [id] + ids, a) {
      assert after.accounts[a] == LessHolds(mid.accounts[a], mid.holds, ids, a);
      LessHoldsThen(before.accounts[a], before.holds, mid.holds, id, ids, a);
    }
  }

  lemma LessHoldsThen(a: Account, holds: seq<Hold>, more: seq<Hold>, id: HoldId, ids: seq<HoldId>, account: AccountId)
    requires |more| == |holds|
    requires forall k :: 0 <= k < |holds| ==> more[k].account == holds[k].account && more[k].amount == holds[k].amount
    ensures LessHolds(LessHolds(a, holds, [id], account), more, ids, account) == LessHolds(a, holds, [id] + ids, account)
  {
    SumAppend([id], ids, AmountOn(holds, account));
    SumAppend([id], ids, OneOn(holds, account));
    SumSame(ids, AmountOn(holds, account), AmountOn(more, account));
    SumSame(ids, OneOn(holds, account), OneOn(more, account));
  }

  lemma GiveBackExpires(db: Database, id: HoldId)
    requires Sound(db) && id < |db.holds| && db.holds[id].status.HoldPending?
    ensures GiveBack(db, id, Expired).1.Ok? && Sound(GiveBack(db, id, Expired).0)
    ensures Expires(db, [id], GiveBack(db, id, Expired).0)
  {
    hide Sound;
    GiveBackSound(db, id, Expired);
    GiveBackEnds(db, id, Expired);
    var after := Ended(db, id, Expired);
    forall a | a in db.accounts ensures after.accounts[a] == LessHolds(db.accounts[a], db.holds, [id], a) {
      SumOfOne(id, AmountOn(db.holds, a));
      SumOfOne(id, OneOn(db.holds, a));
    }
  }

  lemma {:induction false} ExpireEachSound(db: Database, ids: seq<HoldId>, now: Time) returns (last: Database)
    requires Sound(db) && Expirable(db, ids, now)
    ensures ExpireEach(db, ids) == Ok(last)
    ensures Sound(last)
    ensures Expires(db, ids, last)
    decreases |ids|
  {
    if ids == [] {
      return db;
    }
    GiveBackExpires(db, ids[0]);
    var next := GiveBack(db, ids[0], Expired).0;
    StillExpirable(db, ids, next, now);
    last := ExpireEachSound(next, ids[1..], now);
    ExpireStep(db, ids, next, last);
  }

  lemma ExpireStep(db: Database, ids: seq<HoldId>, next: Database, last: Database)
    requires ids != [] && (forall i :: 0 <= i < |ids| ==> ids[i] < |db.holds|)
    requires Expires(db, [ids[0]], next) && (forall i :: 0 <= i < |ids[1..]| ==> ids[1..][i] < |next.holds|)
    requires GiveBack(db, ids[0], Expired).0 == next && GiveBack(db, ids[0], Expired).1.Ok?
    requires ExpireEach(next, ids[1..]) == Ok(last)
    requires Expires(next, ids[1..], last) && ids[0] !in ids[1..]
    ensures ExpireEach(db, ids) == Ok(last) && Expires(db, ids, last)
  {
    ExpiresThen(db, ids[0], next, ids[1..], last);
    assert ids == [ids[0]] + ids[1..];
  }

  lemma StillExpirable(db: Database, ids: seq<HoldId>, next: Database, now: Time)
    requires ids != [] && Expirable(db, ids, now) && Expires(db, [ids[0]], next)
    ensures Expirable(next, ids[1..], now) && ids[0] !in ids[1..]
  {
    assert forall k :: 0 <= k < |ids[1..]| ==> ids[1..][k] == ids[k + 1] && ids[k + 1] != ids[0];
  }

  /** Expiry always succeeds: every hold picked becomes expired, no other moves, and no funds go down. */
  lemma ExpirySucceeds(db: Database, ids: seq<HoldId>, now: Time)
    requires Sound(db) && Expirable(db, ids, now)
    ensures var (after, r) := ExpireHolds(db, ids);
      r == Ok(|ids|) && Sound(after) && Expires(db, ids, after)
  {
    var last := ExpireEachSound(db, ids, now);
  }
}
