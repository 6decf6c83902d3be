/** Posting, reversing, and the operations on accounts and ledgers themselves. */
module ServiceOperations {
  import opened Wrappers
  import opened Money
  import opened Kernel
  import opened Sums
  import opened BalanceChange
  import opened BalanceEffects
  import opened Tables
  import opened Preservation
  import opened TableWrites
  import opened Engine
  import opened GroupCommit
  import opened EngineSound

  function ClientRequest(input: PostInput): Request {
    Request(input, None, None)
  }

  function ClientRequests(inputs: seq<PostInput>): (reqs: seq<Request>)
    ensures |reqs| == |inputs| && forall i :: 0 <= i < |reqs| ==> reqs[i] == ClientRequest(inputs[i])
  {
    seq(|inputs|, i requires 0 <= i < |inputs| => ClientRequest(inputs[i]))
  }

  // ---- reversing ----

  datatype ReverseInput = ReverseInput(key: string, description: string, metadata: Metadata)

  function Mirrored(ps: seq<Posting>): seq<Posting> {
    seq(|ps|, i requires 0 <= i < |ps| => Plain(ps[i].account, ps[i].side.Opposite(), ps[i].amount, ps[i].currency, 0))
  }

  function ReversalRequest(db: Database, id: TxnId, in_: ReverseInput): Request
    requires id < |db.txns|
  {
    Request(PostInput(Client(in_.key), in_.description, in_.metadata, Mirrored(PostingsOf(db, id)), None, None, None, false),
            Some(id), None)
  }

  function ReversalBefore(txns: seq<Txn>, id: TxnId, n: nat): Option<TxnId>
    requires n <= |txns|
  {
    if n == 0 then None
    else if txns[n - 1].reverses == Some(id) then Some(n - 1)
    else ReversalBefore(txns, id, n - 1)
  }

  lemma {:induction false} ReversalFound(txns: seq<Txn>, id: TxnId, n: nat)
    requires n <= |txns|
    ensures match ReversalBefore(txns, id, n)
      case Some(r) => r < n && txns[r].reverses == Some(id)
      case None => forall i :: 0 <= i < n ==> txns[i].reverses != Some(id)
  {
    if n > 0 {
      ReversalFound(txns, id, n - 1);
    }
  }

  function Reverse(db: Database, id: TxnId, in_: ReverseInput, now: Time): (Database, Res<TxnId>) {
    if id >= |db.txns| then (db, Err(NotFound))
    else if !db.txns[id].status.Posted? then (db, Err(NotPosted))
    else
      var req := ReversalRequest(db, id, in_);
      match ReversalBefore(db.txns, id, |db.txns|)
      case Some(prior) =>
        ReversalFound(db.txns, id, |db.txns|);
        if db.txns[prior].key == req.input.key && Matches(db.txns[prior], PostingsOf(db, prior), req.input) then (db, Ok(prior))
        else (db, Err(AlreadyReversed))
      case None =>
        if req.input.postings == [] then (db, Err(Invalid))
        else
          ApplySingle(db, req, now);
          var (after, results) := Apply(db, [req], true, now);
          match results[0]
          case Failed(e) => (db, Err(e))
          case Replayed(_) => (db, Err(IdempotencyConflict))
          case Created(t, _) => (after, Ok(t))
  }

  lemma PostedEntriesPositive(db: Database, id: TxnId)
    requires Sound(db) && id < |db.txns| && db.txns[id].status.Posted?
    ensures PostingsOf(db, id) != []
    ensures forall p :: p in PostingsOf(db, id) ==> p.amount > 0
  {
    RowsPositive(db, db.postings, id);
  }

  lemma {:induction false} RowsPositive(db: Database, rows: seq<PostingRow>, id: TxnId)
    requires forall r :: r in rows ==> JournalRow(db, r)
    ensures forall p :: p in PostedOf(rows, id) ==> p.amount > 0
  {
    if rows != [] {
      RowsPositive(db, rows[1..], id);
      assert JournalRow(db, rows[0]);
    }
  }

  lemma ReversalWellFormed(db: Database, id: TxnId, in_: ReverseInput)
    requires Sound(db) && id < |db.txns| && db.txns[id].status.Posted?
    ensures WellFormed(ReversalRequest(db, id, in_))
  {
    PostedEntriesPositive(db, id);
    var ps := PostingsOf(db, id);
    forall p | p in Mirrored(ps) ensures p.amount > 0 {
      var i :| 0 <= i < |ps| && Mirrored(ps)[i] == p;
      assert ps[i] in ps;
    }
  }

  lemma ReverseSound(db: Database, id: TxnId, in_: ReverseInput, now: Time)
    requires Sound(db)
    ensures Sound(Reverse(db, id, in_, now).0)
  {
    hide MoneyChecks;
    var after := Reverse(db, id, in_, now).0;
    if after != db {
      var req := ReversalRequest(db, id, in_);
      ReversalWellFormed(db, id, in_);
      ReversalFound(db.txns, id, |db.txns|);
      ApplySingleSound(db, req, now);
      assert after == Apply(db, [req], true, now).0;
    }
  }

  /** A reversal takes back, account by account, exactly what the original moved. */
  lemma {:induction false} MirrorCancels(ps: seq<Posting>, a: AccountId)
    ensures Sum(Mirrored(ps), NetOn(a)) == -Sum(ps, NetOn(a))
  {
    if ps != [] {
      assert Mirrored(ps)[1..] == Mirrored(ps[1..]);
      MirrorCancels(ps[1..], a);
    }
  }

  // ---- accounts and ledgers ----

  datatype AccountInput = AccountInput(
    ledger: LedgerId, currency: Currency, normalSide: Side, allowNegative: bool, overdraftLimit: int)

  function NewAccount(in_: AccountInput): Account {
    Account(in_.ledger, in_.currency, in_.normalSide, Open, in_.allowNegative, in_.overdraftLimit, 0, 0, 0, 0, 0, 0)
  }

  /** Opens an account under an id not used before. */
  function CreateAccount(db: Database, id: AccountId, in_: AccountInput): (Database, Res<AccountId>)
    requires id !in db.accounts
  {
    if in_.overdraftLimit < 0 then (db, Err(Invalid))
    else (db.(accounts := db.accounts[id := NewAccount(in_)]), Ok(id))
  }

  function SetStatus(db: Database, id: AccountId, target: AccountStatus): (Database, Res<AccountId>) {
    if id !in db.accounts then (db, Err(NotFound))
    else
      var a := db.accounts[id];
      match BalancesOf(a)
      case None => (db, Err(Overflow))
      case Some(b) =>
        if a.status == target then (db, Ok(id))
        else if a.status.Closed? then (db, Err(AccountNotOpen))
        else if target.Closed? && (b.posted.amount != 0 || b.pending != b.posted || a.held != 0) then (db, Err(AccountNotEmpty))
        else (db.(accounts := db.accounts[id := a.(status := target, version := a.version + 1)]), Ok(id))
  }

  function ClosePeriod(db: Database, ledger: LedgerId, closedBefore: Option<Time>, now: Time): (Database, Res<LedgerId>) {
    match closedBefore
    case None => (db.(closedBefore := db.closedBefore - {ledger}), Ok(ledger))
    case Some(t) =>
      if Truncate(t) > now then (db, Err(Invalid))
      else (db.(closedBefore := db.closedBefore[ledger := Truncate(t)]), Ok(ledger))
  }

  lemma CreateAccountSound(db: Database, id: AccountId, in_: AccountInput)
    requires Sound(db) && id !in db.accounts
    ensures Sound(CreateAccount(db, id, in_).0)
  {
    hide TrialBalance;
    hide PostedTotals;
    hide PendingTotals;
    hide HeldFunds;
    hide SettlementsNet;
    hide RunningBalance;
    hide RowsWellFormed;
    hide AccountsSound;
    hide ClosedEmpty;
    hide TxnChecks;
    var after := CreateAccount(db, id, in_).0;
    if after != db {
      NewAccountMoney(db, id, in_, after);
      AccountsOnly(db, after);
    }
  }

  lemma NewAccountMoney(db: Database, id: AccountId, in_: AccountInput, after: Database)
    requires MoneyChecks(db, None) && id !in db.accounts && in_.overdraftLimit >= 0
    requires after == db.(accounts := db.accounts[id := NewAccount(in_)])
    ensures PostedTotals(after) && PendingTotals(after) && HeldFunds(after, None)
    ensures AccountsSound(after) && ClosedEmpty(after)
  {
    hide TrialBalance;
    hide SettlementsNet;
    hide RunningBalance;
    NewAccountTotals(db, id);
    NewAccountSound(db, id, in_, after);
    hide AccountsSound;
    hide ClosedEmpty;
    hide RowsWellFormed;
    forall a | a in after.accounts
      ensures after.accounts[a].postedDebits == Sum(db.postings, RowOn(a, Debit))
      ensures after.accounts[a].postedCredits == Sum(db.postings, RowOn(a, Credit))
      ensures after.accounts[a].pendingDebits == Sum(db.entries, LiveOn(db.txns, a, Debit))
      ensures after.accounts[a].pendingCredits == Sum(db.entries, LiveOn(db.txns, a, Credit))
      ensures after.accounts[a].held == Sum(db.holds, HeldOn(a))
    {
      if a != id {
        assert after.accounts[a] == db.accounts[a] && Owed(None, a) == 0;
      }
    }
  }

  lemma NewAccountSound(db: Database, id: AccountId, in_: AccountInput, after: Database)
    requires AccountsSound(db) && ClosedEmpty(db) && in_.overdraftLimit >= 0
    requires after == db.(accounts := db.accounts[id := NewAccount(in_)])
    ensures AccountsSound(after) && ClosedEmpty(after)
  {
    assert Computable(NewAccount(in_)) && AboveFloor(NewAccount(in_));
  }

  /** No entry and no hold names an account that does not exist. */
  lemma NewAccountTotals(db: Database, id: AccountId)
    requires RowsWellFormed(db) && id !in db.accounts
    ensures forall side :: Sum(db.postings, RowOn(id, side)) == 0 && Sum(db.entries, LiveOn(db.txns, id, side)) == 0
    ensures Sum(db.holds, HeldOn(id)) == 0
  {
    forall r | r in db.postings ensures r.account != id {
      assert JournalRow(db, r);
    }
    forall e | e in db.entries ensures e.account != id {
      assert PendingRow(db, e);
    }
    forall side ensures Sum(db.postings, RowOn(id, side)) == 0 && Sum(db.entries, LiveOn(db.txns, id, side)) == 0 {
      SumZero(db.postings, RowOn(id, side));
      SumZero(db.entries, LiveOn(db.txns, id, side));
    }
    SumZero(db.holds, HeldOn(id));
  }

  /** What does not depend on the accounts' totals survives when accounts keep their currency. */
  lemma AccountsOnly(db: Database, after: Database)
    requires Sound(db) && after == db.(accounts := after.accounts, closedBefore := after.closedBefore)
    requires forall a :: a in db.accounts ==> a in after.accounts && after.accounts[a].currency == db.accounts[a].currency
    ensures TrialBalance(after) && SettlementsNet(after) && RunningBalance(after.postings)
    ensures RowsWellFormed(after) && TxnChecks(after) && SettlementKeysKnown(after)
  {
    forall r | r in after.postings ensures JournalRow(after, r) {
      assert JournalRow(db, r);
    }
    forall e | e in after.entries ensures PendingRow(after, e) {
      assert PendingRow(db, e);
    }
    forall i | 0 <= i < |db.txns| ensures PostingsOf(after, i) == PostingsOf(db, i) {
    }
  }

  /**
   An account whose balances can be computed closes exactly when it is open or frozen and empty; closed, it stays so.
   Its version is one higher exactly if its status changes, and nothing else of it or of any other account does.
   */
  lemma SetStatusExact(db: Database, id: AccountId, target: AccountStatus)
    requires Sound(db)
    ensures var (after, r) := SetStatus(db, id, target);
      && (r.Ok? <==>
            && id in db.accounts && BalancesOf(db.accounts[id]).Some?
            && var a := db.accounts[id];
               a.status == target || (!a.status.Closed? && (target.Closed? ==> Empty(a))))
      && (r.Ok? ==>
            after == db.(accounts := db.accounts[id := db.accounts[id].(
              status := target, version := db.accounts[id].version + (if db.accounts[id].status == target then 0 else 1))]))
      && (r.Err? || db.accounts[id].status.Closed? ==> after == db)
  {
    hide Sound;
  }

  lemma SetStatusSound(db: Database, id: AccountId, target: AccountStatus)
    requires Sound(db)
    ensures Sound(SetStatus(db, id, target).0)
  {
    hide TrialBalance;
    hide PostedTotals;
    hide PendingTotals;
    hide HeldFunds;
    hide SettlementsNet;
    hide RunningBalance;
    hide RowsWellFormed;
    hide ClosedEmpty;
    hide AccountsSound;
    hide TxnChecks;
    var after := SetStatus(db, id, target).0;
    if after != db {
      StatusTotals(db, id, after.accounts[id], after);
      AccountsOnly(db, after);
    }
  }

  lemma StatusTotals(db: Database, id: AccountId, a: Account, after: Database)
    requires MoneyChecks(db, None) && id in db.accounts
    requires a == db.accounts[id].(status := a.status, version := a.version)
    requires a.status.Closed? ==> Empty(a)
    requires after == db.(accounts := db.accounts[id := a])
    ensures PostedTotals(after) && PendingTotals(after) && HeldFunds(after, None)
    ensures AccountsSound(after) && ClosedEmpty(after)
  {
    hide TrialBalance;
    hide SettlementsNet;
    hide RunningBalance;
    hide RowsWellFormed;
    hide AccountsSound;
    hide ClosedEmpty;
    StatusAccounts(db, id, a, after);
  }

  lemma StatusAccounts(db: Database, id: AccountId, a: Account, after: Database)
    requires AccountsSound(db) && ClosedEmpty(db) && id in db.accounts
    requires a == db.accounts[id].(status := a.status, version := a.version)
    requires a.status.Closed? ==> Empty(a)
    requires after == db.(accounts := db.accounts[id := a])
    ensures AccountsSound(after) && ClosedEmpty(after)
  {
    assert Computable(db.accounts[id]) && AboveFloor(db.accounts[id]);
    assert Available(a) == Available(db.accounts[id]) && Funds(a) == Funds(db.accounts[id]);
  }

  lemma ClosePeriodSound(db: Database, ledger: LedgerId, closedBefore: Option<Time>, now: Time)
    requires Sound(db)
    ensures Sound(ClosePeriod(db, ledger, closedBefore, now).0)
  {
    PeriodsOnly(db, ClosePeriod(db, ledger, closedBefore, now).0);
  }

  lemma PeriodsOnly(db: Database, after: Database)
    requires Sound(db) && after == db.(closedBefore := after.closedBefore)
    ensures Sound(after)
  {
    AccountsOnly(db, after);
  }
}
