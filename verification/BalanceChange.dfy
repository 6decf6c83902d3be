/**
 What one balance change does to a set of accounts: the specification the ledger state machine is
 proved against, and what that specification means account by account.
 */
module BalanceChange {
  import opened Wrappers
  import opened Money
  import opened Kernel
  import opened Sums

  /** A hold to release inside a change. */
  datatype Release = Release(account: AccountId, amount: int)

  datatype Change = Change(
    ledger: Option<LedgerId>,
    unpend: seq<Posting>,
    add: seq<Posting>,
    status: Status,
    release: Option<Release>)

  /** The accounts a change touches, the entries as recorded, and the ledger they belong to. */
  datatype Applied = Applied(ledger: Option<LedgerId>, postings: seq<Posting>, changed: Accounts)

  // ---- the specification ----

  function Staged(base: Accounts, changed: Accounts, id: AccountId): Res<Account> {
    if id in changed then Ok(changed[id]) else if id in base then Ok(base[id]) else Err(NotFound)
  }

  function UnpendOne(a: Account, p: Posting): Res<Account> {
    var total := if p.side.Credit? then a.pendingCredits else a.pendingDebits;
    if p.amount > total then Err(ExceedsPending)
    else match Sub(total, p.amount)
      case None => Err(Overflow)
      case Some(rest) => Ok(if p.side.Credit? then a.(pendingCredits := rest) else a.(pendingDebits := rest))
  }

  function Unpend(base: Accounts, changed: Accounts, ps: seq<Posting>): Res<Accounts>
    decreases |ps|
  {
    if ps == [] then Ok(changed)
    else
      var a :- Staged(base, changed, ps[0].account);
      var a' :- UnpendOne(a, ps[0]);
      Unpend(base, changed[ps[0].account := a'], ps[1..])
  }

  /** Adds an entry to the totals its status selects; a posted entry also carries the balance it leaves. */
  function Record(a: Account, p: Posting, status: Status): Res<(Account, Posting)> {
    var total := match (status, p.side)
      case (Pending, Debit) => a.pendingDebits
      case (Pending, Credit) => a.pendingCredits
      case (_, Debit) => a.postedDebits
      case (_, Credit) => a.postedCredits;
    match Add(total, p.amount)
    case None => Err(Overflow)
    case Some(sum) =>
      if status.Pending? then
        Ok((if p.side.Debit? then a.(pendingDebits := sum) else a.(pendingCredits := sum), p))
      else
        var a' := if p.side.Debit? then a.(postedDebits := sum) else a.(postedCredits := sum);
        match PostedNet(a')
        case None => Err(Overflow)
        case Some(net) => Ok((a', p.(balanceAfter := net)))
  }

  /** The loop variables of the recording loop. */
  datatype Work = Work(
    changed: Accounts,
    ledger: Option<LedgerId>,
    totals: map<Currency, int>,
    deferred: Option<Error>,
    done: seq<Posting>)

  function TotalOf(totals: map<Currency, int>, c: Currency): int {
    if c in totals then totals[c] else 0
  }

  function RecordOne(base: Accounts, w: Work, p: Posting, status: Status): Res<Work> {
    var a :- Staged(base, w.changed, p.account);
    if !a.status.Open? then Err(AccountNotOpen)
    else
      var moved := p.lockVersion.Some? && p.account in base && p.lockVersion.value != base[p.account].version;
      var deferred := if w.deferred.None? && moved then Some(LockVersion) else w.deferred;
      if w.ledger.Some? && a.ledger != w.ledger.value then Err(CrossLedger)
      else if p.currency.Some? && p.currency.value != a.currency then Err(Invalid)
      else
        var p' := p.(currency := Some(a.currency));
        match Add(TotalOf(w.totals, a.currency), p'.Signed())
        case None => Err(Overflow)
        case Some(total) =>
          var (a', done) :- Record(a, p', status);
          Ok(Work(w.changed[p.account := a'], Some(a.ledger), w.totals[a.currency := total], deferred, w.done + [done]))
  }

  function RecordAll(base: Accounts, w: Work, ps: seq<Posting>, status: Status): Res<Work>
    decreases |ps|
  {
    if ps == [] then Ok(w)
    else
      var w' :- RecordOne(base, w, ps[0], status);
      RecordAll(base, w', ps[1..], status)
  }

  predicate BalancedTotals(totals: map<Currency, int>) {
    forall c :: c in totals ==> totals[c] == 0
  }

  function ReleaseHeld(a: Account, amount: int): Res<Account> {
    if amount > a.held then Err(ExceedsHeld)
    else match Sub(a.held, amount)
      case None => Err(Overflow)
      case Some(rest) => Ok(a.(held := rest))
  }

  function ReleaseStaged(base: Accounts, changed: Accounts, r: Option<Release>): Res<Accounts> {
    if r.None? then Ok(changed)
    else
      var a :- Staged(base, changed, r.value.account);
      var a' :- ReleaseHeld(a, r.value.amount);
      Ok(changed[r.value.account := a'])
  }

  /** Checks the balance locks of every entry against the balances the whole change leaves. */
  function CheckLocks(changed: Accounts, ps: seq<Posting>): Res<seq<Posting>>
    requires forall p :: p in ps ==> p.account in changed
  {
    if ps == [] then Ok([])
    else match BalancesOf(changed[ps[0].account])
      case None => Err(Overflow)
      case Some(b) =>
        if !ps[0].LocksHold(b) then Err(BalanceLock)
        else
          var rest :- CheckLocks(changed, ps[1..]);
          Ok([ps[0].(resulting := Some(b))] + rest)
  }

  predicate Funded(base: Accounts, changed: Accounts)
    requires changed.Keys <= base.Keys
  {
    forall id :: id in changed ==> FundsError(changed[id], base[id]).None?
  }

  function Bumped(changed: Accounts): Accounts {
    map id | id in changed :: changed[id].(version := changed[id].version + 1)
  }

  function Commit(base: Accounts, changed: Accounts): Res<Accounts>
    requires changed.Keys <= base.Keys
  {
    if Funded(base, changed) then Ok(Bumped(changed))
    else if exists id :: id in changed && FundsError(changed[id], base[id]) == Some(Overflow) then Err(Overflow)
    else Err(InsufficientFunds)
  }

  /** Everything a change does before its funds are checked. */
  function Stage(base: Accounts, c: Change): Res<Work> {
    var unpended :- Unpend(base, map[], c.unpend);
    var w :- RecordAll(base, Work(unpended, c.ledger, map[], None, []), c.add, c.status);
    if !BalancedTotals(w.totals) then Err(Unbalanced)
    else
      var changed :- ReleaseStaged(base, w.changed, c.release);
      if w.deferred.Some? then Err(w.deferred.value)
      else
        StageKeys(base, c, unpended, w, changed);
        var done :- CheckLocks(changed, w.done);
        Ok(w.(changed := changed, done := done))
  }

  function Transition(base: Accounts, c: Change): Res<Applied> {
    var w :- Stage(base, c);
    StagedInBase(base, c);
    var changed :- Commit(base, w.changed);
    Ok(Applied(w.ledger, w.done, changed))
  }

  /** Holds `amount` of an account's funds; the result is the one changed account. */
  function Reserve(base: Accounts, id: AccountId, currency: Option<Currency>, amount: int): Res<Accounts> {
    if id !in base then Err(NotFound)
    else if !base[id].status.Open? then Err(AccountNotOpen)
    else if currency.Some? && currency.value != base[id].currency then Err(Invalid)
    else match Add(base[id].held, amount)
      case None => Err(Overflow)
      case Some(held) => Commit(base, map[id := base[id].(held := held)])
  }

  /** Returns `amount` of held funds to an account. */
  function ReleaseOf(base: Accounts, id: AccountId, amount: int): Res<Accounts> {
    if id !in base then Err(NotFound)
    else
      var a :- ReleaseHeld(base[id], amount);
      Commit(base, map[id := a])
  }

  /** The two errors the final funds check can give; which one is reported depends on map order. */
  predicate SameError(e: Error, f: Error) {
    e == f || (e in {InsufficientFunds, Overflow} && f in {InsufficientFunds, Overflow})
  }

  // ---- keys ----

  function AccountsOf(ps: seq<Posting>): set<AccountId> {
    set p | p in ps :: p.account
  }

  function Touched(c: Change): set<AccountId> {
    AccountsOf(c.unpend) + AccountsOf(c.add) + (if c.release.Some? then {c.release.value.account} else {})
  }

  lemma {:induction false} UnpendKeys(base: Accounts, changed: Accounts, ps: seq<Posting>)
    requires Unpend(base, changed, ps).Ok?
    requires changed.Keys <= base.Keys
    ensures Unpend(base, changed, ps).value.Keys == changed.Keys + AccountsOf(ps)
    ensures AccountsOf(ps) <= base.Keys
    decreases |ps|
  {
    if ps != [] {
      var a := Staged(base, changed, ps[0].account).value;
      UnpendKeys(base, changed[ps[0].account := UnpendOne(a, ps[0]).value], ps[1..]);
      assert AccountsOf(ps) == {ps[0].account} + AccountsOf(ps[1..]);
    }
  }

  lemma {:induction false} RecordKeys(base: Accounts, w: Work, ps: seq<Posting>, status: Status)
    requires RecordAll(base, w, ps, status).Ok?
    requires w.changed.Keys <= base.Keys && AccountsOf(w.done) <= w.changed.Keys
    ensures RecordAll(base, w, ps, status).value.changed.Keys == w.changed.Keys + AccountsOf(ps)
    ensures AccountsOf(RecordAll(base, w, ps, status).value.done) <= RecordAll(base, w, ps, status).value.changed.Keys
    ensures AccountsOf(ps) <= base.Keys
    decreases |ps|
  {
    if ps != [] {
      var w' := RecordOne(base, w, ps[0], status).value;
      assert AccountsOf(w'.done) <= AccountsOf(w.done) + {ps[0].account};
      RecordKeys(base, w', ps[1..], status);
      assert AccountsOf(ps) == {ps[0].account} + AccountsOf(ps[1..]);
    }
  }

  lemma StageKeys(base: Accounts, c: Change, unpended: Accounts, w: Work, changed: Accounts)
    requires Unpend(base, map[], c.unpend) == Ok(unpended)
    requires RecordAll(base, Work(unpended, c.ledger, map[], None, []), c.add, c.status) == Ok(w)
    requires ReleaseStaged(base, w.changed, c.release) == Ok(changed)
    ensures forall p :: p in w.done ==> p.account in changed
    ensures changed.Keys == Touched(c) <= base.Keys
  {
    UnpendKeys(base, map[], c.unpend);
    RecordKeys(base, Work(unpended, c.ledger, map[], None, []), c.add, c.status);
    forall p | p in w.done ensures p.account in changed {
      assert p.account in AccountsOf(w.done);
    }
  }

  lemma StagedInBase(base: Accounts, c: Change)
    ensures Stage(base, c).Ok? ==> Stage(base, c).value.changed.Keys == Touched(c) <= base.Keys
  {
    if Stage(base, c).Ok? {
      var unpended := Unpend(base, map[], c.unpend).value;
      var w := RecordAll(base, Work(unpended, c.ledger, map[], None, []), c.add, c.status).value;
      StageKeys(base, c, unpended, w, ReleaseStaged(base, w.changed, c.release).value);
    }
  }
}
