/** What an accepted balance change means: exact sums per account, balanced currencies, prefix-sum balances. */
module BalanceEffects {
  import opened Wrappers
  import opened Money
  import opened Kernel
  import opened Sums
  import opened BalanceChange

  function OnSide(id: AccountId, side: Side): Posting -> int {
    (p: Posting) => if p.account == id && p.side == side then p.amount else 0
  }

  function NetOn(id: AccountId): Posting -> int {
    (p: Posting) => if p.account == id then p.Signed() else 0
  }

  function InCurrency(base: Accounts, c: Currency): Posting -> int {
    (p: Posting) => if p.account in base && base[p.account].currency == c then p.Signed() else 0
  }

  function View(base: Accounts, changed: Accounts, id: AccountId): Account
    requires id in base
  {
    if id in changed then changed[id] else base[id]
  }

  function Unpended(a: Account, ps: seq<Posting>, id: AccountId): Account {
    a.(pendingDebits := a.pendingDebits - Sum(ps, OnSide(id, Debit)),
       pendingCredits := a.pendingCredits - Sum(ps, OnSide(id, Credit)))
  }

  function Recorded(a: Account, ps: seq<Posting>, id: AccountId, status: Status): Account {
    if status.Pending? then
      a.(pendingDebits := a.pendingDebits + Sum(ps, OnSide(id, Debit)),
         pendingCredits := a.pendingCredits + Sum(ps, OnSide(id, Credit)))
    else
      a.(postedDebits := a.postedDebits + Sum(ps, OnSide(id, Debit)),
         postedCredits := a.postedCredits + Sum(ps, OnSide(id, Credit)))
  }

  function Released(a: Account, r: Option<Release>, id: AccountId): Account {
    if r.Some? && r.value.account == id then a.(held := a.held - r.value.amount) else a
  }

  /** The account an accepted change leaves, before its version moves. */
  function Effect(a: Account, c: Change, id: AccountId): Account {
    Released(Recorded(Unpended(a, c.unpend, id), c.add, id, c.status), c.release, id)
  }

  // ---- account by account ----

  lemma {:induction false} UnpendEffect(base: Accounts, changed: Accounts, ps: seq<Posting>, id: AccountId)
    requires Unpend(base, changed, ps).Ok?
    requires changed.Keys <= base.Keys && id in base
    ensures View(base, Unpend(base, changed, ps).value, id) == Unpended(View(base, changed, id), ps, id)
    decreases |ps|
  {
    if ps != [] {
      var a := Staged(base, changed, ps[0].account).value;
      UnpendEffect(base, changed[ps[0].account := UnpendOne(a, ps[0]).value], ps[1..], id);
    }
  }

  lemma {:induction false} RecordEffect(base: Accounts, w: Work, ps: seq<Posting>, status: Status, id: AccountId)
    requires RecordAll(base, w, ps, status).Ok?
    requires w.changed.Keys <= base.Keys && id in base
    ensures View(base, RecordAll(base, w, ps, status).value.changed, id)
         == Recorded(View(base, w.changed, id), ps, id, status)
    decreases |ps|
  {
    if ps != [] {
      RecordEffect(base, RecordOne(base, w, ps[0], status).value, ps[1..], status, id);
    }
  }

  lemma ReleaseEffect(base: Accounts, changed: Accounts, r: Option<Release>, id: AccountId)
    requires ReleaseStaged(base, changed, r).Ok? && id in base
    requires changed.Keys <= base.Keys
    ensures View(base, ReleaseStaged(base, changed, r).value, id) == Released(View(base, changed, id), r, id)
  {
  }

  /** The intermediate results of an accepted staging. */
  lemma StageParts(base: Accounts, c: Change) returns (unpended: Accounts, w: Work)
    requires Stage(base, c).Ok?
    ensures Unpend(base, map[], c.unpend) == Ok(unpended)
    ensures RecordAll(base, Work(unpended, c.ledger, map[], None, []), c.add, c.status) == Ok(w)
    ensures BalancedTotals(w.totals)
    ensures ReleaseStaged(base, w.changed, c.release) == Ok(Stage(base, c).value.changed)
    ensures w.ledger == Stage(base, c).value.ledger
    ensures forall p :: p in w.done ==> p.account in Stage(base, c).value.changed
    ensures CheckLocks(Stage(base, c).value.changed, w.done) == Ok(Stage(base, c).value.done)
    ensures unpended.Keys <= base.Keys && w.changed.Keys <= base.Keys
  {
    unpended := Unpend(base, map[], c.unpend).value;
    w := RecordAll(base, Work(unpended, c.ledger, map[], None, []), c.add, c.status).value;
    StageKeys(base, c, unpended, w, ReleaseStaged(base, w.changed, c.release).value);
    UnpendKeys(base, map[], c.unpend);
    RecordKeys(base, Work(unpended, c.ledger, map[], None, []), c.add, c.status);
  }

  lemma StageEffect(base: Accounts, c: Change, id: AccountId)
    requires Stage(base, c).Ok? && id in base
    ensures View(base, Stage(base, c).value.changed, id) == Effect(base[id], c, id)
  {
    var unpended, w := StageParts(base, c);
    var start := Work(unpended, c.ledger, map[], None, []);
    UnpendEffect(base, map[], c.unpend, id);
    RecordEffect(base, start, c.add, c.status, id);
    ReleaseEffect(base, w.changed, c.release, id);
  }

  /** The funds check let `after` replace `before`, which has the same overdraft terms. */
  ghost predicate Cleared(before: Account, after: Account) {
    && FundsError(after, before).None?
    && after.overdraftLimit == before.overdraftLimit && after.allowNegative == before.allowNegative
  }

  /** An accepted change is its staged accounts, each as its entries say, one version up and funded. */
  lemma TransitionStaged(base: Accounts, c: Change) returns (staged: Accounts)
    requires Transition(base, c).Ok?
    ensures staged.Keys == Touched(c) <= base.Keys
    ensures Transition(base, c).value.changed == Bumped(staged)
    ensures forall id :: id in staged ==> staged[id] == Effect(base[id], c, id)
    ensures forall id :: id in staged ==> Cleared(base[id], staged[id])
  {
    hide FundsError;
    hide Effect;
    hide CheckLocks;
    hide BalancedTotals;
    hide Unpend;
    hide RecordAll;
    hide ReleaseStaged;
    StagedInBase(base, c);
    staged := Stage(base, c).value.changed;
    forall id | id in staged ensures staged[id] == Effect(base[id], c, id) && Cleared(base[id], staged[id]) {
      StageEffect(base, c, id);
      EffectKeepsTerms(base[id], c, id);
    }
  }

  /** An accepted change moves exactly the touched accounts, each by the sums of its entries, one version up. */
  lemma TransitionEffect(base: Accounts, c: Change)
    requires Transition(base, c).Ok?
    ensures var changed := Transition(base, c).value.changed;
      && changed.Keys == Touched(c) <= base.Keys
      && forall id :: id in changed ==>
        changed[id] == Effect(base[id], c, id).(version := base[id].version + 1)
  {
    hide FundsError;
    hide Available;
    hide Funds;
    hide AboveFloor;
    hide Cleared;
    hide Effect;
    hide Transition;
    var staged := TransitionStaged(base, c);
    forall id | id in staged
      ensures Bumped(staged)[id] == Effect(base[id], c, id).(version := base[id].version + 1)
    {
      EffectKeepsTerms(base[id], c, id);
    }
  }

  // ---- bounds ----

  /** Every staged account keeps its totals within bounds. */
  ghost predicate FitKept(base: Accounts, changed: Accounts) {
    forall id :: id in changed ==> id in base && (TotalsFit(base[id]) ==> TotalsFit(changed[id]))
  }

  lemma {:induction false} UnpendFits(base: Accounts, changed: Accounts, ps: seq<Posting>)
    requires Unpend(base, changed, ps).Ok? && FitKept(base, changed)
    ensures FitKept(base, Unpend(base, changed, ps).value)
    decreases |ps|
  {
    if ps != [] {
      var a := Staged(base, changed, ps[0].account).value;
      UnpendFits(base, changed[ps[0].account := UnpendOne(a, ps[0]).value], ps[1..]);
    }
  }

  lemma {:induction false} RecordFits(base: Accounts, w: Work, ps: seq<Posting>, status: Status)
    requires RecordAll(base, w, ps, status).Ok? && FitKept(base, w.changed)
    ensures FitKept(base, RecordAll(base, w, ps, status).value.changed)
    decreases |ps|
  {
    if ps != [] {
      RecordFits(base, RecordOne(base, w, ps[0], status).value, ps[1..], status);
    }
  }

  lemma TransitionFits(base: Accounts, c: Change)
    requires Transition(base, c).Ok?
    ensures FitKept(base, Transition(base, c).value.changed)
  {
    hide FundsError;
    hide CheckLocks;
    hide BalancedTotals;
    hide Unpend;
    hide RecordAll;
    var unpended, w := StageParts(base, c);
    UnpendFits(base, map[], c.unpend);
    RecordFits(base, Work(unpended, c.ledger, map[], None, []), c.add, c.status);
    StagedInBase(base, c);
  }

  // ---- funds ----

  /** The funds check of an accepted change, in terms of the accounts before and after. */
  lemma TransitionFunds(base: Accounts, c: Change)
    requires Transition(base, c).Ok?
    ensures Transition(base, c).value.changed.Keys <= base.Keys
    ensures AllFunded(base, Transition(base, c).value.changed)
  {
    var staged := TransitionStaged(base, c);
    BumpedAllFunded(base, staged);
  }

  ghost predicate AllFunded(base: Accounts, changed: Accounts)
    requires changed.Keys <= base.Keys
  {
    forall id :: id in changed ==> FundedAccount(base[id], changed[id])
  }

  lemma BumpedAllFunded(base: Accounts, staged: Accounts)
    requires staged.Keys <= base.Keys
    requires forall id :: id in staged ==> Cleared(base[id], staged[id])
    ensures AllFunded(base, Bumped(staged))
  {
    hide FundsError;
    hide Available;
    hide Funds;
    hide AboveFloor;
    hide Cleared;
    hide FundedAccount;
    forall id | id in staged ensures FundedAccount(base[id], Bumped(staged)[id]) {
      BumpedFunds(base[id], staged[id]);
    }
  }

  /** `after` has computable funds, and they are above the floor if those of `before` were. */
  ghost predicate FundedAccount(before: Account, after: Account) {
    && Available(after) == Some(Funds(after))
    && (AboveFloor(before) ==> AboveFloor(after))
  }

  lemma BumpedFunds(before: Account, after: Account)
    requires Cleared(before, after)
    ensures FundedAccount(before, after.(version := after.version + 1))
  {
    FundsKept(after, before);
    VersionFree(after, after.version + 1);
  }

  lemma EffectKeepsTerms(a: Account, c: Change, id: AccountId)
    ensures var e := Effect(a, c, id);
      && e.overdraftLimit == a.overdraftLimit && e.allowNegative == a.allowNegative && e.version == a.version
      && e.status == a.status && e.ledger == a.ledger && e.currency == a.currency && e.normalSide == a.normalSide
  {
  }

  lemma VersionFree(a: Account, version: int)
    ensures Available(a.(version := version)) == Available(a)
    ensures Funds(a.(version := version)) == Funds(a)
    ensures AboveFloor(a.(version := version)) == AboveFloor(a)
  {
  }

  /** A change that passes the funds check either does not lower the funds or leaves them above the floor. */
  lemma FundsKept(after: Account, before: Account)
    requires FundsError(after, before).None?
    requires after.overdraftLimit == before.overdraftLimit && after.allowNegative == before.allowNegative
    ensures Available(after) == Some(Funds(after))
    ensures AboveFloor(before) ==> AboveFloor(after)
  {
    AvailableIsFunds(after);
    AvailableIsFunds(before);
  }

  lemma AvailableIsFunds(a: Account)
    requires Available(a).Some?
    ensures Available(a) == Some(Funds(a))
  {
  }

  /** The available balance an account shows is the one its funds are checked by; pending and held only ever lower it. */
  lemma BalancesAgree(a: Account)
    requires BalancesOf(a).Some?
    ensures var b := BalancesOf(a).value;
      && Available(a).Some? ==> b.available.amount == Available(a).value == Funds(a)
    ensures var b := BalancesOf(a).value;
      && b.posted.amount == Inflow(a) - Outflow(a)
      && b.pending.amount == b.posted.amount + (if a.normalSide.Credit? then a.pendingCredits - a.pendingDebits
                                                else a.pendingDebits - a.pendingCredits)
      && b.available.amount == b.posted.amount - PendingOutflow(a) - a.held
  {
  }

  // ---- currencies, ledgers, statuses ----

  /** What recording has established about the entries it has taken. */
  ghost predicate Admitted(base: Accounts, ps: seq<Posting>, ledger: Option<LedgerId>) {
    forall p :: p in ps ==>
      && p.account in base
      && base[p.account].status.Open?
      && ledger == Some(base[p.account].ledger)
      && (p.currency.Some? ==> p.currency.value == base[p.account].currency)
  }

  /** A work item keeps the fields no entry may change. */
  ghost predicate Faithful(base: Accounts, changed: Accounts) {
    forall id :: id in changed ==>
      && id in base
      && changed[id].status == base[id].status
      && changed[id].ledger == base[id].ledger
      && changed[id].currency == base[id].currency
  }

  lemma {:induction false} RecordAdmits(base: Accounts, w: Work, ps: seq<Posting>, status: Status)
    requires RecordAll(base, w, ps, status).Ok?
    requires Faithful(base, w.changed)
    ensures var w' := RecordAll(base, w, ps, status).value;
      && Faithful(base, w'.changed)
      && Admitted(base, ps, w'.ledger)
      && (w.ledger.Some? ==> w'.ledger == w.ledger)
      && (ps == [] ==> w'.ledger == w.ledger)
    ensures forall c :: TotalOf(RecordAll(base, w, ps, status).value.totals, c)
                     == TotalOf(w.totals, c) + Sum(ps, InCurrency(base, c))
    decreases |ps|
  {
    if ps != [] {
      RecordAdmits(base, RecordOne(base, w, ps[0], status).value, ps[1..], status);
    }
  }

  lemma {:induction false} UnpendFaithful(base: Accounts, changed: Accounts, ps: seq<Posting>)
    requires Unpend(base, changed, ps).Ok?
    requires Faithful(base, changed)
    ensures Faithful(base, Unpend(base, changed, ps).value)
    decreases |ps|
  {
    if ps != [] {
      var a := Staged(base, changed, ps[0].account).value;
      UnpendFaithful(base, changed[ps[0].account := UnpendOne(a, ps[0]).value], ps[1..]);
    }
  }

  /**
   Double entry: in an accepted change every currency's debits equal its credits, and every entry
   is on an open account of one ledger, in that account's currency.
   */
  lemma TransitionBalances(base: Accounts, c: Change)
    requires Transition(base, c).Ok?
    ensures forall cur :: Sum(c.add, InCurrency(base, cur)) == 0
    ensures Admitted(base, c.add, Transition(base, c).value.ledger)
    ensures c.ledger.Some? ==> Transition(base, c).value.ledger == c.ledger
    ensures c.add == [] ==> Transition(base, c).value.ledger == c.ledger
  {
    var unpended, w := StageParts(base, c);
    var start := Work(unpended, c.ledger, map[], None, []);
    UnpendFaithful(base, map[], c.unpend);
    RecordAdmits(base, start, c.add, c.status);
    forall cur ensures Sum(c.add, InCurrency(base, cur)) == 0 {
      assert TotalOf(w.totals, cur) == 0 + Sum(c.add, InCurrency(base, cur));
    }
  }

  // ---- the recorded entries ----

  function Net(a: Account): int {
    a.postedDebits - a.postedCredits
  }

  /**
   `out` is `ps` as recorded: same accounts, sides and amounts, the account's currency, and, when posted,
   the balance the entry leaves: the balance before the change plus the account's entries so far.
   */
  ghost predicate RecordedAs(base: Accounts, net: AccountId -> int, ps: seq<Posting>, status: Status, out: seq<Posting>) {
    && |out| == |ps|
    && forall k :: 0 <= k < |ps| ==>
      && ps[k].account in base
      && out[k].account == ps[k].account
      && out[k].side == ps[k].side
      && out[k].amount == ps[k].amount
      && out[k].currency == Some(base[ps[k].account].currency)
      && (!status.Pending? ==> out[k].balanceAfter == net(ps[k].account) + Sum(ps[..k + 1], NetOn(ps[k].account)))
  }

  function NetIn(base: Accounts, changed: Accounts): AccountId -> int {
    (id: AccountId) => if id in base then Net(View(base, changed, id)) else 0
  }

  lemma RecordDoneOne(base: Accounts, w: Work, p: Posting, status: Status)
    requires RecordOne(base, w, p, status).Ok?
    requires Faithful(base, w.changed)
    ensures var w' := RecordOne(base, w, p, status).value;
      && Faithful(base, w'.changed)
      && |w'.done| == |w.done| + 1 && w.done == w'.done[..|w.done|]
      && RecordedAs(base, NetIn(base, w.changed), [p], status, [w'.done[|w.done|]])
  {
    hide Record;
    var a := Staged(base, w.changed, p.account).value;
    var p' := p.(currency := Some(a.currency));
    RecordedEntry(a, p', status);
    var w' := RecordOne(base, w, p, status).value;
    RecordedAlone(base, NetIn(base, w.changed), p, status, w'.done[|w.done|]);
  }

  lemma RecordedAlone(base: Accounts, net: AccountId -> int, p: Posting, status: Status, out: Posting)
    requires p.account in base && out.account == p.account && out.side == p.side && out.amount == p.amount
    requires out.currency == Some(base[p.account].currency)
    requires !status.Pending? ==> out.balanceAfter == net(p.account) + p.Signed()
    ensures RecordedAs(base, net, [p], status, [out])
  {
    assert [p][..1] == [p] && [p][1..] == [];
    assert Sum([p], NetOn(p.account)) == NetOn(p.account)(p) + Sum([], NetOn(p.account));
  }

  lemma RecordedEntry(a: Account, p: Posting, status: Status)
    requires Record(a, p, status).Ok?
    ensures var (a', p') := Record(a, p, status).value;
      && a'.status == a.status && a'.ledger == a.ledger && a'.currency == a.currency
      && p'.account == p.account && p'.side == p.side && p'.amount == p.amount && p'.currency == p.currency
      && Net(a') == (if status.Pending? then Net(a) else Net(a) + p.Signed())
      && (!status.Pending? ==> p'.balanceAfter == Net(a'))
  {
  }

  lemma RecordOneNet(base: Accounts, w: Work, p: Posting, status: Status, id: AccountId)
    requires RecordOne(base, w, p, status).Ok?
    requires w.changed.Keys <= base.Keys
    ensures NetIn(base, RecordOne(base, w, p, status).value.changed)(id)
         == NetIn(base, w.changed)(id) + (if status.Pending? then 0 else NetOn(id)(p))
  {
    var a := Staged(base, w.changed, p.account).value;
    RecordedEntry(a, p.(currency := Some(a.currency)), status);
  }

  /** Recording one entry and then the others is recording them all. */
  lemma RecordedCons(base: Accounts, net: AccountId -> int, next: AccountId -> int, p: Posting, ps: seq<Posting>,
                     status: Status, one: Posting, rest: seq<Posting>)
    requires RecordedAs(base, net, [p], status, [one])
    requires RecordedAs(base, next, ps, status, rest)
    requires forall id :: next(id) == net(id) + (if status.Pending? then 0 else NetOn(id)(p))
    ensures RecordedAs(base, net, [p] + ps, status, [one] + rest)
  {
    var all, out := [p] + ps, [one] + rest;
    forall k | 0 <= k < |all|
      ensures all[k].account in base && out[k].account == all[k].account && out[k].side == all[k].side
      ensures out[k].amount == all[k].amount && out[k].currency == Some(base[all[k].account].currency)
      ensures !status.Pending? ==> out[k].balanceAfter == net(all[k].account) + Sum(all[..k + 1], NetOn(all[k].account))
    {
      if k == 0 {
        assert all[..1] == [p][..1];
      } else {
        assert all[k] == ps[k - 1] && out[k] == rest[k - 1];
        assert all[..k + 1] == [p] + ps[..k - 1 + 1];
      }
    }
  }

  lemma {:induction false} RecordDone(base: Accounts, w: Work, ps: seq<Posting>, status: Status)
    requires RecordAll(base, w, ps, status).Ok?
    requires Faithful(base, w.changed)
    ensures var w' := RecordAll(base, w, ps, status).value;
      && |w.done| <= |w'.done| && w.done == w'.done[..|w.done|]
      && RecordedAs(base, NetIn(base, w.changed), ps, status, w'.done[|w.done|..])
    decreases |ps|
  {
    if ps != [] {
      var w1 := RecordOne(base, w, ps[0], status).value;
      RecordDoneOne(base, w, ps[0], status);
      forall id {
        RecordOneNet(base, w, ps[0], status, id);
      }
      RecordDone(base, w1, ps[1..], status);
      var done := RecordAll(base, w1, ps[1..], status).value.done;
      RecordedCons(base, NetIn(base, w.changed), NetIn(base, w1.changed), ps[0], ps[1..], status,
                   w1.done[|w.done|], done[|w1.done|..]);
      SliceCons(w.done, w1.done, done);
      assert ps == [ps[0]] + ps[1..];
    }
  }

  lemma SliceCons<T>(start: seq<T>, next: seq<T>, all: seq<T>)
    requires |next| == |start| + 1 <= |all|
    requires start == next[..|start|] && next == all[..|next|]
    ensures start == all[..|start|]
    ensures all[|start|..] == [next[|start|]] + all[|next|..]
  {
    assert all[|start|] == all[..|next|][|start|];
  }

  lemma {:induction false} LocksKeepEntries(changed: Accounts, ps: seq<Posting>)
    requires forall p :: p in ps ==> p.account in changed
    requires CheckLocks(changed, ps).Ok?
    ensures var out := CheckLocks(changed, ps).value;
      && |out| == |ps|
      && forall k :: 0 <= k < |ps| ==> out[k] == ps[k].(resulting := BalancesOf(changed[ps[k].account]))
  {
    if ps != [] {
      LocksKeepEntries(changed, ps[1..]);
    }
  }

  lemma NetAfterUnpend(base: Accounts, ps: seq<Posting>)
    requires Unpend(base, map[], ps).Ok?
    ensures forall id :: NetIn(base, Unpend(base, map[], ps).value)(id) == NetIn(base, map[])(id)
  {
    forall id ensures NetIn(base, Unpend(base, map[], ps).value)(id) == NetIn(base, map[])(id) {
      if id in base {
        UnpendEffect(base, map[], ps, id);
      }
    }
  }

  /** The entries an accepted change records; `balanceAfter` is a prefix sum per account. */
  lemma TransitionRecords(base: Accounts, c: Change)
    requires Transition(base, c).Ok?
    ensures RecordedAs(base, NetIn(base, map[]), c.add, c.status, Transition(base, c).value.postings)
  {
    var unpended, w := StageParts(base, c);
    var start := Work(unpended, c.ledger, map[], None, []);
    UnpendFaithful(base, map[], c.unpend);
    RecordDone(base, start, c.add, c.status);
    NetAfterUnpend(base, c.unpend);
    assert w.done[0..] == w.done;
    LocksKeepEntries(Stage(base, c).value.changed, w.done);
  }

  // ---- frame ----

  /** A change reads only the accounts it touches: on any two account maps agreeing there it behaves alike. */
  lemma TransitionFrame(base: Accounts, other: Accounts, c: Change)
    requires forall id :: id in Touched(c) ==> (id in base <==> id in other) && (id in base ==> base[id] == other[id])
    ensures Transition(base, c) == Transition(other, c)
  {
    hide Unpend;
    hide RecordAll;
    hide CheckLocks;
    hide BalancedTotals;
    hide FundsError;
    UnpendFrame(base, other, map[], c.unpend);
    if Unpend(base, map[], c.unpend).Ok? {
      var start := Work(Unpend(base, map[], c.unpend).value, c.ledger, map[], None, []);
      RecordFrame(base, other, start, c.add, c.status);
      assert Stage(base, c) == Stage(other, c);
      StagedInBase(base, c);
      StagedInBase(other, c);
    }
  }

  lemma {:induction false} UnpendFrame(base: Accounts, other: Accounts, changed: Accounts, ps: seq<Posting>)
    requires forall p :: p in ps ==>
      (p.account in base <==> p.account in other) && (p.account in base ==> base[p.account] == other[p.account])
    ensures Unpend(base, changed, ps) == Unpend(other, changed, ps)
    decreases |ps|
  {
    if ps != [] {
      var a := Staged(base, changed, ps[0].account);
      assert ps[0] in ps && a == Staged(other, changed, ps[0].account);
      if a.Ok? && UnpendOne(a.value, ps[0]).Ok? {
        UnpendFrame(base, other, changed[ps[0].account := UnpendOne(a.value, ps[0]).value], ps[1..]);
      }
    }
  }

  lemma {:induction false} RecordFrame(base: Accounts, other: Accounts, w: Work, ps: seq<Posting>, status: Status)
    requires forall p :: p in ps ==>
      (p.account in base <==> p.account in other) && (p.account in base ==> base[p.account] == other[p.account])
    ensures RecordAll(base, w, ps, status) == RecordAll(other, w, ps, status)
    decreases |ps|
  {
    if ps != [] {
      assert ps[0] in ps && RecordOne(base, w, ps[0], status) == RecordOne(other, w, ps[0], status);
      if RecordOne(base, w, ps[0], status).Ok? {
        RecordFrame(base, other, RecordOne(base, w, ps[0], status).value, ps[1..], status);
      }
    }
  }
}
