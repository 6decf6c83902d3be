/** The in-memory ledger state: locked accounts, changed in place by transitions, holds and releases. */
module LedgerStates {
  import opened Wrappers
  import opened Money
  import opened Kernel
  import BalanceChange

  type Change = BalanceChange.Change

  /** Clones of the accounts a transition touches, kept apart until the whole change is accepted. */
  class StagedAccounts {
    const base: Accounts
    var changed: Accounts

    constructor (base: Accounts)
      ensures this.base == base && changed == map[]
    {
      this.base := base;
      changed := map[];
    }

    method Account(id: AccountId) returns (r: Res<Kernel.Account>)
      modifies this
      ensures r == BalanceChange.Staged(base, old(changed), id)
      ensures changed == if r.Ok? then old(changed)[id := r.value] else old(changed)
    {
      if id in changed {
        assert changed == changed[id := changed[id]];
        return Ok(changed[id]);
      }
      if id !in base {
        return Err(NotFound);
      }
      changed := changed[id := base[id]];
      return Ok(base[id]);
    }

    method Unpend(ps: seq<Posting>) returns (r: Res<()>)
      requires changed.Keys <= base.Keys
      modifies this
      ensures var spec := BalanceChange.Unpend(base, old(changed), ps);
        if spec.Ok? then r.Ok? && changed == spec.value else r == Err(spec.error)
    {
      for i := 0 to |ps|
        invariant BalanceChange.Unpend(base, changed, ps[i..]) == BalanceChange.Unpend(base, old(changed), ps)
      {
        var p := ps[i];
        assert ps[i..][0] == p && ps[i..][1..] == ps[i + 1..];
        var before := changed;
        var found := Account(p.account);
        if found.Err? {
          return Err(found.error);
        }
        var a := found.value;
        var total := if p.side.Credit? then a.pendingCredits else a.pendingDebits;
        if p.amount > total {
          return Err(ExceedsPending);
        }
        var rest := Sub(total, p.amount);
        if rest.None? {
          return Err(Overflow);
        }
        if p.side.Credit? {
          a := a.(pendingCredits := rest.value);
        } else {
          a := a.(pendingDebits := rest.value);
        }
        changed := changed[p.account := a];
        assert changed == before[p.account := a];
      }
      return Ok(());
    }

    method CheckResultingLocks(ps: seq<Posting>) returns (r: Res<seq<Posting>>)
      requires forall p :: p in ps ==> p.account in changed
      ensures r == BalanceChange.CheckLocks(changed, ps)
    {
      var out: seq<Posting> := [];
      assert ps[0..] == ps;
      if BalanceChange.CheckLocks(changed, ps).Ok? {
        assert [] + BalanceChange.CheckLocks(changed, ps).value == BalanceChange.CheckLocks(changed, ps).value;
      }
      for i := 0 to |ps|
        invariant |out| == i
        invariant BalanceChange.CheckLocks(changed, ps)
               == var rest := BalanceChange.CheckLocks(changed, ps[i..]);
                  if rest.Ok? then Ok(out + rest.value) else rest
      {
        assert ps[i..][0] == ps[i] && ps[i..][1..] == ps[i + 1..];
        var balances := BalancesOf(changed[ps[i].account]);
        if balances.None? {
          return Err(Overflow);
        }
        if !ps[i].LocksHold(balances.value) {
          return Err(BalanceLock);
        }
        ghost var before := out;
        ghost var rest := BalanceChange.CheckLocks(changed, ps[i + 1..]);
        out := out + [ps[i].(resulting := Some(balances.value))];
        if rest.Ok? {
          assert before + ([ps[i].(resulting := Some(balances.value))] + rest.value) == out + rest.value;
        }
      }
      assert ps[|ps|..] == [] && out + [] == out;
      return Ok(out);
    }
  }

  class LedgerState {
    var accounts: Accounts
    var original: Accounts

    constructor (accounts: Accounts)
      ensures this.accounts == accounts && original == accounts
    {
      this.accounts := accounts;
      original := accounts;
    }

    /** The accounts to write back: those whose version has moved. */
    function Dirty(): (d: Accounts)
      requires accounts.Keys <= original.Keys
      reads this
      ensures forall id :: id in d <==> id in accounts && accounts[id].version != original[id].version
      ensures forall id :: id in d ==> d[id] == accounts[id]
    {
      map id | id in accounts && accounts[id].version != original[id].version :: accounts[id]
    }

    /**
     Applies a whole change or none of it: on success the touched accounts are as the specification
     says, and on any error no account has moved.
     */
    method Transition(c: Change) returns (r: Res<BalanceChange.Applied>)
      modifies this`accounts
      ensures var spec := BalanceChange.Transition(old(accounts), c);
        if spec.Ok? then r == spec && accounts == old(accounts) + spec.value.changed
        else r.Err? && BalanceChange.SameError(r.error, spec.error) && accounts == old(accounts)
    {
      var staged := new StagedAccounts(accounts);
      var unpended := staged.Unpend(c.unpend);
      if unpended.Err? {
        return Err(unpended.error);
      }
      BalanceChange.UnpendKeys(accounts, map[], c.unpend);
      ghost var start := BalanceChange.Work(staged.changed, c.ledger, map[], None, []);
      var recorded := RecordEntries(staged, c.ledger, c.add, c.status);
      if recorded.Err? {
        return Err(recorded.error);
      }
      var w := recorded.value;
      if exists cur :: cur in w.totals && w.totals[cur] != 0 {
        return Err(Unbalanced);
      }
      if c.release.Some? {
        var found := staged.Account(c.release.value.account);
        if found.Err? {
          return Err(found.error);
        }
        var released := BalanceChange.ReleaseHeld(found.value, c.release.value.amount);
        if released.Err? {
          return Err(released.error);
        }
        staged.changed := staged.changed[c.release.value.account := released.value];
        assert staged.changed == w.changed[c.release.value.account := released.value];
      }
      assert BalanceChange.ReleaseStaged(accounts, w.changed, c.release) == Ok(staged.changed);
      if w.deferred.Some? {
        return Err(w.deferred.value);
      }
      BalanceChange.StageKeys(accounts, c, start.changed, w, staged.changed);
      var checked := staged.CheckResultingLocks(w.done);
      if checked.Err? {
        return Err(checked.error);
      }
      assert BalanceChange.Stage(accounts, c) == Ok(w.(changed := staged.changed, done := checked.value));
      var committed := Commit(staged.changed);
      if committed.Err? {
        return Err(committed.error);
      }
      return Ok(BalanceChange.Applied(w.ledger, checked.value, committed.value));
    }

    /** The recording loop: pins the ledger, keeps the currency totals and defers a version lock failure. */
    method RecordEntries(staged: StagedAccounts, ledger: Option<LedgerId>, add: seq<Posting>, status: Status)
      returns (r: Res<BalanceChange.Work>)
      requires staged.base == accounts && staged.changed.Keys <= accounts.Keys
      modifies staged
      ensures r == BalanceChange.RecordAll(accounts, BalanceChange.Work(old(staged.changed), ledger, map[], None, []), add, status)
      ensures r.Ok? ==> staged.changed == r.value.changed
    {
      hide BalanceChange.Record;
      var pinned, totals, deferred, done := ledger, map[], None, [];
      ghost var start := BalanceChange.Work(staged.changed, ledger, map[], None, []);
      for i := 0 to |add|
        invariant staged.changed.Keys <= accounts.Keys
        invariant BalanceChange.RecordAll(accounts, start, add, status)
               == BalanceChange.RecordAll(accounts, BalanceChange.Work(staged.changed, pinned, totals, deferred, done), add[i..], status)
      {
        var p := add[i];
        assert add[i..][0] == p && add[i..][1..] == add[i + 1..];
        ghost var before := BalanceChange.Work(staged.changed, pinned, totals, deferred, done);
        var found := staged.Account(p.account);
        if found.Err? {
          return Err(found.error);
        }
        var a := found.value;
        if !a.status.Open? {
          return Err(AccountNotOpen);
        }
        if deferred.None? && p.lockVersion.Some? && p.lockVersion.value != accounts[p.account].version {
          deferred := Some(LockVersion);
        }
        if pinned.None? {
          pinned := Some(a.ledger);
        } else if a.ledger != pinned.value {
          return Err(CrossLedger);
        }
        if p.currency.Some? && p.currency.value != a.currency {
          return Err(Invalid);
        }
        p := p.(currency := Some(a.currency));
        var total := Add(BalanceChange.TotalOf(totals, a.currency), p.Signed());
        if total.None? {
          return Err(Overflow);
        }
        totals := totals[a.currency := total.value];
        var recorded := BalanceChange.Record(a, p, status);
        if recorded.Err? {
          return Err(recorded.error);
        }
        staged.changed := staged.changed[p.account := recorded.value.0];
        done := done + [recorded.value.1];
        assert BalanceChange.RecordOne(accounts, before, add[i], status).value.changed == staged.changed;
      }
      assert add[|add|..] == [];
      return Ok(BalanceChange.Work(staged.changed, pinned, totals, deferred, done));
    }

    /** Checks the funds of every staged account, in no particular order, then moves all of them. */
    method Commit(scratch: Accounts) returns (r: Res<Accounts>)
      requires scratch.Keys <= accounts.Keys
      modifies this`accounts
      ensures var spec := BalanceChange.Commit(old(accounts), scratch);
        if spec.Ok? then r == spec && accounts == old(accounts) + spec.value
        else r.Err? && BalanceChange.SameError(r.error, spec.error) && accounts == old(accounts)
    {
      var todo := scratch.Keys;
      while todo != {}
        invariant todo <= scratch.Keys
        invariant forall id :: id in scratch && id !in todo ==> FundsError(scratch[id], accounts[id]).None?
        decreases todo
      {
        var id :| id in todo;
        var refused := FundsError(scratch[id], accounts[id]);
        if refused.Some? {
          return Err(refused.value);
        }
        todo := todo - {id};
      }
      var bumped := BalanceChange.Bumped(scratch);
      accounts := accounts + bumped;
      return Ok(bumped);
    }

    method Reserve(id: AccountId, currency: Option<Currency>, amount: int) returns (r: Res<()>)
      modifies this`accounts
      ensures var spec := BalanceChange.Reserve(old(accounts), id, currency, amount);
        if spec.Ok? then r.Ok? && accounts == old(accounts) + spec.value
        else r.Err? && BalanceChange.SameError(r.error, spec.error) && accounts == old(accounts)
    {
      if id !in accounts {
        return Err(NotFound);
      }
      var clone := accounts[id];
      if !clone.status.Open? {
        return Err(AccountNotOpen);
      }
      if currency.Some? && currency.value != clone.currency {
        return Err(Invalid);
      }
      var held := Add(clone.held, amount);
      if held.None? {
        return Err(Overflow);
      }
      clone := clone.(held := held.value);
      var committed := Commit(map[id := clone]);
      return if committed.Ok? then Ok(()) else Err(committed.error);
    }

    method Release(id: AccountId, amount: int) returns (r: Res<()>)
      modifies this`accounts
      ensures var spec := BalanceChange.ReleaseOf(old(accounts), id, amount);
        if spec.Ok? then r.Ok? && accounts == old(accounts) + spec.value
        else r.Err? && BalanceChange.SameError(r.error, spec.error) && accounts == old(accounts)
    {
      if id !in accounts {
        return Err(NotFound);
      }
      var clone := BalanceChange.ReleaseHeld(accounts[id], amount);
      if clone.Err? {
        return Err(clone.error);
      }
      var committed := Commit(map[id := clone.value]);
      return if committed.Ok? then Ok(()) else Err(committed.error);
    }
  }
}
