/** The batch loop over one in-memory ledger state, and the write that follows it. */
module BatchRuns {
  import opened Wrappers
  import opened Money
  import opened Kernel
  import opened BalanceChange
  import opened BalanceEffects
  import opened Tables
  import opened Engine
  import opened GroupCommit
  import opened EngineSound
  import opened LedgerStates

  /** Equal answers, up to which of the two funds errors is reported. */
  predicate Alike(a: Outcome, b: Outcome) {
    a == b || (a.Failed? && b.Failed? && SameError(a.error, b.error))
  }

  predicate AllAlike(a: seq<Outcome>, b: seq<Outcome>) {
    |a| == |b| && forall i :: 0 <= i < |a| ==> Alike(a[i], b[i])
  }

  /** An account whose version has not moved has not moved at all. */
  predicate VersionsTell(original: Accounts, accounts: Accounts) {
    && accounts.Keys == original.Keys
    && forall id :: id in accounts ==>
      accounts[id] == original[id] || original[id].version < accounts[id].version
  }

  lemma TransitionVersions(original: Accounts, accounts: Accounts, c: BalanceChange.Change)
    requires VersionsTell(original, accounts) && BalanceChange.Transition(accounts, c).Ok?
    ensures VersionsTell(original, accounts + BalanceChange.Transition(accounts, c).value.changed)
  {
    TransitionEffect(accounts, c);
  }

  function EffectiveAt(input: PostInput, now: Time): Time {
    if input.effectiveAt.Some? then input.effectiveAt.value else now
  }

  /** Why a request of a new key is turned away before its balance change is tried, if it is. */
  function Barred(db: Database, accounts: Accounts, taken: map<ExternalKey, Key>, input: PostInput, now: Time): Option<Error>
    requires input.postings != []
  {
    var external, first := ExternalOf(accounts, input), input.postings[0].account;
    var owner := if external.Some? then Owner(db, taken, external.value) else None;
    if owner.Some? && owner.value != input.key then Some(ExternalIdExists)
    else if && first in accounts && !input.Status().Archived? && accounts[first].ledger in db.closedBefore
            && EffectiveAt(input, now) < db.closedBefore[accounts[first].ledger] then Some(PeriodClosed)
    else None
  }

  /** What booking a request leaves: status, ledger and entries of its transaction, and the accounts it changed. */
  function Booked(accounts: Accounts, req: Request): Res<((Status, LedgerId, seq<Posting>), Accounts)>
    requires req.input.postings != []
  {
    match BalanceChange.Transition(accounts, ChangeOf(req))
    case Ok(applied) =>
      Ok(((req.input.Status(), if applied.ledger.Some? then applied.ledger.value else 0, applied.postings), applied.changed))
    case Err(e) =>
      if !req.input.archiveOnLockFailure || e !in {BalanceLock, LockVersion} then Err(e)
      else
        LockFailureKnowsAccounts(accounts, ChangeOf(req));
        AccountIn(req.input.postings, 0);
        Ok(((Archived, accounts[req.input.postings[0].account].ledger, ArchivedPostings(accounts, req.input.postings)), map[]))
  }

  /** A fresh decision is: barred, refused by the booking, or created from it. */
  lemma DecisionParts(db: Database, accounts: Accounts, taken: map<ExternalKey, Key>, req: Request, now: Time)
    requires req.input.postings != []
    ensures var barred := Barred(db, accounts, taken, req.input, now);
      DecideFresh(db, accounts, taken, req, now) ==
      if barred.Some? then Refuse(barred.value)
      else match Booked(accounts, req)
        case Err(e) => Refuse(e)
        case Ok(((status, ledger, postings), changed)) =>
          Create(NewTransaction(req.input, req.reverses, status, ledger, postings, EffectiveAt(req.input, now), now),
                 changed, ExternalOf(accounts, req.input))
  {
  }

  /** The variables of one batch, changed in place request by request. */
  class BatchRun {
    const db: Database
    const now: Time
    const state: LedgerState
    var taken: map<ExternalKey, Key>
    var firstByKey: map<Key, nat>
    var results: seq<Outcome>
    var accepted: seq<NewTxn>
    ghost var spec: Batch

    ghost predicate Valid()
      reads this, state
    {
      && Ordered(spec)
      && state.accounts == spec.accounts && taken == spec.taken && firstByKey == spec.first && accepted == spec.accepted
      && AllAlike(results, spec.results)
      && VersionsTell(state.original, state.accounts)
      && (accepted == [] ==> state.accounts == state.original)
    }

    constructor (db: Database, ids: set<AccountId>, now: Time)
      ensures Valid() && spec == Start(db, ids) && this.db == db && this.now == now
      ensures fresh(state) && state.original == Lock(db, ids)
      ensures results == [] && accepted == []
    {
      this.db, this.now := db, now;
      state := new LedgerState(Lock(db, ids));
      taken, firstByKey, results, accepted := map[], map[], [], [];
      spec := Start(db, ids);
    }

    /** Resolves one request and appends its result. */
    method Resolve(req: Request) returns (one: Outcome)
      requires Valid() && req.input.postings != []
      modifies this, state`accounts
      ensures Valid() && spec == Engine.Resolve(db, old(spec), req, now)
      ensures results == old(results) + [one]
      ensures accepted == if one.Created? then old(accepted) + [one.new_] else old(accepted)
    {
      hide DecideFresh;
      hide Matches;
      hide PostingsOf;
      ghost var before := spec;
      var key := req.input.key;
      var input := Truncated(req.input);
      var stored := FindKey(db, key);
      if stored.Some? {
        KeyFound(db, key, |db.txns|);
        var id := stored.value;
        one := if Matches(db.txns[id], PostingsOf(db, id), input) then Replayed(id) else Failed(IdempotencyConflict);
      } else if key in firstByKey {
        var prior := results[firstByKey[key]];
        assert Alike(prior, spec.results[firstByKey[key]]);
        if prior.Failed? {
          one := prior;
        } else if Matches(prior.new_.txn, prior.new_.postings, input) {
          one := Replayed(prior.id);
        } else {
          one := Failed(IdempotencyConflict);
        }
      } else {
        firstByKey := firstByKey[key := |results|];
        one := ResolveNew(req.(input := input));
      }
      results := results + [one];
      spec := Engine.Resolve(db, before, req, now);
    }

    /** A request of a new key: its external id, its period, its balance change, then its transaction. */
    method ResolveNew(req: Request) returns (one: Outcome)
      requires req.input.postings != [] && VersionsTell(state.original, state.accounts)
      modifies this`taken, this`accepted, state`accounts
      ensures VersionsTell(state.original, state.accounts)
      ensures match DecideFresh(db, old(state.accounts), old(taken), req, now)
        case Refuse(e) =>
          && one.Failed? && SameError(one.error, e)
          && state.accounts == old(state.accounts) && taken == old(taken) && accepted == old(accepted)
        case Replay(_) => false
        case Create(new_, changed, external) =>
          && one == Created(|db.txns| + |old(accepted)|, new_) && accepted == old(accepted) + [new_]
          && state.accounts == old(state.accounts) + changed
          && taken == if external.Some? then old(taken)[external.value := req.input.key] else old(taken)
    {
      hide Booked;
      hide Barred;
      hide DecideFresh;
      hide VersionsTell;
      DecisionParts(db, state.accounts, taken, req, now);
      var barred, external := Bar(req.input);
      if barred.Some? {
        return Failed(barred.value);
      }
      var booked := Book(req);
      if booked.Err? {
        return Failed(booked.error);
      }
      if external.Some? {
        taken := taken[external.value := req.input.key];
      }
      var (status, ledger, postings) := booked.value;
      var new_ := NewTransaction(req.input, req.reverses, status, ledger, postings, EffectiveAt(req.input, now), now);
      one := Created(|db.txns| + |accepted|, new_);
      accepted := accepted + [new_];
    }

    method Bar(input: PostInput) returns (barred: Option<Error>, external: Option<ExternalKey>)
      requires input.postings != []
      ensures barred == Barred(db, state.accounts, taken, input, now)
      ensures barred.None? ==> external == ExternalOf(state.accounts, input)
    {
      var first := input.postings[0].account;
      external := None;
      if first in state.accounts && input.external.Some? {
        external := Some((state.accounts[first].ledger, input.external.value));
        var owner := Owner(db, taken, external.value);
        if owner.Some? && owner.value != input.key {
          return Some(ExternalIdExists), None;
        }
      }
      if && first in state.accounts && !input.Status().Archived? && state.accounts[first].ledger in db.closedBefore
         && EffectiveAt(input, now) < db.closedBefore[state.accounts[first].ledger] {
        return Some(PeriodClosed), None;
      }
      barred := None;
    }

    /** Applies the balance change of a request, or archives the request when a balance lock refuses it. */
    method Book(req: Request) returns (r: Res<(Status, LedgerId, seq<Posting>)>)
      requires req.input.postings != [] && VersionsTell(state.original, state.accounts)
      modifies state`accounts
      ensures VersionsTell(state.original, state.accounts)
      ensures match Booked(old(state.accounts), req)
        case Ok((booked, changed)) => r == Ok(booked) && state.accounts == old(state.accounts) + changed
        case Err(e) => r.Err? && SameError(r.error, e) && state.accounts == old(state.accounts)
    {
      hide BalanceChange.Transition;
      ghost var accounts := state.accounts;
      var input, c := req.input, ChangeOf(req);
      var applied := state.Transition(c);
      if applied.Ok? {
        TransitionVersions(state.original, accounts, c);
        return Ok((input.Status(), if applied.value.ledger.Some? then applied.value.ledger.value else 0, applied.value.postings));
      }
      if !input.archiveOnLockFailure || applied.error !in {BalanceLock, LockVersion} {
        return Err(applied.error);
      }
      LockFailureKnowsAccounts(accounts, c);
      AccountIn(input.postings, 0);
      assert accounts + map[] == accounts;
      return Ok((Archived, state.accounts[input.postings[0].account].ledger, ArchivedPostings(state.accounts, input.postings)));
    }
  }
}
