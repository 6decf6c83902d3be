/** Exactly how a request is answered, alone and inside a batch, and what it leaves in the tables. */
module RequestOutcomes {
  import opened Wrappers
  import opened Money
  import opened Kernel
  import opened Sums
  import opened BalanceChange
  import opened BalanceEffects
  import opened Tables
  import opened Preservation
  import opened TableWrites
  import opened Engine
  import opened GroupCommit
  import opened EngineSound
  import opened ErrorsRuledOut
  import opened Replays
  import opened Histories

  /** The errors a balance change itself can give. */
  lemma TransitionErrors(base: Accounts, c: Change)
    requires Transition(base, c).Err?
    ensures Transition(base, c).error !in {IdempotencyConflict, ExternalIdExists, PeriodClosed, BatchAborted}
  {
    hide RecordAll;
    hide CheckLocks;
    hide Unpend;
    var unpended := Unpend(base, map[], c.unpend);
    if unpended.Err? {
      UnpendErrors(base, map[], c.unpend);
      return;
    }
    var start := Work(unpended.value, c.ledger, map[], None, []);
    var w := RecordAll(base, start, c.add, c.status);
    if w.Err? {
      RecordAllErrors(base, start, c.add, c.status);
      return;
    }
    DeferredOnlyLocks(base, start, c.add, c.status);
    UnpendKeys(base, map[], c.unpend);
    RecordKeys(base, start, c.add, c.status);
    if ReleaseStaged(base, w.value.changed, c.release).Ok? {
      StageKeys(base, c, unpended.value, w.value, ReleaseStaged(base, w.value.changed, c.release).value);
      LocksOnly(base, c, w.value);
    }
  }

  // ---- one request on the tables ----

  predicate NewKey(db: Database, key: Key) {
    forall t :: 0 <= t < |db.txns| ==> db.txns[t].key != key
  }

  /** The ledger of the request's first account already has a transaction with its external id. */
  predicate ExternalTaken(db: Database, input: PostInput)
    requires input.postings != []
  {
    && input.external.Some? && input.postings[0].account in db.accounts
    && exists t :: 0 <= t < |db.txns| && db.txns[t].external == input.external
                   && db.txns[t].ledger == db.accounts[input.postings[0].account].ledger
  }

  function TimeOf(input: PostInput, now: Time): Time {
    if input.effectiveAt.Some? then input.effectiveAt.value - input.effectiveAt.value % 1000 else now
  }

  /** The request is effective before the ledger of its first account has closed. */
  predicate BeforeClosing(db: Database, input: PostInput, now: Time)
    requires input.postings != []
  {
    var first := input.postings[0].account;
    && first in db.accounts && db.accounts[first].ledger in db.closedBefore
    && TimeOf(input, now) < db.closedBefore[db.accounts[first].ledger]
  }

  /** The balance change a request asks for: its entries under its status, and the hold it releases. */
  function Asked(req: Request): Change {
    Change(None, [], req.input.postings, if req.input.requested.None? then Posted else req.input.requested.value, req.release)
  }

  /** A new transaction with everything its request says. */
  predicate MadeFrom(t: Txn, req: Request, status: Status, now: Time) {
    && t.key == req.input.key && t.external == req.input.external && t.reverses == req.reverses
    && t.status == status && t.version == 1 && t.entriesVersion == 1
    && t.description == req.input.description && t.metadata == req.input.metadata
    && t.effectiveAt == TimeOf(req.input, now) && t.createdAt == now
  }

  /** Every touched account moves as the change says and one version up; no other account moves. */
  ghost predicate AccountsMove(before: Accounts, after: Accounts, c: Change) {
    && after.Keys == before.Keys
    && forall a :: a in before ==>
      after[a] == if a in Touched(c) then Effect(before[a], c, a).(version := before[a].version + 1) else before[a]
  }

  /** The tables have exactly one more transaction, `t`, and every other one reads as before. */
  ghost predicate OneMoreTxn(db: Database, after: Database, t: Txn) {
    && after.txns == db.txns + [t]
    && (forall i :: 0 <= i < |db.txns| ==> PostingsOf(after, i) == PostingsOf(db, i))
    && after.holds == db.holds && after.settlements == db.settlements && after.closedBefore == db.closedBefore
  }

  /** The request is done: its transaction is stored with the entries asked for, and the accounts have moved. */
  ghost predicate Done(db: Database, after: Database, req: Request, now: Time)
    requires req.input.postings != []
  {
    && |after.txns| == |db.txns| + 1
    && var t := after.txns[|db.txns|];
    && MadeFrom(t, req, Asked(req).status, now)
    && req.input.postings[0].account in db.accounts && t.ledger == db.accounts[req.input.postings[0].account].ledger
    && OneMoreTxn(db, after, t)
    && EntriesAsAsked(db.accounts, PostingsOf(after, |db.txns|), req.input.postings)
    && AccountsMove(db.accounts, after.accounts, Asked(req))
  }

  /** The request is kept on record, archived, with the entries asked for; nothing else changes. */
  ghost predicate Filed(db: Database, after: Database, req: Request, now: Time)
    requires req.input.postings != []
  {
    && |after.txns| == |db.txns| + 1
    && var t := after.txns[|db.txns|];
    && MadeFrom(t, req, Archived, now)
    && req.input.postings[0].account in db.accounts && t.ledger == db.accounts[req.input.postings[0].account].ledger
    && OneMoreTxn(db, after, t)
    && EntriesAsAsked(db.accounts, PostingsOf(after, |db.txns|), req.input.postings)
    && after.accounts == db.accounts && after.postings == db.postings
  }

  /** How a request with a new key is decided, on the accounts it needs. */
  lemma FreshExact(db: Database, req: Request, now: Time)
    requires WellFormed(req) && NewKey(db, req.input.key)
    ensures var d := Decide(db, Start(db, Needs(req)), req, now);
      var t := Transition(db.accounts, Asked(req));
      if ExternalTaken(db, req.input) then d == Refuse(ExternalIdExists)
      else if BeforeClosing(db, req.input, now) then d == Refuse(PeriodClosed)
      else match t
        case Ok(applied) =>
          && d.Create? && d.new_.postings == applied.postings && d.changed == applied.changed
          && MadeFrom(d.new_.txn, req, Asked(req).status, now) && Some(d.new_.txn.ledger) == applied.ledger
        case Err(e) =>
          if req.input.archiveOnLockFailure && e in {BalanceLock, LockVersion} then
            && AccountsOf(req.input.postings) <= db.accounts.Keys && req.input.postings[0].account in db.accounts
            && d.Create? && d.changed == map[] && MadeFrom(d.new_.txn, req, Archived, now)
            && d.new_.txn.ledger == db.accounts[req.input.postings[0].account].ledger
            && d.new_.postings == ArchivedPostings(db.accounts, req.input.postings)
          else d == Refuse(e)
  {
    hide Transition;
    hide Matches;
    hide PostingsOf;
    hide FindExternal;
    hide KeyBefore;
    hide ExternalTaken;
    hide BeforeClosing;
    hide DecideFresh;
    KeyFound(db, req.input.key, |db.txns|);
    FreshBarred(db, Lock(db, Needs(req)), TruncatedRequest(req), now);
    FreshDecided(db, Lock(db, Needs(req)), TruncatedRequest(req), now);
    ReadsAlike(db, req, now);
  }

  /** Truncating the effective time changes nothing that is read of a request here. */
  lemma ReadsAlike(db: Database, req: Request, now: Time)
    requires req.input.postings != []
    ensures Asked(TruncatedRequest(req)) == Asked(req)
    ensures ExternalTaken(db, Truncated(req.input)) == ExternalTaken(db, req.input)
    ensures BeforeClosing(db, Truncated(req.input), now) == BeforeClosing(db, req.input, now)
    ensures forall t, status :: MadeFrom(t, TruncatedRequest(req), status, now) == MadeFrom(t, req, status, now)
  {
    assert TimeOf(Truncated(req.input), now) == TimeOf(req.input, now);
  }

  predicate LocksWhatItNeeds(db: Database, accounts: Accounts, req: Request) {
    accounts == Lock(db, Needs(req))
  }

  /** A time that is truncated already. */
  predicate Sharp(input: PostInput) {
    input == Truncated(input)
  }

  lemma FreshBarred(db: Database, accounts: Accounts, req: Request, now: Time)
    requires WellFormed(req) && NewKey(db, req.input.key) && Sharp(req.input) && LocksWhatItNeeds(db, accounts, req)
    ensures var d := DecideFresh(db, accounts, map[], req, now);
      && (ExternalTaken(db, req.input) ==> d == Refuse(ExternalIdExists))
      && (!ExternalTaken(db, req.input) && BeforeClosing(db, req.input, now) ==> d == Refuse(PeriodClosed))
  {
    hide Transition;
    hide FindExternal;
    var first := req.input.postings[0].account;
    assert req.input.postings[0] in req.input.postings;
    if req.input.external.Some? && first in db.accounts {
      ExternalIs(db, db.accounts[first].ledger, req.input.external.value);
    }
  }

  lemma FreshDecided(db: Database, accounts: Accounts, req: Request, now: Time)
    requires WellFormed(req) && NewKey(db, req.input.key) && Sharp(req.input) && LocksWhatItNeeds(db, accounts, req)
    ensures var d := DecideFresh(db, accounts, map[], req, now);
      !ExternalTaken(db, req.input) && !BeforeClosing(db, req.input, now) ==>
      match Transition(db.accounts, Asked(req))
      case Ok(applied) =>
        && d.Create? && d.new_.postings == applied.postings && d.changed == applied.changed
        && MadeFrom(d.new_.txn, req, Asked(req).status, now) && Some(d.new_.txn.ledger) == applied.ledger
      case Err(e) =>
        if req.input.archiveOnLockFailure && e in {BalanceLock, LockVersion} then
          && AccountsOf(req.input.postings) <= db.accounts.Keys && req.input.postings[0].account in db.accounts
          && d.Create? && d.changed == map[] && MadeFrom(d.new_.txn, req, Archived, now)
          && d.new_.txn.ledger == db.accounts[req.input.postings[0].account].ledger
          && d.new_.postings == ArchivedPostings(db.accounts, req.input.postings)
        else d == Refuse(e)
  {
    hide Transition;
    hide FindExternal;
    var first := req.input.postings[0].account;
    assert req.input.postings[0] in req.input.postings;
    if req.input.external.Some? && first in db.accounts {
      ExternalIs(db, db.accounts[first].ledger, req.input.external.value);
    }
    assert Touched(Asked(req)) == Needs(req) && ChangeOf(req) == Asked(req);
    TransitionFrame(accounts, db.accounts, Asked(req));
    var t := Transition(db.accounts, Asked(req));
    if t.Ok? {
      TransitionBalances(db.accounts, Asked(req));
    } else if t.error in {BalanceLock, LockVersion} {
      LockFailureKnowsAccounts(accounts, Asked(req));
      AccountIn(req.input.postings, 0);
      ArchivedAlike(accounts, db.accounts, req.input.postings);
    }
  }

  lemma {:induction false} ExternalKnown(txns: seq<Txn>, ledger: LedgerId, external: string, n: nat)
    requires n <= |txns|
    ensures ExternalBefore(txns, ledger, external, n).Some? <==>
      exists t :: 0 <= t < n && txns[t].external == Some(external) && txns[t].ledger == ledger
  {
    if n > 0 {
      ExternalKnown(txns, ledger, external, n - 1);
    }
  }

  lemma ExternalIs(db: Database, ledger: LedgerId, external: string)
    ensures FindExternal(db, ledger, external).Some? <==>
      exists t :: 0 <= t < |db.txns| && db.txns[t].external == Some(external) && db.txns[t].ledger == ledger
    ensures FindExternal(db, ledger, external).Some? ==>
      exists t :: 0 <= t < |db.txns| && db.txns[t].key == FindExternal(db, ledger, external).value
  {
    ExternalKnown(db.txns, ledger, external, |db.txns|);
    ExternalFound(db.txns, ledger, external, |db.txns|);
  }

  /** A lock fails only once the entries have been found fit to be recorded. */
  lemma LockFailureAdmits(base: Accounts, c: Change)
    requires c.unpend == [] && Transition(base, c).Err? && Transition(base, c).error in {BalanceLock, LockVersion}
    ensures forall p :: p in c.add ==>
      p.account in base && (p.currency.Some? ==> p.currency.value == base[p.account].currency)
  {
    var start := Work(map[], c.ledger, map[], None, []);
    if RecordAll(base, start, c.add, c.status).Ok? {
      RecordAdmits(base, start, c.add, c.status);
    } else {
      RecordErrors(base, start, c.add, c.status);
    }
  }

  lemma FiledEntries(accounts: Accounts, ps: seq<Posting>)
    requires AccountsOf(ps) <= accounts.Keys
    requires forall p :: p in ps ==> p.account in accounts && (p.currency.Some? ==> p.currency.value == accounts[p.account].currency)
    ensures EntriesAsAsked(accounts, Stripped(ArchivedPostings(accounts, ps), false), ps)
  {
    forall i | 0 <= i < |ps| ensures ps[i].account in accounts {
      assert ps[i] in ps;
    }
  }

  lemma AsAskedEither(db: Database, c: Change, applied: Applied, keep: bool)
    requires Guarantees(db.accounts, c, applied)
    ensures EntriesAsAsked(db.accounts, Stripped(applied.postings, keep), c.add)
  {
    StrippedEntries(db, c, applied);
  }

  lemma Moves(base: Accounts, c: Change)
    requires Transition(base, c).Ok?
    ensures AccountsMove(base, base + Transition(base, c).value.changed, c)
  {
    hide Transition;
    hide Effect;
    TransitionEffect(base, c);
  }

  lemma DoneByInsert(db: Database, req: Request, now: Time, t: Txn, applied: Applied)
    requires RowsBelong(db) && WellFormed(req) && Transition(db.accounts, Asked(req)) == Ok(applied)
    requires MadeFrom(t, req, Asked(req).status, now) && Some(t.ledger) == applied.ledger
    ensures Done(db, InsertTxn(db, t, applied.postings, applied.changed), req, now)
  {
    hide Transition;
    hide RowsBelong;
    hide PostingsOf;
    AcceptedFacts(db, req, applied, t.status.Posted?);
    InsertReadsBack(db, t, applied.postings, applied.changed);
    hide Guarantees;
    hide AccountsMove;
    hide EntriesAsAsked;
    hide Stripped;
  }

  lemma AcceptedFacts(db: Database, req: Request, applied: Applied, keep: bool)
    requires WellFormed(req) && Transition(db.accounts, Asked(req)) == Ok(applied)
    ensures EntriesAsAsked(db.accounts, Stripped(applied.postings, keep), req.input.postings)
    ensures AccountsMove(db.accounts, db.accounts + applied.changed, Asked(req))
    ensures req.input.postings[0].account in db.accounts
    ensures applied.ledger == Some(db.accounts[req.input.postings[0].account].ledger)
  {
    hide Transition;
    TransitionGuarantees(db.accounts, Asked(req));
    AsAskedEither(db, Asked(req), applied, keep);
    Moves(db.accounts, Asked(req));
    TransitionBalances(db.accounts, Asked(req));
    assert req.input.postings[0] in Asked(req).add;
  }

  lemma ArchivedEntries(db: Database, req: Request)
    requires WellFormed(req) && AccountsOf(req.input.postings) <= db.accounts.Keys
    requires Transition(db.accounts, Asked(req)).Err? && Transition(db.accounts, Asked(req)).error in {BalanceLock, LockVersion}
    ensures EntriesAsAsked(db.accounts, Stripped(ArchivedPostings(db.accounts, req.input.postings), false), req.input.postings)
  {
    hide Transition;
    LockFailureAdmits(db.accounts, Asked(req));
    FiledEntries(db.accounts, req.input.postings);
  }

  lemma FiledByInsert(db: Database, req: Request, now: Time, t: Txn, ps: seq<Posting>)
    requires RowsBelong(db) && req.input.postings != []
    requires EntriesAsAsked(db.accounts, Stripped(ps, false), req.input.postings)
    requires MadeFrom(t, req, Archived, now)
    requires req.input.postings[0].account in db.accounts && t.ledger == db.accounts[req.input.postings[0].account].ledger
    ensures Filed(db, InsertTxn(db, t, ps, map[]), req, now)
  {
    hide PostingsOf;
    hide Stripped;
    hide EntriesAsAsked;
    hide RowsBelong;
    InsertReadsBack(db, t, ps, map[]);
  }

  lemma ApplyEither(db: Database, req: Request, atomic: bool, now: Time)
    requires req.input.postings != []
    ensures Apply(db, [req], atomic, now) == Apply(db, [req], true, now)
  {
    hide Decide;
    hide Apply;
    ApplySingle(db, req, now);
    AtomicIsAllOrNothing(db, [req], now);
    var d := Decide(db, Start(db, Needs(req)), req, now);
    PlainSingle(db, req, now, d);
    var answers := Apply(db, [req], false, now).1;
    assert AnyFailed(answers) <==> answers[0].Failed?;
    if d.Refuse? {
      assert Apply(db, [req], true, now).1 == [Failed(d.error)];
    }
  }

  lemma RowsOf(db: Database)
    requires Sound(db)
    ensures RowsBelong(db)
  {
    SoundRowsBelong(db);
  }

  lemma PlainSingle(db: Database, req: Request, now: Time, d: Decision)
    requires req.input.postings != [] && d == Decide(db, Start(db, Needs(req)), req, now)
    ensures |Apply(db, [req], false, now).1| == 1
    ensures Apply(db, [req], false, now).1[0].Failed? <==> d.Refuse?
    ensures d.Refuse? ==> Apply(db, [req], false, now) == (db, [Failed(d.error)])
  {
    hide Decide;
    hide Apply;
    ApplyOne(db, req, now);
    StartTracks(db, Needs(req));
    var b := Start(db, Needs(req));
    assert Resolve(db, b, req, now) == Step(db, b, req.input.key, d) && b.results == [];
    if d.Refuse? {
      WriteUncreated(db, b, req.input.key, d);
      assert Step(db, b, req.input.key, d).results == [Failed(d.error)];
    }
  }

  /**
   How a request with a new key is answered. It fails for its external id exactly if a transaction of its ledger has
   it, and for its period exactly if it is otherwise effective before its ledger has closed. Else its balance change
   decides: accepted, the request is done; refused for a lock, it is kept on record if it asks for that; refused for
   anything else, it fails with that and nothing changes.
   */
  lemma SingleExact(db: Database, req: Request, atomic: bool, now: Time)
    requires Sound(db) && WellFormed(req) && NewKey(db, req.input.key)
    ensures var (after, results) := Apply(db, [req], atomic, now);
      var t := Transition(db.accounts, Asked(req));
      && |results| == 1
      && (results[0] == Failed(ExternalIdExists) <==> ExternalTaken(db, req.input))
      && (results[0] == Failed(PeriodClosed) <==> !ExternalTaken(db, req.input) && BeforeClosing(db, req.input, now))
      && (!ExternalTaken(db, req.input) && !BeforeClosing(db, req.input, now) ==>
            if t.Ok? then results[0].Created? && results[0].id == |db.txns| && Done(db, after, req, now)
            else if req.input.archiveOnLockFailure && t.error in {BalanceLock, LockVersion} then
              results[0].Created? && results[0].id == |db.txns| && Filed(db, after, req, now)
            else results[0] == Failed(t.error))
      && (results[0].Failed? ==> after == db)
  {
    hide Sound;
    hide Decide;
    hide Transition;
    hide Done;
    hide Filed;
    hide InsertTxn;
    hide ExternalTaken;
    hide BeforeClosing;
    ApplyEither(db, req, atomic, now);
    ApplySingle(db, req, now);
    FreshExact(db, req, now);
    var t := Transition(db.accounts, Asked(req));
    var d := Decide(db, Start(db, Needs(req)), req, now);
    if t.Err? {
      TransitionErrors(db.accounts, Asked(req));
    }
    if d.Create? {
      RowsOf(db);
      if t.Ok? {
        DoneByInsert(db, req, now, d.new_.txn, t.value);
      } else {
        ArchivedEntries(db, req);
        FiledByInsert(db, req, now, d.new_.txn, d.new_.postings);
      }
    }
  }

  /** A request of the ledger's own making, without an external id, is done exactly if its period and its change allow. */
  lemma SingleOk(db: Database, req: Request, now: Time)
    requires Sound(db) && WellFormed(req) && NewKey(db, req.input.key)
    requires !req.input.archiveOnLockFailure && req.input.external.None?
    ensures var (after, results) := Apply(db, [req], true, now);
      && |results| == 1
      && (results[0].Created? <==> !BeforeClosing(db, req.input, now) && Transition(db.accounts, Asked(req)).Ok?)
      && (results[0].Created? ==> results[0].id == |db.txns| && Done(db, after, req, now))
      && (!results[0].Created? ==> results[0].Failed? && after == db)
  {
    hide Sound;
    hide WellFormed;
    hide NewKey;
    hide BeforeClosing;
    hide Transition;
    hide Done;
    hide Filed;
    hide Apply;
    SingleExact(db, req, true, now);
  }
}
