/** The batch engine keeps the integrity of the tables, whatever requests it is given. */
module EngineSound {
  import opened Wrappers
  import opened Money
  import opened Kernel
  import opened Sums
  import opened BalanceChange
  import opened BalanceEffects
  import opened Tables
  import opened Preservation
  import opened TableWrites
  import opened Engine
  import opened GroupCommit

  /** No stored transaction reverses the one this request reverses. */
  predicate FreshReversal(db: Database, reverses: Option<TxnId>) {
    reverses.Some? ==> forall i :: 0 <= i < |db.txns| ==> db.txns[i].reverses != reverses
  }

  lemma BatchAgrees(db: Database, b: Batch, ids: set<AccountId>)
    requires Tracks(db, b, ids)
    ensures AgreeOn(b.accounts, Write(db, b).accounts, ids)
  {
  }

  lemma CreatedFresh(db: Database, b: Batch, ids: set<AccountId>, req: Request, now: Time)
    requires Tracks(db, b, ids)
    requires req.input.postings != []
    requires FreshReversal(Write(db, b), req.reverses)
    requires Decide(db, b, req, now).Create?
    ensures Fresh(Write(db, b), Decide(db, b, req, now).new_.txn)
  {
    var alone, t := Write(db, b), Decide(db, b, req, now).new_.txn;
    CreatedShape(db, b.accounts, b.taken, TruncatedRequest(req), now);
    FindKeyAfter(db, b, ids, req.input.key);
    KeyFound(alone, req.input.key, |alone.txns|);
    if t.external.Some? {
      assert Owner(db, b.taken, (t.ledger, t.external.value)) == FindExternal(alone, t.ledger, t.external.value);
      ExternalFound(alone.txns, t.ledger, t.external.value, |alone.txns|);
    }
  }

  /** What a created request still owes: the hold it released is resolved by its caller. */
  function Due(d: Decision, req: Request): Option<Release> {
    if d.Create? && !d.new_.txn.status.Archived? then req.release else None
  }

  /** Creating a transaction in the batch inserts it into the tables the batch would write. */
  lemma CreateWrites(db: Database, b: Batch, ids: set<AccountId>, req: Request, now: Time, d: Decision)
    returns (applied: Option<Applied>)
    requires Tracks(db, b, ids)
    requires WellFormed(req) && Needs(req) <= ids
    requires FreshReversal(Write(db, b), req.reverses)
    requires d == Decide(db, b, req, now) && d.Create?
    ensures CreatesBy(Write(db, b), TruncatedRequest(req), d, applied)
    ensures Fresh(Write(db, b), d.new_.txn)
    ensures Write(db, Resolve(db, b, req, now)) == InsertTxn(Write(db, b), d.new_.txn, d.new_.postings, d.changed)
  {
    var alone := Write(db, b);
    CreatedShape(db, b.accounts, b.taken, TruncatedRequest(req), now);
    WriteCreated(db, b, req.input.key, d.new_, d.changed, d.external);
    CreatedFresh(db, b, ids, req, now);
    BatchAgrees(db, b, ids);
    applied := CreateParts(db, alone, b.accounts, b.taken, TruncatedRequest(req), now);
  }

  /**
   The two ways a request creates a transaction: as asked, by an accepted change of the tables' own accounts,
   or archived, because a balance lock failed.
   */
  ghost predicate CreatesBy(db: Database, req: Request, d: Decision, applied: Option<Applied>) {
    && d.Create? && d.new_.txn.version == d.new_.txn.entriesVersion == 1
    && match applied
       case Some(a) =>
         && Guarantees(db.accounts, ChangeOf(req), a)
         && d.new_.txn.status == req.input.Status() && d.new_.postings == a.postings && d.changed == a.changed
       case None =>
         && req.input.archiveOnLockFailure && d.changed == map[]
         && InsertsArchived(db, d.new_.txn, d.new_.postings)
  }

  lemma CreateParts(db: Database, alone: Database, accounts: Accounts, taken: map<ExternalKey, Key>, req: Request, now: Time)
    returns (applied: Option<Applied>)
    requires WellFormed(req)
    requires AgreeOn(accounts, alone.accounts, Needs(req))
    requires DecideFresh(db, accounts, taken, req, now).Create?
    ensures CreatesBy(alone, req, DecideFresh(db, accounts, taken, req, now), applied)
  {
    var c, t := ChangeOf(req), Transition(accounts, ChangeOf(req));
    assert Touched(c) == Needs(req);
    TransitionFrame(accounts, alone.accounts, c);
    if t.Ok? {
      TransitionGuarantees(alone.accounts, c);
      return Some(t.value);
    }
    LockFailureKnowsAccounts(accounts, c);
    ArchivedSound(alone, accounts, req.input.postings);
    return None;
  }

  lemma FreshKeepsIntegrity(db: Database, req: Request, d: Decision, applied: Option<Applied>, after: Database)
    requires Integrity(db, None) && WellFormed(req)
    requires CreatesBy(db, req, d, applied)
    requires Fresh(db, d.new_.txn)
    requires after == InsertTxn(db, d.new_.txn, d.new_.postings, d.changed)
    ensures Integrity(after, Due(d, req))
  {
    if applied.Some? {
      InsertCreated(db, d.new_.txn, req, applied.value);
    } else {
      InsertArchivedKeepsIntegrity(db, d.new_.txn, d.new_.postings);
    }
  }

  lemma InsertCreated(db: Database, t: Txn, req: Request, applied: Applied)
    requires Integrity(db, None) && WellFormed(req) && Fresh(db, t)
    requires Guarantees(db.accounts, ChangeOf(req), applied)
    requires t.status == req.input.Status() && t.version == t.entriesVersion == 1
    ensures Integrity(InsertTxn(db, t, applied.postings, applied.changed), req.release)
  {
    InsertKeepsIntegrity(db, t, ChangeOf(req), applied);
  }

  lemma ArchivedSound(db: Database, accounts: Accounts, ps: seq<Posting>)
    requires AccountsOf(ps) <= accounts.Keys && AgreeOn(accounts, db.accounts, AccountsOf(ps))
    requires forall p :: p in ps ==> p.amount > 0
    ensures forall p :: p in ArchivedPostings(accounts, ps) ==>
      p.amount > 0 && p.account in db.accounts && p.currency == Some(db.accounts[p.account].currency)
  {
    forall p | p in ArchivedPostings(accounts, ps)
      ensures p.amount > 0 && p.account in db.accounts && p.currency == Some(db.accounts[p.account].currency)
    {
      var i :| 0 <= i < |ps| && ArchivedPostings(accounts, ps)[i] == p;
      AccountIn(ps, i);
      assert ps[i] in ps;
    }
  }

  /** Resolving one request of a batch keeps integrity; only a created one changes the tables. */
  lemma ResolveKeepsIntegrity(db: Database, b: Batch, ids: set<AccountId>, req: Request, now: Time, d: Decision,
                              before: Database, after: Database)
    requires Tracks(db, b, ids) && Integrity(before, None) && before == Write(db, b)
    requires WellFormed(req) && Needs(req) <= ids
    requires FreshReversal(before, req.reverses)
    requires d == Decide(db, b, req, now) && after == Write(db, Resolve(db, b, req, now))
    ensures Integrity(after, Due(d, req))
    ensures !d.Create? ==> after == before
  {
    if d.Create? {
      var applied := CreateWrites(db, b, ids, req, now, d);
      assert Due(d, req) == Due(d, TruncatedRequest(req));
      FreshKeepsIntegrity(before, TruncatedRequest(req), d, applied, after);
    } else {
      assert after == before && Due(d, req) == None;
    }
  }

  // ---- whole batches ----

  predicate FromClient(req: Request) {
    req.release.None? && req.reverses.None? && req.input.key.Client?
  }

  lemma ResolveKeepsKeys(db: Database, b: Batch, ids: set<AccountId>, req: Request, now: Time)
    requires Tracks(db, b, ids) && SettlementKeysKnown(Write(db, b))
    requires req.input.postings != []
    requires req.input.key.Client? || req.input.key.id < |db.settlements|
    ensures SettlementKeysKnown(Write(db, Resolve(db, b, req, now)))
  {
    var d := Decide(db, b, req, now);
    if d.Create? {
      CreatedShape(db, b.accounts, b.taken, TruncatedRequest(req), now);
      WriteCreated(db, b, req.input.key, d.new_, d.changed, d.external);
      InsertKeepsSettlementKeys(Write(db, b), d.new_.txn, d.new_.postings, d.changed);
    } else {
      assert Write(db, Resolve(db, b, req, now)) == Write(db, b);
    }
  }

  lemma InsertKeepsSettlementKeys(db: Database, t: Txn, ps: seq<Posting>, changed: Accounts)
    requires SettlementKeysKnown(db)
    requires t.key.ForSettlement? ==> t.key.id < |db.settlements|
    ensures SettlementKeysKnown(InsertTxn(db, t, ps, changed))
  {
  }

  lemma {:induction false} RunBatchSound(db: Database, b: Batch, ids: set<AccountId>, reqs: seq<Request>, now: Time)
    requires Tracks(db, b, ids) && Sound(Write(db, b))
    requires forall r :: r in reqs ==> r.input.postings != []
    requires forall r :: r in reqs ==> WellFormed(r) && FromClient(r) && Needs(r) <= ids
    ensures Sound(Write(db, RunBatch(db, b, reqs, now)))
    decreases |reqs|
  {
    hide Integrity;
    hide Decide;
    if reqs != [] {
      assert reqs[0] in reqs;
      ResolveKeepsIntegrity(db, b, ids, reqs[0], now, Decide(db, b, reqs[0], now), Write(db, b), Write(db, Resolve(db, b, reqs[0], now)));
      ResolveKeepsKeys(db, b, ids, reqs[0], now);
      ResolveTracks(db, b, ids, reqs[0], now);
      RunBatchSound(db, Resolve(db, b, reqs[0], now), ids, reqs[1..], now);
    }
  }

  /** Any batch of client requests, atomic or not, with or without repeated keys, keeps the tables sound. */
  lemma ApplySound(db: Database, reqs: seq<Request>, atomic: bool, now: Time)
    requires Sound(db)
    requires forall r :: r in reqs ==> r.input.postings != []
    requires forall r :: r in reqs ==> WellFormed(r) && FromClient(r)
    ensures Sound(Apply(db, reqs, atomic, now).0)
  {
    var ids := NeedsAll(reqs);
    StartTracks(db, ids);
    forall r | r in reqs ensures Needs(r) <= ids {
      NeedsWithin(reqs, r);
    }
    RunBatchSound(db, Start(db, ids), ids, reqs, now);
  }

  // ---- one request, as the other operations submit them ----

  /** One atomic request: its decision on the tables alone decides everything. */
  lemma ApplySingle(db: Database, req: Request, now: Time)
    requires req.input.postings != []
    ensures var b := Start(db, Needs(req));
      var (after, results) := Apply(db, [req], true, now);
      && |results| == 1
      && match Decide(db, b, req, now)
         case Refuse(e) => after == db && results[0] == Failed(e)
         case Replay(id) => after == db && results[0] == Replayed(id)
         case Create(new_, changed, external) =>
           && after == InsertTxn(db, new_.txn, new_.postings, changed)
           && results[0] == Created(|db.txns|, new_)
  {
    hide Transition;
    hide Matches;
    hide PostingsOf;
    var b := Start(db, Needs(req));
    var next := Resolve(db, b, req, now);
    assert NeedsAll([req]) == Needs(req) && [req][1..] == [];
    assert RunBatch(db, b, [req], now) == next;
    StartTracks(db, Needs(req));
    var d := Decide(db, b, req, now);
    if d.Create? {
      CreatedShape(db, b.accounts, b.taken, TruncatedRequest(req), now);
      WriteCreated(db, b, req.input.key, d.new_, d.changed, d.external);
    }
    assert next.results[0].Failed? <==> AnyFailed(next.results);
    if next.results[0].Failed? {
      AbortedSingle(next.results);
    }
  }

  lemma AbortedSingle(results: seq<Outcome>)
    requires |results| == 1 && results[0].Failed?
    ensures Aborted(results) == results
  {
  }

  lemma ApplySingleSound(db: Database, req: Request, now: Time)
    requires Integrity(db, None)
    requires WellFormed(req) && FreshReversal(db, req.reverses)
    ensures Integrity(Apply(db, [req], true, now).0, Due(Decide(db, Start(db, Needs(req)), req, now), req))
    ensures SettlementKeysKnown(db) && req.input.key.Client? ==> SettlementKeysKnown(Apply(db, [req], true, now).0)
  {
    hide Integrity;
    hide Decide;
    hide SettlementKeysKnown;
    hide Tracks;
    var b := Start(db, Needs(req));
    StartTracks(db, Needs(req));
    var after := Write(db, Resolve(db, b, req, now));
    ResolveKeepsIntegrity(db, b, Needs(req), req, now, Decide(db, b, req, now), db, after);
    if SettlementKeysKnown(db) && req.input.key.Client? {
      ResolveKeepsKeys(db, b, Needs(req), req, now);
    }
    SingleWrites(db, req, now);
  }

  /** A single request writes what resolving it writes. */
  lemma SingleWrites(db: Database, req: Request, now: Time)
    requires req.input.postings != []
    ensures Apply(db, [req], true, now).0 == Write(db, Resolve(db, Start(db, Needs(req)), req, now))
  {
    ApplySingle(db, req, now);
    var b := Start(db, Needs(req));
    var d := Decide(db, b, req, now);
    StartTracks(db, Needs(req));
    if d.Create? {
      CreatedShape(db, b.accounts, b.taken, TruncatedRequest(req), now);
      WriteCreated(db, b, req.input.key, d.new_, d.changed, d.external);
    } else {
      assert Write(db, Resolve(db, b, req, now)) == Write(db, b);
    }
  }
}
