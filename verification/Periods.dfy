/** Closed periods: no new transaction is effective before the time its ledger has closed. */
module Periods {
  import opened Wrappers
  import opened Kernel
  import opened BalanceChange
  import opened BalanceEffects
  import opened Tables
  import opened Engine
  import opened GroupCommit

  predicate InOpenPeriod(db: Database, t: Txn) {
    t.ledger in db.closedBefore ==> t.effectiveAt >= db.closedBefore[t.ledger]
  }

  /** Whatever is asked for, posted, pending or archived by a failing lock, its ledger and time are the ones checked. */
  lemma FreshInOpenPeriod(db: Database, accounts: Accounts, taken: map<ExternalKey, Key>, req: Request, now: Time)
    requires req.input.postings != [] && !req.input.Status().Archived?
    requires DecideFresh(db, accounts, taken, req, now).Create?
    ensures InOpenPeriod(db, DecideFresh(db, accounts, taken, req, now).new_.txn)
  {
    var c := ChangeOf(req);
    assert req.input.postings[0] in c.add;
    match Transition(accounts, c)
    case Ok(applied) => TransitionBalances(accounts, c);
    case Err(e) => LockFailureKnowsAccounts(accounts, c);
  }

  lemma ResolveInOpenPeriod(db: Database, b: Batch, req: Request, now: Time)
    requires req.input.postings != [] && !req.input.Status().Archived? && Ordered(b)
    requires forall n :: n in b.accepted ==> InOpenPeriod(db, n.txn)
    ensures forall n :: n in Resolve(db, b, req, now).accepted ==> InOpenPeriod(db, n.txn)
  {
    hide DecideFresh;
    if Decide(db, b, req, now).Create? {
      FreshInOpenPeriod(db, b.accounts, b.taken, TruncatedRequest(req), now);
    }
  }

  lemma {:induction false} RunInOpenPeriod(db: Database, b: Batch, reqs: seq<Request>, now: Time)
    requires forall r :: r in reqs ==> r.input.postings != []
    requires forall r :: r in reqs ==> !r.input.Status().Archived?
    requires Ordered(b) && forall n :: n in b.accepted ==> InOpenPeriod(db, n.txn)
    ensures forall n :: n in RunBatch(db, b, reqs, now).accepted ==> InOpenPeriod(db, n.txn)
    decreases |reqs|
  {
    hide Resolve;
    if reqs != [] {
      assert reqs[0] in reqs;
      ResolveInOpenPeriod(db, b, reqs[0], now);
      RunInOpenPeriod(db, Resolve(db, b, reqs[0], now), reqs[1..], now);
    }
  }

  /** A batch closes and opens no period, and every transaction it adds lies in an open one. */
  lemma BatchInOpenPeriods(db: Database, reqs: seq<Request>, atomic: bool, now: Time)
    requires forall r :: r in reqs ==> r.input.postings != []
    requires forall r :: r in reqs ==> !r.input.Status().Archived?
    ensures var after := Apply(db, reqs, atomic, now).0;
      && after.closedBefore == db.closedBefore && db.txns <= after.txns
      && forall i :: |db.txns| <= i < |after.txns| ==> InOpenPeriod(db, after.txns[i])
  {
    hide InOpenPeriod;
    var b := RunBatch(db, Start(db, NeedsAll(reqs)), reqs, now);
    RunInOpenPeriod(db, Start(db, NeedsAll(reqs)), reqs, now);
    forall i | 0 <= i < |b.accepted| ensures InOpenPeriod(db, b.accepted[i].txn) {
      assert b.accepted[i] in b.accepted;
    }
  }
}
