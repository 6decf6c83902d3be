/** Capturing a hold: it keeps the tables sound, and the held account itself never lacks the funds. */
module CaptureOutcomes {
  import opened Wrappers
  import opened Money
  import opened Kernel
  import opened Sums
  import opened BalanceChange
  import opened BalanceEffects
  import opened Tables
  import opened Preservation
  import opened TableWrites
  import opened Engine
  import opened GroupCommit
  import opened EngineSound
  import opened ErrorsRuledOut
  import opened HoldOperations
  import opened HoldOutcomes

  /** Why a single request is refused: its key, external id or period, or the balance change on the stored accounts. */
  lemma RefusalReasons(db: Database, req: Request, now: Time, e: Error)
    requires req.input.postings != []
    requires Decide(db, Start(db, Needs(req)), req, now) == Refuse(e)
    ensures e in {IdempotencyConflict, ExternalIdExists, PeriodClosed}
         || Transition(db.accounts, ChangeOf(TruncatedRequest(req))) == Err(e)
  {
    var c := ChangeOf(TruncatedRequest(req));
    assert Touched(c) == Needs(req);
    TransitionFrame(Lock(db, Needs(req)), db.accounts, c);
  }

  lemma CaptureValid(db: Database, h: Hold, in_: CaptureInput)
    requires h.account in db.accounts && h.amount > 0 && in_.amount > 0
    ensures WellFormed(CaptureRequest(db, h, in_))
  {
  }

  /** A request that does not ask to be archived on a lock failure is created with the status it asks for. */
  lemma CreatedAsAsked(db: Database, req: Request, now: Time, d: Decision)
    requires WellFormed(req) && !req.input.archiveOnLockFailure
    requires d == Decide(db, Start(db, Needs(req)), req, now) && d.Create?
    ensures d.new_.txn.status == req.input.Status()
  {
    var applied := CreateParts(db, db, Lock(db, Needs(req)), map[], TruncatedRequest(req), now);
  }

  /** A capture that goes through posts its request, which leaves exactly the hold to be resolved. */
  lemma CapturePosts(db: Database, id: HoldId, in_: CaptureInput, clock: Time, now: Time) returns (mid: Database)
    requires Sound(db) && CaptureHold(db, id, in_, clock, now).0 != db
    ensures id < |db.holds| && db.holds[id].status.HoldPending? && db.holds[id].account in db.accounts
    ensures 0 < in_.amount <= db.holds[id].amount
    ensures Decide(db, Start(db, Needs(CaptureRequest(db, db.holds[id], in_))), CaptureRequest(db, db.holds[id], in_), now).Create?
    ensures mid == Apply(db, [CaptureRequest(db, db.holds[id], in_)], true, now).0
    ensures mid.holds == db.holds
    ensures CaptureHold(db, id, in_, clock, now) == (
      Resolved(mid, id, db.holds[id].(status := Captured, captured := Some(in_.amount), capture := Some(|db.txns|))), Ok(id))
  {
    var req := CaptureRequest(db, db.holds[id], in_);
    ApplySingle(db, req, now);
    mid := Apply(db, [req], true, now).0;
  }

  lemma CaptureSound(db: Database, id: HoldId, in_: CaptureInput, clock: Time, now: Time)
    requires Sound(db)
    ensures Sound(CaptureHold(db, id, in_, clock, now).0)
  {
    var after := CaptureHold(db, id, in_, clock, now).0;
    if after != db {
      var mid := CapturePosts(db, id, in_, clock, now);
      CaptureOwes(db, db.holds[id], in_, now);
      CaptureResolves(mid, id, after.holds[id], after);
    }
  }

  lemma CaptureOwes(db: Database, h: Hold, in_: CaptureInput, now: Time)
    requires Sound(db) && h in db.holds && h.account in db.accounts && in_.amount > 0
    requires Decide(db, Start(db, Needs(CaptureRequest(db, h, in_))), CaptureRequest(db, h, in_), now).Create?
    ensures var after := Apply(db, [CaptureRequest(db, h, in_)], true, now).0;
      Integrity(after, Some(Release(h.account, h.amount))) && SettlementKeysKnown(after)
  {
    var req := CaptureRequest(db, h, in_);
    CaptureValid(db, h, in_);
    CreatedAsAsked(db, req, now, Decide(db, Start(db, Needs(req)), req, now));
    ApplySingleSound(db, req, now);
  }

  lemma CaptureResolves(db: Database, id: HoldId, h: Hold, after: Database)
    requires id < |db.holds| && db.holds[id].status.HoldPending? && h.status.Captured?
    requires h.account == db.holds[id].account && h.amount == db.holds[id].amount
    requires Integrity(db, Some(Release(h.account, h.amount))) && SettlementKeysKnown(db)
    requires after == Resolved(db, id, h)
    ensures Sound(after)
  {
    ResolvingPays(db, id, h);
  }

  /** The change a capture makes, and what it does to the funds of the held account. */
  function CaptureChange(db: Database, h: Hold, in_: CaptureInput): Change
    requires h.account in db.accounts
  {
    ChangeOf(TruncatedRequest(CaptureRequest(db, h, in_)))
  }

  /** A capture of no more than the hold leaves the held account at least the funds it had. */
  lemma CaptureRaisesHeld(db: Database, h: Hold, in_: CaptureInput)
    requires h.account in db.accounts && 0 < in_.amount <= h.amount
    ensures var a := db.accounts[h.account];
      Funds(Effect(a, CaptureChange(db, h, in_), h.account))
      == Funds(a) + h.amount - (if in_.destination == h.account then 0 else in_.amount)
  {
    CaptureSums(db, h, in_, h.account);
  }

  lemma CaptureSums(db: Database, h: Hold, in_: CaptureInput, id: AccountId)
    requires h.account in db.accounts
    ensures var c, side := CaptureChange(db, h, in_), db.accounts[h.account].normalSide;
      && c.unpend == [] && c.status == Posted
      && Sum(c.add, OnSide(id, side.Opposite())) == (if id == h.account then in_.amount else 0)
      && Sum(c.add, OnSide(id, side)) == (if id == in_.destination then in_.amount else 0)
  {
    var c := CaptureChange(db, h, in_);
    assert c.add == [c.add[0], c.add[1]];
    SumOfTwo(c.add[0], c.add[1], OnSide(id, Debit));
    SumOfTwo(c.add[0], c.add[1], OnSide(id, Credit));
  }

  lemma CaptureRaises(db: Database, h: Hold, in_: CaptureInput)
    requires h.account in db.accounts && 0 < in_.amount <= h.amount
    requires in_.destination in db.accounts ==>
      db.accounts[in_.destination].normalSide == db.accounts[h.account].normalSide
    ensures RaisesFunds(db.accounts, CaptureChange(db, h, in_))
  {
    forall id | id in db.accounts
      ensures Funds(Effect(db.accounts[id], CaptureChange(db, h, in_), id)) >= Funds(db.accounts[id])
    {
      CaptureSums(db, h, in_, id);
      CaptureSums(db, h, in_, h.account);
    }
  }

  /** A capture that fails for its amounts or funds fails because its transaction is refused. */
  lemma CaptureFailure(db: Database, id: HoldId, in_: CaptureInput, clock: Time, now: Time, error: Error)
    requires CaptureHold(db, id, in_, clock, now).1 == Err(error)
    requires error in {ExceedsPending, ExceedsHeld, SettlementMismatch, InsufficientFunds}
    ensures id < |db.holds| && db.holds[id].status.HoldPending? && db.holds[id].account in db.accounts
    ensures 0 < in_.amount <= db.holds[id].amount
    ensures Transition(db.accounts, CaptureChange(db, db.holds[id], in_)) == Err(error)
  {
    hide Transition;
    if id < |db.holds| && db.holds[id].account in db.accounts {
      var req := CaptureRequest(db, db.holds[id], in_);
      ApplySingle(db, req, now);
      RefusalReasons(db, req, now, error);
    }
  }

  /**
   A capture never exceeds what is held. It never lowers the available balance of the held account, and lacks
   funds only through a destination of the other normal side, which it debits.
   */
  lemma CaptureKeepsFunds(db: Database, id: HoldId, in_: CaptureInput, clock: Time, now: Time)
    requires Sound(db)
    ensures var (after, r) := CaptureHold(db, id, in_, clock, now);
      && r !in {Err(ExceedsHeld), Err(ExceedsPending), Err(SettlementMismatch)}
      && (r == Err(InsufficientFunds) ==>
            && id < |db.holds| && db.holds[id].account in db.accounts && in_.destination in db.accounts
            && db.accounts[in_.destination].normalSide != db.accounts[db.holds[id].account].normalSide)
  {
    hide Transition;
    hide CaptureHold;
    var r := CaptureHold(db, id, in_, clock, now).1;
    if r.Err? && r.error in {ExceedsPending, ExceedsHeld, SettlementMismatch, InsufficientFunds} {
      CaptureFailure(db, id, in_, clock, now, r.error);
      HoldWithinHeld(db, id);
      CaptureErrors(db, db.holds[id], in_);
    }
  }

  /** A capture within its hold and what is held takes nothing off that is not there. */
  lemma CaptureErrors(db: Database, h: Hold, in_: CaptureInput)
    requires h.account in db.accounts && 0 < in_.amount <= h.amount <= db.accounts[h.account].held
    ensures Transition(db.accounts, CaptureChange(db, h, in_)).Err? ==>
      var e := Transition(db.accounts, CaptureChange(db, h, in_)).error;
      && e !in {ExceedsPending, ExceedsHeld, SettlementMismatch}
      && (e == InsufficientFunds ==>
            in_.destination in db.accounts && db.accounts[in_.destination].normalSide != db.accounts[h.account].normalSide)
  {
    NothingTakenOff(db.accounts, CaptureChange(db, h, in_));
    if in_.destination !in db.accounts || db.accounts[in_.destination].normalSide == db.accounts[h.account].normalSide {
      CaptureRaises(db, h, in_);
      RaisingIsFunded(db.accounts, CaptureChange(db, h, in_));
    }
  }

  lemma CreatedByTransition(db: Database, req: Request, now: Time, d: Decision)
    requires req.input.postings != [] && !req.input.archiveOnLockFailure
    requires d == Decide(db, Start(db, Needs(req)), req, now) && d.Create?
    ensures var t := Transition(db.accounts, ChangeOf(TruncatedRequest(req)));
      t.Ok? && d.changed == t.value.changed
  {
    var c := ChangeOf(TruncatedRequest(req));
    assert Touched(c) == Needs(req);
    TransitionFrame(Lock(db, Needs(req)), db.accounts, c);
  }

  lemma CaptureEffect(db: Database, h: Hold, in_: CaptureInput)
    requires h.account in db.accounts && 0 < in_.amount <= h.amount
    requires Transition(db.accounts, CaptureChange(db, h, in_)).Ok?
    ensures var before := db.accounts[h.account];
      var accounts := db.accounts + Transition(db.accounts, CaptureChange(db, h, in_)).value.changed;
      && h.account in accounts
      && accounts[h.account].held == before.held - h.amount
      && Funds(accounts[h.account]) == Funds(before) + h.amount - (if in_.destination == h.account then 0 else in_.amount)
  {
    var c := CaptureChange(db, h, in_);
    assert h.account in Touched(c);
    TransitionEffect(db.accounts, c);
    CaptureRaisesHeld(db, h, in_);
    VersionFree(Effect(db.accounts[h.account], c, h.account), db.accounts[h.account].version + 1);
  }

  /** When a capture succeeds, the held total goes down by the whole hold and the captured part alone leaves the account. */
  lemma CaptureOutcome(db: Database, id: HoldId, in_: CaptureInput, clock: Time, now: Time)
    requires Sound(db) && CaptureHold(db, id, in_, clock, now).0 != db
    ensures id < |db.holds| && db.holds[id].account in db.accounts
    ensures var after := CaptureHold(db, id, in_, clock, now).0;
      var h := db.holds[id];
      && h.account in after.accounts
      && after.accounts[h.account].held == db.accounts[h.account].held - h.amount
      && Funds(after.accounts[h.account])
         == Funds(db.accounts[h.account]) + h.amount - (if in_.destination == h.account then 0 else in_.amount)
      && Funds(after.accounts[h.account]) >= Funds(db.accounts[h.account])
      && after.holds == db.holds[id := h.(status := Captured, captured := Some(in_.amount), capture := Some(|db.txns|))]
  {
    var mid := CapturePosts(db, id, in_, clock, now);
    var req := CaptureRequest(db, db.holds[id], in_);
    ApplySingle(db, req, now);
    CreatedByTransition(db, req, now, Decide(db, Start(db, Needs(req)), req, now));
    CaptureEffect(db, db.holds[id], in_);
  }
}
