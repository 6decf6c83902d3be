/** How a pending hold comes to an end: by whom, and when. */
module HoldEndings {
  import opened Wrappers
  import opened Kernel
  import opened BalanceChange
  import opened Tables
  import opened Engine
  import opened PendingTransactions
  import opened HoldOperations
  import opened HoldOutcomes
  import opened CaptureOutcomes
  import opened Settling
  import opened ServiceOperations
  import opened EditOutcomes
  import opened ServiceOutcomes
  import opened Runs

  /** A pending hold goes on, or ends as the operation that names it says: captured in time, voided, or expired when due. */
  predicate EndsBy(h: Hold, after: HoldStatus, id: HoldId, e: Event) {
    match after
    case HoldPending => true
    case Captured => e.op.Capture? && e.op.id == id && e.op.clock < h.expiresAt && 0 < e.op.capture.amount <= h.amount
    case Voided => e.op == Release_(id)
    case Expired => e.op.Expire? && id in e.op.ids && h.expiresAt <= e.now
  }

  lemma ApplyKeepsHolds(db: Database, reqs: seq<Request>, atomic: bool, now: Time)
    requires forall r :: r in reqs ==> r.input.postings != []
    ensures Apply(db, reqs, atomic, now).0.holds == db.holds
  {
    hide RunBatch;
  }

  lemma SettleKeepsHolds(db: Database, input: SettlementInput, note: Metadata, now: Time)
    ensures Settle(db, input, note, now).0.holds == db.holds
  {
    hide Apply;
    hide Mark;
    forall s, in_, side, net ensures PostSettlement(db, s, in_, side, net, note, now).0.holds == db.holds {
      if net != 0 {
        ApplyKeepsHolds(db, [SettlementRequest(s, in_, side, net, note)], true, now);
      }
    }
  }

  lemma ReverseKeepsHolds(db: Database, id: TxnId, in_: ReverseInput, now: Time)
    ensures Reverse(db, id, in_, now).0.holds == db.holds
  {
    hide Apply;
    if id < |db.txns| && ReversalRequest(db, id, in_).input.postings != [] {
      ApplyKeepsHolds(db, [ReversalRequest(db, id, in_)], true, now);
    }
  }

  lemma EditsKeepHolds(db: Database, id: TxnId, u: Update, part: seq<Posting>)
    ensures UpdateTransaction(db, id, u).0.holds == db.holds
    ensures PostPending(db, id, part).0.holds == db.holds
    ensures ArchiveTransaction(db, id).0.holds == db.holds
  {
    hide Transition;
    hide PostingsOf;
  }

  lemma HoldStays(db: Database, in_: HoldInput, id: HoldId)
    requires id < |db.holds|
    ensures id < |CreateHold(db, in_).0.holds| && CreateHold(db, in_).0.holds[id] == db.holds[id]
  {
    hide Reserve;
  }

  lemma CaptureEnds(db: Database, capture: HoldId, in_: CaptureInput, clock: Time, now: Time, id: HoldId)
    requires Sound(db) && id < |db.holds| && db.holds[id].status.HoldPending?
    ensures var after := CaptureHold(db, capture, in_, clock, now).0;
      && id < |after.holds|
      && (after.holds[id] != db.holds[id] ==>
            && capture == id && clock < db.holds[id].expiresAt && 0 < in_.amount <= db.holds[id].amount
            && after.holds[id].status.Captured?)
  {
    hide Sound;
    if CaptureHold(db, capture, in_, clock, now).0 != db {
      var mid := CapturePosts(db, capture, in_, clock, now);
      CaptureExact(db, capture, in_, clock, now);
    }
  }

  /** Whatever happens, a pending hold ends only through an operation on it, and never is captured late or expired early. */
  lemma HoldsEndInTime(db: Database, e: Event, id: HoldId)
    requires Sound(db) && Possible(db, e) && id < |db.holds| && db.holds[id].status.HoldPending?
    ensures var after := Runs.Step(db, e);
      id < |after.holds| && EndsBy(db.holds[id], after.holds[id].status, id, e)
  {
    hide Sound;
    hide Apply;
    hide CaptureHold;
    hide UpdateTransaction;
    hide PostPending;
    hide ArchiveTransaction;
    hide CreateHold;
    hide Reverse;
    hide Settle;
    match e.op
    case Post(inputs, atomic) =>
      ClientRequestsWellFormed(inputs);
      ApplyKeepsHolds(db, ClientRequests(inputs), atomic, e.now);
    case EditPending(t, u) => EditsKeepHolds(db, t, u, []);
    case PostPart(t, part) => EditsKeepHolds(db, t, Update(None, m => None, None, None), part);
    case Archive(t) => EditsKeepHolds(db, t, Update(None, m => None, None, None), []);
    case Undo(t, in_) => ReverseKeepsHolds(db, t, in_, e.now);
    case HoldFunds(in_) => HoldStays(db, in_, id);
    case Capture(h, in_, clock) => CaptureEnds(db, h, in_, clock, e.now, id);
    case Release_(h) => VoidSucceeds(db, h);
    case Expire(ids) => ExpirySucceeds(db, ids, e.now);
    case SettleUp(in_, note) => SettleKeepsHolds(db, in_, note, e.now);
    case _ =>
  }
}
