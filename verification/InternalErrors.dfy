/** The errors that would mean the books disagree with themselves are never reported in a reachable state. */
module InternalErrors {
  import opened Wrappers
  import opened Money
  import opened Kernel
  import opened BalanceChange
  import opened Tables
  import opened Engine
  import opened GroupCommit
  import opened EngineSound
  import opened ErrorsRuledOut
  import opened PendingTransactions
  import opened PendingOutcomes
  import opened HoldOperations
  import opened HoldOutcomes
  import opened CaptureOutcomes
  import opened Settling
  import opened SettlementOutcomes
  import opened ServiceOperations
  import opened Histories
  import opened Runs

  predicate Internal(e: Error) {
    e in {ExceedsPending, ExceedsHeld, SettlementMismatch}
  }

  predicate NoneInternal(results: seq<Outcome>) {
    forall i :: 0 <= i < |results| && results[i].Failed? ==> !Internal(results[i].error)
  }

  predicate Reports(r: Res<nat>, e: Error) {
    r == Err(e)
  }

  /** Whether an event reports an error. */
  predicate Fails(db: Database, e: Event, error: Error)
    requires Possible(db, e)
  {
    match e.op
    case Post(inputs, atomic) =>
      ClientRequestsWellFormed(inputs);
      Failed(error) in Apply(db, ClientRequests(inputs), atomic, e.now).1
    case EditPending(id, u) => Reports(UpdateTransaction(db, id, u).1, error)
    case PostPart(id, part) => Reports(PostPending(db, id, part).1, error)
    case Archive(id) => Reports(ArchiveTransaction(db, id).1, error)
    case Undo(id, in_) => Reports(Reverse(db, id, in_, e.now).1, error)
    case HoldFunds(in_) => Reports(CreateHold(db, in_).1, error)
    case Capture(id, in_, clock) => Reports(CaptureHold(db, id, in_, clock, e.now).1, error)
    case Release_(id) => Reports(VoidHold(db, id).1, error)
    case Expire(ids) => Reports(ExpireHolds(db, ids).1, error)
    case SettleUp(in_, note) => Reports(Settle(db, in_, note, e.now).1, error)
    case OpenAccount(id, in_) => Reports(CreateAccount(db, id, in_).1, error)
    case ChangeStatus(id, target) => Reports(SetStatus(db, id, target).1, error)
    case CloseBooks(ledger, bound) => Reports(ClosePeriod(db, ledger, bound, e.now).1, error)
  }

  // ---- the engine ----

  lemma FreshErrors(db: Database, accounts: Accounts, taken: map<ExternalKey, Key>, req: Request, now: Time)
    requires req.input.postings != [] && req.release.None?
    ensures var d := DecideFresh(db, accounts, taken, req, now); d.Refuse? ==> !Internal(d.error)
  {
    NothingTakenOff(accounts, ChangeOf(req));
  }

  lemma DecideErrors(db: Database, b: Batch, req: Request, now: Time)
    requires req.input.postings != [] && req.release.None? && Ordered(b) && NoneInternal(b.results)
    ensures var d := Decide(db, b, req, now); d.Refuse? ==> !Internal(d.error)
  {
    FreshErrors(db, b.accounts, b.taken, TruncatedRequest(req), now);
  }

  lemma StepErrors(db: Database, b: Batch, key: Key, d: Decision)
    requires NoneInternal(b.results) && (d.Refuse? ==> !Internal(d.error))
    ensures NoneInternal(Engine.Step(db, b, key, d).results)
  {
  }

  lemma {:induction false} BatchErrors(db: Database, b: Batch, reqs: seq<Request>, now: Time)
    requires forall r :: r in reqs ==> r.input.postings != []
    requires forall r :: r in reqs ==> r.release.None?
    requires Ordered(b) && NoneInternal(b.results)
    ensures NoneInternal(RunBatch(db, b, reqs, now).results)
    decreases |reqs|
  {
    if reqs != [] {
      assert reqs[0] in reqs;
      DecideErrors(db, b, reqs[0], now);
      StepErrors(db, b, reqs[0].input.key, Decide(db, b, reqs[0], now));
      BatchErrors(db, Resolve(db, b, reqs[0], now), reqs[1..], now);
    }
  }

  lemma {:induction false} AbortedErrors(results: seq<Outcome>)
    requires NoneInternal(results)
    ensures NoneInternal(Aborted(results))
  {
    if results != [] && !results[0].Failed? {
      AbortedErrors(results[1..]);
    }
  }

  lemma ApplyErrors(db: Database, reqs: seq<Request>, atomic: bool, now: Time)
    requires forall r :: r in reqs ==> r.input.postings != []
    requires forall r :: r in reqs ==> r.release.None?
    ensures NoneInternal(Apply(db, reqs, atomic, now).1)
  {
    var b := RunBatch(db, Start(db, NeedsAll(reqs)), reqs, now);
    BatchErrors(db, Start(db, NeedsAll(reqs)), reqs, now);
    AbortedErrors(b.results);
  }

  // ---- the other operations ----

  lemma RewrittenErrors(db: Database, id: TxnId, next: Txn, c: Change)
    requires MoneyChecks(db, None) && id < |db.txns| && db.txns[id].status.Pending?
    requires c.unpend == PostingsOf(db, id) && c.release.None?
    ensures Rewritten(db, id, next, c).1.Err? ==> !Internal(Rewritten(db, id, next, c).1.error)
  {
    NeverExceedsPending(db, id, c);
    NeverExceedsHeld(db.accounts, c);
    NoMismatch(db.accounts, c);
  }

  lemma UpdateErrors(db: Database, id: TxnId, u: Update, error: Error)
    requires Sound(db) && UpdateTransaction(db, id, u).1 == Err(error)
    ensures !Internal(error)
  {
    if id < |db.txns| && db.txns[id].status.Pending? && u.patch(db.txns[id].metadata).Some? && u.postings.Some? {
      var t := db.txns[id];
      RewrittenErrors(db, id, Edited(t, u, u.patch(t.metadata).value).(entriesVersion := t.version + 1),
                      EntryChange(db, id, u.postings.value, Pending));
    }
  }

  lemma PostPendingErrors(db: Database, id: TxnId, part: seq<Posting>, error: Error)
    requires Sound(db) && PostPending(db, id, part).1 == Err(error)
    ensures !Internal(error)
  {
    if id < |db.txns| && db.txns[id].status.Pending? {
      var posted := if part == [] then PostingsOf(db, id) else part;
      RewrittenErrors(db, id, db.txns[id].(status := Posted), EntryChange(db, id, posted, Posted));
      if CheckPartial(PostingsOf(db, id), part).Err? {
        PartialErrors(PostingsOf(db, id), part);
      }
    }
  }

  /** A single request with nothing to take off, and no more to release than is held. */
  lemma SingleErrors(db: Database, req: Request, now: Time, error: Error)
    requires req.input.postings != []
    requires req.release.Some? ==>
      req.release.value.account in db.accounts && req.release.value.amount <= db.accounts[req.release.value.account].held
    requires |Apply(db, [req], true, now).1| == 1 && Apply(db, [req], true, now).1[0] == Failed(error)
    ensures !Internal(error)
  {
    ApplySingle(db, req, now);
    RefusalReasons(db, req, now, error);
    NothingTakenOff(db.accounts, ChangeOf(TruncatedRequest(req)));
  }

  lemma CaptureErrors(db: Database, id: HoldId, in_: CaptureInput, clock: Time, now: Time, error: Error)
    requires Sound(db) && CaptureHold(db, id, in_, clock, now).1 == Err(error)
    ensures !Internal(error)
  {
    hide CaptureHold;
    CaptureKeepsFunds(db, id, in_, clock, now);
  }

  lemma ReverseErrors(db: Database, id: TxnId, in_: ReverseInput, now: Time, error: Error)
    requires Sound(db) && Reverse(db, id, in_, now).1 == Err(error)
    ensures !Internal(error)
  {
    hide MoneyChecks;
    hide TxnChecks;
    if id < |db.txns| && db.txns[id].status.Posted? {
      PostedEntriesPositive(db, id);
      ReversalWellFormed(db, id, in_);
      ReversalFound(db.txns, id, |db.txns|);
      ApplySingle(db, ReversalRequest(db, id, in_), now);
      ApplyErrors(db, [ReversalRequest(db, id, in_)], true, now);
    }
  }

  lemma PostErrors(db: Database, inputs: seq<PostInput>, atomic: bool, now: Time, error: Error)
    requires Possible(db, Event(Post(inputs, atomic), now)) && Fails(db, Event(Post(inputs, atomic), now), error)
    ensures !Internal(error)
  {
    ClientRequestsWellFormed(inputs);
    ApplyErrors(db, ClientRequests(inputs), atomic, now);
    var results := Apply(db, ClientRequests(inputs), atomic, now).1;
    var i :| 0 <= i < |results| && results[i] == Failed(error);
  }

  /**
   After every run, no operation whatever reports an amount above the pending or the held total, or a settlement
   whose marked entries are not those it summed.
   */
  lemma InternalErrorsNeverReported(events: seq<Event>, e: Event, error: Error)
    requires Possible(Run(EMPTY, events), e) && Fails(Run(EMPTY, events), e, error)
    ensures error !in {ExceedsPending, ExceedsHeld, SettlementMismatch}
  {
    EveryRunSound(events);
    SoundErrors(Run(EMPTY, events), e, error);
  }

  lemma SoundErrors(db: Database, e: Event, error: Error)
    requires Sound(db) && Possible(db, e) && Fails(db, e, error)
    ensures !Internal(error)
  {
    hide Sound;
    hide Apply;
    hide Transition;
    match e.op
    case Post(inputs, atomic) => PostErrors(db, inputs, atomic, e.now, error);
    case EditPending(id, u) => UpdateErrors(db, id, u, error);
    case PostPart(id, part) => PostPendingErrors(db, id, part, error);
    case Archive(id) => ArchiveErrors(db, id, error);
    case Undo(id, in_) => ReverseErrors(db, id, in_, e.now, error);
    case HoldFunds(in_) => CreateHoldErrors(db, in_, error);
    case Capture(id, in_, clock) => CaptureErrors(db, id, in_, clock, e.now, error);
    case Release_(id) => VoidSucceeds(db, id);
    case Expire(ids) => ExpirySucceeds(db, ids, e.now);
    case SettleUp(in_, note) => SettleErrors(db, in_, note, e.now, error);
    case _ => AccountErrors(db, e, error);
  }

  lemma AccountErrors(db: Database, e: Event, error: Error)
    requires Possible(db, e) && Fails(db, e, error)
    requires e.op.OpenAccount? || e.op.ChangeStatus? || e.op.CloseBooks?
    ensures !Internal(error)
  {
  }

  lemma ArchiveErrors(db: Database, id: TxnId, error: Error)
    requires Sound(db) && ArchiveTransaction(db, id).1 == Err(error)
    ensures !Internal(error)
  {
    if id < |db.txns| {
      ArchiveSucceeds(db, id);
    }
  }

  lemma CreateHoldErrors(db: Database, input: HoldInput, error: Error)
    requires CreateHold(db, input).1 == Err(error)
    ensures !Internal(error)
  {
  }

  lemma SettleErrors(db: Database, input: SettlementInput, note: Metadata, now: Time, error: Error)
    requires Sound(db) && Settle(db, input, note, now).1 == Err(error)
    ensures !Internal(error)
  {
    var (after, r) := Settle(db, input, note, now);
    SettleReduces(db, input, note, now, after, r);
    if Internal(error) {
      var in_ := Normalized(input);
      SettleNetErrors(db, in_, db.accounts[in_.settled].normalSide, NetUnsettled(db, in_), note, now, error);
      SettleSound(db, input, note, now, after, r);
    }
  }

  lemma SettleNetErrors(db: Database, in_: SettlementInput, side: Side, net: int, note: Metadata, now: Time, error: Error)
    requires SettleNet(db, in_, side, net, note, now).1 == Err(error)
    ensures error == SettlementMismatch || !Internal(error)
  {
    if net != 0 && PostSettlement(db, |db.settlements|, in_, side, net, note, now).1.Err? {
      var req := SettlementRequest(|db.settlements|, in_, side, net, note);
      ApplySingle(db, req, now);
      SingleErrors(db, req, now, error);
    }
  }
}
