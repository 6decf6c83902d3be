/** Runs of the whole ledger: any operations, in any order, at any times. */
module Runs {
  import opened Wrappers
  import opened Money
  import opened Kernel
  import opened Sums
  import opened BalanceChange
  import opened Tables
  import opened Engine
  import opened EngineSound
  import opened PendingTransactions
  import opened PendingOutcomes
  import opened HoldOperations
  import opened HoldOutcomes
  import opened CaptureOutcomes
  import opened Settling
  import opened SettlementOutcomes
  import opened ServiceOperations
  import opened Histories
  import opened Replays

  datatype Op =
    | Post(inputs: seq<PostInput>, atomic: bool)
    | EditPending(txn: TxnId, update: Update)
    | PostPart(txn: TxnId, part: seq<Posting>)
    | Archive(txn: TxnId)
    | Undo(txn: TxnId, reversal: ReverseInput)
    | HoldFunds(hold: HoldInput)
    | Capture(id: HoldId, capture: CaptureInput, clock: Time)
    | Release_(id: HoldId)
    | Expire(ids: seq<HoldId>)
    | SettleUp(settlement: SettlementInput, note: Metadata)
    | OpenAccount(account: AccountId, terms: AccountInput)
    | ChangeStatus(account: AccountId, target: AccountStatus)
    | CloseBooks(ledger: LedgerId, closedBefore: Option<Time>)

  /** An operation and the time of its database transaction. */
  datatype Event = Event(op: Op, now: Time)

  /** What validation, fresh ids and the expiry query see to before an operation starts. */
  predicate Possible(db: Database, e: Event) {
    match e.op
    case Post(inputs, _) => forall i :: 0 <= i < |inputs| ==> ValidInput(inputs[i]) && inputs[i].key.Client?
    case Expire(ids) => Expirable(db, ids, e.now)
    case OpenAccount(id, _) => id !in db.accounts
    case _ => true
  }

  lemma ClientRequestsWellFormed(inputs: seq<PostInput>)
    requires forall i :: 0 <= i < |inputs| ==> ValidInput(inputs[i]) && inputs[i].key.Client?
    ensures forall r :: r in ClientRequests(inputs) ==> r.input.postings != []
    ensures forall r :: r in ClientRequests(inputs) ==> WellFormed(r) && FromClient(r)
  {
    forall r | r in ClientRequests(inputs) ensures WellFormed(r) && FromClient(r) {
      var i :| 0 <= i < |inputs| && ClientRequests(inputs)[i] == r;
      assert ValidInput(inputs[i]);
    }
  }

  function Step(db: Database, e: Event): Database
    requires Possible(db, e)
  {
    match e.op
    case Post(inputs, atomic) =>
      ClientRequestsWellFormed(inputs);
      Apply(db, ClientRequests(inputs), atomic, e.now).0
    case EditPending(id, u) => UpdateTransaction(db, id, u).0
    case PostPart(id, part) => PostPending(db, id, part).0
    case Archive(id) => ArchiveTransaction(db, id).0
    case Undo(id, in_) => Reverse(db, id, in_, e.now).0
    case HoldFunds(in_) => CreateHold(db, in_).0
    case Capture(id, in_, clock) => CaptureHold(db, id, in_, clock, e.now).0
    case Release_(id) => VoidHold(db, id).0
    case Expire(ids) => ExpireHolds(db, ids).0
    case SettleUp(in_, note) => Settle(db, in_, note, e.now).0
    case OpenAccount(id, in_) => CreateAccount(db, id, in_).0
    case ChangeStatus(id, target) => SetStatus(db, id, target).0
    case CloseBooks(ledger, bound) => ClosePeriod(db, ledger, bound, e.now).0
  }

  /** A run: events that cannot start are turned away and leave the tables as they are. */
  function Run(db: Database, events: seq<Event>): Database
    decreases |events|
  {
    if events == [] then db
    else Run(if Possible(db, events[0]) then Step(db, events[0]) else db, events[1..])
  }

  // ---- integrity ----

  lemma EmptySound()
    ensures Sound(EMPTY)
  {
  }

  lemma StepSound(db: Database, e: Event, after: Database)
    requires Sound(db) && Possible(db, e) && after == Step(db, e)
    ensures Sound(after)
  {
    hide Integrity;
    match e.op
    case Post(inputs, atomic) =>
      ClientRequestsWellFormed(inputs);
      ApplySound(db, ClientRequests(inputs), atomic, e.now);
    case EditPending(id, u) => UpdateSound(db, id, u);
    case PostPart(id, part) => PostPendingSound(db, id, part);
    case Archive(id) => ArchiveSound(db, id);
    case Undo(id, in_) => ReverseSound(db, id, in_, e.now);
    case HoldFunds(in_) => CreateHoldSound(db, in_);
    case Capture(id, in_, clock) => CaptureSound(db, id, in_, clock, e.now);
    case Release_(id) => VoidSucceeds(db, id);
    case Expire(ids) => ExpirySucceeds(db, ids, e.now);
    case SettleUp(in_, note) => SettleSound(db, in_, note, e.now, after, Settle(db, in_, note, e.now).1);
    case OpenAccount(id, in_) => CreateAccountSound(db, id, in_);
    case ChangeStatus(id, target) => SetStatusSound(db, id, target);
    case CloseBooks(ledger, bound) => ClosePeriodSound(db, ledger, bound, e.now);
  }

  lemma StepGrows(db: Database, e: Event, after: Database)
    requires Sound(db) && Possible(db, e) && after == Step(db, e)
    ensures Grows(db, after)
  {
    hide Integrity;
    hide Grows;
    match e.op
    case Post(inputs, atomic) =>
      ClientRequestsWellFormed(inputs);
      ApplyGrows(db, ClientRequests(inputs), atomic, e.now);
    case EditPending(id, u) => UpdateGrows(db, id, u, after);
    case PostPart(id, part) => PostPendingGrows(db, id, part, after);
    case Archive(id) => ArchiveGrows(db, id, after);
    case Undo(id, in_) => ReverseGrows(db, id, in_, e.now, after);
    case HoldFunds(in_) => CreateHoldGrows(db, in_, after);
    case Capture(id, in_, clock) => CaptureGrows(db, id, in_, clock, e.now, after);
    case Release_(id) => VoidGrows(db, id, after);
    case Expire(ids) =>
      ExpirySucceeds(db, ids, e.now);
      ExpireEachGrows(db, ids, e.now, after);
    case SettleUp(in_, note) => SettleGrows(db, in_, note, e.now, after, Settle(db, in_, note, e.now).1);
    case OpenAccount(id, in_) => CreateAccountGrows(db, id, in_, after);
    case ChangeStatus(id, target) => SetStatusGrows(db, id, target, after);
    case CloseBooks(ledger, bound) => ClosePeriodGrows(db, ledger, bound, e.now, after);
  }

  /**
   Every check of the integrity report, the funds floor, empty closed accounts and unique keys hold after every
   run; and no run undoes anything: the journal only grows, finished transactions and holds are final, settled
   postings stay in their settlement, closed accounts stay closed.
   */
  lemma {:induction false} RunKeeps(db: Database, events: seq<Event>)
    requires Sound(db)
    ensures Sound(Run(db, events))
    ensures Grows(db, Run(db, events))
    decreases |events|
  {
    hide Sound;
    hide Grows;
    hide Step;
    if events == [] {
      GrowsSame(db);
    } else {
      var next := if Possible(db, events[0]) then Step(db, events[0]) else db;
      if Possible(db, events[0]) {
        StepSound(db, events[0], next);
        StepGrows(db, events[0], next);
      } else {
        GrowsSame(db);
      }
      RunKeeps(next, events[1..]);
      GrowsTransitive(db, next, Run(next, events[1..]));
    }
  }

  /** In every reachable state every integrity check holds. */
  lemma EveryRunSound(events: seq<Event>)
    ensures Sound(Run(EMPTY, events))
  {
    EmptySound();
    RunKeeps(EMPTY, events);
  }

  /** In every reachable state a limited account has funds above its floor, and a closed one is empty. */
  lemma EveryRunFunded(events: seq<Event>, a: AccountId)
    requires a in Run(EMPTY, events).accounts
    ensures var acc := Run(EMPTY, events).accounts[a];
      && Available(acc) == Some(Funds(acc))
      && (!acc.allowNegative ==> Available(acc).value >= -acc.overdraftLimit)
      && (acc.status.Closed? ==> PostedNet(acc) == Some(0) && acc.pendingDebits == acc.pendingCredits == acc.held == 0)
  {
    EveryRunSound(events);
    assert Computable(Run(EMPTY, events).accounts[a]) && AboveFloor(Run(EMPTY, events).accounts[a]);
  }

  /** Once closed, an account is closed and empty in every later state. */
  lemma ClosedForever(db: Database, events: seq<Event>, a: AccountId)
    requires Sound(db) && a in db.accounts && db.accounts[a].status.Closed?
    ensures a in Run(db, events).accounts && Run(db, events).accounts[a].status.Closed?
    ensures Empty(Run(db, events).accounts[a])
  {
    RunKeeps(db, events);
  }

  // ---- idempotency ----

  /**
   After any later run, an input with the key of a created transaction is answered by that transaction exactly if it
   asks for the same, else refused as a conflict; either way it changes nothing, and no other transaction ever has
   the key. What counts as the same is as it was at first.
   */
  lemma ResubmissionExact(db: Database, inputs: seq<PostInput>, atomic: bool, now: Time, i: nat, later: seq<Event>,
                          other: PostInput, again: bool, then_: Time)
    requires Sound(db) && i < |inputs| && Possible(db, Event(Post(inputs, atomic), now))
    requires i < |Apply(db, ClientRequests(inputs), atomic, now).1|
    requires Apply(db, ClientRequests(inputs), atomic, now).1[i].Created?
    requires other.key == inputs[i].key && other.postings != []
    ensures var (after, results) := Apply(db, ClientRequests(inputs), atomic, now);
      var end := Run(after, later);
      && Records(after, results[i].id, inputs[i])
      && Apply(end, [ClientRequest(other)], again, then_) ==
           (end, [if AsksTheSame(after, results[i].id, inputs[i], other) then Replayed(results[i].id) else Failed(IdempotencyConflict)])
      && forall t :: 0 <= t < |end.txns| && end.txns[t].key == inputs[i].key ==> t == results[i].id
  {
    hide Grows;
    hide Records;
    hide AsksTheSame;
    var reqs := ClientRequests(inputs);
    ClientRequestsWellFormed(inputs);
    var (after, results) := Apply(db, reqs, atomic, now);
    ApplySound(db, reqs, atomic, now);
    ApplyRecords(db, reqs, atomic, now);
    assert Records(after, results[i].id, inputs[i]);
    RunKeeps(after, later);
    var end := Run(after, later);
    RecordsKept(after, end, results[i].id, inputs[i]);
    AnsweredExactly(end, results[i].id, inputs[i], ClientRequest(other), again, then_);
    OneOfItsKey(end, results[i].id, inputs[i]);
  }

  lemma OneOfItsKey(db: Database, id: TxnId, input: PostInput)
    requires KeysUnique(db) && Records(db, id, input)
    ensures forall t :: 0 <= t < |db.txns| && db.txns[t].key == input.key ==> t == id
  {
  }

  /** Resubmitting the exact input that created a transaction, after any later run, returns it and changes nothing. */
  lemma ResubmissionReplays(db: Database, inputs: seq<PostInput>, atomic: bool, now: Time, i: nat, later: seq<Event>,
                            again: bool, then_: Time)
    requires Sound(db) && i < |inputs| && Possible(db, Event(Post(inputs, atomic), now))
    requires i < |Apply(db, ClientRequests(inputs), atomic, now).1|
    requires Apply(db, ClientRequests(inputs), atomic, now).1[i].Created?
    ensures var (after, results) := Apply(db, ClientRequests(inputs), atomic, now);
      var end := Run(after, later);
      Apply(end, [ClientRequest(inputs[i])], again, then_) == (end, [Replayed(results[i].id)])
  {
    hide Records;
    hide AsksTheSame;
    hide Sound;
    hide Apply;
    ResubmissionExact(db, inputs, atomic, now, i, later, inputs[i], again, then_);
    var (after, results) := Apply(db, ClientRequests(inputs), atomic, now);
    AsksItself(after, results[i].id, inputs[i]);
  }
}
