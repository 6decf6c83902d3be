/** Idempotency: exactly which later inputs a created transaction answers, for ever. */
module Replays {
  import opened Wrappers
  import opened Money
  import opened Kernel
  import opened Sums
  import opened BalanceChange
  import opened BalanceEffects
  import opened Tables
  import opened Preservation
  import opened TableWrites
  import opened Engine
  import opened GroupCommit
  import opened EngineSound
  import opened Histories

  /** Stored entries as they were asked for, in the currencies of their accounts. */
  predicate EntriesAsAsked(accounts: Accounts, stored: seq<Posting>, given: seq<Posting>) {
    && |stored| == |given|
    && forall i :: 0 <= i < |given| ==>
      && given[i].account in accounts && stored[i].account == given[i].account
      && stored[i].side == given[i].side && stored[i].amount == given[i].amount
      && stored[i].currency == Some(accounts[given[i].account].currency)
      && (given[i].currency.Some? ==> given[i].currency == stored[i].currency)
  }

  /**
   The stored transaction is the one an input created: it keeps the input itself, or, if it was posted at once, the
   content the input asked for. Neither can change any more.
   */
  predicate Records(db: Database, id: TxnId, input: PostInput) {
    && id < |db.txns| && db.txns[id].key == input.key
    && var t := db.txns[id];
       match t.request
       case Some(r) => r == Truncated(input)
       case None =>
         && t.status.Posted? && input.Status().Posted?
         && t.description == input.description && t.metadata == input.metadata && t.external == input.external
         && (input.effectiveAt.Some? ==> t.effectiveAt == Truncate(input.effectiveAt.value))
         && EntriesAsAsked(db.accounts, PostingsOf(db, id), input.postings)
  }

  /** The same account, side and amount, and no two different currencies. */
  predicate SameTerms(p: Posting, currency: Option<Currency>, q: Posting) {
    && p.account == q.account && p.side == q.side && p.amount == q.amount
    && (q.currency.Some? && currency.Some? ==> q.currency == currency)
  }

  /**
   Another input asks for what a transaction's own input asked for: the same status, texts and entries in order, and
   the same effective time. Of a transaction posted at once the accounts' currencies and its effective time count,
   and an input that leaves either open asks for the same.
   */
  predicate AsksTheSame(db: Database, id: TxnId, input: PostInput, other: PostInput)
    requires Records(db, id, input)
  {
    var t := db.txns[id];
    && other.Status() == input.Status()
    && other.description == input.description && other.metadata == input.metadata && other.external == input.external
    && |other.postings| == |input.postings|
    && (forall k :: 0 <= k < |other.postings| ==>
          SameTerms(input.postings[k],
                    if t.request.Some? then input.postings[k].currency else Some(db.accounts[input.postings[k].account].currency),
                    other.postings[k]))
    && if t.request.Some? then Truncated(other).effectiveAt == Truncated(input).effectiveAt
       else other.effectiveAt.Some? ==> Truncate(other.effectiveAt.value) == t.effectiveAt
  }

  lemma AsksItself(db: Database, id: TxnId, input: PostInput)
    requires Records(db, id, input)
    ensures AsksTheSame(db, id, input, input)
  {
  }

  /** Edits, posting, archiving, reversal and anything else leave the record as it is. */
  lemma RecordsKept(db: Database, after: Database, id: TxnId, input: PostInput)
    requires Grows(db, after) && Records(db, id, input)
    ensures Records(after, id, input)
    ensures forall other :: AsksTheSame(after, id, input, other) == AsksTheSame(db, id, input, other)
  {
    hide PostingsOf;
    assert TxnEvolves(db, after, id);
  }

  /** Whatever else is in the batch: an input with the key of a stored transaction replays it or conflicts with it. */
  lemma RecordsDecide(db: Database, id: TxnId, input: PostInput, b: Batch, req: Request, now: Time)
    requires KeysUnique(db) && Records(db, id, input) && req.input.key == input.key && req.input.postings != [] && Ordered(b)
    ensures Decide(db, b, req, now) ==
      if AsksTheSame(db, id, input, req.input) then Replay(id) else Refuse(IdempotencyConflict)
  {
    KeyFound(db, input.key, |db.txns|);
    MatchesExactly(db, id, input, req.input);
  }

  lemma MatchesExactly(db: Database, id: TxnId, input: PostInput, other: PostInput)
    requires Records(db, id, input)
    ensures Matches(db.txns[id], PostingsOf(db, id), Truncated(other)) <==> AsksTheSame(db, id, input, other)
  {
    hide PostingsOf;
  }

  // ---- a created transaction matches the request that created it ----

  /** A new transaction carries what its request says, and the request itself until it is posted. */
  predicate AsRequested(t: Txn, input: PostInput) {
    && t.key == input.key && t.external == input.external
    && t.description == input.description && t.metadata == input.metadata
    && (input.effectiveAt.Some? ==> t.effectiveAt == input.effectiveAt.value)
    && t.request == if t.status.Posted? then None else Some(input)
  }

  lemma CreatedFields(db: Database, b: Batch, req: Request, now: Time, d: Decision)
    requires req.input.postings != [] && Ordered(b)
    requires d == Decide(db, b, req, now) && d.Create?
    ensures AsRequested(d.new_.txn, Truncated(req.input))
  {
    var c := ChangeOf(TruncatedRequest(req));
    if Transition(b.accounts, c).Err? && Transition(b.accounts, c).error in {BalanceLock, LockVersion} {
      LockFailureKnowsAccounts(b.accounts, c);
    }
  }

  lemma StrippedEntries(db: Database, c: Change, applied: Applied)
    requires Guarantees(db.accounts, c, applied)
    ensures EntriesAsAsked(db.accounts, Stripped(applied.postings, true), c.add)
  {
    forall i | 0 <= i < |c.add| ensures c.add[i].account in db.accounts {
      assert c.add[i] in c.add;
    }
  }

  lemma SameCurrencies(before: Accounts, after: Accounts, stored: seq<Posting>, given: seq<Posting>)
    requires AccountsEvolve(before, after) && EntriesAsAsked(before, stored, given)
    ensures EntriesAsAsked(after, stored, given)
  {
  }

  lemma CreatedRecords(db: Database, req: Request, d: Decision, applied: Option<Applied>, after: Database)
    requires RowsBelong(db) && WellFormed(req) && CreatesBy(db, TruncatedRequest(req), d, applied)
    requires AsRequested(d.new_.txn, Truncated(req.input))
    requires after == InsertTxn(db, d.new_.txn, d.new_.postings, d.changed)
    ensures Records(after, |db.txns|, req.input)
  {
    hide Guarantees;
    InsertReadsBack(db, d.new_.txn, d.new_.postings, d.changed);
    if d.new_.txn.status.Posted? {
      StrippedEntries(db, ChangeOf(TruncatedRequest(req)), applied.value);
      GuaranteedAccountsEvolve(db.accounts, ChangeOf(TruncatedRequest(req)), applied.value);
      SameCurrencies(db.accounts, after.accounts, Stripped(applied.value.postings, true), req.input.postings);
    }
  }

  lemma ResolveRecords(db: Database, b: Batch, ids: set<AccountId>, req: Request, now: Time, d: Decision, after: Database)
    requires Tracks(db, b, ids) && RowsBelong(Write(db, b))
    requires WellFormed(req) && Needs(req) <= ids && FreshReversal(Write(db, b), req.reverses)
    requires d == Decide(db, b, req, now) && d.Create? && after == Write(db, Resolve(db, b, req, now))
    ensures Records(after, |Write(db, b).txns|, req.input)
  {
    var applied := CreateWrites(db, b, ids, req, now, d);
    CreatedFields(db, b, req, now, d);
    CreatedRecords(Write(db, b), req, d, applied, after);
  }

  // ---- whole batches ----

  /** The outcomes a batch adds, and that every transaction it creates answers its request. */
  ghost predicate CreatedAll(after: Database, results: seq<Outcome>, reqs: seq<Request>) {
    && |results| == |reqs|
    && forall i :: 0 <= i < |reqs| && results[i].Created? ==> Records(after, results[i].id, reqs[i].input)
  }

  lemma {:induction false} RunBatchRecords(db: Database, b: Batch, ids: set<AccountId>, reqs: seq<Request>, now: Time)
    returns (added: seq<Outcome>)
    requires Tracks(db, b, ids) && Sound(Write(db, b))
    requires forall r :: r in reqs ==> r.input.postings != []
    requires forall r :: r in reqs ==> WellFormed(r) && FromClient(r) && Needs(r) <= ids
    ensures RunBatch(db, b, reqs, now).results == b.results + added
    ensures CreatedAll(Write(db, RunBatch(db, b, reqs, now)), added, reqs)
    decreases |reqs|
  {
    if reqs == [] {
      return [];
    }
    assert reqs[0] in reqs;
    var next := Resolve(db, b, reqs[0], now);
    SoundRowsBelong(Write(db, b));
    OneSound(db, b, ids, reqs[0], now);
    ResolveTracks(db, b, ids, reqs[0], now);
    var rest := RunBatchRecords(db, next, ids, reqs[1..], now);
    var one := OneResult(db, b, reqs[0], now);
    added := [one] + rest;
    Associate(b.results, [one], rest);
    if one.Created? {
      ResolveRecords(db, b, ids, reqs[0], now, Decide(db, b, reqs[0], now), Write(db, next));
      RunBatchGrows(db, next, ids, reqs[1..], now);
      RecordsKept(Write(db, next), Write(db, RunBatch(db, next, reqs[1..], now)), one.id, reqs[0].input);
    }
    CreatedCons(Write(db, RunBatch(db, b, reqs, now)), one, rest, reqs);
  }

  lemma OneResult(db: Database, b: Batch, req: Request, now: Time) returns (one: Outcome)
    requires req.input.postings != [] && Ordered(b)
    ensures Resolve(db, b, req, now).results == b.results + [one]
    ensures one.Created? <==> Decide(db, b, req, now).Create?
    ensures one.Created? ==> one.id == |Write(db, b).txns|
  {
    one := Resolve(db, b, req, now).results[|b.results|];
  }

  lemma CreatedCons(after: Database, one: Outcome, rest: seq<Outcome>, reqs: seq<Request>)
    requires reqs != [] && CreatedAll(after, rest, reqs[1..])
    requires one.Created? ==> Records(after, one.id, reqs[0].input)
    ensures CreatedAll(after, [one] + rest, reqs)
  {
    forall i | 0 <= i < |reqs| && ([one] + rest)[i].Created? ensures Records(after, ([one] + rest)[i].id, reqs[i].input) {
      if i > 0 {
        assert reqs[1..][i - 1] == reqs[i] && rest[i - 1] == ([one] + rest)[i];
      }
    }
  }

  /** Every transaction a batch creates answers the request that created it. */
  lemma ApplyRecords(db: Database, reqs: seq<Request>, atomic: bool, now: Time)
    requires Sound(db)
    requires forall r :: r in reqs ==> r.input.postings != []
    requires forall r :: r in reqs ==> WellFormed(r) && FromClient(r)
    ensures CreatedAll(Apply(db, reqs, atomic, now).0, Apply(db, reqs, atomic, now).1, reqs)
  {
    var ids := NeedsAll(reqs);
    StartTracks(db, ids);
    forall r | r in reqs ensures Needs(r) <= ids {
      NeedsWithin(reqs, r);
    }
    var added := RunBatchRecords(db, Start(db, ids), ids, reqs, now);
    AbortedExact(RunBatch(db, Start(db, ids), reqs, now).results);
  }

  /** One request that is created is recorded; it is kept with the transaction unless that is posted at once. */
  lemma SingleRecords(db: Database, req: Request, now: Time)
    requires Integrity(db, None) && WellFormed(req) && FreshReversal(db, req.reverses)
    requires Decide(db, Start(db, Needs(req)), req, now).Create?
    ensures var after := Apply(db, [req], true, now).0;
      Records(after, |db.txns|, req.input) && (after.txns[|db.txns|].request.None? <==> after.txns[|db.txns|].status.Posted?)
  {
    hide Records;
    var b := Start(db, Needs(req));
    var d := Decide(db, b, req, now);
    StartTracks(db, Needs(req));
    SoundRowsBelong(db);
    ResolveRecords(db, b, Needs(req), req, now, d, Write(db, Resolve(db, b, req, now)));
    SingleWrites(db, req, now);
    CreatedFields(db, b, req, now, d);
    ApplySingle(db, req, now);
  }

  /** An input with the key of a stored transaction is answered by it or refused, and changes nothing. */
  lemma AnsweredExactly(db: Database, id: TxnId, input: PostInput, req: Request, atomic: bool, now: Time)
    requires KeysUnique(db) && Records(db, id, input) && req.input.key == input.key && req.input.postings != []
    ensures Apply(db, [req], atomic, now) ==
      (db, [if AsksTheSame(db, id, input, req.input) then Replayed(id) else Failed(IdempotencyConflict)])
  {
    hide Records;
    hide AsksTheSame;
    var b := Start(db, Needs(req));
    StartTracks(db, Needs(req));
    RecordsDecide(db, id, input, b, req, now);
    assert NeedsAll([req]) == Needs(req) && [req][1..] == [];
    var next := Resolve(db, b, req, now);
    assert RunBatch(db, b, [req], now) == next;
    WriteUncreated(db, b, req.input.key, Decide(db, b, req, now));
    assert next.results == [if AsksTheSame(db, id, input, req.input) then Replayed(id) else Failed(IdempotencyConflict)];
    assert AnyFailed(next.results) <==> next.results[0].Failed?;
    if next.results[0].Failed? {
      AbortedSingle(next.results);
    }
  }
}
