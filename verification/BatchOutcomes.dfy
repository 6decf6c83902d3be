/** How each request of a batch is answered: as it would be alone on what the requests before it leave. */
module BatchOutcomes {
  import opened Wrappers
  import opened Money
  import opened Kernel
  import opened Sums
  import opened BalanceChange
  import opened BalanceEffects
  import opened Tables
  import opened Preservation
  import opened TableWrites
  import opened Engine
  import opened GroupCommit
  import opened EngineSound
  import opened Replays
  import opened RequestOutcomes

  // ---- a run of a batch, cut in two ----

  lemma {:induction false} RunSplits(db: Database, b: Batch, reqs: seq<Request>, k: nat, now: Time)
    requires forall r :: r in reqs ==> r.input.postings != []
    requires Ordered(b) && k <= |reqs|
    ensures RunBatch(db, b, reqs, now) == RunBatch(db, RunBatch(db, b, reqs[..k], now), reqs[k..], now)
    decreases |reqs|
  {
    hide Resolve;
    if k == 0 {
      assert reqs[..0] == [] && reqs[0..] == reqs;
    } else {
      assert reqs[0] in reqs && reqs[..k][1..] == reqs[1..][..k - 1] && reqs[k..] == reqs[1..][k - 1..];
      RunSplits(db, Resolve(db, b, reqs[0], now), reqs[1..], k - 1, now);
    }
  }

  /** The requests so far have each been answered, only their keys have been seen, and answers are final. */
  lemma {:induction false} RunAnswers(db: Database, b: Batch, ids: set<AccountId>, reqs: seq<Request>, now: Time)
    requires Tracks(db, b, ids)
    requires forall r :: r in reqs ==> r.input.postings != []
    requires forall r :: r in reqs ==> Needs(r) <= ids
    ensures var b' := RunBatch(db, b, reqs, now);
      && Tracks(db, b', ids) && |b'.results| == |b.results| + |reqs| && b.results <= b'.results
      && forall k :: k in b'.first ==> k in b.first || exists i :: 0 <= i < |reqs| && reqs[i].input.key == k
    decreases |reqs|
  {
    hide Decide;
    assert Ordered(b);
    hide Tracks;
    if reqs != [] {
      assert reqs[0] in reqs;
      ResolveTracks(db, b, ids, reqs[0], now);
      OneAnswer(db, b, ids, reqs[0], now);
      var next := Resolve(db, b, reqs[0], now);
      RunAnswers(db, next, ids, reqs[1..], now);
      var b' := RunBatch(db, b, reqs, now);
      forall k | k in b'.first ensures k in b.first || exists i :: 0 <= i < |reqs| && reqs[i].input.key == k {
        if k in next.first {
          assert k !in b.first ==> reqs[0].input.key == k;
        } else {
          var i :| 0 <= i < |reqs[1..]| && reqs[1..][i].input.key == k;
          assert reqs[i + 1].input.key == k;
        }
      }
    }
  }

  lemma OneAnswer(db: Database, b: Batch, ids: set<AccountId>, req: Request, now: Time)
    requires Tracks(db, b, ids) && req.input.postings != []
    ensures var b' := Resolve(db, b, req, now);
      |b'.results| == |b.results| + 1 && b.results <= b'.results && b'.first.Keys <= b.first.Keys + {req.input.key}
  {
    hide Decide;
  }

  // ---- locking more accounts changes nothing ----

  /** Two batches that differ only in how many accounts they have locked. */
  ghost predicate Alike(db: Database, b: Batch, ids: set<AccountId>, c: Batch, more: set<AccountId>) {
    && Tracks(db, b, ids) && Tracks(db, c, more) && ids <= more
    && b.taken == c.taken && b.first == c.first && b.results == c.results && b.accepted == c.accepted
    && Write(db, b) == Write(db, c)
  }

  lemma AlikeDecision(db: Database, b: Batch, ids: set<AccountId>, c: Batch, more: set<AccountId>, req: Request, now: Time)
    requires Alike(db, b, ids, c, more) && req.input.postings != [] && Needs(req) <= ids
    ensures Decide(db, b, req, now) == Decide(db, c, req, now)
  {
    hide DecideFresh;
    hide Write;
    SameFreshDecision(db, b, ids, TruncatedRequest(req), now);
    SameFreshDecision(db, c, more, TruncatedRequest(req), now);
  }

  lemma AlikeStep(db: Database, b: Batch, ids: set<AccountId>, c: Batch, more: set<AccountId>, req: Request, now: Time)
    requires Alike(db, b, ids, c, more) && req.input.postings != [] && Needs(req) <= ids
    ensures Alike(db, Resolve(db, b, req, now), ids, Resolve(db, c, req, now), more)
  {
    hide Write;
    hide Decide;
    AlikeDecision(db, b, ids, c, more, req, now);
    ResolveTracks(db, b, ids, req, now);
    ResolveTracks(db, c, more, req, now);
    hide Tracks;
    CreatedVersion(db, b, req, now);
    var d := Decide(db, b, req, now);
    if d.Create? {
      WriteCreated(db, b, req.input.key, d.new_, d.changed, d.external);
      WriteCreated(db, c, req.input.key, d.new_, d.changed, d.external);
    } else {
      WriteUncreated(db, b, req.input.key, d);
      WriteUncreated(db, c, req.input.key, d);
    }
  }

  lemma {:induction false} AlikeRun(db: Database, b: Batch, ids: set<AccountId>, c: Batch, more: set<AccountId>,
                                    reqs: seq<Request>, now: Time)
    requires Alike(db, b, ids, c, more)
    requires forall r :: r in reqs ==> r.input.postings != []
    requires forall r :: r in reqs ==> Needs(r) <= ids
    ensures Alike(db, RunBatch(db, b, reqs, now), ids, RunBatch(db, c, reqs, now), more)
    decreases |reqs|
  {
    hide Resolve;
    if reqs != [] {
      assert reqs[0] in reqs;
      AlikeStep(db, b, ids, c, more, reqs[0], now);
      AlikeRun(db, Resolve(db, b, reqs[0], now), ids, Resolve(db, c, reqs[0], now), more, reqs[1..], now);
    }
  }

  /** What a part of a batch leaves does not depend on what the whole of it locks. */
  lemma PrefixWrites(db: Database, reqs: seq<Request>, k: nat, now: Time)
    requires forall r :: r in reqs ==> r.input.postings != []
    requires k <= |reqs|
    ensures Write(db, RunBatch(db, Start(db, NeedsAll(reqs)), reqs[..k], now)) == Apply(db, reqs[..k], false, now).0
  {
    hide Write;
    var part := reqs[..k];
    forall r | r in part ensures Needs(r) <= NeedsAll(part) {
      NeedsWithin(part, r);
    }
    NeedsOfPart(reqs, k);
    StartTracks(db, NeedsAll(reqs));
    StartTracks(db, NeedsAll(part));
    AlikeRun(db, Start(db, NeedsAll(part)), NeedsAll(part), Start(db, NeedsAll(reqs)), NeedsAll(reqs), part, now);
  }

  lemma NeedsOfPart(reqs: seq<Request>, k: nat)
    requires k <= |reqs|
    ensures NeedsAll(reqs[..k]) <= NeedsAll(reqs)
  {
  }

  // ---- the answers ----

  /** The state of the batch after its first k requests. */
  lemma BatchBefore(db: Database, reqs: seq<Request>, k: nat, now: Time) returns (b: Batch)
    requires forall r :: r in reqs ==> r.input.postings != []
    requires k < |reqs|
    ensures b == RunBatch(db, Start(db, NeedsAll(reqs)), reqs[..k], now)
    ensures Tracks(db, b, NeedsAll(reqs)) && |b.results| == k && Needs(reqs[k]) <= NeedsAll(reqs)
    ensures Write(db, b) == Apply(db, reqs[..k], false, now).0
    ensures forall key :: key in b.first ==> exists i :: 0 <= i < k && reqs[i].input.key == key
  {
    hide Resolve;
    hide RunBatch;
    hide Apply;
    hide Tracks;
    hide Write;
    var ids := NeedsAll(reqs);
    forall r | r in reqs ensures Needs(r) <= ids {
      NeedsWithin(reqs, r);
    }
    StartTracks(db, ids);
    assert reqs[k] in reqs;
    b := RunBatch(db, Start(db, ids), reqs[..k], now);
    RunAnswers(db, Start(db, ids), ids, reqs[..k], now);
    PrefixWrites(db, reqs, k, now);
    forall key | key in b.first ensures exists i :: 0 <= i < k && reqs[i].input.key == key {
      var i :| 0 <= i < |reqs[..k]| && reqs[..k][i].input.key == key;
      assert reqs[i].input.key == key;
    }
  }

  /** What the batch answers request k by is its answer for good. */
  lemma BatchAfter(db: Database, reqs: seq<Request>, k: nat, now: Time, b: Batch)
    requires forall r :: r in reqs ==> r.input.postings != []
    requires k < |reqs| && b == RunBatch(db, Start(db, NeedsAll(reqs)), reqs[..k], now)
    requires Tracks(db, b, NeedsAll(reqs)) && |b.results| == k
    ensures var results := Apply(db, reqs, false, now).1;
      && |results| == |reqs| && b.results == results[..k]
      && Resolve(db, b, reqs[k], now).results == b.results + [results[k]]
  {
    hide Resolve;
    hide Tracks;
    hide Write;
    hide RunBatch;
    var ids := NeedsAll(reqs);
    forall r | r in reqs ensures Needs(r) <= ids {
      NeedsWithin(reqs, r);
    }
    assert reqs[k] in reqs;
    StartTracks(db, ids);
    ResolveTracks(db, b, ids, reqs[k], now);
    OneAnswer(db, b, ids, reqs[k], now);
    var next, end := Resolve(db, b, reqs[k], now), RunBatch(db, Start(db, ids), reqs, now);
    NextPrefix(db, reqs, k, now, b);
    RunSplits(db, Start(db, ids), reqs, k + 1, now);
    RunAnswers(db, Start(db, ids), ids, reqs, now);
    RunAnswers(db, next, ids, reqs[k + 1..], now);
    assert next.results <= end.results;
  }

  /**
   The first request of a batch with a key is answered as it would be alone on the tables that the requests before it
   leave; with RequestOutcomes.SingleExact this says how.
   */
  lemma FirstOfItsKey(db: Database, reqs: seq<Request>, k: nat, now: Time)
    requires forall r :: r in reqs ==> r.input.postings != []
    requires k < |reqs| && forall j :: 0 <= j < k ==> reqs[j].input.key != reqs[k].input.key
    ensures var sofar := Apply(db, reqs[..k], false, now).0;
      var (after, alone) := Apply(sofar, [reqs[k]], false, now);
      && |Apply(db, reqs, false, now).1| == |reqs| && |alone| == 1
      && Apply(db, reqs, false, now).1[k] == alone[0]
      && Apply(db, reqs[..k + 1], false, now).0 == after
  {
    hide Decide;
    hide Write;
    hide Tracks;
    hide RunBatch;
    hide Apply;
    hide NeedsAll;
    var b := BatchBefore(db, reqs, k, now);
    BatchAfter(db, reqs, k, now, b);
    OneMore(db, b, NeedsAll(reqs), reqs[k], now);
    var answers, alone := Apply(db, reqs, false, now).1, Apply(Write(db, b), [reqs[k]], false, now).1;
    SameEnd(b.results, alone, [answers[k]]);
    PrefixWrites(db, reqs, k + 1, now);
    NextPrefix(db, reqs, k, now, b);
  }

  lemma SameEnd<T>(start: seq<T>, end: seq<T>, other: seq<T>)
    requires start + end == start + other
    ensures end == other
  {
    assert end == (start + end)[|start|..];
  }

  lemma NextPrefix(db: Database, reqs: seq<Request>, k: nat, now: Time, b: Batch)
    requires forall r :: r in reqs ==> r.input.postings != []
    requires k < |reqs| && b == RunBatch(db, Start(db, NeedsAll(reqs)), reqs[..k], now)
    ensures RunBatch(db, Start(db, NeedsAll(reqs)), reqs[..k + 1], now) == Resolve(db, b, reqs[k], now)
  {
    hide Resolve;
    RunSplits(db, Start(db, NeedsAll(reqs)), reqs[..k + 1], k, now);
    assert reqs[..k + 1][..k] == reqs[..k] && reqs[..k + 1][k..] == [reqs[k]] && [reqs[k]][1..] == [];
  }

  // ---- a key that comes again ----

  /** The batch remembers where each new key came first. */
  lemma {:induction false} FirstIndex(db: Database, b: Batch, reqs: seq<Request>, now: Time, j: nat)
    requires forall r :: r in reqs ==> r.input.postings != []
    requires Ordered(b) && j < |reqs| && FindKey(db, reqs[j].input.key).None?
    requires reqs[j].input.key !in b.first && forall i :: 0 <= i < j ==> reqs[i].input.key != reqs[j].input.key
    ensures var first := RunBatch(db, b, reqs, now).first;
      reqs[j].input.key in first && first[reqs[j].input.key] == |b.results| + j
    decreases |reqs|
  {
    hide Decide;
    assert reqs[0] in reqs;
    var next := Resolve(db, b, reqs[0], now);
    if j == 0 {
      KeptFirst(db, next, reqs[1..], now, reqs[0].input.key);
    } else {
      FirstIndex(db, next, reqs[1..], now, j - 1);
    }
  }

  lemma {:induction false} KeptFirst(db: Database, b: Batch, reqs: seq<Request>, now: Time, key: Key)
    requires forall r :: r in reqs ==> r.input.postings != []
    requires Ordered(b) && key in b.first
    ensures key in RunBatch(db, b, reqs, now).first && RunBatch(db, b, reqs, now).first[key] == b.first[key]
    decreases |reqs|
  {
    hide Decide;
    if reqs != [] {
      assert reqs[0] in reqs;
      KeptFirst(db, Resolve(db, b, reqs[0], now), reqs[1..], now, key);
    }
  }

  /** A created transaction matches inputs alike before and after it is stored and read back. */
  lemma StoredMatches(t: Txn, ps: seq<Posting>, input: PostInput)
    requires t.request.None? ==> forall p :: p in ps ==> p.currency.Some?
    ensures Matches(t, Stripped(ps, true), input) == Matches(t, ps, input)
    ensures t.request.Some? ==> forall qs :: Matches(t, qs, input) == Matches(t, ps, input)
  {
    if t.request.None? {
      forall i | 0 <= i < |ps| ensures Stripped(ps, true)[i].currency == ps[i].currency {
        assert ps[i] in ps;
      }
    }
  }

  lemma CreatedCurrencies(accounts: Accounts, c: Change, applied: Applied)
    requires Guarantees(accounts, c, applied)
    ensures forall p :: p in applied.postings ==> p.currency.Some?
  {
    forall p | p in applied.postings ensures p.currency.Some? {
      var k :| 0 <= k < |applied.postings| && applied.postings[k] == p;
    }
  }

  /** A transaction created in the batch, and how inputs match it: as they ask for the same as its own input or not. */
  lemma CreatedMatches(db: Database, b: Batch, ids: set<AccountId>, req: Request, now: Time, other: PostInput)
    requires Tracks(db, b, ids) && RowsBelong(Write(db, b))
    requires WellFormed(req) && Needs(req) <= ids && FreshReversal(Write(db, b), req.reverses)
    requires Decide(db, b, req, now).Create?
    ensures var d, after, id := Decide(db, b, req, now), Write(db, Resolve(db, b, req, now)), |Write(db, b).txns|;
      && Records(after, id, req.input)
      && Matches(d.new_.txn, d.new_.postings, Truncated(other)) == AsksTheSame(after, id, req.input, other)
  {
    hide Decide;
    hide Resolve;
    hide Records;
    hide AsksTheSame;
    hide Matches;
    assert Ordered(b);
    hide Tracks;
    hide Write;
    var d, after, id := Decide(db, b, req, now), Write(db, Resolve(db, b, req, now)), |Write(db, b).txns|;
    ResolveRecords(db, b, ids, req, now, d, after);
    var applied := CreateWrites(db, b, ids, req, now, d);
    CreatedFields(db, b, req, now, d);
    MatchesExactly(after, id, req.input, other);
    InsertReadsBack(Write(db, b), d.new_.txn, d.new_.postings, d.changed);
    hide PostingsOf;
    hide InsertTxn;
    if applied.Some? {
      CreatedCurrencies(Write(db, b).accounts, ChangeOf(TruncatedRequest(req)), applied.value);
    }
    assert after.txns[id] == d.new_.txn by {
      StoredTxn(Write(db, b), d.new_.txn, d.new_.postings, d.changed);
    }
    StoredMatches(d.new_.txn, d.new_.postings, Truncated(other));
  }

  lemma StoredTxn(db: Database, t: Txn, ps: seq<Posting>, changed: Accounts)
    ensures InsertTxn(db, t, ps, changed).txns == db.txns + [t]
  {
  }

  /**
   A request whose key came before in the batch, and is not stored, is answered by the first one: it fails with what
   that failed with, or replays what that created exactly if it asks for the same, else it conflicts.
   */
  lemma KeyComesAgain(db: Database, reqs: seq<Request>, j: nat, k: nat, now: Time)
    requires Sound(db)
    requires forall r :: r in reqs ==> r.input.postings != []
    requires forall r :: r in reqs ==> WellFormed(r) && FromClient(r)
    requires j < k < |reqs| && reqs[j].input.key == reqs[k].input.key && NewKey(db, reqs[j].input.key)
    requires forall i :: 0 <= i < j ==> reqs[i].input.key != reqs[j].input.key
    ensures var results := Apply(db, reqs, false, now).1;
      && |results| == |reqs|
      && match results[j]
         case Failed(e) => results[k] == Failed(e)
         case Replayed(_) => false
         case Created(id, _) =>
           var after := Apply(db, reqs[..j + 1], false, now).0;
           && Records(after, id, reqs[j].input)
           && results[k] == if AsksTheSame(after, id, reqs[j].input, reqs[k].input) then Replayed(id) else Failed(IdempotencyConflict)
  {
    hide Sound;
    hide RunBatch;
    hide Apply;
    hide Records;
    hide AsksTheSame;
    hide Matches;
    hide Tracks;
    hide Write;
    hide Decide;
    hide Resolve;
    KeyFound(db, reqs[j].input.key, |db.txns|);
    var first := BatchBefore(db, reqs, j, now);
    BatchAfter(db, reqs, j, now, first);
    var b := BatchBefore(db, reqs, k, now);
    BatchAfter(db, reqs, k, now, b);
    var results := Apply(db, reqs, false, now).1;
    InBatch(db, reqs, j, k, now, b);
    assert reqs[j] in reqs && reqs[k] in reqs && b.results[j] == results[j];
    AnsweredByFirst(db, b, reqs[k], now, j);
    SameEnd(b.results, [results[k]], [AnswerOf(results[j], reqs[k].input)]);
    NewIsNotReplayed(db, first, reqs[j], now);
    SameEnd(first.results, [results[j]], [OutcomeOf(|Write(db, first).txns|, Decide(db, first, reqs[j], now))]);
    if Decide(db, first, reqs[j], now).Create? {
      PartSound(db, reqs, j, now);
      CreatedMatches(db, first, NeedsAll(reqs), reqs[j], now, reqs[k].input);
      NextPrefix(db, reqs, j, now, first);
      PrefixWrites(db, reqs, j + 1, now);
    }
  }

  lemma InBatch(db: Database, reqs: seq<Request>, j: nat, k: nat, now: Time, b: Batch)
    requires forall r :: r in reqs ==> r.input.postings != []
    requires j < k < |reqs| && FindKey(db, reqs[j].input.key).None?
    requires forall i :: 0 <= i < j ==> reqs[i].input.key != reqs[j].input.key
    requires b == RunBatch(db, Start(db, NeedsAll(reqs)), reqs[..k], now)
    ensures reqs[j].input.key in b.first && b.first[reqs[j].input.key] == j
  {
    assert reqs[..k][j] == reqs[j];
    FirstIndex(db, Start(db, NeedsAll(reqs)), reqs[..k], now, j);
  }

  function AnswerOf(prior: Outcome, input: PostInput): Outcome {
    match prior
    case Created(id, new_) =>
      if Matches(new_.txn, new_.postings, Truncated(input)) then Replayed(id) else Failed(IdempotencyConflict)
    case _ => prior
  }

  function OutcomeOf(id: TxnId, d: Decision): Outcome {
    match d
    case Refuse(e) => Failed(e)
    case Replay(other) => Replayed(other)
    case Create(new_, _, _) => Created(id, new_)
  }

  lemma AnsweredByFirst(db: Database, b: Batch, req: Request, now: Time, j: nat)
    requires req.input.postings != [] && Ordered(b) && FindKey(db, req.input.key).None?
    requires req.input.key in b.first && b.first[req.input.key] == j
    ensures j < |b.results| && Resolve(db, b, req, now).results == b.results + [AnswerOf(b.results[j], req.input)]
  {
    hide Matches;
  }

  lemma NewIsNotReplayed(db: Database, b: Batch, req: Request, now: Time)
    requires req.input.postings != [] && Ordered(b) && FindKey(db, req.input.key).None? && req.input.key !in b.first
    ensures !Decide(db, b, req, now).Replay?
    ensures Resolve(db, b, req, now).results == b.results + [OutcomeOf(|Write(db, b).txns|, Decide(db, b, req, now))]
  {
    hide Transition;
    hide FindExternal;
    hide Matches;
  }

  lemma PartSound(db: Database, reqs: seq<Request>, k: nat, now: Time)
    requires Sound(db) && k <= |reqs|
    requires forall r :: r in reqs ==> r.input.postings != []
    requires forall r :: r in reqs ==> WellFormed(r) && FromClient(r)
    ensures RowsBelong(Apply(db, reqs[..k], false, now).0)
  {
    hide Apply;
    ApplySound(db, reqs[..k], false, now);
    RowsOf(Apply(db, reqs[..k], false, now).0);
  }
}
