/**
 Group commit refines one-at-a-time: resolving many requests over one in-memory state and writing once gives
 the tables and the answers that one call per request gives.
 */
module GroupCommit {
  import opened Wrappers
  import opened Money
  import opened Kernel
  import opened Sums
  import opened BalanceChange
  import opened BalanceEffects
  import opened Tables
  import opened Preservation
  import opened TableWrites
  import opened Engine

  /** One call per request, each on the tables the previous one left. */
  function OneByOne(db: Database, reqs: seq<Request>, now: Time): (Database, seq<Outcome>)
    requires forall r :: r in reqs ==> r.input.postings != []
    decreases |reqs|
  {
    if reqs == [] then (db, [])
    else
      var (next, first) := Apply(db, [reqs[0]], false, now);
      var (last, rest) := OneByOne(next, reqs[1..], now);
      (last, first + rest)
  }

  // ---- what a created transaction looks like ----

  lemma CreatedShape(db: Database, accounts: Accounts, taken: map<ExternalKey, Key>, req: Request, now: Time)
    requires req.input.postings != []
    requires DecideFresh(db, accounts, taken, req, now).Create?
    ensures var d := DecideFresh(db, accounts, taken, req, now);
      && d.new_.txn.key == req.input.key
      && d.new_.txn.external == req.input.external
      && d.new_.txn.reverses == req.reverses
      && d.new_.txn.version == d.new_.txn.entriesVersion == 1
      && d.external == (if req.input.external.Some? then Some((d.new_.txn.ledger, req.input.external.value)) else None)
      && (d.external.Some? ==>
            Owner(db, taken, d.external.value).None? || Owner(db, taken, d.external.value) == Some(req.input.key))
      && d.changed.Keys <= Needs(req)
      && d.changed.Keys <= accounts.Keys
  {
    var first := req.input.postings[0].account;
    AccountIn(req.input.postings, 0);
    match Transition(accounts, ChangeOf(req))
    case Ok(applied) =>
      TransitionEffect(accounts, ChangeOf(req));
      TransitionBalances(accounts, ChangeOf(req));
      assert req.input.postings[0] in req.input.postings;
    case Err(e) =>
      LockFailureKnowsAccounts(accounts, ChangeOf(req));
  }

  // ---- the batch in step with the tables it would write ----

  ghost predicate Tracks(db: Database, b: Batch, ids: set<AccountId>) {
    && b.accounts.Keys == ids * db.accounts.Keys
    && Ordered(b)
    && (forall k :: k in b.first ==> FindKey(db, k).None?)
    && (forall i :: 0 <= i < |b.accepted| ==> b.accepted[i].txn.key in b.first)
    && OwnersKnown(db, b)
  }

  /** The batch knows every external id of the tables it would write. */
  ghost predicate OwnersKnown(db: Database, b: Batch) {
    forall k: ExternalKey :: Owner(db, b.taken, k) == FindExternal(Write(db, b), k.0, k.1)
  }

  lemma StartTracks(db: Database, ids: set<AccountId>)
    ensures Write(db, Start(db, ids)) == db
    ensures Tracks(db, Start(db, ids), ids)
  {
    assert db.accounts + Lock(db, ids) == db.accounts;
    assert db.txns + Txns([]) == db.txns && db.postings + [] == db.postings && db.entries + [] == db.entries;
  }

  /** Accepting a transaction in the batch is inserting it into the tables. */
  lemma WriteCreated(db: Database, b: Batch, key: Key, new_: NewTxn, changed: Accounts, external: Option<ExternalKey>)
    requires new_.txn.entriesVersion == 1
    ensures Write(db, Step(db, b, key, Create(new_, changed, external)))
         == InsertTxn(Write(db, b), new_.txn, new_.postings, changed)
  {
    hide RowsFor;
    hide EntriesFor;
    hide AllRows;
    hide AllEntries;
    hide Seen;
    var b' := Step(db, b, key, Create(new_, changed, external));
    MapsAssociate(db.accounts, b.accounts, changed);
    assert b'.accepted == b.accepted + [new_];
    AcceptedRows(db.postings, |db.txns|, b.accepted, new_);
    AcceptedEntries(db.entries, |db.txns|, b.accepted, new_);
    assert db.txns + Txns(b'.accepted) == db.txns + Txns(b.accepted) + [new_.txn];
  }

  /** Refusing a request or answering it with a stored transaction leaves the tables to be written as they are. */
  lemma WriteUncreated(db: Database, b: Batch, key: Key, d: Decision)
    requires !d.Create?
    ensures Write(db, Step(db, b, key, d)) == Write(db, b)
  {
  }

  lemma MapsAssociate(a: Accounts, b: Accounts, c: Accounts)
    ensures a + (b + c) == a + b + c
  {
  }

  lemma AcceptedRows(rows: seq<PostingRow>, base: TxnId, accepted: seq<NewTxn>, new_: NewTxn)
    ensures var more := if new_.txn.status.Posted? then RowsFor(base + |accepted|, new_.postings) else [];
      rows + AllRows(base, accepted + [new_]) == rows + AllRows(base, accepted) + more
  {
    var all := accepted + [new_];
    assert all[..|accepted|] == accepted;
    var more := if new_.txn.status.Posted? then RowsFor(base + |accepted|, new_.postings) else [];
    assert AllRows(base, all) == AllRows(base, accepted) + more;
    Associate(rows, AllRows(base, accepted), more);
  }

  lemma AcceptedEntries(entries: seq<EntryRow>, base: TxnId, accepted: seq<NewTxn>, new_: NewTxn)
    ensures var more := if new_.txn.status.Posted? then [] else EntriesFor(base + |accepted|, 1, new_.postings);
      entries + AllEntries(base, accepted + [new_]) == entries + AllEntries(base, accepted) + more
  {
    var all := accepted + [new_];
    assert all[..|accepted|] == accepted;
    var more := if new_.txn.status.Posted? then [] else EntriesFor(base + |accepted|, 1, new_.postings);
    assert AllEntries(base, all) == AllEntries(base, accepted) + more;
    Associate(entries, AllEntries(base, accepted), more);
  }

  lemma {:induction false} AllRowsBelong(base: TxnId, accepted: seq<NewTxn>)
    ensures forall r :: r in AllRows(base, accepted) ==> r.txn >= base
    ensures forall e :: e in AllEntries(base, accepted) ==> e.txn >= base
  {
    if accepted != [] {
      AllRowsBelong(base, accepted[..|accepted| - 1]);
    }
  }

  /** Transactions stored before the batch are read back unchanged. */
  lemma WriteReadsOld(db: Database, b: Batch, id: TxnId)
    requires id < |db.txns|
    ensures PostingsOf(Write(db, b), id) == PostingsOf(db, id)
  {
    var base := |db.txns|;
    AllRowsBelong(base, b.accepted);
    PostedOfAppend(db.postings, AllRows(base, b.accepted), id);
    PostedOfOther(AllRows(base, b.accepted), id);
    EntriesOfAppend(db.entries, AllEntries(base, b.accepted), id, db.txns[id].entriesVersion);
    EntriesOfOther(AllEntries(base, b.accepted), id, db.txns[id].entriesVersion);
  }

  lemma {:induction false} KeyBeforeSame(txns: seq<Txn>, more: seq<Txn>, key: Key, n: nat)
    requires n <= |more|
    requires forall i :: 0 <= i < n ==> more[i].key != key
    ensures KeyBefore(txns + more, key, |txns| + n) == KeyBefore(txns, key, |txns|)
  {
    if n > 0 {
      KeyBeforeSame(txns, more, key, n - 1);
    } else {
      KeyBeforePrefix(txns, more, key, |txns|);
    }
  }

  lemma {:induction false} KeyBeforePrefix(txns: seq<Txn>, more: seq<Txn>, key: Key, n: nat)
    requires n <= |txns|
    ensures KeyBefore(txns + more, key, n) == KeyBefore(txns, key, n)
  {
    if n > 0 {
      KeyBeforePrefix(txns, more, key, n - 1);
    }
  }

  lemma FindKeyAfter(db: Database, b: Batch, ids: set<AccountId>, key: Key)
    requires Tracks(db, b, ids) && key !in b.first
    ensures FindKey(Write(db, b), key) == FindKey(db, key)
  {
    KeyBeforeSame(db.txns, Txns(b.accepted), key, |b.accepted|);
  }

  lemma {:induction false} ExternalBeforePrefix(txns: seq<Txn>, more: seq<Txn>, ledger: LedgerId, external: string, n: nat)
    requires n <= |txns|
    ensures ExternalBefore(txns + more, ledger, external, n) == ExternalBefore(txns, ledger, external, n)
  {
    if n > 0 {
      ExternalBeforePrefix(txns, more, ledger, external, n - 1);
    }
  }

  lemma {:induction false} ExternalFound(txns: seq<Txn>, ledger: LedgerId, external: string, n: nat)
    requires n <= |txns|
    ensures match ExternalBefore(txns, ledger, external, n)
      case Some(key) => exists i :: 0 <= i < n && txns[i].key == key
      case None => forall i :: 0 <= i < n ==> txns[i].ledger != ledger || txns[i].external != Some(external)
  {
    if n > 0 {
      ExternalFound(txns, ledger, external, n - 1);
    }
  }

  lemma ExternalOneMore(txns: seq<Txn>, t: Txn, ledger: LedgerId, external: string)
    ensures ExternalBefore(txns + [t], ledger, external, |txns| + 1)
      == if t.ledger == ledger && t.external == Some(external) then Some(t.key)
         else ExternalBefore(txns, ledger, external, |txns|)
  {
    ExternalBeforePrefix(txns, [t], ledger, external, |txns|);
  }

  lemma OwnersAfterCreate(db: Database, b: Batch, ids: set<AccountId>, key: Key, new_: NewTxn, changed: Accounts,
                          external: Option<ExternalKey>)
    requires Tracks(db, b, ids)
    requires new_.txn.key == key && new_.txn.entriesVersion == 1
    requires external == (if new_.txn.external.Some? then Some((new_.txn.ledger, new_.txn.external.value)) else None)
    ensures var b' := Step(db, b, key, Create(new_, changed, external));
      OwnersKnown(db, b')
  {
    hide Write;
    hide Seen;
    hide ExternalBefore;
    var b' := Step(db, b, key, Create(new_, changed, external));
    WriteCreated(db, b, key, new_, changed, external);
    var txns := Write(db, b).txns;
    assert Write(db, b').txns == txns + [new_.txn];
    forall k: ExternalKey ensures Owner(db, b'.taken, k) == FindExternal(Write(db, b'), k.0, k.1) {
      ExternalOneMore(txns, new_.txn, k.0, k.1);
      assert Owner(db, b.taken, k) == FindExternal(Write(db, b), k.0, k.1);
    }
  }

  lemma ResolveTracks(db: Database, b: Batch, ids: set<AccountId>, req: Request, now: Time)
    requires Tracks(db, b, ids)
    requires req.input.postings != [] && Needs(req) <= ids
    ensures Tracks(db, Resolve(db, b, req, now), ids)
  {
    hide Decide;
    hide OwnersKnown;
    hide FindKey;
    var d := Decide(db, b, req, now);
    assert Resolve(db, b, req, now) == Step(db, b, req.input.key, d);
    if d.Create? {
      FreshDecides(db, b, req, now);
      CreatedShape(db, b.accounts, b.taken, TruncatedRequest(req), now);
      OwnersAfterCreate(db, b, ids, req.input.key, d.new_, d.changed, d.external);
      hide DecideFresh;
      StepTracks(db, b, ids, req.input.key, d);
    } else {
      OwnersAfterNothing(db, b, req.input.key, d);
      StepTracks(db, b, ids, req.input.key, d);
    }
  }

  lemma OwnersAfterNothing(db: Database, b: Batch, key: Key, d: Decision)
    requires OwnersKnown(db, b) && !d.Create?
    ensures OwnersKnown(db, Step(db, b, key, d))
  {
    hide Write;
    hide Owner;
    hide FindExternal;
    WriteUncreated(db, b, key, d);
    forall k: ExternalKey ensures Owner(db, Step(db, b, key, d).taken, k) == FindExternal(Write(db, Step(db, b, key, d)), k.0, k.1) {
      assert Owner(db, b.taken, k) == FindExternal(Write(db, b), k.0, k.1);
    }
  }

  lemma StepTracks(db: Database, b: Batch, ids: set<AccountId>, key: Key, d: Decision)
    requires Tracks(db, b, ids) && Ordered(Step(db, b, key, d)) && OwnersKnown(db, Step(db, b, key, d))
    requires d.Create? ==> FindKey(db, key).None? && d.new_.txn.key == key && d.changed.Keys <= b.accounts.Keys
    ensures Tracks(db, Step(db, b, key, d), ids)
  {
    hide OwnersKnown;
    hide FindKey;
    var b' := Step(db, b, key, d);
    forall i | 0 <= i < |b'.accepted| ensures b'.accepted[i].txn.key in b'.first {
      assert i < |b.accepted| ==> b'.accepted[i] == b.accepted[i];
    }
  }

  /** Only a request with a new key is created, and then on what the batch has left. */
  lemma FreshDecides(db: Database, b: Batch, req: Request, now: Time)
    requires req.input.postings != [] && Ordered(b) && Decide(db, b, req, now).Create?
    ensures FindKey(db, req.input.key).None?
    ensures Decide(db, b, req, now) == DecideFresh(db, b.accounts, b.taken, TruncatedRequest(req), now)
  {
    hide DecideFresh;
    hide Matches;
    hide PostingsOf;
  }

  // ---- refinement ----

  /** A request with a new key is decided alike inside the batch and alone on the tables the batch would write. */
  lemma SameDecision(db: Database, b: Batch, ids: set<AccountId>, req: Request, now: Time)
    requires Tracks(db, b, ids)
    requires req.input.postings != [] && Needs(req) <= ids && req.input.key !in b.first
    ensures var alone := Write(db, b);
      Decide(db, b, req, now) == Decide(alone, Start(alone, Needs(req)), req, now)
  {
    var alone := Write(db, b);
    FindKeyAfter(db, b, ids, req.input.key);
    KeyFound(db, req.input.key, |db.txns|);
    if FindKey(db, req.input.key).Some? {
      var id := FindKey(db, req.input.key).value;
      WriteReadsOld(db, b, id);
      assert alone.txns[id] == db.txns[id];
    } else {
      SameFreshDecision(db, b, ids, TruncatedRequest(req), now);
    }
  }

  lemma SameFreshDecision(db: Database, b: Batch, ids: set<AccountId>, req: Request, now: Time)
    requires Tracks(db, b, ids)
    requires req.input.postings != [] && Needs(req) <= ids
    ensures var alone := Write(db, b);
      DecideFresh(db, b.accounts, b.taken, req, now) == DecideFresh(alone, Lock(alone, Needs(req)), map[], req, now)
  {
    var alone := Write(db, b);
    forall k: ExternalKey ensures Owner(db, b.taken, k) == Owner(alone, map[], k) {
      assert Owner(db, b.taken, k) == FindExternal(alone, k.0, k.1);
    }
    FreshDecisionFrame(db, alone, b.accounts, Lock(alone, Needs(req)), b.taken, req, now);
  }

  predicate AgreeOn(a: Accounts, b: Accounts, ids: set<AccountId>) {
    forall id :: id in ids ==> (id in a <==> id in b) && (id in a ==> a[id] == b[id])
  }

  /** A decision depends only on the accounts the request needs, the external ids and the closed periods. */
  lemma FreshDecisionFrame(db: Database, alone: Database, accounts: Accounts, locked: Accounts, taken: map<ExternalKey, Key>,
                           req: Request, now: Time)
    requires req.input.postings != []
    requires AgreeOn(accounts, locked, Needs(req))
    requires forall k: ExternalKey :: Owner(db, taken, k) == Owner(alone, map[], k)
    requires db.closedBefore == alone.closedBefore
    ensures DecideFresh(db, accounts, taken, req, now) == DecideFresh(alone, locked, map[], req, now)
  {
    hide Transition;
    hide FindExternal;
    hide Owner;
    assert Touched(ChangeOf(req)) == Needs(req);
    TransitionFrame(accounts, locked, ChangeOf(req));
    AccountIn(req.input.postings, 0);
    if AccountsOf(req.input.postings) <= accounts.Keys {
      ArchivedAlike(accounts, locked, req.input.postings);
    }
    var t := Transition(accounts, ChangeOf(req));
    if t.Err? && t.error in {BalanceLock, LockVersion} {
      LockFailureKnowsAccounts(accounts, ChangeOf(req));
    }
  }

  lemma ArchivedAlike(accounts: Accounts, locked: Accounts, ps: seq<Posting>)
    requires AccountsOf(ps) <= accounts.Keys
    requires forall id :: id in AccountsOf(ps) ==> id in locked && accounts[id] == locked[id]
    ensures ArchivedPostings(accounts, ps) == ArchivedPostings(locked, ps)
  {
    forall i | 0 <= i < |ps| ensures ps[i].account in AccountsOf(ps) {
      AccountIn(ps, i);
    }
  }

  lemma ApplyOne(db: Database, req: Request, now: Time)
    requires req.input.postings != []
    ensures var b := Resolve(db, Start(db, Needs(req)), req, now);
      Apply(db, [req], false, now) == (Write(db, b), b.results)
  {
    assert NeedsAll([req]) == Needs(req);
    var b := Resolve(db, Start(db, Needs(req)), req, now);
    assert [req][1..] == [];
    assert RunBatch(db, Start(db, Needs(req)), [req], now) == b;
  }

  /** A decision taken in the batch and alone, on the tables the batch would write, has the same effect and answer. */
  lemma StepAlike(db: Database, b: Batch, ids: set<AccountId>, key: Key, d: Decision)
    requires d.Create? ==> d.new_.txn.entriesVersion == 1
    ensures var alone := Write(db, b);
      var one := Step(alone, Start(alone, ids), key, d);
      && Write(alone, one) == Write(db, Step(db, b, key, d))
      && Step(db, b, key, d).results == b.results + one.results
  {
    var alone := Write(db, b);
    StartTracks(alone, ids);
    AnswerAlike(db, b, ids, key, d);
    hide Step;
    hide Write;
    hide Start;
    hide InsertTxn;
    if d.Create? {
      WriteCreated(db, b, key, d.new_, d.changed, d.external);
      WriteCreated(alone, Start(alone, ids), key, d.new_, d.changed, d.external);
    } else {
      WriteUncreated(db, b, key, d);
      WriteUncreated(alone, Start(alone, ids), key, d);
    }
  }

  lemma AnswerAlike(db: Database, b: Batch, ids: set<AccountId>, key: Key, d: Decision)
    ensures var alone := Write(db, b);
      Step(db, b, key, d).results == b.results + Step(alone, Start(alone, ids), key, d).results
  {
    hide Seen;
    hide AllRows;
    hide AllEntries;
  }

  lemma CreatedVersion(db: Database, b: Batch, req: Request, now: Time)
    requires req.input.postings != [] && Ordered(b)
    ensures var d := Decide(db, b, req, now); d.Create? ==> d.new_.txn.entriesVersion == 1
  {
    if Decide(db, b, req, now).Create? {
      CreatedShape(db, b.accounts, b.taken, TruncatedRequest(req), now);
    }
  }

  /** One more request resolved in the batch is one more call on the tables the batch would write. */
  lemma OneMore(db: Database, b: Batch, ids: set<AccountId>, req: Request, now: Time)
    requires Tracks(db, b, ids)
    requires req.input.postings != [] && Needs(req) <= ids && req.input.key !in b.first
    ensures var (after, answers) := Apply(Write(db, b), [req], false, now);
      && after == Write(db, Resolve(db, b, req, now))
      && Resolve(db, b, req, now).results == b.results + answers
  {
    SameDecision(db, b, ids, req, now);
    ApplyOne(Write(db, b), req, now);
    CreatedVersion(db, b, req, now);
    StepAlike(db, b, Needs(req), req.input.key, Decide(db, b, req, now));
  }

  predicate DistinctKeys(reqs: seq<Request>) {
    forall i, j :: 0 <= i < j < |reqs| ==> reqs[i].input.key != reqs[j].input.key
  }

  /** The requests a batch may still take: with accounts it has locked and keys it has not seen. */
  predicate Eligible(b: Batch, ids: set<AccountId>, reqs: seq<Request>) {
    && DistinctKeys(reqs)
    && forall r :: r in reqs ==> r.input.postings != [] && Needs(r) <= ids && r.input.key !in b.first
  }

  lemma EligibleTail(db: Database, b: Batch, ids: set<AccountId>, reqs: seq<Request>, now: Time)
    requires reqs != [] && Eligible(b, ids, reqs) && Ordered(b)
    ensures reqs[0].input.postings != [] && Needs(reqs[0]) <= ids && reqs[0].input.key !in b.first
    ensures Eligible(Resolve(db, b, reqs[0], now), ids, reqs[1..])
  {
    assert reqs[0] in reqs;
    var next := Resolve(db, b, reqs[0], now);
    forall r | r in reqs[1..] ensures r.input.postings != [] && Needs(r) <= ids && r.input.key !in next.first {
      var i :| 0 <= i < |reqs[1..]| && reqs[1..][i] == r;
      assert reqs[i + 1] == r && r in reqs && reqs[0].input.key != reqs[i + 1].input.key;
      assert next.first.Keys <= b.first.Keys + {reqs[0].input.key};
    }
  }

  lemma {:induction false} GroupCommitFrom(db: Database, b: Batch, ids: set<AccountId>, reqs: seq<Request>, now: Time)
    requires Tracks(db, b, ids)
    requires Eligible(b, ids, reqs)
    ensures Write(db, RunBatch(db, b, reqs, now)) == OneByOne(Write(db, b), reqs, now).0
    ensures RunBatch(db, b, reqs, now).results == b.results + OneByOne(Write(db, b), reqs, now).1
    decreases |reqs|
  {
    if reqs != [] {
      EligibleTail(db, b, ids, reqs, now);
      OneMore(db, b, ids, reqs[0], now);
      ResolveTracks(db, b, ids, reqs[0], now);
      var next := Resolve(db, b, reqs[0], now);
      GroupCommitFrom(db, next, ids, reqs[1..], now);
      var first := Apply(Write(db, b), [reqs[0]], false, now).1;
      Associate(b.results, first, OneByOne(Write(db, next), reqs[1..], now).1);
    }
  }

  lemma NeedsWithin(reqs: seq<Request>, r: Request)
    requires r in reqs
    ensures Needs(r) <= NeedsAll(reqs)
  {
  }

  /**
   For requests with pairwise distinct idempotency keys and one clock, a non-atomic batch leaves exactly the
   tables (accounts and versions, transactions, postings with their balances, pending entries) and gives
   exactly the answers that submitting the requests one by one, in order, does.
   */
  lemma GroupCommitRefinesOneByOne(db: Database, reqs: seq<Request>, now: Time)
    requires forall r :: r in reqs ==> r.input.postings != []
    requires DistinctKeys(reqs)
    ensures Apply(db, reqs, false, now) == OneByOne(db, reqs, now)
  {
    var ids := NeedsAll(reqs);
    StartTracks(db, ids);
    forall r | r in reqs ensures Needs(r) <= ids {
      NeedsWithin(reqs, r);
    }
    GroupCommitFrom(db, Start(db, ids), ids, reqs, now);
    var answers := OneByOne(db, reqs, now).1;
    assert [] + answers == answers;
  }

  /** The first failure of a batch. */
  predicate FailsFirst(results: seq<Outcome>, i: nat)
    requires i < |results|
  {
    results[i].Failed? && forall h :: 0 <= h < i ==> !results[h].Failed?
  }

  /**
   An atomic batch either does what the plain batch does, every request succeeding, or writes nothing: then the
   request that fails first fails with its own error and every other one as aborted.
   */
  lemma AtomicIsAllOrNothing(db: Database, reqs: seq<Request>, now: Time)
    requires forall r :: r in reqs ==> r.input.postings != []
    ensures var (after, results) := Apply(db, reqs, true, now);
      var (plain, answers) := Apply(db, reqs, false, now);
      && (AnyFailed(answers) ==>
            && after == db && |results| == |answers|
            && forall i :: 0 <= i < |results| ==> results[i] == if FailsFirst(answers, i) then answers[i] else Failed(BatchAborted))
      && (!AnyFailed(answers) ==> after == plain && results == answers)
  {
    var b := RunBatch(db, Start(db, NeedsAll(reqs)), reqs, now);
    AbortedExact(b.results);
  }

  lemma {:induction false} AbortedExact(results: seq<Outcome>)
    ensures |Aborted(results)| == |results|
    ensures forall i :: 0 <= i < |results| ==>
      Aborted(results)[i] == if FailsFirst(results, i) then results[i] else Failed(BatchAborted)
  {
    if results != [] && !results[0].Failed? {
      AbortedExact(results[1..]);
      forall i | 0 < i < |results| ensures FailsFirst(results, i) == FailsFirst(results[1..], i - 1) {
        assert forall h :: 0 < h < i ==> results[h] == results[1..][h - 1];
        assert forall h :: 0 <= h < i - 1 ==> results[1..][h] == results[h + 1];
      }
    }
  }
}
