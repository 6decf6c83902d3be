/** The batch engine: many requests resolved in order over one in-memory state, then written at once. */
module Engine {
  import opened Wrappers
  import opened Money
  import opened Kernel
  import opened Sums
  import opened BalanceChange
  import opened BalanceEffects
  import opened Tables

  datatype Request = Request(input: PostInput, reverses: Option<TxnId>, release: Option<Release>)

  /** A transaction not yet stored, with its entries. */
  datatype NewTxn = NewTxn(txn: Txn, postings: seq<Posting>)

  datatype Outcome =
    | Failed(error: Error)
    | Replayed(id: TxnId)
    | Created(id: TxnId, new_: NewTxn)

  type ExternalKey = (LedgerId, string)

  /** The loop variables of the batch. */
  datatype Batch = Batch(
    accounts: Accounts,
    taken: map<ExternalKey, Key>,
    first: map<Key, nat>,
    results: seq<Outcome>,
    accepted: seq<NewTxn>)

  // ---- validation ----

  predicate ValidEntries(ps: seq<Posting>) {
    && 2 <= |ps| <= 1000
    && forall p :: p in ps ==> p.amount > 0 && (p.lockVersion.Some? ==> p.lockVersion.value >= 0)
  }

  predicate ValidInput(input: PostInput) {
    && (input.requested.Some? ==> !input.requested.value.Archived?)
    && ValidEntries(input.postings)
  }

  /** What the engine relies on: so it is for every validated input, and for the requests the service builds itself. */
  predicate WellFormed(req: Request) {
    && req.input.postings != [] && !req.input.Status().Archived?
    && (forall p :: p in req.input.postings ==> p.amount > 0)
    && (req.release.Some? ==> req.release.value.amount > 0 && !req.input.archiveOnLockFailure)
  }

  // ---- matching a resubmitted request ----

  const MICROSECOND := 1000

  function Truncate(t: Time): Time {
    t - t % MICROSECOND
  }

  function Truncated(input: PostInput): PostInput {
    input.(effectiveAt := if input.effectiveAt.Some? then Some(Truncate(input.effectiveAt.value)) else None)
  }

  predicate SameEntry(stored: Posting, given: Posting) {
    && stored.account == given.account && stored.side == given.side && stored.amount == given.amount
    && (given.currency.Some? && stored.currency.Some? ==> given.currency == stored.currency)
  }

  predicate SameEntries(stored: seq<Posting>, given: seq<Posting>) {
    && |stored| == |given|
    && forall i :: 0 <= i < |given| ==> SameEntry(stored[i], given[i])
  }

  predicate SameContent(description: string, metadata: Metadata, external: Option<string>, stored: seq<Posting>, given: PostInput) {
    && description == given.description && external == given.external && metadata == given.metadata
    && SameEntries(stored, given.postings)
  }

  /** Whether a stored transaction answers a request: by the request that created it if that is kept, else by its content. */
  predicate Matches(t: Txn, postings: seq<Posting>, input: PostInput) {
    if t.request.Some? then
      var r := t.request.value;
      && r.effectiveAt == input.effectiveAt
      && r.Status() == input.Status()
      && SameContent(r.description, r.metadata, r.external, r.postings, input)
    else
      && input.Status().Posted?
      && (input.effectiveAt.Some? ==> input.effectiveAt.value == t.effectiveAt)
      && SameContent(t.description, t.metadata, t.external, postings, input)
  }

  // ---- resolving one request ----

  datatype Decision =
    | Refuse(error: Error)
    | Replay(id: TxnId)
    | Create(new_: NewTxn, changed: Accounts, external: Option<ExternalKey>)

  function ChangeOf(req: Request): Change {
    Change(None, [], req.input.postings, req.input.Status(), req.release)
  }

  /** A lock can only fail once every account of the request has been found. */
  lemma LockFailureKnowsAccounts(base: Accounts, c: Change)
    requires c.unpend == [] && Transition(base, c).Err? && Transition(base, c).error in {BalanceLock, LockVersion}
    ensures AccountsOf(c.add) <= base.Keys
  {
    var start := Work(map[], c.ledger, map[], None, []);
    if RecordAll(base, start, c.add, c.status).Ok? {
      RecordKeys(base, start, c.add, c.status);
    } else {
      RecordErrors(base, start, c.add, c.status);
    }
  }

  lemma {:induction false} RecordErrors(base: Accounts, w: Work, ps: seq<Posting>, status: Status)
    requires RecordAll(base, w, ps, status).Err?
    ensures RecordAll(base, w, ps, status).error !in {BalanceLock, LockVersion}
    decreases |ps|
  {
    if RecordOne(base, w, ps[0], status).Ok? {
      RecordErrors(base, RecordOne(base, w, ps[0], status).value, ps[1..], status);
    }
  }

  function ArchivedPostings(accounts: Accounts, ps: seq<Posting>): seq<Posting>
    requires AccountsOf(ps) <= accounts.Keys
  {
    seq(|ps|, i requires 0 <= i < |ps| =>
      AccountIn(ps, i);
      ps[i].(currency := Some(accounts[ps[i].account].currency)))
  }

  lemma AccountIn(ps: seq<Posting>, i: nat)
    requires i < |ps|
    ensures ps[i].account in AccountsOf(ps)
  {
    assert ps[i] in ps;
  }

  function ExternalOf(accounts: Accounts, input: PostInput): Option<ExternalKey>
    requires input.postings != []
  {
    if input.external.Some? && input.postings[0].account in accounts then
      Some((accounts[input.postings[0].account].ledger, input.external.value))
    else None
  }

  function Owner(db: Database, taken: map<ExternalKey, Key>, k: ExternalKey): Option<Key> {
    if k in taken then Some(taken[k]) else FindExternal(db, k.0, k.1)
  }

  function NewTransaction(
    input: PostInput, reverses: Option<TxnId>, status: Status, ledger: LedgerId, postings: seq<Posting>, effectiveAt: Time, now: Time
  ): NewTxn {
    NewTxn(Txn(ledger, input.key, input.external, status, 1, 1, input.description, input.metadata, reverses,
               effectiveAt, now, if status.Posted? then None else Some(input)), postings)
  }

  /** A request whose key is new, on the accounts as the batch has left them. */
  function DecideFresh(db: Database, accounts: Accounts, taken: map<ExternalKey, Key>, req: Request, now: Time): Decision
    requires req.input.postings != []
  {
    var input := req.input;
    var external := ExternalOf(accounts, input);
    var owner := if external.Some? then Owner(db, taken, external.value) else None;
    if owner.Some? && owner.value != input.key then Refuse(ExternalIdExists)
    else
      var effectiveAt := if input.effectiveAt.Some? then input.effectiveAt.value else now;
      var first := input.postings[0].account;
      if && first in accounts && !input.Status().Archived?
         && accounts[first].ledger in db.closedBefore && effectiveAt < db.closedBefore[accounts[first].ledger]
      then Refuse(PeriodClosed)
      else
        match Transition(accounts, ChangeOf(req))
        case Ok(applied) =>
          var ledger := if applied.ledger.Some? then applied.ledger.value else 0;
          Create(NewTransaction(input, req.reverses, input.Status(), ledger, applied.postings, effectiveAt, now),
                 applied.changed, external)
        case Err(e) =>
          if !input.archiveOnLockFailure || e !in {BalanceLock, LockVersion} then Refuse(e)
          else
            LockFailureKnowsAccounts(accounts, ChangeOf(req));
            AccountIn(input.postings, 0);
            Create(NewTransaction(input, req.reverses, Archived, accounts[first].ledger,
                                  ArchivedPostings(accounts, input.postings), effectiveAt, now),
                   map[], external)
  }

  function AnswerFrom(prior: Outcome, input: PostInput): Decision
    requires !prior.Replayed?
  {
    if prior.Failed? then Refuse(prior.error)
    else if Matches(prior.new_.txn, prior.new_.postings, input) then Replay(prior.id)
    else Refuse(IdempotencyConflict)
  }

  /** The first request of a key is resolved afresh, so a later one finds it failed or created. */
  predicate Ordered(b: Batch) {
    forall k :: k in b.first ==> b.first[k] < |b.results| && !b.results[b.first[k]].Replayed?
  }

  function TruncatedRequest(req: Request): Request {
    req.(input := Truncated(req.input))
  }

  /** Resolves one request: a stored transaction answers it, or an earlier request of the batch, or it is new. */
  function Decide(db: Database, b: Batch, req: Request, now: Time): Decision
    requires req.input.postings != [] && Ordered(b)
  {
    var input := Truncated(req.input);
    match FindKey(db, input.key)
    case Some(id) =>
      KeyFound(db, input.key, |db.txns|);
      if Matches(db.txns[id], PostingsOf(db, id), input) then Replay(id) else Refuse(IdempotencyConflict)
    case None =>
      if input.key in b.first then AnswerFrom(b.results[b.first[input.key]], input)
      else DecideFresh(db, b.accounts, b.taken, TruncatedRequest(req), now)
  }

  lemma {:induction false} KeyFound(db: Database, key: Key, n: nat)
    requires n <= |db.txns|
    ensures match KeyBefore(db.txns, key, n)
      case Some(id) => id < n && db.txns[id].key == key
      case None => forall i :: 0 <= i < n ==> db.txns[i].key != key
  {
    if n > 0 {
      KeyFound(db, key, n - 1);
    }
  }

  function Seen(b: Batch, known: bool, key: Key): map<Key, nat> {
    if known || key in b.first then b.first else b.first[key := |b.results|]
  }

  /** The batch after a decision. */
  function Step(db: Database, b: Batch, key: Key, d: Decision): Batch {
    var first := Seen(b, FindKey(db, key).Some?, key);
    match d
    case Refuse(e) => b.(first := first, results := b.results + [Failed(e)])
    case Replay(id) => b.(first := first, results := b.results + [Replayed(id)])
    case Create(new_, changed, external) =>
      Batch(b.accounts + changed,
            if external.Some? then b.taken[external.value := key] else b.taken,
            first,
            b.results + [Created(|db.txns| + |b.accepted|, new_)],
            b.accepted + [new_])
  }

  function Resolve(db: Database, b: Batch, req: Request, now: Time): (b': Batch)
    requires req.input.postings != [] && Ordered(b)
    ensures Ordered(b')
  {
    var d := Decide(db, b, req, now);
    assert FindKey(db, req.input.key).None? && req.input.key !in b.first ==> !d.Replay?;
    Step(db, b, req.input.key, d)
  }

  function RunBatch(db: Database, b: Batch, reqs: seq<Request>, now: Time): (b': Batch)
    requires forall r :: r in reqs ==> r.input.postings != []
    requires Ordered(b)
    ensures Ordered(b')
    decreases |reqs|
  {
    if reqs == [] then b else RunBatch(db, Resolve(db, b, reqs[0], now), reqs[1..], now)
  }

  // ---- the accounts a batch locks, and writing it back ----

  function Needs(req: Request): set<AccountId> {
    AccountsOf(req.input.postings) + (if req.release.Some? then {req.release.value.account} else {})
  }

  function NeedsAll(reqs: seq<Request>): set<AccountId> {
    set r, id | r in reqs && id in Needs(r) :: id
  }

  function Lock(db: Database, ids: set<AccountId>): Accounts {
    map id | id in ids && id in db.accounts :: db.accounts[id]
  }

  function Start(db: Database, ids: set<AccountId>): Batch {
    Batch(Lock(db, ids), map[], map[], [], [])
  }

  function Txns(accepted: seq<NewTxn>): seq<Txn> {
    seq(|accepted|, i requires 0 <= i < |accepted| => accepted[i].txn)
  }

  /** The journal postings of a batch of new transactions numbered from `base`. */
  function AllRows(base: TxnId, accepted: seq<NewTxn>): seq<PostingRow> {
    if accepted == [] then []
    else
      var last := |accepted| - 1;
      AllRows(base, accepted[..last])
      + (if accepted[last].txn.status.Posted? then RowsFor(base + last, accepted[last].postings) else [])
  }

  function AllEntries(base: TxnId, accepted: seq<NewTxn>): seq<EntryRow> {
    if accepted == [] then []
    else
      var last := |accepted| - 1;
      AllEntries(base, accepted[..last])
      + (if accepted[last].txn.status.Posted? then [] else EntriesFor(base + last, 1, accepted[last].postings))
  }

  function Write(db: Database, b: Batch): Database {
    var base := |db.txns|;
    db.(accounts := db.accounts + b.accounts,
        txns := db.txns + Txns(b.accepted),
        postings := db.postings + AllRows(base, b.accepted),
        entries := db.entries + AllEntries(base, b.accepted))
  }

  predicate AnyFailed(results: seq<Outcome>) {
    exists i :: 0 <= i < |results| && results[i].Failed?
  }

  /** The outcome of a whole batch. An atomic batch with a failure writes nothing and fails every request. */
  function Apply(db: Database, reqs: seq<Request>, atomic: bool, now: Time): (Database, seq<Outcome>)
    requires forall r :: r in reqs ==> r.input.postings != []
  {
    var b := RunBatch(db, Start(db, NeedsAll(reqs)), reqs, now);
    if atomic && AnyFailed(b.results) then (db, Aborted(b.results)) else (Write(db, b), b.results)
  }

  /** Up to the first failure, which keeps its error, and from there on, requests fail as aborted. */
  function Aborted(results: seq<Outcome>): seq<Outcome> {
    if results == [] then []
    else if results[0].Failed? then [results[0]] + seq(|results| - 1, _ => Failed(BatchAborted))
    else [Failed(BatchAborted)] + Aborted(results[1..])
  }
}
