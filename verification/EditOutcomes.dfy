/** Exactly what posting, editing and archiving a pending transaction leave, and when they succeed. */
module EditOutcomes {
  import opened Wrappers
  import opened Money
  import opened Kernel
  import opened Sums
  import opened BalanceChange
  import opened BalanceEffects
  import opened Tables
  import opened Preservation
  import opened TableWrites
  import opened Engine
  import opened PendingTransactions
  import opened PendingOutcomes
  import opened Replays
  import opened Histories
  import opened Acceptance
  import opened RequestOutcomes

  /** The tables differ at most in transaction `id` and its entries, in new journal rows, and in the accounts. */
  ghost predicate OnlyTxn(db: Database, after: Database, id: TxnId)
    requires id < |db.txns|
  {
    && |after.txns| == |db.txns|
    && (forall i :: 0 <= i < |db.txns| && i != id ==> after.txns[i] == db.txns[i] && PostingsOf(after, i) == PostingsOf(db, i))
    && after.holds == db.holds && after.settlements == db.settlements && after.closedBefore == db.closedBefore
  }

  /** Stored entries of a pending transaction are as asked exactly when they match. */
  lemma StoredEntries(db: Database, id: TxnId)
    requires RowsWellFormed(db) && id < |db.txns|
    ensures forall p :: p in PostingsOf(db, id) ==>
      p.amount > 0 && p.account in db.accounts && p.currency == Some(db.accounts[p.account].currency)
  {
    if db.txns[id].status.Posted? {
      RowsAsStored(db, db.postings, id);
    } else {
      EntriesPositive(db, db.entries, id, db.txns[id].entriesVersion);
    }
  }

  lemma {:induction false} RowsAsStored(db: Database, rows: seq<PostingRow>, id: TxnId)
    requires forall r :: r in rows ==> JournalRow(db, r)
    ensures forall p :: p in PostedOf(rows, id) ==>
      p.amount > 0 && p.account in db.accounts && p.currency == Some(db.accounts[p.account].currency)
  {
    if rows != [] {
      RowsAsStored(db, rows[1..], id);
      assert JournalRow(db, rows[0]);
    }
  }

  lemma SameIsAsAsked(accounts: Accounts, stored: seq<Posting>, given: seq<Posting>)
    requires forall p :: p in stored ==> p.account in accounts && p.currency == Some(accounts[p.account].currency)
    ensures SameEntries(stored, given) <==> EntriesAsAsked(accounts, stored, given)
    ensures EntriesAsAsked(accounts, stored, stored)
  {
    if SameEntries(stored, given) {
      forall i | 0 <= i < |given| ensures given[i].account in accounts {
        assert stored[i] in stored && SameEntry(stored[i], given[i]);
      }
    }
    forall i | 0 <= i < |stored| ensures stored[i].account in accounts && stored[i].currency == Some(accounts[stored[i].account].currency) {
      assert stored[i] in stored;
    }
  }

  /** The change that replaces a pending transaction's entries by `add` under a status. */
  function Replacing(db: Database, id: TxnId, add: seq<Posting>, status: Status): Change
    requires id < |db.txns|
  {
    Change(Some(db.txns[id].ledger), PostingsOf(db, id), add, status, None)
  }

  /** The pending entries make way for these: the accounts move by both, and the transaction carries the new ones. */
  ghost predicate Replaced(db: Database, after: Database, id: TxnId, add: seq<Posting>, status: Status)
    requires id < |db.txns|
  {
    && OnlyTxn(db, after, id)
    && AccountsMove(db.accounts, after.accounts, Replacing(db, id, add, status))
    && (if status.Archived? then PostingsOf(after, id) == PostingsOf(db, id)
        else EntriesAsAsked(db.accounts, PostingsOf(after, id), add))
  }

  lemma RewrittenReplaces(db: Database, id: TxnId, next: Txn, add: seq<Posting>, status: Status)
    requires Sound(db) && id < |db.txns| && db.txns[id].status.Pending? && next.status == status
    requires next.entriesVersion == (if status.Pending? then db.txns[id].version + 1 else db.txns[id].entriesVersion)
    requires Transition(db.accounts, Replacing(db, id, add, status)).Ok?
    ensures var after := Rewritten(db, id, next, Replacing(db, id, add, status)).0;
      && Replaced(db, after, id, add, status)
      && after.txns[id] == next.(version := db.txns[id].version + 1)
      && (!status.Posted? ==> after.postings == db.postings)
  {
    hide Transition;
    hide PostingsOf;
    var c := Replacing(db, id, add, status);
    var applied := Transition(db.accounts, c).value;
    ReplacingFacts(db, id, add, status, applied);
    hide Sound;
    hide AccountsMove;
    hide EntriesAsAsked;
    hide Stripped;
    hide RowsBelong;
    RewriteFrame(db, id, next.(version := db.txns[id].version + 1), applied.postings, applied.changed);
  }

  /** A rewritten transaction is read back as written; of the others, and of everything else, nothing has changed. */
  lemma RewriteFrame(db: Database, id: TxnId, t: Txn, ps: seq<Posting>, changed: Accounts)
    requires RowsBelong(db) && id < |db.txns| && db.txns[id].status.Pending? && t.version == db.txns[id].version + 1
    requires t.entriesVersion == t.version || t.entriesVersion == db.txns[id].entriesVersion
    requires t.entriesVersion == t.version ==> !t.status.Archived?
    requires db.txns[id].entriesVersion <= db.txns[id].version
    ensures var after := RewriteTxn(db, id, t, ps, changed);
      && OnlyTxn(db, after, id) && after.txns == db.txns[id := t] && after.accounts == db.accounts + changed
      && (!t.status.Posted? ==> after.postings == db.postings)
      && PostingsOf(after, id) ==
           (if t.status.Posted? then Stripped(ps, true)
            else if t.entriesVersion == t.version then Stripped(ps, false)
            else PostingsOf(db, id))
  {
    hide PostingsOf;
    hide RowsBelong;
    hide Stripped;
    RewriteReadsBack(db, id, t, ps, changed);
  }

  lemma ReplacingFacts(db: Database, id: TxnId, add: seq<Posting>, status: Status, applied: Applied)
    requires Sound(db) && id < |db.txns| && Transition(db.accounts, Replacing(db, id, add, status)) == Ok(applied)
    ensures EntriesAsAsked(db.accounts, Stripped(applied.postings, true), add)
    ensures EntriesAsAsked(db.accounts, Stripped(applied.postings, false), add)
    ensures AccountsMove(db.accounts, db.accounts + applied.changed, Replacing(db, id, add, status))
    ensures RowsBelong(db) && db.txns[id].entriesVersion <= db.txns[id].version
  {
    hide Transition;
    var c := Replacing(db, id, add, status);
    RowsOf(db);
    EntriesWithin(db, id);
    hide Sound;
    hide PostingsOf;
    TransitionGuarantees(db.accounts, c);
    StrippedEntries(db, c, applied);
    KeptEntries(db.accounts, applied.postings, add);
    Moves(db.accounts, c);
  }

  lemma EntriesWithin(db: Database, id: TxnId)
    requires RowsWellFormed(db) && id < |db.txns|
    ensures db.txns[id].entriesVersion <= db.txns[id].version
  {
  }

  lemma KeptEntries(accounts: Accounts, ps: seq<Posting>, given: seq<Posting>)
    requires EntriesAsAsked(accounts, Stripped(ps, true), given)
    ensures EntriesAsAsked(accounts, Stripped(ps, false), given)
  {
  }

  // ---- posting ----

  /** The entries a posting posts: those given, or all that are pending. */
  function Given(db: Database, id: TxnId, postings: seq<Posting>): seq<Posting>
    requires id < |db.txns|
  {
    if postings == [] then PostingsOf(db, id) else postings
  }

  /** The entries are within what is pending, account by account and side by side. */
  ghost predicate Within(postings: seq<Posting>, pending: seq<Posting>) {
    && (forall a, side :: Sum(pending, OnSide(a, side)) <= MAX_AMOUNT)
    && forall a, side :: Sum(postings, OnSide(a, side)) <= Sum(pending, OnSide(a, side))
  }

  ghost predicate Accepted(base: Accounts, c: Change) {
    Acceptable(base, c) && forall a :: a in Touched(c) ==> Affords(base[a], Effect(base[a], c, a))
  }

  lemma AcceptedExact(db: Database, id: TxnId, add: seq<Posting>, status: Status)
    requires Sound(db) && id < |db.txns| && db.txns[id].status.Pending? && Positives(add)
    ensures Transition(db.accounts, Replacing(db, id, add, status)).Ok? <==> Accepted(db.accounts, Replacing(db, id, add, status))
  {
    hide Transition;
    SoundIsOrdinary(db);
    StoredEntries(db, id);
    TransitionExact(db.accounts, Replacing(db, id, add, status));
  }

  /** What it takes for valid entries to be posted, or found posted. */
  ghost predicate Postable(db: Database, id: TxnId, postings: seq<Posting>)
    requires id < |db.txns|
  {
    match db.txns[id].status
    case Archived => false
    case Posted => postings == [] || EntriesAsAsked(db.accounts, PostingsOf(db, id), postings)
    case Pending =>
      && (postings == [] || Within(postings, PostingsOf(db, id)))
      && Accepted(db.accounts, Replacing(db, id, Given(db, id, postings), Posted))
  }

  /**
   Posting a pending transaction succeeds exactly if the entries given are valid and within what is pending, and the
   change is accepted; it is then posted, one version up, with the entries given in order, or with those that were
   pending if none were given, and every account moves by the old entries and the new. Posting again what is posted
   succeeds exactly if no entries or the same are given, and changes nothing; nothing else succeeds.
   */
  lemma PostPendingExact(db: Database, id: TxnId, postings: seq<Posting>)
    requires Sound(db)
    ensures var (after, r) := PostPending(db, id, postings);
      && (r.Err? || !db.txns[id].status.Pending? ==> after == db)
      && (r.Ok? <==> id < |db.txns| && (postings == [] || ValidEntries(postings)) && Postable(db, id, postings))
      && (r.Ok? && db.txns[id].status.Pending? ==>
            && Replaced(db, after, id, Given(db, id, postings), Posted)
            && after.txns[id] == db.txns[id].(status := Posted, version := db.txns[id].version + 1))
  {
    if id < |db.txns| && (postings == [] || ValidEntries(postings)) {
      StoredEntries(db, id);
      SameIsAsAsked(db.accounts, PostingsOf(db, id), postings);
      if db.txns[id].status.Pending? {
        PostsExactly(db, id, postings);
      }
    }
  }

  lemma PostsExactly(db: Database, id: TxnId, postings: seq<Posting>)
    requires Sound(db) && id < |db.txns| && db.txns[id].status.Pending? && (postings == [] || ValidEntries(postings))
    ensures var (after, r) := PostPending(db, id, postings);
      && (r.Err? ==> after == db)
      && (r.Ok? <==>
            && (postings == [] || Within(postings, PostingsOf(db, id)))
            && Accepted(db.accounts, Replacing(db, id, Given(db, id, postings), Posted)))
      && (r.Ok? ==>
            && Replaced(db, after, id, Given(db, id, postings), Posted)
            && after.txns[id] == db.txns[id].(status := Posted, version := db.txns[id].version + 1))
  {
    hide Transition;
    hide Sound;
    hide Accepted;
    hide Replaced;
    var given := Given(db, id, postings);
    RowsFine(db);
    StoredEntries(db, id);
    if postings != [] {
      CheckPartialExact(PostingsOf(db, id), postings);
    }
    AcceptedExact(db, id, given, Posted);
    if Transition(db.accounts, Replacing(db, id, given, Posted)).Ok? {
      RewrittenReplaces(db, id, db.txns[id].(status := Posted), given, Posted);
    }
  }

  lemma RowsFine(db: Database)
    requires Sound(db)
    ensures RowsWellFormed(db)
  {
  }

  /**
   Archiving a pending transaction gives back exactly its pending amounts: it is archived, one version up, its entries
   stay as they were, and nothing else changes. An archived one stays, a posted one is refused.
   */
  lemma ArchiveExact(db: Database, id: TxnId)
    requires Sound(db)
    ensures var (after, r) := ArchiveTransaction(db, id);
      && (r.Ok? <==> id < |db.txns| && !db.txns[id].status.Posted?)
      && (r.Err? || db.txns[id].status.Archived? ==> after == db)
      && (r.Ok? && db.txns[id].status.Pending? ==>
            && Replaced(db, after, id, [], Archived)
            && after.postings == db.postings
            && after.txns[id] == db.txns[id].(status := Archived, version := db.txns[id].version + 1))
  {
    hide Transition;
    hide Sound;
    hide Replaced;
    if id < |db.txns| {
      ArchiveSucceeds(db, id);
      if db.txns[id].status.Pending? {
        RewrittenIfOk(db, id);
        RewrittenReplaces(db, id, db.txns[id].(status := Archived), [], Archived);
      }
    }
  }

  lemma RewrittenIfOk(db: Database, id: TxnId)
    requires id < |db.txns| && db.txns[id].status.Pending? && ArchiveTransaction(db, id).1.Ok?
    ensures Transition(db.accounts, Replacing(db, id, [], Archived)).Ok?
    ensures ArchiveTransaction(db, id) ==
      Rewritten(db, id, db.txns[id].(status := Archived), Replacing(db, id, [], Archived))
  {
    hide Transition;
  }

  // ---- editing ----

  /** What an edit asks for: the text and time given, or the old ones, and the merged metadata. */
  predicate EditedTo(before: Txn, after: Txn, u: Update, metadata: Metadata) {
    && after.description == (if u.description.Some? then u.description.value else before.description)
    && after.metadata == metadata
    && after.effectiveAt == (if u.effectiveAt.Some? then u.effectiveAt.value - u.effectiveAt.value % 1000 else before.effectiveAt)
    && after.status == before.status && SameIdentity(after, before)
  }

  /** The edit gives entries, and not those the transaction has. */
  predicate ChangesEntries(db: Database, id: TxnId, u: Update)
    requires id < |db.txns|
  {
    u.postings.Some? && !EntriesAsAsked(db.accounts, PostingsOf(db, id), u.postings.value)
  }

  /** An account whose pending totals have moved from some entries to others; nothing else of it but its version has. */
  predicate PendingMoved(before: Account, after: Account, old_: seq<Posting>, new_: seq<Posting>, a: AccountId) {
    after == before.(
      pendingDebits := before.pendingDebits - Sum(old_, OnSide(a, Debit)) + Sum(new_, OnSide(a, Debit)),
      pendingCredits := before.pendingCredits - Sum(old_, OnSide(a, Credit)) + Sum(new_, OnSide(a, Credit)),
      version := after.version)
  }

  ghost predicate PendingMoves(before: Accounts, after: Accounts, old_: seq<Posting>, new_: seq<Posting>) {
    after.Keys == before.Keys && forall a :: a in before ==> PendingMoved(before[a], after[a], old_, new_, a)
  }

  lemma AsAskedSums(accounts: Accounts, stored: seq<Posting>, given: seq<Posting>, a: AccountId, side: Side)
    requires EntriesAsAsked(accounts, stored, given)
    ensures Sum(stored, OnSide(a, side)) == Sum(given, OnSide(a, side))
  {
    SumAligned(stored, given, OnSide(a, side), OnSide(a, side));
  }

  lemma ReplacedMovesPending(before: Accounts, after: Accounts, c: Change, stored: seq<Posting>)
    requires AccountsMove(before, after, c) && c.status.Pending? && c.release.None?
    requires EntriesAsAsked(before, stored, c.add)
    ensures PendingMoves(before, after, c.unpend, stored)
  {
    hide AccountsMove;
    hide EntriesAsAsked;
    forall a | a in before ensures a in after && PendingMoved(before[a], after[a], c.unpend, stored, a) {
      AsAskedSums(before, stored, c.add, a, Debit);
      AsAskedSums(before, stored, c.add, a, Credit);
      MovedPending(before, after, c, stored, a);
    }
    SameKeys(before, after, c);
  }

  lemma SameKeys(before: Accounts, after: Accounts, c: Change)
    requires AccountsMove(before, after, c)
    ensures after.Keys == before.Keys
  {
  }

  lemma MovedPending(before: Accounts, after: Accounts, c: Change, stored: seq<Posting>, a: AccountId)
    requires AccountsMove(before, after, c) && c.status.Pending? && c.release.None? && a in before
    requires Sum(stored, OnSide(a, Debit)) == Sum(c.add, OnSide(a, Debit))
    requires Sum(stored, OnSide(a, Credit)) == Sum(c.add, OnSide(a, Credit))
    ensures a in after && PendingMoved(before[a], after[a], c.unpend, stored, a)
  {
    hide Sum;
    if a !in Touched(c) {
      UntouchedSums(c.unpend, a);
      UntouchedSums(c.add, a);
    }
  }

  /**
   An edit of a pending transaction succeeds exactly if the metadata patch does and, should it change the entries,
   they are valid and the change is accepted. The texts, metadata and effective time are then those given, or the old
   ones; the entries are those given in order, or the old ones; the pending totals have moved from the old entries to
   the new. The version is one higher exactly if anything has changed.
   */
  lemma UpdateExact(db: Database, id: TxnId, u: Update)
    requires Sound(db)
    ensures var (after, r) := UpdateTransaction(db, id, u);
      && (r.Err? ==> after == db)
      && (r.Ok? <==>
            && id < |db.txns| && db.txns[id].status.Pending?
            && (u.postings.Some? ==> ValidEntries(u.postings.value))
            && u.patch(db.txns[id].metadata).Some?
            && (ChangesEntries(db, id, u) ==> Accepted(db.accounts, Replacing(db, id, u.postings.value, Pending))))
      && (r.Ok? ==>
            && OnlyTxn(db, after, id) && after.postings == db.postings
            && EditedTo(db.txns[id], after.txns[id], u, u.patch(db.txns[id].metadata).value)
            && (if u.postings.Some? then EntriesAsAsked(db.accounts, PostingsOf(after, id), u.postings.value)
                else PostingsOf(after, id) == PostingsOf(db, id))
            && PendingMoves(db.accounts, after.accounts, PostingsOf(db, id), PostingsOf(after, id))
            && after.txns[id].version == db.txns[id].version
                 + (if ChangesEntries(db, id, u) || !SameTexts(db.txns[id], after.txns[id]) then 1 else 0))
  {
    if id < |db.txns| && db.txns[id].status.Pending? && (u.postings.Some? ==> ValidEntries(u.postings.value)) {
      StoredEntries(db, id);
      if u.postings.Some? {
        SameIsAsAsked(db.accounts, PostingsOf(db, id), u.postings.value);
      }
      if u.patch(db.txns[id].metadata).Some? {
        if ChangesEntries(db, id, u) {
          EditsEntries(db, id, u);
        } else {
          EditsTexts(db, id, u);
        }
      }
    }
  }

  predicate SameTexts(t: Txn, u: Txn) {
    t.description == u.description && t.metadata == u.metadata && t.effectiveAt == u.effectiveAt
  }

  lemma EditsEntries(db: Database, id: TxnId, u: Update)
    requires Sound(db) && id < |db.txns| && db.txns[id].status.Pending? && ChangesEntries(db, id, u)
    requires ValidEntries(u.postings.value) && !SameEntries(PostingsOf(db, id), u.postings.value)
    requires u.patch(db.txns[id].metadata).Some?
    ensures var (after, r) := UpdateTransaction(db, id, u);
      && (r.Err? ==> after == db)
      && (r.Ok? <==> Accepted(db.accounts, Replacing(db, id, u.postings.value, Pending)))
      && (r.Ok? ==>
            && OnlyTxn(db, after, id) && after.postings == db.postings
            && EditedTo(db.txns[id], after.txns[id], u, u.patch(db.txns[id].metadata).value)
            && EntriesAsAsked(db.accounts, PostingsOf(after, id), u.postings.value)
            && PendingMoves(db.accounts, after.accounts, PostingsOf(db, id), PostingsOf(after, id))
            && after.txns[id].version == db.txns[id].version + 1)
  {
    hide Transition;
    hide Sound;
    hide Accepted;
    hide PendingMoves;
    hide EntriesAsAsked;
    hide SameEntries;
    hide PostingsOf;
    hide AccountsMove;
    hide OnlyTxn;
    var t, add := db.txns[id], u.postings.value;
    var next := Edited(t, u, u.patch(t.metadata).value).(entriesVersion := t.version + 1);
    AcceptedExact(db, id, add, Pending);
    if Transition(db.accounts, Replacing(db, id, add, Pending)).Ok? {
      RewrittenReplaces(db, id, next, add, Pending);
      var after := Rewritten(db, id, next, Replacing(db, id, add, Pending)).0;
      ReplacedMovesPending(db.accounts, after.accounts, Replacing(db, id, add, Pending), PostingsOf(after, id));
    }
  }

  lemma EditsTexts(db: Database, id: TxnId, u: Update)
    requires Sound(db) && id < |db.txns| && db.txns[id].status.Pending?
    requires u.postings.Some? ==> ValidEntries(u.postings.value) && SameEntries(PostingsOf(db, id), u.postings.value)
    requires u.patch(db.txns[id].metadata).Some?
    ensures var (after, r) := UpdateTransaction(db, id, u);
      && r.Ok? && OnlyTxn(db, after, id) && after.postings == db.postings
      && EditedTo(db.txns[id], after.txns[id], u, u.patch(db.txns[id].metadata).value)
      && PostingsOf(after, id) == PostingsOf(db, id) && after.accounts == db.accounts
      && PendingMoves(db.accounts, after.accounts, PostingsOf(db, id), PostingsOf(after, id))
      && after.txns[id].version == db.txns[id].version + (if SameTexts(db.txns[id], after.txns[id]) then 0 else 1)
  {
    RowsOf(db);
    EntriesWithin(db, id);
    hide Sound;
    hide RowsBelong;
    hide PostingsOf;
    hide SameEntries;
    hide PendingMoves;
    TextsOnly(db, id, u);
    hide UpdateTransaction;
    hide RewriteTxn;
    hide OnlyTxn;
    hide ValidEntries;
    OnlySame(db, id);
    var next := Edited(db.txns[id], u, u.patch(db.txns[id].metadata).value);
    EditedTexts(db.txns[id], u, u.patch(db.txns[id].metadata).value, db.txns[id].version + 1);
    hide Edited;
    hide EditedTo;
    hide SameTexts;
    NothingMoves(db.accounts, PostingsOf(db, id));
    if next != db.txns[id] {
      RewriteFrame(db, id, next.(version := db.txns[id].version + 1), PostingsOf(db, id), map[]);
      assert db.accounts + map[] == db.accounts;
    }
  }

  lemma TextsOnly(db: Database, id: TxnId, u: Update)
    requires id < |db.txns| && db.txns[id].status.Pending? && u.patch(db.txns[id].metadata).Some?
    requires u.postings.Some? ==> ValidEntries(u.postings.value) && SameEntries(PostingsOf(db, id), u.postings.value)
    ensures var next := Edited(db.txns[id], u, u.patch(db.txns[id].metadata).value);
      UpdateTransaction(db, id, u) ==
        (if next == db.txns[id] then db
         else RewriteTxn(db, id, next.(version := db.txns[id].version + 1), PostingsOf(db, id), map[]), Ok(id))
  {
    hide PostingsOf;
    hide SameEntries;
    hide ValidEntries;
    hide RewriteTxn;
  }

  lemma EditedTexts(t: Txn, u: Update, metadata: Metadata, version: int)
    ensures var next := Edited(t, u, metadata);
      && EditedTo(t, next, u, metadata) && EditedTo(t, next.(version := version), u, metadata)
      && next.status == t.status && next.entriesVersion == t.entriesVersion && next.version == t.version
      && SameTexts(t, next.(version := version)) == SameTexts(t, next)
      && (next == t <==> SameTexts(t, next))
  {
  }

  lemma OnlySame(db: Database, id: TxnId)
    requires id < |db.txns|
    ensures OnlyTxn(db, db, id)
  {
  }

  lemma NothingMoves(accounts: Accounts, ps: seq<Posting>)
    ensures PendingMoves(accounts, accounts, ps, ps)
  {
  }
}
