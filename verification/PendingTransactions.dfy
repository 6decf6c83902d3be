/** Editing, posting and archiving a pending transaction. */
module PendingTransactions {
  import opened Wrappers
  import opened Money
  import opened Kernel
  import opened Sums
  import opened BalanceChange
  import opened BalanceEffects
  import opened Tables
  import opened Preservation
  import opened TableWrites
  import opened Engine

  /** An edit; `patch` is the metadata merge patch, which fails when the merged object is not valid. */
  datatype Update = Update(
    description: Option<string>,
    patch: Metadata -> Option<Metadata>,
    postings: Option<seq<Posting>>,
    effectiveAt: Option<Time>)

  /** Writes a pending transaction's next version once the balance change it needs is accepted. */
  function Rewritten(db: Database, id: TxnId, next: Txn, c: Change): (Database, Res<TxnId>)
    requires id < |db.txns|
  {
    match Transition(db.accounts, c)
    case Err(e) => (db, Err(e))
    case Ok(applied) =>
      (RewriteTxn(db, id, next.(version := db.txns[id].version + 1), applied.postings, applied.changed), Ok(id))
  }

  /** Writes a pending transaction's next version with its entries as they are. */
  function Retitled(db: Database, id: TxnId, next: Txn): Database
    requires id < |db.txns|
  {
    RewriteTxn(db, id, next.(version := db.txns[id].version + 1), PostingsOf(db, id), map[])
  }

  function Edited(t: Txn, u: Update, metadata: Metadata): Txn {
    t.(description := if u.description.Some? then u.description.value else t.description,
       metadata := metadata,
       effectiveAt := if u.effectiveAt.Some? then Truncate(u.effectiveAt.value) else t.effectiveAt)
  }

  function EntryChange(db: Database, id: TxnId, add: seq<Posting>, status: Status): Change
    requires id < |db.txns|
  {
    Change(Some(db.txns[id].ledger), PostingsOf(db, id), add, status, None)
  }

  function UpdateTransaction(db: Database, id: TxnId, u: Update): (Database, Res<TxnId>) {
    if u.postings.Some? && !ValidEntries(u.postings.value) then (db, Err(Invalid))
    else if id >= |db.txns| then (db, Err(NotFound))
    else if !db.txns[id].status.Pending? then (db, Err(NotPending))
    else
      var t := db.txns[id];
      match u.patch(t.metadata)
      case None => (db, Err(Invalid))
      case Some(metadata) =>
        var next := Edited(t, u, metadata);
        if u.postings.Some? && !SameEntries(PostingsOf(db, id), u.postings.value) then
          Rewritten(db, id, next.(entriesVersion := t.version + 1), EntryChange(db, id, u.postings.value, Pending))
        else if next == t then (db, Ok(id))
        else (Retitled(db, id, next), Ok(id))
  }

  // ---- posting in part ----

  type Slot = (AccountId, Side)

  function SlotOf(p: Posting): Slot {
    (p.account, p.side)
  }

  function Limits(limits: map<Slot, int>, ps: seq<Posting>): Res<map<Slot, int>>
    decreases |ps|
  {
    if ps == [] then Ok(limits)
    else
      var k := SlotOf(ps[0]);
      match Add(if k in limits then limits[k] else 0, ps[0].amount)
      case None => Err(Overflow)
      case Some(total) => Limits(limits[k := total], ps[1..])
  }

  function Spend(limits: map<Slot, int>, ps: seq<Posting>): Res<()>
    decreases |ps|
  {
    if ps == [] then Ok(())
    else
      var k := SlotOf(ps[0]);
      if k !in limits then Err(Invalid)
      else match Sub(limits[k], ps[0].amount)
        case None => Err(Overflow)
        case Some(rest) => if rest < 0 then Err(Invalid) else Spend(limits[k := rest], ps[1..])
  }

  function CheckPartial(pending: seq<Posting>, posted: seq<Posting>): Res<()> {
    var limits :- Limits(map[], pending);
    Spend(limits, posted)
  }

  function PostPending(db: Database, id: TxnId, postings: seq<Posting>): (Database, Res<TxnId>) {
    if postings != [] && !ValidEntries(postings) then (db, Err(Invalid))
    else if id >= |db.txns| then (db, Err(NotFound))
    else
      var t, current := db.txns[id], PostingsOf(db, id);
      if !t.status.Pending? then
        if t.status.Posted? && (postings == [] || SameEntries(current, postings)) then (db, Ok(id))
        else (db, Err(NotPending))
      else if postings != [] && CheckPartial(current, postings).Err? then (db, Err(CheckPartial(current, postings).error))
      else
        var posted := if postings == [] then current else postings;
        Rewritten(db, id, t.(status := Posted), EntryChange(db, id, posted, Posted))
  }

  function ArchiveTransaction(db: Database, id: TxnId): (Database, Res<TxnId>) {
    if id >= |db.txns| then (db, Err(NotFound))
    else if db.txns[id].status.Archived? then (db, Ok(id))
    else if db.txns[id].status.Posted? then (db, Err(NotPending))
    else Rewritten(db, id, db.txns[id].(status := Archived), EntryChange(db, id, [], Archived))
  }

  // ---- integrity ----

  lemma RewrittenSound(db: Database, id: TxnId, next: Txn, c: Change)
    requires Sound(db) && id < |db.txns| && db.txns[id].status.Pending?
    requires c == EntryChange(db, id, c.add, c.status) && next.status == c.status
    requires next.entriesVersion == (if c.status.Pending? then db.txns[id].version + 1 else db.txns[id].entriesVersion)
    requires if c.status.Archived? then c.add == [] else c.add != []
    requires forall p :: p in c.add ==> p.amount > 0
    requires SameIdentity(next, db.txns[id])
    ensures Sound(Rewritten(db, id, next, c).0)
  {
    hide Integrity;
    hide SettlementKeysKnown;
    hide Transition;
    hide Guarantees;
    hide PostingsOf;
    hide RewriteTxn;
    if Transition(db.accounts, c).Ok? {
      TransitionGuarantees(db.accounts, c);
      RewriteSound(db, id, next.(version := db.txns[id].version + 1), c, Transition(db.accounts, c).value);
    }
  }

  lemma RewriteSound(db: Database, id: TxnId, t: Txn, c: Change, applied: Applied)
    requires Sound(db) && Rewrites(db, id, t, c, applied)
    ensures Sound(RewriteTxn(db, id, t, applied.postings, applied.changed))
  {
    RewriteKeepsIntegrity(db, id, t, c, applied);
    RewriteKeepsSettlementKeys(db, id, t, applied.postings, applied.changed);
  }

  lemma RewriteKeepsSettlementKeys(db: Database, id: TxnId, t: Txn, ps: seq<Posting>, changed: Accounts)
    requires SettlementKeysKnown(db) && id < |db.txns| && t.key == db.txns[id].key
    ensures SettlementKeysKnown(RewriteTxn(db, id, t, ps, changed))
  {
  }

  lemma RetitledSound(db: Database, id: TxnId, next: Txn)
    requires Sound(db) && id < |db.txns| && db.txns[id].status.Pending? && next.status.Pending?
    requires next.entriesVersion == db.txns[id].entriesVersion && SameIdentity(next, db.txns[id])
    ensures Sound(Retitled(db, id, next))
  {
    hide Integrity;
    RetitleKeepsIntegrity(db, id, next.(version := db.txns[id].version + 1));
    RewriteKeepsSettlementKeys(db, id, next.(version := db.txns[id].version + 1), PostingsOf(db, id), map[]);
  }

  lemma UpdateSound(db: Database, id: TxnId, u: Update)
    requires Sound(db)
    ensures Sound(UpdateTransaction(db, id, u).0)
  {
    hide Sound;
    hide Rewritten;
    hide Retitled;
    var after := UpdateTransaction(db, id, u).0;
    if after != db {
      var t := db.txns[id];
      var next := Edited(t, u, u.patch(t.metadata).value);
      if u.postings.Some? && !SameEntries(PostingsOf(db, id), u.postings.value) {
        var edit := next.(entriesVersion := t.version + 1);
        RewrittenSound(db, id, edit, EntryChange(db, id, u.postings.value, Pending));
        assert after == Rewritten(db, id, edit, EntryChange(db, id, u.postings.value, Pending)).0;
      } else {
        RetitledSound(db, id, next);
        assert after == Retitled(db, id, next);
      }
    }
  }

  lemma PendingEntriesPositive(db: Database, id: TxnId)
    requires NoEmptyTransactions(db) && RowsWellFormed(db)
    requires id < |db.txns| && db.txns[id].status.Pending?
    ensures PostingsOf(db, id) != []
    ensures forall p :: p in PostingsOf(db, id) ==> p.amount > 0 && p.account in db.accounts
  {
    EntriesPositive(db, db.entries, id, db.txns[id].entriesVersion);
  }

  lemma PostPendingSound(db: Database, id: TxnId, postings: seq<Posting>)
    requires Sound(db)
    ensures Sound(PostPending(db, id, postings).0)
  {
    if id < |db.txns| && db.txns[id].status.Pending? && (postings == [] || ValidEntries(postings)) {
      PendingEntriesPositive(db, id);
      var posted := if postings == [] then PostingsOf(db, id) else postings;
      RewrittenSound(db, id, db.txns[id].(status := Posted), EntryChange(db, id, posted, Posted));
    }
  }

  lemma ArchiveSound(db: Database, id: TxnId)
    requires Sound(db)
    ensures Sound(ArchiveTransaction(db, id).0)
  {
    if id < |db.txns| && db.txns[id].status.Pending? {
      RewrittenSound(db, id, db.txns[id].(status := Archived), EntryChange(db, id, [], Archived));
    }
  }
}
