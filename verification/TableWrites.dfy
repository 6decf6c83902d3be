/** Inserting and rewriting transactions: what is read back, and that integrity is kept. */
module TableWrites {
  import opened Wrappers
  import opened Money
  import opened Kernel
  import opened Sums
  import opened BalanceChange
  import opened BalanceEffects
  import opened Tables
  import opened Preservation

  // ---- reading back what was written ----

  function Stripped(ps: seq<Posting>, keepBalance: bool): seq<Posting> {
    seq(|ps|, i requires 0 <= i < |ps| =>
      Plain(ps[i].account, ps[i].side, ps[i].amount, Some(Code(ps[i].currency)), if keepBalance then ps[i].balanceAfter else 0))
  }

  lemma {:induction false} PostedOfAppend(a: seq<PostingRow>, b: seq<PostingRow>, id: TxnId)
    ensures PostedOf(a + b, id) == PostedOf(a, id) + PostedOf(b, id)
  {
    hide PostingRead;
    if a == [] {
      assert a + b == b;
    } else {
      PostedOfAppend(a[1..], b, id);
      assert (a + b)[0] == a[0] && (a + b)[1..] == a[1..] + b;
      Associate(PostingRead(a[0], id), PostedOf(a[1..], id), PostedOf(b, id));
    }
  }

  lemma {:induction false} EntriesOfAppend(a: seq<EntryRow>, b: seq<EntryRow>, id: TxnId, v: int)
    ensures EntriesOf(a + b, id, v) == EntriesOf(a, id, v) + EntriesOf(b, id, v)
  {
    hide EntryRead;
    if a == [] {
      assert a + b == b;
    } else {
      EntriesOfAppend(a[1..], b, id, v);
      assert (a + b)[0] == a[0] && (a + b)[1..] == a[1..] + b;
      Associate(EntryRead(a[0], id, v), EntriesOf(a[1..], id, v), EntriesOf(b, id, v));
    }
  }

  lemma {:induction false} PostedOfOther(rows: seq<PostingRow>, id: TxnId)
    requires forall r :: r in rows ==> r.txn != id
    ensures PostedOf(rows, id) == []
  {
    if rows != [] {
      PostedOfOther(rows[1..], id);
    }
  }

  lemma {:induction false} EntriesOfOther(rows: seq<EntryRow>, id: TxnId, v: int)
    requires forall e :: e in rows ==> e.txn != id || e.version != v
    ensures EntriesOf(rows, id, v) == []
  {
    if rows != [] {
      EntriesOfOther(rows[1..], id, v);
    }
  }

  lemma {:induction false} PostedOfRows(id: TxnId, ps: seq<Posting>)
    ensures PostedOf(RowsFor(id, ps), id) == Stripped(ps, true)
  {
    if ps != [] {
      PostedOfRows(id, ps[1..]);
      assert RowsFor(id, ps)[1..] == RowsFor(id, ps[1..]);
    }
  }

  lemma {:induction false} EntriesOfRows(id: TxnId, v: int, ps: seq<Posting>)
    ensures EntriesOf(EntriesFor(id, v, ps), id, v) == Stripped(ps, false)
  {
    if ps != [] {
      EntriesOfRows(id, v, ps[1..]);
      assert EntriesFor(id, v, ps)[1..] == EntriesFor(id, v, ps[1..]);
    }
  }

  lemma RowsOfAnother(id: TxnId, v: int, ps: seq<Posting>, other: TxnId, w: int)
    requires id != other
    ensures PostedOf(RowsFor(id, ps), other) == []
    ensures EntriesOf(EntriesFor(id, v, ps), other, w) == []
  {
    PostedOfOther(RowsFor(id, ps), other);
    EntriesOfOther(EntriesFor(id, v, ps), other, w);
  }

  predicate RowsBelong(db: Database) {
    && (forall r :: r in db.postings ==> r.txn < |db.txns| && db.txns[r.txn].status.Posted?)
    && (forall e :: e in db.entries ==> e.txn < |db.txns| && e.version <= db.txns[e.txn].version)
  }

  lemma IntegrityRowsBelong(db: Database)
    requires JournalStatus(db) && RowsWellFormed(db)
    ensures RowsBelong(db)
  {
    forall e | e in db.entries ensures e.txn < |db.txns| && e.version <= db.txns[e.txn].version {
      assert PendingRow(db, e);
    }
  }

  /** A new transaction is read back as written, and every other one as before. */
  lemma InsertReadsBack(db: Database, t: Txn, ps: seq<Posting>, changed: Accounts)
    requires RowsBelong(db) && (!t.status.Posted? ==> t.entriesVersion == 1)
    ensures var after := InsertTxn(db, t, ps, changed);
      && PostingsOf(after, |db.txns|) == Stripped(ps, t.status.Posted?)
      && forall i :: 0 <= i < |db.txns| ==> PostingsOf(after, i) == PostingsOf(db, i)
  {
    var id := |db.txns|;
    PostedOfAppend(db.postings, RowsFor(id, ps), id);
    PostedOfOther(db.postings, id);
    PostedOfRows(id, ps);
    EntriesOfAppend(db.entries, EntriesFor(id, 1, ps), id, 1);
    EntriesOfOther(db.entries, id, 1);
    EntriesOfRows(id, 1, ps);
    forall i | 0 <= i < |db.txns| ensures PostingsOf(InsertTxn(db, t, ps, changed), i) == PostingsOf(db, i) {
      InsertReadsOthers(db, t, ps, changed, i);
    }
  }

  lemma InsertReadsOthers(db: Database, t: Txn, ps: seq<Posting>, changed: Accounts, i: TxnId)
    requires i < |db.txns|
    ensures PostingsOf(InsertTxn(db, t, ps, changed), i) == PostingsOf(db, i)
  {
    var id, v := |db.txns|, db.txns[i].entriesVersion;
    PostedOfAppend(db.postings, RowsFor(id, ps), i);
    EntriesOfAppend(db.entries, EntriesFor(id, 1, ps), i, v);
    RowsOfAnother(id, 1, ps, i, v);
  }

  /** A rewritten transaction is read back with its new entries, or its old ones if none were written. */
  lemma RewriteReadsBack(db: Database, id: TxnId, t: Txn, ps: seq<Posting>, changed: Accounts)
    requires RowsBelong(db) && id < |db.txns| && db.txns[id].status.Pending?
    requires t.version == db.txns[id].version + 1
    requires t.entriesVersion == t.version || t.entriesVersion == db.txns[id].entriesVersion
    requires t.entriesVersion == t.version ==> !t.status.Archived?
    requires db.txns[id].entriesVersion <= db.txns[id].version
    ensures var after := RewriteTxn(db, id, t, ps, changed);
      && PostingsOf(after, id) ==
           (if t.status.Posted? then Stripped(ps, true)
            else if t.entriesVersion == t.version then Stripped(ps, false)
            else PostingsOf(db, id))
      && forall i :: 0 <= i < |db.txns| && i != id ==> PostingsOf(after, i) == PostingsOf(db, i)
  {
    var after := RewriteTxn(db, id, t, ps, changed);
    PostedOfAppend(db.postings, RowsFor(id, ps), id);
    PostedOfOther(db.postings, id);
    PostedOfRows(id, ps);
    EntriesOfAppend(db.entries, EntriesFor(id, t.version, ps), id, t.version);
    EntriesOfOther(db.entries, id, t.version);
    EntriesOfRows(id, t.version, ps);
    forall i | 0 <= i < |db.txns| && i != id ensures PostingsOf(after, i) == PostingsOf(db, i) {
      var v := db.txns[i].entriesVersion;
      assert after.txns[i] == db.txns[i];
      PostedOfAppend(db.postings, RowsFor(id, ps), i);
      EntriesOfAppend(db.entries, EntriesFor(id, t.version, ps), i, v);
      RowsOfAnother(id, t.version, ps, i, v);
    }
  }

  // ---- unpending the current entries ----

  function EntryOn(id: TxnId, v: int, a: AccountId, side: Side): EntryRow -> int {
    (e: EntryRow) => if e.txn == id && e.version == v && e.account == a && e.side == side then e.amount else 0
  }

  lemma {:induction false} SumOfEntries(rows: seq<EntryRow>, id: TxnId, v: int, a: AccountId, side: Side)
    ensures Sum(EntriesOf(rows, id, v), OnSide(a, side)) == Sum(rows, EntryOn(id, v, a, side))
  {
    if rows != [] {
      SumAppend(EntryRead(rows[0], id, v), EntriesOf(rows[1..], id, v), OnSide(a, side));
      SumOfEntries(rows[1..], id, v, a, side);
    }
  }

  /** A transaction that leaves pending, or moves to entries of a new version, takes its entries out of the pending totals. */
  lemma RewriteUnpends(db: Database, after: Database, id: TxnId, t: Txn, c: Change)
    requires RowsBelong(db) && id < |db.txns| && db.txns[id].status.Pending?
    requires db.txns[id].entriesVersion <= db.txns[id].version
    requires after.txns == db.txns[id := t]
    requires !t.status.Pending? || t.entriesVersion > db.txns[id].version
    requires c.unpend == PostingsOf(db, id)
    ensures Unpends(db, after, c)
  {
    var v := db.txns[id].entriesVersion;
    forall a: AccountId, side: Side
      ensures Sum(db.entries, LiveOn(after.txns, a, side)) == Sum(db.entries, LiveOn(db.txns, a, side)) - Sum(c.unpend, OnSide(a, side))
    {
      SumOfEntries(db.entries, id, v, a, side);
      SumPlus(db.entries, LiveOn(db.txns, a, side), LiveOn(after.txns, a, side), EntryOn(id, v, a, side));
    }
  }

  /** Rewriting a transaction without touching which of its entries are live unpends nothing. */
  lemma NothingUnpended(db: Database, after: Database, c: Change)
    requires forall e :: e in db.entries ==> Live(after.txns, e) == Live(db.txns, e)
    requires c.unpend == []
    ensures Unpends(db, after, c)
  {
    forall a: AccountId, side: Side
      ensures Sum(db.entries, LiveOn(after.txns, a, side)) == Sum(db.entries, LiveOn(db.txns, a, side)) - Sum(c.unpend, OnSide(a, side))
    {
      SumSame(db.entries, LiveOn(after.txns, a, side), LiveOn(db.txns, a, side));
    }
  }

  lemma {:induction false} EntriesPositive(db: Database, rows: seq<EntryRow>, id: TxnId, v: int)
    requires forall e :: e in rows ==> PendingRow(db, e)
    ensures forall p :: p in EntriesOf(rows, id, v) ==>
      p.amount > 0 && p.account in db.accounts && p.currency == Some(db.accounts[p.account].currency)
  {
    if rows != [] {
      EntriesPositive(db, rows[1..], id, v);
      assert PendingRow(db, rows[0]);
    }
  }

  // ---- integrity ----

  /** No transaction has the key, the external id or the reversed transaction of `t`. */
  predicate Fresh(db: Database, t: Txn) {
    forall i :: 0 <= i < |db.txns| ==>
      && db.txns[i].key != t.key
      && (t.external.Some? && db.txns[i].ledger == t.ledger ==> db.txns[i].external != t.external)
      && (t.reverses.Some? ==> db.txns[i].reverses != t.reverses)
  }

  /** Creating a pending or posted transaction keeps integrity, up to the hold its request releases. */
  lemma InsertKeepsIntegrity(db: Database, t: Txn, c: Change, applied: Applied)
    requires Integrity(db, None)
    requires Inserts(db, t, c, applied)
    requires Fresh(db, t)
    ensures Integrity(InsertTxn(db, t, applied.postings, applied.changed), c.release)
  {
    InsertMoney(db, t, c, applied, InsertTxn(db, t, applied.postings, applied.changed));
    InsertTxnChecks(db, t, c, applied);
  }

  ghost predicate Inserts(db: Database, t: Txn, c: Change, applied: Applied) {
    && Guarantees(db.accounts, c, applied)
    && c.unpend == [] && c.add != [] && !c.status.Archived? && t.status == c.status
    && t.version == t.entriesVersion == 1
    && (forall p :: p in c.add ==> p.amount > 0)
    && (c.release.Some? ==> c.release.value.amount > 0)
  }

  lemma InsertWrites(db: Database, t: Txn, c: Change, applied: Applied, after: Database)
    requires RowsWellFormed(db) && Inserts(db, t, c, applied)
    requires after == InsertTxn(db, t, applied.postings, applied.changed)
    ensures Writes(db, after, |db.txns|, 1, c, applied)
    ensures Unpends(db, after, c)
  {
    var ps, id := applied.postings, |db.txns|;
    assert after.postings == db.postings + (if c.status.Posted? then RowsFor(id, ps) else []);
    assert after.entries == db.entries + (if c.status.Pending? then EntriesFor(id, 1, ps) else []);
    forall e | e in db.entries ensures Live(after.txns, e) == Live(db.txns, e) {
      assert PendingRow(db, e);
    }
    NothingUnpended(db, after, c);
  }

  lemma InsertMoney(db: Database, t: Txn, c: Change, applied: Applied, after: Database)
    requires MoneyChecks(db, None) && Inserts(db, t, c, applied)
    requires after == InsertTxn(db, t, applied.postings, applied.changed)
    ensures MoneyChecks(after, c.release)
  {
    InsertWrites(db, t, c, applied, after);
    assert forall i :: 0 <= i < |after.txns| ==> after.txns[i] == (if i < |db.txns| then db.txns[i] else t);
    MoneyKept(db, after, |db.txns|, 1, c, applied);
  }

  lemma InsertTxnChecks(db: Database, t: Txn, c: Change, applied: Applied)
    requires TxnChecks(db) && RowsWellFormed(db) && Inserts(db, t, c, applied)
    requires Fresh(db, t)
    ensures TxnChecks(InsertTxn(db, t, applied.postings, applied.changed))
  {
    var after, id := InsertTxn(db, t, applied.postings, applied.changed), |db.txns|;
    IntegrityRowsBelong(db);
    InsertNonEmpty(db, t, applied.postings, applied.changed);
    assert after.postings == db.postings + NewRows(id, c, applied);
    JournalStatusKept(db, after, id, c, applied);
    InsertKeepsKeys(db, t, applied.postings, applied.changed);
  }

  lemma InsertNonEmpty(db: Database, t: Txn, ps: seq<Posting>, changed: Accounts)
    requires NoEmptyTransactions(db) && RowsBelong(db) && ps != [] && t.entriesVersion == 1
    ensures NoEmptyTransactions(InsertTxn(db, t, ps, changed))
  {
    InsertReadsBack(db, t, ps, changed);
    var after := InsertTxn(db, t, ps, changed);
    forall i | 0 <= i < |after.txns| ensures PostingsOf(after, i) != [] {
      if i < |db.txns| {
        assert PostingsOf(after, i) == PostingsOf(db, i);
      }
    }
  }

  lemma InsertKeepsKeys(db: Database, t: Txn, ps: seq<Posting>, changed: Accounts)
    requires KeysUnique(db) && ExternalsUnique(db) && ReversedOnce(db) && Fresh(db, t)
    ensures var after := InsertTxn(db, t, ps, changed);
      KeysUnique(after) && ExternalsUnique(after) && ReversedOnce(after)
  {
  }

  lemma JournalStatusKept(db: Database, after: Database, id: TxnId, c: Change, applied: Applied)
    requires JournalStatus(db)
    requires after.postings == db.postings + NewRows(id, c, applied)
    requires id < |after.txns| && (c.status.Posted? ==> after.txns[id].status.Posted?)
    requires |db.txns| <= |after.txns|
    requires forall i :: 0 <= i < |db.txns| && db.txns[i].status.Posted? ==> after.txns[i].status.Posted?
    ensures JournalStatus(after)
  {
    forall k | 0 <= k < |after.postings|
      ensures after.postings[k].txn < |after.txns| && after.txns[after.postings[k].txn].status.Posted?
    {
      if k < |db.postings| {
        assert after.postings[k] == db.postings[k];
      } else {
        assert after.postings[k] == NewRows(id, c, applied)[k - |db.postings|];
      }
    }
  }

  lemma MoneyKept(db: Database, after: Database, id: TxnId, v: int, c: Change, applied: Applied)
    requires MoneyChecks(db, None)
    requires Writes(db, after, id, v, c, applied)
    requires |db.txns| <= |after.txns| && id < |after.txns|
    requires forall i :: 0 <= i < |db.txns| ==> db.txns[i].version <= after.txns[i].version
    requires forall i :: 0 <= i < |after.txns| ==> after.txns[i].entriesVersion <= after.txns[i].version
    requires v <= after.txns[id].version
    requires c.status.Pending? ==> after.txns[id].status.Pending? && after.txns[id].entriesVersion == v
    requires Unpends(db, after, c)
    ensures MoneyChecks(after, c.release)
  {
    TrialBalanceKept(db, after, id, v, c, applied);
    PostedTotalsKept(db, after, id, v, c, applied);
    PendingTotalsKept(db, after, id, v, c, applied);
    HeldFundsKept(db, after, id, v, c, applied);
    SettlementsNetKept(db, after, id, v, c, applied);
    RunningBalanceKept(db, after, id, v, c, applied);
    RowsKept(db, after, id, v, c, applied);
    AccountsSoundKept(db, after, id, v, c, applied);
    ClosedEmptyKept(db, after, id, v, c, applied);
  }

  ghost predicate InsertsArchived(db: Database, t: Txn, ps: seq<Posting>) {
    && t.status.Archived? && t.version == t.entriesVersion == 1 && ps != []
    && forall p :: p in ps ==> p.amount > 0 && p.account in db.accounts && p.currency == Some(db.accounts[p.account].currency)
  }

  /** Creating an archived transaction moves no money. */
  lemma InsertArchivedKeepsIntegrity(db: Database, t: Txn, ps: seq<Posting>)
    requires Integrity(db, None)
    requires InsertsArchived(db, t, ps)
    requires Fresh(db, t)
    ensures Integrity(InsertTxn(db, t, ps, map[]), None)
  {
    ArchivedMoney(db, t, ps);
    ArchivedTxnChecks(db, t, ps);
  }

  lemma ArchivedTxnChecks(db: Database, t: Txn, ps: seq<Posting>)
    requires TxnChecks(db) && RowsWellFormed(db) && InsertsArchived(db, t, ps)
    requires Fresh(db, t)
    ensures TxnChecks(InsertTxn(db, t, ps, map[]))
  {
    var after := InsertTxn(db, t, ps, map[]);
    IntegrityRowsBelong(db);
    InsertNonEmpty(db, t, ps, map[]);
    InsertKeepsKeys(db, t, ps, map[]);
    assert after.postings == db.postings;
  }

  lemma ArchivedMoney(db: Database, t: Txn, ps: seq<Posting>)
    requires MoneyChecks(db, None) && InsertsArchived(db, t, ps)
    ensures MoneyChecks(InsertTxn(db, t, ps, map[]), None)
  {
    var after, id := InsertTxn(db, t, ps, map[]), |db.txns|;
    assert after.accounts == db.accounts && after.postings == db.postings;
    ArchivedPending(db, t, ps);
    ArchivedRows(db, after, id, ps);
    forall r | r in after.postings ensures JournalRow(after, r) {
      assert JournalRow(db, r);
    }
  }

  lemma ArchivedPending(db: Database, t: Txn, ps: seq<Posting>)
    requires PendingTotals(db) && RowsWellFormed(db) && InsertsArchived(db, t, ps)
    ensures PendingTotals(InsertTxn(db, t, ps, map[]))
  {
    var after, id := InsertTxn(db, t, ps, map[]), |db.txns|;
    forall e | e in db.entries ensures Live(after.txns, e) == Live(db.txns, e) {
      assert PendingRow(db, e);
    }
    forall a, side ensures Sum(after.entries, LiveOn(after.txns, a, side)) == Sum(db.entries, LiveOn(db.txns, a, side)) {
      SumAppend(db.entries, EntriesFor(id, 1, ps), LiveOn(after.txns, a, side));
      SumZero(EntriesFor(id, 1, ps), LiveOn(after.txns, a, side));
      SumSame(db.entries, LiveOn(after.txns, a, side), LiveOn(db.txns, a, side));
    }
  }

  lemma ArchivedRows(db: Database, after: Database, id: TxnId, ps: seq<Posting>)
    requires RowsWellFormed(db)
    requires forall p :: p in ps ==> p.amount > 0 && p.account in db.accounts && p.currency == Some(db.accounts[p.account].currency)
    requires after.accounts == db.accounts && after.entries == db.entries + EntriesFor(id, 1, ps)
    requires |db.txns| == id < |after.txns| && after.txns[id].version == 1
    requires forall i :: 0 <= i < |db.txns| ==> after.txns[i] == db.txns[i]
    ensures forall e :: e in after.entries ==> PendingRow(after, e)
  {
    forall e | e in after.entries ensures PendingRow(after, e) {
      if e in db.entries {
        assert PendingRow(db, e);
      } else {
        var k :| 0 <= k < |ps| && EntriesFor(id, 1, ps)[k] == e;
        assert ps[k] in ps;
      }
    }
  }

  ghost predicate Rewrites(db: Database, id: TxnId, t: Txn, c: Change, applied: Applied) {
    && id < |db.txns| && db.txns[id].status.Pending?
    && Guarantees(db.accounts, c, applied)
    && c.unpend == PostingsOf(db, id) && c.release.None?
    && t.version == db.txns[id].version + 1 && t.status == c.status
    && t.entriesVersion == (if c.status.Pending? then t.version else db.txns[id].entriesVersion)
    && (if c.status.Archived? then c.add == [] else c.add != [])
    && (forall p :: p in c.add ==> p.amount > 0)
    && SameIdentity(t, db.txns[id])
  }

  /**
   Posting, archiving or re-entering a pending transaction keeps integrity: the change unpends exactly
   its current entries.
   */
  lemma RewriteKeepsIntegrity(db: Database, id: TxnId, t: Txn, c: Change, applied: Applied)
    requires Integrity(db, None)
    requires Rewrites(db, id, t, c, applied)
    ensures Integrity(RewriteTxn(db, id, t, applied.postings, applied.changed), None)
  {
    RewriteMoney(db, id, t, c, applied);
    RewriteTxnChecks(db, id, t, c, applied);
  }

  lemma RewriteMoney(db: Database, id: TxnId, t: Txn, c: Change, applied: Applied)
    requires MoneyChecks(db, None) && JournalStatus(db) && Rewrites(db, id, t, c, applied)
    ensures MoneyChecks(RewriteTxn(db, id, t, applied.postings, applied.changed), None)
  {
    hide TrialBalance;
    hide PostedTotals;
    hide PendingTotals;
    hide HeldFunds;
    hide SettlementsNet;
    hide RunningBalance;
    hide AccountsSound;
    hide ClosedEmpty;
    hide JournalStatus;
    hide RowsBelong;
    var after := RewriteTxn(db, id, t, applied.postings, applied.changed);
    IntegrityRowsBelong(db);
    EntriesPositive(db, db.entries, id, db.txns[id].entriesVersion);
    assert after.postings == db.postings + (if c.status.Posted? then RowsFor(id, applied.postings) else []);
    assert after.entries == db.entries + (if c.status.Pending? then EntriesFor(id, t.version, applied.postings) else []);
    RewriteUnpends(db, after, id, t, c);
    RewriteVersions(db, after, id, t);
    MoneyKept(db, after, id, t.version, c, applied);
  }

  lemma RewriteVersions(db: Database, after: Database, id: TxnId, t: Txn)
    requires RowsWellFormed(db) && id < |db.txns| && after.txns == db.txns[id := t]
    requires t.version == db.txns[id].version + 1 && t.entriesVersion <= t.version
    ensures forall i :: 0 <= i < |db.txns| ==> db.txns[i].version <= after.txns[i].version
    ensures forall i :: 0 <= i < |after.txns| ==> after.txns[i].entriesVersion <= after.txns[i].version
  {
  }

  lemma RewriteTxnChecks(db: Database, id: TxnId, t: Txn, c: Change, applied: Applied)
    requires TxnChecks(db) && RowsWellFormed(db) && Rewrites(db, id, t, c, applied)
    ensures TxnChecks(RewriteTxn(db, id, t, applied.postings, applied.changed))
  {
    var after := RewriteTxn(db, id, t, applied.postings, applied.changed);
    RewriteNonEmpty(db, id, t, c, applied, after);
    assert after.postings == db.postings + NewRows(id, c, applied);
    JournalStatusKept(db, after, id, c, applied);
    RewriteKeepsKeys(db, after, id, t);
  }

  lemma RewriteNonEmpty(db: Database, id: TxnId, t: Txn, c: Change, applied: Applied, after: Database)
    requires NoEmptyTransactions(db) && JournalStatus(db) && RowsWellFormed(db) && Rewrites(db, id, t, c, applied)
    requires after == RewriteTxn(db, id, t, applied.postings, applied.changed)
    ensures NoEmptyTransactions(after)
  {
    IntegrityRowsBelong(db);
    RewriteReadsBack(db, id, t, applied.postings, applied.changed);
  }

  /** The fields of a transaction that never change. */
  predicate SameIdentity(t: Txn, u: Txn) {
    && t.key == u.key && t.ledger == u.ledger && t.external == u.external && t.reverses == u.reverses
    && t.createdAt == u.createdAt && t.request == u.request
  }

  lemma RewriteKeepsKeys(db: Database, after: Database, id: TxnId, t: Txn)
    requires KeysUnique(db) && ExternalsUnique(db) && ReversedOnce(db) && id < |db.txns|
    requires after.txns == db.txns[id := t] && SameIdentity(t, db.txns[id])
    ensures KeysUnique(after) && ExternalsUnique(after) && ReversedOnce(after)
  {
    assert forall i :: 0 <= i < |db.txns| ==> SameIdentity(after.txns[i], db.txns[i]);
  }

  ghost predicate Retitles(db: Database, id: TxnId, t: Txn) {
    && id < |db.txns| && db.txns[id].status.Pending? && t.status.Pending?
    && t.version == db.txns[id].version + 1 && t.entriesVersion == db.txns[id].entriesVersion
    && SameIdentity(t, db.txns[id])
  }

  /** Rewriting only the description, metadata or effective time of a pending transaction keeps integrity. */
  lemma RetitleKeepsIntegrity(db: Database, id: TxnId, t: Txn)
    requires Integrity(db, None)
    requires Retitles(db, id, t)
    ensures Integrity(RewriteTxn(db, id, t, PostingsOf(db, id), map[]), None)
  {
    var after := RewriteTxn(db, id, t, PostingsOf(db, id), map[]);
    RetitleMoney(db, id, t);
    IntegrityRowsBelong(db);
    RewriteReadsBack(db, id, t, PostingsOf(db, id), map[]);
    assert after.postings == db.postings;
    RewriteKeepsKeys(db, after, id, t);
  }

  lemma RetitleMoney(db: Database, id: TxnId, t: Txn)
    requires MoneyChecks(db, None) && Retitles(db, id, t)
    ensures MoneyChecks(RewriteTxn(db, id, t, PostingsOf(db, id), map[]), None)
  {
    var after := RewriteTxn(db, id, t, PostingsOf(db, id), map[]);
    assert after.accounts == db.accounts && after.postings == db.postings && after.entries == db.entries;
    RetitlePending(db, id, t);
    forall e | e in after.entries ensures PendingRow(after, e) {
      assert PendingRow(db, e);
    }
    forall r | r in after.postings ensures JournalRow(after, r) {
      assert JournalRow(db, r);
    }
  }

  lemma RetitlePending(db: Database, id: TxnId, t: Txn)
    requires PendingTotals(db) && Retitles(db, id, t) && db.txns[id].entriesVersion <= db.txns[id].version
    ensures PendingTotals(RewriteTxn(db, id, t, PostingsOf(db, id), map[]))
  {
    forall a, side
      ensures Sum(db.entries, LiveOn(db.txns[id := t], a, side)) == Sum(db.entries, LiveOn(db.txns, a, side))
    {
      SumSame(db.entries, LiveOn(db.txns[id := t], a, side), LiveOn(db.txns, a, side));
    }
  }
}
