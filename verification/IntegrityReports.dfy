/** The integrity report: the queries it runs, what they list, and that they list nothing in any reachable state. */
module IntegrityReports {
  import opened Wrappers
  import opened Kernel
  import opened Sums
  import opened Tables
  import opened Runs

  datatype Check =
    | Trial | EmptyTransactions | Journal | PostedSums | PendingSums | HeldSums | Settlements | Running

  datatype Issue =
    | OutOfBalance(currency: Currency)
    | NoEntries(txn: TxnId)
    | UnpostedJournal(txn: TxnId)
    | PostedTotal(account: AccountId)
    | PendingTotal(account: AccountId)
    | HeldTotal(account: AccountId)
    | SettlementNet(settlement: SettlementId)
    | LastBalance(account: AccountId)

  const CHECKS := [Trial, EmptyTransactions, Journal, PostedSums, PendingSums, HeldSums, Settlements, Running]

  predicate HasPostings(db: Database, t: TxnId) {
    exists k :: 0 <= k < |db.postings| && db.postings[k].txn == t
  }

  predicate HasEntries(db: Database, t: TxnId, version: int) {
    exists k :: 0 <= k < |db.entries| && db.entries[k].txn == t && db.entries[k].version == version
  }

  /** The balance the last posting of an account left. */
  function LastBalanceOn(rows: seq<PostingRow>, a: AccountId): Option<int> {
    if rows == [] then None
    else
      var last := |rows| - 1;
      if rows[last].account == a then Some(rows[last].balanceAfter) else LastBalanceOn(rows[..last], a)
  }

  predicate PostedOff(db: Database, a: AccountId)
    requires a in db.accounts
  {
    || db.accounts[a].postedDebits != Sum(db.postings, RowOn(a, Debit))
    || db.accounts[a].postedCredits != Sum(db.postings, RowOn(a, Credit))
  }

  predicate PendingOff(db: Database, a: AccountId)
    requires a in db.accounts
  {
    || db.accounts[a].pendingDebits != Sum(db.entries, LiveOn(db.txns, a, Debit))
    || db.accounts[a].pendingCredits != Sum(db.entries, LiveOn(db.txns, a, Credit))
  }

  predicate LastBalanceOff(db: Database, a: AccountId)
    requires a in db.accounts
  {
    && LastBalanceOn(db.postings, a).Some?
    && LastBalanceOn(db.postings, a).value != db.accounts[a].postedDebits - db.accounts[a].postedCredits
  }

  /** What one query of the report lists. */
  function Listed(db: Database, check: Check): set<Issue> {
    match check {
      case Trial => set r | r in db.postings && Sum(db.postings, RowIn(r.currency)) != 0 :: OutOfBalance(r.currency)
      case EmptyTransactions =>
        set t | 0 <= t < |db.txns| && !HasPostings(db, t) && !HasEntries(db, t, db.txns[t].entriesVersion) :: NoEntries(t)
      case Journal => set t | 0 <= t < |db.txns| && !db.txns[t].status.Posted? && HasPostings(db, t) :: UnpostedJournal(t)
      case PostedSums => set a | a in db.accounts && PostedOff(db, a) :: PostedTotal(a)
      case PendingSums => set a | a in db.accounts && PendingOff(db, a) :: PendingTotal(a)
      case HeldSums => set a | a in db.accounts && db.accounts[a].held != Sum(db.holds, HeldOn(a)) :: HeldTotal(a)
      case Settlements => set s | 0 <= s < |db.settlements| && Sum(db.postings, RowSettled(s)) != 0 :: SettlementNet(s)
      case Running => set a | a in db.accounts && LastBalanceOff(db, a) :: LastBalance(a)
    }
  }

  function Report(db: Database, n: nat): set<Issue>
    requires n <= |CHECKS|
  {
    if n == 0 then {} else Report(db, n - 1) + Listed(db, CHECKS[n - 1])
  }

  /** Runs the queries one after the other on one snapshot and collects what they list. */
  method Verify(db: Database) returns (issues: set<Issue>, ok: bool)
    ensures issues == Report(db, |CHECKS|) && (ok <==> forall c: Check :: Listed(db, c) == {})
  {
    hide Listed;
    issues := {};
    for i := 0 to |CHECKS|
      invariant issues == Report(db, i)
    {
      issues := issues + Listed(db, CHECKS[i]);
    }
    ok := issues == {};
    ReportedIsListed(db, |CHECKS|);
    forall c: Check | ok ensures Listed(db, c) == {} {
      Queried(c);
    }
  }

  /** Every query is run. */
  lemma Queried(c: Check)
    ensures exists k :: 0 <= k < |CHECKS| && CHECKS[k] == c
  {
    var at := match c {
      case Trial => 0
      case EmptyTransactions => 1
      case Journal => 2
      case PostedSums => 3
      case PendingSums => 4
      case HeldSums => 5
      case Settlements => 6
      case Running => 7
    };
    assert CHECKS[at] == c;
  }

  lemma {:induction false} ReportedIsListed(db: Database, n: nat)
    requires n <= |CHECKS|
    ensures Report(db, n) == {} <==> forall k :: 0 <= k < n ==> Listed(db, CHECKS[k]) == {}
  {
    hide Listed;
    if n > 0 {
      ReportedIsListed(db, n - 1);
      assert Report(db, n) == {} <==> Report(db, n - 1) == {} && Listed(db, CHECKS[n - 1]) == {};
    }
  }

  // ---- the last balance ----

  lemma {:induction false} LastIsSum(rows: seq<PostingRow>, a: AccountId)
    requires RunningBalance(rows)
    ensures LastBalanceOn(rows, a).Some? ==> LastBalanceOn(rows, a).value == Sum(rows, RowNet(a))
  {
    if rows != [] {
      var last := |rows| - 1;
      assert rows[..last + 1] == rows && rows == rows[..last] + [rows[last]];
      if rows[last].account != a {
        forall k | 0 <= k < last
          ensures rows[..last][k].balanceAfter == Sum(rows[..last][..k + 1], RowNet(rows[..last][k].account))
        {
          assert rows[..last][..k + 1] == rows[..k + 1];
        }
        LastIsSum(rows[..last], a);
        SumAppend(rows[..last], [rows[last]], RowNet(a));
      }
    }
  }

  lemma NetIsDifference(rows: seq<PostingRow>, a: AccountId)
    ensures Sum(rows, RowOn(a, Debit)) == Sum(rows, RowNet(a)) + Sum(rows, RowOn(a, Credit))
  {
    SumPlus(rows, RowOn(a, Debit), RowNet(a), RowOn(a, Credit));
  }

  // ---- entries of every transaction ----

  lemma {:induction false} PostingFound(db: Database, rows: seq<PostingRow>, t: TxnId)
    requires PostedOf(rows, t) != [] && forall r :: r in rows ==> r in db.postings
    ensures HasPostings(db, t)
  {
    if PostingRead(rows[0], t) == [] {
      PostingFound(db, rows[1..], t);
    } else {
      assert rows[0] in db.postings;
    }
  }

  lemma {:induction false} EntryFound(db: Database, rows: seq<EntryRow>, t: TxnId, version: int)
    requires EntriesOf(rows, t, version) != [] && forall e :: e in rows ==> e in db.entries
    ensures HasEntries(db, t, version)
  {
    if EntryRead(rows[0], t, version) == [] {
      EntryFound(db, rows[1..], t, version);
    } else {
      assert rows[0] in db.entries;
    }
  }

  lemma NotEmpty(db: Database, t: TxnId)
    requires NoEmptyTransactions(db) && t < |db.txns|
    ensures HasPostings(db, t) || HasEntries(db, t, db.txns[t].entriesVersion)
  {
    assert PostingsOf(db, t) != [];
    if db.txns[t].status.Posted? {
      PostingFound(db, db.postings, t);
    } else {
      EntryFound(db, db.entries, t, db.txns[t].entriesVersion);
    }
  }

  // ---- what each query tells ----

  /** Row k is the last of its account. */
  predicate LastRow(rows: seq<PostingRow>, k: nat)
    requires k < |rows|
  {
    forall j :: k < j < |rows| ==> rows[j].account != rows[k].account
  }

  /** What the tables are when a query finds nothing. */
  ghost predicate Passes(db: Database, check: Check) {
    match check {
      case Trial => TrialBalance(db)
      case EmptyTransactions =>
        forall t :: 0 <= t < |db.txns| ==>
          PostedOf(db.postings, t) != [] || EntriesOf(db.entries, t, db.txns[t].entriesVersion) != []
      case Journal =>
        forall k :: 0 <= k < |db.postings| && db.postings[k].txn < |db.txns| ==> db.txns[db.postings[k].txn].status.Posted?
      case PostedSums => PostedTotals(db)
      case PendingSums => PendingTotals(db)
      case HeldSums => HeldFunds(db, None)
      case Settlements => SettlementsNet(db)
      case Running =>
        forall k :: 0 <= k < |db.postings| && db.postings[k].account in db.accounts && LastRow(db.postings, k) ==>
          var a := db.accounts[db.postings[k].account];
          db.postings[k].balanceAfter == a.postedDebits - a.postedCredits
    }
  }

  lemma {:induction false} PostingKept(rows: seq<PostingRow>, k: nat)
    requires k < |rows|
    ensures PostedOf(rows, rows[k].txn) != []
  {
    if k > 0 {
      PostingKept(rows[1..], k - 1);
    }
  }

  lemma {:induction false} EntryKept(rows: seq<EntryRow>, k: nat)
    requires k < |rows|
    ensures EntriesOf(rows, rows[k].txn, rows[k].version) != []
  {
    if k > 0 {
      EntryKept(rows[1..], k - 1);
    }
  }

  lemma {:induction false} LastBalanceIs(rows: seq<PostingRow>, a: AccountId)
    ensures LastBalanceOn(rows, a).None? <==> forall k :: 0 <= k < |rows| ==> rows[k].account != a
    ensures forall k :: 0 <= k < |rows| && rows[k].account == a && LastRow(rows, k) ==> LastBalanceOn(rows, a) == Some(rows[k].balanceAfter)
    ensures LastBalanceOn(rows, a).Some? ==> exists k :: 0 <= k < |rows| && rows[k].account == a && LastRow(rows, k)
  {
    if rows != [] {
      var last := |rows| - 1;
      LastBalanceIs(rows[..last], a);
      if rows[last].account == a {
        assert LastRow(rows, last);
      } else {
        forall k | 0 <= k < last && rows[k].account == a ensures LastRow(rows, k) <==> LastRow(rows[..last], k) {
          assert forall j :: k < j < last ==> rows[..last][j] == rows[j];
        }
        if LastBalanceOn(rows[..last], a).Some? {
          var k :| 0 <= k < last && rows[..last][k].account == a && LastRow(rows[..last], k);
          assert LastRow(rows, k);
        }
      }
    }
  }

  lemma EmptyTransactionsExact(db: Database)
    ensures Listed(db, EmptyTransactions) == {} <==> Passes(db, EmptyTransactions)
  {
    forall t: TxnId | t < |db.txns|
      ensures HasPostings(db, t) <==> PostedOf(db.postings, t) != []
      ensures HasEntries(db, t, db.txns[t].entriesVersion) <==> EntriesOf(db.entries, t, db.txns[t].entriesVersion) != []
      ensures NoEntries(t) in Listed(db, EmptyTransactions) <==>
        PostedOf(db.postings, t) == [] && EntriesOf(db.entries, t, db.txns[t].entriesVersion) == []
    {
      var v := db.txns[t].entriesVersion;
      if HasPostings(db, t) {
        var k :| 0 <= k < |db.postings| && db.postings[k].txn == t;
        PostingKept(db.postings, k);
      } else if PostedOf(db.postings, t) != [] {
        PostingFound(db, db.postings, t);
      }
      if HasEntries(db, t, v) {
        var k :| 0 <= k < |db.entries| && db.entries[k].txn == t && db.entries[k].version == v;
        EntryKept(db.entries, k);
      } else if EntriesOf(db.entries, t, v) != [] {
        EntryFound(db, db.entries, t, v);
      }
    }
    assert forall x :: x in Listed(db, EmptyTransactions) ==> exists t: TxnId :: t < |db.txns| && x == NoEntries(t);
  }

  lemma TrialExact(db: Database)
    ensures Listed(db, Trial) == {} <==> Passes(db, Trial)
  {
    if Listed(db, Trial) == {} {
      forall c: Currency ensures Sum(db.postings, RowIn(c)) == 0 {
        if exists r :: r in db.postings && r.currency == c {
          var r :| r in db.postings && r.currency == c;
          assert OutOfBalance(c) !in Listed(db, Trial);
        } else {
          SumZero(db.postings, RowIn(c));
        }
      }
    }
  }

  lemma JournalExact(db: Database)
    ensures Listed(db, Journal) == {} <==> Passes(db, Journal)
  {
    if Listed(db, Journal) == {} {
      forall k | 0 <= k < |db.postings| && db.postings[k].txn < |db.txns|
        ensures db.txns[db.postings[k].txn].status.Posted?
      {
        assert UnpostedJournal(db.postings[k].txn) !in Listed(db, Journal);
        assert HasPostings(db, db.postings[k].txn);
      }
    }
  }

  lemma RunningExact(db: Database)
    ensures Listed(db, Running) == {} <==> Passes(db, Running)
  {
    forall a | a in db.accounts ensures LastBalance(a) in Listed(db, Running) <==> LastBalanceOff(db, a) {
    }
    if Listed(db, Running) == {} {
      forall k | 0 <= k < |db.postings| && db.postings[k].account in db.accounts && LastRow(db.postings, k)
        ensures db.postings[k].balanceAfter
             == db.accounts[db.postings[k].account].postedDebits - db.accounts[db.postings[k].account].postedCredits
      {
        LastBalanceIs(db.postings, db.postings[k].account);
        assert LastBalance(db.postings[k].account) !in Listed(db, Running);
      }
    }
    if Passes(db, Running) {
      forall a | a in db.accounts ensures !LastBalanceOff(db, a) {
        LastBalanceIs(db.postings, a);
      }
    }
  }

  lemma SumsExact(db: Database, check: Check)
    requires check in {PostedSums, PendingSums, HeldSums, Settlements}
    ensures Listed(db, check) == {} <==> Passes(db, check)
  {
    match check {
      case PostedSums =>
        forall a | a in db.accounts ensures PostedTotal(a) in Listed(db, check) <==> PostedOff(db, a) {
        }
      case PendingSums =>
        forall a | a in db.accounts ensures PendingTotal(a) in Listed(db, check) <==> PendingOff(db, a) {
        }
      case HeldSums =>
        forall a | a in db.accounts ensures HeldTotal(a) in Listed(db, check) <==> db.accounts[a].held != Sum(db.holds, HeldOn(a)) {
        }
      case Settlements =>
        forall s | 0 <= s < |db.settlements| ensures SettlementNet(s) in Listed(db, check) <==> Sum(db.postings, RowSettled(s)) != 0 {
        }
      case _ =>
    }
  }

  /** A query lists nothing exactly if the tables pass its check. */
  lemma ListsNothingExactly(db: Database, check: Check)
    ensures Listed(db, check) == {} <==> Passes(db, check)
  {
    hide Listed;
    hide Passes;
    match check
    case Trial => TrialExact(db);
    case EmptyTransactions => EmptyTransactionsExact(db);
    case Journal => JournalExact(db);
    case Running => RunningExact(db);
    case _ => SumsExact(db, check);
  }

  // ---- nothing to report ----

  /** Sound tables give every query nothing to list. */
  lemma SoundListsNothing(db: Database, check: Check)
    requires Sound(db)
    ensures Listed(db, check) == {}
  {
    match check
    case EmptyTransactions =>
      forall t | 0 <= t < |db.txns| ensures HasPostings(db, t) || HasEntries(db, t, db.txns[t].entriesVersion) {
        NotEmpty(db, t);
      }
    case HeldSums =>
      assert forall a :: a in db.accounts ==> Owed(None, a) == 0;
    case Running =>
      forall a | a in db.accounts ensures !LastBalanceOff(db, a) {
        LastIsSum(db.postings, a);
        NetIsDifference(db.postings, a);
      }
    case _ =>
  }

  /** Whatever has been posted, edited, archived, reversed, held, captured, released or settled, the report is clean. */
  lemma EveryRunVerifies(events: seq<Event>)
    ensures Report(Run(EMPTY, events), |CHECKS|) == {}
  {
    EveryRunSound(events);
    hide Sound;
    hide Listed;
    var db := Run(EMPTY, events);
    forall k | 0 <= k < |CHECKS| ensures Listed(db, CHECKS[k]) == {} {
      SoundListsNothing(db, CHECKS[k]);
    }
    ReportedIsListed(db, |CHECKS|);
  }
}
