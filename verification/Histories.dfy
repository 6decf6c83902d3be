/** What no operation ever undoes: the journal is append-only, finished transactions and holds are final, closed is closed. */
module Histories {
  import opened Wrappers
  import opened Money
  import opened Kernel
  import opened Sums
  import opened BalanceChange
  import opened BalanceEffects
  import opened Tables
  import opened Preservation
  import opened TableWrites
  import opened Engine
  import opened GroupCommit
  import opened EngineSound
  import opened PendingTransactions
  import opened HoldOperations
  import opened HoldOutcomes
  import opened CaptureOutcomes
  import opened Settling
  import opened SettlementOutcomes
  import opened ServiceOperations

  /** Terms never change, versions never go back, and a closed account stays closed. */
  predicate AccountEvolves(before: Account, after: Account) {
    && after.ledger == before.ledger && after.currency == before.currency && after.normalSide == before.normalSide
    && after.allowNegative == before.allowNegative && after.overdraftLimit == before.overdraftLimit
    && before.version <= after.version
    && (before.status.Closed? ==> after.status.Closed?)
  }

  predicate AccountsEvolve(before: Accounts, after: Accounts) {
    forall a :: a in before ==> a in after && AccountEvolves(before[a], after[a])
  }

  /** A transaction keeps its identity; once posted or archived it is final, its entries included. */
  predicate TxnEvolves(before: Database, after: Database, i: TxnId)
    requires i < |before.txns| && i < |after.txns|
  {
    && SameIdentity(after.txns[i], before.txns[i])
    && before.txns[i].version <= after.txns[i].version
    && (!before.txns[i].status.Pending? ==>
          after.txns[i] == before.txns[i] && PostingsOf(after, i) == PostingsOf(before, i))
  }

  predicate TxnsEvolve(before: Database, after: Database) {
    && |before.txns| <= |after.txns|
    && forall i :: 0 <= i < |before.txns| ==> TxnEvolves(before, after, i)
  }

  /** The journal is append-only, and a posting once settled stays in that settlement. */
  predicate JournalGrows(before: seq<PostingRow>, after: seq<PostingRow>) {
    && |before| <= |after|
    && forall k :: 0 <= k < |before| ==>
      && after[k] == before[k].(settlement := after[k].settlement)
      && (before[k].settlement.Some? ==> after[k].settlement == before[k].settlement)
  }

  /** The terms of a hold, which never change. */
  predicate SameHold(h: Hold, g: Hold) {
    && h.key == g.key && h.account == g.account && h.currency == g.currency && h.amount == g.amount
    && h.description == g.description && h.expiresAt == g.expiresAt
  }

  /** Holds keep their terms and are final once resolved; new ones have new keys. */
  predicate HoldsEvolve(before: seq<Hold>, after: seq<Hold>) {
    && |before| <= |after|
    && (forall k :: 0 <= k < |before| ==>
          SameHold(after[k], before[k]) && (!before[k].status.HoldPending? ==> after[k] == before[k]))
    && (forall j, k :: 0 <= j < k < |after| && |before| <= k ==> after[j].key != after[k].key)
  }

  /** Settlements are final; new ones have new keys. */
  predicate SettlementsEvolve(before: seq<Settlement>, after: seq<Settlement>) {
    && before <= after
    && (forall j, k :: 0 <= j < k < |after| && |before| <= k ==> after[j].key != after[k].key)
  }

  predicate Grows(before: Database, after: Database) {
    && AccountsEvolve(before.accounts, after.accounts)
    && TxnsEvolve(before, after)
    && JournalGrows(before.postings, after.postings)
    && before.entries <= after.entries
    && HoldsEvolve(before.holds, after.holds)
    && SettlementsEvolve(before.settlements, after.settlements)
  }

  lemma GrowsTransitive(a: Database, b: Database, c: Database)
    requires Grows(a, b) && Grows(b, c)
    ensures Grows(a, c)
  {
    forall i | 0 <= i < |a.txns| ensures TxnEvolves(a, c, i) {
      assert TxnEvolves(a, b, i) && TxnEvolves(b, c, i);
    }
    assert forall k :: 0 <= k < |a.postings| ==> b.postings[k] == a.postings[k].(settlement := b.postings[k].settlement);
    HoldsEvolveOn(a.holds, b.holds, c.holds);
  }

  lemma HoldsEvolveOn(a: seq<Hold>, b: seq<Hold>, c: seq<Hold>)
    requires HoldsEvolve(a, b) && HoldsEvolve(b, c)
    ensures HoldsEvolve(a, c)
  {
    forall k | 0 <= k < |a| ensures SameHold(c[k], a[k]) {
      assert SameHold(b[k], a[k]) && SameHold(c[k], b[k]);
    }
    forall j, k | 0 <= j < k < |c| && |a| <= k ensures c[j].key != c[k].key {
      if k < |b| {
        assert SameHold(c[j], b[j]) && SameHold(c[k], b[k]);
      }
    }
  }

  lemma GrowsSame(a: Database)
    ensures Grows(a, a)
  {
  }

  // ---- table writes ----

  lemma GuaranteedAccountsEvolve(base: Accounts, c: Change, applied: Applied)
    requires Guarantees(base, c, applied)
    ensures AccountsEvolve(base, base + applied.changed)
  {
    forall a | a in base ensures AccountEvolves(base[a], (base + applied.changed)[a]) {
      assert MovesSoundly(base[a], View(base, applied.changed, a), c, a);
    }
  }

  lemma InsertGrows(db: Database, t: Txn, ps: seq<Posting>, changed: Accounts)
    requires RowsBelong(db) && t.entriesVersion == 1
    requires AccountsEvolve(db.accounts, db.accounts + changed)
    ensures Grows(db, InsertTxn(db, t, ps, changed))
  {
    InsertReadsBack(db, t, ps, changed);
  }

  lemma RewriteGrows(db: Database, id: TxnId, t: Txn, ps: seq<Posting>, changed: Accounts)
    requires RowsBelong(db) && id < |db.txns| && db.txns[id].status.Pending?
    requires t.version == db.txns[id].version + 1 && SameIdentity(t, db.txns[id])
    requires t.entriesVersion == t.version || t.entriesVersion == db.txns[id].entriesVersion
    requires t.entriesVersion == t.version ==> !t.status.Archived?
    requires db.txns[id].entriesVersion <= db.txns[id].version
    requires AccountsEvolve(db.accounts, db.accounts + changed)
    ensures Grows(db, RewriteTxn(db, id, t, ps, changed))
  {
    hide PostingsOf;
    hide RowsFor;
    hide EntriesFor;
    hide RowsBelong;
    hide AccountEvolves;
    RewriteReadsBack(db, id, t, ps, changed);
    var after := RewriteTxn(db, id, t, ps, changed);
    forall i | 0 <= i < |db.txns| ensures TxnEvolves(db, after, i) {
    }
  }

  /** Only accounts, holds, settlements and settlement marks differ, each as they may. */
  lemma SameTxnsGrow(db: Database, after: Database)
    requires after.txns == db.txns && after.entries == db.entries && SameButSettlement(db.postings, after.postings)
    requires JournalGrows(db.postings, after.postings) && HoldsEvolve(db.holds, after.holds)
    requires AccountsEvolve(db.accounts, after.accounts) && SettlementsEvolve(db.settlements, after.settlements)
    ensures Grows(db, after)
  {
    forall i | 0 <= i < |db.txns| ensures PostingsOf(after, i) == PostingsOf(db, i) {
      SamePosted(db.postings, after.postings, i);
    }
  }

  // ---- the engine ----

  lemma CreatedGrows(db: Database, req: Request, d: Decision, applied: Option<Applied>)
    requires RowsBelong(db) && CreatesBy(db, req, d, applied)
    ensures Grows(db, InsertTxn(db, d.new_.txn, d.new_.postings, d.changed))
  {
    if applied.Some? {
      GuaranteedAccountsEvolve(db.accounts, ChangeOf(req), applied.value);
    } else {
      assert db.accounts + map[] == db.accounts;
    }
    InsertGrows(db, d.new_.txn, d.new_.postings, d.changed);
  }

  lemma ResolveGrows(db: Database, b: Batch, ids: set<AccountId>, req: Request, now: Time)
    requires Tracks(db, b, ids) && RowsBelong(Write(db, b))
    requires WellFormed(req) && Needs(req) <= ids && FreshReversal(Write(db, b), req.reverses)
    ensures Grows(Write(db, b), Write(db, Resolve(db, b, req, now)))
  {
    var d := Decide(db, b, req, now);
    if d.Create? {
      var applied := CreateWrites(db, b, ids, req, now, d);
      CreatedGrows(Write(db, b), TruncatedRequest(req), d, applied);
    } else {
      assert Write(db, Resolve(db, b, req, now)) == Write(db, b);
      GrowsSame(Write(db, b));
    }
  }

  lemma SoundRowsBelong(db: Database)
    requires Integrity(db, None)
    ensures RowsBelong(db)
  {
    IntegrityRowsBelong(db);
  }

  lemma {:induction false} RunBatchGrows(db: Database, b: Batch, ids: set<AccountId>, reqs: seq<Request>, now: Time)
    requires Tracks(db, b, ids) && Sound(Write(db, b))
    requires forall r :: r in reqs ==> r.input.postings != []
    requires forall r :: r in reqs ==> WellFormed(r) && FromClient(r) && Needs(r) <= ids
    ensures Grows(Write(db, b), Write(db, RunBatch(db, b, reqs, now)))
    decreases |reqs|
  {
    if reqs == [] {
      GrowsSame(Write(db, b));
    } else {
      assert reqs[0] in reqs;
      var next := Resolve(db, b, reqs[0], now);
      SoundRowsBelong(Write(db, b));
      ResolveGrows(db, b, ids, reqs[0], now);
      OneSound(db, b, ids, reqs[0], now);
      ResolveTracks(db, b, ids, reqs[0], now);
      RunBatchGrows(db, next, ids, reqs[1..], now);
      GrowsTransitive(Write(db, b), Write(db, next), Write(db, RunBatch(db, next, reqs[1..], now)));
    }
  }

  lemma OneSound(db: Database, b: Batch, ids: set<AccountId>, req: Request, now: Time)
    requires Tracks(db, b, ids) && Sound(Write(db, b))
    requires WellFormed(req) && FromClient(req) && Needs(req) <= ids
    ensures Sound(Write(db, Resolve(db, b, req, now)))
  {
    assert [req][1..] == [];
    RunBatchSound(db, b, ids, [req], now);
    assert RunBatch(db, b, [req], now) == Resolve(db, b, req, now);
  }

  lemma ApplyGrows(db: Database, reqs: seq<Request>, atomic: bool, now: Time)
    requires Sound(db)
    requires forall r :: r in reqs ==> r.input.postings != []
    requires forall r :: r in reqs ==> WellFormed(r) && FromClient(r)
    ensures Grows(db, Apply(db, reqs, atomic, now).0)
  {
    var ids := NeedsAll(reqs);
    StartTracks(db, ids);
    forall r | r in reqs ensures Needs(r) <= ids {
      NeedsWithin(reqs, r);
    }
    RunBatchGrows(db, Start(db, ids), ids, reqs, now);
    GrowsSame(db);
  }

  lemma ApplySingleGrows(db: Database, req: Request, now: Time)
    requires Integrity(db, None) && WellFormed(req) && FreshReversal(db, req.reverses)
    ensures Grows(db, Apply(db, [req], true, now).0)
  {
    StartTracks(db, Needs(req));
    SoundRowsBelong(db);
    ResolveGrows(db, Start(db, Needs(req)), Needs(req), req, now);
    SingleWrites(db, req, now);
  }

  // ---- the other operations ----

  lemma AcceptedEvolves(base: Accounts, c: Change)
    requires Transition(base, c).Ok?
    ensures AccountsEvolve(base, base + Transition(base, c).value.changed)
  {
    TransitionGuarantees(base, c);
    GuaranteedAccountsEvolve(base, c, Transition(base, c).value);
  }

  /** A next version of a pending transaction, with new entries or as it posts or is archived. */
  predicate NextVersion(t: Txn, next: Txn) {
    && t.status.Pending? && SameIdentity(next, t) && t.entriesVersion <= t.version
    && (next.entriesVersion == t.entriesVersion || (next.entriesVersion == t.version + 1 && next.status.Pending?))
  }

  lemma NextVersionGrows(db: Database, id: TxnId, next: Txn, ps: seq<Posting>, changed: Accounts)
    requires RowsBelong(db) && id < |db.txns| && NextVersion(db.txns[id], next)
    requires AccountsEvolve(db.accounts, db.accounts + changed)
    ensures Grows(db, RewriteTxn(db, id, next.(version := db.txns[id].version + 1), ps, changed))
  {
    RewriteGrows(db, id, next.(version := db.txns[id].version + 1), ps, changed);
  }

  lemma RewrittenGrows(db: Database, id: TxnId, next: Txn, c: Change)
    requires RowsBelong(db) && id < |db.txns| && NextVersion(db.txns[id], next)
    ensures Grows(db, Rewritten(db, id, next, c).0)
  {
    hide Transition;
    hide Grows;
    hide RowsBelong;
    if Transition(db.accounts, c).Ok? {
      var applied := Transition(db.accounts, c).value;
      AcceptedEvolves(db.accounts, c);
      NextVersionGrows(db, id, next, applied.postings, applied.changed);
    } else {
      GrowsSame(db);
    }
  }

  lemma RetitledGrows(db: Database, id: TxnId, next: Txn, after: Database)
    requires RowsBelong(db) && id < |db.txns| && NextVersion(db.txns[id], next)
    requires after == Retitled(db, id, next)
    ensures Grows(db, after)
  {
    hide Grows;
    hide RowsBelong;
    hide NextVersion;
    hide AccountsEvolve;
    NothingChanged(db.accounts);
    NextVersionGrows(db, id, next, PostingsOf(db, id), map[]);
  }

  lemma NothingChanged(accounts: Accounts)
    ensures AccountsEvolve(accounts, accounts + map[])
  {
  }

  /** An edit that changes anything writes a next version, with new entries or with the old ones. */
  lemma UpdateShape(db: Database, id: TxnId, u: Update, after: Database) returns (next: Txn, c: Change)
    requires after == UpdateTransaction(db, id, u).0 && after != db
    requires forall i :: 0 <= i < |db.txns| ==> db.txns[i].entriesVersion <= db.txns[i].version
    ensures id < |db.txns| && NextVersion(db.txns[id], next)
    ensures after == Rewritten(db, id, next, c).0 || after == Retitled(db, id, next)
  {
    hide Transition;
    hide PostingsOf;
    hide RewriteTxn;
    var t := db.txns[id];
    next := Edited(t, u, u.patch(t.metadata).value);
    c := EntryChange(db, id, if u.postings.Some? then u.postings.value else [], Pending);
    if u.postings.Some? && !SameEntries(PostingsOf(db, id), u.postings.value) {
      next := next.(entriesVersion := t.version + 1);
    }
  }

  lemma UpdateGrows(db: Database, id: TxnId, u: Update, after: Database)
    requires Sound(db) && after == UpdateTransaction(db, id, u).0
    ensures Grows(db, after)
  {
    SoundRowsBelong(db);
    if after != db {
      var next, c := UpdateShape(db, id, u, after);
      NextGrows(db, id, next, c, after);
    } else {
      GrowsSame(db);
    }
  }

  lemma NextGrows(db: Database, id: TxnId, next: Txn, c: Change, after: Database)
    requires RowsBelong(db) && id < |db.txns| && NextVersion(db.txns[id], next)
    requires after == Rewritten(db, id, next, c).0 || after == Retitled(db, id, next)
    ensures Grows(db, after)
  {
    if after == Retitled(db, id, next) {
      RetitledGrows(db, id, next, after);
    } else {
      RewrittenGrows(db, id, next, c);
    }
  }

  lemma PostPendingGrows(db: Database, id: TxnId, postings: seq<Posting>, after: Database)
    requires Sound(db) && after == PostPending(db, id, postings).0
    ensures Grows(db, after)
  {
    hide Grows;
    hide Rewritten;
    hide Transition;
    hide SameEntries;
    hide CheckPartial;
    hide PostingsOf;
    hide RowsBelong;
    GrowsSame(db);
    SoundRowsBelong(db);
    if after != db {
      var posted := if postings == [] then PostingsOf(db, id) else postings;
      RewrittenGrows(db, id, db.txns[id].(status := Posted), EntryChange(db, id, posted, Posted));
    }
  }

  lemma ArchiveGrows(db: Database, id: TxnId, after: Database)
    requires Sound(db) && after == ArchiveTransaction(db, id).0
    ensures Grows(db, after)
  {
    hide Grows;
    hide Rewritten;
    hide Transition;
    hide PostingsOf;
    hide RowsBelong;
    GrowsSame(db);
    SoundRowsBelong(db);
    if after != db {
      RewrittenGrows(db, id, db.txns[id].(status := Archived), EntryChange(db, id, [], Archived));
    }
  }

  lemma ReverseGrows(db: Database, id: TxnId, in_: ReverseInput, now: Time, after: Database)
    requires Sound(db) && after == Reverse(db, id, in_, now).0
    ensures Grows(db, after)
  {
    GrowsSame(db);
    if after != db {
      ReversalWellFormed(db, id, in_);
      ReversalFound(db.txns, id, |db.txns|);
      ApplySingleGrows(db, ReversalRequest(db, id, in_), now);
    }
  }

  lemma CreateHoldGrows(db: Database, input: HoldInput, after: Database)
    requires Sound(db) && after == CreateHold(db, input).0
    ensures Grows(db, after)
  {
    hide TrialBalance;
    hide PostedTotals;
    hide PendingTotals;
    hide HeldFunds;
    hide SettlementsNet;
    hide RunningBalance;
    hide RowsWellFormed;
    hide ClosedEmpty;
    hide TxnChecks;
    hide Grows;
    if after != db {
      var in_ := input.(expiresAt := Truncate(input.expiresAt));
      assert Computable(db.accounts[in_.account]);
      ReserveMoves(db.accounts, in_.account, in_.currency, in_.amount);
      ReserveVersion(db.accounts, in_.account, in_.currency, in_.amount);
      HoldFound(db.holds, in_.key, |db.holds|);
    }
    SameTxnsGrow(db, after);
  }

  lemma ReserveVersion(base: Accounts, id: AccountId, currency: Option<Currency>, amount: int)
    requires Reserve(base, id, currency, amount).Ok?
    ensures var changed := Reserve(base, id, currency, amount).value;
      id in changed && changed[id].version == base[id].version + 1
  {
  }

  lemma GiveBackGrows(db: Database, id: HoldId, status: HoldStatus, after: Database)
    requires Sound(db) && id < |db.holds| && db.holds[id].status.HoldPending?
    requires after == GiveBack(db, id, status).0
    ensures Grows(db, after)
  {
    ReleaseAccepted(db, id);
    var h := db.holds[id];
    HoldResolvedGrows(db, id, h.(status := status), GivenBack(db.accounts[h.account], h.amount), after);
  }

  lemma HoldResolvedGrows(db: Database, id: HoldId, h: Hold, a: Account, after: Database)
    requires id < |db.holds| && db.holds[id].status.HoldPending?
    requires h == db.holds[id].(status := h.status) && h.account in db.accounts
    requires AccountEvolves(db.accounts[h.account], a)
    requires after == Resolved(db.(accounts := db.accounts + map[h.account := a]), id, h)
    ensures Grows(db, after)
  {
    SameTxnsGrow(db, after);
  }

  lemma VoidGrows(db: Database, id: HoldId, after: Database)
    requires Sound(db) && after == VoidHold(db, id).0
    ensures Grows(db, after)
  {
    GrowsSame(db);
    if after != db {
      GiveBackGrows(db, id, Voided, after);
    }
  }

  lemma {:induction false} ExpireEachGrows(db: Database, ids: seq<HoldId>, now: Time, last: Database)
    requires Sound(db) && Expirable(db, ids, now) && ExpireEach(db, ids) == Ok(last)
    ensures Grows(db, last)
    decreases |ids|
  {
    if ids == [] {
      GrowsSame(db);
    } else {
      var next := GiveBack(db, ids[0], Expired).0;
      GiveBackExpires(db, ids[0]);
      GiveBackGrows(db, ids[0], Expired, next);
      StillExpirable(db, ids, next, now);
      ExpireEachGrows(next, ids[1..], now, last);
      GrowsTransitive(db, next, last);
    }
  }

  lemma CapturePostGrows(db: Database, h: Hold, in_: CaptureInput, now: Time)
    requires Sound(db) && h in db.holds && h.account in db.accounts && in_.amount > 0
    ensures Grows(db, Apply(db, [CaptureRequest(db, h, in_)], true, now).0)
  {
    CaptureValid(db, h, in_);
    ApplySingleGrows(db, CaptureRequest(db, h, in_), now);
  }

  lemma ResolvingGrows(db: Database, id: HoldId, h: Hold)
    requires id < |db.holds| && db.holds[id].status.HoldPending?
    requires SameHold(h, db.holds[id])
    ensures Grows(db, Resolved(db, id, h))
  {
    SameTxnsGrow(db, Resolved(db, id, h));
  }

  lemma CaptureGrows(db: Database, id: HoldId, in_: CaptureInput, clock: Time, now: Time, after: Database)
    requires Sound(db) && after == CaptureHold(db, id, in_, clock, now).0
    ensures Grows(db, after)
  {
    if after != db {
      var mid := CapturePosts(db, id, in_, clock, now);
      CapturePostGrows(db, db.holds[id], in_, now);
      ResolvingGrows(mid, id, after.holds[id]);
      GrowsTransitive(db, mid, after);
    } else {
      GrowsSame(db);
    }
  }

  lemma PostSettlementGrows(db: Database, in_: SettlementInput, side: Side, net: int, note: Metadata, now: Time)
    requires Sound(db)
    ensures Grows(db, PostSettlement(db, |db.settlements|, in_, side, net, note, now).0)
  {
    GrowsSame(db);
    if net != 0 {
      SettlementWellFormed(|db.settlements|, in_, side, net, note);
      ApplySingleGrows(db, SettlementRequest(|db.settlements|, in_, side, net, note), now);
    }
  }

  lemma SettledGrows(db: Database, s: SettlementId, in_: SettlementInput, own: Option<TxnId>, st: Settlement)
    requires forall k :: 0 <= k < |db.settlements| ==> db.settlements[k].key != st.key
    ensures Grows(db, Settled(db, s, in_, own, st))
  {
    SameTxnsGrow(db, Settled(db, s, in_, own, st));
  }

  lemma SettleNetGrows(db: Database, in_: SettlementInput, side: Side, net: int, note: Metadata, now: Time, after: Database)
    requires Sound(db) && after == SettleNet(db, in_, side, net, note, now).0
    requires forall k :: 0 <= k < |db.settlements| ==> db.settlements[k].key != in_.key
    ensures Grows(db, after)
  {
    var result := PostSettlement(db, |db.settlements|, in_, side, net, note, now);
    if after != db {
      PostSettlementGrows(db, in_, side, net, note, now);
      SettledGrows(result.0, |db.settlements|, in_, result.1.value, after.settlements[|db.settlements|]);
      GrowsTransitive(db, result.0, after);
    } else {
      GrowsSame(db);
    }
  }

  lemma SettleGrows(db: Database, input: SettlementInput, note: Metadata, now: Time, after: Database, r: Res<SettlementId>)
    requires Sound(db) && Settle(db, input, note, now) == (after, r)
    ensures Grows(db, after)
  {
    GrowsSame(db);
    SettleReduces(db, input, note, now, after, r);
    if after != db {
      var in_ := Normalized(input);
      SettlementFound(db.settlements, in_.key, |db.settlements|);
      SettleNetGrows(db, in_, db.accounts[in_.settled].normalSide, NetUnsettled(db, in_), note, now, after);
    }
  }

  lemma CreateAccountGrows(db: Database, id: AccountId, in_: AccountInput, after: Database)
    requires id !in db.accounts && after == CreateAccount(db, id, in_).0
    ensures Grows(db, after)
  {
    SameTxnsGrow(db, after);
  }

  lemma SetStatusGrows(db: Database, id: AccountId, target: AccountStatus, after: Database)
    requires after == SetStatus(db, id, target).0
    ensures Grows(db, after)
  {
    SameTxnsGrow(db, after);
  }

  lemma ClosePeriodGrows(db: Database, ledger: LedgerId, closedBefore: Option<Time>, now: Time, after: Database)
    requires after == ClosePeriod(db, ledger, closedBefore, now).0
    ensures Grows(db, after)
  {
    SameTxnsGrow(db, after);
  }
}
