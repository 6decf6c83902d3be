/** The service: each method is one database transaction, reading the tables, changing them in place, and writing back. */
module LedgerService {
  import opened Wrappers
  import opened Money
  import opened Kernel
  import opened Sums
  import BalanceChange
  import opened BalanceEffects
  import opened Tables
  import opened TableWrites
  import opened Engine
  import opened GroupCommit
  import opened EngineSound
  import opened LedgerStates
  import opened BatchRuns
  import opened PendingTransactions
  import opened HoldOperations
  import opened Settling
  import opened ServiceOperations

  /** The columns of the two entry tables, filled transaction by transaction. */
  class EntryColumns {
    var posted: seq<PostingRow>
    var pending: seq<EntryRow>

    constructor ()
      ensures posted == [] && pending == []
    {
      posted, pending := [], [];
    }

    method AddPosted(id: TxnId, ps: seq<Posting>)
      modifies this`posted
      ensures posted == old(posted) + RowsFor(id, ps)
    {
      for i := 0 to |ps|
        invariant posted == old(posted) + RowsFor(id, ps[..i])
      {
        assert RowsFor(id, ps[..i + 1]) == RowsFor(id, ps[..i]) + [RowFor(id, ps[i])];
        posted := posted + [RowFor(id, ps[i])];
      }
      assert ps[..|ps|] == ps;
    }

    method AddPending(id: TxnId, version: int, ps: seq<Posting>)
      modifies this`pending
      ensures pending == old(pending) + EntriesFor(id, version, ps)
    {
      for i := 0 to |ps|
        invariant pending == old(pending) + EntriesFor(id, version, ps[..i])
      {
        assert EntriesFor(id, version, ps[..i + 1]) == EntriesFor(id, version, ps[..i]) + [EntryFor(id, version, ps[i])];
        pending := pending + [EntryFor(id, version, ps[i])];
      }
      assert ps[..|ps|] == ps;
    }
  }

  /** Equal results, up to which of the two funds errors is reported. */
  predicate AlikeRes(a: Res<nat>, b: Res<nat>) {
    a == b || (a.Err? && b.Err? && BalanceChange.SameError(a.error, b.error))
  }

  class Service {
    var db: Database

    constructor ()
      ensures db == EMPTY
    {
      db := EMPTY;
    }

    /**
     Writes the accounts whose version has moved, each only if its stored version is still the one that was
     locked; on locked accounts every one is written.
     */
    method WriteAccounts(state: LedgerState) returns (ok: bool)
      requires state.accounts.Keys == state.original.Keys && state.original.Keys <= db.accounts.Keys
      requires forall id :: id in state.original ==> db.accounts[id].version == state.original[id].version
      modifies this
      ensures ok && db == old(db).(accounts := old(db).accounts + state.Dirty())
    {
      var dirty := state.Dirty();
      var affected := UpdateAccounts(dirty, state.original);
      ok := affected == |dirty.Keys|;
    }

    /** Updates each account whose stored version is the one given, and counts them. */
    method UpdateAccounts(rows: Accounts, versions: Accounts) returns (affected: nat)
      requires forall id :: id in rows ==> id in db.accounts && id in versions
      requires forall id :: id in rows ==> db.accounts[id].version == versions[id].version
      modifies this
      ensures affected == |rows.Keys| && db == old(db).(accounts := old(db).accounts + rows)
    {
      var todo := rows.Keys;
      affected := 0;
      ghost var before := db.accounts;
      while todo != {}
        invariant todo <= rows.Keys && affected == |rows.Keys| - |todo|
        invariant db == old(db).(accounts := before + (rows - todo))
        decreases todo
      {
        var id :| id in todo;
        NotYetWritten(before, rows, todo, id);
        if db.accounts[id].version == versions[id].version {
          OneMoreWritten(before, rows, todo, id);
          db := db.(accounts := db.accounts[id := rows[id]]);
          affected := affected + 1;
        }
        todo := todo - {id};
      }
      assert rows - {} == rows;
    }

    /** Inserts the accepted transactions with their entries, and writes back the accounts. */
    method Insert(run: BatchRun, ghost ids: set<AccountId>) returns (ok: bool)
      requires run.Valid() && run.db == db && run.state.original == Lock(db, ids)
      modifies this
      ensures ok && db == Write(old(db), run.spec)
    {
      var columns := new EntryColumns();
      var txns := Columns(columns, run.accepted);
      db := db.(txns := db.txns + txns, postings := db.postings + columns.posted, entries := db.entries + columns.pending);
      ok := WriteAccounts(run.state);
      DirtySuffices(old(db), run.state, ids);
    }

    /** Fills the columns of the entry tables for new transactions, numbered from the next free position. */
    method Columns(columns: EntryColumns, accepted: seq<NewTxn>) returns (txns: seq<Txn>)
      requires columns.posted == [] && columns.pending == []
      modifies columns
      ensures txns == Txns(accepted)
      ensures columns.posted == AllRows(|db.txns|, accepted) && columns.pending == AllEntries(|db.txns|, accepted)
    {
      hide RowsFor;
      hide EntriesFor;
      txns := [];
      for i := 0 to |accepted|
        invariant txns == Txns(accepted[..i])
        invariant columns.posted == AllRows(|db.txns|, accepted[..i])
        invariant columns.pending == AllEntries(|db.txns|, accepted[..i])
      {
        var t := accepted[i];
        assert accepted[..i + 1][..i] == accepted[..i];
        txns := txns + [t.txn];
        if t.txn.status.Posted? {
          columns.AddPosted(|db.txns| + i, t.postings);
        } else {
          columns.AddPending(|db.txns| + i, 1, t.postings);
        }
      }
      assert accepted[..|accepted|] == accepted;
    }

    /** Every request a batch did not create or fail itself is aborted with it. */
    method Abort(results: seq<Outcome>, n: nat) returns (out: seq<Outcome>)
      requires |results| <= n
      ensures |out| == n
      ensures forall j :: 0 <= j < n ==>
        out[j] == if j < |results| && results[j].Failed? then results[j] else Failed(BatchAborted)
    {
      out := [];
      for j := 0 to n
        invariant |out| == j
        invariant forall k :: 0 <= k < j ==>
          out[k] == if k < |results| && results[k].Failed? then results[k] else Failed(BatchAborted)
      {
        out := out + [if j < |results| && results[j].Failed? then results[j] else Failed(BatchAborted)];
      }
    }

    method Locks(reqs: seq<Request>) returns (ids: set<AccountId>)
      ensures ids == NeedsAll(reqs)
    {
      ids := {};
      for i := 0 to |reqs|
        invariant ids == NeedsAll(reqs[..i])
      {
        ids := ids + Needs(reqs[i]);
        NeedsMore(reqs, i);
      }
      assert reqs[..|reqs|] == reqs;
    }

    /** Runs a batch as one database transaction. */
    method RunRequests(reqs: seq<Request>, atomic: bool, now: Time) returns (results: seq<Outcome>)
      requires forall r :: r in reqs ==> r.input.postings != []
      modifies this
      ensures db == Apply(old(db), reqs, atomic, now).0
      ensures AllAlike(results, Apply(old(db), reqs, atomic, now).1)
    {
      hide Decide;
      hide Tracks;
      var ids := Locks(reqs);
      var run := new BatchRun(db, ids, now);
      assert reqs[0..] == reqs;
      for i := 0 to |reqs|
        invariant run.Valid() && db == old(db) && run.db == db && run.now == now && run.state.original == Lock(db, ids)
        invariant fresh(run) && fresh(run.state)
        invariant RunBatch(db, Start(db, ids), reqs, now) == RunBatch(db, run.spec, reqs[i..], now)
        invariant |run.results| == i
        invariant atomic ==> forall j :: 0 <= j < i ==> !run.results[j].Failed?
      {
        assert reqs[i] in reqs && reqs[i..][0] == reqs[i] && reqs[i..][1..] == reqs[i + 1..];
        var one := run.Resolve(reqs[i]);
        if one.Failed? && atomic {
          results := Abort(run.results, |reqs|);
          AbortedAlike(db, run, reqs, i, results);
          return;
        }
      }
      results := run.results;
      FailuresAlike(results, run.spec.results);
      if |run.accepted| == 0 {
        NothingAccepted(db, run, ids);
        return;
      }
      var ok := Insert(run, ids);
    }

    // ---- pending transactions ----

    /** Counts the pending amounts down, slot by slot, entry by entry. */
    method CheckPartial(pending: seq<Posting>, posted: seq<Posting>) returns (r: Res<()>)
      ensures r == PendingTransactions.CheckPartial(pending, posted)
    {
      var limits: map<Slot, int> := map[];
      assert pending[0..] == pending && posted[0..] == posted;
      for i := 0 to |pending|
        invariant Limits(limits, pending[i..]) == Limits(map[], pending)
      {
        assert pending[i..][0] == pending[i] && pending[i..][1..] == pending[i + 1..];
        var k := SlotOf(pending[i]);
        var total := Add(if k in limits then limits[k] else 0, pending[i].amount);
        if total.None? {
          return Err(Overflow);
        }
        limits := limits[k := total.value];
      }
      for i := 0 to |posted|
        invariant Spend(limits, posted[i..]) == PendingTransactions.CheckPartial(pending, posted)
      {
        assert posted[i..][0] == posted[i] && posted[i..][1..] == posted[i + 1..];
        var k := SlotOf(posted[i]);
        if k !in limits {
          return Err(Invalid);
        }
        var remaining := Sub(limits[k], posted[i].amount);
        if remaining.None? {
          return Err(Overflow);
        }
        if remaining.value < 0 {
          return Err(Invalid);
        }
        limits := limits[k := remaining.value];
      }
      return Ok(());
    }

    /** Locks the accounts of a change, applies it to them, and writes them back. */
    method ApplyChange(c: BalanceChange.Change) returns (r: Res<BalanceChange.Applied>)
      modifies this
      ensures var spec := BalanceChange.Transition(old(db).accounts, c);
        if spec.Ok? then r == spec && db == old(db).(accounts := old(db).accounts + spec.value.changed)
        else r.Err? && BalanceChange.SameError(r.error, spec.error) && db == old(db)
    {
      var ids := BalanceChange.Touched(c);
      var state := new LedgerState(Lock(db, ids));
      TransitionFrame(Lock(db, ids), db.accounts, c);
      r := state.Transition(c);
      if r.Ok? {
        TransitionVersions(state.original, state.original, c);
        TransitionEffect(state.original, c);
        var ok := WriteAccounts(state);
        DirtySuffices(old(db), state, ids);
        LockedWrite(old(db), ids, r.value.changed);
      }
    }

    /** Writes the next version of a pending transaction, once its balance change is accepted. */
    method ChangePending(id: TxnId, next: Txn, c: BalanceChange.Change) returns (r: Res<TxnId>)
      requires id < |db.txns|
      modifies this
      ensures db == Rewritten(old(db), id, next, c).0
      ensures AlikeRes(r, Rewritten(old(db), id, next, c).1)
    {
      hide BalanceChange.Transition;
      hide RowsFor;
      hide EntriesFor;
      var t := next.(version := db.txns[id].version + 1);
      var applied := ApplyChange(c);
      if applied.Err? {
        return Err(applied.error);
      }
      var columns := new EntryColumns();
      db := db.(txns := db.txns[id := t]);
      if t.status.Posted? {
        columns.AddPosted(id, applied.value.postings);
        db := db.(postings := db.postings + columns.posted);
      } else if t.entriesVersion == t.version {
        columns.AddPending(id, t.version, applied.value.postings);
        db := db.(entries := db.entries + columns.pending);
      }
      return Ok(id);
    }

    method UpdateTransaction(id: TxnId, u: Update) returns (r: Res<TxnId>)
      modifies this
      ensures db == PendingTransactions.UpdateTransaction(old(db), id, u).0
      ensures AlikeRes(r, PendingTransactions.UpdateTransaction(old(db), id, u).1)
    {
      if u.postings.Some? && !ValidEntries(u.postings.value) {
        return Err(Invalid);
      }
      if id >= |db.txns| {
        return Err(NotFound);
      }
      var current := db.txns[id];
      if !current.status.Pending? {
        return Err(NotPending);
      }
      var metadata := u.patch(current.metadata);
      if metadata.None? {
        return Err(Invalid);
      }
      var next := Edited(current, u, metadata.value);
      var entriesChanged := u.postings.Some? && !SameEntries(PostingsOf(db, id), u.postings.value);
      if !entriesChanged && next == current {
        return Ok(id);
      }
      if entriesChanged {
        next := next.(entriesVersion := current.version + 1);
        r := ChangePending(id, next, EntryChange(db, id, u.postings.value, Pending));
      } else {
        db := Retitled(db, id, next);
        r := Ok(id);
      }
    }

    method PostPending(id: TxnId, postings: seq<Posting>) returns (r: Res<TxnId>)
      modifies this
      ensures db == PendingTransactions.PostPending(old(db), id, postings).0
      ensures AlikeRes(r, PendingTransactions.PostPending(old(db), id, postings).1)
    {
      if postings != [] && !ValidEntries(postings) {
        return Err(Invalid);
      }
      if id >= |db.txns| {
        return Err(NotFound);
      }
      var t, current := db.txns[id], PostingsOf(db, id);
      if !t.status.Pending? {
        return if t.status.Posted? && (postings == [] || SameEntries(current, postings)) then Ok(id) else Err(NotPending);
      }
      var posted := current;
      if postings != [] {
        var part := CheckPartial(current, postings);
        if part.Err? {
          return Err(part.error);
        }
        posted := postings;
      }
      r := ChangePending(id, t.(status := Posted), EntryChange(db, id, posted, Posted));
    }

    method ArchiveTransaction(id: TxnId) returns (r: Res<TxnId>)
      modifies this
      ensures db == PendingTransactions.ArchiveTransaction(old(db), id).0
      ensures AlikeRes(r, PendingTransactions.ArchiveTransaction(old(db), id).1)
    {
      if id >= |db.txns| {
        return Err(NotFound);
      }
      var t := db.txns[id];
      if !t.status.Pending? {
        return if t.status.Archived? then Ok(id) else Err(NotPending);
      }
      r := ChangePending(id, t.(status := Archived), EntryChange(db, id, [], Archived));
    }

    // ---- holds ----

    method CreateHold(input: HoldInput) returns (r: Res<HoldId>)
      modifies this
      ensures db == HoldOperations.CreateHold(old(db), input).0
      ensures AlikeRes(r, HoldOperations.CreateHold(old(db), input).1)
    {
      if input.amount <= 0 {
        return Err(Invalid);
      }
      var in_ := input.(expiresAt := Truncate(input.expiresAt));
      var state := new LedgerState(Lock(db, {in_.account}));
      var existing := HoldBefore(db.holds, in_.key, |db.holds|);
      if existing.Some? {
        var id := existing.value;
        return if id < |db.holds| && HoldMatches(db.holds[id], in_) then Ok(id) else Err(IdempotencyConflict);
      }
      ReserveFrame(db, in_.account, in_.currency, in_.amount);
      var reserved := state.Reserve(in_.account, in_.currency, in_.amount);
      if reserved.Err? {
        return Err(reserved.error);
      }
      var hold := Hold(in_.key, in_.account, state.accounts[in_.account].currency, in_.amount, HoldPending,
                       in_.description, in_.expiresAt, None, None);
      db := db.(holds := db.holds + [hold]);
      var ok := WriteAccounts(state);
      DirtySuffices(old(db), state, {in_.account});
      return Ok(|db.holds| - 1);
    }

    method CaptureHold(id: HoldId, in_: CaptureInput, clock: Time, now: Time) returns (r: Res<HoldId>)
      modifies this
      ensures db == HoldOperations.CaptureHold(old(db), id, in_, clock, now).0
      ensures AlikeRes(r, HoldOperations.CaptureHold(old(db), id, in_, clock, now).1)
    {
      if in_.amount <= 0 {
        return Err(Invalid);
      }
      if id >= |db.holds| || db.holds[id].account !in db.accounts {
        return Err(NotFound);
      }
      var h := db.holds[id];
      if h.status.Captured? {
        return CapturedBefore(db, id, in_);
      }
      if !h.status.HoldPending? {
        return Err(HoldNotPending);
      }
      if in_.amount > h.amount {
        return Err(Invalid);
      }
      if clock >= h.expiresAt {
        return Err(HoldNotPending);
      }
      var req := CaptureRequest(db, h, in_);
      ApplySingle(db, req, now);
      var results := RunRequests([req], true, now);
      assert Alike(results[0], Apply(old(db), [req], true, now).1[0]);
      if results[0].Failed? {
        return Err(results[0].error);
      }
      if results[0].Replayed? {
        return Err(IdempotencyConflict);
      }
      db := Resolved(db, id, h.(status := Captured, captured := Some(in_.amount), capture := Some(results[0].id)));
      return Ok(id);
    }

    method VoidHold(id: HoldId) returns (r: Res<HoldId>)
      modifies this
      ensures db == HoldOperations.VoidHold(old(db), id).0
      ensures AlikeRes(r, HoldOperations.VoidHold(old(db), id).1)
    {
      hide BalanceChange.ReleaseOf;
      if id >= |db.holds| {
        return Err(NotFound);
      }
      var h := db.holds[id];
      if h.status.Voided? {
        return Ok(id);
      }
      if !h.status.HoldPending? {
        return Err(HoldNotPending);
      }
      var state := new LedgerState(Lock(db, {h.account}));
      ReleaseFrame(db.accounts, Lock(db, {h.account}), h.account, h.amount);
      var released := state.Release(h.account, h.amount);
      if released.Err? {
        return Err(released.error);
      }
      var ok := WriteAccounts(state);
      DirtySuffices(old(db), state, {h.account});
      db := Resolved(db, id, h.(status := Voided));
      return Ok(id);
    }

    /** Releases every hold it is given on one in-memory state, writes the accounts once, then marks the holds. */
    method ExpireHolds(ids: seq<HoldId>) returns (r: Res<nat>)
      requires forall i :: 0 <= i < |ids| ==> ids[i] < |db.holds|
      modifies this
      ensures db == HoldOperations.ExpireHolds(old(db), ids).0
      ensures AlikeRes(r, HoldOperations.ExpireHolds(old(db), ids).1)
    {
      var needed := set i | 0 <= i < |ids| :: db.holds[ids[i]].account;
      var state := new LedgerState(Lock(db, needed));
      var released := ReleaseAll(state, needed, ids);
      if released.Err? {
        return Err(released.error);
      }
      var ok := WriteAccounts(state);
      DirtySuffices(old(db), state, needed);
      MarkExpired(ids);
      return Ok(|ids|);
    }

    /** The release loop: the state ends as if each hold had been given back, and marked, in turn. */
    method ReleaseAll(state: LedgerState, ghost needed: set<AccountId>, ids: seq<HoldId>) returns (r: Res<()>)
      requires forall i :: 0 <= i < |ids| ==> ids[i] < |db.holds| && db.holds[ids[i]].account in needed
      requires state.accounts == state.original == Lock(db, needed)
      modifies state`accounts
      ensures VersionsTell(state.original, state.accounts)
      ensures var spec := ExpireEach(db, ids);
        if r.Ok? then spec == Ok(Partly(db, state.accounts, ids))
        else spec.Err? && BalanceChange.SameError(r.error, spec.error)
    {
      hide BalanceChange.ReleaseOf;
      hide ExpireEach;
      NothingToExpire(db, needed, ids);
      for i := 0 to |ids|
        invariant VersionsTell(state.original, state.accounts)
        invariant ExpireEach(db, ids) == ExpireEach(Partly(db, state.accounts, ids[..i]), ids[i..])
      {
        var h := db.holds[ids[i]];
        ghost var before := state.accounts;
        ReleaseFrame(db.accounts + before, before, h.account, h.amount);
        var released := state.Release(h.account, h.amount);
        ExpiresNext(db, before, ids, i);
        if released.Err? {
          return Err(released.error);
        }
      }
      AllGivenBack(db, state.accounts, ids);
      return Ok(());
    }

    method MarkExpired(ids: seq<HoldId>)
      requires forall i :: 0 <= i < |ids| ==> ids[i] < |db.holds|
      modifies this
      ensures db == old(db).(holds := AllExpired(old(db).holds, ids))
    {
      for i := 0 to |ids|
        invariant db == old(db).(holds := AllExpired(old(db).holds, ids[..i]))
      {
        assert ids[..i + 1][..i] == ids[..i];
        db := Resolved(db, ids[i], db.holds[ids[i]].(status := Expired));
      }
      assert ids[..|ids|] == ids;
    }

    // ---- settlements, reversals, accounts ----

    method Settle(input: SettlementInput, note: Metadata, now: Time) returns (r: Res<SettlementId>)
      modifies this
      ensures db == Settling.Settle(old(db), input, note, now).0
      ensures AlikeRes(r, Settling.Settle(old(db), input, note, now).1)
    {
      if input.settled == input.contra {
        return Err(Invalid);
      }
      var in_ := input.(upperBound := if input.upperBound.Some? then Some(Truncate(input.upperBound.value)) else None);
      var existing := SettlementBefore(db.settlements, in_.key, |db.settlements|);
      if existing.Some? {
        var s := existing.value;
        return if s < |db.settlements| && SettlementMatches(db.settlements[s], in_) then Ok(s) else Err(IdempotencyConflict);
      }
      if in_.settled !in db.accounts || in_.contra !in db.accounts {
        return Err(NotFound);
      }
      var settled, contra := db.accounts[in_.settled], db.accounts[in_.contra];
      if settled.ledger != contra.ledger || settled.currency != contra.currency {
        return Err(Invalid);
      }
      var debits := Sum(db.postings, UnsettledOn(db.txns, in_.settled, in_.upperBound, Debit));
      var credits := Sum(db.postings, UnsettledOn(db.txns, in_.settled, in_.upperBound, Credit));
      if !InBound(debits) || !InBound(credits) {
        return Err(Overflow);
      }
      var net := NetBalance(settled.normalSide, debits, credits);
      if net.None? {
        return Err(Overflow);
      }
      r := SettleNet(in_, settled.normalSide, net.value.amount, note, now);
    }

    /** Posts the net amount, inserts the settlement, marks its entries and compares the counts. */
    method SettleNet(in_: SettlementInput, side: Side, net: int, note: Metadata, now: Time) returns (r: Res<SettlementId>)
      modifies this
      ensures db == Settling.SettleNet(old(db), in_, side, net, note, now).0
      ensures AlikeRes(r, Settling.SettleNet(old(db), in_, side, net, note, now).1)
    {
      var before, s := db, |db.settlements|;
      var count := Sum(db.postings, UnsettledOne(db.txns, in_.settled, in_.upperBound));
      var own := None;
      if net != 0 {
        var req := SettlementRequest(s, in_, side, net, note);
        ApplySingle(db, req, now);
        var results := RunRequests([req], true, now);
        assert Alike(results[0], Apply(before, [req], true, now).1[0]);
        if results[0].Failed? {
          return Err(results[0].error);
        }
        own := Some(results[0].id);
      }
      var st := Settlement(in_.key, in_.settled, in_.contra, in_.upperBound, net, count, own, in_.description, in_.metadata);
      var marked := Sum(db.postings, MarkedOne(db.txns, in_.settled, in_.upperBound, own));
      if marked != count + (if own.Some? then 1 else 0) {
        db := before;
        return Err(SettlementMismatch);
      }
      db := Settled(db, s, in_, own, st);
      return Ok(s);
    }

    method Reverse(id: TxnId, in_: ReverseInput, now: Time) returns (r: Res<TxnId>)
      modifies this
      ensures db == ServiceOperations.Reverse(old(db), id, in_, now).0
      ensures AlikeRes(r, ServiceOperations.Reverse(old(db), id, in_, now).1)
    {
      if id >= |db.txns| {
        return Err(NotFound);
      }
      if !db.txns[id].status.Posted? {
        return Err(NotPosted);
      }
      var req := ReversalRequest(db, id, in_);
      var prior := ReversalBefore(db.txns, id, |db.txns|);
      ReversalFound(db.txns, id, |db.txns|);
      if prior.Some? {
        var p := prior.value;
        return if db.txns[p].key == req.input.key && Matches(db.txns[p], PostingsOf(db, p), req.input) then Ok(p)
               else Err(AlreadyReversed);
      }
      if req.input.postings == [] {
        return Err(Invalid);
      }
      ApplySingle(db, req, now);
      var results := RunRequests([req], true, now);
      assert Alike(results[0], Apply(old(db), [req], true, now).1[0]);
      if results[0].Failed? {
        return Err(results[0].error);
      }
      if results[0].Replayed? {
        return Err(IdempotencyConflict);
      }
      return Ok(results[0].id);
    }

    method SetAccountStatus(id: AccountId, target: AccountStatus) returns (r: Res<AccountId>)
      modifies this
      ensures (db, r) == SetStatus(old(db), id, target)
    {
      if id !in db.accounts {
        return Err(NotFound);
      }
      var current := db.accounts[id];
      var balances := BalancesOf(current);
      if balances.None? {
        return Err(Overflow);
      }
      if current.status == target {
        return Ok(id);
      }
      if current.status.Closed? {
        return Err(AccountNotOpen);
      }
      if target.Closed? {
        var b := balances.value;
        if b.posted.amount != 0 || b.pending != b.posted || current.held != 0 {
          return Err(AccountNotEmpty);
        }
      }
      db := db.(accounts := db.accounts[id := current.(status := target, version := current.version + 1)]);
      return Ok(id);
    }

    method CreateAccount(id: AccountId, in_: AccountInput) returns (r: Res<AccountId>)
      requires id !in db.accounts
      modifies this
      ensures (db, r) == ServiceOperations.CreateAccount(old(db), id, in_)
    {
      if in_.overdraftLimit < 0 {
        return Err(Invalid);
      }
      db := db.(accounts := db.accounts[id := NewAccount(in_)]);
      return Ok(id);
    }

    /** A period that is already closed at that time, or already open, is left as it is. */
    method ClosePeriod(ledger: LedgerId, closedBefore: Option<Time>, now: Time) returns (r: Res<LedgerId>)
      modifies this
      ensures (db, r) == ServiceOperations.ClosePeriod(old(db), ledger, closedBefore, now)
    {
      var at := if closedBefore.Some? then Some(Truncate(closedBefore.value)) else None;
      if at.Some? && at.value > now {
        return Err(Invalid);
      }
      var current := if ledger in db.closedBefore then Some(db.closedBefore[ledger]) else None;
      if current == at {
        assert at.None? ==> db.closedBefore - {ledger} == db.closedBefore;
        assert at.Some? ==> db.closedBefore[ledger := at.value] == db.closedBefore;
        return Ok(ledger);
      }
      if at.Some? {
        db := db.(closedBefore := db.closedBefore[ledger := at.value]);
      } else {
        db := db.(closedBefore := db.closedBefore - {ledger});
      }
      return Ok(ledger);
    }
  }

  lemma NeedsMore(reqs: seq<Request>, i: nat)
    requires i < |reqs|
    ensures NeedsAll(reqs[..i + 1]) == NeedsAll(reqs[..i]) + Needs(reqs[i])
  {
    assert reqs[..i + 1] == reqs[..i] + [reqs[i]];
  }

  lemma FailuresAlike(a: seq<Outcome>, b: seq<Outcome>)
    requires AllAlike(a, b)
    ensures AnyFailed(a) <==> AnyFailed(b)
  {
    assert forall i :: 0 <= i < |a| ==> (a[i].Failed? <==> b[i].Failed?);
  }

  lemma NothingAccepted(db: Database, run: BatchRun, ids: set<AccountId>)
    requires run.Valid() && run.accepted == [] && run.state.original == Lock(db, ids)
    ensures Write(db, run.spec) == db
  {
    StartTracks(db, ids);
  }

  lemma AbortedAlike(db: Database, run: BatchRun, reqs: seq<Request>, i: nat, out: seq<Outcome>)
    requires forall r :: r in reqs ==> r.input.postings != []
    requires i < |reqs| && |run.results| == i + 1 == |run.spec.results| && AllAlike(run.results, run.spec.results)
    requires Ordered(run.spec)
    requires run.results[i].Failed? && forall j :: 0 <= j < i ==> !run.results[j].Failed?
    requires RunBatch(db, Start(db, NeedsAll(reqs)), reqs, run.now) == RunBatch(db, run.spec, reqs[i + 1..], run.now)
    requires |out| == |reqs| && forall j :: 0 <= j < |reqs| ==>
      out[j] == if j < |run.results| && run.results[j].Failed? then run.results[j] else Failed(BatchAborted)
    ensures Apply(db, reqs, true, run.now).0 == db
    ensures AllAlike(out, Apply(db, reqs, true, run.now).1)
  {
    var all := RunBatch(db, Start(db, NeedsAll(reqs)), reqs, run.now).results;
    RunBatchExtends(db, run.spec, reqs[i + 1..], run.now);
    assert forall j :: 0 <= j <= i ==> all[j] == run.spec.results[j] && Alike(run.results[j], run.spec.results[j]);
    AbortedAt(all, i);
  }

  lemma {:induction false} RunBatchExtends(db: Database, b: Batch, reqs: seq<Request>, now: Time)
    requires forall r :: r in reqs ==> r.input.postings != []
    requires Ordered(b)
    ensures |RunBatch(db, b, reqs, now).results| == |b.results| + |reqs|
    ensures RunBatch(db, b, reqs, now).results[..|b.results|] == b.results
    decreases |reqs|
  {
    hide Resolve;
    hide Ordered;
    if reqs != [] {
      assert reqs[0] in reqs;
      var next := Resolve(db, b, reqs[0], now);
      RunBatchExtends(db, next, reqs[1..], now);
      OneMoreResult(db, b, reqs[0], now);
      var all := RunBatch(db, b, reqs, now).results;
      assert all[..|b.results|] == all[..|next.results|][..|b.results|];
    }
  }

  lemma OneMoreResult(db: Database, b: Batch, req: Request, now: Time)
    requires req.input.postings != [] && Ordered(b)
    ensures var next := Resolve(db, b, req, now).results;
      |next| == |b.results| + 1 && next[..|b.results|] == b.results
  {
    hide Decide;
  }

  /** Aborted results, place by place: the first failure keeps its error, every other request is aborted. */
  lemma {:induction false} AbortedAt(results: seq<Outcome>, i: nat)
    requires i < |results| && results[i].Failed? && forall j :: 0 <= j < i ==> !results[j].Failed?
    ensures |Aborted(results)| == |results|
    ensures forall j :: 0 <= j < |results| ==> Aborted(results)[j] == if j == i then results[i] else Failed(BatchAborted)
  {
    if i > 0 {
      AbortedAt(results[1..], i - 1);
    }
  }

  /** Reserving and releasing look at one account only. */
  lemma ReserveFrame(db: Database, id: AccountId, currency: Option<Currency>, amount: int)
    ensures BalanceChange.Reserve(Lock(db, {id}), id, currency, amount) == BalanceChange.Reserve(db.accounts, id, currency, amount)
    ensures BalanceChange.Reserve(db.accounts, id, currency, amount).Ok? ==>
      && id in db.accounts
      && BalanceChange.Reserve(db.accounts, id, currency, amount).value.Keys == {id}
      && BalanceChange.Reserve(db.accounts, id, currency, amount).value[id].version == db.accounts[id].version + 1
      && BalanceChange.Reserve(db.accounts, id, currency, amount).value[id].currency == db.accounts[id].currency
  {
    if id in db.accounts {
      assert Lock(db, {id})[id] == db.accounts[id];
    }
  }

  lemma ReleaseFrame(base: Accounts, other: Accounts, id: AccountId, amount: int)
    requires id in base <==> id in other
    requires id in base ==> base[id] == other[id]
    ensures BalanceChange.ReleaseOf(base, id, amount) == BalanceChange.ReleaseOf(other, id, amount)
    ensures BalanceChange.ReleaseOf(base, id, amount).Ok? ==>
      && id in base && BalanceChange.ReleaseOf(base, id, amount).value.Keys == {id}
      && BalanceChange.ReleaseOf(base, id, amount).value[id].version == base[id].version + 1
  {
  }

  function AllExpired(holds: seq<Hold>, ids: seq<HoldId>): (r: seq<Hold>)
    requires forall i :: 0 <= i < |ids| ==> ids[i] < |holds|
    ensures |r| == |holds|
    decreases |ids|
  {
    if ids == [] then holds
    else
      var last := |ids| - 1;
      var before := AllExpired(holds, ids[..last]);
      before[ids[last] := before[ids[last]].(status := Expired)]
  }

  lemma {:induction false} ExpiredHolds(holds: seq<Hold>, ids: seq<HoldId>)
    requires forall i :: 0 <= i < |ids| ==> ids[i] < |holds|
    ensures forall k :: 0 <= k < |holds| ==> AllExpired(holds, ids)[k] == holds[k].(status := AllExpired(holds, ids)[k].status)
    decreases |ids|
  {
    if ids != [] {
      ExpiredHolds(holds, ids[..|ids| - 1]);
    }
  }

  /** The tables part way through an expiry run, had it written after every hold. */
  ghost function Partly(db: Database, accounts: Accounts, done: seq<HoldId>): Database
    requires forall i :: 0 <= i < |done| ==> done[i] < |db.holds|
  {
    db.(accounts := db.accounts + accounts, holds := AllExpired(db.holds, done))
  }

  lemma NothingToExpire(db: Database, needed: set<AccountId>, ids: seq<HoldId>)
    requires forall i :: 0 <= i < |ids| ==> ids[i] < |db.holds|
    ensures ids[0..] == ids && Partly(db, Lock(db, needed), ids[..0]) == db
  {
    assert db.accounts + Lock(db, needed) == db.accounts;
  }

  lemma AllGivenBack(db: Database, accounts: Accounts, ids: seq<HoldId>)
    requires forall i :: 0 <= i < |ids| ==> ids[i] < |db.holds|
    ensures ExpireEach(Partly(db, accounts, ids[..|ids|]), ids[|ids|..]) == Ok(Partly(db, accounts, ids))
  {
    assert ids[..|ids|] == ids && ids[|ids|..] == [];
  }

  /** Giving back the next hold on the state is giving it back on the tables. */
  lemma NextExpired(db: Database, accounts: Accounts, ids: seq<HoldId>, i: nat)
    requires (forall j :: 0 <= j < |ids| ==> ids[j] < |db.holds|) && i < |ids|
    ensures var h := db.holds[ids[i]];
      var released := BalanceChange.ReleaseOf(db.accounts + accounts, h.account, h.amount);
      var (next, r) := GiveBack(Partly(db, accounts, ids[..i]), ids[i], Expired);
      if released.Ok? then next == Partly(db, accounts + released.value, ids[..i + 1]) && r.Ok?
      else r == Err(released.error)
  {
    ExpiredHolds(db.holds, ids[..i]);
    assert ids[..i + 1][..i] == ids[..i];
    var h := db.holds[ids[i]];
    var released := BalanceChange.ReleaseOf(db.accounts + accounts, h.account, h.amount);
    if released.Ok? {
      MapsAssociate(db.accounts, accounts, released.value);
    }
  }

  lemma ExpiresNext(db: Database, accounts: Accounts, ids: seq<HoldId>, i: nat)
    requires (forall j :: 0 <= j < |ids| ==> ids[j] < |db.holds|) && i < |ids|
    ensures var h := db.holds[ids[i]];
      var released := BalanceChange.ReleaseOf(db.accounts + accounts, h.account, h.amount);
      ExpireEach(Partly(db, accounts, ids[..i]), ids[i..]) ==
      if released.Ok? then ExpireEach(Partly(db, accounts + released.value, ids[..i + 1]), ids[i + 1..])
      else Err(released.error)
  {
    NextExpired(db, accounts, ids, i);
    assert ids[i..][0] == ids[i] && ids[i..][1..] == ids[i + 1..];
  }

  lemma LockedWrite(db: Database, ids: set<AccountId>, changed: Accounts)
    ensures db.accounts + (Lock(db, ids) + changed) == db.accounts + changed
  {
  }

  lemma NotYetWritten(before: Accounts, rows: Accounts, todo: set<AccountId>, id: AccountId)
    requires id in before && id in todo
    ensures id in before + (rows - todo) && (before + (rows - todo))[id] == before[id]
  {
  }

  lemma OneMoreWritten(before: Accounts, dirty: Accounts, todo: set<AccountId>, id: AccountId)
    requires id in dirty && id in todo
    ensures (before + (dirty - todo))[id := dirty[id]] == before + (dirty - (todo - {id}))
  {
  }

  /** Writing only the accounts whose version moved is writing them all. */
  lemma DirtySuffices(db: Database, state: LedgerState, ids: set<AccountId>)
    requires VersionsTell(state.original, state.accounts) && state.original == Lock(db, ids)
    ensures db.accounts + state.Dirty() == db.accounts + state.accounts
  {
  }
}
