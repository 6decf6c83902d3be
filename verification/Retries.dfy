/** Retried operations: at any later time a repeated key is answered by what it made, exactly if it asks for the same. */
module Retries {
  import opened Wrappers
  import opened Money
  import opened Kernel
  import opened Sums
  import opened BalanceChange
  import opened BalanceEffects
  import opened Tables
  import opened Preservation
  import opened TableWrites
  import opened Engine
  import opened GroupCommit
  import opened EngineSound
  import opened HoldOperations
  import opened HoldOutcomes
  import opened CaptureOutcomes
  import opened Settling
  import opened SettlementOutcomes
  import opened ServiceOperations
  import opened ReversalOutcomes
  import opened Histories
  import opened Replays
  import opened Runs

  // ---- holds ----

  /** The same terms, to the microsecond; a currency may be left open. */
  predicate SameHoldAsked(h: Hold, input: HoldInput, other: HoldInput) {
    && other.account == input.account && other.amount == input.amount && other.description == input.description
    && Truncate(other.expiresAt) == Truncate(input.expiresAt)
    && (other.currency.Some? ==> other.currency.value == h.currency)
  }

  /** A hold's key answers with that hold exactly what asks for the same terms, whatever has become of it since. */
  lemma HoldRetry(db: Database, input: HoldInput, later: seq<Event>, other: HoldInput)
    requires Sound(db) && CreateHold(db, input).0 != db
    requires other.key == input.key && other.amount > 0
    ensures var (after, r) := CreateHold(db, input);
      var end := Run(after, later);
      && r == Ok(|db.holds|) && |after.holds| == |db.holds| + 1
      && CreateHold(end, other) ==
           (end, if SameHoldAsked(after.holds[|db.holds|], input, other) then Ok(|db.holds|) else Err(IdempotencyConflict))
  {
    hide Sound;
    hide Run;
    hide TxnsEvolve;
    hide AccountsEvolve;
    hide JournalGrows;
    hide SettlementsEvolve;
    var after, id := CreateHold(db, input).0, |db.holds|;
    CreateHoldSound(db, input);
    RunKeeps(after, later);
    var end := Run(after, later);
    assert SameHold(end.holds[id], after.holds[id]);
    HoldFound(end.holds, input.key, |end.holds|);
  }

  // ---- settlements ----

  /** A settlement's key answers with that settlement exactly the same accounts, cut-off and texts. */
  lemma SettlementRetry(db: Database, input: SettlementInput, note: Metadata, now: Time, later: seq<Event>,
                        other: SettlementInput, otherNote: Metadata, then_: Time)
    requires Sound(db) && Settle(db, input, note, now).0 != db
    requires other.key == input.key && other.settled != other.contra
    ensures var (after, r) := Settle(db, input, note, now);
      var end := Run(after, later);
      && r == Ok(|db.settlements|)
      && Settle(end, other, otherNote, then_) ==
           (end, if Normalized(other) == Normalized(input) then r else Err(IdempotencyConflict))
  {
    hide Sound;
    hide Run;
    hide TxnsEvolve;
    hide AccountsEvolve;
    hide JournalGrows;
    hide HoldsEvolve;
    var (after, r) := Settle(db, input, note, now);
    SettleSound(db, input, note, now, after, r);
    SettledAs(db, input, note, now);
    RunKeeps(after, later);
    var end, s := Run(after, later), |db.settlements|;
    assert end.settlements[s] == after.settlements[s];
    SettlementFound(end.settlements, input.key, |end.settlements|);
  }

  lemma SettledAs(db: Database, input: SettlementInput, note: Metadata, now: Time)
    requires Settle(db, input, note, now).0 != db
    ensures var (after, r) := Settle(db, input, note, now);
      && r == Ok(|db.settlements|) && |after.settlements| == |db.settlements| + 1
      && var st, in_ := after.settlements[|db.settlements|], Normalized(input);
         SettlementMatches(st, in_) && st.key == in_.key
  {
    var (after, r) := Settle(db, input, note, now);
    SettleReduces(db, input, note, now, after, r);
    var in_ := Normalized(input);
    PostingKeepsSettlements(db, in_, db.accounts[in_.settled].normalSide, NetUnsettled(db, in_), note, now);
  }

  lemma PostingKeepsSettlements(db: Database, in_: SettlementInput, side: Side, net: int, note: Metadata, now: Time)
    ensures PostSettlement(db, |db.settlements|, in_, side, net, note, now).0.settlements == db.settlements
  {
    if net != 0 {
      ApplySingle(db, SettlementRequest(|db.settlements|, in_, side, net, note), now);
    }
  }

  // ---- reversals ----

  lemma ReversalRecorded(db: Database, id: TxnId, in_: ReverseInput, now: Time)
    requires Sound(db) && Reverse(db, id, in_, now).0 != db
    ensures id < |db.txns| && db.txns[id].status.Posted?
    ensures Reverse(db, id, in_, now).1 == Ok(|db.txns|)
    ensures var after, r := Reverse(db, id, in_, now).0, |db.txns|;
      && Records(after, r, ReversalRequest(db, id, in_).input)
      && after.txns[r].reverses == Some(id) && after.txns[r].request.None?
  {
    hide Records;
    hide Integrity;
    hide Reverse;
    hide Decide;
    hide Apply;
    var d := ReversalDecided(db, id, in_, now);
    var req := ReversalRequest(db, id, in_);
    ReversalWellFormed(db, id, in_);
    SingleRecords(db, req, now);
    ApplySingle(db, req, now);
    SingleReverses(db, req, now);
    CreatedAsAsked(db, req, now, d);
  }

  lemma SingleReverses(db: Database, req: Request, now: Time)
    requires WellFormed(req) && Decide(db, Start(db, Needs(req)), req, now).Create?
    ensures var after := Apply(db, [req], true, now).0;
      && |after.txns| == |db.txns| + 1 && after.txns[|db.txns|].reverses == req.reverses
      && after.txns[|db.txns|] == Decide(db, Start(db, Needs(req)), req, now).new_.txn
  {
    ApplySingle(db, req, now);
    CreatedShape(db, Lock(db, Needs(req)), map[], TruncatedRequest(req), now);
  }

  /** The request of a reversal stays the same: a posted transaction's entries are final. */
  lemma SameReversal(before: Database, after: Database, id: TxnId, in_: ReverseInput)
    requires Grows(before, after) && id < |before.txns| && before.txns[id].status.Posted?
    ensures id < |after.txns| && after.txns[id].status.Posted?
    ensures ReversalRequest(after, id, in_) == ReversalRequest(before, id, in_)
  {
    assert TxnEvolves(before, after, id);
  }

  lemma StillReverses(before: Database, after: Database, r: TxnId, id: TxnId)
    requires Grows(before, after) && ReversedOnce(after) && r < |before.txns| && before.txns[r].reverses == Some(id)
    ensures ReversalBefore(after.txns, id, |after.txns|) == Some(r)
    ensures r < |after.txns| && after.txns[r].request == before.txns[r].request
  {
    assert TxnEvolves(before, after, r);
    ReversalFound(after.txns, id, |after.txns|);
  }

  /** With the same key, the recorded reversal matches exactly the request that made it. */
  lemma ReversalAsks(db: Database, end: Database, r: TxnId, id: TxnId, in_: ReverseInput, other: ReverseInput)
    requires id < |db.txns| && Records(end, r, ReversalRequest(db, id, in_).input) && end.txns[r].request.None?
    ensures var input := ReversalRequest(db, id, other).input;
      end.txns[r].key == input.key && Matches(end.txns[r], PostingsOf(end, r), input) <==> other == in_
  {
    hide PostingsOf;
    var input := ReversalRequest(db, id, other).input;
    assert Truncated(input) == input;
    MatchesExactly(end, r, ReversalRequest(db, id, in_).input, input);
  }

  lemma ReverseAgain(db: Database, id: TxnId, r: TxnId, other: ReverseInput, now: Time)
    requires id < |db.txns| && db.txns[id].status.Posted? && r < |db.txns|
    requires ReversalBefore(db.txns, id, |db.txns|) == Some(r)
    ensures var input := ReversalRequest(db, id, other).input;
      Reverse(db, id, other, now) ==
      (db, if db.txns[r].key == input.key && Matches(db.txns[r], PostingsOf(db, r), input) then Ok(r) else Err(AlreadyReversed))
  {
  }

  /** A reversed transaction is reversed for good: the very same request is answered with that reversal, any other refused. */
  lemma ReversalRetry(db: Database, id: TxnId, in_: ReverseInput, now: Time, later: seq<Event>, other: ReverseInput, then_: Time)
    requires Sound(db) && Reverse(db, id, in_, now).0 != db
    ensures var (after, r) := Reverse(db, id, in_, now);
      Reverse(Run(after, later), id, other, then_) ==
      (Run(after, later), if other == in_ then r else Err(AlreadyReversed))
  {
    hide MoneyChecks;
    hide Records;
    hide Run;
    hide Grows;
    hide Matches;
    hide Reverse;
    hide ReversalRequest;
    var after, r := Reverse(db, id, in_, now).0, |db.txns|;
    ReversalRecorded(db, id, in_, now);
    ReverseSound(db, id, in_, now);
    ReverseGrows(db, id, in_, now, after);
    RunKeeps(after, later);
    var end := Run(after, later);
    GrowsTransitive(db, after, end);
    RecordsKept(after, end, r, ReversalRequest(db, id, in_).input);
    SameReversal(db, end, id, other);
    RecordedIsStored(after, r, ReversalRequest(db, id, in_).input);
    StillReverses(after, end, r, id);
    ReversalAsks(db, end, r, id, in_, other);
    ReverseAgain(end, id, r, other, then_);
  }

  lemma RecordedIsStored(db: Database, id: TxnId, input: PostInput)
    requires Records(db, id, input)
    ensures id < |db.txns| && db.txns[id].key == input.key
  {
  }

  // ---- captures ----

  lemma CaptureRecorded(db: Database, id: HoldId, in_: CaptureInput, clock: Time, now: Time)
    requires Sound(db) && CaptureHold(db, id, in_, clock, now).0 != db
    ensures id < |db.holds| && db.holds[id].account in db.accounts
    ensures CaptureHold(db, id, in_, clock, now).1 == Ok(id)
    ensures var after, t := CaptureHold(db, id, in_, clock, now).0, |db.txns|;
      && Records(after, t, CaptureInputOf(db, db.holds[id], in_)) && after.txns[t].request.None?
      && |after.holds| == |db.holds| && SameHold(after.holds[id], db.holds[id])
      && after.holds[id].status.Captured? && after.holds[id].captured == Some(in_.amount) && after.holds[id].capture == Some(t)
  {
    hide Records;
    hide Integrity;
    hide Decide;
    hide Apply;
    hide CaptureHold;
    hide Grows;
    var mid := CapturePosts(db, id, in_, clock, now);
    var req := CaptureRequest(db, db.holds[id], in_);
    CaptureValid(db, db.holds[id], in_);
    SingleRecords(db, req, now);
    CreatedAsAsked(db, req, now, Decide(db, Start(db, Needs(req)), req, now));
    SingleReverses(db, req, now);
    var h := db.holds[id].(status := Captured, captured := Some(in_.amount), capture := Some(|db.txns|));
    ResolvingGrows(mid, id, h);
    RecordsKept(mid, Resolved(mid, id, h), |db.txns|, req.input);
  }

  /** The posting a capture asks for is the same at any later time. */
  lemma SameCapture(before: Database, after: Database, h: Hold, g: Hold, in_: CaptureInput)
    requires Grows(before, after) && h.account in before.accounts && SameHold(h, g)
    ensures g.account in after.accounts && CaptureInputOf(after, g, in_) == CaptureInputOf(before, h, in_)
  {
    assert AccountEvolves(before.accounts[h.account], after.accounts[h.account]);
  }

  lemma CaptureAsks(db: Database, end: Database, t: TxnId, h: Hold, in_: CaptureInput, other: CaptureInput)
    requires h.account in db.accounts && Records(end, t, CaptureInputOf(db, h, in_)) && end.txns[t].request.None?
    ensures Matches(end.txns[t], PostingsOf(end, t), CaptureInputOf(db, h, other)) <==>
      other.destination == in_.destination && other.amount == in_.amount
      && other.description == in_.description && other.metadata == in_.metadata
  {
    hide PostingsOf;
    var input := CaptureInputOf(db, h, other);
    assert Truncated(input) == input;
    MatchesExactly(end, t, CaptureInputOf(db, h, in_), input);
    var asked := CaptureInputOf(db, h, in_);
    assert asked.postings[1].account == in_.destination && input.postings[1].account == other.destination;
    assert asked.postings[0].amount == in_.amount && input.postings[0].amount == other.amount;
  }

  /**
   A captured hold is captured for good: the very same request is answered with it, one with another key finds it
   no longer pending, one with the same key and other terms conflicts.
   */
  lemma CaptureRetry(db: Database, id: HoldId, in_: CaptureInput, clock: Time, now: Time, later: seq<Event>,
                     other: CaptureInput, otherClock: Time, then_: Time)
    requires Sound(db) && CaptureHold(db, id, in_, clock, now).0 != db && other.amount > 0
    ensures var (after, r) := CaptureHold(db, id, in_, clock, now);
      CaptureHold(Run(after, later), id, other, otherClock, then_) ==
      (Run(after, later),
       if other.key != in_.key then Err(HoldNotPending) else if other == in_ then r else Err(IdempotencyConflict))
  {
    hide MoneyChecks;
    hide Records;
    hide Run;
    hide Grows;
    hide Matches;
    hide CaptureHold;
    hide CaptureInputOf;
    var after, t := CaptureHold(db, id, in_, clock, now).0, |db.txns|;
    CaptureRecorded(db, id, in_, clock, now);
    CaptureSound(db, id, in_, clock, now);
    CaptureGrows(db, id, in_, clock, now, after);
    RunKeeps(after, later);
    var end := Run(after, later);
    var asked := CaptureInputOf(db, db.holds[id], in_);
    GrowsTransitive(db, after, end);
    RecordsKept(after, end, t, asked);
    RecordedIsStored(after, t, asked);
    RecordedIsStored(end, t, asked);
    StillCaptured(after, end, id, t);
    SameCapture(db, end, db.holds[id], end.holds[id], other);
    CaptureAsks(db, end, t, db.holds[id], in_, other);
    CaptureAgain(end, id, t, other, otherClock, then_);
    CaptureKey(db, db.holds[id], in_);
  }

  lemma CaptureKey(db: Database, h: Hold, in_: CaptureInput)
    requires h.account in db.accounts
    ensures CaptureInputOf(db, h, in_).key == Client(in_.key)
  {
  }

  lemma StillCaptured(before: Database, after: Database, id: HoldId, t: TxnId)
    requires Grows(before, after) && id < |before.holds| && !before.holds[id].status.HoldPending?
    ensures id < |after.holds| && after.holds[id] == before.holds[id]
    ensures t < |before.txns| ==> t < |after.txns| && after.txns[t].request == before.txns[t].request
  {
    if t < |before.txns| {
      assert TxnEvolves(before, after, t);
    }
  }

  lemma CaptureAgain(db: Database, id: HoldId, t: TxnId, other: CaptureInput, clock: Time, now: Time)
    requires id < |db.holds| && db.holds[id].account in db.accounts && db.holds[id].status.Captured? && other.amount > 0
    requires db.holds[id].capture == Some(t) && t < |db.txns|
    ensures CaptureHold(db, id, other, clock, now) ==
      (db, if db.txns[t].key != Client(other.key) then Err(HoldNotPending)
           else if db.holds[id].captured == Some(other.amount)
                && Matches(db.txns[t], PostingsOf(db, t), CaptureInputOf(db, db.holds[id], other)) then Ok(id)
           else Err(IdempotencyConflict))
  {
  }
}
