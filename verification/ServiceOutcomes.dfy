/** Exactly when holds, captures, reversals and account operations succeed, and what they leave. */
module ServiceOutcomes {
  import opened Wrappers
  import opened Money
  import opened Kernel
  import opened Sums
  import opened BalanceChange
  import opened BalanceEffects
  import opened Tables
  import opened Preservation
  import opened TableWrites
  import opened Engine
  import opened EngineSound
  import opened HoldOperations
  import opened HoldOutcomes
  import opened CaptureOutcomes
  import opened ServiceOperations
  import opened ReversalOutcomes
  import opened Replays
  import opened Acceptance
  import opened RequestOutcomes
  import opened EditOutcomes
  import opened SettlementSelections

  function Whole(t: Time): Time {
    t - t % 1000
  }

  ghost predicate NewHoldKey(db: Database, key: string) {
    forall h :: 0 <= h < |db.holds| ==> db.holds[h].key != key
  }

  /**
   Under a new key a hold is made exactly if its amount is positive and its account is known, open, in its currency and
   can afford it; the account then holds that much more, one version up, for the new pending hold, and nothing else moves.
   */
  lemma CreateHoldExact(db: Database, input: HoldInput)
    requires Sound(db) && NewHoldKey(db, input.key)
    ensures var (after, r) := CreateHold(db, input);
      && (r.Ok? <==>
            && input.amount > 0 && input.account in db.accounts
            && var a := db.accounts[input.account];
               && a.status.Open? && (input.currency.Some? ==> input.currency.value == a.currency)
               && a.held + input.amount <= MAX_AMOUNT && Affords(a, a.(held := a.held + input.amount)))
      && (r.Err? ==> after == db)
      && (r.Ok? ==>
            var a := db.accounts[input.account];
            && r.value == |db.holds|
            && after == db.(
                 accounts := db.accounts[input.account := a.(held := a.held + input.amount, version := a.version + 1)],
                 holds := db.holds + [Hold(input.key, input.account, a.currency, input.amount, HoldPending, input.description,
                                           Whole(input.expiresAt), None, None)]))
  {
    hide MoneyChecks;
    hide TxnChecks;
    hide Reserve;
    hide Affords;
    hide CreateHold;
    HoldFound(db.holds, input.key, |db.holds|);
    SoundIsOrdinary(db);
    hide Sound;
    if input.amount <= 0 || Reserve(db.accounts, input.account, input.currency, input.amount).Err? {
      HoldsNot(db, input);
    }
    if input.amount > 0 {
      ReserveExact(db.accounts, input.account, input.currency, input.amount);
      if Reserve(db.accounts, input.account, input.currency, input.amount).Ok? {
        HoldsMore(db, input);
      }
    }
  }

  lemma HoldsNot(db: Database, input: HoldInput)
    requires HoldBefore(db.holds, input.key, |db.holds|).None?
    requires input.amount <= 0 || Reserve(db.accounts, input.account, input.currency, input.amount).Err?
    ensures CreateHold(db, input).0 == db && CreateHold(db, input).1.Err?
  {
    hide Reserve;
  }

  lemma HoldsMore(db: Database, input: HoldInput)
    requires input.amount > 0 && HoldBefore(db.holds, input.key, |db.holds|).None? && input.account in db.accounts
    requires Reserve(db.accounts, input.account, input.currency, input.amount) == Ok(map[input.account :=
      db.accounts[input.account].(held := db.accounts[input.account].held + input.amount, version := db.accounts[input.account].version + 1)])
    ensures var a := db.accounts[input.account];
      CreateHold(db, input) == (db.(
        accounts := db.accounts[input.account := a.(held := a.held + input.amount, version := a.version + 1)],
        holds := db.holds + [Hold(input.key, input.account, a.currency, input.amount, HoldPending, input.description,
                                  Whole(input.expiresAt), None, None)]), Ok(|db.holds|))
  {
    hide Reserve;
    var a := db.accounts[input.account];
    var b := a.(held := a.held + input.amount, version := a.version + 1);
    assert db.accounts + map[input.account := b] == db.accounts[input.account := b];
  }

  /** The change of a capture: from the held account to the destination, releasing the whole hold. */
  function Capturing(db: Database, h: Hold, in_: CaptureInput): Change
    requires h.account in db.accounts
  {
    var side := db.accounts[h.account].normalSide.Opposite();
    Change(None, [], [Plain(h.account, side, in_.amount, Some(h.currency), 0),
                      Plain(in_.destination, side.Opposite(), in_.amount, Some(h.currency), 0)],
           Posted, Some(Release(h.account, h.amount)))
  }

  predicate OpenAt(db: Database, account: AccountId, now: Time)
    requires account in db.accounts
  {
    db.accounts[account].ledger in db.closedBefore ==> now >= db.closedBefore[db.accounts[account].ledger]
  }

  function CapturingRequest(db: Database, h: Hold, in_: CaptureInput): Request
    requires h.account in db.accounts
  {
    var c := Capturing(db, h, in_);
    Request(PostInput(Client(in_.key), in_.description, in_.metadata, c.add, None, None, None, false), None, c.release)
  }

  /** A key that is stored answers or refuses whatever comes with it, and changes nothing. */
  lemma KnownKey(db: Database, req: Request, now: Time)
    requires req.input.postings != [] && !NewKey(db, req.input.key)
    ensures var (after, results) := Apply(db, [req], true, now); |results| == 1 && !results[0].Created? && after == db
  {
    hide Apply;
    hide Matches;
    hide PostingsOf;
    hide DecideFresh;
    ApplySingle(db, req, now);
    KeyFound(db, req.input.key, |db.txns|);
  }

  /**
   A pending hold is captured exactly if the amount is positive and within it, it has not expired, the key is new, the
   period is open and the change is accepted; the accounts then move by that change, the hold is captured with the
   amount and the new posted transaction, and nothing else changes.
   */
  lemma CaptureExact(db: Database, id: HoldId, in_: CaptureInput, clock: Time, now: Time)
    requires Sound(db) && id < |db.holds| && db.holds[id].status.HoldPending?
    ensures db.holds[id].account in db.accounts
    ensures var (after, r) := CaptureHold(db, id, in_, clock, now);
      var h := db.holds[id];
      && (r.Ok? <==>
            && 0 < in_.amount <= h.amount && clock < h.expiresAt && NewKey(db, Client(in_.key))
            && OpenAt(db, h.account, now) && Accepted(db.accounts, Capturing(db, h, in_)))
      && (r.Err? ==> after == db)
      && (r.Ok? ==>
            && after.holds == db.holds[id := h.(status := Captured, captured := Some(in_.amount), capture := Some(|db.txns|))]
            && Done(db, after.(holds := db.holds), CapturingRequest(db, h, in_), now))
  {
    hide MoneyChecks;
    hide TxnChecks;
    HoldOfSound(db, id);
    var h := db.holds[id];
    if 0 < in_.amount <= h.amount && clock < h.expiresAt {
      CaptureAnswers(db, h, in_, now);
      CaptureFollows(db, id, in_, clock, now);
    }
  }

  lemma HoldOfSound(db: Database, id: HoldId)
    requires Sound(db) && id < |db.holds| && db.holds[id].status.HoldPending?
    ensures db.holds[id].account in db.accounts && db.holds[id].amount > 0
  {
    HoldWithinHeld(db, id);
  }

  lemma CaptureAnswers(db: Database, h: Hold, in_: CaptureInput, now: Time)
    requires Sound(db) && h.account in db.accounts && 0 < in_.amount && h.amount > 0
    ensures var (after, results) := Apply(db, [CapturingRequest(db, h, in_)], true, now);
      && |results| == 1
      && (results[0].Created? <==>
            NewKey(db, Client(in_.key)) && OpenAt(db, h.account, now) && Accepted(db.accounts, Capturing(db, h, in_)))
      && (results[0].Created? ==> results[0].id == |db.txns| && Done(db, after, CapturingRequest(db, h, in_), now))
  {
    hide Sound;
    hide Apply;
    hide Done;
    hide Transition;
    hide Accepted;
    var req := CapturingRequest(db, h, in_);
    if NewKey(db, Client(in_.key)) {
      assert Asked(req) == Capturing(db, h, in_);
      SingleOk(db, req, now);
      AcceptedWhen(db, Capturing(db, h, in_));
    } else {
      KnownKey(db, req, now);
    }
  }

  lemma CaptureFollows(db: Database, id: HoldId, in_: CaptureInput, clock: Time, now: Time)
    requires id < |db.holds| && db.holds[id].status.HoldPending? && db.holds[id].account in db.accounts
    requires 0 < in_.amount <= db.holds[id].amount && clock < db.holds[id].expiresAt
    requires |Apply(db, [CapturingRequest(db, db.holds[id], in_)], true, now).1| == 1
    ensures var (mid, results) := Apply(db, [CapturingRequest(db, db.holds[id], in_)], true, now);
      var h := db.holds[id];
      var (after, r) := CaptureHold(db, id, in_, clock, now);
      && (r.Ok? <==> results[0].Created?)
      && (r.Err? ==> after == db)
      && (r.Ok? ==> mid.holds == db.holds ==>
            && after.(holds := db.holds) == mid
            && after.holds == db.holds[id := h.(status := Captured, captured := Some(in_.amount), capture := Some(results[0].id))])
  {
    hide Apply;
    assert CapturingRequest(db, db.holds[id], in_) == CaptureRequest(db, db.holds[id], in_);
  }

  // ---- reversing ----

  /** The same entries with their sides exchanged. */
  function Opposed(ps: seq<Posting>): seq<Posting> {
    seq(|ps|, i requires 0 <= i < |ps| => Plain(ps[i].account, ps[i].side.Opposite(), ps[i].amount, ps[i].currency, 0))
  }

  function OpposingRequest(db: Database, id: TxnId, in_: ReverseInput): Request
    requires id < |db.txns|
  {
    Request(PostInput(Client(in_.key), in_.description, in_.metadata, Opposed(PostingsOf(db, id)), None, None, None, false),
            Some(id), None)
  }

  predicate Reversed(db: Database, id: TxnId) {
    exists t :: 0 <= t < |db.txns| && db.txns[t].reverses == Some(id)
  }

  /**
   A posted transaction that has not been reversed is reversed exactly if the key is new, the period is open and the
   opposite change is accepted; a new posted transaction then names it, with its entries opposed, and the accounts move
   by them.
   */
  lemma ReverseExact(db: Database, id: TxnId, in_: ReverseInput, now: Time)
    requires Sound(db) && id < |db.txns| && db.txns[id].status.Posted? && !Reversed(db, id)
    ensures PostingsOf(db, id) != [] && PostingsOf(db, id)[0].account in db.accounts
    ensures var (after, r) := Reverse(db, id, in_, now);
      && (r.Ok? <==>
            && NewKey(db, Client(in_.key)) && OpenAt(db, PostingsOf(db, id)[0].account, now)
            && Accepted(db.accounts, Change(None, [], Opposed(PostingsOf(db, id)), Posted, None)))
      && (r.Err? ==> after == db)
      && (r.Ok? ==> r.value == |db.txns| && Done(db, after, OpposingRequest(db, id, in_), now))
  {
    hide Reverse;
    hide PostingsOf;
    hide MoneyChecks;
    hide TxnChecks;
    hide Apply;
    hide Done;
    hide Accepted;
    PostedEntriesPositive(db, id);
    RowsFine(db);
    StoredEntries(db, id);
    assert PostingsOf(db, id)[0] in PostingsOf(db, id);
    ReversalAnswers(db, id, in_, now);
    ReversalFollows(db, id, in_, now);
  }

  lemma ReversalAnswers(db: Database, id: TxnId, in_: ReverseInput, now: Time)
    requires Sound(db) && id < |db.txns| && db.txns[id].status.Posted?
    requires PostingsOf(db, id) != [] && PostingsOf(db, id)[0].account in db.accounts
    ensures var (after, results) := Apply(db, [OpposingRequest(db, id, in_)], true, now);
      && |results| == 1
      && (results[0].Created? <==>
            && NewKey(db, Client(in_.key)) && OpenAt(db, PostingsOf(db, id)[0].account, now)
            && Accepted(db.accounts, Change(None, [], Opposed(PostingsOf(db, id)), Posted, None)))
      && (results[0].Created? ==> results[0].id == |db.txns| && Done(db, after, OpposingRequest(db, id, in_), now))
  {
    hide Sound;
    hide Apply;
    hide Done;
    hide Transition;
    hide Accepted;
    hide PostingsOf;
    var req := OpposingRequest(db, id, in_);
    ReversalWellFormed(db, id, in_);
    assert req == ReversalRequest(db, id, in_);
    if NewKey(db, Client(in_.key)) {
      assert Asked(req) == Change(None, [], Opposed(PostingsOf(db, id)), Posted, None);
      SingleOk(db, req, now);
      AcceptedWhen(db, Asked(req));
    } else {
      KnownKey(db, req, now);
    }
  }

  lemma ReversalFollows(db: Database, id: TxnId, in_: ReverseInput, now: Time)
    requires id < |db.txns| && db.txns[id].status.Posted? && !Reversed(db, id) && PostingsOf(db, id) != []
    requires |Apply(db, [OpposingRequest(db, id, in_)], true, now).1| == 1
    ensures var (after, results) := Apply(db, [OpposingRequest(db, id, in_)], true, now);
      if results[0].Created? then Reverse(db, id, in_, now) == (after, Ok(results[0].id))
      else Reverse(db, id, in_, now).0 == db && Reverse(db, id, in_, now).1.Err?
  {
    hide Apply;
    hide PostingsOf;
    ReversalFound(db.txns, id, |db.txns|);
    assert OpposingRequest(db, id, in_) == ReversalRequest(db, id, in_);
  }

  // ---- accounts and ledgers ----

  /** A new account is open, on the terms asked for and with nothing on it; no other account and nothing else changes. */
  lemma CreateAccountExact(db: Database, id: AccountId, in_: AccountInput)
    requires id !in db.accounts
    ensures var (after, r) := CreateAccount(db, id, in_);
      && (r.Ok? <==> in_.overdraftLimit >= 0)
      && (r.Err? ==> after == db)
      && (r.Ok? ==>
            && after == db.(accounts := after.accounts) && after.accounts.Keys == db.accounts.Keys + {id}
            && (forall a :: a in db.accounts ==> after.accounts[a] == db.accounts[a])
            && var a := after.accounts[id];
               && a.ledger == in_.ledger && a.currency == in_.currency && a.normalSide == in_.normalSide
               && a.allowNegative == in_.allowNegative && a.overdraftLimit == in_.overdraftLimit
               && a.status.Open? && a.version == 0 && Empty(a) && a.postedDebits == 0 && Funds(a) == 0)
  {
  }

  /**
   Closing a period moves the closing time of that ledger alone, to the time asked for in whole microseconds, and opening
   it removes that; a time in the future is refused.
   */
  lemma ClosePeriodExact(db: Database, ledger: LedgerId, closedBefore: Option<Time>, now: Time)
    ensures var (after, r) := ClosePeriod(db, ledger, closedBefore, now);
      && (r.Ok? <==> (closedBefore.Some? ==> Whole(closedBefore.value) <= now))
      && (r.Err? ==> after == db)
      && (r.Ok? ==>
            && after == db.(closedBefore := after.closedBefore)
            && (forall l :: l != ledger ==>
                  (l in after.closedBefore <==> l in db.closedBefore)
                  && (l in db.closedBefore ==> after.closedBefore[l] == db.closedBefore[l]))
            && match closedBefore
               case None => ledger !in after.closedBefore
               case Some(t) => ledger in after.closedBefore && after.closedBefore[ledger] == Whole(t))
  {
  }
}
