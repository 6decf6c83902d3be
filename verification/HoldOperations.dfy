/** Holding funds, and capturing, voiding and expiring what is held. */
module HoldOperations {
  import opened Wrappers
  import opened Money
  import opened Kernel
  import opened Sums
  import opened BalanceChange
  import opened BalanceEffects
  import opened Tables
  import opened Preservation
  import opened TableWrites
  import opened Engine
  import opened GroupCommit
  import opened EngineSound
  import opened ErrorsRuledOut

  datatype HoldInput = HoldInput(
    key: string, account: AccountId, amount: int, currency: Option<Currency>, description: string, expiresAt: Time)

  datatype CaptureInput = CaptureInput(
    key: string, destination: AccountId, amount: int, description: string, metadata: Metadata)

  function HoldBefore(holds: seq<Hold>, key: string, n: nat): Option<HoldId>
    requires n <= |holds|
  {
    if n == 0 then None
    else if holds[n - 1].key == key then Some(n - 1)
    else HoldBefore(holds, key, n - 1)
  }

  lemma {:induction false} HoldFound(holds: seq<Hold>, key: string, n: nat)
    requires n <= |holds|
    ensures match HoldBefore(holds, key, n)
      case Some(h) => h < n && holds[h].key == key && forall k :: h < k < n ==> holds[k].key != key
      case None => forall k :: 0 <= k < n ==> holds[k].key != key
  {
    if n > 0 {
      HoldFound(holds, key, n - 1);
    }
  }

  predicate HoldMatches(h: Hold, in_: HoldInput) {
    && h.account == in_.account && h.amount == in_.amount
    && (in_.currency.None? || in_.currency.value == h.currency)
    && h.description == in_.description && h.expiresAt == in_.expiresAt
  }

  function CreateHold(db: Database, input: HoldInput): (Database, Res<HoldId>) {
    if input.amount <= 0 then (db, Err(Invalid))
    else
      var in_ := input.(expiresAt := Truncate(input.expiresAt));
      match HoldBefore(db.holds, in_.key, |db.holds|)
      case Some(id) => (db, if id < |db.holds| && HoldMatches(db.holds[id], in_) then Ok(id) else Err(IdempotencyConflict))
      case None =>
        match Reserve(db.accounts, in_.account, in_.currency, in_.amount)
        case Err(e) => (db, Err(e))
        case Ok(changed) =>
          ReserveKnows(db.accounts, in_.account, in_.currency, in_.amount);
          var hold := Hold(in_.key, in_.account, db.accounts[in_.account].currency, in_.amount, HoldPending,
                           in_.description, in_.expiresAt, None, None);
          (db.(accounts := db.accounts + changed, holds := db.holds + [hold]), Ok(|db.holds|))
  }

  lemma ReserveKnows(base: Accounts, id: AccountId, currency: Option<Currency>, amount: int)
    requires Reserve(base, id, currency, amount).Ok?
    ensures id in base
  {
  }

  /** The transaction a capture posts: out of the held account, into the destination. */
  function CaptureInputOf(db: Database, h: Hold, in_: CaptureInput): PostInput
    requires h.account in db.accounts
  {
    var side := db.accounts[h.account].normalSide.Opposite();
    PostInput(Client(in_.key), in_.description, in_.metadata,
              [Plain(h.account, side, in_.amount, Some(h.currency), 0),
               Plain(in_.destination, side.Opposite(), in_.amount, Some(h.currency), 0)],
              None, None, None, false)
  }

  function CaptureRequest(db: Database, h: Hold, in_: CaptureInput): Request
    requires h.account in db.accounts
  {
    Request(CaptureInputOf(db, h, in_), None, Some(Release(h.account, h.amount)))
  }

  function Resolved(db: Database, id: HoldId, h: Hold): Database
    requires id < |db.holds|
  {
    db.(holds := db.holds[id := h])
  }

  /** A capture repeated on a hold that is already captured. */
  function CapturedBefore(db: Database, id: HoldId, in_: CaptureInput): Res<HoldId>
    requires id < |db.holds| && db.holds[id].account in db.accounts
  {
    var h := db.holds[id];
    if h.capture.None? || h.capture.value >= |db.txns| then Err(NotFound)
    else
      var t := h.capture.value;
      if db.txns[t].key != Client(in_.key) then Err(HoldNotPending)
      else if h.captured != Some(in_.amount) || !Matches(db.txns[t], PostingsOf(db, t), CaptureInputOf(db, h, in_)) then
        Err(IdempotencyConflict)
      else Ok(id)
  }

  /** `clock` is read as the hold is checked, `now` is the time of the whole database transaction. */
  function CaptureHold(db: Database, id: HoldId, in_: CaptureInput, clock: Time, now: Time): (Database, Res<HoldId>) {
    if in_.amount <= 0 then (db, Err(Invalid))
    else if id >= |db.holds| || db.holds[id].account !in db.accounts then (db, Err(NotFound))
    else
      var h := db.holds[id];
      if h.status.Captured? then (db, CapturedBefore(db, id, in_))
      else if !h.status.HoldPending? then (db, Err(HoldNotPending))
      else if in_.amount > h.amount then (db, Err(Invalid))
      else if clock >= h.expiresAt then (db, Err(HoldNotPending))
      else
        var (after, results) := Apply(db, [CaptureRequest(db, h, in_)], true, now);
        ApplySingle(db, CaptureRequest(db, h, in_), now);
        match results[0]
        case Failed(e) => (db, Err(e))
        case Replayed(_) => (db, Err(IdempotencyConflict))
        case Created(txn, _) =>
          (Resolved(after, id, h.(status := Captured, captured := Some(in_.amount), capture := Some(txn))), Ok(id))
  }

  function VoidHold(db: Database, id: HoldId): (Database, Res<HoldId>) {
    if id >= |db.holds| then (db, Err(NotFound))
    else if db.holds[id].status.Voided? then (db, Ok(id))
    else if !db.holds[id].status.HoldPending? then (db, Err(HoldNotPending))
    else GiveBack(db, id, Voided)
  }

  /** Returns the funds of one pending hold to its account. */
  function GiveBack(db: Database, id: HoldId, status: HoldStatus): (Database, Res<HoldId>)
    requires id < |db.holds|
  {
    var h := db.holds[id];
    match ReleaseOf(db.accounts, h.account, h.amount)
    case Err(e) => (db, Err(e))
    case Ok(changed) => (Resolved(db.(accounts := db.accounts + changed), id, h.(status := status)), Ok(id))
  }

  /** The holds an expiry run picks: pending, distinct and past their time. */
  predicate Expirable(db: Database, ids: seq<HoldId>, now: Time) {
    && (forall i :: 0 <= i < |ids| ==> ids[i] < |db.holds| && db.holds[ids[i]].status.HoldPending? && db.holds[ids[i]].expiresAt <= now)
    && (forall i, j :: 0 <= i < j < |ids| ==> ids[i] != ids[j])
  }

  /** Expires holds one after another; if any cannot be released, none is. */
  function ExpireEach(db: Database, ids: seq<HoldId>): Res<Database>
    requires forall i :: 0 <= i < |ids| ==> ids[i] < |db.holds|
    decreases |ids|
  {
    if ids == [] then Ok(db)
    else
      var (next, r) := GiveBack(db, ids[0], Expired);
      if r.Err? then Err(r.error) else ExpireEach(next, ids[1..])
  }

  function ExpireHolds(db: Database, ids: seq<HoldId>): (Database, Res<nat>)
    requires forall i :: 0 <= i < |ids| ==> ids[i] < |db.holds|
  {
    match ExpireEach(db, ids)
    case Err(e) => (db, Err(e))
    case Ok(after) => (after, Ok(|ids|))
  }
}
