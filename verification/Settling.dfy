/** Settlements: sum what is unsettled on an account, post its negation to a contra account, mark it all. */
module Settling {
  import opened Wrappers
  import opened Money
  import opened Kernel
  import opened Sums
  import opened BalanceChange
  import opened BalanceEffects
  import opened Tables
  import opened Preservation
  import opened TableWrites
  import opened Engine
  import opened GroupCommit
  import opened EngineSound
  import opened CaptureOutcomes

  datatype SettlementInput = SettlementInput(
    key: string, settled: AccountId, contra: AccountId, upperBound: Option<Time>, description: string, metadata: Metadata)

  // ---- the two queries that must agree ----

  predicate Before(txns: seq<Txn>, r: PostingRow, bound: Option<Time>) {
    bound.None? || (r.txn < |txns| && txns[r.txn].effectiveAt < bound.value)
  }

  /** The rows the sum reads. */
  predicate Unsettled(txns: seq<Txn>, r: PostingRow, account: AccountId, bound: Option<Time>) {
    r.account == account && Before(txns, r, bound) && r.settlement.None?
  }

  /** The rows the marking writes: also the settlement's own entry, whenever it is effective. */
  predicate Marked(txns: seq<Txn>, r: PostingRow, account: AccountId, bound: Option<Time>, own: Option<TxnId>) {
    r.account == account && (own == Some(r.txn) || Before(txns, r, bound)) && r.settlement.None?
  }

  function UnsettledOn(txns: seq<Txn>, account: AccountId, bound: Option<Time>, side: Side): PostingRow -> int {
    (r: PostingRow) => if Unsettled(txns, r, account, bound) && r.side == side then r.amount else 0
  }

  function UnsettledOne(txns: seq<Txn>, account: AccountId, bound: Option<Time>): PostingRow -> int {
    (r: PostingRow) => if Unsettled(txns, r, account, bound) then 1 else 0
  }

  function MarkedOne(txns: seq<Txn>, account: AccountId, bound: Option<Time>, own: Option<TxnId>): PostingRow -> int {
    (r: PostingRow) => if Marked(txns, r, account, bound, own) then 1 else 0
  }

  function Mark(txns: seq<Txn>, rows: seq<PostingRow>, account: AccountId, bound: Option<Time>, own: Option<TxnId>,
                s: SettlementId): seq<PostingRow>
  {
    seq(|rows|, i requires 0 <= i < |rows| =>
      if Marked(txns, rows[i], account, bound, own) then rows[i].(settlement := Some(s)) else rows[i])
  }

  // ---- the operation ----

  function SettlementBefore(settlements: seq<Settlement>, key: string, n: nat): Option<SettlementId>
    requires n <= |settlements|
  {
    if n == 0 then None
    else if settlements[n - 1].key == key then Some(n - 1)
    else SettlementBefore(settlements, key, n - 1)
  }

  lemma {:induction false} SettlementFound(settlements: seq<Settlement>, key: string, n: nat)
    requires n <= |settlements|
    ensures match SettlementBefore(settlements, key, n)
      case Some(s) => s < n && settlements[s].key == key && forall k :: s < k < n ==> settlements[k].key != key
      case None => forall k :: 0 <= k < n ==> settlements[k].key != key
  {
    if n > 0 {
      SettlementFound(settlements, key, n - 1);
    }
  }

  predicate SettlementMatches(st: Settlement, in_: SettlementInput) {
    && st.upperBound == in_.upperBound && st.settled == in_.settled && st.contra == in_.contra
    && st.description == in_.description && st.metadata == in_.metadata
  }

  /** The balancing transaction of settlement `s`; `note` is the metadata that names the settlement. */
  function SettlementRequest(s: SettlementId, in_: SettlementInput, settledSide: Side, net: int, note: Metadata): Request {
    var (side, amount) := if net < 0 then (settledSide, -net) else (settledSide.Opposite(), net);
    Request(PostInput(ForSettlement(s), in_.description, note,
                      [Plain(in_.settled, side, amount, None, 0), Plain(in_.contra, side.Opposite(), amount, None, 0)],
                      None, None, None, false),
            None, None)
  }

  /** Posts the balancing transaction, if the net amount calls for one. */
  function PostSettlement(db: Database, s: SettlementId, in_: SettlementInput, settledSide: Side, net: int, note: Metadata, now: Time)
    : (Database, Res<Option<TxnId>>)
  {
    if net == 0 then (db, Ok(None))
    else
      var req := SettlementRequest(s, in_, settledSide, net, note);
      ApplySingle(db, req, now);
      var (after, results) := Apply(db, [req], true, now);
      match results[0]
      case Failed(e) => (db, Err(e))
      case Replayed(t) => (after, Ok(Some(t)))
      case Created(t, _) => (after, Ok(Some(t)))
  }

  function Settle(db: Database, input: SettlementInput, note: Metadata, now: Time): (Database, Res<SettlementId>) {
    if input.settled == input.contra then (db, Err(Invalid))
    else
      var in_ := input.(upperBound := if input.upperBound.Some? then Some(Truncate(input.upperBound.value)) else None);
      match SettlementBefore(db.settlements, in_.key, |db.settlements|)
      case Some(s) =>
        (db, if s < |db.settlements| && SettlementMatches(db.settlements[s], in_) then Ok(s) else Err(IdempotencyConflict))
      case None => SettleNew(db, in_, note, now)
  }

  function SettleNew(db: Database, in_: SettlementInput, note: Metadata, now: Time): (Database, Res<SettlementId>) {
    if in_.settled !in db.accounts || in_.contra !in db.accounts then (db, Err(NotFound))
    else
      var settled, contra := db.accounts[in_.settled], db.accounts[in_.contra];
      if settled.ledger != contra.ledger || settled.currency != contra.currency then (db, Err(Invalid))
      else
        var debits := Sum(db.postings, UnsettledOn(db.txns, in_.settled, in_.upperBound, Debit));
        var credits := Sum(db.postings, UnsettledOn(db.txns, in_.settled, in_.upperBound, Credit));
        if !InBound(debits) || !InBound(credits) then (db, Err(Overflow))
        else match NetBalance(settled.normalSide, debits, credits)
          case None => (db, Err(Overflow))
          case Some(net) => SettleNet(db, in_, settled.normalSide, net.amount, note, now)
  }

  /** Posts the net amount, inserts the settlement and marks its entries, whose number must be as summed. */
  function SettleNet(db: Database, in_: SettlementInput, side: Side, net: int, note: Metadata, now: Time)
    : (Database, Res<SettlementId>)
  {
    var s := |db.settlements|;
    var count := Sum(db.postings, UnsettledOne(db.txns, in_.settled, in_.upperBound));
    var (posted, txn) := PostSettlement(db, s, in_, side, net, note, now);
    if txn.Err? then (db, Err(txn.error))
    else
      var st := Settlement(in_.key, in_.settled, in_.contra, in_.upperBound, net, count, txn.value, in_.description, in_.metadata);
      var marked := Sum(posted.postings, MarkedOne(posted.txns, in_.settled, in_.upperBound, txn.value));
      if marked != count + (if txn.value.Some? then 1 else 0) then (db, Err(SettlementMismatch))
      else (Settled(posted, s, in_, txn.value, st), Ok(s))
  }

  /** The tables with the settlement inserted and its entries marked. */
  function Settled(db: Database, s: SettlementId, in_: SettlementInput, own: Option<TxnId>, st: Settlement): Database {
    db.(settlements := db.settlements + [st],
        postings := Mark(db.txns, db.postings, in_.settled, in_.upperBound, own, s))
  }
}
