/** A reversal takes back, account by account, what its original moved, and happens at most once. */
module ReversalOutcomes {
  import opened Wrappers
  import opened Money
  import opened Kernel
  import opened Sums
  import opened BalanceChange
  import opened BalanceEffects
  import opened Tables
  import opened Preservation
  import opened TableWrites
  import opened Engine
  import opened GroupCommit
  import opened EngineSound
  import opened ErrorsRuledOut
  import opened CaptureOutcomes
  import opened SettlementOutcomes
  import opened ServiceOperations

  /** What a transaction's entries move on an account. */
  function Moves(db: Database, id: TxnId, a: AccountId): int
    requires id < |db.txns|
  {
    Sum(PostingsOf(db, id), NetOn(a))
  }

  lemma ReversalStored(db: Database, id: TxnId, in_: ReverseInput, now: Time, d: Decision) returns (applied: Applied)
    requires Sound(db) && id < |db.txns| && db.txns[id].status.Posted?
    requires d == Decide(db, Start(db, Needs(ReversalRequest(db, id, in_))), ReversalRequest(db, id, in_), now) && d.Create?
    requires ReversalRequest(db, id, in_).input.postings != []
    ensures d.new_.txn.status.Posted? && d.new_.txn.entriesVersion == 1 && d.new_.txn.reverses == Some(id)
    ensures d.new_.postings == applied.postings
    ensures RecordedAs(db.accounts, NetIn(db.accounts, map[]), Mirrored(PostingsOf(db, id)), Posted, applied.postings)
  {
    var req := ReversalRequest(db, id, in_);
    ReversalWellFormed(db, id, in_);
    CreatedShape(db, Lock(db, Needs(req)), map[], TruncatedRequest(req), now);
    applied := StoredAsAsked(db, req, now, d);
  }

  lemma {:induction false} RecordedMoves(base: Accounts, net: AccountId -> int, ps: seq<Posting>, out: seq<Posting>, a: AccountId)
    requires RecordedAs(base, net, ps, Posted, out)
    ensures Sum(Stripped(out, true), NetOn(a)) == Sum(ps, NetOn(a))
  {
    SumAligned(Stripped(out, true), ps, NetOn(a), NetOn(a));
  }

  lemma InsertedMoves(db: Database, t: Txn, changed: Accounts, ps: seq<Posting>, out: seq<Posting>, id: TxnId, a: AccountId)
    requires RowsBelong(db) && t.status.Posted? && id < |db.txns|
    requires RecordedAs(db.accounts, NetIn(db.accounts, map[]), ps, Posted, out)
    ensures var after := InsertTxn(db, t, out, changed);
      && Moves(after, |db.txns|, a) == Sum(ps, NetOn(a))
      && Moves(after, id, a) == Moves(db, id, a)
  {
    InsertReadsBack(db, t, out, changed);
    RecordedMoves(db.accounts, NetIn(db.accounts, map[]), ps, out, a);
  }

  lemma ReversalDecided(db: Database, id: TxnId, in_: ReverseInput, now: Time) returns (d: Decision)
    requires Reverse(db, id, in_, now).0 != db
    ensures id < |db.txns| && db.txns[id].status.Posted? && ReversalRequest(db, id, in_).input.postings != []
    ensures d == Decide(db, Start(db, Needs(ReversalRequest(db, id, in_))), ReversalRequest(db, id, in_), now) && d.Create?
    ensures Reverse(db, id, in_, now) == (InsertTxn(db, d.new_.txn, d.new_.postings, d.changed), Ok(|db.txns|))
    ensures FreshReversal(db, Some(id))
  {
    ReversalFound(db.txns, id, |db.txns|);
    var req := ReversalRequest(db, id, in_);
    ApplySingle(db, req, now);
    d := Decide(db, Start(db, Needs(req)), req, now);
  }

  /** A reversal that changes anything inserts one posted transaction that names its original. */
  lemma ReversalInserts(db: Database, id: TxnId, in_: ReverseInput, now: Time) returns (t: Txn, changed: Accounts, out: seq<Posting>)
    requires Sound(db) && Reverse(db, id, in_, now).0 != db
    ensures id < |db.txns| && t.status.Posted? && t.reverses == Some(id)
    ensures RecordedAs(db.accounts, NetIn(db.accounts, map[]), Mirrored(PostingsOf(db, id)), Posted, out)
    ensures Reverse(db, id, in_, now) == (InsertTxn(db, t, out, changed), Ok(|db.txns|))
  {
    var d := ReversalDecided(db, id, in_, now);
    var applied := ReversalStored(db, id, in_, now, d);
    t, changed, out := d.new_.txn, d.changed, applied.postings;
  }

  /** A reversal that is created moves exactly the opposite of its original on every account. */
  lemma ReversalUndoes(db: Database, id: TxnId, in_: ReverseInput, now: Time, a: AccountId)
    requires Sound(db) && Reverse(db, id, in_, now).0 != db
    ensures id < |db.txns|
    ensures var (after, r) := Reverse(db, id, in_, now);
      && r == Ok(|db.txns|) && |after.txns| == |db.txns| + 1
      && after.txns[|db.txns|].reverses == Some(id)
      && Moves(after, id, a) == Moves(db, id, a)
      && Moves(after, |db.txns|, a) == -Moves(db, id, a)
  {
    var t, changed, out := ReversalInserts(db, id, in_, now);
    IntegrityRowsBelong(db);
    InsertedMoves(db, t, changed, Mirrored(PostingsOf(db, id)), out, id, a);
    MirrorCancels(PostingsOf(db, id), a);
  }
}
