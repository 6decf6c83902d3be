/** A settlement marks exactly what it summed, nets to zero, and keeps every earlier settlement as it was. */
module SettlementOutcomes {
  import opened Wrappers
  import opened Money
  import opened Kernel
  import opened Sums
  import opened BalanceChange
  import opened BalanceEffects
  import opened Tables
  import opened Preservation
  import opened TableWrites
  import opened Engine
  import opened GroupCommit
  import opened EngineSound
  import opened ErrorsRuledOut
  import opened CaptureOutcomes
  import opened Settling

  // ---- the balancing transaction ----

  /** What posting the balancing transaction leaves: two more rows, the first of which is the settled account's own. */
  ghost predicate PostsNet(db: Database, posted: Database, own: Option<TxnId>, in_: SettlementInput, side: Side, net: int) {
    var n := |db.postings|;
    && posted.settlements == db.settlements
    && (net == 0 ==> own.None? && posted == db)
    && (net != 0 ==>
          && own == Some(|db.txns|) && |posted.txns| == |db.txns| + 1 && posted.txns[..|db.txns|] == db.txns
          && |posted.postings| == n + 2 && posted.postings[..n] == db.postings
          && OwnRow(posted.postings[n], |db.txns|, in_.settled, if side.Debit? then -net else net)
          && posted.postings[n + 1].account == in_.contra && posted.postings[n + 1].settlement.None?)
  }

  predicate OwnRow(r: PostingRow, t: TxnId, account: AccountId, signed: int) {
    r.txn == t && r.account == account && r.settlement.None? && r.Signed() == signed
  }

  /** A key that names the settlement about to be inserted is new. */
  lemma SettlementKeyFresh(db: Database, s: SettlementId)
    requires SettlementKeysKnown(db) && s >= |db.settlements|
    ensures FindKey(db, ForSettlement(s)).None?
  {
    KeyFound(db, ForSettlement(s), |db.txns|);
  }

  lemma SettlementWellFormed(s: SettlementId, in_: SettlementInput, side: Side, net: int, note: Metadata)
    requires net != 0
    ensures WellFormed(SettlementRequest(s, in_, side, net, note))
  {
  }

  /** A new request that is not refused is stored as asked, its entries recorded in order. */
  lemma StoredAsAsked(db: Database, req: Request, now: Time, d: Decision) returns (applied: Applied)
    requires WellFormed(req) && !req.input.archiveOnLockFailure && FindKey(db, req.input.key).None?
    requires d == Decide(db, Start(db, Needs(req)), req, now) && !d.Refuse?
    ensures d.Create? && d.new_.txn.status == req.input.Status() && d.new_.txn.key == req.input.key
    ensures d.new_.postings == applied.postings && d.changed == applied.changed
    ensures RecordedAs(db.accounts, NetIn(db.accounts, map[]), req.input.postings, req.input.Status(), applied.postings)
  {
    assert d == DecideFresh(db, Lock(db, Needs(req)), map[], TruncatedRequest(req), now);
    CreatedShape(db, Lock(db, Needs(req)), map[], TruncatedRequest(req), now);
    var made := CreateParts(db, db, Lock(db, Needs(req)), map[], TruncatedRequest(req), now);
    return made.value;
  }

  lemma BalancingPosts(db: Database, in_: SettlementInput, side: Side, net: int, note: Metadata, now: Time)
    returns (t: Txn, applied: Applied)
    requires Sound(db) && net != 0
    requires PostSettlement(db, |db.settlements|, in_, side, net, note, now).1.Ok?
    ensures PostSettlement(db, |db.settlements|, in_, side, net, note, now)
         == (InsertTxn(db, t, applied.postings, applied.changed), Ok(Some(|db.txns|)))
    ensures t.status.Posted? && t.key == ForSettlement(|db.settlements|)
    ensures RecordedAs(db.accounts, NetIn(db.accounts, map[]),
                       SettlementRequest(|db.settlements|, in_, side, net, note).input.postings, Posted, applied.postings)
  {
    var req := SettlementRequest(|db.settlements|, in_, side, net, note);
    ApplySingle(db, req, now);
    SettlementKeyFresh(db, |db.settlements|);
    SettlementWellFormed(|db.settlements|, in_, side, net, note);
    var d := Decide(db, Start(db, Needs(req)), req, now);
    applied := StoredAsAsked(db, req, now, d);
    t := d.new_.txn;
  }

  lemma InsertPostsNet(db: Database, t: Txn, applied: Applied, in_: SettlementInput, side: Side, net: int, note: Metadata)
    requires net != 0 && t.status.Posted?
    requires RecordedAs(db.accounts, NetIn(db.accounts, map[]),
                        SettlementRequest(|db.settlements|, in_, side, net, note).input.postings, Posted, applied.postings)
    ensures PostsNet(db, InsertTxn(db, t, applied.postings, applied.changed), Some(|db.txns|), in_, side, net)
  {
  }

  lemma PostingIsNet(db: Database, in_: SettlementInput, side: Side, net: int, note: Metadata, now: Time)
    requires Sound(db)
    requires PostSettlement(db, |db.settlements|, in_, side, net, note, now).1.Ok?
    ensures var (posted, own) := PostSettlement(db, |db.settlements|, in_, side, net, note, now);
      PostsNet(db, posted, own.value, in_, side, net)
  {
    if net != 0 {
      var t, applied := BalancingPosts(db, in_, side, net, note, now);
      InsertPostsNet(db, t, applied, in_, side, net, note);
    }
  }

  lemma PostedSound(db: Database, in_: SettlementInput, side: Side, net: int, note: Metadata, now: Time)
    requires Sound(db)
    requires PostSettlement(db, |db.settlements|, in_, side, net, note, now).1.Ok?
    ensures Integrity(PostSettlement(db, |db.settlements|, in_, side, net, note, now).0, None)
  {
    if net != 0 {
      var req := SettlementRequest(|db.settlements|, in_, side, net, note);
      SettlementWellFormed(|db.settlements|, in_, side, net, note);
      ApplySingleSound(db, req, now);
      ApplySingle(db, req, now);
    }
  }

  // ---- what is marked ----

  lemma SameRows(db: Database, posted: Database, own: Option<TxnId>, in_: SettlementInput, side: Side, net: int)
    requires JournalStatus(db) && PostsNet(db, posted, own, in_, side, net)
    ensures forall r :: r in db.postings ==>
      Marked(posted.txns, r, in_.settled, in_.upperBound, own) == Unsettled(db.txns, r, in_.settled, in_.upperBound)
  {
    forall r | r in db.postings
      ensures Marked(posted.txns, r, in_.settled, in_.upperBound, own) == Unsettled(db.txns, r, in_.settled, in_.upperBound)
    {
      var k :| 0 <= k < |db.postings| && db.postings[k] == r;
      assert r.txn < |db.txns|;
      if net != 0 {
        assert posted.txns[r.txn] == posted.txns[..|db.txns|][r.txn];
      }
    }
  }

  /** A weight over marked rows is the weight over the rows summed, plus the settlement's own row. */
  lemma MarkedSum(db: Database, posted: Database, own: Option<TxnId>, in_: SettlementInput, side: Side, net: int,
                  over: PostingRow -> int, marked: PostingRow -> int, summed: PostingRow -> int)
    requires JournalStatus(db) && PostsNet(db, posted, own, in_, side, net) && in_.settled != in_.contra
    requires forall r :: marked(r) == if Marked(posted.txns, r, in_.settled, in_.upperBound, own) then over(r) else 0
    requires forall r :: summed(r) == if Unsettled(db.txns, r, in_.settled, in_.upperBound) then over(r) else 0
    ensures Sum(posted.postings, marked)
         == Sum(db.postings, summed) + (if net == 0 then 0 else over(posted.postings[|db.postings|]))
  {
    SameRows(db, posted, own, in_, side, net);
    SumSame(db.postings, marked, summed);
    if net != 0 {
      var n := |db.postings|;
      var r0, r1 := posted.postings[n], posted.postings[n + 1];
      assert posted.postings == db.postings + [r0, r1];
      SumAppend(db.postings, [r0, r1], marked);
      SumOfTwo(r0, r1, marked);
    }
  }

  /** As many entries are marked as were summed, and the settlement's own: the mismatch is never reported. */
  lemma NeverMismatched(db: Database, posted: Database, own: Option<TxnId>, in_: SettlementInput, side: Side, net: int)
    requires JournalStatus(db) && PostsNet(db, posted, own, in_, side, net) && in_.settled != in_.contra
    ensures Sum(posted.postings, MarkedOne(posted.txns, in_.settled, in_.upperBound, own))
         == Sum(db.postings, UnsettledOne(db.txns, in_.settled, in_.upperBound)) + (if own.Some? then 1 else 0)
  {
    MarkedSum(db, posted, own, in_, side, net, (r: PostingRow) => 1,
              MarkedOne(posted.txns, in_.settled, in_.upperBound, own), UnsettledOne(db.txns, in_.settled, in_.upperBound));
  }

  function SignedOf(): PostingRow -> int {
    (r: PostingRow) => r.Signed()
  }

  function MarkedSigned(txns: seq<Txn>, account: AccountId, bound: Option<Time>, own: Option<TxnId>): PostingRow -> int {
    (r: PostingRow) => if Marked(txns, r, account, bound, own) then r.Signed() else 0
  }

  function UnsettledSigned(txns: seq<Txn>, account: AccountId, bound: Option<Time>): PostingRow -> int {
    (r: PostingRow) => if Unsettled(txns, r, account, bound) then r.Signed() else 0
  }

  lemma {:induction false} UnsettledNet(txns: seq<Txn>, rows: seq<PostingRow>, account: AccountId, bound: Option<Time>)
    ensures Sum(rows, UnsettledSigned(txns, account, bound))
         == Sum(rows, UnsettledOn(txns, account, bound, Debit)) - Sum(rows, UnsettledOn(txns, account, bound, Credit))
  {
    if rows != [] {
      UnsettledNet(txns, rows[1..], account, bound);
    }
  }

  /** What a settlement marks, its own balancing posting included, nets to zero. */
  lemma MarkedNetsToZero(db: Database, posted: Database, own: Option<TxnId>, in_: SettlementInput, side: Side,
                         debits: int, credits: int)
    requires JournalStatus(db) && in_.settled != in_.contra
    requires debits == Sum(db.postings, UnsettledOn(db.txns, in_.settled, in_.upperBound, Debit))
    requires credits == Sum(db.postings, UnsettledOn(db.txns, in_.settled, in_.upperBound, Credit))
    requires PostsNet(db, posted, own, in_, side, if side.Credit? then credits - debits else debits - credits)
    ensures Sum(posted.postings, MarkedSigned(posted.txns, in_.settled, in_.upperBound, own)) == 0
  {
    var net := if side.Credit? then credits - debits else debits - credits;
    MarkedSum(db, posted, own, in_, side, net, SignedOf(),
              MarkedSigned(posted.txns, in_.settled, in_.upperBound, own), UnsettledSigned(db.txns, in_.settled, in_.upperBound));
    UnsettledNet(db.txns, db.postings, in_.settled, in_.upperBound);
  }

  // ---- the tables once marked ----

  /** Rows that differ at most in the settlement they belong to. */
  predicate SameButSettlement(rows: seq<PostingRow>, more: seq<PostingRow>) {
    && |rows| == |more|
    && forall k :: 0 <= k < |rows| ==> more[k] == rows[k].(settlement := more[k].settlement)
  }

  lemma SameSums(rows: seq<PostingRow>, more: seq<PostingRow>)
    requires SameButSettlement(rows, more)
    ensures forall c :: Sum(more, RowIn(c)) == Sum(rows, RowIn(c))
    ensures forall a, side :: Sum(more, RowOn(a, side)) == Sum(rows, RowOn(a, side))
    ensures RunningBalance(rows) ==> RunningBalance(more)
  {
    forall c ensures Sum(more, RowIn(c)) == Sum(rows, RowIn(c)) {
      SumAligned(more, rows, RowIn(c), RowIn(c));
    }
    forall a, side ensures Sum(more, RowOn(a, side)) == Sum(rows, RowOn(a, side)) {
      SumAligned(more, rows, RowOn(a, side), RowOn(a, side));
    }
    forall k | 0 <= k < |more| && RunningBalance(rows)
      ensures more[k].balanceAfter == Sum(more[..k + 1], RowNet(more[k].account))
    {
      SumAligned(more[..k + 1], rows[..k + 1], RowNet(more[k].account), RowNet(more[k].account));
    }
  }

  lemma {:induction false} SamePosted(rows: seq<PostingRow>, more: seq<PostingRow>, id: TxnId)
    requires SameButSettlement(rows, more)
    ensures PostedOf(more, id) == PostedOf(rows, id)
  {
    if rows != [] {
      assert more[0] == rows[0].(settlement := more[0].settlement);
      SamePosted(rows[1..], more[1..], id);
    }
  }

  lemma SettledRows(db: Database, s: SettlementId, in_: SettlementInput, own: Option<TxnId>, st: Settlement)
    requires RowsWellFormed(db) && s == |db.settlements| && st.settled == in_.settled
    ensures RowsWellFormed(Settled(db, s, in_, own, st))
  {
    var after := Settled(db, s, in_, own, st);
    forall r | r in after.postings ensures JournalRow(after, r) {
      var k :| 0 <= k < |after.postings| && after.postings[k] == r;
      assert JournalRow(db, db.postings[k]);
    }
    forall e | e in after.entries ensures PendingRow(after, e) {
      assert PendingRow(db, e);
    }
  }

  lemma SettledNets(db: Database, s: SettlementId, in_: SettlementInput, own: Option<TxnId>, st: Settlement)
    requires RowsWellFormed(db) && SettlementsNet(db) && s == |db.settlements|
    requires Sum(db.postings, MarkedSigned(db.txns, in_.settled, in_.upperBound, own)) == 0
    ensures SettlementsNet(Settled(db, s, in_, own, st))
  {
    var after := Settled(db, s, in_, own, st);
    forall r | r in db.postings ensures r.settlement.Some? ==> r.settlement.value < s {
      assert JournalRow(db, r);
    }
    forall i | 0 <= i < |after.settlements| ensures Sum(after.postings, RowSettled(i)) == 0 {
      if i == s {
        SumAligned(after.postings, db.postings, RowSettled(s), MarkedSigned(db.txns, in_.settled, in_.upperBound, own));
      } else {
        SumAligned(after.postings, db.postings, RowSettled(i), RowSettled(i));
      }
    }
  }

  lemma SettledKeepsTxns(db: Database, s: SettlementId, in_: SettlementInput, own: Option<TxnId>, st: Settlement)
    requires TxnChecks(db)
    ensures TxnChecks(Settled(db, s, in_, own, st))
  {
    var after := Settled(db, s, in_, own, st);
    forall i | 0 <= i < |db.txns| ensures PostingsOf(after, i) == PostingsOf(db, i) {
      SamePosted(db.postings, after.postings, i);
    }
    forall k | 0 <= k < |after.postings| ensures after.postings[k].txn == db.postings[k].txn {
    }
  }

  lemma SettledSound(db: Database, s: SettlementId, in_: SettlementInput, own: Option<TxnId>, st: Settlement)
    requires Integrity(db, None) && s == |db.settlements| && st.settled == in_.settled
    requires Sum(db.postings, MarkedSigned(db.txns, in_.settled, in_.upperBound, own)) == 0
    ensures Integrity(Settled(db, s, in_, own, st), None)
  {
    var after := Settled(db, s, in_, own, st);
    assert SameButSettlement(db.postings, after.postings);
    SameSums(db.postings, after.postings);
    SettledRows(db, s, in_, own, st);
    SettledNets(db, s, in_, own, st);
    SettledKeepsTxns(db, s, in_, own, st);
  }

  // ---- the whole operation ----

  /** Every key that names a settlement names one below `n`. */
  predicate KeysBelow(txns: seq<Txn>, n: nat) {
    forall i :: 0 <= i < |txns| && txns[i].key.ForSettlement? ==> txns[i].key.id < n
  }

  lemma PostedKeys(db: Database, in_: SettlementInput, side: Side, net: int, note: Metadata, now: Time)
    requires Sound(db)
    requires PostSettlement(db, |db.settlements|, in_, side, net, note, now).1.Ok?
    ensures KeysBelow(PostSettlement(db, |db.settlements|, in_, side, net, note, now).0.txns, |db.settlements| + 1)
  {
    if net != 0 {
      var t, applied := BalancingPosts(db, in_, side, net, note, now);
    }
  }

  /** After the balancing transaction the tables are sound, and the entries to be marked net to zero. */
  ghost predicate Balanced(db: Database, posted: Database, own: Option<TxnId>, in_: SettlementInput) {
    && Integrity(posted, None) && posted.settlements == db.settlements
    && KeysBelow(posted.txns, |db.settlements| + 1)
    && Sum(posted.postings, MarkedSigned(posted.txns, in_.settled, in_.upperBound, own)) == 0
  }

  lemma SettlementBalances(db: Database, in_: SettlementInput, side: Side, debits: int, credits: int, net: int, note: Metadata,
                           now: Time, posted: Database, own: Option<TxnId>)
    requires Sound(db) && in_.settled != in_.contra
    requires debits == Sum(db.postings, UnsettledOn(db.txns, in_.settled, in_.upperBound, Debit))
    requires credits == Sum(db.postings, UnsettledOn(db.txns, in_.settled, in_.upperBound, Credit))
    requires net == if side.Credit? then credits - debits else debits - credits
    requires PostSettlement(db, |db.settlements|, in_, side, net, note, now) == (posted, Ok(own))
    ensures Balanced(db, posted, own, in_)
    ensures Sum(posted.postings, MarkedOne(posted.txns, in_.settled, in_.upperBound, own))
         == Sum(db.postings, UnsettledOne(db.txns, in_.settled, in_.upperBound)) + (if own.Some? then 1 else 0)
  {
    PostingIsNet(db, in_, side, net, note, now);
    PostedSound(db, in_, side, net, note, now);
    PostedKeys(db, in_, side, net, note, now);
    NeverMismatched(db, posted, own, in_, side, net);
    MarkedNetsToZero(db, posted, own, in_, side, debits, credits);
  }

  lemma PostingNeverMismatched(db: Database, in_: SettlementInput, side: Side, net: int, note: Metadata, now: Time)
    requires Sound(db)
    ensures PostSettlement(db, |db.settlements|, in_, side, net, note, now).1 != Err(SettlementMismatch)
  {
    if net != 0 {
      var req := SettlementRequest(|db.settlements|, in_, side, net, note);
      ApplySingle(db, req, now);
      var d := Decide(db, Start(db, Needs(req)), req, now);
      if d.Refuse? {
        RefusalReasons(db, req, now, d.error);
        NoMismatch(db.accounts, ChangeOf(TruncatedRequest(req)));
      }
    }
  }

  lemma SettledStaysSound(db: Database, posted: Database, own: Option<TxnId>, in_: SettlementInput, st: Settlement)
    requires Balanced(db, posted, own, in_) && st.settled == in_.settled
    ensures Sound(Settled(posted, |db.settlements|, in_, own, st))
  {
    SettledSound(posted, |db.settlements|, in_, own, st);
  }

  /** A net amount that is as summed is settled soundly, and the counts always agree. */
  lemma SettleNetSound(db: Database, in_: SettlementInput, side: Side, debits: int, credits: int, net: int, note: Metadata, now: Time)
    requires Sound(db) && in_.settled != in_.contra
    requires debits == Sum(db.postings, UnsettledOn(db.txns, in_.settled, in_.upperBound, Debit))
    requires credits == Sum(db.postings, UnsettledOn(db.txns, in_.settled, in_.upperBound, Credit))
    requires net == if side.Credit? then credits - debits else debits - credits
    ensures SettleNet(db, in_, side, net, note, now).1 != Err(SettlementMismatch)
    ensures Sound(SettleNet(db, in_, side, net, note, now).0)
  {
    var result := PostSettlement(db, |db.settlements|, in_, side, net, note, now);
    if result.1.Ok? {
      var posted, own := result.0, result.1.value;
      SettlementBalances(db, in_, side, debits, credits, net, note, now, posted, own);
      var st := SettleNet(db, in_, side, net, note, now).0.settlements[|db.settlements|];
      SettledStaysSound(db, posted, own, in_, st);
    } else {
      PostingNeverMismatched(db, in_, side, net, note, now);
    }
  }

  function Normalized(input: SettlementInput): SettlementInput {
    input.(upperBound := if input.upperBound.Some? then Some(Truncate(input.upperBound.value)) else None)
  }

  function NetUnsettled(db: Database, in_: SettlementInput): int
    requires in_.settled in db.accounts
  {
    var debits := Sum(db.postings, UnsettledOn(db.txns, in_.settled, in_.upperBound, Debit));
    var credits := Sum(db.postings, UnsettledOn(db.txns, in_.settled, in_.upperBound, Credit));
    if db.accounts[in_.settled].normalSide.Credit? then credits - debits else debits - credits
  }

  /** A settlement either changes nothing or settles the net unsettled amount of its account. */
  lemma SettleReduces(db: Database, input: SettlementInput, note: Metadata, now: Time, after: Database, r: Res<SettlementId>)
    requires Settle(db, input, note, now) == (after, r)
    ensures || (after == db && r !in {Err(SettlementMismatch), Err(ExceedsPending), Err(ExceedsHeld)})
            || (&& input.settled != input.contra && input.settled in db.accounts
                && SettlementBefore(db.settlements, input.key, |db.settlements|).None?
                && var in_ := Normalized(input);
                   (after, r) == SettleNet(db, in_, db.accounts[in_.settled].normalSide, NetUnsettled(db, in_), note, now))
  {
    hide SettleNet;
    hide Sum;
  }

  /** Settling keeps the tables sound, so every settlement's entries net to zero, and never reports a mismatch. */
  lemma SettleSound(db: Database, input: SettlementInput, note: Metadata, now: Time, after: Database, r: Res<SettlementId>)
    requires Sound(db) && Settle(db, input, note, now) == (after, r)
    ensures r != Err(SettlementMismatch) && Sound(after)
  {
    hide Sound;
    hide Settle;
    hide SettleNet;
    SettleReduces(db, input, note, now, after, r);
    if after != db || r == Err(SettlementMismatch) {
      var in_ := Normalized(input);
      var side := db.accounts[in_.settled].normalSide;
      SettleNetSound(db, in_, side,
                     Sum(db.postings, UnsettledOn(db.txns, in_.settled, in_.upperBound, Debit)),
                     Sum(db.postings, UnsettledOn(db.txns, in_.settled, in_.upperBound, Credit)),
                     NetUnsettled(db, in_), note, now);
    }
  }
}
