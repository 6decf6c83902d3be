/** Exactly which postings a settlement settles, for what amount, and when it is made. */
module SettlementSelections {
  import opened Wrappers
  import opened Money
  import opened Kernel
  import opened Sums
  import opened BalanceChange
  import opened BalanceEffects
  import opened Tables
  import opened Preservation
  import opened TableWrites
  import opened Engine
  import opened EngineSound
  import opened Settling
  import opened SettlementOutcomes
  import opened ErrorsRuledOut
  import opened Acceptance
  import opened RequestOutcomes
  import opened EditOutcomes

  /** The cut-off in whole microseconds. */
  function Cutoff(input: SettlementInput): Option<Time> {
    if input.upperBound.Some? then Some(input.upperBound.value - input.upperBound.value % 1000) else None
  }

  /** A row is due: on the account, in no settlement, and of a transaction effective before the cut-off, if there is one. */
  predicate Due(txns: seq<Txn>, r: PostingRow, account: AccountId, cutoff: Option<Time>) {
    && r.account == account && r.settlement == None
    && (cutoff.Some? ==> r.txn < |txns| && txns[r.txn].effectiveAt < cutoff.value)
  }

  function DueOn(txns: seq<Txn>, account: AccountId, cutoff: Option<Time>, side: Side): PostingRow -> int {
    (r: PostingRow) => if Due(txns, r, account, cutoff) && r.side == side then r.amount else 0
  }

  /** What is due on an account, on its normal side less the other. */
  function DueNet(db: Database, account: AccountId, cutoff: Option<Time>): int
    requires account in db.accounts
  {
    var side := db.accounts[account].normalSide;
    Sum(db.postings, DueOn(db.txns, account, cutoff, side)) - Sum(db.postings, DueOn(db.txns, account, cutoff, side.Opposite()))
  }

  predicate IsDue(db: Database, k: nat, account: AccountId, cutoff: Option<Time>)
    requires k < |db.postings|
  {
    Due(db.txns, db.postings[k], account, cutoff)
  }

  function CountDue(db: Database, account: AccountId, cutoff: Option<Time>): nat {
    |DuePositions(db.txns, db.postings, account, cutoff)|
  }

  function DuePositions(txns: seq<Txn>, rows: seq<PostingRow>, account: AccountId, cutoff: Option<Time>): set<nat> {
    set k: nat | k < |rows| && Due(txns, rows[k], account, cutoff)
  }

  // ---- the code's queries select what is due ----

  lemma BeforeIsDue(txns: seq<Txn>, r: PostingRow, account: AccountId, cutoff: Option<Time>)
    ensures Unsettled(txns, r, account, cutoff) <==> Due(txns, r, account, cutoff)
  {
  }

  lemma SumsAreDue(db: Database, account: AccountId, cutoff: Option<Time>, side: Side)
    ensures Sum(db.postings, UnsettledOn(db.txns, account, cutoff, side)) == Sum(db.postings, DueOn(db.txns, account, cutoff, side))
  {
    SumSame(db.postings, UnsettledOn(db.txns, account, cutoff, side), DueOn(db.txns, account, cutoff, side));
  }

  lemma {:induction false} CountIs(txns: seq<Txn>, rows: seq<PostingRow>, account: AccountId, cutoff: Option<Time>)
    ensures Sum(rows, UnsettledOne(txns, account, cutoff)) == |DuePositions(txns, rows, account, cutoff)|
  {
    if rows != [] {
      var last := |rows| - 1;
      CountIs(txns, rows[..last], account, cutoff);
      SumAppend(rows[..last], [rows[last]], UnsettledOne(txns, account, cutoff));
      SumOfOne(rows[last], UnsettledOne(txns, account, cutoff));
      BeforeIsDue(txns, rows[last], account, cutoff);
      assert rows == rows[..last] + [rows[last]];
      OneMorePosition(txns, rows[..last], rows[last], account, cutoff);
    }
  }

  lemma OneMorePosition(txns: seq<Txn>, rows: seq<PostingRow>, r: PostingRow, account: AccountId, cutoff: Option<Time>)
    ensures |DuePositions(txns, rows + [r], account, cutoff)|
         == |DuePositions(txns, rows, account, cutoff)| + (if Due(txns, r, account, cutoff) then 1 else 0)
  {
    hide Due;
    var less, all := DuePositions(txns, rows, account, cutoff), DuePositions(txns, rows + [r], account, cutoff);
    assert |rows| !in less;
    if Due(txns, r, account, cutoff) {
      assert all == less + {|rows|};
    } else {
      assert all == less;
    }
  }

  // ---- what is settled ----

  /** The settlement is recorded as asked for, with the sum and the number of what is due. */
  ghost predicate RecordedAsAsked(db: Database, st: Settlement, input: SettlementInput) {
    && st.key == input.key && st.settled == input.settled && st.contra == input.contra
    && st.upperBound == Cutoff(input) && st.description == input.description && st.metadata == input.metadata
    && input.settled in db.accounts
    && st.amount == DueNet(db, input.settled, Cutoff(input))
    && st.count == CountDue(db, input.settled, Cutoff(input))
  }

  /**
   Of the rows there were, exactly those due now carry the settlement, every other one what it carried; of the two rows
   of the balancing transaction the settled account's carries it and the contra account's none.
   */
  ghost predicate Marks(db: Database, after: Database, input: SettlementInput, s: SettlementId, own: Option<TxnId>) {
    var n := |db.postings|;
    && |after.postings| == n + (if own.Some? then 2 else 0)
    && (forall k :: 0 <= k < n ==>
          after.postings[k] == db.postings[k].(settlement :=
            if IsDue(db, k, input.settled, Cutoff(input)) then Some(s) else db.postings[k].settlement))
    && (own.Some? ==>
          && after.postings[n].txn == own.value && after.postings[n].account == input.settled
          && after.postings[n].settlement == Some(s)
          && after.postings[n + 1].account == input.contra && after.postings[n + 1].settlement == None)
  }

  lemma MarkedRows(db: Database, posted: Database, own: Option<TxnId>, in_: SettlementInput, side: Side, net: int, s: SettlementId,
                   st: Settlement)
    requires JournalStatus(db) && PostsNet(db, posted, own, in_, side, net) && in_.settled != in_.contra
    requires in_.upperBound == Cutoff(in_)
    ensures Marks(db, Settled(posted, s, in_, own, st), in_, s, own)
  {
    SameRows(db, posted, own, in_, side, net);
    var after, n := Settled(posted, s, in_, own, st), |db.postings|;
    forall k | 0 <= k < n
      ensures after.postings[k] == db.postings[k].(settlement :=
        if IsDue(db, k, in_.settled, Cutoff(in_)) then Some(s) else db.postings[k].settlement)
    {
      assert posted.postings[k] == db.postings[k] by {
        if net != 0 {
          assert posted.postings[k] == posted.postings[..n][k];
        }
      }
      assert db.postings[k] in db.postings;
      BeforeIsDue(db.txns, db.postings[k], in_.settled, in_.upperBound);
    }
  }

  /** What a new settlement of a sound ledger needs: two accounts alike, and a balancing transaction that is accepted. */
  ghost predicate Settleable(db: Database, input: SettlementInput, now: Time) {
    && input.settled != input.contra && input.settled in db.accounts && input.contra in db.accounts
    && db.accounts[input.settled].ledger == db.accounts[input.contra].ledger
    && db.accounts[input.settled].currency == db.accounts[input.contra].currency
    && var net := DueNet(db, input.settled, Cutoff(input));
       net != 0 ==>
         && (db.accounts[input.settled].ledger in db.closedBefore ==> now >= db.closedBefore[db.accounts[input.settled].ledger])
         && Accepted(db.accounts, Balancing(db, input, net))
  }

  /** The change that takes a net amount off the settled account's normal side and puts it on the contra account. */
  function Balancing(db: Database, input: SettlementInput, net: int): Change
    requires input.settled in db.accounts
  {
    var normal := db.accounts[input.settled].normalSide;
    var (side, amount) := if net < 0 then (normal, -net) else (normal.Opposite(), net);
    Change(None, [], [Plain(input.settled, side, amount, None, 0), Plain(input.contra, side.Opposite(), amount, None, 0)], Posted, None)
  }

  /** The balancing transaction is posted under the settlement's own key, now, and moves the two accounts; or nothing is. */
  ghost predicate Balances(db: Database, after: Database, input: SettlementInput, net: int, note: Metadata, now: Time)
    requires input.settled in db.accounts
  {
    if net == 0 then after.txns == db.txns && after.accounts == db.accounts
    else
      && |after.txns| == |db.txns| + 1 && after.txns[..|db.txns|] == db.txns
      && AccountsMove(db.accounts, after.accounts, Balancing(db, input, net))
      && var t := after.txns[|db.txns|];
         && t.key == ForSettlement(|db.settlements|) && t.status == Posted && t.ledger == db.accounts[input.settled].ledger
         && t.description == input.description && t.metadata == note && t.external == None && t.reverses == None
         && t.effectiveAt == now && t.createdAt == now
  }

  ghost predicate NewSettlementKey(db: Database, key: string) {
    forall s :: 0 <= s < |db.settlements| ==> db.settlements[s].key != key
  }

  /** Due amounts are part of the posted totals, so their sums are amounts. */
  lemma DueInBound(db: Database, account: AccountId, cutoff: Option<Time>, side: Side)
    requires MoneyChecks(db, None) && account in db.accounts
    ensures 0 <= Sum(db.postings, UnsettledOn(db.txns, account, cutoff, side)) <= MAX_AMOUNT
  {
    forall r | r in db.postings
      ensures 0 <= UnsettledOn(db.txns, account, cutoff, side)(r) <= RowOn(account, side)(r)
    {
      assert JournalRow(db, r);
    }
    SumNonNegative(db.postings, UnsettledOn(db.txns, account, cutoff, side));
    SumMonotone(db.postings, UnsettledOn(db.txns, account, cutoff, side), RowOn(account, side));
    SoundIsOrdinary(db);
    assert Ordinary(db.accounts[account]);
  }

  lemma BalancingDecided(db: Database, input: SettlementInput, in_: SettlementInput, net: int, note: Metadata, now: Time)
    requires Sound(db) && net != 0 && in_ == Normalized(input) && input.settled in db.accounts
    ensures PostSettlement(db, |db.settlements|, in_, db.accounts[input.settled].normalSide, net, note, now).1.Ok? <==>
      && (db.accounts[input.settled].ledger in db.closedBefore ==> now >= db.closedBefore[db.accounts[input.settled].ledger])
      && Accepted(db.accounts, Balancing(db, input, net))
    ensures var (posted, own) := PostSettlement(db, |db.settlements|, in_, db.accounts[input.settled].normalSide, net, note, now);
      own.Ok? ==> Balances(db, posted, input, net, note, now)
  {
    hide Transition;
    hide Accepted;
    hide Apply;
    hide Done;
    var side := db.accounts[input.settled].normalSide;
    var req := SettlementRequest(|db.settlements|, in_, side, net, note);
    SettlementWellFormed(|db.settlements|, in_, side, net, note);
    KeyIsNew(db);
    SingleOk(db, req, now);
    AcceptedWhen(db, Balancing(db, input, net));
    hide Sound;
    if Apply(db, [req], true, now).1[0].Created? {
      DoneBalances(db, input, in_, net, note, now, Apply(db, [req], true, now).0);
    }
  }

  lemma DoneBalances(db: Database, input: SettlementInput, in_: SettlementInput, net: int, note: Metadata, now: Time, posted: Database)
    requires net != 0 && in_ == Normalized(input) && input.settled in db.accounts
    requires Done(db, posted, SettlementRequest(|db.settlements|, in_, db.accounts[input.settled].normalSide, net, note), now)
    ensures Balances(db, posted, input, net, note, now)
  {
    hide AccountsMove;
    hide PostingsOf;
    var req := SettlementRequest(|db.settlements|, in_, db.accounts[input.settled].normalSide, net, note);
    assert Asked(req) == Balancing(db, input, net);
  }

  lemma KeyIsNew(db: Database)
    requires Sound(db)
    ensures NewKey(db, ForSettlement(|db.settlements|))
  {
  }

  /** Settling under a new key succeeds exactly if it can, and then settles exactly what is due. */
  lemma SettleExact(db: Database, input: SettlementInput, note: Metadata, now: Time)
    requires Sound(db) && NewSettlementKey(db, input.key)
    ensures var (after, r) := Settle(db, input, note, now);
      && (r.Ok? <==> Settleable(db, input, now))
      && (r.Err? ==> after == db)
      && (r.Ok? ==>
            && r.value == |db.settlements| && |after.settlements| == |db.settlements| + 1
            && after.settlements[..|db.settlements|] == db.settlements
            && RecordedAsAsked(db, after.settlements[|db.settlements|], input)
            && Marks(db, after, input, |db.settlements|, after.settlements[|db.settlements|].txn)
            && Balances(db, after, input, DueNet(db, input.settled, Cutoff(input)), note, now)
            && (after.settlements[|db.settlements|].txn
                == if DueNet(db, input.settled, Cutoff(input)) == 0 then None else Some(|db.txns|)))
  {
    hide Sum;
    hide PostSettlement;
    hide Sound;
    hide Marks;
    hide Balances;
    hide SettleNet;
    SettlementFound(db.settlements, input.key, |db.settlements|);
    if input.settled != input.contra && input.settled in db.accounts && input.contra in db.accounts {
      NetIsDue(db, input);
      var net := DueNet(db, input.settled, Cutoff(input));
      SettlesNet(db, input, net, note, now);
    }
  }

  lemma AcceptedWhen(db: Database, c: Change)
    requires Sound(db) && Positive(c)
    ensures Transition(db.accounts, c).Ok? <==> Accepted(db.accounts, c)
  {
    hide Transition;
    SoundIsOrdinary(db);
    TransitionExact(db.accounts, c);
  }

  lemma NetIsDue(db: Database, input: SettlementInput)
    requires Sound(db) && input.settled in db.accounts
    ensures var in_, a := Normalized(input), db.accounts[input.settled];
      var debits := Sum(db.postings, UnsettledOn(db.txns, in_.settled, in_.upperBound, Debit));
      var credits := Sum(db.postings, UnsettledOn(db.txns, in_.settled, in_.upperBound, Credit));
      && in_.upperBound == Cutoff(input) && InBound(debits) && InBound(credits)
      && NetBalance(a.normalSide, debits, credits) == Some(Balance(debits, credits, DueNet(db, input.settled, Cutoff(input))))
      && DueNet(db, input.settled, Cutoff(input)) == if a.normalSide.Credit? then credits - debits else debits - credits
  {
    var cutoff := Cutoff(input);
    SumsAreDue(db, input.settled, cutoff, Debit);
    SumsAreDue(db, input.settled, cutoff, Credit);
    DueInBound(db, input.settled, cutoff, Debit);
    DueInBound(db, input.settled, cutoff, Credit);
  }

  lemma SettlesNet(db: Database, input: SettlementInput, net: int, note: Metadata, now: Time)
    requires Sound(db) && input.settled in db.accounts && input.contra in db.accounts && input.settled != input.contra
    requires net == DueNet(db, input.settled, Cutoff(input))
    ensures var in_ := Normalized(input);
      var side := db.accounts[input.settled].normalSide;
      var (after, r) := SettleNet(db, in_, side, net, note, now);
      && (r.Ok? <==> (net != 0 ==>
            && (db.accounts[input.settled].ledger in db.closedBefore ==> now >= db.closedBefore[db.accounts[input.settled].ledger])
            && Accepted(db.accounts, Balancing(db, input, net))))
      && (r.Err? ==> after == db)
      && (r.Ok? ==>
            && r.value == |db.settlements| && |after.settlements| == |db.settlements| + 1
            && after.settlements[..|db.settlements|] == db.settlements
            && RecordedAsAsked(db, after.settlements[|db.settlements|], input)
            && Marks(db, after, input, |db.settlements|, after.settlements[|db.settlements|].txn)
            && Balances(db, after, input, net, note, now)
            && after.settlements[|db.settlements|].txn == if net == 0 then None else Some(|db.txns|))
  {
    hide Sum;
    hide PostSettlement;
    hide Accepted;
    hide Balances;
    hide Marks;
    hide Settled;
    var in_ := Normalized(input);
    var side := db.accounts[input.settled].normalSide;
    var result := PostSettlement(db, |db.settlements|, in_, side, net, note, now);
    if net != 0 {
      BalancingDecided(db, input, in_, net, note, now);
    } else {
      NothingToPost(db, input, in_, side, note, now);
    }
    CountIs(db.txns, db.postings, input.settled, Cutoff(input));
    if result.1.Ok? {
      PostingIsNet(db, in_, side, net, note, now);
      JournalOf(db);
      SettledMarks(db, input, in_, side, net, note, now, result.0, result.1.value);
    }
    hide Sound;
  }

  lemma NothingToPost(db: Database, input: SettlementInput, in_: SettlementInput, side: Side, note: Metadata, now: Time)
    requires input.settled in db.accounts
    ensures PostSettlement(db, |db.settlements|, in_, side, 0, note, now) == (db, Ok(None))
    ensures Balances(db, db, input, 0, note, now)
  {
  }

  lemma SettledMarks(db: Database, input: SettlementInput, in_: SettlementInput, side: Side, net: int, note: Metadata, now: Time,
                     posted: Database, own: Option<TxnId>)
    requires JournalStatus(db) && in_ == Normalized(input) && input.settled != input.contra
    requires PostsNet(db, posted, own, in_, side, net)
    requires input.settled in db.accounts && Balances(db, posted, input, net, note, now)
    ensures forall st :: Balances(db, Settled(posted, |db.settlements|, in_, own, st), input, net, note, now)
    ensures forall st :: Settled(posted, |db.settlements|, in_, own, st).settlements == db.settlements + [st]
    ensures posted.settlements == db.settlements && own == (if net == 0 then None else Some(|db.txns|))
    ensures forall st :: Marks(db, Settled(posted, |db.settlements|, in_, own, st), input, |db.settlements|, own)
    ensures Sum(posted.postings, MarkedOne(posted.txns, in_.settled, in_.upperBound, own))
         == Sum(db.postings, UnsettledOne(db.txns, in_.settled, in_.upperBound)) + (if own.Some? then 1 else 0)
  {
    hide Balances;
    hide Marks;
    hide Sum;
    hide JournalStatus;
    hide OwnRow;
    SettledKeeps(db, posted, input, in_, net, note, now, own);
    hide Settled;
    NeverMismatched(db, posted, own, in_, side, net);
    forall st ensures Marks(db, Settled(posted, |db.settlements|, in_, own, st), input, |db.settlements|, own) {
      MarkedRows(db, posted, own, in_, side, net, |db.settlements|, st);
      MarksAlike(db, Settled(posted, |db.settlements|, in_, own, st), input, in_, |db.settlements|, own);
    }
  }

  /** Marking changes no transaction and no account. */
  lemma SettledKeeps(db: Database, posted: Database, input: SettlementInput, in_: SettlementInput, net: int, note: Metadata, now: Time,
                     own: Option<TxnId>)
    requires input.settled in db.accounts && Balances(db, posted, input, net, note, now) && posted.settlements == db.settlements
    ensures forall st :: Balances(db, Settled(posted, |db.settlements|, in_, own, st), input, net, note, now)
    ensures forall st :: Settled(posted, |db.settlements|, in_, own, st).settlements == db.settlements + [st]
  {
    hide AccountsMove;
    hide Balancing;
    hide Mark;
  }

  lemma JournalOf(db: Database)
    requires Sound(db)
    ensures JournalStatus(db)
  {
  }

  lemma MarksAlike(db: Database, after: Database, input: SettlementInput, in_: SettlementInput, s: SettlementId, own: Option<TxnId>)
    requires in_ == Normalized(input) && Marks(db, after, in_, s, own)
    ensures Marks(db, after, input, s, own)
  {
    assert Cutoff(in_) == Cutoff(input);
  }
}
