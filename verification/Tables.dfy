/**
 The tables the ledger keeps and the integrity it expects of them. Rows carry their position as id:
 identity columns count up, and a fresh uuid is the next position. A journal posting belongs to at most
 one settlement (the posting is the key of that table), so its settlement is a column here.
 */
module Tables {
  import opened Wrappers
  import opened Money
  import opened Kernel
  import opened Sums
  import opened BalanceChange
  import opened BalanceEffects

  type HoldId = nat
  type SettlementId = nat
  type Metadata = string

  /** Idempotency keys: a client's text, or the type id of a freshly generated settlement, which no client can hold. */
  datatype Key = Client(text: string) | ForSettlement(id: SettlementId)

  datatype PostInput = PostInput(
    key: Key,
    description: string,
    metadata: Metadata,
    postings: seq<Posting>,
    requested: Option<Status>,
    effectiveAt: Option<Time>,
    external: Option<string>,
    archiveOnLockFailure: bool)
  {
    function Status(): Status {
      if requested.None? then Posted else requested.value
    }
  }

  datatype Txn = Txn(
    ledger: LedgerId,
    key: Key,
    external: Option<string>,
    status: Status,
    version: int,
    entriesVersion: int,
    description: string,
    metadata: Metadata,
    reverses: Option<TxnId>,
    effectiveAt: Time,
    createdAt: Time,
    request: Option<PostInput>)

  datatype PostingRow = PostingRow(
    txn: TxnId,
    account: AccountId,
    currency: Currency,
    side: Side,
    amount: int,
    balanceAfter: int,
    settlement: Option<SettlementId>)
  {
    function Signed(): int {
      if side.Credit? then -amount else amount
    }
  }

  datatype EntryRow = EntryRow(txn: TxnId, version: int, account: AccountId, currency: Currency, side: Side, amount: int)

  datatype HoldStatus = HoldPending | Captured | Voided | Expired

  datatype Hold = Hold(
    key: string,
    account: AccountId,
    currency: Currency,
    amount: int,
    status: HoldStatus,
    description: string,
    expiresAt: Time,
    captured: Option<int>,
    capture: Option<TxnId>)

  datatype Settlement = Settlement(
    key: string,
    settled: AccountId,
    contra: AccountId,
    upperBound: Option<Time>,
    amount: int,
    count: int,
    txn: Option<TxnId>,
    description: string,
    metadata: Metadata)

  datatype Database = Database(
    accounts: Accounts,
    closedBefore: map<LedgerId, Time>,
    txns: seq<Txn>,
    postings: seq<PostingRow>,
    entries: seq<EntryRow>,
    holds: seq<Hold>,
    settlements: seq<Settlement>)

  const EMPTY := Database(map[], map[], [], [], [], [], [])

  // ---- reading ----

  function PostingRead(r: PostingRow, id: TxnId): seq<Posting> {
    if r.txn == id then [Plain(r.account, r.side, r.amount, Some(r.currency), r.balanceAfter)] else []
  }

  function PostedOf(rows: seq<PostingRow>, id: TxnId): seq<Posting> {
    if rows == [] then [] else PostingRead(rows[0], id) + PostedOf(rows[1..], id)
  }

  function EntryRead(r: EntryRow, id: TxnId, version: int): seq<Posting> {
    if r.txn == id && r.version == version then [Plain(r.account, r.side, r.amount, Some(r.currency), 0)] else []
  }

  function EntriesOf(rows: seq<EntryRow>, id: TxnId, version: int): seq<Posting> {
    if rows == [] then [] else EntryRead(rows[0], id, version) + EntriesOf(rows[1..], id, version)
  }

  /** The entries of a transaction: its journal postings once posted, else its current pending entries. */
  function PostingsOf(db: Database, id: TxnId): seq<Posting>
    requires id < |db.txns|
  {
    if db.txns[id].status.Posted? then PostedOf(db.postings, id)
    else EntriesOf(db.entries, id, db.txns[id].entriesVersion)
  }

  /** The last transaction before position `n` that holds a key. */
  function KeyBefore(txns: seq<Txn>, key: Key, n: nat): Option<TxnId>
    requires n <= |txns|
  {
    if n == 0 then None
    else if txns[n - 1].key == key then Some(n - 1)
    else KeyBefore(txns, key, n - 1)
  }

  function FindKey(db: Database, key: Key): Option<TxnId> {
    KeyBefore(db.txns, key, |db.txns|)
  }

  function ExternalBefore(txns: seq<Txn>, ledger: LedgerId, external: string, n: nat): Option<Key>
    requires n <= |txns|
  {
    if n == 0 then None
    else if txns[n - 1].ledger == ledger && txns[n - 1].external == Some(external) then Some(txns[n - 1].key)
    else ExternalBefore(txns, ledger, external, n - 1)
  }

  function FindExternal(db: Database, ledger: LedgerId, external: string): Option<Key> {
    ExternalBefore(db.txns, ledger, external, |db.txns|)
  }

  // ---- writing ----

  function Code(c: Option<Currency>): Currency {
    if c.Some? then c.value else ""
  }

  function RowFor(id: TxnId, p: Posting): PostingRow {
    PostingRow(id, p.account, Code(p.currency), p.side, p.amount, p.balanceAfter, None)
  }

  function RowsFor(id: TxnId, ps: seq<Posting>): seq<PostingRow> {
    seq(|ps|, i requires 0 <= i < |ps| => RowFor(id, ps[i]))
  }

  function EntryFor(id: TxnId, version: int, p: Posting): EntryRow {
    EntryRow(id, version, p.account, Code(p.currency), p.side, p.amount)
  }

  function EntriesFor(id: TxnId, version: int, ps: seq<Posting>): seq<EntryRow> {
    seq(|ps|, i requires 0 <= i < |ps| => EntryFor(id, version, ps[i]))
  }

  /** Inserts a transaction with its entries and writes back the accounts it changed. */
  function InsertTxn(db: Database, t: Txn, ps: seq<Posting>, changed: Accounts): Database {
    var id := |db.txns|;
    db.(accounts := db.accounts + changed,
        txns := db.txns + [t],
        postings := if t.status.Posted? then db.postings + RowsFor(id, ps) else db.postings,
        entries := if t.status.Posted? then db.entries else db.entries + EntriesFor(id, 1, ps))
  }

  /** Rewrites a pending transaction; entries are added only as it posts or takes a new version of its entries. */
  function RewriteTxn(db: Database, id: TxnId, t: Txn, ps: seq<Posting>, changed: Accounts): Database
    requires id < |db.txns|
  {
    db.(accounts := db.accounts + changed,
        txns := db.txns[id := t],
        postings := if t.status.Posted? then db.postings + RowsFor(id, ps) else db.postings,
        entries := if !t.status.Posted? && t.entriesVersion == t.version
                   then db.entries + EntriesFor(id, t.version, ps) else db.entries)
  }

  // ---- the integrity checks ----

  function RowOn(id: AccountId, side: Side): PostingRow -> int {
    (r: PostingRow) => if r.account == id && r.side == side then r.amount else 0
  }

  function RowNet(id: AccountId): PostingRow -> int {
    (r: PostingRow) => if r.account == id then r.Signed() else 0
  }

  function RowIn(c: Currency): PostingRow -> int {
    (r: PostingRow) => if r.currency == c then r.Signed() else 0
  }

  function RowSettled(s: SettlementId): PostingRow -> int {
    (r: PostingRow) => if r.settlement == Some(s) then r.Signed() else 0
  }

  predicate Live(txns: seq<Txn>, e: EntryRow) {
    e.txn < |txns| && txns[e.txn].status.Pending? && e.version == txns[e.txn].entriesVersion
  }

  function LiveOn(txns: seq<Txn>, id: AccountId, side: Side): EntryRow -> int {
    (e: EntryRow) => if Live(txns, e) && e.account == id && e.side == side then e.amount else 0
  }

  function HeldOn(id: AccountId): Hold -> int {
    (h: Hold) => if h.status.HoldPending? && h.account == id then h.amount else 0
  }

  /** "trial balance": in every currency all debits equal all credits. */
  ghost predicate TrialBalance(db: Database) {
    forall c: Currency :: Sum(db.postings, RowIn(c)) == 0
  }

  /** "empty transactions" */
  predicate NoEmptyTransactions(db: Database) {
    forall i :: 0 <= i < |db.txns| ==> PostingsOf(db, i) != []
  }

  /** "journal status" */
  predicate JournalStatus(db: Database) {
    forall k :: 0 <= k < |db.postings| ==> db.postings[k].txn < |db.txns| && db.txns[db.postings[k].txn].status.Posted?
  }

  /** "posted totals" */
  predicate PostedTotals(db: Database) {
    forall a :: a in db.accounts ==>
      && db.accounts[a].postedDebits == Sum(db.postings, RowOn(a, Debit))
      && db.accounts[a].postedCredits == Sum(db.postings, RowOn(a, Credit))
  }

  /** "pending totals" */
  predicate PendingTotals(db: Database) {
    forall a :: a in db.accounts ==>
      && db.accounts[a].pendingDebits == Sum(db.entries, LiveOn(db.txns, a, Debit))
      && db.accounts[a].pendingCredits == Sum(db.entries, LiveOn(db.txns, a, Credit))
  }

  function Owed(due: Option<Release>, a: AccountId): int {
    if due.Some? && due.value.account == a then due.value.amount else 0
  }

  /** "held funds", up to one release already taken from the account whose hold is still to be resolved. */
  predicate HeldFunds(db: Database, due: Option<Release>) {
    forall a :: a in db.accounts ==> db.accounts[a].held + Owed(due, a) == Sum(db.holds, HeldOn(a))
  }

  /** "settlements": the entries of every settlement net to zero. */
  predicate SettlementsNet(db: Database) {
    forall s :: 0 <= s < |db.settlements| ==> Sum(db.postings, RowSettled(s)) == 0
  }

  /** "running balance", of every posting and not only the last: it leaves the sum of the account's postings so far. */
  predicate RunningBalance(rows: seq<PostingRow>) {
    forall k :: 0 <= k < |rows| ==> rows[k].balanceAfter == Sum(rows[..k + 1], RowNet(rows[k].account))
  }

  // ---- what the checks rest on ----

  predicate JournalRow(db: Database, r: PostingRow) {
    && r.account in db.accounts && r.amount > 0
    && r.currency == db.accounts[r.account].currency
    && (r.settlement.Some? ==>
          r.settlement.value < |db.settlements| && r.account == db.settlements[r.settlement.value].settled)
  }

  predicate PendingRow(db: Database, e: EntryRow) {
    && e.account in db.accounts && e.amount > 0
    && e.currency == db.accounts[e.account].currency
    && e.txn < |db.txns| && e.version <= db.txns[e.txn].version
  }

  predicate RowsWellFormed(db: Database) {
    && (forall r :: r in db.postings ==> JournalRow(db, r))
    && (forall e :: e in db.entries ==> PendingRow(db, e))
    && (forall h :: h in db.holds ==> h.account in db.accounts && h.amount > 0)
    && (forall i :: 0 <= i < |db.txns| ==> db.txns[i].entriesVersion <= db.txns[i].version)
  }

  predicate Computable(a: Account) {
    && 0 <= a.overdraftLimit
    && TotalsFit(a)
    && Available(a) == Some(Funds(a))
  }

  predicate AccountsSound(db: Database) {
    forall a :: a in db.accounts ==> Computable(db.accounts[a]) && AboveFloor(db.accounts[a])
  }

  /** A closed account is empty. */
  predicate ClosedEmpty(db: Database) {
    forall a :: a in db.accounts && db.accounts[a].status.Closed? ==> Empty(db.accounts[a])
  }

  predicate Empty(a: Account) {
    a.postedDebits == a.postedCredits && a.pendingDebits == 0 && a.pendingCredits == 0 && a.held == 0
  }

  predicate KeysUnique(db: Database) {
    forall i, j :: 0 <= i < j < |db.txns| ==> db.txns[i].key != db.txns[j].key
  }

  predicate SettlementKeysKnown(db: Database) {
    forall i :: 0 <= i < |db.txns| ==> db.txns[i].key.ForSettlement? ==> db.txns[i].key.id < |db.settlements|
  }

  predicate ReversedOnce(db: Database) {
    forall i, j :: 0 <= i < j < |db.txns| ==> db.txns[i].reverses.Some? ==> db.txns[i].reverses != db.txns[j].reverses
  }

  /** An external id names at most one transaction of a ledger. */
  predicate ExternalsUnique(db: Database) {
    forall i, j :: 0 <= i < j < |db.txns| ==>
      db.txns[i].external.Some? && db.txns[i].ledger == db.txns[j].ledger ==> db.txns[i].external != db.txns[j].external
  }

  /** The checks that speak of amounts. */
  ghost predicate MoneyChecks(db: Database, due: Option<Release>) {
    && TrialBalance(db)
    && PostedTotals(db)
    && PendingTotals(db)
    && HeldFunds(db, due)
    && SettlementsNet(db)
    && RunningBalance(db.postings)
    && RowsWellFormed(db)
    && AccountsSound(db)
    && ClosedEmpty(db)
  }

  /** The checks that speak of which transactions there are. */
  predicate TxnChecks(db: Database) {
    && NoEmptyTransactions(db)
    && JournalStatus(db)
    && KeysUnique(db)
    && ExternalsUnique(db)
    && ReversedOnce(db)
  }

  /** Everything the integrity report looks for, and what keeps it so. */
  ghost predicate Integrity(db: Database, due: Option<Release>) {
    MoneyChecks(db, due) && TxnChecks(db)
  }

  ghost predicate Sound(db: Database) {
    Integrity(db, None) && SettlementKeysKnown(db)
  }
}
