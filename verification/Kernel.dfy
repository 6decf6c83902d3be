/** The entities of the ledger kernel: accounts, postings, balances and the errors the kernel reports. */
module Kernel {
  import opened Wrappers
  import opened Money

  type AccountId = nat
  type LedgerId = nat
  type TxnId = nat
  type Currency = string
  type Time = int

  datatype Error =
    | NotFound
    | AccountNotOpen
    | AccountNotEmpty
    | CrossLedger
    | Invalid
    | Unbalanced
    | InsufficientFunds
    | BalanceLock
    | LockVersion
    | Overflow
    | ExceedsPending
    | ExceedsHeld
    | IdempotencyConflict
    | ExternalIdExists
    | PeriodClosed
    | NotPending
    | NotPosted
    | AlreadyReversed
    | HoldNotPending
    | BatchAborted
    | SettlementMismatch

  type Res<+T> = Result<T, Error>

  datatype Side = Debit | Credit {
    function Opposite(): Side {
      if Debit? then Credit else Debit
    }
  }

  datatype AccountStatus = Open | Frozen | Closed

  datatype Status = Pending | Posted | Archived

  datatype Account = Account(
    ledger: LedgerId,
    currency: Currency,
    normalSide: Side,
    status: AccountStatus,
    allowNegative: bool,
    overdraftLimit: int,
    postedDebits: int,
    postedCredits: int,
    pendingDebits: int,
    pendingCredits: int,
    held: int,
    version: int)

  type Accounts = map<AccountId, Account>

  datatype Balance = Balance(debits: int, credits: int, amount: int)

  datatype Balances = Balances(pending: Balance, posted: Balance, available: Balance)

  /** A balance lock: every bound that is present must hold of the balance. */
  datatype Condition = Condition(
    gt: Option<int>, gte: Option<int>, eq: Option<int>, lt: Option<int>, lte: Option<int>, notEq: Option<int>)
  {
    predicate Holds(v: int) {
      && (gt.Some? ==> v > gt.value)
      && (gte.Some? ==> v >= gte.value)
      && (eq.Some? ==> v == eq.value)
      && (lt.Some? ==> v < lt.value)
      && (lte.Some? ==> v <= lte.value)
      && (notEq.Some? ==> v != notEq.value)
    }
  }

  datatype Posting = Posting(
    account: AccountId,
    side: Side,
    amount: int,
    currency: Option<Currency>,
    pendingLock: Option<Condition>,
    postedLock: Option<Condition>,
    availableLock: Option<Condition>,
    lockVersion: Option<int>,
    balanceAfter: int,
    resulting: Option<Balances>)
  {
    function Signed(): int {
      if side.Credit? then -amount else amount
    }

    predicate LocksHold(b: Balances) {
      && (pendingLock.Some? ==> pendingLock.value.Holds(b.pending.amount))
      && (postedLock.Some? ==> postedLock.value.Holds(b.posted.amount))
      && (availableLock.Some? ==> availableLock.value.Holds(b.available.amount))
    }
  }

  /** An entry without locks, the form in which entries are read back from the store. */
  function Plain(account: AccountId, side: Side, amount: int, currency: Option<Currency>, balanceAfter: int): Posting {
    Posting(account, side, amount, currency, None, None, None, None, balanceAfter, None)
  }

  // ---- balances of one account ----

  predicate TotalsFit(a: Account) {
    && Fits(a.postedDebits) && Fits(a.postedCredits) && Fits(a.pendingDebits) && Fits(a.pendingCredits) && Fits(a.held)
  }

  function PostedNet(a: Account): Option<int> {
    Sub(a.postedDebits, a.postedCredits)
  }

  function Inflow(a: Account): int {
    if a.normalSide.Credit? then a.postedCredits else a.postedDebits
  }

  function Outflow(a: Account): int {
    if a.normalSide.Credit? then a.postedDebits else a.postedCredits
  }

  function PendingOutflow(a: Account): int {
    if a.normalSide.Credit? then a.pendingDebits else a.pendingCredits
  }

  function Available(a: Account): Option<int> {
    var out :- Add(0, Outflow(a));
    var out :- Add(out, PendingOutflow(a));
    var out :- Add(out, a.held);
    Sub(Inflow(a), out)
  }

  /** The unbounded value `Available` computes when it does not overflow. */
  function Funds(a: Account): int {
    Inflow(a) - Outflow(a) - PendingOutflow(a) - a.held
  }

  function NetBalance(normal: Side, debits: int, credits: int): Option<Balance> {
    var amount :- if normal.Credit? then Sub(credits, debits) else Sub(debits, credits);
    Some(Balance(debits, credits, amount))
  }

  function BalancesOf(a: Account): Option<Balances> {
    var pendingDebits :- Add(a.postedDebits, a.pendingDebits);
    var pendingCredits :- Add(a.postedCredits, a.pendingCredits);
    var availableCredits :- if a.normalSide.Debit? then Add(pendingCredits, a.held) else Some(a.postedCredits);
    var availableDebits :- if a.normalSide.Debit? then Some(a.postedDebits) else Add(pendingDebits, a.held);
    var posted :- NetBalance(a.normalSide, a.postedDebits, a.postedCredits);
    var pending :- NetBalance(a.normalSide, pendingDebits, pendingCredits);
    var available :- NetBalance(a.normalSide, availableDebits, availableCredits);
    Some(Balances(pending, posted, available))
  }

  /** Why a commit that turns `before` into `after` is refused, if it is. */
  function FundsError(after: Account, before: Account): Option<Error> {
    if Available(after).None? || Available(before).None? then Some(Overflow)
    else
      var now, prior := Available(after).value, Available(before).value;
      if after.allowNegative || now >= prior then None
      else if Add(now, after.overdraftLimit).None? then Some(Overflow)
      else if now + after.overdraftLimit < 0 then Some(InsufficientFunds)
      else None
  }

  /** The floor the funds check keeps: an account that may not go negative stays above its overdraft limit. */
  predicate AboveFloor(a: Account) {
    a.allowNegative || Funds(a) + a.overdraftLimit >= 0
  }
}
