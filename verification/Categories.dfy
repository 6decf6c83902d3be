/** The category graph: nesting never makes a cycle or a chain of more than seven categories. */
module Categories {
  import opened Wrappers
  import opened Money
  import opened Kernel
  import opened Sums

  const MAX_DEPTH := 7

  type Id = nat
  type Edge = (Id, Id)

  datatype Category = Category(ledger: LedgerId, currency: Currency, normalSide: Side)

  datatype GraphError = Unknown | Mismatch | Cycle | Depth

  /** Consecutive categories of a path are nested, parent first. */
  predicate Path(edges: set<Edge>, p: seq<Id>) {
    p != [] && forall i :: 0 <= i < |p| - 1 ==> (p[i], p[i + 1]) in edges
  }

  /** No chain is longer than seven categories. */
  ghost predicate Shallow(edges: set<Edge>) {
    forall p: seq<Id> :: Path(edges, p) ==> |p| <= MAX_DEPTH
  }

  // ---- the two searches, level by level, as the recursive queries unfold ----

  /** The categories `n` steps below one, or above it. */
  function Level(edges: set<Edge>, start: Id, n: nat, down: bool): set<Id> {
    if n == 0 then {start}
    else
      var before := Level(edges, start, n - 1, down);
      if down then set e | e in edges && e.0 in before :: e.1 else set e | e in edges && e.1 in before :: e.0
  }

  /** The deepest nonempty level among those `n` steps or fewer away, counting the start as one. */
  function DeepestWithin(edges: set<Edge>, start: Id, n: nat, down: bool): nat {
    if n == 0 || Level(edges, start, n, down) != {} then n + 1 else DeepestWithin(edges, start, n - 1, down)
  }

  /** The queries go on from rows of depth seven or less, so they stop at depth eight. */
  function Extent(edges: set<Edge>, start: Id, down: bool): nat {
    DeepestWithin(edges, start, MAX_DEPTH, down)
  }

  predicate FoundBelow(edges: set<Edge>, start: Id, target: Id) {
    exists n :: 0 <= n <= MAX_DEPTH && target in Level(edges, start, n, true)
  }

  // ---- levels are paths ----

  /** A path of `n` steps away from the start to another category. */
  predicate Joins(edges: set<Edge>, p: seq<Id>, start: Id, end: Id, down: bool) {
    Path(edges, p) && (if down then p[0] == start && p[|p| - 1] == end else p[0] == end && p[|p| - 1] == start)
  }

  lemma {:induction false} LevelHasPath(edges: set<Edge>, start: Id, n: nat, down: bool, x: Id) returns (p: seq<Id>)
    requires x in Level(edges, start, n, down)
    ensures |p| == n + 1 && Joins(edges, p, start, x, down)
  {
    if n == 0 {
      return [start];
    }
    if down {
      var e :| e in edges && e.0 in Level(edges, start, n - 1, down) && e.1 == x;
      var q := LevelHasPath(edges, start, n - 1, down, e.0);
      p := q + [x];
    } else {
      var e :| e in edges && e.1 in Level(edges, start, n - 1, down) && e.0 == x;
      var q := LevelHasPath(edges, start, n - 1, down, e.1);
      p := [x] + q;
    }
  }

  lemma {:induction false} PathInLevel(edges: set<Edge>, p: seq<Id>, start: Id, end: Id, down: bool)
    requires Joins(edges, p, start, end, down)
    ensures end in Level(edges, start, |p| - 1, down)
    decreases |p|
  {
    if |p| > 1 {
      if down {
        var q := p[..|p| - 1];
        assert (p[|p| - 2], p[|p| - 1]) in edges;
        PathInLevel(edges, q, start, q[|q| - 1], down);
      } else {
        var q := p[1..];
        assert (p[0], p[1]) in edges;
        PathInLevel(edges, q, start, q[0], down);
      }
    }
  }

  lemma {:induction false} DeepestIsLevel(edges: set<Edge>, start: Id, n: nat, down: bool)
    ensures var d := DeepestWithin(edges, start, n, down);
      1 <= d <= n + 1 && Level(edges, start, d - 1, down) != {}
    ensures forall m :: DeepestWithin(edges, start, n, down) <= m <= n ==> Level(edges, start, m, down) == {}
  {
    if n > 0 {
      DeepestIsLevel(edges, start, n - 1, down);
    }
  }

  /** In a shallow graph the extent is the number of categories on the longest path away from the start. */
  lemma ExtentExact(edges: set<Edge>, start: Id, down: bool) returns (longest: seq<Id>)
    requires Shallow(edges)
    ensures |longest| == Extent(edges, start, down) > 0
    ensures Joins(edges, longest, start, if down then longest[|longest| - 1] else longest[0], down)
    ensures forall p, end :: Joins(edges, p, start, end, down) ==> |p| <= Extent(edges, start, down)
  {
    DeepestIsLevel(edges, start, MAX_DEPTH, down);
    var d := Extent(edges, start, down);
    var x :| x in Level(edges, start, d - 1, down);
    longest := LevelHasPath(edges, start, d - 1, down, x);
    forall p, end | Joins(edges, p, start, end, down) ensures |p| <= d {
      PathInLevel(edges, p, start, end, down);
    }
  }

  /** The truncated search misses no cycle: it finds the parent below the child exactly when a path leads there. */
  lemma FoundExact(edges: set<Edge>, start: Id, target: Id)
    requires Shallow(edges)
    ensures FoundBelow(edges, start, target) <==> exists p :: Joins(edges, p, start, target, true)
  {
    if FoundBelow(edges, start, target) {
      var n :| 0 <= n <= MAX_DEPTH && target in Level(edges, start, n, true);
      var p := LevelHasPath(edges, start, n, true, target);
    }
    if p :| Joins(edges, p, start, target, true) {
      PathInLevel(edges, p, start, target, true);
    }
  }

  // ---- nesting ----

  function CheckNesting(edges: set<Edge>, parent: Id, child: Id): Option<GraphError> {
    if FoundBelow(edges, child, parent) then Some(Cycle)
    else if Extent(edges, parent, false) + Extent(edges, child, true) > MAX_DEPTH then Some(Depth)
    else None
  }

  lemma PathsJoin(edges: set<Edge>, a: seq<Id>, b: seq<Id>)
    requires Path(edges, a) && Path(edges, b) && (a[|a| - 1], b[0]) in edges
    ensures Path(edges, a + b)
  {
    var p := a + b;
    forall i | 0 <= i < |p| - 1 ensures (p[i], p[i + 1]) in edges {
      if i >= |a| {
        assert p[i] == b[i - |a|] && p[i + 1] == b[i + 1 - |a|];
      }
    }
  }

  lemma PathKept(edges: set<Edge>, more: set<Edge>, p: seq<Id>)
    requires Path(edges, p) && edges <= more
    ensures Path(more, p)
  {
  }

  function Around(p: seq<Id>, times: nat): seq<Id> {
    if times == 0 then [] else Around(p, times - 1) + p
  }

  lemma {:induction false} AroundPath(edges: set<Edge>, p: seq<Id>, times: nat)
    requires Path(edges, p) && (p[|p| - 1], p[0]) in edges && times > 0
    ensures Path(edges, Around(p, times)) && |Around(p, times)| >= times
    ensures Around(p, times)[|Around(p, times)| - 1] == p[|p| - 1]
  {
    if times == 1 {
      assert Around(p, 1) == Around(p, 0) + p == p;
    } else {
      AroundPath(edges, p, times - 1);
      PathsJoin(edges, Around(p, times - 1), p);
    }
  }

  /** The first use of an edge splits a path. */
  lemma {:induction false} SplitAtEdge(edges: set<Edge>, e: Edge, p: seq<Id>) returns (at: nat)
    requires Path(edges + {e}, p)
    ensures at < |p|
    ensures Path(edges, p[..at + 1])
    ensures at < |p| - 1 ==> (p[at], p[at + 1]) == e && Path(edges + {e}, p[at + 1..])
  {
    at := 0;
    while at < |p| - 1 && (p[at], p[at + 1]) in edges
      invariant at < |p| && forall i :: 0 <= i < at ==> (p[i], p[i + 1]) in edges
    {
      at := at + 1;
    }
  }

  lemma AcceptedStaysShallow(edges: set<Edge>, parent: Id, child: Id, p: seq<Id>)
    requires Shallow(edges) && CheckNesting(edges, parent, child).None?
    requires Path(edges + {(parent, child)}, p)
    ensures |p| <= MAX_DEPTH
  {
    var e := (parent, child);
    var at := SplitAtEdge(edges, e, p);
    var up := ExtentExact(edges, parent, false);
    var down := ExtentExact(edges, child, true);
    if at < |p| - 1 {
      var a, b := p[..at + 1], p[at + 1..];
      assert Joins(edges, a, parent, a[0], false);
      var again := SplitAtEdge(edges, e, b);
      if again < |b| - 1 {
        assert Joins(edges, b[..again + 1], child, parent, true);
        FoundExact(edges, child, parent);
        assert false;
      }
      assert b[..again + 1] == b && Joins(edges, b, child, b[|b| - 1], true);
    } else {
      assert p[..at + 1] == p;
    }
  }

  /**
   Nesting is accepted exactly when the graph with the new edge still has no chain above seven categories, and so
   no cycle: the searches cut off at depth eight are enough.
   */
  lemma NestingExact(edges: set<Edge>, parent: Id, child: Id)
    requires Shallow(edges)
    ensures CheckNesting(edges, parent, child).None? <==> Shallow(edges + {(parent, child)})
  {
    var more := edges + {(parent, child)};
    if CheckNesting(edges, parent, child).None? {
      forall p | Path(more, p) ensures |p| <= MAX_DEPTH {
        AcceptedStaysShallow(edges, parent, child, p);
      }
    } else if FoundBelow(edges, child, parent) {
      FoundExact(edges, child, parent);
      var q :| Joins(edges, q, child, parent, true);
      PathKept(edges, more, q);
      AroundPath(more, q, MAX_DEPTH + 1);
    } else {
      var up := ExtentExact(edges, parent, false);
      var down := ExtentExact(edges, child, true);
      PathKept(edges, more, up);
      PathKept(edges, more, down);
      PathsJoin(more, up, down);
    }
  }

  lemma ShallowIsAcyclic(edges: set<Edge>, p: seq<Id>)
    requires Shallow(edges) && Path(edges, p) && |p| > 1
    ensures p[0] != p[|p| - 1]
  {
    if p[0] == p[|p| - 1] {
      var q := p[..|p| - 1];
      assert (p[|p| - 2], p[|p| - 1]) in edges;
      AroundPath(edges, q, MAX_DEPTH + 1);
    }
  }

  lemma FirstEdge(edges: set<Edge>, p: seq<Id>)
    requires Path(edges, p)
    ensures |p| > 1 ==> (p[0], p[0 + 1]) in edges
  {
  }

  lemma EmptyIsShallow(edges: set<Edge>)
    requires edges == {}
    ensures Shallow(edges)
  {
    forall p | Path(edges, p) ensures |p| <= MAX_DEPTH {
      FirstEdge(edges, p);
    }
  }

  // ---- the stored graph ----

  /** Categories of one ledger and currency. */
  predicate Alike(a: Category, b: Category) {
    a.ledger == b.ledger && a.currency == b.currency
  }

  class CategoryGraph {
    var categories: map<Id, Category>
    var edges: set<Edge>
    var members: set<(Id, AccountId)>

    ghost predicate Valid()
      reads this
    {
      && Shallow(edges)
      && (forall e :: e in edges ==>
        e.0 in categories && e.1 in categories && Alike(categories[e.0], categories[e.1]))
      && forall m :: m in members ==> m.0 in categories
    }

    constructor ()
      ensures Valid() && categories == map[] && edges == {} && members == {}
    {
      categories, edges, members := map[], {}, {};
      new;
      EmptyIsShallow(edges);
    }

    method Create(id: Id, c: Category)
      requires Valid() && id !in categories
      modifies this
      ensures Valid() && categories == old(categories)[id := c] && edges == old(edges) && members == old(members)
    {
      categories := categories[id := c];
    }

    /** Nests a category in another of its ledger and currency, or takes it out. */
    method SetChild(parent: Id, child: Id, nested: bool) returns (r: Result<(), GraphError>)
      requires Valid()
      modifies this
      ensures Valid() && categories == old(categories) && members == old(members)
      ensures edges == if r.Err? then old(edges)
                       else if nested then old(edges) + {(parent, child)} else old(edges) - {(parent, child)}
      ensures r == Err(Unknown) <==> parent !in categories || (nested && child !in categories)
      ensures r == Err(Mismatch) <==>
        nested && parent in categories && child in categories && !Alike(categories[parent], categories[child])
      ensures nested && parent in categories && child in categories && Alike(categories[parent], categories[child]) ==>
        && (r.Ok? <==> Shallow(old(edges) + {(parent, child)}))
        && (r == Err(Cycle) <==> exists p :: Joins(old(edges), p, child, parent, true))
    {
      if parent !in categories {
        return Err(Unknown);
      }
      if !nested {
        forall p | Path(edges - {(parent, child)}, p) ensures Path(edges, p) {
        }
        edges := edges - {(parent, child)};
        return Ok(());
      }
      if child !in categories {
        return Err(Unknown);
      }
      if !Alike(categories[parent], categories[child]) {
        return Err(Mismatch);
      }
      NestingExact(edges, parent, child);
      FoundExact(edges, child, parent);
      var refused := CheckNesting(edges, parent, child);
      if refused.Some? {
        return Err(refused.value);
      }
      edges := edges + {(parent, child)};
      return Ok(());
    }

    /** Makes an account of the category's ledger and currency a member, or takes it out. */
    method SetMember(id: Id, account: AccountId, member: bool, accounts: Accounts) returns (r: Result<(), GraphError>)
      requires Valid()
      modifies this
      ensures Valid() && categories == old(categories) && edges == old(edges)
      ensures members == if r.Err? then old(members)
                         else if member then old(members) + {(id, account)} else old(members) - {(id, account)}
      ensures r == Err(Unknown) <==> id !in categories || (member && account !in accounts)
      ensures r == Err(Mismatch) <==>
        && member && id in categories && account in accounts
        && (accounts[account].ledger != categories[id].ledger || accounts[account].currency != categories[id].currency)
      ensures r.Ok? || r.error in {Unknown, Mismatch}
    {
      if id !in categories {
        return Err(Unknown);
      }
      if !member {
        members := members - {(id, account)};
        return Ok(());
      }
      if account !in accounts {
        return Err(Unknown);
      }
      if accounts[account].ledger != categories[id].ledger || accounts[account].currency != categories[id].currency {
        return Err(Mismatch);
      }
      members := members + {(id, account)};
      return Ok(());
    }

    /** Deletes a category with its nestings and memberships. */
    method Delete(id: Id) returns (r: Result<(), GraphError>)
      requires Valid()
      modifies this
      ensures Valid() && (r.Ok? <==> id in old(categories)) && categories == old(categories) - {id}
      ensures r.Err? ==> r == Err(Unknown) && edges == old(edges) && members == old(members)
      ensures r.Ok? ==>
        && edges == (set e | e in old(edges) && e.0 != id && e.1 != id)
        && members == (set m | m in old(members) && m.0 != id)
    {
      if id !in categories {
        assert categories - {id} == categories;
        return Err(Unknown);
      }
      var kept := set e | e in edges && e.0 != id && e.1 != id;
      forall p | Path(kept, p) ensures Path(edges, p) {
      }
      edges, categories := kept, categories - {id};
      members := set m | m in members && m.0 != id;
      return Ok(());
    }
  }

  // ---- rolling balances up ----

  /** The distinct accounts of a category and of all categories nested in it, however deep and along however many ways. */
  function AccountsIn(edges: set<Edge>, members: set<(Id, AccountId)>, id: Id): set<AccountId> {
    set m | m in members && FoundBelow(edges, id, m.0) :: m.1
  }

  lemma AccountsInExact(edges: set<Edge>, members: set<(Id, AccountId)>, id: Id, account: AccountId)
    requires Shallow(edges)
    ensures account in AccountsIn(edges, members, id) <==>
      exists c, p :: (c, account) in members && Joins(edges, p, id, c, true)
  {
    forall c ensures FoundBelow(edges, id, c) <==> exists p :: Joins(edges, p, id, c, true) {
      FoundExact(edges, id, c);
    }
    if account in AccountsIn(edges, members, id) {
      var m :| m in members && FoundBelow(edges, id, m.0) && m.1 == account;
      assert m == (m.0, account);
    }
  }

  function OfSide(side: Side, f: Account -> int): Account -> int {
    (a: Account) => if a.normalSide == side then f(a) else 0
  }

  function PostedDebitsOf(): Account -> int { (a: Account) => a.postedDebits }
  function PostedCreditsOf(): Account -> int { (a: Account) => a.postedCredits }
  function PendingDebitsOf(): Account -> int { (a: Account) => a.pendingDebits }
  function PendingCreditsOf(): Account -> int { (a: Account) => a.pendingCredits }
  function HeldOf(): Account -> int { (a: Account) => a.held }

  /** The members of one normal side, summed as if they were one account. */
  function Grouped(members: seq<Account>, side: Side): Account {
    Account(0, "", side, Open, false, 0,
            Sum(members, OfSide(side, PostedDebitsOf())), Sum(members, OfSide(side, PostedCreditsOf())),
            Sum(members, OfSide(side, PendingDebitsOf())), Sum(members, OfSide(side, PendingCreditsOf())),
            Sum(members, OfSide(side, HeldOf())), 0)
  }

  function AddBalance(a: Balance, b: Balance): Option<Balance> {
    var debits :- Add(a.debits, b.debits);
    var credits :- Add(a.credits, b.credits);
    Some(Balance(debits, credits, 0))
  }

  const NOTHING := Balance(0, 0, 0)

  function AddBalances(a: Balances, b: Balances): Option<Balances> {
    var posted :- AddBalance(a.posted, b.posted);
    var pending :- AddBalance(a.pending, b.pending);
    var available :- AddBalance(a.available, b.available);
    Some(Balances(pending, posted, available))
  }

  function AddAll(sums: Balances, groups: seq<Account>): Option<Balances>
    decreases |groups|
  {
    if groups == [] then Some(sums)
    else
      var b :- BalancesOf(groups[0]);
      var next :- AddBalances(sums, b);
      AddAll(next, groups[1..])
  }

  function Netted(sums: Balances, side: Side): Option<Balances> {
    var posted :- NetBalance(side, sums.posted.debits, sums.posted.credits);
    var pending :- NetBalance(side, sums.pending.debits, sums.pending.credits);
    var available :- NetBalance(side, sums.available.debits, sums.available.credits);
    Some(Balances(pending, posted, available))
  }

  const ZERO := Balances(NOTHING, NOTHING, NOTHING)

  /** The balances of a category: the groups' balances added up, then netted on the category's own side. */
  function RollUp(members: seq<Account>, side: Side): Option<Balances> {
    var sums :- AddAll(ZERO, [Grouped(members, Debit), Grouped(members, Credit)]);
    Netted(sums, side)
  }

  /** Accumulates the groups row by row, whatever their order and number, then nets the sums. */
  method AccumulateRows(groups: seq<Account>, side: Side) returns (r: Option<Balances>)
    ensures r == if AddAll(ZERO, groups).Some? then Netted(AddAll(ZERO, groups).value, side) else None
  {
    hide BalancesOf;
    hide AddBalances;
    var sums := ZERO;
    for i := 0 to |groups|
      invariant AddAll(ZERO, groups) == AddAll(sums, groups[i..])
    {
      assert groups[i..][0] == groups[i] && groups[i..][1..] == groups[i + 1..];
      var b := BalancesOf(groups[i]);
      if b.None? {
        return None;
      }
      var next := AddBalances(sums, b.value);
      if next.None? {
        return None;
      }
      sums := next.value;
    }
    return Netted(sums, side);
  }

  /** What an account contributes to a category's available balance, on its own normal side. */
  function AvailableDebitsOf(): Account -> int {
    (a: Account) => a.postedDebits + (if a.normalSide.Credit? then a.pendingDebits + a.held else 0)
  }

  function AvailableCreditsOf(): Account -> int {
    (a: Account) => a.postedCredits + (if a.normalSide.Debit? then a.pendingCredits + a.held else 0)
  }

  lemma {:induction false} SplitBySide(members: seq<Account>, f: Account -> int)
    ensures Sum(members, f) == Sum(members, OfSide(Debit, f)) + Sum(members, OfSide(Credit, f))
  {
    if members != [] {
      SplitBySide(members[1..], f);
    }
  }

  lemma {:induction false} AvailableSplits(members: seq<Account>)
    ensures Sum(members, AvailableDebitsOf())
         == Sum(members, PostedDebitsOf()) + Sum(members, OfSide(Credit, PendingDebitsOf())) + Sum(members, OfSide(Credit, HeldOf()))
    ensures Sum(members, AvailableCreditsOf())
         == Sum(members, PostedCreditsOf()) + Sum(members, OfSide(Debit, PendingCreditsOf())) + Sum(members, OfSide(Debit, HeldOf()))
  {
    if members != [] {
      AvailableSplits(members[1..]);
    }
  }

  lemma GroupBalances(a: Account)
    requires BalancesOf(a).Some?
    ensures var b := BalancesOf(a).value;
      && b.posted.debits == a.postedDebits && b.posted.credits == a.postedCredits
      && b.pending.debits == a.postedDebits + a.pendingDebits && b.pending.credits == a.postedCredits + a.pendingCredits
      && b.available.debits == a.postedDebits + (if a.normalSide.Credit? then a.pendingDebits + a.held else 0)
      && b.available.credits == a.postedCredits + (if a.normalSide.Debit? then a.pendingCredits + a.held else 0)
  {
  }

  lemma NettedKeeps(sums: Balances, side: Side)
    requires Netted(sums, side).Some?
    ensures var r := Netted(sums, side).value;
      && r.posted.debits == sums.posted.debits && r.posted.credits == sums.posted.credits
      && r.pending.debits == sums.pending.debits && r.pending.credits == sums.pending.credits
      && r.available.debits == sums.available.debits && r.available.credits == sums.available.credits
  {
  }

  lemma TwoGroups(a: Account, b: Account)
    requires AddAll(ZERO, [a, b]).Some?
    ensures BalancesOf(a).Some? && BalancesOf(b).Some?
    ensures AddBalances(ZERO, BalancesOf(a).value).Some?
    ensures AddAll(ZERO, [a, b]) == AddBalances(AddBalances(ZERO, BalancesOf(a).value).value, BalancesOf(b).value)
  {
    hide BalancesOf;
    hide AddBalances;
    assert [a, b][1..] == [b] && [b][1..] == [];
    var first := AddBalances(ZERO, BalancesOf(a).value).value;
    assert AddAll(ZERO, [a, b]) == AddAll(first, [b]);
    var last := AddBalances(first, BalancesOf(b).value).value;
    assert AddAll(first, [b]) == AddAll(last, []) == Some(last);
  }

  /** Adding up two groups adds up each side of each balance. */
  lemma RollUpAdds(members: seq<Account>, side: Side)
    requires RollUp(members, side).Some?
    ensures BalancesOf(Grouped(members, Debit)).Some? && BalancesOf(Grouped(members, Credit)).Some?
    ensures var r := RollUp(members, side).value;
      var d, c := BalancesOf(Grouped(members, Debit)).value, BalancesOf(Grouped(members, Credit)).value;
      && r.posted.debits == d.posted.debits + c.posted.debits && r.posted.credits == d.posted.credits + c.posted.credits
      && r.pending.debits == d.pending.debits + c.pending.debits && r.pending.credits == d.pending.credits + c.pending.credits
      && r.available.debits == d.available.debits + c.available.debits
      && r.available.credits == d.available.credits + c.available.credits
  {
    hide BalancesOf;
    hide Grouped;
    hide AddAll;
    TwoGroups(Grouped(members, Debit), Grouped(members, Credit));
    var sums := AddAll(ZERO, [Grouped(members, Debit), Grouped(members, Credit)]).value;
    NettedKeeps(sums, side);
  }

  /** A category's balances are the sums of its members' own balances, each member taken on its own normal side. */
  lemma RollUpIsSum(members: seq<Account>, side: Side)
    requires RollUp(members, side).Some?
    ensures var r := RollUp(members, side).value;
      && r.posted.debits == Sum(members, PostedDebitsOf()) && r.posted.credits == Sum(members, PostedCreditsOf())
      && r.pending.debits == Sum(members, PostedDebitsOf()) + Sum(members, PendingDebitsOf())
      && r.pending.credits == Sum(members, PostedCreditsOf()) + Sum(members, PendingCreditsOf())
      && r.available.debits == Sum(members, AvailableDebitsOf()) && r.available.credits == Sum(members, AvailableCreditsOf())
  {
    hide RollUp;
    hide BalancesOf;
    hide Sum;
    RollUpAdds(members, side);
    GroupBalances(Grouped(members, Debit));
    GroupBalances(Grouped(members, Credit));
    SplitBySide(members, PostedDebitsOf());
    SplitBySide(members, PostedCreditsOf());
    SplitBySide(members, PendingDebitsOf());
    SplitBySide(members, PendingCreditsOf());
    AvailableSplits(members);
  }
}
