/** The lifecycle drawing: a node stands as far right as the longest chain that leads to it, and no two nodes overlap. */
module Layouts {
  datatype Id = Id(text: string)

  datatype Edge = Edge(from: Id, to: Id)

  predicate Graph(ids: set<Id>, edges: seq<Edge>) {
    forall j :: 0 <= j < |edges| ==> edges[j].from in ids && edges[j].to in ids
  }

  predicate Drawable(nodes: seq<Id>, edges: seq<Edge>) {
    (forall x, y :: 0 <= x < y < |nodes| ==> nodes[x] != nodes[y]) && Graph((set v | v in nodes), edges)
  }

  // ---- what a rank means ----

  predicate Linked(edges: seq<Edge>, u: Id, v: Id) {
    exists j :: 0 <= j < |edges| && edges[j] == Edge(u, v)
  }

  predicate PathTo(edges: seq<Edge>, p: seq<Id>, v: Id) {
    p != [] && p[|p| - 1] == v && forall i :: 0 < i < |p| ==> Linked(edges, p[i - 1], p[i])
  }

  /** The longest path that ends in v has n edges. */
  ghost predicate IsLongest(edges: seq<Edge>, v: Id, n: nat) {
    (exists p :: PathTo(edges, p, v) && |p| == n + 1) && forall p :: PathTo(edges, p, v) ==> |p| <= n + 1
  }

  ghost predicate Acyclic(edges: seq<Edge>) {
    forall p, v :: PathTo(edges, p, v) && |p| > 1 ==> p[0] != v
  }

  lemma ExtendPath(edges: seq<Edge>, p: seq<Id>, u: Id, v: Id)
    requires PathTo(edges, p, u) && Linked(edges, u, v)
    ensures PathTo(edges, p + [v], v)
  {
  }

  lemma ShortenPath(edges: seq<Edge>, p: seq<Id>, v: Id)
    requires PathTo(edges, p, v) && |p| > 1
    ensures PathTo(edges, p[..|p| - 1], p[|p| - 2]) && Linked(edges, p[|p| - 2], v)
  {
  }

  // ---- ranking: what is kept while the queue is worked off ----

  function Max(a: nat, b: nat): nat {
    if a < b then b else a
  }

  /** Edge j has been counted: it leaves a node that is done, or it leaves the node at the front and stands before k. */
  predicate Counted(edges: seq<Edge>, done: set<Id>, front: Id, k: nat, j: nat)
    requires j < |edges|
  {
    edges[j].from in done || (edges[j].from == front && j < k)
  }

  function Waiting(edges: seq<Edge>, done: set<Id>, front: Id, k: nat, v: Id): set<nat> {
    set j: nat | j < |edges| && edges[j].to == v && !Counted(edges, done, front, k, j)
  }

  function Left(edges: seq<Edge>, done: set<Id>, front: Id, k: nat, v: Id): nat {
    |Waiting(edges, done, front, k, v)|
  }

  /** A node is queued once nothing that leads to it is waited for. */
  ghost predicate Incoming(ids: set<Id>, edges: seq<Edge>, queued: set<Id>, done: set<Id>, front: Id, k: nat, incoming: map<Id, nat>) {
    && incoming.Keys == ids
    && (forall v :: v in ids ==> incoming[v] == Left(edges, done, front, k, v))
    && (forall v :: v in ids ==> (v in queued <==> incoming[v] == 0))
  }

  predicate Gives(edges: seq<Edge>, done: set<Id>, front: Id, k: nat, ranks: map<Id, nat>, j: nat, v: Id)
    requires j < |edges| && edges[j].from in ranks && v in ranks
  {
    Counted(edges, done, front, k, j) && edges[j].to == v && ranks[v] == ranks[edges[j].from] + 1
  }

  ghost predicate Given(edges: seq<Edge>, done: set<Id>, front: Id, k: nat, ranks: map<Id, nat>, v: Id)
    requires Graph(ranks.Keys, edges) && v in ranks
  {
    exists j :: 0 <= j < |edges| && Gives(edges, done, front, k, ranks, j, v)
  }

  /** A rank is one more than the greatest of those it has been counted from. */
  ghost predicate Ranked(edges: seq<Edge>, done: set<Id>, front: Id, k: nat, ranks: map<Id, nat>)
    requires Graph(ranks.Keys, edges)
  {
    && (forall j :: 0 <= j < |edges| && Counted(edges, done, front, k, j) ==> ranks[edges[j].from] < ranks[edges[j].to])
    && (forall v :: v in ranks && ranks[v] > 0 ==> Given(edges, done, front, k, ranks, v))
  }

  lemma Giver(edges: seq<Edge>, done: set<Id>, front: Id, k: nat, ranks: map<Id, nat>, v: Id) returns (j: nat)
    requires Graph(ranks.Keys, edges) && v in ranks && Given(edges, done, front, k, ranks, v)
    ensures j < |edges| && Gives(edges, done, front, k, ranks, j, v)
  {
    j :| 0 <= j < |edges| && Gives(edges, done, front, k, ranks, j, v);
  }

  lemma WaitingLess(edges: seq<Edge>, done: set<Id>, front: Id, k: nat, v: Id)
    requires k < |edges| && edges[k].from == front && front !in done
    ensures Left(edges, done, front, k + 1, v) == Left(edges, done, front, k, v) - (if v == edges[k].to then 1 else 0)
  {
    var before, after := Waiting(edges, done, front, k, v), Waiting(edges, done, front, k + 1, v);
    if v == edges[k].to {
      assert k in before && after == before - {k};
    } else {
      assert after == before;
    }
  }

  lemma Giving(edges: seq<Edge>, done: set<Id>, front: Id, k: nat, ranks: map<Id, nat>, j: nat, v: Id)
    requires Graph(ranks.Keys, edges) && v in ranks && j < |edges| && Gives(edges, done, front, k, ranks, j, v)
    ensures Given(edges, done, front, k, ranks, v)
  {
  }

  /** Counting edge k of the node at the front; what it leads to cannot be queued yet. */
  lemma CountEdge(ids: set<Id>, edges: seq<Edge>, queued: set<Id>, done: set<Id>, front: Id, k: nat, incoming: map<Id, nat>)
    requires Graph(ids, edges) && k < |edges| && edges[k].from == front && front !in done
    requires Incoming(ids, edges, queued, done, front, k, incoming)
    ensures var v := edges[k].to;
      && edges[k].from in ids && v in ids && v !in queued && incoming.Keys == ids && incoming[v] > 0
      && Incoming(ids, edges, if incoming[v] - 1 == 0 then queued + {v} else queued, done, front, k + 1, incoming[v := incoming[v] - 1])
  {
    hide Left;
    forall w ensures Left(edges, done, front, k + 1, w) == Left(edges, done, front, k, w) - (if w == edges[k].to then 1 else 0) {
      WaitingLess(edges, done, front, k, w);
    }
    assert edges[k].from in ids && edges[k].to in ids;
    hide Graph;
    var v := edges[k].to;
    var next, grown := incoming[v := incoming[v] - 1], if incoming[v] - 1 == 0 then queued + {v} else queued;
    assert next.Keys == ids;
    forall w | w in ids
      ensures next[w] == Left(edges, done, front, k + 1, w) && (w in grown <==> next[w] == 0)
    {
    }
  }

  lemma Started(ids: set<Id>, edges: seq<Edge>, front: Id, incoming: map<Id, nat>, ranks: map<Id, nat>)
    requires Graph(ids, edges) && ranks == map v | v in ids :: 0
    requires incoming == map v | v in ids :: |set j: nat | j < |edges| && edges[j].to == v|
    ensures Incoming(ids, edges, (set v | v in ids && incoming[v] == 0), {}, front, 0, incoming) && Ranked(edges, {}, front, 0, ranks)
  {
    forall v ensures Waiting(edges, {}, front, 0, v) == set j: nat | j < |edges| && edges[j].to == v {
    }
  }

  lemma RankEdge(edges: seq<Edge>, queued: set<Id>, done: set<Id>, front: Id, k: nat, ranks: map<Id, nat>)
    requires Graph(ranks.Keys, edges) && Ranked(edges, done, front, k, ranks)
    requires k < |edges| && edges[k].from == front && done <= queued && front in queued && edges[k].to !in queued
    ensures var e := edges[k];
      var next := ranks[e.to := Max(ranks[e.to], ranks[e.from] + 1)];
      next.Keys == ranks.Keys && Ranked(edges, done, front, k + 1, next)
  {
    hide Given;
    var e := edges[k];
    var next := ranks[e.to := Max(ranks[e.to], ranks[e.from] + 1)];
    assert next.Keys == ranks.Keys;
    forall j | 0 <= j < |edges| && Counted(edges, done, front, k + 1, j)
      ensures edges[j].from in queued && (j == k || Counted(edges, done, front, k, j)) && next[edges[j].from] < next[edges[j].to]
    {
    }
    forall v | v in next && next[v] > 0 ensures Given(edges, done, front, k + 1, next, v) {
      if v == e.to && ranks[v] <= ranks[e.from] {
        Giving(edges, done, front, k + 1, next, k, v);
      } else {
        var j := Giver(edges, done, front, k, ranks, v);
        Giving(edges, done, front, k + 1, next, j, v);
      }
    }
  }

  /** Two positions at which the same edges have been counted. */
  lemma SameCount(ids: set<Id>, edges: seq<Edge>, queued: set<Id>, done: set<Id>, front: Id, k: nat, done': set<Id>, front': Id, k': nat,
                  incoming: map<Id, nat>, ranks: map<Id, nat>)
    requires Graph(ids, edges) && ranks.Keys == ids
    requires forall j :: 0 <= j < |edges| ==> Counted(edges, done, front, k, j) == Counted(edges, done', front', k', j)
    requires Incoming(ids, edges, queued, done, front, k, incoming) && Ranked(edges, done, front, k, ranks)
    ensures Incoming(ids, edges, queued, done', front', k', incoming) && Ranked(edges, done', front', k', ranks)
  {
    forall v ensures Left(edges, done, front, k, v) == Left(edges, done', front', k', v) {
      assert Waiting(edges, done, front, k, v) == Waiting(edges, done', front', k', v);
    }
    hide Left;
    forall v | v in ranks && ranks[v] > 0 ensures Given(edges, done', front', k', ranks, v) {
      var j := Giver(edges, done, front, k, ranks, v);
      Giving(edges, done', front', k', ranks, j, v);
    }
  }

  // ---- the ranks reached are the longest paths ----

  lemma {:induction false} QueuedBound(ids: set<Id>, edges: seq<Edge>, queued: set<Id>, front: Id, incoming: map<Id,
                                       nat>, ranks: map<Id, nat>,
                                       p: seq<Id>, v: Id)
    requires Graph(ids, edges) && ranks.Keys == ids && v in queued && v in ids && PathTo(edges, p, v)
    requires Incoming(ids, edges, queued, queued, front, 0, incoming) && Ranked(edges, queued, front, 0, ranks)
    ensures |p| <= ranks[v] + 1
    decreases |p|
  {
    if |p| > 1 {
      ShortenPath(edges, p, v);
      var u := p[|p| - 2];
      var j :| 0 <= j < |edges| && edges[j] == Edge(u, v);
      assert j !in Waiting(edges, queued, front, 0, v);
      assert Counted(edges, queued, front, 0, j);
      QueuedBound(ids, edges, queued, front, incoming, ranks, p[..|p| - 1], u);
    }
  }

  lemma {:induction false} RankPath(edges: seq<Edge>, done: set<Id>, front: Id, ranks: map<Id, nat>, v: Id) returns (p: seq<Id>)
    requires Graph(ranks.Keys, edges) && Ranked(edges, done, front, 0, ranks) && v in ranks
    ensures PathTo(edges, p, v) && |p| == ranks[v] + 1
    decreases ranks[v]
  {
    if ranks[v] == 0 {
      p := [v];
    } else {
      var j := Giver(edges, done, front, 0, ranks, v);
      var u := edges[j].from;
      assert edges[j] == Edge(u, v);
      var q := RankPath(edges, done, front, ranks, u);
      ExtendPath(edges, q, u, v);
      p := q + [v];
    }
  }

  /** Paths of every length lead to a node that is never queued. */
  lemma {:induction false} UnqueuedPath(ids: set<Id>, edges: seq<Edge>, queued: set<Id>, front: Id, incoming: map<Id, nat>, v: Id, n: nat)
    returns (p: seq<Id>)
    requires Graph(ids, edges) && Incoming(ids, edges, queued, queued, front, 0, incoming) && v in ids && v !in queued
    ensures PathTo(edges, p, v) && |p| == n + 1
    decreases n
  {
    if n == 0 {
      return [v];
    }
    assert Waiting(edges, queued, front, 0, v) != {};
    var j :| j in Waiting(edges, queued, front, 0, v);
    assert edges[j] == Edge(edges[j].from, v);
    var q := UnqueuedPath(ids, edges, queued, front, incoming, edges[j].from, n - 1);
    ExtendPath(edges, q, edges[j].from, v);
    p := q + [v];
  }

  lemma RankIsLongest(ids: set<Id>, edges: seq<Edge>, queued: set<Id>, front: Id, incoming: map<Id, nat>,
                      ranks: map<Id, nat>, v: Id, n: nat)
    requires Graph(ids, edges) && ranks.Keys == ids
    requires Incoming(ids, edges, queued, queued, front, 0, incoming) && Ranked(edges, queued, front, 0, ranks)
    requires v in ids && IsLongest(edges, v, n)
    ensures ranks[v] == n
  {
    if v in queued {
      var p := RankPath(edges, queued, front, ranks, v);
      var q :| PathTo(edges, q, v) && |q| == n + 1;
      QueuedBound(ids, edges, queued, front, incoming, ranks, q, v);
    } else {
      var p := UnqueuedPath(ids, edges, queued, front, incoming, v, n + 1);
    }
  }

  // ---- the queue ----

  ghost predicate Lists(queue: seq<Id>, i: nat, queued: set<Id>, done: set<Id>) {
    && i <= |queue|
    && (forall v :: v in queued <==> v in queue) && (forall v :: v in done <==> v in queue[..i])
    && (forall x, y :: 0 <= x < y < |queue| ==> queue[x] != queue[y])
  }

  lemma Front(queue: seq<Id>, i: nat, queued: set<Id>, done: set<Id>)
    requires Lists(queue, i, queued, done)
    ensures i <= |queue| && done <= queued
    ensures i == |queue| ==> done == queued
    ensures i < |queue| ==> queue[i] in queued && queue[i] !in done && Lists(queue, i + 1, queued, done + {queue[i]})
  {
    assert queue[..|queue|] == queue;
    if i < |queue| {
      assert queue[i] in queue && queue[i] !in queue[..i];
      assert queue[..i + 1] == queue[..i] + [queue[i]];
    }
  }

  lemma Pushed(queue: seq<Id>, i: nat, queued: set<Id>, done: set<Id>, v: Id)
    requires Lists(queue, i, queued, done) && v !in queued
    ensures Lists(queue + [v], i, queued + {v}, done)
  {
    assert (queue + [v])[..i] == queue[..i];
  }

  method Sources(nodes: seq<Id>, incoming: map<Id, nat>) returns (queue: seq<Id>)
    requires forall x :: 0 <= x < |nodes| ==> nodes[x] in incoming
    requires forall x, y :: 0 <= x < y < |nodes| ==> nodes[x] != nodes[y]
    ensures Lists(queue, 0, (set v | v in nodes && incoming[v] == 0), {})
  {
    queue := [];
    for n := 0 to |nodes|
      invariant forall v :: v in queue <==> v in nodes[..n] && incoming[v] == 0
      invariant forall x, y :: 0 <= x < y < |queue| ==> queue[x] != queue[y]
    {
      assert nodes[n] !in nodes[..n];
      if incoming[nodes[n]] == 0 {
        queue := queue + [nodes[n]];
      }
    }
  }

  /** What is kept: the queue with its first i nodes done, and k edges of the node `front` counted. */
  ghost predicate Reached(ids: set<Id>, edges: seq<Edge>, queue: seq<Id>, i: nat, queued: set<Id>, done: set<Id>, front: Id, k: nat,
                          incoming: map<Id, nat>, ranks: map<Id, nat>)
    requires Graph(ids, edges)
  {
    && ranks.Keys == ids && queued <= ids && Lists(queue, i, queued, done)
    && Incoming(ids, edges, queued, done, front, k, incoming) && Ranked(edges, done, front, k, ranks)
  }

  lemma EdgeReached(ids: set<Id>, edges: seq<Edge>, queue: seq<Id>, i: nat, queued: set<Id>, done: set<Id>, front: Id, k: nat,
                    incoming: map<Id, nat>, ranks: map<Id, nat>)
    requires Graph(ids, edges) && Reached(ids, edges, queue, i, queued, done, front, k, incoming, ranks)
    requires i < |queue| && queue[i] == front && k < |edges| && edges[k].from == front
    ensures var e := edges[k];
      && e.from in ranks && e.to in ranks && e.to in incoming && incoming[e.to] > 0
      && var next := ranks[e.to := Max(ranks[e.to], ranks[e.from] + 1)];
         var left := incoming[e.to := incoming[e.to] - 1];
         if left[e.to] == 0 then Reached(ids, edges, queue + [e.to], i, queued + {e.to}, done, front, k + 1, left, next)
         else Reached(ids, edges, queue, i, queued, done, front, k + 1, left, next)
  {
    hide Left;
    Front(queue, i, queued, done);
    CountEdge(ids, edges, queued, done, front, k, incoming);
    RankEdge(edges, queued, done, front, k, ranks);
    Pushed(queue, i, queued, done, edges[k].to);
    hide Incoming;
    hide Ranked;
    hide Lists;
    hide Graph;
  }

  lemma SkipReached(ids: set<Id>, edges: seq<Edge>, queue: seq<Id>, i: nat, queued: set<Id>, done: set<Id>, front: Id, k: nat,
                    incoming: map<Id, nat>, ranks: map<Id, nat>)
    requires Graph(ids, edges) && Reached(ids, edges, queue, i, queued, done, front, k, incoming, ranks)
    requires k < |edges| && edges[k].from != front
    ensures Reached(ids, edges, queue, i, queued, done, front, k + 1, incoming, ranks)
  {
    SameCount(ids, edges, queued, done, front, k, done, front, k + 1, incoming, ranks);
  }

  lemma NextReached(ids: set<Id>, edges: seq<Edge>, queue: seq<Id>, i: nat, queued: set<Id>, done: set<Id>, last: Id,
                    incoming: map<Id, nat>, ranks: map<Id, nat>)
    requires Graph(ids, edges) && Reached(ids, edges, queue, i, queued, done, last, 0, incoming, ranks) && i < |queue|
    ensures Reached(ids, edges, queue, i, queued, done, queue[i], 0, incoming, ranks)
  {
    SameCount(ids, edges, queued, done, last, 0, done, queue[i], 0, incoming, ranks);
  }

  lemma FrontReached(ids: set<Id>, edges: seq<Edge>, queue: seq<Id>, i: nat, queued: set<Id>, done: set<Id>,
                     incoming: map<Id, nat>, ranks: map<Id, nat>)
    requires Graph(ids, edges) && i < |queue| && Reached(ids, edges, queue, i, queued, done, queue[i], |edges|, incoming, ranks)
    ensures queue[i] in ids && queue[i] !in done
    ensures Reached(ids, edges, queue, i + 1, queued, done + {queue[i]}, queue[i], 0, incoming, ranks)
  {
    Front(queue, i, queued, done);
    hide Lists;
    SameCount(ids, edges, queued, done, queue[i], |edges|, done + {queue[i]}, queue[i], 0, incoming, ranks);
  }

  lemma AllReached(ids: set<Id>, edges: seq<Edge>, queue: seq<Id>, i: nat, queued: set<Id>, done: set<Id>, front: Id,
                   incoming: map<Id, nat>, ranks: map<Id, nat>)
    requires Graph(ids, edges) && i >= |queue| && Reached(ids, edges, queue, i, queued, done, front, 0, incoming, ranks)
    ensures ranks.Keys == ids && forall v, n: nat :: v in ids && IsLongest(edges, v, n) ==> ranks[v] == n
  {
    Front(queue, i, queued, done);
    forall v, n: nat | v in ids && IsLongest(edges, v, n) ensures ranks[v] == n {
      RankIsLongest(ids, edges, queued, front, incoming, ranks, v, n);
    }
  }

  /** Counts the edges of the node at the front, queueing what nothing is waited for any more. */
  method CountFront(ghost ids: set<Id>, edges: seq<Edge>, queue: seq<Id>, i: nat, ghost queued: set<Id>, ghost done: set<Id>,
                    incoming: map<Id, nat>, ranks: map<Id, nat>)
    returns (queue': seq<Id>, ghost queued': set<Id>, incoming': map<Id, nat>, ranks': map<Id, nat>)
    requires Graph(ids, edges) && i < |queue| && Reached(ids, edges, queue, i, queued, done, queue[i], 0, incoming, ranks)
    ensures i < |queue'| && queue'[i] == queue[i]
    ensures Reached(ids, edges, queue', i, queued', done, queue[i], |edges|, incoming', ranks')
  {
    hide Graph;
    hide Reached;
    queue', queued', incoming', ranks' := queue, queued, incoming, ranks;
    for k := 0 to |edges|
      invariant i < |queue'| && queue'[i] == queue[i]
      invariant Reached(ids, edges, queue', i, queued', done, queue[i], k, incoming', ranks')
    {
      var e := edges[k];
      if e.from == queue[i] {
        EdgeReached(ids, edges, queue', i, queued', done, queue[i], k, incoming', ranks');
        ranks' := ranks'[e.to := Max(ranks'[e.to], ranks'[e.from] + 1)];
        incoming' := incoming'[e.to := incoming'[e.to] - 1];
        if incoming'[e.to] == 0 {
          queue', queued' := queue' + [e.to], queued' + {e.to};
        }
      } else {
        SkipReached(ids, edges, queue', i, queued', done, queue[i], k, incoming', ranks');
      }
    }
  }

  /** Works off the queue from the nodes nothing leads to. */
  method CountOff(ghost ids: set<Id>, edges: seq<Edge>, sources: seq<Id>, counts: map<Id, nat>, zeros: map<Id, nat>)
    returns (ranks: map<Id, nat>)
    requires Graph(ids, edges) && zeros == (map v | v in ids :: 0)
    requires counts == map v | v in ids :: |set j: nat | j < |edges| && edges[j].to == v|
    requires Lists(sources, 0, (set v | v in ids && counts[v] == 0), {})
    ensures ranks.Keys == ids && forall v, n: nat :: v in ids && IsLongest(edges, v, n) ==> ranks[v] == n
  {
    hide IsLongest;
    hide Left;
    ranks := zeros;
    var incoming, queue := counts, sources;
    ghost var last, queued, done: set<Id> := Id(""), (set v | v in ids && counts[v] == 0), {};
    Started(ids, edges, last, incoming, ranks);
    assert Reached(ids, edges, queue, 0, queued, done, last, 0, incoming, ranks);
    hide Graph;
    hide Reached;
    hide Lists;
    var i := 0;
    while i < |queue|
      invariant Reached(ids, edges, queue, i, queued, done, last, 0, incoming, ranks)
      decreases ids - done
    {
      NextReached(ids, edges, queue, i, queued, done, last, incoming, ranks);
      queue, queued, incoming, ranks := CountFront(ids, edges, queue, i, queued, done, incoming, ranks);
      FrontReached(ids, edges, queue, i, queued, done, incoming, ranks);
      done, last, i := done + {queue[i]}, queue[i], i + 1;
    }
    AllReached(ids, edges, queue, i, queued, done, last, incoming, ranks);
  }

  /**
   Ranks each node when everything that leads to it is ranked. Whatever the graph, a node with a longest path to it
   gets the length of that path.
   */
  method Ranks(nodes: seq<Id>, edges: seq<Edge>) returns (ranks: map<Id, nat>)
    requires Drawable(nodes, edges)
    ensures ranks.Keys == set v | v in nodes
    ensures forall v, n: nat :: v in nodes && IsLongest(edges, v, n) ==> ranks[v] == n
  {
    hide IsLongest;
    hide Lists;
    hide Graph;
    ghost var ids := set v | v in nodes;
    var zeros := map v | v in nodes :: 0;
    var incoming: map<Id, nat> := map v | v in nodes :: |set j: nat | j < |edges| && edges[j].to == v|;
    var queue := Sources(nodes, incoming);
    assert (set v | v in nodes && incoming[v] == 0) == (set v | v in ids && incoming[v] == 0);
    ranks := CountOff(ids, edges, queue, incoming, zeros);
  }

  // ---- acyclic graphs ----

  lemma AcyclicPath(edges: seq<Edge>, p: seq<Id>, v: Id, i: nat, j: nat)
    requires Acyclic(edges) && PathTo(edges, p, v) && i < j < |p|
    ensures p[i] != p[j]
  {
    var q := p[i..j + 1];
    forall x | 0 < x < |q| ensures Linked(edges, q[x - 1], q[x]) {
      assert q[x - 1] == p[i + x - 1] && q[x] == p[i + x];
    }
    assert PathTo(edges, q, p[j]);
  }

  lemma {:induction false} DistinctFit(p: seq<Id>, ids: set<Id>)
    requires forall x :: 0 <= x < |p| ==> p[x] in ids
    requires forall x, y :: 0 <= x < y < |p| ==> p[x] != p[y]
    ensures |p| <= |ids|
  {
    if p != [] {
      DistinctFit(p[1..], ids - {p[0]});
    }
  }

  lemma {:induction false} LongestWithin(edges: seq<Edge>, v: Id, bound: nat) returns (n: nat)
    requires forall p :: PathTo(edges, p, v) ==> |p| <= bound + 1
    ensures IsLongest(edges, v, n)
  {
    assert PathTo(edges, [v], v);
    if exists p :: PathTo(edges, p, v) && |p| == bound + 1 {
      n := bound;
    } else {
      n := LongestWithin(edges, v, bound - 1);
    }
  }

  lemma AcyclicHasLongest(ids: set<Id>, edges: seq<Edge>, v: Id) returns (n: nat)
    requires Graph(ids, edges) && Acyclic(edges) && v in ids
    ensures IsLongest(edges, v, n)
  {
    forall p | PathTo(edges, p, v) ensures |p| <= |ids| + 1 {
      forall x | 0 <= x < |p| ensures p[x] in ids {
        assert x > 0 ==> Linked(edges, p[x - 1], p[x]);
        assert x < |p| - 1 ==> Linked(edges, p[x + 1 - 1], p[x + 1]);
      }
      forall x, y | 0 <= x < y < |p| ensures p[x] != p[y] {
        AcyclicPath(edges, p, v, x, y);
      }
      DistinctFit(p, ids);
    }
    n := LongestWithin(edges, v, |ids|);
  }

  predicate Rising(edges: seq<Edge>, ranks: map<Id, nat>)
    requires Graph(ranks.Keys, edges)
  {
    forall j :: 0 <= j < |edges| ==> ranks[edges[j].from] < ranks[edges[j].to]
  }

  lemma {:induction false} RisesAlong(edges: seq<Edge>, ranks: map<Id, nat>, p: seq<Id>, v: Id)
    requires Graph(ranks.Keys, edges) && Rising(edges, ranks) && PathTo(edges, p, v) && |p| > 1
    ensures p[0] in ranks && v in ranks && ranks[p[0]] < ranks[v]
    decreases |p|
  {
    ShortenPath(edges, p, v);
    if |p| > 2 {
      RisesAlong(edges, ranks, p[..|p| - 1], p[|p| - 2]);
    }
  }

  /** Ranks that are longest paths wherever there are any rise along every edge exactly when there is no cycle. */
  lemma RisingExact(edges: seq<Edge>, ranks: map<Id, nat>)
    requires Graph(ranks.Keys, edges)
    requires forall v, n: nat :: v in ranks && IsLongest(edges, v, n) ==> ranks[v] == n
    ensures Rising(edges, ranks) <==> Acyclic(edges)
  {
    if Rising(edges, ranks) {
      forall p, v | PathTo(edges, p, v) && |p| > 1 ensures p[0] != v {
        RisesAlong(edges, ranks, p, v);
      }
    }
    if Acyclic(edges) {
      forall j | 0 <= j < |edges| ensures ranks[edges[j].from] < ranks[edges[j].to] {
        var u, v := edges[j].from, edges[j].to;
        var m := AcyclicHasLongest(ranks.Keys, edges, u);
        var n := AcyclicHasLongest(ranks.Keys, edges, v);
        var p :| PathTo(edges, p, u) && |p| == m + 1;
        assert edges[j] == Edge(u, v);
        ExtendPath(edges, p, u, v);
      }
    }
  }

  // ---- placing ----

  const NODE_WIDTH := 264.0
  const NODE_HEIGHT := 176.0

  datatype Box = Box(id: Id, rank: nat, x: real, y: real)

  predicate Apart(a: Box, b: Box) {
    || a.x + NODE_WIDTH < b.x || b.x + NODE_WIDTH < a.x
    || a.y + NODE_HEIGHT < b.y || b.y + NODE_HEIGHT < a.y
  }

  predicate Inside(b: Box, width: real, height: real) {
    0.0 < b.x && b.x + NODE_WIDTH < width && 0.0 < b.y && b.y + NODE_HEIGHT < height
  }

  predicate PointsRight(edges: seq<Edge>, boxes: seq<Box>) {
    forall j, a, b ::
      0 <= j < |edges| && 0 <= a < |boxes| && 0 <= b < |boxes| && edges[j].from == boxes[a].id && edges[j].to == boxes[b].id
      ==> boxes[a].x + NODE_WIDTH < boxes[b].x
  }

  /** How many of the given ranks are r. */
  function Tally(ranks: seq<nat>, r: nat): nat {
    if ranks == [] then 0
    else Tally(ranks[..|ranks| - 1], r) + (if ranks[|ranks| - 1] == r then 1 else 0)
  }

  lemma {:induction false} TallyGrows(ranks: seq<nat>, i: nat, j: nat, r: nat)
    requires i <= j <= |ranks|
    ensures Tally(ranks[..i], r) <= Tally(ranks[..j], r)
    ensures i < j && ranks[i] == r ==> Tally(ranks[..i], r) < Tally(ranks[..j], r)
  {
    if i < j {
      assert ranks[..j][..j - 1] == ranks[..j - 1];
      TallyGrows(ranks, i, j - 1, r);
    }
  }

  lemma TallyStart(ranks: seq<nat>)
    ensures forall r :: Tally(ranks[..0], r) == 0
  {
  }

  lemma TallyStep(ranks: seq<nat>, k: nat)
    requires k < |ranks|
    ensures forall r :: Tally(ranks[..k + 1], r) == Tally(ranks[..k], r) + (if ranks[k] == r then 1 else 0)
  {
    assert ranks[..k + 1][..k] == ranks[..k];
  }

  /** The corner of a node of the given rank that is number `row` of the `count` nodes of its column. */
  function Corner(id: Id, rank: nat, row: nat, count: nat, maxRows: nat): Box {
    Box(id, rank, 32.0 + rank as real * (NODE_WIDTH + 128.0),
        72.0 + ((maxRows as real - count as real) / 2.0 + row as real) * (NODE_HEIGHT + 24.0))
  }

  lemma CornersApart(a: Id, b: Id, r: nat, s: nat, i: nat, j: nat, count: nat, count': nat, maxRows: nat)
    requires r != s || (i < j && count == count')
    ensures Apart(Corner(a, r, i, count, maxRows), Corner(b, s, j, count', maxRows))
  {
    if r < s {
      assert r as real + 1.0 <= s as real;
    } else if s < r {
      assert s as real + 1.0 <= r as real;
    } else {
      assert i as real + 1.0 <= j as real;
    }
  }

  lemma CornerInside(id: Id, r: nat, row: nat, count: nat, maxRows: nat, width: real)
    requires row < count <= maxRows && width >= Corner(id, r, row, count, maxRows).x + NODE_WIDTH + 32.0
    ensures Inside(Corner(id, r, row, count, maxRows), width, 72.0 + maxRows as real * (NODE_HEIGHT + 24.0) + 8.0)
  {
    assert row as real + 1.0 <= count as real <= maxRows as real;
  }

  /**
   Ranks the nodes and centres each column: no two nodes overlap, all are inside the drawing, and every edge points
   to the right exactly when there is no cycle.
   */
  method Layout(nodes: seq<Id>, edges: seq<Edge>) returns (boxes: seq<Box>, width: real, height: real)
    requires Drawable(nodes, edges)
    ensures |boxes| == |nodes| && forall k :: 0 <= k < |boxes| ==> boxes[k].id == nodes[k]
    ensures forall k, n: nat :: 0 <= k < |boxes| && IsLongest(edges, nodes[k], n) ==> boxes[k].rank == n
    ensures forall i, k :: 0 <= i < k < |boxes| ==> Apart(boxes[i], boxes[k])
    ensures forall k :: 0 <= k < |boxes| ==> Inside(boxes[k], width, height)
    ensures Acyclic(edges) <==> PointsRight(edges, boxes)
  {
    var ranks := Ranks(nodes, edges);
    hide IsLongest;
    hide Apart;
    hide Inside;
    hide PointsRight;
    hide Drawable;
    hide Tally;
    hide Corner;
    hide PlacedBy;
    assert forall v :: v in nodes ==> v in ranks;
    ghost var rs, maxRows;
    boxes, width, height, maxRows, rs := Arrange(nodes, ranks);
    Placed(nodes, edges, ranks, rs, maxRows, boxes, width, height);
  }

  method Arrange(nodes: seq<Id>, ranks: map<Id, nat>)
    returns (boxes: seq<Box>, width: real, height: real, ghost maxRows: nat, ghost rs: seq<nat>)
    requires forall v :: v in nodes ==> v in ranks
    ensures PlacedBy(nodes, ranks, rs, maxRows, boxes, width, height)
  {
    hide Tally;
    hide Corner;
    rs := seq(|nodes|, k requires 0 <= k < |nodes| => ranks[nodes[k]]);
    var counts, most := CountRanks(nodes, ranks, rs);
    boxes, width := Place(nodes, ranks, counts, most, rs);
    height := 72.0 + most as real * (NODE_HEIGHT + 24.0) + 8.0;
    maxRows := most;
  }

  /** Every node of rank rs[k] stands in its column after the earlier nodes of its rank. */
  ghost predicate PlacedBy(nodes: seq<Id>, ranks: map<Id, nat>, rs: seq<nat>, maxRows: nat, boxes: seq<Box>, width: real, height: real) {
    && |boxes| == |rs| == |nodes|
    && (forall k :: 0 <= k < |nodes| ==> nodes[k] in ranks && rs[k] == ranks[nodes[k]] && Tally(rs, rs[k]) <= maxRows)
    && (forall k :: 0 <= k < |boxes| ==> boxes[k] == Corner(nodes[k], rs[k], Tally(rs[..k], rs[k]), Tally(rs, rs[k]), maxRows))
    && (forall k :: 0 <= k < |boxes| ==> width >= boxes[k].x + NODE_WIDTH + 32.0)
    && height == 72.0 + maxRows as real * (NODE_HEIGHT + 24.0) + 8.0
  }

  method Place(nodes: seq<Id>, ranks: map<Id, nat>, counts: map<nat, nat>, maxRows: nat, ghost rs: seq<nat>)
    returns (boxes: seq<Box>, width: real)
    requires |rs| == |nodes| && forall k :: 0 <= k < |nodes| ==> nodes[k] in ranks && rs[k] == ranks[nodes[k]]
    requires forall k :: 0 <= k < |rs| ==> rs[k] in counts && counts[rs[k]] == Tally(rs, rs[k])
    ensures |boxes| == |nodes|
    ensures forall k :: 0 <= k < |boxes| ==> boxes[k] == Corner(nodes[k], rs[k], Tally(rs[..k], rs[k]), Tally(rs, rs[k]), maxRows)
    ensures forall k :: 0 <= k < |boxes| ==> width >= boxes[k].x + NODE_WIDTH + 32.0
  {
    hide Corner;
    hide Tally;
    TallyStart(rs);
    var rows: map<nat, nat> := map[];
    boxes, width := [], 400.0;
    for k := 0 to |nodes|
      invariant |boxes| == k
      invariant forall r :: (if r in rows then rows[r] else 0) == Tally(rs[..k], r)
      invariant forall i :: 0 <= i < k ==> boxes[i] == Corner(nodes[i], rs[i], Tally(rs[..i], rs[i]), Tally(rs, rs[i]), maxRows)
      invariant forall i :: 0 <= i < k ==> width >= boxes[i].x + NODE_WIDTH + 32.0
    {
      var rank := ranks[nodes[k]];
      var row := if rank in rows then rows[rank] else 0;
      rows := rows[rank := row + 1];
      TallyStep(rs, k);
      var b := Corner(nodes[k], rank, row, counts[rank], maxRows);
      boxes := boxes + [b];
      width := if width < b.x + NODE_WIDTH + 32.0 then b.x + NODE_WIDTH + 32.0 else width;
    }
  }

  method CountRanks(nodes: seq<Id>, ranks: map<Id, nat>, ghost rs: seq<nat>) returns (counts: map<nat, nat>, maxRows: nat)
    requires |rs| == |nodes| && forall k :: 0 <= k < |nodes| ==> nodes[k] in ranks && rs[k] == ranks[nodes[k]]
    ensures forall r :: r in rs ==> r in counts
    ensures forall r :: r in counts ==> counts[r] == Tally(rs, r) <= maxRows
  {
    hide Tally;
    TallyStart(rs);
    counts := map[];
    for k := 0 to |nodes|
      invariant forall r :: (if r in counts then counts[r] else 0) == Tally(rs[..k], r)
      invariant forall r :: r in rs[..k] ==> r in counts
    {
      var rank := ranks[nodes[k]];
      TallyStep(rs, k);
      counts := counts[rank := (if rank in counts then counts[rank] else 0) + 1];
    }
    assert rs[..|nodes|] == rs;
    maxRows := 1;
    var left := counts.Keys;
    while left != {}
      invariant left <= counts.Keys && forall r :: r in counts.Keys - left ==> counts[r] <= maxRows
    {
      var r :| r in left;
      maxRows, left := Max(maxRows, counts[r]), left - {r};
    }
  }

  lemma PlacedApart(nodes: seq<Id>, ranks: map<Id, nat>, rs: seq<nat>, maxRows: nat, boxes: seq<Box>, width: real, height: real)
    requires PlacedBy(nodes, ranks, rs, maxRows, boxes, width, height)
    ensures forall i, k :: 0 <= i < k < |boxes| ==> Apart(boxes[i], boxes[k])
    ensures forall k :: 0 <= k < |boxes| ==> Inside(boxes[k], width, height)
  {
    hide Corner;
    hide Apart;
    hide Inside;
    hide Tally;
    forall i, k | 0 <= i < k < |boxes| ensures Apart(boxes[i], boxes[k]) {
      if rs[i] == rs[k] {
        TallyGrows(rs, i, k, rs[i]);
      }
      CornersApart(nodes[i], nodes[k], rs[i], rs[k], Tally(rs[..i], rs[i]), Tally(rs[..k], rs[k]), Tally(rs, rs[i]), Tally(rs, rs[k]), maxRows);
    }
    forall k | 0 <= k < |boxes| ensures Inside(boxes[k], width, height) {
      TallyGrows(rs, k, |rs|, rs[k]);
      assert rs[..|rs|] == rs;
      CornerInside(nodes[k], rs[k], Tally(rs[..k], rs[k]), Tally(rs, rs[k]), maxRows, width);
    }
  }

  lemma Placed(nodes: seq<Id>, edges: seq<Edge>, ranks: map<Id, nat>, rs: seq<nat>, maxRows: nat, boxes: seq<Box>,
               width: real, height: real)
    requires ranks.Keys == (set v | v in nodes) && Drawable(nodes, edges)
    requires forall v, n: nat :: v in nodes && IsLongest(edges, v, n) ==> ranks[v] == n
    requires PlacedBy(nodes, ranks, rs, maxRows, boxes, width, height)
    ensures |boxes| == |nodes| && forall k :: 0 <= k < |boxes| ==> boxes[k].id == nodes[k]
    ensures forall k, n: nat :: 0 <= k < |boxes| && IsLongest(edges, nodes[k], n) ==> boxes[k].rank == n
    ensures forall i, k :: 0 <= i < k < |boxes| ==> Apart(boxes[i], boxes[k])
    ensures forall k :: 0 <= k < |boxes| ==> Inside(boxes[k], width, height)
    ensures Acyclic(edges) <==> PointsRight(edges, boxes)
  {
    hide IsLongest;
    PlacedApart(nodes, ranks, rs, maxRows, boxes, width, height);
    RisingExact(edges, ranks);
  }
}
