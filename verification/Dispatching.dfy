/** The dispatcher: hands each batch of events to the endpoints subscribed to it, moves its cursor, prunes what is done. */
module Dispatching {
  import opened Wrappers
  import opened Snapshots
  import opened Feeds

  datatype Endpoint = Endpoint(id: nat, types: seq<string>)

  datatype QueuedEvent = QueuedEvent(key: Key, kind: string)

  datatype Delivery = Delivery(endpoint: nat, event: Key)

  /** A pattern names a type, or with a trailing star every type that starts with what precedes the star. */
  predicate Names(pattern: string, kind: string) {
    || pattern == kind
    || (pattern != [] && pattern[|pattern| - 1] == '*' && pattern[..|pattern| - 1] <= kind)
  }

  predicate Subscribed(types: seq<string>, kind: string) {
    types == [] || exists i :: 0 <= i < |types| && Names(types[i], kind)
  }

  method IsSubscribed(types: seq<string>, kind: string) returns (r: bool)
    ensures r <==> Subscribed(types, kind)
  {
    if |types| == 0 {
      return true;
    }
    for i := 0 to |types|
      invariant forall k :: 0 <= k < i ==> !Names(types[k], kind)
    {
      var t := types[i];
      if |t| > 0 && t[|t| - 1] == '*' && t[..|t| - 1] <= kind {
        return true;
      }
      if t == kind {
        return true;
      }
    }
    return false;
  }

  // ---- what a batch of events is to deliver ----

  function DeliveriesOf(e: QueuedEvent, endpoints: seq<Endpoint>): seq<Delivery> {
    if endpoints == [] then []
    else
      var last := |endpoints| - 1;
      DeliveriesOf(e, endpoints[..last])
      + (if Subscribed(endpoints[last].types, e.kind) then [Delivery(endpoints[last].id, e.key)] else [])
  }

  function DeliveriesFor(batch: seq<QueuedEvent>, endpoints: seq<Endpoint>): seq<Delivery> {
    if batch == [] then []
    else DeliveriesFor(batch[..|batch| - 1], endpoints) + DeliveriesOf(batch[|batch| - 1], endpoints)
  }

  /** Insertion that passes over a delivery already there. */
  function InsertNew(table: seq<Delivery>, ds: seq<Delivery>): seq<Delivery> {
    if ds == [] then table
    else
      var before := InsertNew(table, ds[..|ds| - 1]);
      if ds[|ds| - 1] in before then before else before + [ds[|ds| - 1]]
  }

  predicate DistinctEndpoints(endpoints: seq<Endpoint>) {
    forall i, j :: 0 <= i < j < |endpoints| ==> endpoints[i].id != endpoints[j].id
  }

  /** The deliveries left when those of some events are deleted. */
  function Without(ds: seq<Delivery>, gone: set<Key>): seq<Delivery> {
    if ds == [] then []
    else (if ds[0].event in gone then [] else [ds[0]]) + Without(ds[1..], gone)
  }

  lemma {:induction false} WithoutNone(ds: seq<Delivery>)
    ensures Without(ds, {}) == ds
  {
    if ds != [] {
      WithoutNone(ds[1..]);
    }
  }

  lemma {:induction false} WithoutBoth(ds: seq<Delivery>, a: set<Key>, b: set<Key>)
    ensures Without(Without(ds, a), b) == Without(ds, a + b)
  {
    if ds != [] {
      WithoutBoth(ds[1..], a, b);
      if ds[0].event !in a {
        assert Without(ds, a) == [ds[0]] + Without(ds[1..], a);
      } else {
        assert Without(ds, a) == Without(ds[1..], a);
      }
    }
  }

  lemma {:induction false} WithoutKeeps(ds: seq<Delivery>, gone: set<Key>)
    ensures forall d :: d in Without(ds, gone) <==> d in ds && d.event !in gone
    ensures NoDuplicates(ds) ==> NoDuplicates(Without(ds, gone))
  {
    if ds != [] {
      WithoutKeeps(ds[1..], gone);
      if NoDuplicates(ds) {
        assert ds[0] !in ds[1..];
        assert NoDuplicates(ds[1..]);
      }
    }
  }

  predicate NoDuplicates(ds: seq<Delivery>) {
    forall i, j :: 0 <= i < j < |ds| ==> ds[i] != ds[j]
  }

  function KeysOf(batch: seq<QueuedEvent>): (ks: seq<Key>)
    ensures |ks| == |batch| && forall i :: 0 <= i < |batch| ==> ks[i] == batch[i].key
  {
    seq(|batch|, i requires 0 <= i < |batch| => batch[i].key)
  }

  lemma {:induction false} DeliveriesOfShape(e: QueuedEvent, endpoints: seq<Endpoint>)
    requires DistinctEndpoints(endpoints)
    ensures NoDuplicates(DeliveriesOf(e, endpoints))
    ensures forall d :: d in DeliveriesOf(e, endpoints) <==>
      d.event == e.key && exists i :: 0 <= i < |endpoints| && endpoints[i].id == d.endpoint && Subscribed(endpoints[i].types, e.kind)
  {
    if endpoints != [] {
      DeliveriesOfShape(e, endpoints[..|endpoints| - 1]);
    }
  }

  /** Exactly the deliveries due: one for every event of the batch and endpoint subscribed to its type. */
  lemma {:induction false} DeliveriesExact(batch: seq<QueuedEvent>, endpoints: seq<Endpoint>)
    requires DistinctEndpoints(endpoints)
    requires forall i, j :: 0 <= i < j < |batch| ==> batch[i].key != batch[j].key
    ensures NoDuplicates(DeliveriesFor(batch, endpoints))
    ensures forall d :: d in DeliveriesFor(batch, endpoints) <==>
      exists k, i :: 0 <= k < |batch| && 0 <= i < |endpoints| && batch[k].key == d.event && endpoints[i].id == d.endpoint
                     && Subscribed(endpoints[i].types, batch[k].kind)
  {
    if batch != [] {
      var init, last := batch[..|batch| - 1], batch[|batch| - 1];
      DeliveriesExact(init, endpoints);
      DeliveriesOfShape(last, endpoints);
      forall d ensures d in DeliveriesFor(batch, endpoints) <==>
        exists k, i :: 0 <= k < |batch| && 0 <= i < |endpoints| && batch[k].key == d.event && endpoints[i].id == d.endpoint
                       && Subscribed(endpoints[i].types, batch[k].kind)
      {
        if k, i :| 0 <= k < |batch| && 0 <= i < |endpoints| && batch[k].key == d.event && endpoints[i].id == d.endpoint
                   && Subscribed(endpoints[i].types, batch[k].kind) {
          if k < |init| {
            assert init[k] == batch[k] && d in DeliveriesFor(init, endpoints);
          }
        }
      }
      forall d | d in DeliveriesFor(init, endpoints) ensures d !in DeliveriesOf(last, endpoints) {
        var k, i :| 0 <= k < |init| && 0 <= i < |endpoints| && init[k].key == d.event && endpoints[i].id == d.endpoint
                    && Subscribed(endpoints[i].types, init[k].kind);
        assert batch[k].key != batch[|batch| - 1].key;
      }
    }
  }

  lemma {:induction false} NothingPassedOver(table: seq<Delivery>, ds: seq<Delivery>)
    requires NoDuplicates(ds) && forall d :: d in ds ==> d !in table
    ensures InsertNew(table, ds) == table + ds
  {
    if ds != [] {
      NothingPassedOver(table, ds[..|ds| - 1]);
      assert ds == ds[..|ds| - 1] + [ds[|ds| - 1]];
    }
  }

  class Dispatcher {
    var cursor: Option<Key>
    var deliveries: seq<Delivery>
    var events: set<Key>
    ghost var handled: seq<Key>

    ghost predicate Valid()
      reads this
    {
      && cursor == (if handled == [] then None else Some(handled[|handled| - 1]))
      && Increasing(handled)
      && NoDuplicates(deliveries)
      && forall d :: d in deliveries ==> d.event in handled
    }

    constructor ()
      ensures Valid() && handled == [] && deliveries == [] && events == {}
    {
      cursor, deliveries, events, handled := None, [], {}, [];
    }

    /** Collects the deliveries event by event and endpoint by endpoint, then inserts them. */
    method InsertDeliveries(batch: seq<QueuedEvent>, endpoints: seq<Endpoint>)
      modifies this`deliveries
      ensures deliveries == InsertNew(old(deliveries), DeliveriesFor(batch, endpoints))
    {
      var due: seq<Delivery> := [];
      for i := 0 to |batch|
        invariant deliveries == old(deliveries) && due == DeliveriesFor(batch[..i], endpoints)
      {
        ghost var before := due;
        for j := 0 to |endpoints|
          invariant deliveries == old(deliveries) && due == before + DeliveriesOf(batch[i], endpoints[..j])
        {
          assert endpoints[..j + 1][..j] == endpoints[..j];
          var wanted := IsSubscribed(endpoints[j].types, batch[i].kind);
          if wanted {
            due := due + [Delivery(endpoints[j].id, batch[i].key)];
          }
        }
        assert endpoints[..|endpoints|] == endpoints && batch[..i + 1][..i] == batch[..i];
      }
      assert batch[..|batch|] == batch;
      for i := 0 to |due|
        invariant deliveries == InsertNew(old(deliveries), due[..i])
      {
        assert due[..i + 1][..i] == due[..i];
        if due[i] !in deliveries {
          deliveries := deliveries + [due[i]];
        }
      }
      assert due[..|due|] == due;
    }

    /**
     Dispatches what the query returned: every event of it becomes exactly the deliveries due to it, none twice,
     none passed over, and the cursor moves to its last event.
     */
    method Dispatch(batch: seq<QueuedEvent>, endpoints: seq<Endpoint>, ghost feed: Feed<string>, ghost limit: nat) returns (n: nat)
      requires Valid() && Invariant(feed) && feed.handled == handled && IsBatch(feed, limit, KeysOf(batch))
      requires DistinctEndpoints(endpoints)
      modifies this
      ensures Valid() && n == |batch| && events == old(events)
      ensures handled == old(handled) + KeysOf(batch)
      ensures deliveries == old(deliveries) + DeliveriesFor(batch, endpoints)
    {
      hide IsBatch;
      hide Invariant;
      hide NoDuplicates;
      hide InsertNew;
      ReadIsComplete(feed, limit, KeysOf(batch));
      if |batch| == 0 {
        return 0;
      }
      DueIsNew(batch, endpoints, handled, deliveries);
      InsertDeliveries(batch, endpoints);
      cursor := Some(batch[|batch| - 1].key);
      handled := handled + KeysOf(batch);
      n := |batch|;
    }

    function Prunable(cutoff: nat, pending: set<Key>): set<Key>
      reads this
    {
      set k | k in events && k.id < cutoff && cursor.Some? && AtMost(k, cursor.value) && k !in pending
    }

    /** Deletes up to `size` prunable events with their deliveries. */
    method PruneSome(cutoff: nat, pending: set<Key>, size: nat) returns (n: nat, ghost ids: set<Key>)
      modifies this`events, this`deliveries
      ensures ids <= old(Prunable(cutoff, pending)) && n == |ids| <= size
      ensures n < size ==> ids == old(Prunable(cutoff, pending))
      ensures Prunable(cutoff, pending) == old(Prunable(cutoff, pending)) - ids
      ensures events == old(events) - ids && deliveries == Without(old(deliveries), ids)
    {
      var some := Pick(Prunable(cutoff, pending), size);
      deliveries := Without(deliveries, some);
      events := events - some;
      n, ids := |some|, some;
    }

    /** Deletes, batch by batch, exactly the old events at or below the cursor without pending deliveries, and their deliveries. */
    method Prune(cutoff: nat, pending: set<Key>, size: nat) returns (total: nat)
      requires Valid() && size > 0
      modifies this`events, this`deliveries
      ensures Valid() && events == old(events) - old(Prunable(cutoff, pending))
      ensures deliveries == Without(old(deliveries), old(Prunable(cutoff, pending)))
      ensures total == |old(Prunable(cutoff, pending))|
    {
      hide Prunable;
      total := 0;
      ghost var all, done := Prunable(cutoff, pending), {};
      WithoutNone(deliveries);
      while true
        invariant done <= all && Prunable(cutoff, pending) == all - done && total == |done|
        invariant events == old(events) - done && deliveries == Without(old(deliveries), done)
        decreases |Prunable(cutoff, pending)|
      {
        var n, ids := PruneSome(cutoff, pending, size);
        WithoutBoth(old(deliveries), done, ids);
        PrunedMore(old(events), all, done, ids);
        done, total := done + ids, total + n;
        if n < size {
          WithoutKeeps(old(deliveries), done);
          return;
        }
      }
    }

    /** Up to `size` members of a set, all of them if there are no more. */
    method Pick(candidates: set<Key>, size: nat) returns (ids: set<Key>)
      ensures ids <= candidates && |ids| <= size && (|ids| < size ==> ids == candidates)
    {
      ids := {};
      while |ids| < size && ids != candidates
        invariant ids <= candidates && |ids| <= size
        decreases |candidates - ids|
      {
        assert candidates - ids != {};
        var k :| k in candidates - ids;
        ids := ids + {k};
      }
    }
  }

  /** What is pruned: exactly the events that have been dispatched, are older than the cutoff and have no pending delivery. */
  lemma PrunableExact(d: Dispatcher, feed: Feed<string>, cutoff: nat, pending: set<Key>, k: Key)
    requires d.Valid() && Invariant(feed) && feed.handled == d.handled
    requires forall e :: e in d.events ==> Committed(feed, e)
    ensures k in d.Prunable(cutoff, pending) <==> k in d.events && k in d.handled && k.id < cutoff && k !in pending
  {
    if k in d.handled {
      BelowLast(d.handled, k);
    }
  }

  lemma PrunedMore(events: set<Key>, all: set<Key>, done: set<Key>, ids: set<Key>)
    requires done <= all && ids <= all - done
    ensures done + ids <= all && (all - done) - ids == all - (done + ids) && events - done - ids == events - (done + ids)
    ensures |done + ids| == |done| + |ids| && |all - (done + ids)| == |all - done| - |ids|
    ensures ids == all - done ==> done + ids == all
  {
    assert (all - done) - ids == all - (done + ids);
    assert all - done == ((all - done) - ids) + ids;
  }

  /** The deliveries of a batch past the cursor cannot be in the table yet. */
  lemma DueIsNew(batch: seq<QueuedEvent>, endpoints: seq<Endpoint>, handled: seq<Key>, table: seq<Delivery>)
    requires Increasing(handled + KeysOf(batch)) && DistinctEndpoints(endpoints)
    requires NoDuplicates(table) && forall d :: d in table ==> d.event in handled
    ensures InsertNew(table, DeliveriesFor(batch, endpoints)) == table + DeliveriesFor(batch, endpoints)
    ensures NoDuplicates(table + DeliveriesFor(batch, endpoints))
    ensures forall d :: d in DeliveriesFor(batch, endpoints) ==> d.event in KeysOf(batch)
  {
    var all := handled + KeysOf(batch);
    forall i, j | 0 <= i < j < |batch| ensures batch[i].key != batch[j].key {
      assert Less(all[|handled| + i], all[|handled| + j]);
    }
    forall h, k | 0 <= h < |handled| && 0 <= k < |batch| ensures handled[h] != batch[k].key {
      assert Less(all[h], all[|handled| + k]);
    }
    DeliveriesExact(batch, endpoints);
    forall d | d in DeliveriesFor(batch, endpoints) ensures d.event in KeysOf(batch) && d !in table {
      var k, i :| 0 <= k < |batch| && 0 <= i < |endpoints| && batch[k].key == d.event && endpoints[i].id == d.endpoint
                  && Subscribed(endpoints[i].types, batch[k].kind);
      assert KeysOf(batch)[k] == d.event;
    }
    NothingPassedOver(table, DeliveriesFor(batch, endpoints));
  }
}
