/** The idempotency keys of HTTP requests: a key is claimed with a token, its answer is stored once and then replayed. */
module RequestKeys {
  import opened Wrappers

  // In microseconds.
  const LOCK_TIMEOUT: nat := 60_000_000
  const RETENTION: nat := 86_400_000_000

  const CONFLICT := 409
  const SERVER_ERROR := 500

  datatype Reply = Reply(status: int, contentType: string, body: string)

  /** What a handler answered; `problem` is the text that stands in for an answer that may not be stored. */
  datatype Handled = Handled(reply: Reply, noStore: bool, problem: string)

  datatype Row = Row(hash: string, reply: Option<Reply>, token: nat, lockedAt: nat, createdAt: nat)

  type Table = map<string, Row>

  datatype Resolution = Busy | Reused | Replayed(reply: Reply)

  predicate Lapsed(lockedAt: nat, at: nat) {
    lockedAt + LOCK_TIMEOUT < at
  }

  predicate Expired(row: Row, at: nat) {
    row.reply.Some? && row.createdAt + RETENTION < at
  }

  predicate Grants(rows: Table, at: nat, key: string, hash: string) {
    key in rows ==> rows[key].reply.None? && rows[key].hash == hash && Lapsed(rows[key].lockedAt, at)
  }

  function Claimed(rows: Table, at: nat, key: string, hash: string, token: nat): Table {
    if !Grants(rows, at, key, hash) then rows
    else if key in rows then rows[key := rows[key].(token := token, lockedAt := at)]
    else rows[key := Row(hash, None, token, at, at)]
  }

  function Stored(h: Handled): Reply {
    if h.noStore then Reply(CONFLICT, "application/problem+json", h.problem + "\n") else h.reply
  }

  function Finished(rows: Table, key: string, token: nat, h: Handled): Table {
    if key !in rows || rows[key].token != token then rows
    else if h.reply.status >= SERVER_ERROR then rows - {key}
    else if rows[key].reply.Some? then rows
    else rows[key := rows[key].(reply := Some(Stored(h)))]
  }

  function Pruned(rows: Table, at: nat): Table {
    map k | k in rows && !Expired(rows[k], at) :: rows[k]
  }

  function Resolved(rows: Table, key: string, hash: string): Resolution {
    if key !in rows then Busy
    else if rows[key].hash != hash then Reused
    else if rows[key].reply.None? then Busy
    else Replayed(rows[key].reply.value)
  }

  // ---- the service ----

  class Service {
    var rows: Table

    constructor ()
      ensures rows == map[]
    {
      rows := map[];
    }

    /** Inserts the key, or takes it over from a claim of the same request that has lapsed. */
    method Claim(now: nat, key: string, hash: string, token: nat) returns (claimed: bool)
      modifies this
      ensures claimed <==> Grants(old(rows), now, key, hash)
      ensures rows == Claimed(old(rows), now, key, hash, token)
    {
      if key !in rows {
        rows := rows[key := Row(hash, None, token, now, now)];
        return true;
      }
      var row := rows[key];
      if row.reply.None? && row.hash == hash && row.lockedAt + LOCK_TIMEOUT < now {
        rows := rows[key := row.(lockedAt := now, token := token)];
        return true;
      }
      return false;
    }

    method ResolveExisting(key: string, hash: string) returns (r: Resolution)
      ensures r == Resolved(rows, key, hash)
    {
      if key !in rows {
        return Busy;
      }
      var row := rows[key];
      if row.hash != hash {
        return Reused;
      }
      if row.reply.None? {
        return Busy;
      }
      return Replayed(row.reply.value);
    }

    /** Releases the key after a server error, else stores the answer; reports whether the token still owned the key. */
    method Finish(key: string, token: nat, h: Handled) returns (owned: bool)
      modifies this
      ensures rows == Finished(old(rows), key, token, h)
      ensures owned <==> key in old(rows) && old(rows)[key].token == token
                         && (h.reply.status < SERVER_ERROR ==> old(rows)[key].reply.None?)
    {
      if h.reply.status >= SERVER_ERROR {
        owned := key in rows && rows[key].token == token;
        if owned {
          rows := rows - {key};
        }
        return;
      }
      var reply := h.reply;
      if h.noStore {
        reply := Reply(CONFLICT, "application/problem+json", h.problem + "\n");
      }
      owned := key in rows && rows[key].token == token && rows[key].reply.None?;
      if owned {
        rows := rows[key := rows[key].(reply := Some(reply))];
      }
    }

    method Prune(now: nat) returns (n: nat)
      modifies this
      ensures rows == Pruned(old(rows), now)
      ensures n == |set k | k in old(rows) && Expired(old(rows)[k], now)|
    {
      var gone := set k | k in rows && Expired(rows[k], now);
      n, rows := |gone|, rows - gone;
    }
  }

  // ---- runs: any interleaving of the steps of any number of requests ----

  datatype Event =
    | Claim(at: nat, key: string, hash: string, token: nat)
    | Look(key: string, hash: string)
    | Finish(key: string, token: nat, handled: Handled)
    | Prune(at: nat)

  function Step(rows: Table, e: Event): Table {
    match e
    case Claim(at, key, hash, token) => Claimed(rows, at, key, hash, token)
    case Look(_, _) => rows
    case Finish(key, token, h) => Finished(rows, key, token, h)
    case Prune(at) => Pruned(rows, at)
  }

  /** The table after the first n events. */
  function After(es: seq<Event>, n: nat): Table
    requires n <= |es|
  {
    if n == 0 then map[] else Step(After(es, n - 1), es[n - 1])
  }

  predicate Granted(es: seq<Event>, i: nat)
    requires i < |es|
  {
    es[i].Claim? && Grants(After(es, i), es[i].at, es[i].key, es[i].hash)
  }

  predicate FinishOf(es: seq<Event>, c: nat, f: nat)
    requires c < |es| && f < |es|
  {
    es[c].Claim? && es[f].Finish? && es[f].key == es[c].key && es[f].token == es[c].token
  }

  /** Every claim brings a token of its own, and what is finished is a granted claim, once. */
  ghost predicate Run(es: seq<Event>) {
    && (forall i, j :: 0 <= i < j < |es| && es[i].Claim? && es[j].Claim? ==> es[i].token != es[j].token)
    && (forall i, j :: 0 <= i < j < |es| && es[i].Finish? && es[j].Finish? ==> es[i].token != es[j].token)
    && (forall f :: 0 <= f < |es| && es[f].Finish? ==> exists c :: 0 <= c < f && Granted(es, c) && FinishOf(es, c, f))
  }

  ghost predicate HasFinished(es: seq<Event>, c: nat, n: nat)
    requires c < |es| && n <= |es|
  {
    exists f :: c < f < n && FinishOf(es, c, f)
  }

  /** A claim between c and n that repeats the request of c after c's lock has lapsed. */
  ghost predicate TakenOver(es: seq<Event>, c: nat, n: nat)
    requires c < |es| && es[c].Claim? && n <= |es|
  {
    exists k :: c < k < n && Repeats(es, c, k)
  }

  predicate Repeats(es: seq<Event>, c: nat, k: nat)
    requires c < |es| && k < |es| && es[c].Claim?
  {
    es[k].Claim? && es[k].key == es[c].key && es[k].hash == es[c].hash && Lapsed(es[c].at, es[k].at)
  }

  predicate Holds(es: seq<Event>, c: nat, n: nat)
    requires c < |es| && es[c].Claim? && n <= |es|
  {
    es[c].key in After(es, n) && After(es, n)[es[c].key].token == es[c].token
  }

  /** An unfinished claim holds its key for exactly as long as nobody repeats its request after the lock has lapsed. */
  lemma {:induction false} HeldUntilTakenOver(es: seq<Event>, c: nat, n: nat)
    requires Run(es) && c < n <= |es| && Granted(es, c) && !HasFinished(es, c, n)
    ensures Holds(es, c, n) <==> !TakenOver(es, c, n)
    ensures Holds(es, c, n) ==>
      var row := After(es, n)[es[c].key];
      row.hash == es[c].hash && row.lockedAt == es[c].at && row.reply.None?
  {
    if n == c + 1 {
      return;
    }
    var e := es[n - 1];
    assert !HasFinished(es, c, n - 1);
    HeldUntilTakenOver(es, c, n - 1);
    assert TakenOver(es, c, n) <==> TakenOver(es, c, n - 1) || Repeats(es, c, n - 1);
    if e.Claim? {
      assert e.token != es[c].token;
    } else if e.Finish? {
      assert !FinishOf(es, c, n - 1);
    }
  }

  /** While a claim is unfinished, the next one granted on its key repeats its request after the lock has lapsed. */
  lemma OnlyALapsedClaimOverlaps(es: seq<Event>, c: nat, d: nat)
    requires Run(es) && c < d < |es| && Granted(es, c) && Granted(es, d) && es[c].key == es[d].key
    ensures HasFinished(es, c, d) || TakenOver(es, c, d + 1)
  {
    if !HasFinished(es, c, d) {
      HeldUntilTakenOver(es, c, d);
      if !TakenOver(es, c, d) {
        assert Repeats(es, c, d);
      }
    }
  }

  /** No claim is repeated after its lock lapsed and before it finished. */
  ghost predicate Prompt(es: seq<Event>) {
    forall c, k :: 0 <= c < k < |es| && Granted(es, c) && Repeats(es, c, k) ==> HasFinished(es, c, k)
  }

  /** With prompt handlers, the handlers of one key run one after the other. */
  lemma OneAtATime(es: seq<Event>, c: nat, d: nat)
    requires Run(es) && Prompt(es) && c < d < |es| && Granted(es, c) && Granted(es, d) && es[c].key == es[d].key
    ensures HasFinished(es, c, d)
  {
    OnlyALapsedClaimOverlaps(es, c, d);
    if TakenOver(es, c, d + 1) {
      var k :| c < k < d + 1 && Repeats(es, c, k);
      assert HasFinished(es, c, k);
    }
  }

  /** A finish does its work exactly when its claim was not taken over: it frees the key, or stores its answer. */
  lemma FinishExact(es: seq<Event>, c: nat, f: nat)
    requires Run(es) && c < f < |es| && Granted(es, c) && FinishOf(es, c, f)
    ensures var key, before, after := es[c].key, After(es, f), After(es, f + 1);
            if TakenOver(es, c, f) then after == before
            else if es[f].handled.reply.status >= SERVER_ERROR then after == before - {key}
            else key in before && after == before[key := before[key].(reply := Some(Stored(es[f].handled)))]
                 && before[key].reply.None? && before[key].hash == es[c].hash
  {
    assert !HasFinished(es, c, f);
    HeldUntilTakenOver(es, c, f);
  }

  /** The claim that owns a row: unfinished if the row has no answer, else the one that gave its answer. */
  ghost predicate Owns(es: seq<Event>, c: nat, n: nat, key: string)
    requires c < n <= |es| && key in After(es, n)
  {
    var row := After(es, n)[key];
    && Granted(es, c) && es[c].key == key && es[c].token == row.token && es[c].hash == row.hash
    && match row.reply
       case None => !HasFinished(es, c, n)
       case Some(reply) => AnsweredBy(es, c, n, reply)
  }

  ghost predicate AnsweredBy(es: seq<Event>, c: nat, n: nat, reply: Reply)
    requires c < |es| && n <= |es|
  {
    exists f :: c < f < n && FinishOf(es, c, f) && es[f].handled.reply.status < SERVER_ERROR && reply == Stored(es[f].handled)
  }

  lemma StillOwns(es: seq<Event>, c: nat, n: nat, key: string)
    requires Run(es) && c < n < |es| && key in After(es, n) && key in After(es, n + 1) && Owns(es, c, n, key)
    requires After(es, n + 1)[key].token == After(es, n)[key].token
    ensures Owns(es, c, n + 1, key)
  {
    var before, e := After(es, n)[key], es[n];
    if e.Claim? {
      assert e.token != es[c].token;
    }
    if before.reply.Some? {
      assert AnsweredBy(es, c, n + 1, before.reply.value);
    } else if e.Finish? && e.key == key && e.token == before.token {
      assert FinishOf(es, c, n);
    }
  }

  lemma {:induction false} RowsAreOwned(es: seq<Event>, n: nat, key: string)
    requires Run(es) && n <= |es| && key in After(es, n)
    ensures exists c :: 0 <= c < n && Owns(es, c, n, key)
  {
    var before, e := After(es, n - 1), es[n - 1];
    if e.Claim? && e.key == key && Granted(es, n - 1) {
      assert Owns(es, n - 1, n, key);
    } else {
      RowsAreOwned(es, n - 1, key);
      var c :| 0 <= c < n - 1 && Owns(es, c, n - 1, key);
      StillOwns(es, c, n - 1, key);
    }
  }

  /** Nobody finishes with the token of an answered row again. */
  lemma AnsweredIsFinished(es: seq<Event>, n: nat, key: string)
    requires Run(es) && n < |es| && key in After(es, n) && After(es, n)[key].reply.Some?
    ensures es[n].Finish? ==> es[n].token != After(es, n)[key].token
  {
    RowsAreOwned(es, n, key);
    var c :| 0 <= c < n && Owns(es, c, n, key);
    var f :| c < f < n && FinishOf(es, c, f);
    assert es[f].token == After(es, n)[key].token;
  }

  /** What is replayed to a request is the answer an earlier run of the same request gave under the same key. */
  lemma ReplayIsAnEarlierAnswer(es: seq<Event>, n: nat, key: string, hash: string)
    requires Run(es) && n <= |es| && Resolved(After(es, n), key, hash).Replayed?
    ensures exists c :: 0 <= c < n && Granted(es, c) && es[c].key == key && es[c].hash == hash
                        && AnsweredBy(es, c, n, Resolved(After(es, n), key, hash).reply)
  {
    RowsAreOwned(es, n, key);
    var c :| 0 <= c < n && Owns(es, c, n, key);
  }

  /** A prune between m and n that comes after the retention of a row. */
  ghost predicate PrunedBetween(es: seq<Event>, m: nat, n: nat, row: Row)
    requires m <= n <= |es|
  {
    exists p :: m <= p < n && es[p].Prune? && Expired(row, es[p].at)
  }

  /**
   A stored answer stays for exactly as long as no prune runs past its retention. Until then every claim of its key
   is refused, the same request is answered with it, and any other is told that the key is in use.
   */
  lemma {:induction false} AnsweredOnce(es: seq<Event>, m: nat, n: nat, key: string)
    requires Run(es) && m <= n <= |es| && key in After(es, m) && After(es, m)[key].reply.Some?
    ensures var row := After(es, m)[key];
      if PrunedBetween(es, m, n, row) then exists k :: m < k <= n && key !in After(es, k)
      else
        && key in After(es, n) && After(es, n)[key] == row
        && (forall k :: m <= k < n && Granted(es, k) ==> es[k].key != key)
        && (forall hash :: Resolved(After(es, n), key, hash) == if hash == row.hash then Replayed(row.reply.value) else Reused)
  {
    if m < n {
      AnsweredOnce(es, m, n - 1, key);
      var row, e := After(es, m)[key], es[n - 1];
      if !PrunedBetween(es, m, n - 1, row) {
        AnsweredIsFinished(es, n - 1, key);
        if e.Prune? && Expired(row, e.at) {
          assert key !in After(es, n);
        }
      }
    }
  }
}
