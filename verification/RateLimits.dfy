/** The token bucket: over any window it lets through at most the burst and what the rate adds in that time. */
module RateLimits {

  datatype Bucket = Bucket(tokens: real, last: real)

  function Min(a: real, b: real): real {
    if a < b then a else b
  }

  /** The bucket as a call at `now` finds it. */
  function Refilled(b: Bucket, now: real, rate: real, burst: real): Bucket {
    if now > b.last then Bucket(Min(burst, b.tokens + (now - b.last) * rate), now) else b
  }

  function Allowed(b: Bucket, now: real, rate: real, burst: real): bool {
    Refilled(b, now, rate, burst).tokens >= 1.0
  }

  function Called(b: Bucket, now: real, rate: real, burst: real): Bucket {
    var r := Refilled(b, now, rate, burst);
    if r.tokens >= 1.0 then r.(tokens := r.tokens - 1.0) else r
  }

  /** How long a refused caller is told to wait. */
  function Wait(b: Bucket, rate: real): real
    requires rate > 0.0
  {
    (1.0 - b.tokens) / rate
  }

  function CalledAll(b: Bucket, times: seq<real>, rate: real, burst: real): Bucket
    decreases |times|
  {
    if times == [] then b else CalledAll(Called(b, times[0], rate, burst), times[1..], rate, burst)
  }

  function CountAllowed(b: Bucket, times: seq<real>, rate: real, burst: real): nat
    decreases |times|
  {
    if times == [] then 0
    else (if Allowed(b, times[0], rate, burst) then 1 else 0) + CountAllowed(Called(b, times[0], rate, burst), times[1..], rate, burst)
  }

  class Limiter {
    const rate: real
    const burst: real
    var buckets: map<nat, Bucket>

    constructor (rate: real, burst: real)
      requires rate > 0.0
      ensures this.rate == rate && this.burst == burst && buckets == map[]
    {
      this.rate, this.burst, buckets := rate, burst, map[];
    }

    /** One call for a key: a full bucket the first time, then refilled for the time since its last. */
    method Allow(key: nat, now: real) returns (allowed: bool, wait: real)
      requires rate > 0.0
      modifies this
      ensures var b := if key in old(buckets) then old(buckets)[key] else Bucket(burst, now);
        && allowed == Allowed(b, now, rate, burst) && buckets == old(buckets)[key := Called(b, now, rate, burst)]
        && wait == if allowed then 0.0 else Wait(Called(b, now, rate, burst), rate)
    {
      var b := if key in buckets then buckets[key] else Bucket(burst, now);
      var elapsed := now - b.last;
      if elapsed > 0.0 {
        b := Bucket(Min(burst, b.tokens + elapsed * rate), now);
      }
      allowed := b.tokens >= 1.0;
      wait := 0.0;
      if allowed {
        b := b.(tokens := b.tokens - 1.0);
      } else {
        wait := (1.0 - b.tokens) / rate;
      }
      buckets := buckets[key := b];
    }
  }

  /** A refused caller that comes back, no one else calling, is let through exactly if it has waited as long as it was told. */
  lemma WaitIsExact(b: Bucket, now: real, later: real, rate: real, burst: real)
    requires rate > 0.0 && burst >= 1.0 && b.last <= now <= later && !Allowed(b, now, rate, burst)
    ensures var left := Called(b, now, rate, burst);
      Wait(left, rate) > 0.0 && (Allowed(left, later, rate, burst) <==> later - now >= Wait(left, rate))
  {
    var left := Called(b, now, rate, burst);
    assert left.last == now && left.tokens < 1.0;
    Quotient(1.0 - left.tokens, later - now, rate);
    Quotient(1.0 - left.tokens, 0.0, rate);
  }

  lemma Quotient(missing: real, time: real, rate: real)
    requires rate > 0.0
    ensures time * rate >= missing <==> time >= missing / rate
  {
    assert missing / rate * rate == missing;
    var gap := time - missing / rate;
    assert time * rate - missing == gap * rate;
    if gap >= 0.0 {
      NonNegative(gap, rate);
    } else {
      assert gap * rate < 0.0;
    }
  }

  predicate Ordered(times: seq<real>) {
    forall i, j :: 0 <= i < j < |times| ==> times[i] <= times[j]
  }

  predicate Within(times: seq<real>, from: real, until: real) {
    forall t :: t in times ==> from <= t <= until
  }

  lemma TailWithin(times: seq<real>, from: real, until: real)
    requires times != [] && Ordered(times) && Within(times, from, until)
    ensures from <= times[0] <= until && Ordered(times[1..]) && Within(times[1..], times[0], until)
  {
    assert times[0] in times;
    forall t | t in times[1..] ensures times[0] <= t <= until {
      var k :| 0 <= k < |times[1..]| && times[1..][k] == t;
      assert times[k + 1] == t && times[k + 1] in times;
    }
  }

  /** What is let through comes out of the bucket, and only time puts anything back. */
  lemma {:induction false} Spent(b: Bucket, times: seq<real>, until: real, rate: real, burst: real)
    requires rate >= 0.0 && 0.0 <= b.tokens <= burst
    requires Ordered(times) && Within(times, b.last, until) && b.last <= until
    ensures CountAllowed(b, times, rate, burst) as real <= b.tokens + (until - b.last) * rate
    decreases |times|
  {
    hide Allowed;
    hide Called;
    hide Ordered;
    hide Within;
    if times == [] {
      NonNegative(until - b.last, rate);
    } else {
      TailWithin(times, b.last, until);
      var next := Called(b, times[0], rate, burst);
      Steps(b, times[0], rate, burst);
      Spent(next, times[1..], until, rate, burst);
      AddUp(b, next, Allowed(b, times[0], rate, burst), CountAllowed(next, times[1..], rate, burst), until, rate);
    }
  }

  lemma AddUp(b: Bucket, next: Bucket, one: bool, rest: nat, until: real, rate: real)
    requires next.tokens + (if one then 1.0 else 0.0) <= b.tokens + (next.last - b.last) * rate
    requires rest as real <= next.tokens + (until - next.last) * rate
    ensures ((if one then 1 else 0) + rest) as real <= b.tokens + (until - b.last) * rate
  {
    assert (until - b.last) * rate == (until - next.last) * rate + (next.last - b.last) * rate;
  }

  lemma NonNegative(x: real, y: real)
    requires x >= 0.0 && y >= 0.0
    ensures x * y >= 0.0
  {
  }

  lemma Steps(b: Bucket, now: real, rate: real, burst: real)
    requires rate >= 0.0 && 0.0 <= b.tokens <= burst && b.last <= now
    ensures var next := Called(b, now, rate, burst);
      && 0.0 <= next.tokens <= burst && next.last == now
      && next.tokens + (if Allowed(b, now, rate, burst) then 1.0 else 0.0) <= b.tokens + (now - b.last) * rate
  {
    hide Refilled;
    RefillBounds(b, now, rate, burst);
  }

  lemma RefillBounds(b: Bucket, now: real, rate: real, burst: real)
    requires rate >= 0.0 && 0.0 <= b.tokens <= burst && b.last <= now
    ensures var r := Refilled(b, now, rate, burst);
      r.last == now && 0.0 <= r.tokens <= burst && r.tokens <= b.tokens + (now - b.last) * rate
  {
    var added := (now - b.last) * rate;
    NonNegative(now - b.last, rate);
    assert added >= 0.0;
    assert now > b.last ==> Refilled(b, now, rate, burst).tokens == Min(burst, b.tokens + added);
  }

  lemma {:induction false} StaysFilled(b: Bucket, times: seq<real>, rate: real, burst: real)
    requires rate >= 0.0 && 0.0 <= b.tokens <= burst && Ordered(times) && forall t :: t in times ==> b.last <= t
    ensures var after := CalledAll(b, times, rate, burst);
      0.0 <= after.tokens <= burst && b.last <= after.last && if times == [] then after == b else after.last == times[|times| - 1]
    decreases |times|
  {
    if times != [] {
      assert times[0] in times;
      Steps(b, times[0], rate, burst);
      assert forall k :: 0 <= k < |times[1..]| ==> times[1..][k] == times[k + 1];
      StaysFilled(Called(b, times[0], rate, burst), times[1..], rate, burst);
    }
  }

  /**
   Over any window of a key's calls, with whatever came before, at most `burst + rate * length` are let through.
   */
  lemma WindowBound(first: real, before: seq<real>, window: seq<real>, rate: real, burst: real)
    requires rate >= 0.0 && burst >= 0.0 && window != []
    requires Ordered([first] + (before + window))
    ensures var b := CalledAll(Bucket(burst, first), before, rate, burst);
      CountAllowed(b, window, rate, burst) as real <= burst + rate * (window[|window| - 1] - window[0])
  {
    hide CountAllowed;
    hide CalledAll;
    hide Ordered;
    OrderedParts(first, before, window);
    StaysFilled(Bucket(burst, first), before, rate, burst);
    var b := CalledAll(Bucket(burst, first), before, rate, burst);
    assert before != [] ==> before[|before| - 1] in before;
    WindowFrom(b, window, rate, burst);
  }

  lemma OrderedParts(first: real, before: seq<real>, window: seq<real>)
    requires Ordered([first] + (before + window)) && window != []
    ensures Ordered(before) && Ordered(window) && first <= window[0]
    ensures forall t :: t in before ==> first <= t <= window[0]
  {
    var all := [first] + (before + window);
    assert forall i :: 0 <= i < |before| ==> before[i] == all[1 + i];
    assert forall i :: 0 <= i < |window| ==> window[i] == all[1 + |before| + i];
    assert all[0] == first && all[1 + |before|] == window[0];
    forall t | t in before ensures first <= t <= window[0] {
      var i :| 0 <= i < |before| && before[i] == t;
      assert all[1 + i] == t;
    }
  }

  lemma WindowFrom(b: Bucket, window: seq<real>, rate: real, burst: real)
    requires rate >= 0.0 && 0.0 <= b.tokens <= burst && window != [] && Ordered(window) && b.last <= window[0]
    ensures CountAllowed(b, window, rate, burst) as real <= burst + rate * (window[|window| - 1] - window[0])
  {
    hide Refilled;
    hide CountAllowed;
    var start := Bucket(Refilled(b, window[0], rate, burst).tokens, window[0]);
    RefillBounds(b, window[0], rate, burst);
    assert Within(window, window[0], window[|window| - 1]);
    SameFromHere(b, start, window, rate, burst);
    Spent(start, window, window[|window| - 1], rate, burst);
  }

  /** A call finds the same bucket whether or not it was refilled at that very moment before. */
  lemma SameFromHere(b: Bucket, start: Bucket, window: seq<real>, rate: real, burst: real)
    requires window != [] && b.last <= window[0]
    requires start == Bucket(Refilled(b, window[0], rate, burst).tokens, window[0])
    ensures CountAllowed(b, window, rate, burst) == CountAllowed(start, window, rate, burst)
  {
    assert Refilled(start, window[0], rate, burst) == start;
    assert Refilled(b, window[0], rate, burst) == start;
  }

  // ---- nothing is lost ----

  /** While the bucket cannot overflow, what is let through and what is left are what there was and what the rate added. */
  lemma {:induction false} NothingIsLost(b: Bucket, times: seq<real>, until: real, rate: real, burst: real)
    requires rate >= 0.0 && 0.0 <= b.tokens && b.last <= until && b.tokens + (until - b.last) * rate <= burst
    requires Ordered(times) && Within(times, b.last, until)
    ensures var after := CalledAll(b, times, rate, burst);
      && b.last <= after.last <= until && 0.0 <= after.tokens
      && CountAllowed(b, times, rate, burst) as real + after.tokens == b.tokens + (after.last - b.last) * rate
    decreases |times|
  {
    hide Called;
    hide Allowed;
    hide Ordered;
    hide Within;
    if times != [] {
      TailWithin(times, b.last, until);
      var now := times[0];
      var next := Called(b, now, rate, burst);
      Fits(b, now, until, rate, burst);
      NothingIsLost(next, times[1..], until, rate, burst);
      Together(b, next, CalledAll(next, times[1..], rate, burst), Allowed(b, now, rate, burst),
               CountAllowed(next, times[1..], rate, burst), rate);
    }
  }

  lemma Together(b: Bucket, next: Bucket, after: Bucket, one: bool, rest: nat, rate: real)
    requires next.tokens + (if one then 1.0 else 0.0) == b.tokens + (next.last - b.last) * rate
    requires rest as real + after.tokens == next.tokens + (after.last - next.last) * rate
    ensures ((if one then 1 else 0) + rest) as real + after.tokens == b.tokens + (after.last - b.last) * rate
  {
    assert (after.last - b.last) * rate == (after.last - next.last) * rate + (next.last - b.last) * rate;
  }

  lemma Fits(b: Bucket, now: real, until: real, rate: real, burst: real)
    requires rate >= 0.0 && 0.0 <= b.tokens && b.last <= now <= until && b.tokens + (until - b.last) * rate <= burst
    ensures var next := Called(b, now, rate, burst);
      && next.last == now && 0.0 <= next.tokens
      && next.tokens + (if Allowed(b, now, rate, burst) then 1.0 else 0.0) == b.tokens + (now - b.last) * rate
      && next.tokens + (until - now) * rate <= burst
  {
    hide Refilled;
    NonNegative(now - b.last, rate);
    NonNegative(until - now, rate);
    assert (until - b.last) * rate == (until - now) * rate + (now - b.last) * rate;
    RefilledInFull(b, now, rate, burst);
  }

  lemma RefilledInFull(b: Bucket, now: real, rate: real, burst: real)
    requires b.last <= now && b.tokens + (now - b.last) * rate <= burst
    ensures Refilled(b, now, rate, burst) == Bucket(b.tokens + (now - b.last) * rate, now)
  {
    var added := (now - b.last) * rate;
    if now > b.last {
      assert Refilled(b, now, rate, burst) == Bucket(Min(burst, b.tokens + added), now);
    } else {
      assert now - b.last == 0.0 && added == 0.0;
    }
  }

  /** Of n calls at one moment to a full bucket as many are let through as the burst has whole tokens, or all. */
  lemma BurstIsExact(times: seq<real>, now: real, rate: real, burst: real)
    requires rate >= 0.0 && burst >= 0.0 && forall t :: t in times ==> t == now
    ensures CountAllowed(Bucket(burst, now), times, rate, burst) == if burst.Floor <= |times| then burst.Floor else |times|
  {
    AtOnce(burst, times, now, rate, burst);
  }

  lemma {:induction false} AtOnce(tokens: real, times: seq<real>, now: real, rate: real, burst: real)
    requires 0.0 <= tokens && forall t :: t in times ==> t == now
    ensures CountAllowed(Bucket(tokens, now), times, rate, burst) == if tokens.Floor <= |times| then tokens.Floor else |times|
    decreases |times|
  {
    if times != [] {
      assert times[0] in times && forall t :: t in times[1..] ==> t in times;
      assert Refilled(Bucket(tokens, now), now, rate, burst) == Bucket(tokens, now);
      if tokens >= 1.0 {
        AtOnce(tokens - 1.0, times[1..], now, rate, burst);
        assert (tokens - 1.0).Floor == tokens.Floor - 1;
      } else {
        AtOnce(tokens, times[1..], now, rate, burst);
      }
    }
  }
}
