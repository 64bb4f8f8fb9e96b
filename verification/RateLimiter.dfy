/** The token bucket, over exact reals. */
module RateLimiter {

  /** Tokens earned between two instants. Time that runs backwards counts as no time at all. */
  type Gain = (real, real) -> real

  function Earn(rate: real): Gain {
    (from: real, to: real) => if to >= from then (to - from) * rate else 0.0
  }

  datatype Bucket = Bucket(tokens: real, lastUpdate: real, gain: Gain, capacity: real)

  function Fresh(rate: real, now: real): Bucket {
    Bucket(rate, now, Earn(rate), rate)
  }

  function Refilled(b: Bucket, now: real): real {
    var full := b.tokens + b.gain(b.lastUpdate, now);
    if full <= b.capacity then full else b.capacity
  }

  /** A request takes one token if there is one. */
  function After(b: Bucket, now: real): Bucket {
    var full := Refilled(b, now);
    b.(tokens := if full >= 1.0 then full - 1.0 else full, lastUpdate := now)
  }

  ghost predicate Inv(b: Bucket) {
    && 0.0 <= b.tokens <= b.capacity
    && forall x, y :: b.gain(x, y) >= 0.0
  }

  class Limiter {
    var tokens: real
    var lastUpdate: real
    const rate: real
    const capacity: real

    ghost function State(): Bucket
      reads this
    {
      Bucket(tokens, lastUpdate, Earn(rate), capacity)
    }

    constructor (rate: real, now: real)
      ensures State() == Fresh(rate, now)
    {
      tokens, lastUpdate, this.rate, capacity := rate, now, rate, rate;
    }

    method TryAcquire(now: real) returns (granted: bool)
      modifies this
      ensures granted == (Refilled(old(State()), now) >= 1.0)
      ensures State() == After(old(State()), now)
    {
      var elapsed := if now >= lastUpdate then now - lastUpdate else 0.0;
      assert elapsed * rate == Earn(rate)(lastUpdate, now);
      tokens := tokens + elapsed * rate;
      if tokens > capacity {
        tokens := capacity;
      }
      lastUpdate := now;
      granted := tokens >= 1.0;
      if granted {
        tokens := tokens - 1.0;
      }
    }
  }

  // Runs: one attempt at each of the given times

  function RunOf(b: Bucket, times: seq<real>): Bucket {
    if times == [] then b else After(RunOf(b, times[..|times| - 1]), times[|times| - 1])
  }

  function GrantCount(b: Bucket, times: seq<real>): nat {
    if times == [] then 0
    else
      var n := |times| - 1;
      GrantCount(b, times[..n]) + if Refilled(RunOf(b, times[..n]), times[n]) >= 1.0 then 1 else 0
  }

  /** Tokens a full bucket turned away. */
  function Overflow(b: Bucket, times: seq<real>): real {
    if times == [] then 0.0
    else
      var n := |times| - 1;
      var c := RunOf(b, times[..n]);
      Overflow(b, times[..n]) + (c.tokens + b.gain(c.lastUpdate, times[n]) - Refilled(c, times[n]))
  }

  function LastTime(b: Bucket, times: seq<real>): real {
    if times == [] then b.lastUpdate else times[|times| - 1]
  }

  lemma {:induction false} RunFrame(b: Bucket, times: seq<real>)
    ensures RunOf(b, times) == b.(tokens := RunOf(b, times).tokens, lastUpdate := LastTime(b, times))
    decreases |times|
  {
    if times != [] {
      RunFrame(b, times[..|times| - 1]);
    }
  }

  /** In every run, whatever the times, the bucket stays between empty and full. */
  lemma {:induction false} RunKeepsInv(b: Bucket, times: seq<real>)
    requires Inv(b)
    ensures Inv(RunOf(b, times))
    decreases |times|
  {
    if times != [] {
      RunKeepsInv(b, times[..|times| - 1]);
    }
  }

  predicate AddsUp(gain: Gain, x: real, y: real, z: real) {
    x <= y <= z ==> gain(x, y) + gain(y, z) == gain(x, z)
  }

  ghost predicate Additive(gain: Gain) {
    && (forall x :: gain(x, x) == 0.0)
    && forall x, y, z :: AddsUp(gain, x, y, z)
  }

  predicate EarnsAt(gain: Gain, rate: real, x: real, y: real) {
    x <= y ==> gain(x, y) == (y - x) * rate
  }

  /** A bucket within its bounds that earns tokens at a constant rate. */
  ghost predicate Steady(b: Bucket, rate: real) {
    && Inv(b)
    && Additive(b.gain)
    && forall x, y :: EarnsAt(b.gain, rate, x, y)
  }

  /** Every new limiter is such a bucket. */
  lemma FreshIsSteady(rate: real, now: real)
    requires rate >= 0.0
    ensures Steady(Fresh(rate, now), rate)
  {
    forall x, y ensures Earn(rate)(x, y) >= 0.0 && EarnsAt(Earn(rate), rate, x, y) {
      if y >= x {
        assert (y - x) * rate >= 0.0;
      }
    }
    forall x, y, z ensures AddsUp(Earn(rate), x, y, z) {
      assert (y - x) * rate + (z - y) * rate == (z - x) * rate;
    }
  }

  predicate Ordered(start: real, times: seq<real>) {
    && (forall k :: 0 <= k < |times| ==> start <= times[k])
    && forall j, k :: 0 <= j < k < |times| ==> times[j] <= times[k]
  }

  /** Nothing is lost: tokens held at first plus tokens earned = grants + tokens held at last + overflow. */
  lemma {:induction false} TokensAreConserved(b: Bucket, times: seq<real>)
    requires Additive(b.gain) && Ordered(b.lastUpdate, times)
    ensures b.tokens + b.gain(b.lastUpdate, LastTime(b, times))
         == GrantCount(b, times) as real + RunOf(b, times).tokens + Overflow(b, times)
    ensures Overflow(b, times) >= 0.0
    decreases |times|
  {
    if times != [] {
      var n := |times| - 1;
      TokensAreConserved(b, times[..n]);
      RunFrame(b, times[..n]);
      assert AddsUp(b.gain, b.lastUpdate, LastTime(b, times[..n]), times[n]);
    }
  }

  /** From attempt i on a run spends at most a full bucket and what it earns after attempt i. */
  lemma {:induction false} SpendingBound(b: Bucket, times: seq<real>, i: nat, j: nat)
    requires Additive(b.gain) && Ordered(b.lastUpdate, times) && i < j <= |times|
    ensures GrantCount(b, times[..j]) as real + RunOf(b, times[..j]).tokens
         <= GrantCount(b, times[..i]) as real + b.capacity + b.gain(times[i], times[j - 1])
    decreases j
  {
    assert times[..j][..j - 1] == times[..j - 1];
    RunFrame(b, times[..j - 1]);
    if i + 1 < j {
      SpendingBound(b, times, i, j - 1);
      assert AddsUp(b.gain, times[i], times[j - 2], times[j - 1]);
    }
  }

  /** Attempts i..j-1 of any run: at most the capacity plus what the rate earns between the first and the last. */
  lemma WindowBound(b: Bucket, rate: real, times: seq<real>, i: nat, j: nat)
    requires Steady(b, rate) && Ordered(b.lastUpdate, times) && i < j <= |times|
    ensures (GrantCount(b, times[..j]) - GrantCount(b, times[..i])) as real
         <= b.capacity + (times[j - 1] - times[i]) * rate
  {
    SpendingBound(b, times, i, j);
    RunKeepsInv(b, times[..j]);
    assert EarnsAt(b.gain, rate, times[i], times[j - 1]);
  }

  /** The bound for what the program builds: a limiter made at `now` with a rate that is also its capacity. */
  lemma FreshWindowBound(rate: real, now: real, times: seq<real>, i: nat, j: nat)
    requires rate >= 0.0 && Ordered(now, times) && i < j <= |times|
    ensures var b := Fresh(rate, now);
            (GrantCount(b, times[..j]) - GrantCount(b, times[..i])) as real <= rate + (times[j - 1] - times[i]) * rate
  {
    FreshIsSteady(rate, now);
    WindowBound(Fresh(rate, now), rate, times, i, j);
  }

  predicate LastRefused(b: Bucket, times: seq<real>) {
    times != [] && GrantCount(b, times) == GrantCount(b, times[..|times| - 1])
  }

  /** A refused run that never overflowed has been granted all it earned but a fraction of one token. */
  lemma RefusalMeansSpent(b: Bucket, times: seq<real>)
    requires Additive(b.gain) && Ordered(b.lastUpdate, times)
    requires LastRefused(b, times) && Overflow(b, times) == 0.0
    ensures GrantCount(b, times) as real > b.tokens + b.gain(b.lastUpdate, times[|times| - 1]) - 1.0
  {
    TokensAreConserved(b, times);
  }

  lemma {:induction false} SlowNeverGrants(b: Bucket, times: seq<real>)
    requires b.capacity < 1.0
    ensures GrantCount(b, times) == 0
    decreases |times|
  {
    if times != [] {
      SlowNeverGrants(b, times[..|times| - 1]);
      RunFrame(b, times[..|times| - 1]);
    }
  }

  /** A new limiter can ever grant a request if and only if its rate is at least one. */
  lemma GrantsEverIff(rate: real, now: real)
    ensures (exists times: seq<real> :: GrantCount(Fresh(rate, now), times) > 0) <==> rate >= 1.0
  {
    var b := Fresh(rate, now);
    if rate >= 1.0 {
      assert [now][..0] == [] && RunOf(b, []) == b;
      assert b.gain(now, now) == 0.0;
      assert GrantCount(b, [now]) > 0;
    } else {
      forall times: seq<real> ensures GrantCount(b, times) == 0 {
        SlowNeverGrants(b, times);
      }
    }
  }

  /**
   A refill earns what the time since the last attempt is worth, up to a full bucket; tokens spill
   only from a full one.
   */
  lemma RefillIsExact(b: Bucket, rate: real, now: real)
    requires Steady(b, rate) && b.lastUpdate <= now
    ensures var worth := b.tokens + (now - b.lastUpdate) * rate;
            Refilled(b, now) == if worth <= b.capacity then worth else b.capacity
  {
    assert EarnsAt(b.gain, rate, b.lastUpdate, now);
  }

  lemma {:induction false} OverflowNeedsFullBucket(b: Bucket, times: seq<real>)
    requires Inv(b)
    ensures Overflow(b, times) > 0.0 ==>
              exists n | 0 <= n < |times| :: Refilled(RunOf(b, times[..n]), times[n]) == b.capacity
    decreases |times|
  {
    if times != [] {
      var n := |times| - 1;
      OverflowNeedsFullBucket(b, times[..n]);
      RunFrame(b, times[..n]);
      if Refilled(RunOf(b, times[..n]), times[n]) != b.capacity && Overflow(b, times) > 0.0 {
        var m :| 0 <= m < n && Refilled(RunOf(b, times[..n][..m]), times[..n][m]) == b.capacity;
        assert times[..n][..m] == times[..m];
      }
    }
  }

  /** Patience is rewarded: with room for a token, an attempt that waited for one whole token is granted. */
  lemma WaitingIsRewarded(b: Bucket, rate: real, times: seq<real>, now: real)
    requires Steady(b, rate) && b.capacity >= 1.0 && Ordered(b.lastUpdate, times + [now])
    requires (now - LastTime(b, times)) * rate >= 1.0
    ensures GrantCount(b, times + [now]) == GrantCount(b, times) + 1
  {
    RunFrame(b, times);
    RunKeepsInv(b, times);
    var all := times + [now];
    assert all[..|times|] == times && all[|times|] == now;
    assert LastTime(b, times) <= now by {
      assert times != [] ==> times[|times| - 1] == all[|times| - 1];
    }
    assert EarnsAt(b.gain, rate, LastTime(b, times), now);
  }
}
