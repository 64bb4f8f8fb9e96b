/** Capped exponential back-off per request key, with pruning of keys nobody asks about. */
module RequestBackoff {
  import opened Common

  // Durations and instants are nanoseconds; a Duration holds u64 seconds and a nanosecond part.
  const SECOND: nat := 1_000_000_000
  const DURATION_MAX: nat := U64_MAX * SECOND + 999_999_999

  datatype Policy = Policy(initialDelay: nat, maxDelay: nat)

  function Pow2(n: nat): nat {
    if n == 0 then 1 else 2 * Pow2(n - 1)
  }

  function FromPollingInterval(pollingIntervalInS: nat): Policy {
    var base := Max(pollingIntervalInS, 1);
    Policy(base * SECOND, Min(Min(base * 32, U64_MAX), 300) * SECOND)
  }

  /** The saturating code: exponent capped at 31, multiplication checked for overflow. */
  function DelayForFailure(p: Policy, failures: nat): nat {
    var factor := Min(Pow2(Min(SaturatingSub(failures, 1), 31)), U32_MAX);
    var scaled := if p.initialDelay * factor <= DURATION_MAX then p.initialDelay * factor else p.maxDelay;
    Min(scaled, p.maxDelay)
  }

  function ExponentialFormula(p: Policy, failures: nat): nat
    requires failures >= 1
  {
    Min(p.initialDelay * Pow2(failures - 1), p.maxDelay)
  }

  lemma Pow2Grows(m: nat, n: nat)
    requires m <= n
    ensures 1 <= Pow2(m) <= Pow2(n) && (m < n ==> 2 * Pow2(m) <= Pow2(n))
  {
    if m < n {
      Pow2Grows(m, n - 1);
    }
  }

  lemma Pow31()
    ensures Pow2(31) == 0x8000_0000
  {
    assert Pow2(8) == 256;
    assert Pow2(16) == 65536;
    assert Pow2(24) == 0x100_0000;
  }

  lemma Scale(x: nat, a: nat, b: nat)
    requires a <= b
    ensures x * a <= x * b
  {
  }

  lemma CodeWithCappedExponent(p: Policy, failures: nat)
    requires failures >= 1 && p.maxDelay <= DURATION_MAX
    ensures DelayForFailure(p, failures) == Min(p.initialDelay * Pow2(Min(failures - 1, 31)), p.maxDelay)
  {
    Pow31();
    Pow2Grows(Min(failures - 1, 31), 31);
  }

  /** For any policy, exactly when the capped code is the plain exponential formula. */
  lemma BackoffIsExponentialIff(p: Policy, failures: nat)
    requires failures >= 1 && p.maxDelay <= DURATION_MAX
    ensures DelayForFailure(p, failures) == ExponentialFormula(p, failures) <==>
            failures <= 32 || p.initialDelay == 0 || p.maxDelay <= p.initialDelay * 0x8000_0000
  {
    Pow31();
    CodeWithCappedExponent(p, failures);
    if failures > 32 {
      Pow2Grows(31, failures - 1);
      var exact := p.initialDelay * Pow2(failures - 1);
      Scale(p.initialDelay, 2 * Pow2(31), Pow2(failures - 1));
      assert p.initialDelay * (2 * Pow2(31)) == 2 * (p.initialDelay * Pow2(31)) <= exact;
    }
  }

  /** Every policy built from a polling interval meets it, and its delays never shrink. */
  lemma PollingBackoff(pollingIntervalInS: nat, failures: nat)
    requires pollingIntervalInS <= U64_MAX && failures >= 1
    ensures var p := FromPollingInterval(pollingIntervalInS);
            && DelayForFailure(p, failures) == ExponentialFormula(p, failures)
            && DelayForFailure(p, failures) <= DelayForFailure(p, failures + 1) <= p.maxDelay <= 300 * SECOND
            && DelayForFailure(p, failures) >= SECOND
  {
    var p := FromPollingInterval(pollingIntervalInS);
    BackoffIsExponentialIff(p, failures);
    BackoffIsExponentialIff(p, failures + 1);
    Pow2Grows(failures - 1, failures);
    Scale(p.initialDelay, Pow2(failures - 1), Pow2(failures));
    Scale(p.initialDelay, 1, Pow2(failures - 1));
  }

  // ----- The controller -----

  datatype KeyState = KeyState(failures: nat, retryAfter: nat, lastSeen: nat)

  function CanAttempt<K>(m: map<K, KeyState>, key: K, now: nat): bool {
    key !in m || m[key].retryAfter <= now
  }

  function Seen<K>(m: map<K, KeyState>, key: K, now: nat): map<K, KeyState> {
    if key in m then m[key := m[key].(lastSeen := now)] else m
  }

  function Failed<K>(m: map<K, KeyState>, p: Policy, key: K, now: nat): map<K, KeyState> {
    var n := if key in m then Min(m[key].failures + 1, U32_MAX) else 1;
    m[key := KeyState(n, now + DelayForFailure(p, n), now)]
  }

  function StaleAfter(p: Policy): nat {
    if p.maxDelay * 2 <= DURATION_MAX then p.maxDelay * 2 else p.maxDelay
  }

  predicate Stale(p: Policy, st: KeyState, now: nat) {
    SaturatingSub(now, st.lastSeen) > StaleAfter(p)
  }

  function Pruned<K>(m: map<K, KeyState>, p: Policy, now: nat): map<K, KeyState> {
    map key | key in m && !Stale(p, m[key], now) :: m[key]
  }

  class Controller<K(==)> {
    const policy: Policy
    var stateByKey: map<K, KeyState>

    constructor (policy: Policy)
      ensures this.policy == policy && stateByKey == map[]
    {
      this.policy := policy;
      stateByKey := map[];
    }

    method CanAttemptAt(key: K, now: nat) returns (ok: bool)
      modifies this
      ensures ok == CanAttempt(old(stateByKey), key, now)
      ensures stateByKey == Seen(old(stateByKey), key, now)
    {
      if key !in stateByKey {
        return true;
      }
      stateByKey := stateByKey[key := stateByKey[key].(lastSeen := now)];
      return stateByKey[key].retryAfter <= now;
    }

    method RecordSuccess(key: K)
      modifies this
      ensures stateByKey == old(stateByKey) - {key}
    {
      stateByKey := stateByKey - {key};
    }

    method RecordFailureAt(key: K, now: nat)
      modifies this
      ensures stateByKey == Failed(old(stateByKey), policy, key, now)
    {
      if key in stateByKey {
        var failures := Min(stateByKey[key].failures + 1, U32_MAX);
        stateByKey := stateByKey[key := KeyState(failures, now + DelayForFailure(policy, failures), now)];
      } else {
        stateByKey := stateByKey[key := KeyState(1, now + DelayForFailure(policy, 1), now)];
      }
    }

    method PruneStaleAt(now: nat)
      modifies this
      ensures stateByKey == Pruned(old(stateByKey), policy, now)
    {
      var staleAfter := if policy.maxDelay * 2 <= DURATION_MAX then policy.maxDelay * 2 else policy.maxDelay;
      var toRemove: set<K> := {};
      var unseen := stateByKey.Keys;
      while unseen != {}
        invariant unseen <= stateByKey.Keys
        invariant toRemove == set k | k in stateByKey.Keys - unseen && Stale(policy, stateByKey[k], now)
      {
        var key :| key in unseen;
        if SaturatingSub(now, stateByKey[key].lastSeen) > staleAfter {
          toRemove := toRemove + {key};
        }
        unseen := unseen - {key};
      }
      stateByKey := stateByKey - toRemove;
    }
  }

  // ----- Runs -----

  datatype Event<K> = Ask(key: K, at: nat) | Fail(key: K, at: nat) | Succeed(key: K, at: nat) | Prune(at: nat)

  function Step<K>(m: map<K, KeyState>, p: Policy, ev: Event<K>): map<K, KeyState> {
    match ev
    case Ask(key, at) => Seen(m, key, at)
    case Fail(key, at) => Failed(m, p, key, at)
    case Succeed(key, _) => m - {key}
    case Prune(at) => Pruned(m, p, at)
  }

  function Run<K>(m: map<K, KeyState>, p: Policy, evs: seq<Event<K>>): map<K, KeyState>
    decreases |evs|
  {
    if evs == [] then m else Run(Step(m, p, evs[0]), p, evs[1..])
  }

  /** Time does not run backwards. */
  predicate Ordered<K>(now: nat, evs: seq<Event<K>>)
    decreases |evs|
  {
    evs == [] || (now <= evs[0].at && Ordered(evs[0].at, evs[1..]))
  }

  function EndTime<K>(now: nat, evs: seq<Event<K>>): nat {
    if evs == [] then now else evs[|evs| - 1].at
  }

  ghost predicate Inv<K>(m: map<K, KeyState>, p: Policy, now: nat) {
    forall key | key in m :: m[key].retryAfter <= m[key].lastSeen + p.maxDelay && m[key].lastSeen <= now
  }

  lemma {:induction false} RunKeepsInv<K>(m: map<K, KeyState>, p: Policy, now: nat, evs: seq<Event<K>>)
    requires Inv(m, p, now) && Ordered(now, evs)
    ensures Inv(Run(m, p, evs), p, EndTime(now, evs))
    decreases |evs|
  {
    if evs != [] {
      RunKeepsInv(Step(m, p, evs[0]), p, evs[0].at, evs[1..]);
    }
  }

  /** Seen from `now` on, both tables treat the key alike: same state, or no state against one that no longer blocks. */
  ghost predicate Alike<K>(pruned: map<K, KeyState>, full: map<K, KeyState>, key: K, now: nat) {
    || (key in pruned && key in full && pruned[key] == full[key])
    || (key !in pruned && (key in full ==> full[key].retryAfter <= now))
  }

  lemma {:induction false} AlikeStays<K>(pruned: map<K, KeyState>, full: map<K, KeyState>,
                                         p: Policy, evs: seq<Event<K>>, key: K, now: nat)
    requires Alike(pruned, full, key, now) && forall ev | ev in evs :: !(ev.Fail? && ev.key == key)
    ensures Alike(Run(pruned, p, evs), Run(full, p, evs), key, now)
    decreases |evs|
  {
    if evs != [] {
      assert evs[0] in evs;
      AlikeStays(Step(pruned, p, evs[0]), Step(full, p, evs[0]), p, evs[1..], key, now);
    }
  }

  /**
   Pruning never frees a blocked key: in every reachable state, and over every continuation up to the
   next failure of the key, every answer about it is the same with the pruning and without.
   */
  lemma PruningIsInvisible<K>(p: Policy, before: seq<Event<K>>, start: nat, now: nat,
                              after: seq<Event<K>>, key: K, later: nat)
    requires Ordered(start, before) && EndTime(start, before) <= now <= later
    requires forall ev | ev in after :: !(ev.Fail? && ev.key == key)
    ensures var m := Run(map[], p, before);
            CanAttempt(Run(Pruned(m, p, now), p, after), key, later) == CanAttempt(Run(m, p, after), key, later)
  {
    var m := Run(map[], p, before);
    RunKeepsInv(map[], p, start, before);
    assert Alike(Pruned(m, p, now), m, key, now);
    AlikeStays(Pruned(m, p, now), m, p, after, key, now);
  }

  /** After a failure it shows, exactly: the count of a pruned key starts over at one. */
  lemma PrunedKeyStartsOver<K>(m: map<K, KeyState>, p: Policy, key: K, now: nat, failedAt: nat)
    requires key in m && m[key].failures < U32_MAX
    ensures var pruned, full := Failed(Pruned(m, p, now), p, key, failedAt)[key], Failed(m, p, key, failedAt)[key];
            && full == KeyState(m[key].failures + 1, failedAt + DelayForFailure(p, m[key].failures + 1), failedAt)
            && pruned == (if Stale(p, m[key], now) then KeyState(1, failedAt + DelayForFailure(p, 1), failedAt)
                          else full)
  {
  }

  lemma RunOfOne<K>(m: map<K, KeyState>, p: Policy, ev: Event<K>)
    ensures Run(m, p, [ev]) == Step(m, p, ev)
  {
    assert [ev][1..] == [];
  }

  /** One failure, silence for 17s, another failure: with the pruning the key waits 1s, without it 2s. */
  lemma PruningShowsAfterFailure(key: string)
    ensures var p := Policy(1 * SECOND, 8 * SECOND);
            var m := Run(map[], p, [Fail(key, 0)]);
            var again := [Fail(key, 17 * SECOND)];
            && CanAttempt(Run(Pruned(m, p, 17 * SECOND), p, again), key, 18 * SECOND)
            && !CanAttempt(Run(m, p, again), key, 18 * SECOND)
  {
    var p := Policy(1 * SECOND, 8 * SECOND);
    var m := Run(map[], p, [Fail(key, 0)]);
    RunOfOne(map[], p, Fail(key, 0));
    RunOfOne(m, p, Fail(key, 17 * SECOND));
    RunOfOne(Pruned(m, p, 17 * SECOND), p, Fail(key, 17 * SECOND));
    PrunedKeyStartsOver(m, p, key, 17 * SECOND, 17 * SECOND);
    assert Pow2(1) == 2;
  }

  /** Every delay of the policy is the same. */
  predicate NeverGrows(p: Policy) {
    p.initialDelay == 0 || p.maxDelay <= p.initialDelay
  }

  lemma DelayIsConstantIff(p: Policy, failures: nat)
    requires failures >= 2 && p.maxDelay <= DURATION_MAX
    ensures DelayForFailure(p, failures) == DelayForFailure(p, 1) <==> NeverGrows(p)
    ensures DelayForFailure(p, failures) >= DelayForFailure(p, 1)
  {
    CodeWithCappedExponent(p, failures);
    CodeWithCappedExponent(p, 1);
    Pow2Grows(1, Min(failures - 1, 31));
    Scale(p.initialDelay, 2, Pow2(Min(failures - 1, 31)));
  }

  /** Like `Alike`, but blind to the number of failures. */
  ghost predicate SameTimes<K>(pruned: map<K, KeyState>, full: map<K, KeyState>, key: K, now: nat) {
    || (key in pruned && key in full && pruned[key].retryAfter == full[key].retryAfter
        && pruned[key].lastSeen == full[key].lastSeen)
    || (key !in pruned && (key in full ==> full[key].retryAfter <= now))
  }

  lemma {:induction false} SameTimesStay<K>(pruned: map<K, KeyState>, full: map<K, KeyState>,
                                            p: Policy, evs: seq<Event<K>>, key: K, now: nat)
    requires SameTimes(pruned, full, key, now)
    requires forall n: nat :: DelayForFailure(p, n) == DelayForFailure(p, 1)
    ensures SameTimes(Run(pruned, p, evs), Run(full, p, evs), key, now)
    decreases |evs|
  {
    if evs != [] {
      SameTimesStay(Step(pruned, p, evs[0]), Step(full, p, evs[0]), p, evs[1..], key, now);
    }
  }

  ghost predicate SameAt<K>(a: map<K, KeyState>, b: map<K, KeyState>, key: K) {
    (key in a <==> key in b) && (key in a ==> a[key] == b[key])
  }

  lemma {:induction false} SameAtStays<K>(a: map<K, KeyState>, b: map<K, KeyState>, p: Policy,
                                          evs: seq<Event<K>>, key: K)
    requires SameAt(a, b, key)
    ensures SameAt(Run(a, p, evs), Run(b, p, evs), key)
    decreases |evs|
  {
    if evs != [] {
      SameAtStays(Step(a, p, evs[0]), Step(b, p, evs[0]), p, evs[1..], key);
    }
  }

  ghost predicate Counted<K>(m: map<K, KeyState>) {
    forall key | key in m :: m[key].failures >= 1
  }

  lemma {:induction false} RunKeepsCounts<K>(m: map<K, KeyState>, p: Policy, evs: seq<Event<K>>)
    requires Counted(m)
    ensures Counted(Run(m, p, evs))
    decreases |evs|
  {
    if evs != [] {
      RunKeepsCounts(Step(m, p, evs[0]), p, evs[1..]);
    }
  }

  ghost predicate SameAnswer<K>(m: map<K, KeyState>, p: Policy, now: nat, after: seq<Event<K>>, key: K, later: nat) {
    CanAttempt(Run(Pruned(m, p, now), p, after), key, later) == CanAttempt(Run(m, p, after), key, later)
  }

  /** No question about the key, after any continuation, tells whether the table was pruned. */
  ghost predicate NeverShows<K(!new)>(m: map<K, KeyState>, p: Policy, now: nat, key: K) {
    forall after: seq<Event<K>>, later: nat :: now <= later ==> SameAnswer(m, p, now, after, key, later)
  }

  lemma ConstantPolicyHides<K>(m: map<K, KeyState>, p: Policy, now: nat, after: seq<Event<K>>, key: K, later: nat)
    requires p.maxDelay <= DURATION_MAX && Inv(m, p, now) && NeverGrows(p) && now <= later
    ensures SameAnswer(m, p, now, after, key, later)
  {
    forall n: nat ensures DelayForFailure(p, n) == DelayForFailure(p, 1) {
      if n >= 2 {
        DelayIsConstantIff(p, n);
      }
    }
    SameTimesStay(Pruned(m, p, now), m, p, after, key, now);
  }

  lemma GrowingPolicyShows<K>(m: map<K, KeyState>, p: Policy, now: nat, key: K)
    requires p.maxDelay <= DURATION_MAX && Counted(m)
    requires key in m && Stale(p, m[key], now) && !NeverGrows(p)
    ensures !SameAnswer(m, p, now, [Fail(key, now)], key, now + DelayForFailure(p, 1))
  {
    RunOfOne(m, p, Fail(key, now));
    RunOfOne(Pruned(m, p, now), p, Fail(key, now));
    DelayIsConstantIff(p, Min(m[key].failures + 1, U32_MAX));
  }

  /**
   Exactly when pruning cannot be seen at all: the key was not pruned, or the policy's delay never
   grows, so that forgetting how often the key failed makes no difference.
   */
  lemma PruningNeverShowsIff<K(!new)>(p: Policy, before: seq<Event<K>>, start: nat, now: nat, key: K)
    requires Ordered(start, before) && EndTime(start, before) <= now && p.maxDelay <= DURATION_MAX
    ensures var m := Run(map[], p, before);
            NeverShows(m, p, now, key) <==> !(key in m && Stale(p, m[key], now)) || NeverGrows(p)
  {
    var m := Run(map[], p, before);
    RunKeepsInv(map[], p, start, before);
    RunKeepsCounts(map[], p, before);
    assert Inv(m, p, now);
    if !(key in m && Stale(p, m[key], now)) {
      forall after: seq<Event<K>>, later: nat ensures SameAnswer(m, p, now, after, key, later) {
        SameAtStays(Pruned(m, p, now), m, p, after, key);
      }
    } else if NeverGrows(p) {
      forall after: seq<Event<K>>, later: nat | now <= later ensures SameAnswer(m, p, now, after, key, later) {
        ConstantPolicyHides(m, p, now, after, key, later);
      }
    } else {
      GrowingPolicyShows(m, p, now, key);
    }
  }

  /** However the run goes on, a key is attemptable `maxDelay` after its last failure. */
  lemma {:induction false} BlockedAtMostMaxDelay<K>(m: map<K, KeyState>, p: Policy,
                                                    evs: seq<Event<K>>, key: K, failedAt: nat)
    requires key in m ==> m[key].retryAfter <= failedAt + p.maxDelay
    requires forall ev | ev in evs :: !(ev.Fail? && ev.key == key)
    ensures CanAttempt(Run(m, p, evs), key, failedAt + p.maxDelay)
    decreases |evs|
  {
    if evs != [] {
      assert evs[0] in evs;
      BlockedAtMostMaxDelay(Step(m, p, evs[0]), p, evs[1..], key, failedAt);
    }
  }

  lemma FailureBlocksBriefly<K>(m: map<K, KeyState>, p: Policy, evs: seq<Event<K>>, key: K, failedAt: nat)
    requires forall ev | ev in evs :: !(ev.Fail? && ev.key == key)
    ensures CanAttempt(Run(Failed(m, p, key, failedAt), p, evs), key, failedAt + p.maxDelay)
  {
    BlockedAtMostMaxDelay(Failed(m, p, key, failedAt), p, evs, key, failedAt);
  }

  /** Neither a success nor another failure of the key. */
  predicate LeavesAlone<K(==)>(ev: Event<K>, key: K) {
    !((ev.Fail? || ev.Succeed?) && ev.key == key)
  }

  lemma {:induction false} BlockedUntil<K>(m: map<K, KeyState>, p: Policy, evs: seq<Event<K>>,
                                           key: K, now: nat, retryAt: nat, asked: nat)
    requires key in m && m[key].retryAfter == retryAt <= m[key].lastSeen + p.maxDelay && m[key].lastSeen <= now
    requires Ordered(now, evs) && EndTime(now, evs) <= asked < retryAt
    requires forall ev | ev in evs :: LeavesAlone(ev, key)
    ensures !CanAttempt(Run(m, p, evs), key, asked)
    decreases |evs|
  {
    if evs != [] {
      assert evs[0] in evs;
      EndIsLast(now, evs);
      BlockedUntil(Step(m, p, evs[0]), p, evs[1..], key, evs[0].at, retryAt, asked);
    }
  }

  lemma {:induction false} EndIsLast<K>(now: nat, evs: seq<Event<K>>)
    requires evs != [] && Ordered(now, evs)
    ensures evs[0].at <= EndTime(now, evs) == EndTime(evs[0].at, evs[1..])
    decreases |evs|
  {
    if |evs| > 1 {
      EndIsLast(evs[0].at, evs[1..]);
    }
  }

  lemma {:induction false} FreeOnceElapsed<K>(m: map<K, KeyState>, p: Policy, evs: seq<Event<K>>, key: K, retryAt: nat)
    requires (key in m ==> m[key].retryAfter <= retryAt) && forall ev | ev in evs :: LeavesAlone(ev, key)
    ensures CanAttempt(Run(m, p, evs), key, retryAt)
    ensures key in Run(m, p, evs) ==> Run(m, p, evs)[key].retryAfter <= retryAt
    decreases |evs|
  {
    if evs != [] {
      assert evs[0] in evs;
      FreeOnceElapsed(Step(m, p, evs[0]), p, evs[1..], key, retryAt);
    }
  }

  /**
   A failure blocks for exactly the policy's delay: over every ordered continuation without a success or
   another failure of the key, questions and prunes included, it may be attempted if and only if the
   delay for its number of failures has passed.
   */
  lemma FailureBlocksExactly<K>(m: map<K, KeyState>, p: Policy, evs: seq<Event<K>>, key: K, failedAt: nat, asked: nat)
    requires Ordered(failedAt, evs) && EndTime(failedAt, evs) <= asked
    requires forall ev | ev in evs :: LeavesAlone(ev, key)
    ensures var failures := if key in m then Min(m[key].failures + 1, U32_MAX) else 1;
            CanAttempt(Run(Failed(m, p, key, failedAt), p, evs), key, asked)
            <==> failedAt + DelayForFailure(p, failures) <= asked
  {
    var failed := Failed(m, p, key, failedAt);
    var retryAt := failed[key].retryAfter;
    if asked < retryAt {
      BlockedUntil(failed, p, evs, key, failedAt, retryAt, asked);
    } else {
      FreeOnceElapsed(failed, p, evs, key, retryAt);
    }
  }

  /** The first delay is the polling interval, and the longest 32 of them, but 300s at the most. */
  lemma PolicyFromInterval(pollingIntervalInS: nat)
    requires 1 <= pollingIntervalInS <= U64_MAX
    ensures var p := FromPollingInterval(pollingIntervalInS);
            && DelayForFailure(p, 1) == (if pollingIntervalInS <= 300 then pollingIntervalInS else 300) * SECOND
            && p.maxDelay == (if 32 * pollingIntervalInS <= 300 then 32 * pollingIntervalInS else 300) * SECOND
    ensures FromPollingInterval(0) == FromPollingInterval(1)
  {
    var p := FromPollingInterval(pollingIntervalInS);
    CodeWithCappedExponent(p, 1);
  }

  /** No prune comes more than twice the maximum delay after the key was last asked about. */
  predicate AskedOften<K(==)>(evs: seq<Event<K>>, p: Policy, key: K, lastSeen: nat)
    decreases |evs|
  {
    evs == [] ||
    match evs[0]
    case Ask(k, at) => AskedOften(evs[1..], p, key, if k == key then at else lastSeen)
    case Prune(at) => at <= lastSeen + 2 * p.maxDelay && AskedOften(evs[1..], p, key, lastSeen)
    case _ => AskedOften(evs[1..], p, key, lastSeen)
  }

  /** Asking keeps a key: one asked about often enough is never pruned and keeps its count of failures. */
  lemma {:induction false} AskedKeyIsKept<K>(m: map<K, KeyState>, p: Policy, evs: seq<Event<K>>, key: K, lastSeen: nat)
    requires 2 * p.maxDelay <= DURATION_MAX && key in m && m[key].lastSeen == lastSeen
    requires AskedOften(evs, p, key, lastSeen) && forall ev | ev in evs :: LeavesAlone(ev, key)
    ensures key in Run(m, p, evs) && Run(m, p, evs)[key].failures == m[key].failures
    ensures Run(m, p, evs)[key].retryAfter == m[key].retryAfter
    decreases |evs|
  {
    if evs != [] {
      assert evs[0] in evs;
      AskedKeyIsKept(Step(m, p, evs[0]), p, evs[1..], key,
                     if evs[0].Ask? && evs[0].key == key then evs[0].at else lastSeen);
    }
  }

  /** ... and one left alone for longer is pruned. */
  lemma ForgottenKeyIsPruned<K>(m: map<K, KeyState>, p: Policy, key: K, now: nat)
    requires 2 * p.maxDelay <= DURATION_MAX && key in m
    ensures key in Pruned(m, p, now) <==> now <= m[key].lastSeen + 2 * p.maxDelay
  {
  }

  /** A success clears the slate: the key may be attempted at once, and its next failure counts as the first. */
  lemma SuccessClears<K>(m: map<K, KeyState>, p: Policy, key: K, at: nat, failedAt: nat)
    ensures var m' := Step(m, p, Succeed(key, at));
            && CanAttempt(m', key, at)
            && Failed(m', p, key, failedAt)[key] == KeyState(1, failedAt + DelayForFailure(p, 1), failedAt)
  {
  }

  /** What happens to one key leaves every other as it was. */
  lemma OtherKeysUntouched<K>(m: map<K, KeyState>, p: Policy, ev: Event<K>, other: K)
    requires !ev.Prune? && ev.key != other
    ensures SameAt(Step(m, p, ev), m, other)
  {
  }
}
