/** The jittered polling cadence: unsigned 64-bit milliseconds with saturating arithmetic. */
module PollCadence {
  import opened Common

  function SaturatingAdd(a: nat, b: nat): nat {
    Min(a + b, U64_MAX)
  }

  /** The configured interval in milliseconds, clamped into the positive 64-bit range. */
  function Base(configured: nat): nat {
    Max(1, Min(configured, U64_MAX))
  }

  /** `jitter` stands for the hashed cycle and seed, any 64-bit value. */
  function PollInterval(configured: nat, jitter: nat): nat {
    var base := Base(configured);
    var window := Max(base / 10, 1);
    var buckets := SaturatingAdd(Min(window * 2, U64_MAX), 1);
    var offset := jitter % buckets - window;
    if offset < 0 then Max(SaturatingSub(base, -offset), 1) else SaturatingAdd(base, offset)
  }

  function Window(configured: nat): nat {
    Max(Base(configured) / 10, 1)
  }

  /** Every interval is positive, a 64-bit value, and within the window of the base. */
  lemma IntervalBounds(configured: nat, jitter: nat)
    ensures var r, base, w := PollInterval(configured, jitter), Base(configured), Window(configured);
            0 < r <= U64_MAX && base - w <= r <= base + w
  {
    var buckets := SaturatingAdd(Min(Window(configured) * 2, U64_MAX), 1);
    assert 0 <= jitter % buckets < buckets == 2 * Window(configured) + 1;
  }

  /** The interval is the base shifted by the hash, uniformly over the window and kept positive and 64-bit. */
  lemma IntervalExact(configured: nat, jitter: nat)
    ensures var base, w := Base(configured), Window(configured);
            var shifted := base - w + jitter % (2 * w + 1);
            PollInterval(configured, jitter)
            == if shifted < 1 then 1 else if shifted > U64_MAX then U64_MAX else shifted
    ensures Base(configured) == (if configured == 0 then 1 else if configured > U64_MAX then U64_MAX else configured)
    ensures Window(configured) == if Base(configured) < 20 then 1 else Base(configured) / 10
  {
    var w := Window(configured);
    assert SaturatingAdd(Min(w * 2, U64_MAX), 1) == 2 * w + 1;
  }

  function NextPollAt(start: nat, configured: nat, jitters: seq<nat>): nat {
    if jitters == [] then start
    else NextPollAt(start, configured, jitters[..|jitters| - 1]) + PollInterval(configured, jitters[|jitters| - 1])
  }

  lemma {:induction false} SumBounds(start: nat, configured: nat, jitters: seq<nat>, low: int, high: int)
    requires forall j: nat :: low <= PollInterval(configured, j) <= high
    ensures start + |jitters| * low <= NextPollAt(start, configured, jitters) <= start + |jitters| * high
  {
    if jitters != [] {
      var n := |jitters| - 1;
      SumBounds(start, configured, jitters[..n], low, high);
      assert (n + 1) * low == n * low + low && (n + 1) * high == n * high + high;
    }
  }

  /** After n cycles the cadence has drifted by at most n windows, whatever the seeds were. */
  lemma CadenceBounds(start: nat, configured: nat, jitters: seq<nat>)
    ensures var n, base, w := |jitters|, Base(configured), Window(configured);
            start + n * (base - w) <= NextPollAt(start, configured, jitters) <= start + n * (base + w)
  {
    var base, w := Base(configured), Window(configured);
    forall j: nat ensures base - w <= PollInterval(configured, j) <= base + w {
      IntervalBounds(configured, j);
    }
    SumBounds(start, configured, jitters, base - w, base + w);
  }
}
