/** Exposure deduplication: a bounded set of key hashes that is emptied when it is full. */
module LogEventDedupe {
  import opened Common

  /** An event that failed to parse, one without a dedupe key, or one with a key. */
  datatype Event =
    | Invalid(payload: nat)
    | Unkeyed(payload: nat)
    | Keyed(payload: nat, key: string)

  /** The cache limit and the process's random hash. */
  datatype Settings = Settings(limit: nat, hash: string -> nat)

  datatype Stats = Stats(batchIn: nat, batchOut: nat, deduped: nat)

  /** The cache as the next keyed event finds it. */
  function Cleared(cfg: Settings, cache: set<nat>): set<nat> {
    if |cache| >= cfg.limit then {} else cache
  }

  function CacheAfter(cfg: Settings, cache: set<nat>, events: seq<Event>): set<nat> {
    if events == [] then cache
    else
      var before := CacheAfter(cfg, cache, events[..|events| - 1]);
      match events[|events| - 1]
      case Keyed(_, key) => Cleared(cfg, before) + {cfg.hash(key)}
      case _ => before
  }

  /** The cache just before event i. */
  function CacheAt(cfg: Settings, cache: set<nat>, events: seq<Event>, i: nat): set<nat>
    requires i <= |events|
  {
    CacheAfter(cfg, cache, events[..i])
  }

  lemma CacheStep(cfg: Settings, cache: set<nat>, events: seq<Event>, i: nat)
    requires i < |events|
    ensures CacheAt(cfg, cache, events, i + 1) ==
            if events[i].Keyed? then Cleared(cfg, CacheAt(cfg, cache, events, i)) + {cfg.hash(events[i].key)}
            else CacheAt(cfg, cache, events, i)
  {
    assert events[..i + 1][..i] == events[..i];
  }

  predicate Clears(cfg: Settings, cache: set<nat>, events: seq<Event>, i: nat)
    requires i < |events|
  {
    events[i].Keyed? && |CacheAt(cfg, cache, events, i)| >= cfg.limit
  }

  predicate Keeps(cfg: Settings, cache: set<nat>, events: seq<Event>, i: nat)
    requires i < |events|
  {
    match events[i]
    case Invalid(_) => false
    case Unkeyed(_) => true
    case Keyed(_, key) => cfg.hash(key) !in Cleared(cfg, CacheAt(cfg, cache, events, i))
  }

  /** What survives of the first n events. */
  function KeptUpTo(cfg: Settings, cache: set<nat>, events: seq<Event>, n: nat): seq<Event>
    requires n <= |events|
  {
    if n == 0 then []
    else KeptUpTo(cfg, cache, events, n - 1) + if Keeps(cfg, cache, events, n - 1) then [events[n - 1]] else []
  }

  function Kept(cfg: Settings, cache: set<nat>, events: seq<Event>): seq<Event> {
    KeptUpTo(cfg, cache, events, |events|)
  }

  ghost predicate Increasing(r: seq<nat>, n: nat) {
    && (forall k | 0 <= k < |r| :: r[k] < n)
    && (forall j, k | 0 <= j < k < |r| :: r[j] < r[k])
  }

  /** The kept events are a subsequence, taken in order from exactly the positions that are kept. */
  lemma {:induction false} KeptIsSubsequence(cfg: Settings, cache: set<nat>, events: seq<Event>, n: nat)
    returns (from: seq<nat>)
    requires n <= |events|
    ensures Increasing(from, n) && |from| == |KeptUpTo(cfg, cache, events, n)|
    ensures forall k | 0 <= k < |from| :: KeptUpTo(cfg, cache, events, n)[k] == events[from[k]]
    ensures forall i | 0 <= i < n :: i in from <==> Keeps(cfg, cache, events, i)
  {
    if n == 0 {
      from := [];
    } else {
      from := KeptIsSubsequence(cfg, cache, events, n - 1);
      if Keeps(cfg, cache, events, n - 1) {
        from := from + [n - 1];
      }
    }
  }

  lemma {:induction false} KeptIsShorter(cfg: Settings, cache: set<nat>, events: seq<Event>, n: nat)
    requires n <= |events|
    ensures |KeptUpTo(cfg, cache, events, n)| <= n
  {
    if n > 0 {
      KeptIsShorter(cfg, cache, events, n - 1);
    }
  }

  class Request {
    var events: seq<Event>
    constructor (events: seq<Event>)
      ensures this.events == events
    {
      this.events := events;
    }
  }

  class Store {
    var cache: set<nat>
    const cfg: Settings

    constructor (cfg: Settings)
      ensures this.cfg == cfg && cache == {}
    {
      this.cfg := cfg;
      cache := {};
    }

    method CheckKey(key: string) returns (isNew: bool)
      modifies this
      ensures isNew == (cfg.hash(key) !in Cleared(cfg, old(cache)))
      ensures cache == Cleared(cfg, old(cache)) + {cfg.hash(key)}
    {
      if |cache| >= cfg.limit {
        cache := {};
      }
      isNew := cfg.hash(key) !in cache;
      cache := cache + {cfg.hash(key)};
    }

    method ProcessEvent(event: Event) returns (keep: bool)
      modifies this
      ensures keep == Keeps(cfg, old(cache), [event], 0)
      ensures cache == CacheAfter(cfg, old(cache), [event])
    {
      assert [event][..0] == [];
      match event
      case Invalid(_) => keep := false;
      case Unkeyed(_) => keep := true;
      case Keyed(_, key) => keep := CheckKey(key);
    }

    method DedupeEvents(data: Request) returns (stats: Stats)
      modifies this, data
      ensures data.events == Kept(cfg, old(cache), old(data.events))
      ensures cache == CacheAfter(cfg, old(cache), old(data.events))
      ensures stats.batchIn == |old(data.events)| && stats.batchOut == |data.events|
      ensures stats.batchIn == stats.batchOut + stats.deduped
    {
      var batch := data.events;
      var retained: seq<Event> := [];
      for i := 0 to |batch|
        invariant data.events == batch
        invariant cache == CacheAt(cfg, old(cache), batch, i)
        invariant retained == KeptUpTo(cfg, old(cache), batch, i)
      {
        CacheStep(cfg, old(cache), batch, i);
        assert [batch[i]][..0] == [];
        var keep := ProcessEvent(batch[i]);
        if keep {
          retained := retained + [batch[i]];
        }
      }
      assert batch[..|batch|] == batch;
      KeptIsShorter(cfg, old(cache), batch, |batch|);
      data.events := retained;
      stats := Stats(|batch|, |retained|, |batch| - |retained|);
    }
  }

  // Splitting a batch

  lemma {:induction false} CacheSplit(cfg: Settings, cache: set<nat>, a: seq<Event>, b: seq<Event>)
    ensures CacheAfter(cfg, cache, a + b) == CacheAfter(cfg, CacheAfter(cfg, cache, a), b)
    decreases |b|
  {
    if b == [] {
      assert a + b == a;
    } else {
      assert (a + b)[..|a + b| - 1] == a + b[..|b| - 1];
      CacheSplit(cfg, cache, a, b[..|b| - 1]);
    }
  }

  lemma KeepsSplit(cfg: Settings, cache: set<nat>, a: seq<Event>, b: seq<Event>, i: nat)
    requires i < |a + b|
    ensures i < |a| ==> Keeps(cfg, cache, a + b, i) == Keeps(cfg, cache, a, i)
    ensures i >= |a| ==> Keeps(cfg, cache, a + b, i) == Keeps(cfg, CacheAfter(cfg, cache, a), b, i - |a|)
  {
    if i < |a| {
      assert (a + b)[..i] == a[..i];
    } else {
      assert (a + b)[..i] == a + b[..i - |a|];
      CacheSplit(cfg, cache, a, b[..i - |a|]);
    }
  }

  lemma {:induction false} KeptPrefix(cfg: Settings, cache: set<nat>, a: seq<Event>, b: seq<Event>, n: nat)
    requires n <= |a|
    ensures KeptUpTo(cfg, cache, a + b, n) == KeptUpTo(cfg, cache, a, n)
  {
    if n > 0 {
      KeptPrefix(cfg, cache, a, b, n - 1);
      KeepsSplit(cfg, cache, a, b, n - 1);
    }
  }

  lemma {:induction false} KeptSplit(cfg: Settings, cache: set<nat>, a: seq<Event>, b: seq<Event>, n: nat)
    requires n <= |b|
    ensures KeptUpTo(cfg, cache, a + b, |a| + n)
         == Kept(cfg, cache, a) + KeptUpTo(cfg, CacheAfter(cfg, cache, a), b, n)
    decreases n
  {
    if n == 0 {
      KeptPrefix(cfg, cache, a, b, |a|);
    } else {
      KeptSplit(cfg, cache, a, b, n - 1);
      KeepsSplit(cfg, cache, a, b, |a| + n - 1);
    }
  }

  /** One batch or two in a row: the same events survive and the same cache is left. */
  lemma BatchesCompose(cfg: Settings, cache: set<nat>, a: seq<Event>, b: seq<Event>)
    ensures Kept(cfg, cache, a + b) == Kept(cfg, cache, a) + Kept(cfg, CacheAfter(cfg, cache, a), b)
    ensures CacheAfter(cfg, cache, a + b) == CacheAfter(cfg, CacheAfter(cfg, cache, a), b)
  {
    KeptSplit(cfg, cache, a, b, |b|);
    CacheSplit(cfg, cache, a, b);
  }

  // What the cache remembers

  predicate NoClear(cfg: Settings, cache: set<nat>, events: seq<Event>, from: nat, to: nat)
    requires to <= |events|
  {
    forall k :: from <= k < to ==> !Clears(cfg, cache, events, k)
  }

  /** Event i put h in the cache and nothing has emptied it before event n. */
  predicate Remembered(cfg: Settings, cache: set<nat>, events: seq<Event>, h: nat, i: nat, n: nat)
    requires i < n <= |events|
  {
    events[i].Keyed? && cfg.hash(events[i].key) == h && NoClear(cfg, cache, events, i + 1, n)
  }

  predicate Known(cfg: Settings, cache: set<nat>, events: seq<Event>, h: nat, n: nat)
    requires n <= |events|
  {
    || (h in cache && NoClear(cfg, cache, events, 0, n))
    || exists i: nat :: i < n && Remembered(cfg, cache, events, h, i, n)
  }

  /** One more event: a hash is known if it is the event's own, or was known and survives. */
  lemma KnownStep(cfg: Settings, cache: set<nat>, events: seq<Event>, h: nat, n: nat)
    requires n < |events|
    ensures Known(cfg, cache, events, h, n + 1) <==>
            || (events[n].Keyed? && cfg.hash(events[n].key) == h)
            || (Known(cfg, cache, events, h, n) && !Clears(cfg, cache, events, n))
  {
    if events[n].Keyed? && cfg.hash(events[n].key) == h {
      assert Remembered(cfg, cache, events, h, n, n + 1);
    } else if Known(cfg, cache, events, h, n + 1) {
      if !(h in cache && NoClear(cfg, cache, events, 0, n + 1)) {
        var i: nat :| i < n + 1 && Remembered(cfg, cache, events, h, i, n + 1);
        assert Remembered(cfg, cache, events, h, i, n);
      }
    } else if Known(cfg, cache, events, h, n) && !Clears(cfg, cache, events, n) {
      if !(h in cache && NoClear(cfg, cache, events, 0, n)) {
        var i: nat :| i < n && Remembered(cfg, cache, events, h, i, n);
        assert Remembered(cfg, cache, events, h, i, n + 1);
      }
    }
  }

  /** The cache before event n holds exactly the hashes seen since the last clear. */
  lemma {:induction false} CacheIsKnown(cfg: Settings, cache: set<nat>, events: seq<Event>, h: nat, n: nat)
    requires n <= |events|
    ensures h in CacheAt(cfg, cache, events, n) <==> Known(cfg, cache, events, h, n)
  {
    if n > 0 {
      CacheIsKnown(cfg, cache, events, h, n - 1);
      CacheStep(cfg, cache, events, n - 1);
      KnownStep(cfg, cache, events, h, n - 1);
    }
  }

  /** A keyed event is dropped exactly when its hash was seen and no clear, its own included, came since. */
  lemma DroppedIff(cfg: Settings, cache: set<nat>, events: seq<Event>, n: nat)
    requires n < |events| && events[n].Keyed?
    ensures !Keeps(cfg, cache, events, n) <==>
            !Clears(cfg, cache, events, n) && Known(cfg, cache, events, cfg.hash(events[n].key), n)
  {
    CacheIsKnown(cfg, cache, events, cfg.hash(events[n].key), n);
  }

  /** Two kept events with one hash have a clear between them (or at the second). */
  lemma RepeatNeedsClear(cfg: Settings, cache: set<nat>, events: seq<Event>, i: nat, j: nat)
    requires i < j < |events| && events[i].Keyed? && events[j].Keyed?
    requires cfg.hash(events[i].key) == cfg.hash(events[j].key)
    requires Keeps(cfg, cache, events, j)
    ensures exists k :: i < k <= j && Clears(cfg, cache, events, k)
  {
    if NoClear(cfg, cache, events, i + 1, j + 1) {
      assert !Clears(cfg, cache, events, j);
      assert Remembered(cfg, cache, events, cfg.hash(events[j].key), i, j);
      DroppedIff(cfg, cache, events, j);
    }
  }

  /** Hashes of the keyed events kept in [from, to). */
  function Admitted(cfg: Settings, cache: set<nat>, events: seq<Event>, from: nat, to: nat): set<nat>
    requires to <= |events|
  {
    set k | from <= k < to && events[k].Keyed? && Keeps(cfg, cache, events, k) :: cfg.hash(events[k].key)
  }

  lemma {:induction false} CacheWasAdmitted(cfg: Settings, cache: set<nat>, events: seq<Event>, i: nat, n: nat)
    requires i < n <= |events| && Clears(cfg, cache, events, i)
    ensures CacheAt(cfg, cache, events, n) <= Admitted(cfg, cache, events, i, n)
    decreases n
  {
    CacheStep(cfg, cache, events, n - 1);
    if n > i + 1 {
      CacheWasAdmitted(cfg, cache, events, i, n - 1);
      assert Admitted(cfg, cache, events, i, n - 1) <= Admitted(cfg, cache, events, i, n);
    }
  }

  lemma SubsetSize<T>(a: set<T>, b: set<T>)
    requires a <= b
    ensures |a| <= |b|
  {
    assert b == a + (b - a);
  }

  /** From one clear up to the next, at least `limit` distinct hashes are admitted. */
  lemma ClearsAreFarApart(cfg: Settings, cache: set<nat>, events: seq<Event>, i: nat, j: nat)
    requires i < j < |events| && Clears(cfg, cache, events, i) && Clears(cfg, cache, events, j)
    ensures |Admitted(cfg, cache, events, i, j)| >= cfg.limit
  {
    CacheWasAdmitted(cfg, cache, events, i, j);
    SubsetSize(CacheAt(cfg, cache, events, j), Admitted(cfg, cache, events, i, j));
  }

  /** The cache never outgrows its limit (a limit of zero still holds the last hash). */
  lemma {:induction false} CacheIsBounded(cfg: Settings, cache: set<nat>, events: seq<Event>)
    requires |cache| <= Max(cfg.limit, 1)
    ensures |CacheAfter(cfg, cache, events)| <= Max(cfg.limit, 1)
    decreases |events|
  {
    if events != [] {
      CacheIsBounded(cfg, cache, events[..|events| - 1]);
    }
  }

  function UnkeyedOf(events: seq<Event>): seq<Event> {
    if events == [] then []
    else UnkeyedOf(events[..|events| - 1]) + if events[|events| - 1].Unkeyed? then [events[|events| - 1]] else []
  }

  lemma {:induction false} UnkeyedSnoc(a: seq<Event>, e: Event)
    ensures UnkeyedOf(a + [e]) == UnkeyedOf(a) + if e.Unkeyed? then [e] else []
  {
    assert (a + [e])[..|a|] == a;
  }

  /** Whatever the cache, no invalid event survives and every event without a key does, in order. */
  lemma {:induction false} InvalidDroppedUnkeyedKept(cfg: Settings, cache: set<nat>, events: seq<Event>, n: nat)
    requires n <= |events|
    ensures forall e | e in KeptUpTo(cfg, cache, events, n) :: !e.Invalid?
    ensures UnkeyedOf(KeptUpTo(cfg, cache, events, n)) == UnkeyedOf(events[..n])
  {
    if n > 0 {
      InvalidDroppedUnkeyedKept(cfg, cache, events, n - 1);
      assert events[..n] == events[..n - 1] + [events[n - 1]];
      UnkeyedSnoc(events[..n - 1], events[n - 1]);
      if Keeps(cfg, cache, events, n - 1) {
        UnkeyedSnoc(KeptUpTo(cfg, cache, events, n - 1), events[n - 1]);
      } else {
        assert KeptUpTo(cfg, cache, events, n) == KeptUpTo(cfg, cache, events, n - 1);
      }
    }
  }
}
