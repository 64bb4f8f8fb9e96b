/**
 The bounded-concurrency launcher: which of the registered items are requested, in what order, how
 many at a time and how far apart.

 Request completion order and waiting times are chosen nondeterministically, so every contract here
 holds for every schedule.
 */
module FetchLauncher {
  import opened Common

  /** What happens in a round, in order: item `index` is launched for its slot, or is found completed. */
  datatype Entry = Launched(index: nat, slot: nat, at: nat) | Completed(index: nat)

  function Launches(log: seq<Entry>): (r: seq<Entry>)
    ensures forall k | 0 <= k < |r| :: r[k].Launched?
  {
    if log == [] then []
    else Launches(log[..|log| - 1]) + if log[|log| - 1].Launched? then [log[|log| - 1]] else []
  }

  function Completions(log: seq<Entry>): nat {
    if log == [] then 0 else Completions(log[..|log| - 1]) + if log[|log| - 1].Completed? then 1 else 0
  }

  /** Items 0, 1, 2, ... are launched in this order, each once, `count` in all. */
  ghost predicate LaunchedInOrder(log: seq<Entry>, count: nat) {
    |Launches(log)| == count && forall k | 0 <= k < count :: Launches(log)[k].index == k
  }

  /** At no point are more than `maxInFlight` items launched and not yet completed. */
  ghost predicate WithinCap(log: seq<Entry>, maxInFlight: nat) {
    forall n | 0 <= n <= |log| :: |Launches(log[..n])| <= Completions(log[..n]) + maxInFlight
  }

  ghost predicate HasLaunch(log: seq<Entry>, index: nat) {
    exists p | 0 <= p < |log| :: log[p].Launched? && log[p].index == index
  }

  ghost predicate HasCompletion(log: seq<Entry>, index: nat) {
    exists p | 0 <= p < |log| :: log[p].Completed? && log[p].index == index
  }

  /** An item completes after its own launch and only once. */
  ghost predicate CompletesAfterLaunch(log: seq<Entry>) {
    forall p | 0 <= p < |log| && log[p].Completed? ::
      HasLaunch(log[..p], log[p].index) && !HasCompletion(log[..p], log[p].index)
  }

  /** Nothing is waited for while an item is left to launch and a slot is free. */
  ghost predicate KeepsBusy(log: seq<Entry>, count: nat, maxInFlight: nat) {
    forall p | 0 <= p < |log| && log[p].Completed? ::
      |Launches(log[..p])| == count || |Launches(log[..p])| == Completions(log[..p]) + maxInFlight
  }

  /** Launches never happen before their slot, and slots are at least `spacing` apart. */
  ghost predicate Paced(launches: seq<Entry>, spacing: nat)
    requires forall k | 0 <= k < |launches| :: launches[k].Launched?
  {
    && (forall i | 0 <= i < |launches| :: launches[i].slot <= launches[i].at)
    && (forall i | 0 <= i < |launches| - 1 :: launches[i].slot + spacing <= launches[i + 1].slot)
  }

  /** Waits for the next slot; without spacing there are no slots and nothing waits. */
  method WaitForLaunchSlot(now: nat, nextLaunchAt: nat, spacing: nat)
    returns (slot: nat, now': nat, nextLaunchAt': nat)
    ensures now <= now' && slot <= now'
    ensures spacing > 0 ==> slot == Max(nextLaunchAt, now) && nextLaunchAt' == slot + spacing
    ensures spacing == 0 ==> slot == now && now' == now && nextLaunchAt' == nextLaunchAt
  {
    if spacing == 0 {
      return now, now, nextLaunchAt;
    }
    slot := Max(nextLaunchAt, now);
    var overslept: int :| 0 <= overslept;
    now' := slot + overslept;
    nextLaunchAt' := slot + spacing;
  }

  /** `inFlight` is exactly what the log says is launched and not completed. */
  ghost predicate Tracks(log: seq<Entry>, next: nat, inFlight: set<nat>) {
    && |Launches(log)| == Completions(log) + |inFlight|
    && (forall i | i in inFlight :: i < next && HasLaunch(log, i) && !HasCompletion(log, i))
    && (forall p | 0 <= p < |log| && log[p].Completed? :: log[p].index < next)
  }

  /** The log so far meets its promises, and the clock is past the last slot. */
  ghost predicate Launching(log: seq<Entry>, next: nat, inFlight: set<nat>, maxInFlight: nat, spacing: nat,
                            now: nat, nextLaunchAt: nat)
  {
    && LaunchedInOrder(log, next) && WithinCap(log, maxInFlight) && CompletesAfterLaunch(log)
    && Paced(Launches(log), spacing) && Tracks(log, next, inFlight)
    && (next > 0 ==> Launches(log)[next - 1].slot + spacing <= if spacing == 0 then now else nextLaunchAt)
  }

  lemma PrefixOfMore(log: seq<Entry>, e: Entry)
    ensures (log + [e])[..|log|] == log
    ensures forall n | 0 <= n <= |log| :: (log + [e])[..n] == log[..n]
  {
  }

  lemma OneMoreEntry(log: seq<Entry>, e: Entry, i: nat)
    ensures HasLaunch(log + [e], i) <==> HasLaunch(log, i) || (e.Launched? && e.index == i)
    ensures HasCompletion(log + [e], i) <==> HasCompletion(log, i) || (e.Completed? && e.index == i)
  {
    var more := log + [e];
    assert more[|log|] == e;
    if HasLaunch(log, i) {
      var p :| 0 <= p < |log| && log[p].Launched? && log[p].index == i;
      assert more[p] == log[p];
    }
    if HasCompletion(log, i) {
      var p :| 0 <= p < |log| && log[p].Completed? && log[p].index == i;
      assert more[p] == log[p];
    }
  }

  lemma CapStays(log: seq<Entry>, e: Entry, maxInFlight: nat)
    requires WithinCap(log, maxInFlight) && |Launches(log + [e])| <= Completions(log + [e]) + maxInFlight
    ensures WithinCap(log + [e], maxInFlight)
  {
    var more := log + [e];
    PrefixOfMore(log, e);
    forall n | 0 <= n <= |more| ensures |Launches(more[..n])| <= Completions(more[..n]) + maxInFlight {
      assert n == |more| ==> more[..n] == more;
    }
  }

  lemma CompletionsStay(log: seq<Entry>, e: Entry)
    requires CompletesAfterLaunch(log)
    requires e.Completed? ==> HasLaunch(log, e.index) && !HasCompletion(log, e.index)
    ensures CompletesAfterLaunch(log + [e])
  {
    var more := log + [e];
    PrefixOfMore(log, e);
    forall p | 0 <= p < |more| && more[p].Completed?
      ensures HasLaunch(more[..p], more[p].index) && !HasCompletion(more[..p], more[p].index)
    {
      assert more[p] == if p < |log| then log[p] else e;
    }
  }

  lemma BusyStays(log: seq<Entry>, e: Entry, count: nat, maxInFlight: nat)
    requires KeepsBusy(log, count, maxInFlight)
    requires e.Completed? ==> |Launches(log)| == count || |Launches(log)| == Completions(log) + maxInFlight
    ensures KeepsBusy(log + [e], count, maxInFlight)
  {
    var more := log + [e];
    PrefixOfMore(log, e);
    forall p | 0 <= p < |more| && more[p].Completed?
      ensures |Launches(more[..p])| == count || |Launches(more[..p])| == Completions(more[..p]) + maxInFlight
    {
      assert more[p] == if p < |log| then log[p] else e;
    }
  }

  lemma LaunchTracked(log: seq<Entry>, next: nat, inFlight: set<nat>, e: Entry)
    requires Tracks(log, next, inFlight) && e.Launched? && e.index == next
    ensures Tracks(log + [e], next + 1, inFlight + {next})
  {
    var more := log + [e];
    PrefixOfMore(log, e);
    assert next !in inFlight;
    forall i | i in inFlight + {next} ensures HasLaunch(more, i) && !HasCompletion(more, i) {
      OneMoreEntry(log, e, i);
    }
    assert forall p | 0 <= p < |log| :: more[p] == log[p];
  }

  lemma CompletionTracked(log: seq<Entry>, next: nat, inFlight: set<nat>, e: Entry)
    requires Tracks(log, next, inFlight) && e.Completed? && e.index in inFlight
    ensures Tracks(log + [e], next, inFlight - {e.index})
  {
    var more := log + [e];
    PrefixOfMore(log, e);
    forall i | i in inFlight - {e.index} ensures HasLaunch(more, i) && !HasCompletion(more, i) {
      OneMoreEntry(log, e, i);
    }
    assert forall p | 0 <= p < |log| :: more[p] == log[p];
  }

  lemma OneMoreLaunch(log: seq<Entry>, next: nat, inFlight: set<nat>, maxInFlight: nat, spacing: nat, now: nat,
                      nextLaunchAt: nat, e: Entry, nextLaunchAt': nat)
    requires Launching(log, next, inFlight, maxInFlight, spacing, now, nextLaunchAt) && |inFlight| < maxInFlight
    requires e.Launched? && e.index == next && e.slot <= e.at && e.slot >= (if spacing == 0 then now else nextLaunchAt)
    requires spacing > 0 ==> nextLaunchAt' == e.slot + spacing
    ensures Launching(log + [e], next + 1, inFlight + {next}, maxInFlight, spacing, e.at, nextLaunchAt')
  {
    PrefixOfMore(log, e);
    assert Launches(log + [e]) == Launches(log) + [e];
    assert Completions(log + [e]) == Completions(log);
    CapStays(log, e, maxInFlight);
    CompletionsStay(log, e);
    LaunchTracked(log, next, inFlight, e);
  }

  lemma OneMoreCompletion(log: seq<Entry>, next: nat, inFlight: set<nat>, maxInFlight: nat, spacing: nat, now: nat,
                          nextLaunchAt: nat, i: nat, later: nat)
    requires Launching(log, next, inFlight, maxInFlight, spacing, now, nextLaunchAt) && i in inFlight && now <= later
    ensures Launching(log + [Completed(i)], next, inFlight - {i}, maxInFlight, spacing, later, nextLaunchAt)
  {
    var e := Completed(i);
    PrefixOfMore(log, e);
    assert Launches(log + [e]) == Launches(log);
    assert Completions(log + [e]) == Completions(log) + 1;
    assert log[..|log|] == log;
    CapStays(log, e, maxInFlight);
    CompletionsStay(log, e);
    CompletionTracked(log, next, inFlight, e);
  }

  /** Waits for a slot and launches item `next`. */
  method LaunchNext(next: nat, ghost inFlight: set<nat>, ghost count: nat, ghost maxInFlight: nat, spacing: nat,
                    log0: seq<Entry>, now0: nat, nextLaunchAt0: nat)
    returns (log: seq<Entry>, now: nat, nextLaunchAt: nat)
    requires Launching(log0, next, inFlight, maxInFlight, spacing, now0, nextLaunchAt0) && |inFlight| < maxInFlight
    requires KeepsBusy(log0, count, maxInFlight)
    ensures Launching(log, next + 1, inFlight + {next}, maxInFlight, spacing, now, nextLaunchAt)
    ensures |inFlight + {next}| == |inFlight| + 1
    ensures KeepsBusy(log, count, maxInFlight)
  {
    var slot;
    slot, now, nextLaunchAt := WaitForLaunchSlot(now0, nextLaunchAt0, spacing);
    var launch := Launched(next, slot, now);
    OneMoreLaunch(log0, next, inFlight, maxInFlight, spacing, now0, nextLaunchAt0, launch, nextLaunchAt);
    log := log0 + [launch];
    BusyStays(log0, launch, count, maxInFlight);
  }

  /** Launches pending items until the cap is reached or none is left. */
  method FillSlots(count: nat, maxInFlight: nat, spacing: nat, next0: nat, inFlight0: set<nat>,
                   log0: seq<Entry>, now0: nat, nextLaunchAt0: nat)
    returns (next: nat, inFlight: set<nat>, log: seq<Entry>, now: nat, nextLaunchAt: nat)
    requires next0 <= count && Launching(log0, next0, inFlight0, maxInFlight, spacing, now0, nextLaunchAt0)
    requires KeepsBusy(log0, count, maxInFlight)
    ensures Launching(log, next, inFlight, maxInFlight, spacing, now, nextLaunchAt)
    ensures next0 <= next <= count && (next == count || maxInFlight <= |inFlight|)
    ensures KeepsBusy(log, count, maxInFlight)
    ensures |inFlight| <= Max(|inFlight0|, maxInFlight)
    ensures forall i :: i in inFlight <==> i in inFlight0 || next0 <= i < next
    ensures maxInFlight == 0 ==> next == next0
    ensures |inFlight| - next == |inFlight0| - next0
  {
    next, inFlight, log, now, nextLaunchAt := next0, inFlight0, log0, now0, nextLaunchAt0;
    while |inFlight| < maxInFlight && next < count
      invariant next0 <= next <= count && KeepsBusy(log, count, maxInFlight)
      invariant Launching(log, next, inFlight, maxInFlight, spacing, now, nextLaunchAt)
      invariant |inFlight| <= Max(|inFlight0|, maxInFlight)
      invariant forall i :: i in inFlight <==> i in inFlight0 || next0 <= i < next
      invariant maxInFlight == 0 ==> next == next0
      invariant |inFlight| - next == |inFlight0| - next0
      decreases count - next
    {
      log, now, nextLaunchAt := LaunchNext(next, inFlight, count, maxInFlight, spacing, log, now, nextLaunchAt);
      inFlight := inFlight + {next};
      next := next + 1;
    }
  }

  /**
   Runs `count` prepared items with at most `maxInFlight` at a time. Which of the items in flight
   completes next, and how long that takes, is arbitrary.
   */
  method ExecutePrepared(count: nat, maxInFlight: nat, spacing: nat, start: nat)
    returns (attempted: nat, log: seq<Entry>)
    ensures attempted == if maxInFlight > 0 then count else 0
    ensures LaunchedInOrder(log, attempted) && Completions(log) == attempted
    ensures WithinCap(log, maxInFlight) && CompletesAfterLaunch(log) && Paced(Launches(log), spacing)
    ensures KeepsBusy(log, count, maxInFlight)
  {
    var inFlight: set<nat> := {};
    var now: nat, nextLaunchAt: nat := start, start;
    attempted, log := 0, [];
    while true
      invariant attempted <= count && |inFlight| <= maxInFlight && (maxInFlight == 0 ==> attempted == 0)
      invariant Launching(log, attempted, inFlight, maxInFlight, spacing, now, nextLaunchAt)
      invariant KeepsBusy(log, count, maxInFlight)
      decreases count - attempted + |inFlight|
    {
      attempted, inFlight, log, now, nextLaunchAt :=
        FillSlots(count, maxInFlight, spacing, attempted, inFlight, log, now, nextLaunchAt);
      if inFlight == {} {
        break;
      }
      var finished :| finished in inFlight;
      var waited: int :| 0 <= waited;
      BusyStays(log, Completed(finished), count, maxInFlight);
      OneMoreCompletion(log, attempted, inFlight, maxInFlight, spacing, now, nextLaunchAt, finished, now + waited);
      inFlight, log, now := inFlight - {finished}, log + [Completed(finished)], now + waited;
    }
  }

  // ----- Gates and ordering -----

  function Gated<T>(items: seq<T>, wanted: T -> bool, allowed: T -> bool): seq<T> {
    if items == [] then []
    else if wanted(items[0]) && allowed(items[0]) then [items[0]] + Gated(items[1..], wanted, allowed)
    else Gated(items[1..], wanted, allowed)
  }

  lemma GatedSnoc<T>(items: seq<T>, x: T, wanted: T -> bool, allowed: T -> bool)
    ensures Gated(items + [x], wanted, allowed)
         == if wanted(x) && allowed(x) then Gated(items, wanted, allowed) + [x] else Gated(items, wanted, allowed)
  {
    if items == [] {
      assert items + [x] == [x];
    } else {
      assert (items + [x])[1..] == items[1..] + [x];
      GatedSnoc(items[1..], x, wanted, allowed);
    }
  }

  /** The gates let through exactly the wanted items that may be attempted, as often as they occur. */
  lemma {:induction false} GatedExactly<T>(items: seq<T>, wanted: T -> bool, allowed: T -> bool, x: T)
    ensures multiset(Gated(items, wanted, allowed))[x] == if wanted(x) && allowed(x) then multiset(items)[x] else 0
    decreases |items|
  {
    if items != [] {
      GatedExactly(items[1..], wanted, allowed, x);
      assert items == [items[0]] + items[1..];
    }
  }

  predicate RankSorted<T>(s: seq<T>, rank: T -> nat) {
    forall i, j | 0 <= i < j < |s| :: rank(s[i]) <= rank(s[j])
  }

  function InsertByRank<T>(s: seq<T>, x: T, rank: T -> nat): seq<T> {
    if s == [] || rank(x) <= rank(s[0]) then [x] + s else [s[0]] + InsertByRank(s[1..], x, rank)
  }

  /** The prepared items sorted by their rank in this poll cycle, earlier items first among equals. */
  function SortByRank<T>(s: seq<T>, rank: T -> nat): seq<T> {
    if s == [] then [] else InsertByRank(SortByRank(s[1..], rank), s[0], rank)
  }

  predicate AllAtLeast<T>(s: seq<T>, rank: T -> nat, low: nat) {
    forall i | 0 <= i < |s| :: low <= rank(s[i])
  }

  lemma {:induction false} InsertKeepsSorted<T>(s: seq<T>, x: T, rank: T -> nat, low: nat)
    requires RankSorted(s, rank) && AllAtLeast(s, rank, low) && low <= rank(x)
    ensures RankSorted(InsertByRank(s, x, rank), rank) && AllAtLeast(InsertByRank(s, x, rank), rank, low)
    decreases |s|
  {
    if s != [] && rank(x) > rank(s[0]) {
      InsertKeepsSorted(s[1..], x, rank, rank(s[0]));
    }
  }

  /** The items of one rank, in order. */
  function OfRank<T>(s: seq<T>, rank: T -> nat, r: nat): seq<T> {
    if s == [] then []
    else if rank(s[0]) == r then [s[0]] + OfRank(s[1..], rank, r)
    else OfRank(s[1..], rank, r)
  }

  lemma {:induction false} InsertKeepsContents<T>(s: seq<T>, x: T, rank: T -> nat)
    ensures multiset(InsertByRank(s, x, rank)) == multiset(s) + multiset{x}
    decreases |s|
  {
    if s != [] && rank(x) > rank(s[0]) {
      InsertKeepsContents(s[1..], x, rank);
      assert s == [s[0]] + s[1..];
    }
  }

  lemma {:induction false} InsertIsStable<T>(s: seq<T>, x: T, rank: T -> nat, r: nat)
    ensures OfRank(InsertByRank(s, x, rank), rank, r) == OfRank([x] + s, rank, r)
    decreases |s|
  {
    if s != [] && rank(x) > rank(s[0]) {
      var rest := InsertByRank(s[1..], x, rank);
      InsertIsStable(s[1..], x, rank, r);
      assert ([s[0]] + rest)[1..] == rest;
      assert ([x] + s)[1..] == s && ([x] + s[1..])[1..] == s[1..];
    }
  }

  lemma {:induction false} SortKeepsContents<T>(s: seq<T>, rank: T -> nat)
    ensures RankSorted(SortByRank(s, rank), rank) && multiset(SortByRank(s, rank)) == multiset(s)
    decreases |s|
  {
    if s != [] {
      var sorted := SortByRank(s[1..], rank);
      SortKeepsContents(s[1..], rank);
      InsertKeepsSorted(sorted, s[0], rank, 0);
      InsertKeepsContents(sorted, s[0], rank);
      assert s == [s[0]] + s[1..];
    }
  }

  lemma {:induction false} SortIsStable<T>(s: seq<T>, rank: T -> nat, r: nat)
    ensures OfRank(SortByRank(s, rank), rank, r) == OfRank(s, rank, r)
    decreases |s|
  {
    if s != [] {
      var sorted := SortByRank(s[1..], rank);
      SortIsStable(s[1..], rank, r);
      InsertIsStable(sorted, s[0], rank, r);
      assert ([s[0]] + sorted)[1..] == sorted;
    }
  }

  /** A rearrangement in rank order that keeps items of equal rank in their old order. */
  ghost predicate StablySorted<T>(sorted: seq<T>, s: seq<T>, rank: T -> nat) {
    && RankSorted(sorted, rank)
    && multiset(sorted) == multiset(s)
    && forall r: nat :: OfRank(sorted, rank, r) == OfRank(s, rank, r)
  }

  lemma SortByRankSorts<T>(s: seq<T>, rank: T -> nat)
    ensures StablySorted(SortByRank(s, rank), s, rank) && |SortByRank(s, rank)| == |s|
  {
    SortKeepsContents(s, rank);
    forall r: nat ensures OfRank(SortByRank(s, rank), rank, r) == OfRank(s, rank, r) {
      SortIsStable(s, rank, r);
    }
    assert |multiset(SortByRank(s, rank))| == |multiset(s)|;
  }

  /**
   One fetch round: exactly the items that pass both gates are launched, each once; a shaped
   background poll launches them in rank order, anything else in store order.
   */
  method FetchRound<T>(items: seq<T>, wanted: T -> bool, allowed: T -> bool, rank: T -> nat,
                       background: bool, maxInFlight: nat, itemSpacing: nat, start: nat)
    returns (attempted: nat, log: seq<Entry>, launched: seq<T>)
    requires maxInFlight >= 1
    ensures multiset(launched) == multiset(Gated(items, wanted, allowed))
    ensures if background && (itemSpacing > 0 || maxInFlight < |launched|)
            then StablySorted(launched, Gated(items, wanted, allowed), rank)
            else launched == Gated(items, wanted, allowed)
    ensures attempted == |launched| && LaunchedInOrder(log, |launched|) && Completions(log) == |launched|
    ensures WithinCap(log, maxInFlight) && CompletesAfterLaunch(log) && KeepsBusy(log, |launched|, maxInFlight)
    ensures Paced(Launches(log), if background then itemSpacing else 0)
  {
    launched := [];
    for i := 0 to |items|
      invariant launched == Gated(items[..i], wanted, allowed)
    {
      assert items[..i + 1] == items[..i] + [items[i]];
      GatedSnoc(items[..i], items[i], wanted, allowed);
      if !wanted(items[i]) {
        continue;
      }
      if !allowed(items[i]) {
        continue;
      }
      launched := launched + [items[i]];
    }
    assert items[..|items|] == items;
    if background && (itemSpacing > 0 || maxInFlight < |launched|) {
      SortByRankSorts(launched, rank);
      launched := SortByRank(launched, rank);
    }
    attempted, log := ExecutePrepared(|launched|, maxInFlight, if background then itemSpacing else 0, start);
  }
}
