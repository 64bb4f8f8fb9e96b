/**
 Foreground fetches of one request key: the per-key lock object, its double-checked flag, and the
 timed eviction that lets the next fetch happen.

 Every step below reads and writes the entry of its own key only, so the machine is stated for one
 key and any number of concurrent callers. The steps are the points at which another task can run:
 the look-up in the lock map, the end of each lock acquisition, the end of the fetch, the removal
 of the entry after a fetch that attempted nothing, the timed eviction.
 */
module SingleFlight {
  import opened Common

  const EVICTION_DELAY: nat := 30 // seconds

  /** A caller holds a reference to lock object `lock` from its look-up until it returns. */
  datatype Phase = Reading(lock: nat) | WantsWrite(lock: nat)

  datatype Flight = Flight(caller: nat, startedAt: nat)

  datatype Finished = Finished(startedAt: nat, endedAt: nat)

  datatype State = State(
    now: nat,
    table: Option<nat>,          // the lock object the map holds for the key
    nextLock: nat,
    flag: map<nat, bool>,        // each lock object's "has fetched" flag
    callers: map<nat, Phase>,
    writers: map<nat, Flight>,   // write locks held, hence fetches in flight
    timers: multiset<nat>,       // pending evictions
    leaving: set<nat>,           // lock objects released after an empty fetch, entry not yet removed
    finished: seq<Finished>)     // completed fetches that attempted a request, oldest first

  datatype Event =
    | Tick(elapsed: nat)
    | Arrive(caller: nat)
    | ReadFlag(caller: nat)
    | AcquireWrite(caller: nat)
    | FinishAttempted(lock: nat)
    | FinishEmpty(lock: nat)     // the fetch attempted nothing: flag down, write lock released
    | RemoveEntry(lock: nat)     // ... and then the key's entry removed, whatever it is by now
    | EvictNow(dueAt: nat)

  predicate Enabled(s: State, ev: Event) {
    match ev
    case Tick(_) => true
    case Arrive(c) => c !in s.callers
    case ReadFlag(c) => c in s.callers && s.callers[c].Reading? && s.callers[c].lock in s.flag
                        && s.callers[c].lock !in s.writers
    case AcquireWrite(c) => c in s.callers && s.callers[c].WantsWrite? && s.callers[c].lock in s.flag
                            && s.callers[c].lock !in s.writers
    case FinishAttempted(l) => l in s.writers
    case FinishEmpty(l) => l in s.writers
    case RemoveEntry(l) => l in s.leaving
    case EvictNow(dueAt) => dueAt in s.timers && dueAt <= s.now
  }

  function Step(s: State, ev: Event): State
    requires Enabled(s, ev)
  {
    match ev
    case Tick(elapsed) => s.(now := s.now + elapsed)
    case Arrive(c) =>
      if s.table.Some? then s.(callers := s.callers[c := Reading(s.table.value)])
      else s.(table := Some(s.nextLock), nextLock := s.nextLock + 1,
              flag := s.flag[s.nextLock := false], callers := s.callers[c := Reading(s.nextLock)])
    case ReadFlag(c) =>
      var l := s.callers[c].lock;
      if s.flag[l] then s.(callers := s.callers - {c})
      else s.(callers := s.callers[c := WantsWrite(l)])
    case AcquireWrite(c) =>
      var l := s.callers[c].lock;
      if s.flag[l] then s.(callers := s.callers - {c})
      else s.(callers := s.callers - {c}, flag := s.flag[l := true],
              writers := s.writers[l := Flight(c, s.now)])
    case FinishAttempted(l) =>
      s.(writers := s.writers - {l}, timers := s.timers + multiset{s.now + EVICTION_DELAY},
         finished := s.finished + [Finished(s.writers[l].startedAt, s.now)])
    case FinishEmpty(l) =>
      s.(writers := s.writers - {l}, flag := s.flag[l := false], leaving := s.leaving + {l})
    case RemoveEntry(l) =>
      s.(table := None, leaving := s.leaving - {l})
    case EvictNow(dueAt) =>
      s.(table := None, timers := s.timers - multiset{dueAt})
  }

  ghost predicate IsRun(s: State, evs: seq<Event>)
    decreases |evs|
  {
    evs == [] || (Enabled(s, evs[0]) && IsRun(Step(s, evs[0]), evs[1..]))
  }

  ghost function Run(s: State, evs: seq<Event>): State
    requires IsRun(s, evs)
    decreases |evs|
  {
    if evs == [] then s else Run(Step(s, evs[0]), evs[1..])
  }

  function Initial(now: nat): State {
    State(now, None, 0, map[], map[], map[], multiset{}, {}, [])
  }

  /** Nobody holds the lock object of an empty fetch when it ends, or looks it up before its entry is removed. */
  ghost predicate Undisturbed(s: State, ev: Event) {
    && (ev.FinishEmpty? ==> forall c | c in s.callers :: s.callers[c].lock != ev.lock)
    && (ev.Arrive? ==> s.leaving == {})
  }

  ghost predicate UndisturbedRun(s: State, evs: seq<Event>)
    requires IsRun(s, evs)
    decreases |evs|
  {
    evs == [] || (Undisturbed(s, evs[0]) && UndisturbedRun(Step(s, evs[0]), evs[1..]))
  }

  /** The time from which the next fetch may start. */
  function ReadyAt(s: State): nat {
    if s.finished == [] then 0 else s.finished[|s.finished| - 1].endedAt + 30
  }

  /** At most one fetch in flight, and 30s between the end of one and the start of the next. */
  ghost predicate SingleFlighted(s: State) {
    && (forall a, b | a in s.writers && b in s.writers :: a == b)
    && (forall l | l in s.writers :: ReadyAt(s) <= s.writers[l].startedAt <= s.now)
    && (forall i | 0 <= i < |s.finished| - 1 ::
          s.finished[i].endedAt + 30 <= s.finished[i + 1].startedAt)
  }

  /** A lock object no longer in the map can never start another fetch. */
  ghost predicate Retired(s: State, l: nat)
    requires l in s.flag
  {
    l !in s.writers && (s.flag[l] || forall c | c in s.callers :: s.callers[c].lock != l)
  }

  ghost predicate TableEntry(s: State) {
    match s.table
    case None => s.timers == multiset{} && ReadyAt(s) <= s.now
    case Some(l) =>
      && l in s.flag
      && (if !s.flag[l] then l !in s.writers && s.timers == multiset{} && ReadyAt(s) <= s.now
          else if l in s.writers then s.timers == multiset{}
          else s.finished != [] && s.timers == multiset{ReadyAt(s)})
  }

  /** A lock object whose entry is about to be removed is still the entry, idle and unreferenced. */
  ghost predicate Leaving(s: State, l: nat) {
    && s.table == Some(l) && l in s.flag && !s.flag[l] && l !in s.writers
    && forall c | c in s.callers :: s.callers[c].lock != l
  }

  ghost predicate Inv(s: State) {
    && SingleFlighted(s)
    && TableEntry(s)
    && (forall l | l in s.flag :: l < s.nextLock && (s.table == Some(l) || Retired(s, l)))
    && (forall l | l in s.writers :: l in s.flag && s.flag[l])
    && (forall c | c in s.callers :: s.callers[c].lock in s.flag)
    && (forall l | l in s.leaving :: Leaving(s, l))
  }

  lemma JoinKeepsInv(s: State, c: nat)
    requires Inv(s) && Enabled(s, Arrive(c)) && s.leaving == {} && s.table.Some?
    ensures Inv(Step(s, Arrive(c)))
  {
    var s' := Step(s, Arrive(c));
    assert forall l | l in s'.flag && s'.table != Some(l) :: Retired(s, l);
  }

  lemma NewLockKeepsInv(s: State, c: nat)
    requires Inv(s) && Enabled(s, Arrive(c)) && s.leaving == {} && s.table.None?
    ensures Inv(Step(s, Arrive(c)))
  {
    var s' := Step(s, Arrive(c));
    assert s.nextLock !in s.flag;
    assert s'.writers == s.writers == map[] by {
      assert forall l | l in s.flag :: Retired(s, l);
    }
    forall l | l in s'.flag && s'.table != Some(l) ensures Retired(s', l) {
      assert Retired(s, l);
    }
    assert SingleFlighted(s') && TableEntry(s');
  }

  lemma TickKeepsInv(s: State, elapsed: nat)
    requires Inv(s)
    ensures Inv(Step(s, Tick(elapsed)))
  {
    assert forall l | l in s.flag && s.table != Some(l) :: Retired(s, l);
  }

  lemma EvictionKeepsInv(s: State, dueAt: nat)
    requires Inv(s) && Enabled(s, EvictNow(dueAt))
    ensures Inv(Step(s, EvictNow(dueAt)))
  {
    assert s.table.Some? && s.timers == multiset{dueAt};
    assert forall l | l in s.flag && s.table != Some(l) :: Retired(s, l);
  }

  /** Only the lock object in the map can have its flag down while somebody refers to it. */
  lemma UnfetchedLockIsCurrent(s: State, c: nat)
    requires Inv(s) && c in s.callers && !s.flag[s.callers[c].lock]
    ensures s.table == Some(s.callers[c].lock) && s.leaving == {}
  {
    var l := s.callers[c].lock;
    assert s.table != Some(l) ==> Retired(s, l);
    assert forall m | m in s.leaving :: Leaving(s, m);
  }

  /** Callers that return, or go from reading to wanting to write, leave everything else as it was. */
  lemma NoNewReferences(s: State, callers: map<nat, Phase>)
    requires Inv(s) && forall c | c in callers :: c in s.callers && callers[c].lock == s.callers[c].lock
    ensures Inv(s.(callers := callers))
  {
    var s' := s.(callers := callers);
    forall m | m in s.flag && s.table != Some(m) ensures Retired(s', m) {
      assert Retired(s, m);
    }
    forall l | l in s.leaving ensures Leaving(s', l) {
      assert Leaving(s, l);
    }
    assert SingleFlighted(s') && TableEntry(s');
  }

  lemma ReadKeepsInv(s: State, c: nat)
    requires Inv(s) && Enabled(s, ReadFlag(c))
    ensures Inv(Step(s, ReadFlag(c)))
  {
    NoNewReferences(s, Step(s, ReadFlag(c)).callers);
  }

  lemma WriteKeepsInv(s: State, c: nat)
    requires Inv(s) && Enabled(s, AcquireWrite(c))
    ensures Inv(Step(s, AcquireWrite(c)))
  {
    var s' := Step(s, AcquireWrite(c));
    if s.flag[s.callers[c].lock] {
      NoNewReferences(s, s'.callers);
    } else {
      UnfetchedLockIsCurrent(s, c);
      forall m | m in s'.flag && s'.table != Some(m) ensures Retired(s', m) && m !in s.writers {
        assert Retired(s, m);
      }
      assert s.writers == map[];
      assert SingleFlighted(s') && TableEntry(s');
    }
  }

  lemma FinishKeepsInv(s: State, ev: Event)
    requires Inv(s) && Enabled(s, ev) && Undisturbed(s, ev) && (ev.FinishAttempted? || ev.FinishEmpty?)
    ensures Inv(Step(s, ev))
  {
    var s' := Step(s, ev);
    assert s.table == Some(ev.lock);
    assert s'.writers == map[];
    forall m | m in s'.flag ensures m < s'.nextLock && (s'.table == Some(m) || Retired(s', m)) {
      if m != ev.lock { assert Retired(s, m); }
    }
  }

  lemma RemovalKeepsInv(s: State, l: nat)
    requires Inv(s) && Enabled(s, RemoveEntry(l))
    ensures Inv(Step(s, RemoveEntry(l)))
  {
    assert Leaving(s, l);
    var s' := Step(s, RemoveEntry(l));
    forall m | m in s'.flag ensures Retired(s', m) {
      assert m != l ==> Retired(s, m);
    }
    assert forall m | m in s.leaving :: Leaving(s, m) && m == l;
  }

  lemma StepKeepsInv(s: State, ev: Event)
    requires Inv(s) && Enabled(s, ev) && Undisturbed(s, ev)
    ensures Inv(Step(s, ev))
  {
    match ev
    case Arrive(c) =>
      if s.table.Some? { JoinKeepsInv(s, c); } else { NewLockKeepsInv(s, c); }
    case ReadFlag(c) => ReadKeepsInv(s, c);
    case AcquireWrite(c) => WriteKeepsInv(s, c);
    case FinishAttempted(_) => FinishKeepsInv(s, ev);
    case FinishEmpty(_) => FinishKeepsInv(s, ev);
    case RemoveEntry(l) => RemovalKeepsInv(s, l);
    case Tick(elapsed) => TickKeepsInv(s, elapsed);
    case EvictNow(dueAt) => EvictionKeepsInv(s, dueAt);
  }

  lemma {:induction false} RunKeepsInv(s: State, evs: seq<Event>)
    requires Inv(s) && IsRun(s, evs) && UndisturbedRun(s, evs)
    ensures Inv(Run(s, evs))
    decreases |evs|
  {
    if evs != [] {
      StepKeepsInv(s, evs[0]);
      RunKeepsInv(Step(s, evs[0]), evs[1..]);
    }
  }

  /** Single flight in every interleaving in which empty fetches are undisturbed. */
  lemma FetchesAreSingleFlighted(start: nat, evs: seq<Event>)
    requires IsRun(Initial(start), evs) && UndisturbedRun(Initial(start), evs)
    ensures SingleFlighted(Run(Initial(start), evs))
  {
    RunKeepsInv(Initial(start), evs);
  }

  lemma {:induction false} AttemptingRunIsUndisturbed(s: State, evs: seq<Event>)
    requires IsRun(s, evs) && s.leaving == {} && forall ev | ev in evs :: !ev.FinishEmpty?
    ensures UndisturbedRun(s, evs)
    decreases |evs|
  {
    if evs != [] {
      assert evs[0] in evs;
      AttemptingRunIsUndisturbed(Step(s, evs[0]), evs[1..]);
    }
  }

  /** In particular: single flight in every interleaving in which every fetch attempts a request. */
  lemma AttemptingFetchesAreSingleFlighted(start: nat, evs: seq<Event>)
    requires IsRun(Initial(start), evs) && forall ev | ev in evs :: !ev.FinishEmpty?
    ensures SingleFlighted(Run(Initial(start), evs))
  {
    AttemptingRunIsUndisturbed(Initial(start), evs);
    FetchesAreSingleFlighted(start, evs);
  }

  lemma RunCons(s: State, ev: Event, evs: seq<Event>)
    requires Enabled(s, ev) && IsRun(Step(s, ev), evs)
    ensures IsRun(s, [ev] + evs) && Run(s, [ev] + evs) == Run(Step(s, ev), evs)
    ensures UndisturbedRun(s, [ev] + evs) <==> Undisturbed(s, ev) && UndisturbedRun(Step(s, ev), evs)
  {
    assert ([ev] + evs)[1..] == evs;
  }

  lemma RunConcat(s: State, a: seq<Event>, b: seq<Event>)
    requires IsRun(s, a) && IsRun(Run(s, a), b)
    ensures IsRun(s, a + b) && Run(s, a + b) == Run(Run(s, a), b)
    decreases |a|
  {
    if a == [] {
      assert a + b == b;
    } else {
      RunConcat(Step(s, a[0]), a[1..], b);
      RunCons(s, a[0], a[1..] + b);
      assert a + b == [a[0]] + (a[1..] + b);
    }
  }

  lemma ThreeSteps(s: State, a: Event, s1: State, b: Event, s2: State, c: Event, s3: State)
    requires Enabled(s, a) && Step(s, a) == s1 && Enabled(s1, b) && Step(s1, b) == s2
             && Enabled(s2, c) && Step(s2, c) == s3
    ensures IsRun(s, [a, b, c]) && Run(s, [a, b, c]) == s3
  {
    RunCons(s2, c, []);
    RunCons(s1, b, [c]);
    RunCons(s, a, [b, c]);
    assert [a] + [b, c] == [a, b, c];
  }

  // ----- Fetching goes on -----

  /** While the map holds no lock, the next caller fetches. */
  lemma NextCallerFetches(s: State, c: nat)
    requires Inv(s) && s.table == None && c !in s.callers
    ensures var evs := [Arrive(c), ReadFlag(c), AcquireWrite(c)];
            IsRun(s, evs) && Run(s, evs).writers == map[s.nextLock := Flight(c, s.now)]
  {
    NothingInFlight(s);
    assert s.nextLock !in s.flag;
    var s1 := Step(s, Arrive(c));
    assert s1.callers[c] == Reading(s.nextLock);
    var s2 := Step(s1, ReadFlag(c));
    assert s2.callers[c] == WantsWrite(s.nextLock);
    ThreeSteps(s, Arrive(c), s1, ReadFlag(c), s2, AcquireWrite(c), Step(s2, AcquireWrite(c)));
  }

  lemma NothingInFlight(s: State)
    requires Inv(s) && s.table == None
    ensures s.writers == map[]
  {
    assert forall l | l in s.flag :: Retired(s, l);
  }

  /**
   Thirty seconds after a fetch ended, and at once after one that attempted nothing, the map lets
   the next one through.
   */
  lemma FetchingResumes(s: State, l: nat)
    requires Inv(s) && l in s.writers
    ensures var later := Step(Step(s, FinishAttempted(l)), Tick(30));
            && later.timers == multiset{s.now + 30} && Enabled(later, EvictNow(s.now + 30))
            && Step(later, EvictNow(s.now + 30)).table == None
    ensures var s1 := Step(s, FinishEmpty(l));
            Enabled(s1, RemoveEntry(l)) && Step(s1, RemoveEntry(l)).table == None
  {
    assert s.table != Some(l) ==> Retired(s, l);
  }

  /** A caller that finds the fetch done returns without fetching. */
  lemma DoneMeansNoFetch(s: State, c: nat)
    requires Enabled(s, ReadFlag(c)) && s.flag[s.callers[c].lock]
    ensures Step(s, ReadFlag(c)) == s.(callers := s.callers - {c})
  {
  }

  // ----- The condition is exact -----

  /** Caller c is about to use lock object l, which the map is about to forget. */
  ghost predicate StrandedCaller(s: State, c: nat, l: nat) {
    && c in s.callers && s.callers[c] == WantsWrite(l)
    && l in s.flag && !s.flag[l] && l !in s.writers && s.leaving == {l}
    && (forall m | m in s.flag :: m < s.nextLock) && (forall m | m in s.writers :: m in s.flag)
  }

  lemma {:induction false} FreshCaller(used: set<nat>) returns (d: nat)
    ensures forall c | c in used :: c < d
  {
    if used == {} {
      d := 0;
    } else {
      var c :| c in used;
      var rest := FreshCaller(used - {c});
      d := Max(rest, c + 1);
      forall x | x in used ensures x < d {
        assert x == c || x in used - {c};
      }
    }
  }

  /** The entry goes, the stranded caller fetches on the forgotten object, and a newcomer fetches beside it. */
  lemma StrandedCallerBreaksIt(s: State, c: nat, l: nat) returns (evs: seq<Event>)
    requires StrandedCaller(s, c, l)
    ensures IsRun(s, evs) && UndisturbedRun(s, evs) && !SingleFlighted(Run(s, evs))
  {
    var d := FreshCaller(s.callers.Keys);
    var m := s.nextLock;
    var s1 := Step(s, RemoveEntry(l));
    var s2 := Step(s1, AcquireWrite(c));
    assert l in s2.writers && s2.leaving == {} && s2.table == None;
    var s3 := Step(s2, Arrive(d));
    assert s3.callers[d] == Reading(m) && m !in s3.writers;
    var s4 := Step(s3, ReadFlag(d));
    assert s4.callers[d] == WantsWrite(m);
    var s5 := Step(s4, AcquireWrite(d));
    assert l in s5.writers && m in s5.writers && l != m;
    evs := [RemoveEntry(l), AcquireWrite(c), Arrive(d), ReadFlag(d), AcquireWrite(d)];
    RunCons(s4, AcquireWrite(d), []);
    RunCons(s3, ReadFlag(d), [AcquireWrite(d)]);
    RunCons(s2, Arrive(d), [ReadFlag(d), AcquireWrite(d)]);
    RunCons(s1, AcquireWrite(c), [Arrive(d), ReadFlag(d), AcquireWrite(d)]);
    RunCons(s, RemoveEntry(l), [AcquireWrite(c), Arrive(d), ReadFlag(d), AcquireWrite(d)]);
    assert evs == [RemoveEntry(l)] + [AcquireWrite(c), Arrive(d), ReadFlag(d), AcquireWrite(d)];
  }

  /** A caller still reading goes on to want the write lock. */
  lemma ReaderBreaksIt(s: State, c: nat, l: nat) returns (evs: seq<Event>)
    requires c in s.callers && s.callers[c].lock == l
    requires l in s.flag && l !in s.writers && StrandedCaller(s.(callers := s.callers[c := WantsWrite(l)]), c, l)
    ensures IsRun(s, evs) && UndisturbedRun(s, evs) && !SingleFlighted(Run(s, evs))
  {
    if s.callers[c].Reading? {
      var s1 := Step(s, ReadFlag(c));
      var rest := StrandedCallerBreaksIt(s1, c, l);
      evs := [ReadFlag(c)] + rest;
      RunCons(s, ReadFlag(c), rest);
    } else {
      assert s.callers[c := WantsWrite(l)] == s.callers;
      evs := StrandedCallerBreaksIt(s, c, l);
    }
  }

  /** Whatever the state, a disturbed step can be followed by undisturbed ones to two fetches at once. */
  lemma DisturbedStepBreaksIt(s: State, ev: Event) returns (evs: seq<Event>)
    requires Inv(s) && Enabled(s, ev) && !Undisturbed(s, ev)
    ensures var s' := Step(s, ev);
            IsRun(s', evs) && UndisturbedRun(s', evs) && !SingleFlighted(Run(s', evs))
  {
    var s' := Step(s, ev);
    if ev.Arrive? {
      var l :| l in s.leaving;
      assert forall m | m in s.leaving :: Leaving(s, m) && m == l;
      assert s.leaving == {l};
      evs := ReaderBreaksIt(s', ev.caller, l);
    } else {
      var l := ev.lock;
      var c :| c in s.callers && s.callers[c].lock == l;
      assert forall m | m in s.leaving :: Leaving(s, m);
      assert s.table == Some(l);
      assert s.leaving == {};
      evs := ReaderBreaksIt(s', c, l);
    }
  }

  /** Every undisturbed continuation of s is single-flighted. */
  ghost predicate ContinuesSingleFlighted(s: State) {
    forall evs | IsRun(s, evs) && UndisturbedRun(s, evs) :: SingleFlighted(Run(s, evs))
  }

  /**
   Exactly the undisturbed steps are safe: from any state of the invariant, a step leaves single
   flight guaranteed for all undisturbed continuations if and only if it is undisturbed itself.
   */
  lemma StepIsSafeIff(s: State, ev: Event)
    requires Inv(s) && Enabled(s, ev)
    ensures ContinuesSingleFlighted(Step(s, ev)) <==> Undisturbed(s, ev)
  {
    if Undisturbed(s, ev) {
      StepKeepsInv(s, ev);
      forall evs | IsRun(Step(s, ev), evs) && UndisturbedRun(Step(s, ev), evs)
        ensures SingleFlighted(Run(Step(s, ev), evs))
      {
        RunKeepsInv(Step(s, ev), evs);
      }
    } else {
      var evs := DisturbedStepBreaksIt(s, ev);
    }
  }

  // ----- Two such runs from the start -----

  /** Caller 1's fetch attempted nothing; caller 2 is about to use the lock object that is being forgotten. */
  function Stranded(start: nat): State {
    State(start, Some(0), 1, map[0 := false], map[2 := WantsWrite(0)], map[], multiset{}, {0}, [])
  }

  const WAITED: seq<Event> := [Arrive(1), ReadFlag(1), Arrive(2), ReadFlag(2), AcquireWrite(1), FinishEmpty(0)]
  const SLIPPED_IN: seq<Event> := [Arrive(1), ReadFlag(1), AcquireWrite(1), FinishEmpty(0), Arrive(2), ReadFlag(2)]
  const BOTH_FETCH: seq<Event> := [RemoveEntry(0), AcquireWrite(2), Arrive(3), ReadFlag(3), AcquireWrite(3)]

  /** Caller 2 was already waiting when the empty fetch ended. */
  lemma WaiterIsStranded(start: nat)
    ensures IsRun(Initial(start), WAITED) && Run(Initial(start), WAITED) == Stranded(start)
  {
    var s1 := State(start, Some(0), 1, map[0 := false], map[1 := Reading(0)], map[], multiset{}, {}, []);
    var s2 := s1.(callers := map[1 := WantsWrite(0)]);
    var s3 := s1.(callers := map[1 := WantsWrite(0), 2 := Reading(0)]);
    var s4 := s1.(callers := map[1 := WantsWrite(0), 2 := WantsWrite(0)]);
    var s5 := s1.(flag := map[0 := true], callers := map[2 := WantsWrite(0)], writers := map[0 := Flight(1, start)]);
    ThreeSteps(Initial(start), Arrive(1), s1, ReadFlag(1), s2, Arrive(2), s3);
    ThreeSteps(s3, ReadFlag(2), s4, AcquireWrite(1), s5, FinishEmpty(0), Stranded(start));
    RunConcat(Initial(start), [Arrive(1), ReadFlag(1), Arrive(2)], [ReadFlag(2), AcquireWrite(1), FinishEmpty(0)]);
  }

  /** Caller 2 arrived between the release of the lock and the removal of the entry. */
  lemma NewcomerIsStranded(start: nat)
    ensures IsRun(Initial(start), SLIPPED_IN) && Run(Initial(start), SLIPPED_IN) == Stranded(start)
  {
    var s1 := State(start, Some(0), 1, map[0 := false], map[1 := Reading(0)], map[], multiset{}, {}, []);
    var s2 := s1.(callers := map[1 := WantsWrite(0)]);
    var s3 := s1.(flag := map[0 := true], callers := map[], writers := map[0 := Flight(1, start)]);
    var s4 := s1.(callers := map[], leaving := {0});
    var s5 := s4.(callers := map[2 := Reading(0)]);
    ThreeSteps(Initial(start), Arrive(1), s1, ReadFlag(1), s2, AcquireWrite(1), s3);
    ThreeSteps(s3, FinishEmpty(0), s4, Arrive(2), s5, ReadFlag(2), Stranded(start));
    RunConcat(Initial(start), [Arrive(1), ReadFlag(1), AcquireWrite(1)], [FinishEmpty(0), Arrive(2), ReadFlag(2)]);
  }

  lemma StrandedAndNewcomerBothFetch(start: nat)
    ensures IsRun(Stranded(start), BOTH_FETCH) && Run(Stranded(start), BOTH_FETCH).writers.Keys == {0, 1}
  {
    var s := Stranded(start);
    var one := map[0 := Flight(2, start)];
    var s0 := s.(table := None, leaving := {});
    var s1 := State(start, None, 1, map[0 := true], map[], one, multiset{}, {}, []);
    var s2 := State(start, Some(1), 2, map[0 := true, 1 := false], map[3 := Reading(1)], one, multiset{}, {}, []);
    var s3 := s2.(callers := map[3 := WantsWrite(1)]);
    assert Step(s, RemoveEntry(0)) == s0;
    assert Step(s0, AcquireWrite(2)) == s1;
    assert Step(s1, Arrive(3)) == s2;
    assert Step(s2, ReadFlag(3)) == s3;
    assert Step(s3, AcquireWrite(3)).writers.Keys == {0, 1};
    RunCons(s3, AcquireWrite(3), []);
    RunCons(s2, ReadFlag(3), [AcquireWrite(3)]);
    RunCons(s1, Arrive(3), [ReadFlag(3), AcquireWrite(3)]);
    RunCons(s0, AcquireWrite(2), [Arrive(3), ReadFlag(3), AcquireWrite(3)]);
    RunCons(s, RemoveEntry(0), [AcquireWrite(2), Arrive(3), ReadFlag(3), AcquireWrite(3)]);
  }

  /**
   Both halves of the condition are needed: a caller that waited through an empty fetch, or slipped in
   before its entry was removed, proceeds on an object the map forgets, and a newcomer fetches beside it.
   */
  lemma DisturbedEmptyFetchBreaksIt(start: nat)
    ensures IsRun(Initial(start), WAITED + BOTH_FETCH) && !SingleFlighted(Run(Initial(start), WAITED + BOTH_FETCH))
    ensures IsRun(Initial(start), SLIPPED_IN + BOTH_FETCH)
            && !SingleFlighted(Run(Initial(start), SLIPPED_IN + BOTH_FETCH))
  {
    WaiterIsStranded(start);
    NewcomerIsStranded(start);
    StrandedAndNewcomerBothFetch(start);
    RunConcat(Initial(start), WAITED, BOTH_FETCH);
    RunConcat(Initial(start), SLIPPED_IN, BOTH_FETCH);
  }
}
