/**
 One tick of the id-list sync producer: from company manifests and Redis state to an ordered task
 queue, with removals and readiness decided only on complete knowledge.

 Redis is an object whose fields are the keys the producer touches. Command failures are not
 modelled: a tick that loses its connection stops where it is.
 */
module SyncProducer {
  import opened Common
  import opened CompanyManifests

  datatype Metadata = Metadata(fileId: string, creationTime: nat, url: string, size: nat)

  datatype SyncState = SyncState(
    version: string, fileId: string, url: string, creationTime: nat, size: nat,
    loadingVersion: Option<string>, cardinality: Option<nat>, reverseIndexDisabled: bool)

  datatype Action = FullLoad | Delta(lag: nat) | Remove {
    function Class(): nat {
      match this
      case FullLoad => 0
      case Delta(_) => 1
      case Remove => 2
    }

    function Lag(): nat {
      if Delta? then lag else 0
    }
  }

  datatype Task = Task(ns: string, list: string, action: Action, meta: Option<Metadata>)

  function MetadataOf(e: Entry): Metadata {
    Metadata(e.fileId, e.creationTime, e.url, e.size)
  }

  // ----- Planning one list -----

  /** A planner sees the list's state, the manifest's metadata, whether the member set exists, and the mode. */
  type Planner = (Option<SyncState>, Metadata, bool, bool) -> Option<(Action, Metadata)>

  function NeedsWork(state: Option<SyncState>, meta: Metadata, fwdExists: bool, reverse: bool): Option<Action> {
    if state.None? then Some(FullLoad)
    else
      var s := state.value;
      if s.version == "" then Some(FullLoad)
      else if meta.fileId != s.fileId then (if meta.creationTime > s.creationTime then Some(FullLoad) else None)
      else if reverse && s.reverseIndexDisabled then Some(FullLoad)
      else if s.loadingVersion.Some? then Some(FullLoad)
      else if (if s.cardinality.Some? then s.cardinality.value else s.size) > 0 && !fwdExists then Some(FullLoad)
      else if meta.size > s.size then Some(Delta(meta.size - s.size))
      else None
  }

  function PlanSync(state: Option<SyncState>, meta: Metadata, fwdExists: bool, reverse: bool)
    : Option<(Action, Metadata)>
  {
    var target :=
      if state.Some? && reverse && state.value.reverseIndexDisabled && state.value.version != ""
         && meta.fileId != state.value.fileId && meta.creationTime <= state.value.creationTime
      then Metadata(state.value.fileId, state.value.creationTime, state.value.url, state.value.size)
      else meta;
    match NeedsWork(state, target, fwdExists, reverse)
    case None => None
    case Some(action) => Some((action, target))
  }

  ghost predicate NeverRemoves(plan: Planner) {
    forall state, meta, fwd, reverse ::
      plan(state, meta, fwd, reverse).Some? ==> plan(state, meta, fwd, reverse).value.0 != Remove
  }

  /** The real planner never removes, never goes back to an older file, and resumes only within one file. */
  lemma PlannerIsSafe(state: Option<SyncState>, meta: Metadata, fwd: bool, reverse: bool)
    ensures NeverRemoves(PlanSync)
    ensures var p := PlanSync(state, meta, fwd, reverse);
            p.Some? && state.Some? && state.value.version != "" ==>
              && (p.value.1.fileId == state.value.fileId || p.value.1.creationTime > state.value.creationTime)
              && (p.value.0.Delta? ==> p.value.1.fileId == state.value.fileId
                                       && state.value.size + p.value.0.lag == p.value.1.size)
  {
  }

  /** Nothing of the committed file is missing: no load under way, and its member set is there unless it is empty. */
  predicate Intact(s: SyncState, fwdExists: bool) {
    s.loadingVersion.None? && (fwdExists || (if s.cardinality.Some? then s.cardinality.value == 0 else s.size == 0))
  }

  predicate NewerFile(s: SyncState, meta: Metadata) {
    meta.fileId != s.fileId && s.creationTime < meta.creationTime
  }

  /** The reverse index of the list is to be rebuilt. */
  predicate RepairDue(s: SyncState, reverse: bool) {
    reverse && s.reverseIndexDisabled
  }

  /**
   When a list is loaded, and what: everything without a committed version, a newer file, or after
   damage or for a rebuild; the bytes it has grown by if only those are missing; nothing otherwise.
   A rebuild whose manifest names an older file loads the committed one.
   */
  lemma PlannerMeans(state: Option<SyncState>, meta: Metadata, fwd: bool, reverse: bool)
    ensures var p := PlanSync(state, meta, fwd, reverse);
            if state.None? || state.value.version == "" then p == Some((FullLoad, meta))
            else
              var s := state.value;
              if NewerFile(s, meta) then p == Some((FullLoad, meta))
              else if RepairDue(s, reverse) then
                p == Some((FullLoad, if meta.fileId == s.fileId then meta
                                     else Metadata(s.fileId, s.creationTime, s.url, s.size)))
              else if meta.fileId != s.fileId then p == None
              else if !Intact(s, fwd) then p == Some((FullLoad, meta))
              else if s.size < meta.size then p == Some((Delta(meta.size - s.size), meta))
              else p == None
  {
  }

  // ----- Redis -----

  /** The part of Redis a tick only reads. */
  datatype View = View(
    states: map<(string, string), SyncState>, forward: set<(string, string, string)>,
    allLists: map<string, set<string>>)

  datatype Op = Load | Drop

  /** The hash a worker reads for a task: what to do, the file's fields once written, and the expiry in seconds. */
  datatype TaskMeta = TaskMeta(op: Op, file: Option<Metadata>, ttl: nat)

  /** The per-namespace keys that tell readers what they may rely on. */
  datatype Flags = Flags(ready: map<string, nat>, reverseDisabled: set<string>)

  class Redis {
    var states: map<(string, string), SyncState>       // by namespace and list
    var forward: set<(string, string, string)>         // existing member sets, by version
    var allLists: map<string, set<string>>
    var ready: map<string, nat>
    var reverseDisabled: set<string>
    var queue: map<(string, string), nat>              // member and score
    var taskMeta: map<(string, string), TaskMeta>

    ghost function Inputs(): View
      reads this
    {
      View(states, forward, allLists)
    }

    ghost function AllFlags(): Flags
      reads this
    {
      Flags(ready, reverseDisabled)
    }
  }

  function StateOf(states: map<(string, string), SyncState>, ns: string, list: string): Option<SyncState> {
    if (ns, list) in states then Some(states[(ns, list)]) else None
  }

  /** What the planner is asked, and answers, for one list of the manifest. */
  function Planned(states: map<(string, string), SyncState>, forward: set<(string, string, string)>,
                   plan: Planner, reverse: bool, ns: string, list: string, e: Entry)
    : Option<(Action, Metadata)>
  {
    var state := StateOf(states, ns, list);
    var fwdExists := state.Some? && state.value.version != "" && (ns, list, state.value.version) in forward;
    plan(state, MetadataOf(e), fwdExists, reverse)
  }

  /**
   The planner is asked about the list's committed state, the manifest's entry, and whether that
   version's members exist.
   */
  lemma PlannerIsAsked(states: map<(string, string), SyncState>, forward: set<(string, string, string)>,
                       plan: Planner, reverse: bool, ns: string, list: string, e: Entry)
    ensures var meta := Metadata(e.fileId, e.creationTime, e.url, e.size);
            Planned(states, forward, plan, reverse, ns, list, e) ==
            if (ns, list) !in states then plan(None, meta, false, reverse)
            else
              var s := states[(ns, list)];
              plan(Some(s), meta, s.version != "" && (ns, list, s.version) in forward, reverse)
  {
  }

  function KnownLists(allLists: map<string, set<string>>, ns: string): set<string> {
    if ns in allLists then allLists[ns] else {}
  }

  /** The tasks one company calls for: planned work on its lists, and removals of lists it no longer has. */
  ghost predicate CalledFor(states: map<(string, string), SyncState>, forward: set<(string, string, string)>,
                            known: set<string>, plan: Planner, reverse: bool,
                            ns: string, company: CompanyManifest, t: Task)
  {
    t.ns == ns &&
    if t.list in company.lists then
      var p := Planned(states, forward, plan, reverse, ns, t.list, company.lists[t.list]);
      p.Some? && t.action == p.value.0 && t.meta == Some(p.value.1)
    else
      t.list in known && !company.incomplete && t.action == Remove && t.meta == None
  }

  predicate ReversePending(states: map<(string, string), SyncState>, ns: string, lists: Manifest) {
    exists list | list in lists :: (ns, list) in states && states[(ns, list)].reverseIndexDisabled
  }

  ghost predicate DistinctLists(tasks: seq<Task>) {
    forall i, j | 0 <= i < j < |tasks| :: tasks[i].list != tasks[j].list
  }

  method PlanLists(redis: Redis, plan: Planner, reverse: bool, ns: string, lists: Manifest)
    returns (tasks: seq<Task>, pending: bool)
    ensures forall t :: t in tasks <==>
              t.list in lists
              && CalledFor(redis.states, redis.forward, {}, plan, reverse, ns, CompanyManifest(lists, true), t)
    ensures DistinctLists(tasks) && pending == ReversePending(redis.states, ns, lists)
  {
    tasks, pending := [], false;
    var names := lists.Keys;
    while names != {}
      invariant names <= lists.Keys && DistinctLists(tasks)
      invariant forall t :: t in tasks <==>
                  t.list in lists.Keys - names
                  && CalledFor(redis.states, redis.forward, {}, plan, reverse, ns, CompanyManifest(lists, true), t)
      invariant pending <==> exists l | l in lists.Keys - names ::
                  (ns, l) in redis.states && redis.states[(ns, l)].reverseIndexDisabled
    {
      var list :| list in names;
      var state := StateOf(redis.states, ns, list);
      pending := pending || (state.Some? && state.value.reverseIndexDisabled);
      var p := Planned(redis.states, redis.forward, plan, reverse, ns, list, lists[list]);
      if p.Some? {
        tasks := tasks + [Task(ns, list, p.value.0, Some(p.value.1))];
      }
      names := names - {list};
    }
  }

  method PlanRemovals(ns: string, company: CompanyManifest, known: set<string>) returns (tasks: seq<Task>)
    ensures forall t :: t in tasks <==>
              t.list in known && t.list !in company.lists && !company.incomplete && t == Task(ns, t.list, Remove, None)
    ensures DistinctLists(tasks)
  {
    tasks := [];
    var names := known;
    while names != {}
      invariant names <= known && DistinctLists(tasks)
      invariant forall t :: t in tasks <==>
                  t.list in known - names && t.list !in company.lists
                  && !company.incomplete && t == Task(ns, t.list, Remove, None)
    {
      var list :| list in names;
      if !company.incomplete && list !in company.lists {
        tasks := tasks + [Task(ns, list, Remove, None)];
      }
      names := names - {list};
    }
  }

  /** The flags after one company: touched only when the company is complete and nothing is to be done. */
  function FlagsAfter(flags: Flags, ns: string, company: CompanyManifest, idle: bool,
                      reverse: bool, pending: bool): Flags {
    if company.incomplete || !idle then flags
    else if reverse && pending then flags.(ready := flags.ready - {ns})
    else Flags(flags.ready[ns := |company.lists|],
               if reverse then flags.reverseDisabled - {ns} else flags.reverseDisabled)
  }

  method PlanCompany(redis: Redis, plan: Planner, reverse: bool, ns: string, company: CompanyManifest)
    returns (tasks: seq<Task>)
    modifies redis`ready, redis`reverseDisabled
    ensures forall t :: t in tasks <==>
              CalledFor(redis.states, redis.forward, KnownLists(redis.allLists, ns), plan, reverse, ns, company, t)
    ensures DistinctLists(tasks)
    ensures redis.AllFlags() == FlagsAfter(old(redis.AllFlags()), ns, company, tasks == [],
                                        reverse, ReversePending(redis.states, ns, company.lists))
  {
    var pending;
    tasks, pending := PlanLists(redis, plan, reverse, ns, company.lists);
    var removals := PlanRemovals(ns, company, KnownLists(redis.allLists, ns));
    forall i, j | 0 <= i < |tasks| && 0 <= j < |removals| ensures tasks[i].list != removals[j].list {
      assert tasks[i] in tasks && removals[j] in removals;
    }
    tasks := tasks + removals;
    if !company.incomplete && tasks == [] {
      if reverse && pending {
        redis.ready := redis.ready - {ns};
      } else {
        if reverse {
          redis.reverseDisabled := redis.reverseDisabled - {ns};
        }
        redis.ready := redis.ready[ns := |company.lists|];
      }
    }
  }

  // ----- Ordering -----

  predicate TaskLess(a: Task, b: Task) {
    a.action.Class() < b.action.Class() || (a.action.Class() == b.action.Class() &&
      (a.action.Lag() > b.action.Lag() || (a.action.Lag() == b.action.Lag() &&
        (LexLess(a.ns, b.ns) || (a.ns == b.ns && LexLess(a.list, b.list))))))
  }

  predicate TaskAtMost(a: Task, b: Task) {
    !TaskLess(b, a)
  }

  lemma TaskOrder(a: Task, b: Task, c: Task)
    ensures TaskAtMost(a, b) || TaskAtMost(b, a)
    ensures TaskAtMost(a, b) && TaskAtMost(b, c) ==> TaskAtMost(a, c)
  {
    LexTotal(a.ns, b.ns);
    LexTotal(b.ns, c.ns);
    LexTotal(a.list, b.list);
    LexTotal(b.list, c.list);
    if LexLess(c.ns, a.ns) && LexLess(a.ns, b.ns) { LexTransitive(c.ns, a.ns, b.ns); }
    if LexLess(c.list, a.list) && LexLess(a.list, b.list) { LexTransitive(c.list, a.list, b.list); }
  }

  ghost predicate TasksSorted(s: seq<Task>) {
    forall i, j | 0 <= i < j < |s| :: TaskAtMost(s[i], s[j])
  }

  function InsertTask(s: seq<Task>, t: Task): seq<Task> {
    if s == [] || TaskLess(t, s[0]) then [t] + s else [s[0]] + InsertTask(s[1..], t)
  }

  function SortTasks(s: seq<Task>): seq<Task> {
    if s == [] then [] else InsertTask(SortTasks(s[..|s| - 1]), s[|s| - 1])
  }

  lemma {:induction false} InsertTaskSorts(s: seq<Task>, t: Task)
    requires TasksSorted(s)
    ensures TasksSorted(InsertTask(s, t)) && multiset(InsertTask(s, t)) == multiset(s) + multiset{t}
  {
    if s == [] {
    } else if TaskLess(t, s[0]) {
      forall j | 0 <= j < |s| ensures TaskAtMost(t, s[j]) {
        TaskOrder(t, s[0], s[j]);
      }
    } else {
      assert s == [s[0]] + s[1..];
      InsertTaskSorts(s[1..], t);
      var rest := InsertTask(s[1..], t);
      forall j | 0 <= j < |rest| ensures TaskAtMost(s[0], rest[j]) {
        assert rest[j] in multiset(rest);
        assert rest[j] == t || rest[j] in s[1..];
      }
    }
  }

  lemma {:induction false} SortTasksSorts(s: seq<Task>)
    ensures TasksSorted(SortTasks(s)) && multiset(SortTasks(s)) == multiset(s)
  {
    if s != [] {
      SortTasksSorts(s[..|s| - 1]);
      InsertTaskSorts(SortTasks(s[..|s| - 1]), s[|s| - 1]);
      assert s == s[..|s| - 1] + [s[|s| - 1]];
    }
  }

  const CLASS_SCORE_BASE: nat := 0x100_0000_0000

  datatype Scored = Scored(score: nat, task: Task)

  function PairOf(t: Task): (string, string) {
    (t.ns, t.list)
  }

  /** The ordering is passed as a function so that scheduling does not depend on how it is defined. */
  type Order = (Task, Task) -> bool

  ghost predicate Represented(out: seq<Scored>, t: Task, le: Order) {
    exists m | 0 <= m < |out| :: PairOf(out[m].task) == PairOf(t) && le(out[m].task, t)
  }

  ghost predicate IsAmong(s: Scored, tasks: seq<Task>) {
    s.task in tasks
  }

  ghost predicate RepresentsAll(out: seq<Scored>, tasks: seq<Task>, le: Order) {
    && (forall m {:trigger IsAmong(out[m], tasks)} | 0 <= m < |out| :: IsAmong(out[m], tasks))
    && (forall t | t in tasks :: Represented(out, t, le))
  }

  /** Scores are told apart by class as long as no class can hold more than 2^40 tasks (`exact`). */
  ghost predicate Increasing(out: seq<Scored>, le: Order, exact: bool) {
    forall m, n | 0 <= m < n < |out| ::
      (exact ==> out[m].score < out[n].score) && le(out[m].task, out[n].task)
      && PairOf(out[m].task) != PairOf(out[n].task)
  }

  function ClassCount(out: seq<Scored>, cls: nat): nat {
    if out == [] then 0
    else ClassCount(out[..|out| - 1], cls) + if out[|out| - 1].task.action.Class() == cls then 1 else 0
  }

  /** A score is the class's base plus the number of earlier tasks of the class. */
  ghost predicate ScoreExact(out: seq<Scored>, m: nat)
    requires m < |out|
  {
    var cls := out[m].task.action.Class();
    out[m].score == cls * CLASS_SCORE_BASE + ClassCount(out[..m], cls)
  }

  ghost predicate ScoresExact(out: seq<Scored>) {
    forall m | 0 <= m < |out| :: ScoreExact(out, m)
  }

  lemma ScoreStays(out: seq<Scored>, s: Scored, m: nat)
    requires m < |out| && ScoreExact(out, m)
    ensures ScoreExact(out + [s], m)
  {
    assert (out + [s])[..m] == out[..m];
  }

  /** Each list once, with its most urgent task, and scores that grow along the output. */
  ghost predicate Scheduled(out: seq<Scored>, tasks: seq<Task>, le: Order) {
    RepresentsAll(out, tasks, le) && Increasing(out, le, |tasks| <= CLASS_SCORE_BASE) && ScoresExact(out)
  }

  ghost predicate Tallied(out: seq<Scored>, counts: seq<nat>)
    requires |counts| == 3
  {
    ScoresExact(out) && forall c | 0 <= c < 3 :: counts[c] == ClassCount(out, c)
  }

  lemma NextIsTallied(out: seq<Scored>, t: Task, counts: seq<nat>)
    requires |counts| == 3 && Tallied(out, counts)
    ensures var cls := t.action.Class();
            Tallied(out + [Scored(cls * CLASS_SCORE_BASE + counts[cls], t)], counts[cls := counts[cls] + 1])
  {
    var cls := t.action.Class();
    var out' := out + [Scored(cls * CLASS_SCORE_BASE + counts[cls], t)];
    assert out'[..|out|] == out;
    forall m | 0 <= m < |out'| ensures ScoreExact(out', m) {
      if m < |out| {
        ScoreStays(out, out'[|out|], m);
      }
    }
  }

  /** The first of two scheduled tasks in the program's own words. */
  predicate Earlier(a: Task, b: Task) {
    match (a.action, b.action)
    case (FullLoad, FullLoad) => NameAtMost(a, b)
    case (FullLoad, _) => true
    case (Delta(_), FullLoad) => false
    case (Delta(lagA), Delta(lagB)) => lagA > lagB || (lagA == lagB && NameAtMost(a, b))
    case (Delta(_), Remove) => true
    case (Remove, Remove) => NameAtMost(a, b)
    case (Remove, _) => false
  }

  predicate NameAtMost(a: Task, b: Task) {
    LexLess(a.ns, b.ns) || (a.ns == b.ns && (LexLess(a.list, b.list) || a.list == b.list))
  }

  lemma TaskAtMostMeans(a: Task, b: Task)
    ensures TaskAtMost(a, b) <==> Earlier(a, b)
  {
    LexTotal(a.ns, b.ns);
    LexTotal(a.list, b.list);
  }

  /**
   What the schedule promises: full loads before deltas before removals, larger lag first, then by
   name; fixed scores.
   */
  lemma ScheduleMeans(out: seq<Scored>, tasks: seq<Task>, m: nat)
    requires Scheduled(out, tasks, TaskAtMost) && m < |out|
    ensures forall n | m < n < |out| :: Earlier(out[m].task, out[n].task)
    ensures match out[m].task.action
            case FullLoad => out[m].score == ClassCount(out[..m], 0)
            case Delta(_) => out[m].score == 0x100_0000_0000 + ClassCount(out[..m], 1)
            case Remove => out[m].score == 0x200_0000_0000 + ClassCount(out[..m], 2)
  {
    assert ScoreExact(out, m);
    forall n | m < n < |out| ensures Earlier(out[m].task, out[n].task) {
      TaskAtMostMeans(out[m].task, out[n].task);
    }
  }

  ghost predicate InClassRange(s: Scored, counts: seq<nat>)
    requires |counts| == 3
  {
    var base := s.task.action.Class() * CLASS_SCORE_BASE;
    base <= s.score < base + counts[s.task.action.Class()]
  }

  lemma NextIsRepresented(out: seq<Scored>, done: seq<Task>, s: Scored, le: Order)
    requires RepresentsAll(out, done, le) && le(s.task, s.task)
    ensures RepresentsAll(out + [s], done + [s.task], le)
  {
    var out' := out + [s];
    forall n | 0 <= n < |out'| ensures IsAmong(out'[n], done + [s.task]) {
      if n < |out| { assert IsAmong(out[n], done); }
    }
    forall x | x in done + [s.task] ensures Represented(out', x, le) {
      if x in done {
        var m :| 0 <= m < |out| && PairOf(out[m].task) == PairOf(x) && le(out[m].task, x);
        assert out'[m] == out[m];
      } else {
        assert out'[|out|] == s;
      }
    }
  }

  lemma NextScoreIsHigher(earlier: Scored, t: Task, counts: seq<nat>)
    requires |counts| == 3 && (forall c | 0 <= c < 3 :: counts[c] <= CLASS_SCORE_BASE)
    requires InClassRange(earlier, counts) && earlier.task.action.Class() <= t.action.Class()
    ensures earlier.score < t.action.Class() * CLASS_SCORE_BASE + counts[t.action.Class()]
  {
  }

  lemma AlreadyScheduled(out: seq<Scored>, done: seq<Task>, t: Task, m: nat, le: Order)
    requires RepresentsAll(out, done, le) && (forall x | x in done :: le(x, t))
    requires m < |out| && PairOf(out[m].task) == PairOf(t)
    ensures RepresentsAll(out, done + [t], le)
  {
    assert IsAmong(out[m], done);
    forall n | 0 <= n < |out| ensures IsAmong(out[n], done + [t]) {
      assert IsAmong(out[n], done);
    }
    forall x | x in done + [t] ensures Represented(out, x, le) {
      assert x in done || x == t;
    }
  }

  ghost predicate InRange(out: seq<Scored>, counts: seq<nat>)
    requires |counts| == 3
  {
    forall m | 0 <= m < |out| :: InClassRange(out[m], counts)
  }

  /** Everything scheduled so far comes before `t` and is about another list. */
  ghost predicate Precedes(out: seq<Scored>, t: Task, le: Order) {
    forall m | 0 <= m < |out| ::
      le(out[m].task, t) && out[m].task.action.Class() <= t.action.Class() && PairOf(out[m].task) != PairOf(t)
  }

  lemma NextIsIncreasing(out: seq<Scored>, t: Task, counts: seq<nat>, le: Order, exact: bool)
    requires Increasing(out, le, exact) && Precedes(out, t, le) && |counts| == 3 && InRange(out, counts)
    requires exact ==> forall c | 0 <= c < 3 :: counts[c] <= CLASS_SCORE_BASE
    ensures Increasing(out + [Scored(t.action.Class() * CLASS_SCORE_BASE + counts[t.action.Class()], t)], le, exact)
  {
    var next := Scored(t.action.Class() * CLASS_SCORE_BASE + counts[t.action.Class()], t);
    forall m | 0 <= m < |out| && exact ensures out[m].score < next.score {
      NextScoreIsHigher(out[m], t, counts);
    }
  }

  lemma NextIsInRange(out: seq<Scored>, t: Task, counts: seq<nat>)
    requires |counts| == 3 && InRange(out, counts)
    ensures InRange(out + [Scored(t.action.Class() * CLASS_SCORE_BASE + counts[t.action.Class()], t)],
                    counts[t.action.Class() := counts[t.action.Class()] + 1])
  {
    var next := Scored(t.action.Class() * CLASS_SCORE_BASE + counts[t.action.Class()], t);
    var counts' := counts[t.action.Class() := counts[t.action.Class()] + 1];
    forall m | 0 <= m < |out| ensures InClassRange(out[m], counts') {
      assert InClassRange(out[m], counts);
    }
  }

  lemma EarlierTasksPrecede(out: seq<Scored>, sorted: seq<Task>, i: nat, seen: set<(string, string)>, le: Order)
    requires i < |sorted| && RepresentsAll(out, sorted[..i], le)
    requires SortedFor(sorted, le)
    requires (forall m | 0 <= m < |out| :: PairOf(out[m].task) in seen) && PairOf(sorted[i]) !in seen
    ensures Precedes(out, sorted[i], le)
  {
    forall m | 0 <= m < |out|
      ensures le(out[m].task, sorted[i]) && out[m].task.action.Class() <= sorted[i].action.Class() {
      assert IsAmong(out[m], sorted[..i]);
      var j :| 0 <= j < i && sorted[j] == out[m].task;
    }
  }

  ghost predicate SortedFor(sorted: seq<Task>, le: Order) {
    forall i, j | 0 <= i <= j < |sorted| ::
      le(sorted[i], sorted[j]) && sorted[i].action.Class() <= sorted[j].action.Class()
  }

  /** The pairs seen are exactly the pairs scheduled. */
  ghost predicate SeenPairs(out: seq<Scored>, seen: set<(string, string)>) {
    && (forall m | 0 <= m < |out| :: PairOf(out[m].task) in seen)
    && (forall p {:trigger HasPair(out, p)} | p in seen :: HasPair(out, p))
  }

  ghost predicate HasPair(out: seq<Scored>, p: (string, string)) {
    exists m | 0 <= m < |out| :: PairOf(out[m].task) == p
  }

  lemma OneMorePair(out: seq<Scored>, seen: set<(string, string)>, s: Scored)
    requires SeenPairs(out, seen)
    ensures SeenPairs(out + [s], seen + {PairOf(s.task)})
  {
    var out' := out + [s];
    forall p | p in seen + {PairOf(s.task)} ensures HasPair(out', p) {
      if p in seen {
        assert HasPair(out, p);
        var m :| 0 <= m < |out| && PairOf(out[m].task) == p;
        assert PairOf(out'[m].task) == p;
      } else {
        assert PairOf(out'[|out|].task) == p;
      }
    }
  }

  /** The dedupe loop's state after the first `i` sorted tasks. */
  datatype Progress = Progress(out: seq<Scored>, seen: set<(string, string)>, counts: seq<nat>)

  ghost predicate Deduping(g: Progress, sorted: seq<Task>, i: nat, le: Order)
    requires i <= |sorted|
  {
    && RepresentsAll(g.out, sorted[..i], le) && SeenPairs(g.out, g.seen)
    && Increasing(g.out, le, |sorted| <= CLASS_SCORE_BASE)
    && |g.counts| == 3 && (forall c | 0 <= c < 3 :: g.counts[c] <= i) && InRange(g.out, g.counts)
  }

  function DedupeStep(g: Progress, task: Task): Progress
    requires |g.counts| == 3
  {
    if PairOf(task) in g.seen then g
    else
      var cls := task.action.Class();
      Progress(g.out + [Scored(cls * CLASS_SCORE_BASE + g.counts[cls], task)],
               g.seen + {PairOf(task)}, g.counts[cls := g.counts[cls] + 1])
  }

  lemma SkipIsSound(g: Progress, sorted: seq<Task>, i: nat, le: Order)
    requires i < |sorted| && SortedFor(sorted, le) && Deduping(g, sorted, i, le)
    requires PairOf(sorted[i]) in g.seen
    ensures Deduping(g, sorted, i + 1, le)
  {
    assert sorted[..i + 1] == sorted[..i] + [sorted[i]];
    assert HasPair(g.out, PairOf(sorted[i]));
    var m :| 0 <= m < |g.out| && PairOf(g.out[m].task) == PairOf(sorted[i]);
    assert forall x | x in sorted[..i] :: le(x, sorted[i]);
    AlreadyScheduled(g.out, sorted[..i], sorted[i], m, le);
  }

  lemma ScheduleIsSound(g: Progress, sorted: seq<Task>, i: nat, le: Order)
    requires i < |sorted| && SortedFor(sorted, le) && Deduping(g, sorted, i, le)
    requires PairOf(sorted[i]) !in g.seen
    ensures Deduping(DedupeStep(g, sorted[i]), sorted, i + 1, le)
  {
    var task := sorted[i];
    var next := Scored(task.action.Class() * CLASS_SCORE_BASE + g.counts[task.action.Class()], task);
    assert sorted[..i + 1] == sorted[..i] + [task];
    var g' := DedupeStep(g, task);
    assert RepresentsAll(g'.out, sorted[..i + 1], le) by {
      assert le(task, task);
      NextIsRepresented(g.out, sorted[..i], next, le);
    }
    assert Increasing(g'.out, le, |sorted| <= CLASS_SCORE_BASE) by {
      EarlierTasksPrecede(g.out, sorted, i, g.seen, le);
      NextIsIncreasing(g.out, task, g.counts, le, |sorted| <= CLASS_SCORE_BASE);
    }
    assert SeenPairs(g'.out, g'.seen) by {
      OneMorePair(g.out, g.seen, next);
    }
    assert InRange(g'.out, g'.counts) by {
      NextIsInRange(g.out, task, g.counts);
    }
  }

  ghost predicate Sound(g: Progress, sorted: seq<Task>, i: nat, le: Order)
    requires i <= |sorted|
  {
    |g.counts| == 3 && Deduping(g, sorted, i, le) && Tallied(g.out, g.counts)
  }

  lemma StepIsTallied(g: Progress, task: Task)
    requires |g.counts| == 3 && Tallied(g.out, g.counts)
    ensures var g' := DedupeStep(g, task); |g'.counts| == 3 && Tallied(g'.out, g'.counts)
  {
    if PairOf(task) !in g.seen {
      NextIsTallied(g.out, task, g.counts);
    }
  }

  lemma OneMoreTask(g: Progress, sorted: seq<Task>, i: nat, le: Order)
    requires i < |sorted| && SortedFor(sorted, le) && Sound(g, sorted, i, le)
    ensures Sound(DedupeStep(g, sorted[i]), sorted, i + 1, le)
  {
    StepIsTallied(g, sorted[i]);
    if PairOf(sorted[i]) in g.seen {
      SkipIsSound(g, sorted, i, le);
    } else {
      ScheduleIsSound(g, sorted, i, le);
    }
  }

  lemma AllTasksDone(g: Progress, sorted: seq<Task>, le: Order)
    requires Sound(g, sorted, |sorted|, le)
    ensures Scheduled(g.out, sorted, le)
  {
    assert sorted[..|sorted|] == sorted;
  }

  /** The dedupe loop, for tasks already sorted by `le`. */
  method Dedupe(sorted: seq<Task>, le: Order) returns (out: seq<Scored>)
    requires SortedFor(sorted, le)
    ensures Scheduled(out, sorted, le)
  {
    var g := Progress([], {}, [0, 0, 0]);
    for i := 0 to |sorted|
      invariant Sound(g, sorted, i, le)
    {
      OneMoreTask(g, sorted, i, le);
      if PairOf(sorted[i]) in g.seen {
        continue;
      }
      g := DedupeStep(g, sorted[i]);
    }
    AllTasksDone(g, sorted, le);
    out := g.out;
  }

  lemma SameTasks(a: seq<Task>, b: seq<Task>)
    requires multiset(a) == multiset(b)
    ensures |a| == |b| && forall t :: t in a <==> t in b
  {
    assert |a| == |multiset(a)| && |b| == |multiset(b)|;
    assert forall t :: (t in a <==> t in multiset(a)) && (t in b <==> t in multiset(b));
  }

  method OrderAndDedupe(tasks: seq<Task>) returns (out: seq<Scored>)
    ensures Scheduled(out, tasks, TaskAtMost)
  {
    var sorted := SortTasks(tasks);
    SortTasksSorts(tasks);
    SameTasks(sorted, tasks);
    forall t ensures TaskAtMost(t, t) {
      TaskOrder(t, t, t);
    }
    out := Dedupe(sorted, TaskAtMost);
    forall m | 0 <= m < |out| ensures IsAmong(out[m], tasks) {
      assert IsAmong(out[m], sorted);
    }
  }

  // ----- Enqueueing -----

  const CHUNK: nat := 64

  /** ZADD NX: a member already queued keeps its score. */
  function Enqueued(queue: map<(string, string), nat>, tasks: seq<Scored>): map<(string, string), nat> {
    if tasks == [] then queue
    else
      var before, t := Enqueued(queue, tasks[..|tasks| - 1]), tasks[|tasks| - 1];
      if PairOf(t.task) in before then before else before[PairOf(t.task) := t.score]
  }

  /** Setting hash fields: a load with metadata writes the file's fields, anything else leaves them as they were. */
  function Noted(before: Option<TaskMeta>, t: Task, ttl: nat): TaskMeta {
    TaskMeta(if t.action == Remove then Drop else Load,
             if t.action != Remove && t.meta.Some? then t.meta else if before.Some? then before.value.file else None,
             ttl)
  }

  function MetaAt(taskMeta: map<(string, string), TaskMeta>, pair: (string, string)): Option<TaskMeta> {
    if pair in taskMeta then Some(taskMeta[pair]) else None
  }

  function Described(taskMeta: map<(string, string), TaskMeta>, tasks: seq<Scored>, ttl: nat)
    : map<(string, string), TaskMeta> {
    if tasks == [] then taskMeta
    else
      var before, t := Described(taskMeta, tasks[..|tasks| - 1], ttl), tasks[|tasks| - 1].task;
      before[PairOf(t) := Noted(MetaAt(before, PairOf(t)), t, ttl)]
  }

  function MetaTtl(intervalS: nat): nat {
    Max(Min(intervalS * 10, U64_MAX), 60)
  }

  /** Each list is scheduled once. */
  ghost predicate DistinctPairs(tasks: seq<Scored>) {
    forall m, n | 0 <= m < n < |tasks| :: PairOf(tasks[m].task) != PairOf(tasks[n].task)
  }

  /**
   What the worker of a task finds: to drop the list exactly if it is a removal, else to load it; the
   file's fields of a load that has them, the earlier ones otherwise; and the expiry.
   */
  ghost predicate WorkerIsTold(before: Option<TaskMeta>, after: Option<TaskMeta>, t: Task, intervalS: nat) {
    && after.Some?
    && (after.value.op == Drop <==> t.action == Remove)
    && (t.action != Remove && t.meta.Some? ==> after.value.file == t.meta)
    && (t.action == Remove || t.meta.None? ==> after.value.file == if before.Some? then before.value.file else None)
    && after.value.ttl == (if intervalS < 6 then 60 else if 10 * intervalS > U64_MAX then U64_MAX else 10 * intervalS)
  }

  lemma NotedTells(before: Option<TaskMeta>, t: Task, intervalS: nat)
    ensures WorkerIsTold(before, Some(Noted(before, t, MetaTtl(intervalS))), t, intervalS)
  {
  }

  /** What enqueueing leaves for one list: a queued member keeps its score, the metadata is the newest task's. */
  lemma {:induction false} EnqueuedExactly(queue: map<(string, string), nat>, taskMeta: map<(string, string), TaskMeta>,
                                           tasks: seq<Scored>, ttl: nat, pair: (string, string))
    requires DistinctPairs(tasks)
    ensures pair in Enqueued(queue, tasks) <==>
            pair in queue || exists m | 0 <= m < |tasks| :: PairOf(tasks[m].task) == pair
    ensures pair in queue ==> Enqueued(queue, tasks)[pair] == queue[pair]
    ensures forall m | 0 <= m < |tasks| && PairOf(tasks[m].task) == pair ::
              && (pair !in queue ==> pair in Enqueued(queue, tasks) && Enqueued(queue, tasks)[pair] == tasks[m].score)
              && MetaAt(Described(taskMeta, tasks, ttl), pair)
                 == Some(Noted(MetaAt(taskMeta, pair), tasks[m].task, ttl))
    ensures (forall m | 0 <= m < |tasks| :: PairOf(tasks[m].task) != pair) ==>
              MetaAt(Described(taskMeta, tasks, ttl), pair) == MetaAt(taskMeta, pair)
    decreases |tasks|
  {
    if tasks != [] {
      var n := |tasks| - 1;
      EnqueuedExactly(queue, taskMeta, tasks[..n], ttl, pair);
      assert forall m | 0 <= m < n :: tasks[..n][m] == tasks[m];
    }
  }

  ghost predicate WorkersAreTold(before: map<(string, string), TaskMeta>, after: map<(string, string), TaskMeta>,
                                 tasks: seq<Scored>, intervalS: nat)
  {
    && (forall m | 0 <= m < |tasks| ::
          var pair := PairOf(tasks[m].task);
          WorkerIsTold(MetaAt(before, pair), MetaAt(after, pair), tasks[m].task, intervalS))
    && (forall pair | (forall m | 0 <= m < |tasks| :: PairOf(tasks[m].task) != pair) ::
          MetaAt(after, pair) == MetaAt(before, pair))
  }

  lemma DescribedTells(taskMeta: map<(string, string), TaskMeta>, tasks: seq<Scored>, intervalS: nat)
    requires DistinctPairs(tasks)
    ensures WorkersAreTold(taskMeta, Described(taskMeta, tasks, MetaTtl(intervalS)), tasks, intervalS)
  {
    var ttl := MetaTtl(intervalS);
    forall pair ensures
      (forall m | 0 <= m < |tasks| :: PairOf(tasks[m].task) != pair) ==>
        MetaAt(Described(taskMeta, tasks, ttl), pair) == MetaAt(taskMeta, pair)
    {
      EnqueuedExactly(map[], taskMeta, tasks, ttl, pair);
    }
    forall m | 0 <= m < |tasks| ensures
      var pair := PairOf(tasks[m].task);
      WorkerIsTold(MetaAt(taskMeta, pair), MetaAt(Described(taskMeta, tasks, ttl), pair), tasks[m].task, intervalS)
    {
      EnqueuedExactly(map[], taskMeta, tasks, ttl, PairOf(tasks[m].task));
      NotedTells(MetaAt(taskMeta, PairOf(tasks[m].task)), tasks[m].task, intervalS);
    }
  }

  /** One task of a pipeline: metadata always, the queue member only if it is new. */
  method EnqueueOne(redis: Redis, t: Scored, ttl: nat) returns (added: nat)
    modifies redis`queue, redis`taskMeta
    ensures redis.queue == if PairOf(t.task) in old(redis.queue) then old(redis.queue)
                           else old(redis.queue)[PairOf(t.task) := t.score]
    ensures redis.taskMeta == old(redis.taskMeta)[PairOf(t.task) :=
                Noted(MetaAt(old(redis.taskMeta), PairOf(t.task)), t.task, ttl)]
    ensures |redis.queue| == |old(redis.queue)| + added
  {
    var member := PairOf(t.task);
    redis.taskMeta := redis.taskMeta[member := Noted(MetaAt(redis.taskMeta, member), t.task, ttl)];
    added := 0;
    if member !in redis.queue {
      redis.queue := redis.queue[member := t.score];
      added := 1;
    }
  }

  method EnqueueChunks(redis: Redis, tasks: seq<Scored>, ttl: nat) returns (added: nat)
    modifies redis`queue, redis`taskMeta
    ensures redis.queue == Enqueued(old(redis.queue), tasks)
    ensures redis.taskMeta == Described(old(redis.taskMeta), tasks, ttl)
    ensures |redis.queue| == |old(redis.queue)| + added
  {
    added := 0;
    var chunkStart := 0;
    while chunkStart < |tasks|
      invariant chunkStart <= |tasks|
      invariant redis.queue == Enqueued(old(redis.queue), tasks[..chunkStart])
      invariant redis.taskMeta == Described(old(redis.taskMeta), tasks[..chunkStart], ttl)
      invariant |redis.queue| == |old(redis.queue)| + added
    {
      var chunkEnd := Min(chunkStart + CHUNK, |tasks|);
      for i := chunkStart to chunkEnd
        invariant redis.queue == Enqueued(old(redis.queue), tasks[..i])
        invariant redis.taskMeta == Described(old(redis.taskMeta), tasks[..i], ttl)
        invariant |redis.queue| == |old(redis.queue)| + added
      {
        assert tasks[..i + 1][..i] == tasks[..i];
        var one := EnqueueOne(redis, tasks[i], ttl);
        added := added + one;
      }
      chunkStart := chunkEnd;
    }
    assert tasks[..|tasks|] == tasks;
  }

  /** The returned count is exactly how much the queue grew, over all chunks. */
  method EnqueueTasks(redis: Redis, tasks: seq<Scored>, intervalS: nat) returns (added: nat)
    modifies redis`queue, redis`taskMeta
    ensures redis.queue == Enqueued(old(redis.queue), tasks)
    ensures |redis.queue| == |old(redis.queue)| + added
    ensures DistinctPairs(tasks) ==> WorkersAreTold(old(redis.taskMeta), redis.taskMeta, tasks, intervalS)
  {
    added := EnqueueChunks(redis, tasks, MetaTtl(intervalS));
    if DistinctPairs(tasks) {
      DescribedTells(old(redis.taskMeta), tasks, intervalS);
    }
  }

  // ----- One tick -----

  datatype Stats = Stats(tasksEnqueued: nat, queueDepth: nat, manifestUnavailable: nat, tasksDerived: nat)

  /** One namespace's ready value and whether its reverse index is marked disabled. */
  datatype Flag = Flag(ready: Option<nat>, reverseDisabled: bool)

  function FlagAt(flags: Flags, ns: string): Flag {
    Flag(if ns in flags.ready then Some(flags.ready[ns]) else None, ns in flags.reverseDisabled)
  }

  ghost predicate NoTaskFor(derived: seq<Task>, ns: string) {
    forall t | t in derived :: t.ns != ns
  }

  ghost predicate TaskOf(v: View, plan: Planner, reverse: bool, ns: string, company: CompanyManifest, t: Task) {
    CalledFor(v.states, v.forward, KnownLists(v.allLists, ns), plan, reverse, ns, company, t)
  }

  /** What a tick leaves for one company: exactly the tasks it calls for, and its flags. */
  ghost predicate CompanyHandled(v: View, flags0: Flags, flags: Flags, derived: seq<Task>,
                                 plan: Planner, reverse: bool, ns: string, company: CompanyManifest)
  {
    && (forall t: Task | t.ns == ns :: t in derived <==> TaskOf(v, plan, reverse, ns, company, t))
    && FlagAt(flags, ns)
       == FlagAt(FlagsAfter(flags0, ns, company, NoTaskFor(derived, ns),
                            reverse, ReversePending(v.states, ns, company.lists)), ns)
  }

  ghost predicate Untouched(flags0: Flags, flags: Flags, derived: seq<Task>, ns: string) {
    NoTaskFor(derived, ns) && FlagAt(flags, ns) == FlagAt(flags0, ns)
  }

  lemma OthersUnaffected(derived: seq<Task>, tasks: seq<Task>, ns: string, other: string)
    requires other != ns && forall t | t in tasks :: t.ns == ns
    ensures NoTaskFor(derived + tasks, other) <==> NoTaskFor(derived, other)
    ensures forall t: Task | t.ns == other :: t in derived + tasks <==> t in derived
  {
  }

  lemma HandledStays(v: View, flags0: Flags, flags1: Flags, flags2: Flags,
                     derived: seq<Task>, tasks: seq<Task>, plan: Planner, reverse: bool,
                     ns: string, other: string, company: CompanyManifest)
    requires CompanyHandled(v, flags0, flags1, derived, plan, reverse, other, company)
    requires other != ns && (forall t | t in tasks :: t.ns == ns) && FlagAt(flags2, other) == FlagAt(flags1, other)
    ensures CompanyHandled(v, flags0, flags2, derived + tasks, plan, reverse, other, company)
  {
    OthersUnaffected(derived, tasks, ns, other);
  }

  lemma HandledNow(v: View, flags0: Flags, flags1: Flags, derived: seq<Task>, tasks: seq<Task>,
                   plan: Planner, reverse: bool, ns: string, company: CompanyManifest)
    requires Untouched(flags0, flags1, derived, ns)
    requires forall t :: t in tasks <==> TaskOf(v, plan, reverse, ns, company, t)
    ensures CompanyHandled(v, flags0,
              FlagsAfter(flags1, ns, company, tasks == [], reverse, ReversePending(v.states, ns, company.lists)),
              derived + tasks, plan, reverse, ns, company)
  {
    assert NoTaskFor(derived + tasks, ns) <==> tasks == [] by {
      if tasks != [] {
        assert tasks[0] in tasks && TaskOf(v, plan, reverse, ns, company, tasks[0]);
        assert tasks[0] in derived + tasks;
      }
    }
  }

  method PlanCompanies(redis: Redis, plan: Planner, reverse: bool, companies: map<string, CompanyManifest>)
    returns (derived: seq<Task>)
    modifies redis`ready, redis`reverseDisabled
    ensures forall ns | ns in companies ::
              CompanyHandled(redis.Inputs(), old(redis.AllFlags()), redis.AllFlags(),
                             derived, plan, reverse, ns, companies[ns])
    ensures forall ns | ns !in companies :: Untouched(old(redis.AllFlags()), redis.AllFlags(), derived, ns)
  {
    derived := [];
    var rest := companies.Keys;
    ghost var v, flags0 := redis.Inputs(), redis.AllFlags();
    while rest != {}
      invariant rest <= companies.Keys && redis.Inputs() == v
      invariant forall ns | ns in companies.Keys - rest ::
                  CompanyHandled(v, flags0, redis.AllFlags(), derived, plan, reverse, ns, companies[ns])
      invariant forall ns | ns !in companies.Keys - rest :: Untouched(flags0, redis.AllFlags(), derived, ns)
    {
      var ns :| ns in rest;
      ghost var flags1 := redis.AllFlags();
      var tasks := PlanCompany(redis, plan, reverse, ns, companies[ns]);
      assert forall t :: t in tasks <==> TaskOf(v, plan, reverse, ns, companies[ns], t);
      HandledNow(v, flags0, flags1, derived, tasks, plan, reverse, ns, companies[ns]);
      forall other | other in companies.Keys - rest
        ensures CompanyHandled(v, flags0, redis.AllFlags(), derived + tasks, plan, reverse, other, companies[other])
      {
        HandledStays(v, flags0, flags1, redis.AllFlags(), derived, tasks, plan, reverse, ns, other, companies[other]);
      }
      forall other | other !in companies.Keys - (rest - {ns})
        ensures Untouched(flags0, redis.AllFlags(), derived + tasks, other) {
        assert Untouched(flags0, flags1, derived, other);
        OthersUnaffected(derived, tasks, ns, other);
      }
      derived, rest := derived + tasks, rest - {ns};
    }
  }

  /** A list is absent from a company's union exactly when no key of the company lists it. */
  lemma AbsentFromUnion(w: World, ns: string, list: string, key: string)
    requires list !in UnionUpTo(w, |w.serverKeys|, ns)
    requires key in w.serverKeys && w.InCompany(key, ns) && key in w.manifests
    ensures list !in w.manifests[key]
  {
    UnionPicksWinners(w, |w.serverKeys|, ns, list);
    if list in w.manifests[key] {
      CandidateSources(w, |w.serverKeys|, ns, list, w.manifests[key][list]);
    }
  }

  /** Everything known says the list is gone: all companies resolved, all manifests present, none lists it. */
  ghost predicate RemovalJustified(w: World, ns: string, list: string) {
    && Complete(w, ns)
    && forall key | key in w.serverKeys && w.InCompany(key, ns) :: list !in w.manifests[key]
  }

  lemma RemovalsAreJustified(w: World, companies: map<string, CompanyManifest>, v: View, flags0: Flags,
                             flags: Flags, derived: seq<Task>, plan: Planner, reverse: bool, t: Task)
    requires AllKeysDone(w, companies) && NeverRemoves(plan)
    requires forall ns | ns in companies :: CompanyHandled(v, flags0, flags, derived, plan, reverse, ns, companies[ns])
    requires forall ns | ns !in companies :: Untouched(flags0, flags, derived, ns)
    requires t in derived && t.action == Remove
    ensures RemovalJustified(w, t.ns, t.list)
  {
    assert t.ns in companies;
    var company := companies[t.ns];
    assert TaskOf(v, plan, reverse, t.ns, company, t);
    assert t.list !in company.lists && !company.incomplete;
    forall key | key in w.serverKeys && w.InCompany(key, t.ns) ensures NotListedBy(w, key, t.list) {
      AbsentFromUnion(w, t.ns, t.list, key);
    }
  }

  predicate NotListedBy(w: World, key: string, list: string) {
    key in w.manifests && list !in w.manifests[key]
  }

  /** The tasks a tick has to derive: for each discovered company, what its union calls for. */
  ghost predicate Derivable(w: World, v: View, plan: Planner, reverse: bool, t: Task) {
    && Discovered(w, |w.serverKeys|, t.ns)
    && TaskOf(v, plan, reverse, t.ns,
              CompanyManifest(UnionUpTo(w, |w.serverKeys|, t.ns), !Complete(w, t.ns)), t)
  }

  lemma DerivedExactly(w: World, companies: map<string, CompanyManifest>, v: View, flags0: Flags,
                       flags: Flags, derived: seq<Task>, plan: Planner, reverse: bool, t: Task)
    requires AllKeysDone(w, companies)
    requires forall ns | ns in companies :: CompanyHandled(v, flags0, flags, derived, plan, reverse, ns, companies[ns])
    requires forall ns | ns !in companies :: Untouched(flags0, flags, derived, ns)
    ensures t in derived <==> Derivable(w, v, plan, reverse, t)
  {
    if t.ns in companies {
      assert companies[t.ns] == CompanyManifest(UnionUpTo(w, |w.serverKeys|, t.ns), !Complete(w, t.ns));
    }
  }

  /** And nothing is forgotten: a known list that no key of a complete company has any more is removed. */
  lemma GoneListIsRemoved(w: World, v: View, plan: Planner, reverse: bool, ns: string, list: string)
    requires Discovered(w, |w.serverKeys|, ns) && RemovalJustified(w, ns, list)
    requires ns in v.allLists && list in v.allLists[ns]
    ensures Derivable(w, v, plan, reverse, Task(ns, list, Remove, None))
  {
    UnionPicksWinners(w, |w.serverKeys|, ns, list);
    var es := Candidates(w, |w.serverKeys|, ns, list);
    if es != [] {
      CandidateSources(w, |w.serverKeys|, ns, list, es[0]);
    }
  }

  /** A list some key of the company has is planned from the winning entry. */
  lemma ListedIsPlanned(w: World, v: View, plan: Planner, reverse: bool, t: Task)
    requires Candidates(w, |w.serverKeys|, t.ns, t.list) != []
    ensures var e := Winner(Candidates(w, |w.serverKeys|, t.ns, t.list));
            var p := Planned(v.states, v.forward, plan, reverse, t.ns, t.list, e);
            Derivable(w, v, plan, reverse, t) <==>
            Discovered(w, |w.serverKeys|, t.ns) && p.Some? && t.action == p.value.0 && t.meta == Some(p.value.1)
  {
    UnionPicksWinners(w, |w.serverKeys|, t.ns, t.list);
  }

  /** The list's committed version was loaded without its reverse index. */
  predicate AwaitsRebuild(states: map<(string, string), SyncState>, ns: string, list: string) {
    (ns, list) in states && states[(ns, list)].reverseIndexDisabled
  }

  /** The flag a tick leaves for a namespace, in terms of the keys and manifests themselves. */
  ghost function FlagAfterTick(w: World, v: View, reverse: bool, before: Flag, idle: bool, ns: string): Flag {
    var lists := UnionUpTo(w, |w.serverKeys|, ns);
    if !Discovered(w, |w.serverKeys|, ns) || !Complete(w, ns) || !idle then before
    else if reverse && exists list | list in lists :: AwaitsRebuild(v.states, ns, list) then before.(ready := None)
    else Flag(Some(|lists|), before.reverseDisabled && !reverse)
  }

  lemma FlagsExactly(w: World, companies: map<string, CompanyManifest>, v: View, flags0: Flags,
                     flags: Flags, derived: seq<Task>, plan: Planner, reverse: bool, ns: string)
    requires AllKeysDone(w, companies)
    requires ns in companies ==> CompanyHandled(v, flags0, flags, derived, plan, reverse, ns, companies[ns])
    requires ns !in companies ==> Untouched(flags0, flags, derived, ns)
    ensures FlagAt(flags, ns) == FlagAfterTick(w, v, reverse, FlagAt(flags0, ns), NoTaskFor(derived, ns), ns)
  {
    if ns in companies {
      assert companies[ns] == CompanyManifest(UnionUpTo(w, |w.serverKeys|, ns), !Complete(w, ns));
      assert ReversePending(v.states, ns, companies[ns].lists) <==>
             exists list | list in companies[ns].lists :: AwaitsRebuild(v.states, ns, list);
    }
  }

  /**
   One locked tick. A namespace collision writes nothing. Otherwise the derived tasks are exactly
   those the unions call for; for any planner that never removes, removals are justified by complete
   knowledge; a ready key is set to the size of its union exactly for a complete company with no
   derived task, or cleared while a reverse rebuild is pending; and the enqueued count is the
   queue's growth.
   */
  method ProduceLocked(w: World, redis: Redis, plan: Planner, reverse: bool, intervalS: nat)
    returns (stats: Option<Stats>, derived: seq<Task>, ordered: seq<Scored>)
    modifies redis`ready, redis`reverseDisabled, redis`queue, redis`taskMeta
    ensures stats.None? <==> Collides(w)
    ensures Collides(w) ==> derived == [] && unchanged(redis)
    ensures !Collides(w) ==> forall t :: t in derived <==> Derivable(w, redis.Inputs(), plan, reverse, t)
    ensures !Collides(w) ==> Scheduled(ordered, derived, TaskAtMost)
                             && redis.queue == Enqueued(old(redis.queue), ordered)
                             && WorkersAreTold(old(redis.taskMeta), redis.taskMeta, ordered, intervalS)
    ensures NeverRemoves(plan) ==> forall t | t in derived && t.action == Remove :: RemovalJustified(w, t.ns, t.list)
    ensures !Collides(w) ==> forall ns ::
              FlagAt(redis.AllFlags(), ns)
              == FlagAfterTick(w, redis.Inputs(), reverse, FlagAt(old(redis.AllFlags()), ns),
                               NoTaskFor(derived, ns), ns)
    ensures stats.Some? ==> |redis.queue| == |old(redis.queue)| + stats.value.tasksEnqueued
                            && stats.value.queueDepth == |redis.queue|
                            && stats.value.manifestUnavailable == Missing(w, |w.serverKeys|)
                            && stats.value.tasksDerived == |ordered|
  {
    var union_ := UnionManifests(w);
    if union_.Collisions? {
      return None, [], [];
    }
    var companies := union_.companies;
    ghost var flags0 := redis.AllFlags();
    derived := PlanCompanies(redis, plan, reverse, companies);
    ghost var flags := redis.AllFlags();
    if NeverRemoves(plan) {
      forall t | t in derived && t.action == Remove ensures RemovalJustified(w, t.ns, t.list) {
        RemovalsAreJustified(w, companies, redis.Inputs(), flags0, flags, derived, plan, reverse, t);
      }
    }
    forall ns
      ensures FlagAt(flags, ns) == FlagAfterTick(w, redis.Inputs(), reverse, FlagAt(flags0, ns),
                                                NoTaskFor(derived, ns), ns)
    {
      FlagsExactly(w, companies, redis.Inputs(), flags0, flags, derived, plan, reverse, ns);
    }
    forall t ensures t in derived <==> Derivable(w, redis.Inputs(), plan, reverse, t) {
      DerivedExactly(w, companies, redis.Inputs(), flags0, flags, derived, plan, reverse, t);
    }
    ordered := OrderAndDedupe(derived);
    var enqueued := EnqueueTasks(redis, ordered, intervalS);
    stats := Some(Stats(enqueued, |redis.queue|, union_.unavailable, |ordered|));
  }
}
