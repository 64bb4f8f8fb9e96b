/**
 Several proxy pods sharing one Redis as a backup cache.

 The machine's steps are the Redis transactions (and the failures) of the program: an update checks
 leadership and the stored version in one transaction and writes in another, renewals run one
 guarded script per key, and any other pod's transactions may come in between. Expired keys
 disappear when time passes.
 */
module BackupCache {
  import opened Common

  datatype Settings = Settings(ttl: nat, leaderTtl: nat, checkLcut: bool)

  datatype Entry = Entry(lcut: nat, config: string, expireAt: nat)

  /** The leader key; it has no expiry until a writer or a follower gives it one. */
  datatype Leader = Leader(pod: nat, expireAt: Option<nat>)

  /** What a pod remembers about the last payload of a context. */
  datatype Active = Active(keys: seq<string>, lcut: nat)

  /**
   The outcome of an update's first transaction: whether to write, the version it saw,
   and how many writes came before.
   */
  datatype Verdict = Verdict(write: bool, saw: Option<nat>, asOf: nat)

  datatype Receipt = Receipt(pod: nat, key: string, lcut: nat, config: string)

  datatype Written = Written(key: string, lcut: nat)

  datatype Update = Update(pod: nat, useLcut: bool, keys: seq<string>,
                           lcut: nat, config: string, verdict: Option<Verdict>)

  datatype Renewal = Renewal(pod: nat, keys: seq<string>, lcut: nat)

  datatype State = State(
    now: nat,
    entries: map<string, Entry>,
    leader: Option<Leader>,
    active: map<(nat, string), Active>,      // by pod and context
    updates: map<nat, Update>,               // updates under way, by id
    touches: map<nat, Renewal>,              // touches under way, by id
    received: set<Receipt>,                  // every payload got from the origin
    writes: seq<Written>)                    // every write so far, oldest first

  datatype Event =
    | Tick(elapsed: nat)
    | Receive(id: nat, pod: nat, ctx: string, useLcut: bool, keys: seq<string>, lcut: nat, config: string)
    | Check(id: nat)                          // first transaction, for the next key
    | CheckFails(id: nat)
    | Write(id: nat)                          // second transaction
    | Skip(id: nat)                           // version-guarded renewal instead of a write
    | GiveUp(id: nat)                         // no connection, a failed write, or an undecodable payload
    | BeginTouch(id: nat, pod: nat, ctx: string)
    | TouchKey(id: nat)
    | AbandonTouch(id: nat)
    | Delete(key: string)                     // an unauthorized context

  predicate Enabled(s: State, ev: Event) {
    match ev
    case Tick(_) => true
    case Receive(id, _, _, _, keys, _, _) => id !in s.updates && keys != []
    case Check(id) => id in s.updates && s.updates[id].keys != [] && s.updates[id].verdict.None?
    case CheckFails(id) => id in s.updates && s.updates[id].keys != [] && s.updates[id].verdict.None?
    case Write(id) => id in s.updates && s.updates[id].keys != []
      && s.updates[id].verdict.Some? && s.updates[id].verdict.value.write
    case Skip(id) => id in s.updates && s.updates[id].keys != []
      && s.updates[id].verdict.Some? && !s.updates[id].verdict.value.write
    case GiveUp(id) => id in s.updates && s.updates[id].keys != []
    case BeginTouch(id, pod, ctx) => id !in s.touches && (pod, ctx) in s.active
    case TouchKey(id) => id in s.touches && s.touches[id].keys != []
    case AbandonTouch(id) => id in s.touches
    case Delete(_) => true
  }

  function Expire(entries: map<string, Entry>, now: nat): map<string, Entry> {
    map k | k in entries && now < entries[k].expireAt :: entries[k]
  }

  function ExpireLeader(leader: Option<Leader>, now: nat): Option<Leader> {
    if leader.Some? && leader.value.expireAt.Some? && leader.value.expireAt.value <= now then None else leader
  }

  /** SET NX on the leader key. */
  function Elect(leader: Option<Leader>, pod: nat): Leader {
    if leader.Some? then leader.value else Leader(pod, None)
  }

  function StoredLcut(entries: map<string, Entry>, key: string): Option<nat> {
    if key in entries then Some(entries[key].lcut) else None
  }

  function Judge(s: State, u: Update, cfg: Settings): Verdict
    requires u.keys != []
  {
    var saw := StoredLcut(s.entries, u.keys[0]);
    var isLeader := Elect(s.leader, u.pod).pod == u.pod;
    var newer := saw.None? || saw.value < u.lcut;
    Verdict(!u.useLcut || (isLeader && (cfg.checkLcut ==> newer)), saw, |s.writes|)
  }

  /** The script: extend the expiry only if the stored version is the expected one. */
  function RenewIf(s: State, key: string, lcut: nat, cfg: Settings): map<string, Entry> {
    if key in s.entries && s.entries[key].lcut == lcut
    then s.entries[key := s.entries[key].(expireAt := s.now + cfg.ttl)] else s.entries
  }

  function NextKey(u: Update): Update
    requires u.keys != []
  {
    u.(keys := u.keys[1..], verdict := None)
  }

  function Step(s: State, ev: Event, cfg: Settings): State
    requires Enabled(s, ev)
  {
    match ev
    case Tick(elapsed) =>
      var now := s.now + elapsed;
      s.(now := now, entries := Expire(s.entries, now), leader := ExpireLeader(s.leader, now))
    case Receive(id, pod, ctx, useLcut, keys, lcut, config) =>
      s.(active := s.active[(pod, ctx) := Active(keys, lcut)],
         updates := s.updates[id := Update(pod, useLcut, keys, lcut, config, None)],
         received := s.received + set k | k in keys :: Receipt(pod, k, lcut, config))
    case Check(id) =>
      var u := s.updates[id];
      var leader := Elect(s.leader, u.pod);
      // A follower that finds a leader key without expiry repairs it.
      s.(leader := Some(if s.leader.Some? && leader.expireAt.None? && leader.pod != u.pod
                        then leader.(expireAt := Some(s.now + cfg.leaderTtl)) else leader),
         updates := s.updates[id := u.(verdict := Some(Judge(s, u, cfg)))])
    case CheckFails(id) =>
      var u := s.updates[id];
      s.(updates := s.updates[id := u.(verdict := Some(Verdict(!u.useLcut, None, |s.writes|)))])
    case Write(id) =>
      var u := s.updates[id];
      s.(entries := s.entries[u.keys[0] := Entry(u.lcut, u.config, s.now + cfg.ttl)],
         leader := Some(Elect(s.leader, u.pod).(expireAt := Some(s.now + cfg.leaderTtl))),
         updates := s.updates[id := NextKey(u)], writes := s.writes + [Written(u.keys[0], u.lcut)])
    case Skip(id) =>
      var u := s.updates[id];
      s.(entries := RenewIf(s, u.keys[0], u.lcut, cfg), updates := s.updates[id := NextKey(u)])
    case GiveUp(id) => s.(updates := s.updates[id := NextKey(s.updates[id])])
    case BeginTouch(id, pod, ctx) =>
      s.(touches := s.touches[id := Renewal(pod, s.active[(pod, ctx)].keys, s.active[(pod, ctx)].lcut)])
    case TouchKey(id) =>
      var t := s.touches[id];
      s.(entries := RenewIf(s, t.keys[0], t.lcut, cfg), touches := s.touches[id := t.(keys := t.keys[1..])])
    case AbandonTouch(id) => s.(touches := s.touches - {id})
    case Delete(key) => s.(entries := s.entries - {key})
  }

  ghost predicate IsRun(s: State, evs: seq<Event>, cfg: Settings)
    decreases |evs|
  {
    evs == [] || (Enabled(s, evs[0]) && IsRun(Step(s, evs[0], cfg), evs[1..], cfg))
  }

  ghost function Run(s: State, evs: seq<Event>, cfg: Settings): State
    requires IsRun(s, evs, cfg)
    decreases |evs|
  {
    if evs == [] then s else Run(Step(s, evs[0], cfg), evs[1..], cfg)
  }

  function Initial(now: nat): State {
    State(now, map[], None, map[], map[], map[], {}, [])
  }

  // ----- Renewal is version-guarded -----

  /** The pod itself got this version of the key from the origin. */
  ghost predicate GotVersion(s: State, pod: nat, key: string, lcut: nat) {
    exists config :: Receipt(pod, key, lcut, config) in s.received
  }

  /** Some pod got this version of the key with this config from the origin, both in one payload. */
  ghost predicate CameTogether(s: State, key: string, lcut: nat, config: string) {
    exists pod :: Receipt(pod, key, lcut, config) in s.received
  }

  /** Everything a pod has in hand it received itself, and what is stored was received as it is. */
  ghost predicate Confirmed(s: State) {
    && (forall a, k | a in s.active && k in s.active[a].keys :: GotVersion(s, a.0, k, s.active[a].lcut))
    && (forall id, k | id in s.updates && k in s.updates[id].keys ::
          Receipt(s.updates[id].pod, k, s.updates[id].lcut, s.updates[id].config) in s.received)
    && (forall id, k | id in s.touches && k in s.touches[id].keys ::
          GotVersion(s, s.touches[id].pod, k, s.touches[id].lcut))
    && (forall key | key in s.entries :: CameTogether(s, key, s.entries[key].lcut, s.entries[key].config))
  }

  lemma {:induction false} EveryRunIsConfirmed(s: State, evs: seq<Event>, cfg: Settings)
    requires Confirmed(s) && IsRun(s, evs, cfg)
    ensures Confirmed(Run(s, evs, cfg))
    decreases |evs|
  {
    if evs != [] {
      StepKeepsConfirmed(s, evs[0], cfg);
      EveryRunIsConfirmed(Step(s, evs[0], cfg), evs[1..], cfg);
    }
  }

  /** Receipts are never lost. */
  lemma StillGot(s: State, ev: Event, cfg: Settings)
    requires Enabled(s, ev)
    ensures var s' := Step(s, ev, cfg);
            && (forall r | r in s.received :: r in s'.received)
            && (forall pod, key, lcut | GotVersion(s, pod, key, lcut) :: GotVersion(s', pod, key, lcut))
            && (forall key, lcut, config | CameTogether(s, key, lcut, config) :: CameTogether(s', key, lcut, config))
  {
    var s' := Step(s, ev, cfg);
    assert s.received <= s'.received;
    forall pod, key, lcut | GotVersion(s, pod, key, lcut) ensures GotVersion(s', pod, key, lcut) {
      var config :| Receipt(pod, key, lcut, config) in s.received;
      assert Receipt(pod, key, lcut, config) in s'.received;
    }
    forall key, lcut, config | CameTogether(s, key, lcut, config) ensures CameTogether(s', key, lcut, config) {
      var pod :| Receipt(pod, key, lcut, config) in s.received;
      assert Receipt(pod, key, lcut, config) in s'.received;
    }
  }

  lemma EntriesStayConfirmed(s: State, ev: Event, cfg: Settings, key: string)
    requires Confirmed(s) && Enabled(s, ev) && key in Step(s, ev, cfg).entries
    ensures var s' := Step(s, ev, cfg); CameTogether(s', key, s'.entries[key].lcut, s'.entries[key].config)
  {
    StillGot(s, ev, cfg);
    if ev.Write? && s.updates[ev.id].keys[0] == key {
      assert Receipt(s.updates[ev.id].pod, key, s.updates[ev.id].lcut, s.updates[ev.id].config) in s.received;
    } else {
      var s' := Step(s, ev, cfg);
      assert key in s.entries && s'.entries[key].lcut == s.entries[key].lcut
             && s'.entries[key].config == s.entries[key].config;
    }
  }

  lemma UpdatesStayConfirmed(s: State, ev: Event, cfg: Settings, id: nat, k: string)
    requires Confirmed(s) && Enabled(s, ev)
    requires id in Step(s, ev, cfg).updates && k in Step(s, ev, cfg).updates[id].keys
    ensures var s' := Step(s, ev, cfg);
            Receipt(s'.updates[id].pod, k, s'.updates[id].lcut, s'.updates[id].config) in s'.received
  {
    StillGot(s, ev, cfg);
    if !(ev.Receive? && ev.id == id) {
      assert id in s.updates && k in s.updates[id].keys;
    }
  }

  lemma VersionsStayConfirmed(s: State, ev: Event, cfg: Settings)
    requires Confirmed(s) && Enabled(s, ev)
    ensures var s' := Step(s, ev, cfg);
            && (forall a, k | a in s'.active && k in s'.active[a].keys :: GotVersion(s', a.0, k, s'.active[a].lcut))
            && (forall id, k | id in s'.touches && k in s'.touches[id].keys ::
                  GotVersion(s', s'.touches[id].pod, k, s'.touches[id].lcut))
  {
    StillGot(s, ev, cfg);
    var s' := Step(s, ev, cfg);
    forall a, k | a in s'.active && k in s'.active[a].keys ensures GotVersion(s', a.0, k, s'.active[a].lcut) {
      if ev.Receive? && a == (ev.pod, ev.ctx) {
        assert Receipt(ev.pod, k, ev.lcut, ev.config) in s'.received;
      } else {
        assert GotVersion(s, a.0, k, s.active[a].lcut);
      }
    }
    forall id, k | id in s'.touches && k in s'.touches[id].keys
      ensures GotVersion(s', s'.touches[id].pod, k, s'.touches[id].lcut)
    {
      if ev.BeginTouch? && ev.id == id {
        assert GotVersion(s, ev.pod, k, s.active[(ev.pod, ev.ctx)].lcut);
      } else {
        assert GotVersion(s, s.touches[id].pod, k, s.touches[id].lcut);
      }
    }
  }

  lemma StepKeepsConfirmed(s: State, ev: Event, cfg: Settings)
    requires Confirmed(s) && Enabled(s, ev)
    ensures Confirmed(Step(s, ev, cfg))
  {
    var s' := Step(s, ev, cfg);
    VersionsStayConfirmed(s, ev, cfg);
    forall id, k | id in s'.updates && k in s'.updates[id].keys
      ensures Receipt(s'.updates[id].pod, k, s'.updates[id].lcut, s'.updates[id].config) in s'.received
    {
      UpdatesStayConfirmed(s, ev, cfg, id, k);
    }
    forall key | key in s'.entries ensures CameTogether(s', key, s'.entries[key].lcut, s'.entries[key].config) {
      EntriesStayConfirmed(s, ev, cfg, key);
    }
  }

  /**
   In any reachable state, a touch or a skipped write changes no content and extends only
   what its own pod received.
   */
  lemma RenewalIsGuarded(start: nat, evs: seq<Event>, ev: Event, cfg: Settings, key: string)
    requires IsRun(Initial(start), evs, cfg) && Enabled(Run(Initial(start), evs, cfg), ev)
    requires ev.Skip? || ev.TouchKey?
    ensures var s := Run(Initial(start), evs, cfg);
            var s' := Step(s, ev, cfg);
            var pod := if ev.Skip? then s.updates[ev.id].pod else s.touches[ev.id].pod;
            && s'.entries.Keys == s.entries.Keys
            && (key in s.entries ==>
                  && s'.entries[key].lcut == s.entries[key].lcut && s'.entries[key].config == s.entries[key].config
                  && (s'.entries[key] != s.entries[key] ==>
                        GotVersion(s, pod, key, s.entries[key].lcut) && s'.entries[key].expireAt == s.now + cfg.ttl))
  {
    EveryRunIsConfirmed(Initial(start), evs, cfg);
  }

  /**
   Over every run: a stored version carries the config it came with from the origin, and right after a
   write the entry is that of the writing update, for the full time to live.
   */
  lemma StoredAsReceived(start: nat, evs: seq<Event>, cfg: Settings, key: string)
    requires IsRun(Initial(start), evs, cfg)
    ensures var s := Run(Initial(start), evs, cfg);
            && (key in s.entries ==> CameTogether(s, key, s.entries[key].lcut, s.entries[key].config))
            && forall id | Enabled(s, Write(id)) && s.updates[id].keys[0] == key ::
                 var u, s' := s.updates[id], Step(s, Write(id), cfg);
                 && key in s'.entries && s'.entries[key] == Entry(u.lcut, u.config, s.now + cfg.ttl)
                 && Receipt(u.pod, key, u.lcut, u.config) in s.received
                 && forall other | other != key ::
                      (other in s'.entries <==> other in s.entries)
                      && (other in s.entries ==> s'.entries[other] == s.entries[other])
  {
    EveryRunIsConfirmed(Initial(start), evs, cfg);
  }

  /** What was received is what the events brought: nothing is made up. */
  lemma {:induction false} ReceiptsComeFromEvents(s: State, evs: seq<Event>, cfg: Settings, r: Receipt)
    requires IsRun(s, evs, cfg)
    ensures r in Run(s, evs, cfg).received <==> r in s.received || exists ev | ev in evs :: Brings(ev, r)
    decreases |evs|
  {
    if evs != [] {
      ReceiptsComeFromEvents(Step(s, evs[0], cfg), evs[1..], cfg, r);
      assert evs == [evs[0]] + evs[1..] && evs[0] in evs;
      assert r in Step(s, evs[0], cfg).received <==> r in s.received || Brings(evs[0], r);
    }
  }

  predicate Brings(ev: Event, r: Receipt) {
    ev.Receive? && ev.pod == r.pod && r.key in ev.keys && ev.lcut == r.lcut && ev.config == r.config
  }

  /** The leader key is free or holds this pod. */
  predicate MayLead(leader: Option<Leader>, pod: nat) {
    leader.Some? ==> leader.value.pod == pod
  }

  /**
   What a check decides: a context that ignores lcut is always written; any other only by the pod that
   leads (or becomes leader by this check), and with the check of the stored lcut on, only if nothing
   at least as new is stored. It elects a leader where there is none and never replaces one.
   */
  lemma CheckDecides(s: State, id: nat, cfg: Settings)
    requires Enabled(s, Check(id))
    ensures var u, s' := s.updates[id], Step(s, Check(id), cfg);
            var key := u.keys[0];
            && s'.updates[id].verdict.Some?
            && (s'.updates[id].verdict.value.write <==>
                  !u.useLcut || (MayLead(s.leader, u.pod)
                                 && (!cfg.checkLcut || key !in s.entries || s.entries[key].lcut < u.lcut)))
            && s'.leader.Some? && s'.leader.value.pod == (if s.leader.None? then u.pod else s.leader.value.pod)
            && (u.useLcut && s'.updates[id].verdict.value.write ==> s'.leader.value.pod == u.pod)
            && s'.entries == s.entries
  {
  }

  /** A failed check stops exactly the contexts that use lcut. */
  lemma FailedCheckDecides(s: State, id: nat, cfg: Settings)
    requires Enabled(s, CheckFails(id))
    ensures var s' := Step(s, CheckFails(id), cfg);
            && s'.updates[id].verdict.Some? && (s'.updates[id].verdict.value.write <==> !s.updates[id].useLcut)
            && s'.leader == s.leader && s'.entries == s.entries
  {
  }

  /** Leadership lasts: only time past the leader key's expiry takes it away, a write renews it, a lone key gets one. */
  lemma LeaderLasts(s: State, ev: Event, cfg: Settings)
    requires Enabled(s, ev) && s.leader.Some?
    ensures var s' := Step(s, ev, cfg);
            && (s'.leader.None? <==>
                  ev.Tick? && s.leader.value.expireAt.Some? && s.leader.value.expireAt.value <= s.now + ev.elapsed)
            && (s'.leader.Some? ==> s'.leader.value.pod == s.leader.value.pod)
            && (ev.Write? ==> s'.leader.value.expireAt == Some(s.now + cfg.leaderTtl))
            && (ev.Check? && s.leader.value.expireAt.None? && s.leader.value.pod != s.updates[ev.id].pod ==>
                  s'.leader.value.expireAt == Some(s.now + cfg.leaderTtl))
  {
  }

  /** A renewal works: it extends the entry to the full time to live exactly when that holds the renewing version. */
  lemma RenewalExtendsIff(s: State, ev: Event, cfg: Settings, key: string)
    requires Enabled(s, ev) && key in s.entries
    requires (ev.Skip? && s.updates[ev.id].keys[0] == key) || (ev.TouchKey? && s.touches[ev.id].keys[0] == key)
    ensures var s' := Step(s, ev, cfg);
            var lcut := if ev.Skip? then s.updates[ev.id].lcut else s.touches[ev.id].lcut;
            s'.entries[key].expireAt == if s.entries[key].lcut == lcut then s.now + cfg.ttl else s.entries[key].expireAt
  {
  }

  /** A touch renews what its pod last received for the context, key by key; a deletion drops its key alone. */
  lemma TouchesAndDeletes(s: State, id: nat, pod: nat, ctx: string, key: string, cfg: Settings)
    ensures Enabled(s, BeginTouch(id, pod, ctx)) ==>
            var s' := Step(s, BeginTouch(id, pod, ctx), cfg);
            s'.touches[id] == Renewal(pod, s.active[(pod, ctx)].keys, s.active[(pod, ctx)].lcut)
            && s'.entries == s.entries
    ensures var s' := Step(s, Delete(key), cfg);
            key !in s'.entries && forall k | k != key ::
              (k in s'.entries <==> k in s.entries) && (k in s.entries ==> s'.entries[k] == s.entries[k])
  {
  }

  /** A payload is noted as the context's newest and queued for writing, key by key, as it came. */
  lemma ReceiveNotes(s: State, ev: Event, cfg: Settings)
    requires ev.Receive? && Enabled(s, ev)
    ensures var s' := Step(s, ev, cfg);
            && (ev.pod, ev.ctx) in s'.active && s'.active[(ev.pod, ev.ctx)] == Active(ev.keys, ev.lcut)
            && s'.updates == s.updates[ev.id := Update(ev.pod, ev.useLcut, ev.keys, ev.lcut, ev.config, None)]
            && s'.entries == s.entries && s'.leader == s.leader
  {
  }

  /** Each key of an update is dealt with once: written, renewed or given up, then the next one is checked anew. */
  lemma NextKeyFollows(s: State, ev: Event, cfg: Settings)
    requires (ev.Write? || ev.Skip? || ev.GiveUp?) && Enabled(s, ev)
    ensures var u, u' := s.updates[ev.id], Step(s, ev, cfg).updates[ev.id];
            u' == Update(u.pod, u.useLcut, u.keys[1..], u.lcut, u.config, None)
    ensures ev.GiveUp? ==> Step(s, ev, cfg).entries == s.entries
    ensures ev.Write? ==>
            Step(s, ev, cfg).writes == s.writes + [Written(s.updates[ev.id].keys[0], s.updates[ev.id].lcut)]
  {
  }

  // ----- An abandoned version expires on schedule -----

  /** No pod still works with version `lcut` of `key`: not in memory, not in an update, not in a touch. */
  ghost predicate MovedOn(s: State, key: string, lcut: nat) {
    && (forall a | a in s.active && key in s.active[a].keys :: s.active[a].lcut != lcut)
    && (forall id | id in s.updates && key in s.updates[id].keys :: s.updates[id].lcut != lcut)
    && (forall id | id in s.touches && key in s.touches[id].keys :: s.touches[id].lcut != lcut)
  }

  /** The event neither brings version `lcut` of `key` back nor writes `key`. */
  ghost predicate LeavesAlone(s: State, ev: Event, key: string, lcut: nat)
    requires Enabled(s, ev)
  {
    && (ev.Receive? && key in ev.keys ==> ev.lcut != lcut)
    && (ev.Write? ==> s.updates[ev.id].keys[0] != key)
  }

  ghost predicate RunLeavesAlone(s: State, evs: seq<Event>, cfg: Settings, key: string, lcut: nat)
    requires IsRun(s, evs, cfg)
    decreases |evs|
  {
    evs == [] || (LeavesAlone(s, evs[0], key, lcut) && RunLeavesAlone(Step(s, evs[0], cfg), evs[1..], cfg, key, lcut))
  }

  /** Live keys have not expired yet. */
  ghost predicate Live(s: State) {
    forall k | k in s.entries :: s.now < s.entries[k].expireAt
  }

  lemma {:induction false} EveryRunIsLive(s: State, evs: seq<Event>, cfg: Settings)
    requires Live(s) && cfg.ttl > 0 && IsRun(s, evs, cfg)
    ensures Live(Run(s, evs, cfg))
    decreases |evs|
  {
    if evs != [] {
      EveryRunIsLive(Step(s, evs[0], cfg), evs[1..], cfg);
    }
  }

  lemma AbandonedStep(s: State, ev: Event, cfg: Settings, key: string, e: Entry)
    requires Enabled(s, ev) && MovedOn(s, key, e.lcut) && LeavesAlone(s, ev, key, e.lcut)
    requires key in s.entries ==> s.entries[key] == e
    ensures var s' := Step(s, ev, cfg);
            MovedOn(s', key, e.lcut) && (key in s'.entries ==> s'.entries[key] == e)
  {
  }

  /**
   Once every pod has moved on from a stored version, nothing prolongs it: for as long as nothing
   newer is written over it, it stays as it was and is gone by its deadline.
   */
  lemma {:induction false} AbandonedVersionExpires(s: State, evs: seq<Event>, cfg: Settings, key: string, e: Entry)
    requires IsRun(s, evs, cfg) && Live(s) && cfg.ttl > 0
    requires MovedOn(s, key, e.lcut) && RunLeavesAlone(s, evs, cfg, key, e.lcut)
    requires key in s.entries ==> s.entries[key] == e
    ensures var s' := Run(s, evs, cfg);
            (key in s'.entries ==> s'.entries[key] == e) && (e.expireAt <= s'.now ==> key !in s'.entries)
    decreases |evs|
  {
    if evs != [] {
      AbandonedStep(s, evs[0], cfg, key, e);
      EveryRunIsLive(s, [evs[0]], cfg);
      AbandonedVersionExpires(Step(s, evs[0], cfg), evs[1..], cfg, key, e);
    }
  }

  // ----- Which writes lower the stored version -----

  /** Write i is the latest write of `key`. */
  ghost predicate LastWrite(writes: seq<Written>, key: string, i: nat) {
    i < |writes| && writes[i].key == key && forall j | i < j < |writes| :: writes[j].key != key
  }

  ghost predicate WrittenSince(s: State, key: string, asOf: nat) {
    exists i | asOf <= i < |s.writes| :: s.writes[i].key == key
  }

  /** Update `id` has decided to write `key` and has not done so yet. */
  ghost predicate Pending(s: State, id: nat, key: string) {
    && id in s.updates && s.updates[id].keys != [] && s.updates[id].keys[0] == key
    && s.updates[id].verdict.Some? && s.updates[id].verdict.value.write
  }

  /** The entry that a pending write would replace was written after its check, with a larger lcut. */
  ghost predicate Overtaken(s: State, id: nat, key: string)
    requires Pending(s, id, key)
  {
    key in s.entries &&
    exists i: nat :: LastWrite(s.writes, key, i) && s.updates[id].verdict.value.asOf <= i
      && s.updates[id].lcut < s.writes[i].lcut
  }

  /** A stored version is that of the latest write. */
  ghost predicate EntriesAreLastWrites(s: State) {
    && (forall key | key in s.entries :: exists i: nat :: LastWrite(s.writes, key, i))
    && (forall key, i: nat | key in s.entries && LastWrite(s.writes, key, i) :: s.writes[i].lcut == s.entries[key].lcut)
  }

  /**
   A decision to write was taken on an older version or none; unless the key was written since,
   that version is still there.
   */
  ghost predicate SoundVerdict(s: State, id: nat, key: string)
    requires Pending(s, id, key)
  {
    var u, v := s.updates[id], s.updates[id].verdict.value;
    && v.asOf <= |s.writes|
    && (v.saw.Some? ==> v.saw.value < u.lcut)
    && (key in s.entries && !WrittenSince(s, key, v.asOf) ==> v.saw == Some(s.entries[key].lcut))
  }

  ghost predicate Recorded(s: State) {
    && EntriesAreLastWrites(s)
    && forall id, key | Pending(s, id, key) && s.updates[id].useLcut :: SoundVerdict(s, id, key)
  }

  lemma OneMoreWrite(writes: seq<Written>, w: Written, key: string, i: nat)
    ensures LastWrite(writes + [w], key, i) <==> if w.key == key then i == |writes| else LastWrite(writes, key, i)
  {
    var more := writes + [w];
    assert more[|writes|] == w;
    assert forall j | 0 <= j < |writes| :: more[j] == writes[j];
  }

  lemma WriteKeepsEntries(s: State, id: nat, cfg: Settings)
    requires EntriesAreLastWrites(s) && Enabled(s, Write(id))
    ensures EntriesAreLastWrites(Step(s, Write(id), cfg))
  {
    var s' := Step(s, Write(id), cfg);
    var w := Written(s.updates[id].keys[0], s.updates[id].lcut);
    forall key | key in s'.entries ensures exists i: nat :: LastWrite(s'.writes, key, i) {
      if key == w.key {
        OneMoreWrite(s.writes, w, key, |s.writes|);
      } else {
        var i: nat :| LastWrite(s.writes, key, i);
        OneMoreWrite(s.writes, w, key, i);
      }
    }
    forall key, i: nat | key in s'.entries && LastWrite(s'.writes, key, i)
      ensures s'.writes[i].lcut == s'.entries[key].lcut {
      OneMoreWrite(s.writes, w, key, i);
    }
  }

  lemma StepKeepsEntries(s: State, ev: Event, cfg: Settings)
    requires EntriesAreLastWrites(s) && Enabled(s, ev)
    ensures EntriesAreLastWrites(Step(s, ev, cfg))
  {
    if ev.Write? {
      WriteKeepsEntries(s, ev.id, cfg);
    } else {
      var s' := Step(s, ev, cfg);
      assert s'.writes == s.writes;
      assert forall key | key in s'.entries :: key in s.entries && s'.entries[key].lcut == s.entries[key].lcut;
    }
  }

  lemma StepKeepsVerdict(s: State, ev: Event, cfg: Settings, id: nat, key: string)
    requires cfg.checkLcut && Recorded(s) && Enabled(s, ev)
    requires Pending(Step(s, ev, cfg), id, key) && Step(s, ev, cfg).updates[id].useLcut
    ensures SoundVerdict(Step(s, ev, cfg), id, key)
  {
    var s' := Step(s, ev, cfg);
    if ev.Check? && ev.id == id {
      assert s'.writes == s.writes && s'.entries == s.entries;
    } else if ev.CheckFails? && ev.id == id {
      assert false;
    } else {
      assert Pending(s, id, key) && s'.updates[id] == s.updates[id];
      assert SoundVerdict(s, id, key);
      var asOf := s.updates[id].verdict.value.asOf;
      if ev.Write? && s.updates[ev.id].keys[0] == key {
        assert s'.writes[|s.writes|].key == key;
      } else {
        assert key in s'.entries ==> key in s.entries && s'.entries[key].lcut == s.entries[key].lcut;
        assert forall i | asOf <= i < |s.writes| && s.writes[i].key == key :: s'.writes[i].key == key;
      }
    }
  }

  lemma {:induction false} EveryRunIsRecorded(s: State, evs: seq<Event>, cfg: Settings)
    requires cfg.checkLcut && Recorded(s) && IsRun(s, evs, cfg)
    ensures Recorded(Run(s, evs, cfg))
    decreases |evs|
  {
    if evs != [] {
      StepKeepsRecord(s, evs[0], cfg);
      EveryRunIsRecorded(Step(s, evs[0], cfg), evs[1..], cfg);
    }
  }

  lemma StepKeepsRecord(s: State, ev: Event, cfg: Settings)
    requires cfg.checkLcut && Recorded(s) && Enabled(s, ev)
    ensures Recorded(Step(s, ev, cfg))
  {
    StepKeepsEntries(s, ev, cfg);
    var s' := Step(s, ev, cfg);
    forall id, key | Pending(s', id, key) && s'.updates[id].useLcut ensures SoundVerdict(s', id, key) {
      StepKeepsVerdict(s, ev, cfg, id, key);
    }
  }

  lemma RecordedWriteLowersIff(s: State, id: nat, key: string)
    requires Recorded(s) && Pending(s, id, key) && s.updates[id].useLcut
    ensures key in s.entries && s.updates[id].lcut < s.entries[key].lcut <==> Overtaken(s, id, key)
    ensures key in s.entries && !WrittenSince(s, key, s.updates[id].verdict.value.asOf) ==>
              s.entries[key].lcut < s.updates[id].lcut
  {
    assert SoundVerdict(s, id, key);
    if key in s.entries && s.updates[id].lcut < s.entries[key].lcut {
      var i: nat :| LastWrite(s.writes, key, i);
      assert WrittenSince(s, key, s.updates[id].verdict.value.asOf);
      var j :| s.updates[id].verdict.value.asOf <= j < |s.writes| && s.writes[j].key == key;
      assert j <= i;
    }
  }

  /**
   In every reachable state: a decided write of an lcut-using context would lower the version exactly
   when it is overtaken; unless the key was written since its check, the version rises.
   */
  lemma PendingWriteLowersIff(start: nat, evs: seq<Event>, cfg: Settings, id: nat, key: string)
    requires cfg.checkLcut && IsRun(Initial(start), evs, cfg)
    requires var s := Run(Initial(start), evs, cfg); Pending(s, id, key) && s.updates[id].useLcut
    ensures var s := Run(Initial(start), evs, cfg);
            && (key in s.entries && s.updates[id].lcut < s.entries[key].lcut <==> Overtaken(s, id, key))
            && (key in s.entries && !WrittenSince(s, key, s.updates[id].verdict.value.asOf) ==>
                  s.entries[key].lcut < s.updates[id].lcut)
  {
    StartIsRecorded(start, key);
    EveryRunIsRecorded(Initial(start), evs, cfg);
    RecordedWriteLowersIff(Run(Initial(start), evs, cfg), id, key);
  }

  ghost predicate Lowers(s: State, ev: Event, cfg: Settings, key: string)
    requires Enabled(s, ev)
  {
    var s' := Step(s, ev, cfg);
    key in s.entries && key in s'.entries && s'.entries[key].lcut < s.entries[key].lcut
  }

  ghost predicate WritesOvertaken(s: State, ev: Event, key: string) {
    ev.Write? && Pending(s, ev.id, key) && Overtaken(s, ev.id, key)
  }

  /** Only lcut-using contexts write `key`. */
  ghost predicate OnlyLcutWriters(s: State, key: string) {
    forall id | id in s.updates && key in s.updates[id].keys :: s.updates[id].useLcut
  }

  ghost predicate KeepsLcutWriters(ev: Event, key: string) {
    ev.Receive? && key in ev.keys ==> ev.useLcut
  }

  lemma RecordedStepLowersIff(s: State, ev: Event, cfg: Settings, key: string)
    requires Recorded(s) && OnlyLcutWriters(s, key) && Enabled(s, ev)
    ensures Lowers(s, ev, cfg, key) <==> WritesOvertaken(s, ev, key)
  {
    if ev.Write? && s.updates[ev.id].keys[0] == key {
      assert Pending(s, ev.id, key);
      RecordedWriteLowersIff(s, ev.id, key);
    }
  }

  lemma StepKeepsLcutWriters(s: State, ev: Event, cfg: Settings, key: string)
    requires OnlyLcutWriters(s, key) && Enabled(s, ev) && KeepsLcutWriters(ev, key)
    ensures OnlyLcutWriters(Step(s, ev, cfg), key)
  {
    var s' := Step(s, ev, cfg);
    forall id | id in s'.updates && key in s'.updates[id].keys ensures s'.updates[id].useLcut {
      assert id in s.updates ==> forall k | k in s'.updates[id].keys :: k in s.updates[id].keys;
    }
  }

  ghost predicate NeverLowers(s: State, evs: seq<Event>, cfg: Settings, key: string)
    requires IsRun(s, evs, cfg)
    decreases |evs|
  {
    evs == [] || (!Lowers(s, evs[0], cfg, key) && NeverLowers(Step(s, evs[0], cfg), evs[1..], cfg, key))
  }

  ghost predicate NeverOvertaken(s: State, evs: seq<Event>, cfg: Settings, key: string)
    requires IsRun(s, evs, cfg)
    decreases |evs|
  {
    evs == [] || (!WritesOvertaken(s, evs[0], key) && NeverOvertaken(Step(s, evs[0], cfg), evs[1..], cfg, key))
  }

  lemma {:induction false} RecordedNeverLowersIff(s: State, evs: seq<Event>, cfg: Settings, key: string)
    requires cfg.checkLcut && IsRun(s, evs, cfg) && Recorded(s) && OnlyLcutWriters(s, key)
    requires forall ev | ev in evs :: KeepsLcutWriters(ev, key)
    ensures NeverLowers(s, evs, cfg, key) <==> NeverOvertaken(s, evs, cfg, key)
    decreases |evs|
  {
    if evs != [] {
      assert evs[0] in evs;
      RecordedStepLowersIff(s, evs[0], cfg, key);
      StepKeepsRecord(s, evs[0], cfg);
      StepKeepsLcutWriters(s, evs[0], cfg, key);
      RecordedNeverLowersIff(Step(s, evs[0], cfg), evs[1..], cfg, key);
    }
  }

  lemma StartIsRecorded(start: nat, key: string)
    ensures Recorded(Initial(start)) && OnlyLcutWriters(Initial(start), key) && Level(Initial(start), key)
  {
  }

  lemma {:induction false} RunKeepsLcutWriters(s: State, evs: seq<Event>, cfg: Settings, key: string)
    requires IsRun(s, evs, cfg) && OnlyLcutWriters(s, key) && forall ev | ev in evs :: KeepsLcutWriters(ev, key)
    ensures OnlyLcutWriters(Run(s, evs, cfg), key)
    decreases |evs|
  {
    if evs != [] {
      assert evs[0] in evs;
      StepKeepsLcutWriters(s, evs[0], cfg, key);
      RunKeepsLcutWriters(Step(s, evs[0], cfg), evs[1..], cfg, key);
    }
  }

  /** In every reachable state, of all steps exactly the overtaken writes lower a stored version. */
  lemma StepLowersIff(start: nat, evs: seq<Event>, ev: Event, cfg: Settings, key: string)
    requires cfg.checkLcut && IsRun(Initial(start), evs, cfg) && Enabled(Run(Initial(start), evs, cfg), ev)
    requires forall e | e in evs :: KeepsLcutWriters(e, key)
    ensures var s := Run(Initial(start), evs, cfg);
            Lowers(s, ev, cfg, key) <==> WritesOvertaken(s, ev, key)
  {
    StartIsRecorded(start, key);
    EveryRunIsRecorded(Initial(start), evs, cfg);
    RunKeepsLcutWriters(Initial(start), evs, cfg, key);
    RecordedStepLowersIff(Run(Initial(start), evs, cfg), ev, cfg, key);
  }

  /** Over whole runs: the version stored under a key never goes back exactly when no write of it is overtaken. */
  lemma NeverLowersIff(start: nat, evs: seq<Event>, cfg: Settings, key: string)
    requires cfg.checkLcut && IsRun(Initial(start), evs, cfg)
    requires forall ev | ev in evs :: KeepsLcutWriters(ev, key)
    ensures NeverLowers(Initial(start), evs, cfg, key) <==> NeverOvertaken(Initial(start), evs, cfg, key)
  {
    StartIsRecorded(start, key);
    RecordedNeverLowersIff(Initial(start), evs, cfg, key);
  }

  // ----- The exact condition at check time -----

  /** A check of the key is level if it decides not to write, or if all other decided writes carry its own lcut. */
  ghost predicate LevelCheck(s: State, ev: Event, cfg: Settings, key: string) {
    ev.Check? && Enabled(s, ev) && s.updates[ev.id].keys[0] == key && Judge(s, s.updates[ev.id], cfg).write ==>
      forall other | Pending(s, other, key) :: s.updates[other].lcut == s.updates[ev.id].lcut
  }

  /** All decided writes of the key carry one lcut, and nothing newer is stored. */
  ghost predicate Level(s: State, key: string) {
    && (forall a, b | Pending(s, a, key) && Pending(s, b, key) :: s.updates[a].lcut == s.updates[b].lcut)
    && (forall a | Pending(s, a, key) && key in s.entries :: s.entries[key].lcut <= s.updates[a].lcut)
  }

  ghost predicate LevelRun(s: State, evs: seq<Event>, cfg: Settings, key: string)
    requires IsRun(s, evs, cfg)
    decreases |evs|
  {
    evs == [] || (LevelCheck(s, evs[0], cfg, key) && KeepsLcutWriters(evs[0], key)
                  && LevelRun(Step(s, evs[0], cfg), evs[1..], cfg, key))
  }

  /** A pending write was pending before, or has just been decided by its check. */
  lemma PendingBefore(s: State, ev: Event, cfg: Settings, key: string, id: nat)
    requires OnlyLcutWriters(s, key) && Enabled(s, ev) && Pending(Step(s, ev, cfg), id, key)
    ensures var s' := Step(s, ev, cfg);
            && s'.updates[id].lcut == s.updates[id].lcut
            && if ev.Check? && ev.id == id
               then s.updates[id].keys[0] == key && Judge(s, s.updates[id], cfg).write && s.updates[id].useLcut
               else Pending(s, id, key)
  {
  }

  lemma LevelStep(s: State, ev: Event, cfg: Settings, key: string)
    requires cfg.checkLcut && Level(s, key) && OnlyLcutWriters(s, key) && Enabled(s, ev) && LevelCheck(s, ev, cfg, key)
    ensures Level(Step(s, ev, cfg), key) && !Lowers(s, ev, cfg, key)
  {
    var s' := Step(s, ev, cfg);
    assert ev.Write? ==> Pending(s, ev.id, s.updates[ev.id].keys[0]);
    forall a, b | Pending(s', a, key) && Pending(s', b, key) ensures s'.updates[a].lcut == s'.updates[b].lcut {
      PendingBefore(s, ev, cfg, key, a);
      PendingBefore(s, ev, cfg, key, b);
    }
    forall a | Pending(s', a, key) && key in s'.entries ensures s'.entries[key].lcut <= s'.updates[a].lcut {
      PendingBefore(s, ev, cfg, key, a);
    }
  }

  lemma {:induction false} LevelRunNeverLowers(s: State, evs: seq<Event>, cfg: Settings, key: string)
    requires cfg.checkLcut && IsRun(s, evs, cfg) && Level(s, key) && OnlyLcutWriters(s, key)
    requires LevelRun(s, evs, cfg, key)
    ensures NeverLowers(s, evs, cfg, key)
    ensures Level(Run(s, evs, cfg), key) && OnlyLcutWriters(Run(s, evs, cfg), key)
    decreases |evs|
  {
    if evs != [] {
      LevelStep(s, evs[0], cfg, key);
      StepKeepsLcutWriters(s, evs[0], cfg, key);
      LevelRunNeverLowers(Step(s, evs[0], cfg), evs[1..], cfg, key);
    }
  }

  /** After a check that is not level, the two decided writes in the wrong order lower the version. */
  lemma UnlevelCheckLowers(s: State, ev: Event, cfg: Settings, key: string) returns (evs: seq<Event>)
    requires Enabled(s, ev) && !LevelCheck(s, ev, cfg, key)
    ensures var s' := Step(s, ev, cfg);
            IsRun(s', evs, cfg) && LevelRun(s', evs, cfg, key) && !NeverLowers(s', evs, cfg, key)
  {
    var s' := Step(s, ev, cfg);
    var other :| Pending(s, other, key) && s.updates[other].lcut != s.updates[ev.id].lcut;
    assert Pending(s', ev.id, key) && Pending(s', other, key) && s'.updates[other] == s.updates[other];
    if s.updates[other].lcut < s.updates[ev.id].lcut {
      evs := OlderAfterNewer(s', ev.id, other, cfg, key);
    } else {
      evs := OlderAfterNewer(s', other, ev.id, cfg, key);
    }
  }

  lemma OlderAfterNewer(s: State, newer: nat, older: nat, cfg: Settings, key: string) returns (evs: seq<Event>)
    requires Pending(s, newer, key) && Pending(s, older, key) && s.updates[older].lcut < s.updates[newer].lcut
    ensures IsRun(s, evs, cfg) && LevelRun(s, evs, cfg, key) && !NeverLowers(s, evs, cfg, key)
  {
    var s1 := Step(s, Write(newer), cfg);
    assert Pending(s1, older, key) && s1.updates[older] == s.updates[older];
    assert s1.entries[key].lcut == s.updates[newer].lcut;
    assert Lowers(s1, Write(older), cfg, key);
    evs := [Write(newer), Write(older)];
    assert evs[1..] == [Write(older)] && evs[1..][1..] == [];
  }

  ghost predicate ContinuesUpward(s: State, cfg: Settings, key: string) {
    forall evs | IsRun(s, evs, cfg) && LevelRun(s, evs, cfg, key) :: NeverLowers(s, evs, cfg, key)
  }

  /**
   Exactly the level checks are safe: at any point of a level run, a step lowers nothing now and in no
   level continuation if and only if it is level itself.
   */
  lemma StepIsSafeIff(start: nat, evs: seq<Event>, ev: Event, cfg: Settings, key: string)
    requires cfg.checkLcut && IsRun(Initial(start), evs, cfg) && LevelRun(Initial(start), evs, cfg, key)
    requires Enabled(Run(Initial(start), evs, cfg), ev) && KeepsLcutWriters(ev, key)
    ensures var s := Run(Initial(start), evs, cfg);
            !Lowers(s, ev, cfg, key) && ContinuesUpward(Step(s, ev, cfg), cfg, key) <==> LevelCheck(s, ev, cfg, key)
  {
    var s := Run(Initial(start), evs, cfg);
    StartIsRecorded(start, key);
    LevelRunNeverLowers(Initial(start), evs, cfg, key);
    if LevelCheck(s, ev, cfg, key) {
      LevelStep(s, ev, cfg, key);
      StepKeepsLcutWriters(s, ev, cfg, key);
      var s' := Step(s, ev, cfg);
      forall more | IsRun(s', more, cfg) && LevelRun(s', more, cfg, key) ensures NeverLowers(s', more, cfg, key) {
        LevelRunNeverLowers(s', more, cfg, key);
      }
    } else {
      var more := UnlevelCheckLowers(s, ev, cfg, key);
    }
  }

  /** The key is never dropped, so "the stored version" is defined throughout. */
  ghost predicate StaysStored(s: State, evs: seq<Event>, cfg: Settings, key: string)
    requires IsRun(s, evs, cfg)
    decreases |evs|
  {
    key in s.entries && (evs == [] || StaysStored(Step(s, evs[0], cfg), evs[1..], cfg, key))
  }

  lemma {:induction false} NeverLoweredNeverFalls(s: State, evs: seq<Event>, cfg: Settings, key: string)
    requires IsRun(s, evs, cfg) && NeverLowers(s, evs, cfg, key) && StaysStored(s, evs, cfg, key)
    ensures key in Run(s, evs, cfg).entries && s.entries[key].lcut <= Run(s, evs, cfg).entries[key].lcut
    decreases |evs|
  {
    if evs != [] {
      NeverLoweredNeverFalls(Step(s, evs[0], cfg), evs[1..], cfg, key);
    }
  }

  /** From the start and from any later point of a level run on, the stored version never goes back. */
  lemma VersionNeverGoesBack(start: nat, before: seq<Event>, evs: seq<Event>, cfg: Settings, key: string)
    requires cfg.checkLcut && IsRun(Initial(start), before, cfg) && LevelRun(Initial(start), before, cfg, key)
    requires var s := Run(Initial(start), before, cfg); IsRun(s, evs, cfg) && LevelRun(s, evs, cfg, key)
    ensures NeverLowers(Initial(start), before, cfg, key)
    ensures var s := Run(Initial(start), before, cfg);
            && NeverLowers(s, evs, cfg, key)
            && (StaysStored(s, evs, cfg, key) ==>
                  key in Run(s, evs, cfg).entries && s.entries[key].lcut <= Run(s, evs, cfg).entries[key].lcut)
  {
    StartIsRecorded(start, key);
    LevelRunNeverLowers(Initial(start), before, cfg, key);
    var s := Run(Initial(start), before, cfg);
    LevelRunNeverLowers(s, evs, cfg, key);
    if StaysStored(s, evs, cfg, key) {
      NeverLoweredNeverFalls(s, evs, cfg, key);
    }
  }

  // ----- Two runs that go back -----

  lemma RunCons(s: State, ev: Event, evs: seq<Event>, cfg: Settings)
    requires Enabled(s, ev) && IsRun(Step(s, ev, cfg), evs, cfg)
    ensures IsRun(s, [ev] + evs, cfg) && Run(s, [ev] + evs, cfg) == Run(Step(s, ev, cfg), evs, cfg)
  {
    assert ([ev] + evs)[1..] == evs;
  }

  lemma RunConcat(s: State, a: seq<Event>, b: seq<Event>, cfg: Settings)
    requires IsRun(s, a, cfg) && IsRun(Run(s, a, cfg), b, cfg)
    ensures IsRun(s, a + b, cfg) && Run(s, a + b, cfg) == Run(Run(s, a, cfg), b, cfg)
    decreases |a|
  {
    if a == [] {
      assert a + b == b;
    } else {
      RunConcat(Step(s, a[0], cfg), a[1..], b, cfg);
      RunCons(s, a[0], a[1..] + b, cfg);
      assert a + b == [a[0]] + (a[1..] + b);
    }
  }

  /** Pod 1 decided to write version 10, its leadership has lapsed, and pod 2 is about to check version 20. */
  ghost predicate Lapsed(s: State) {
    && s.entries == map[] && s.leader == None && 1 in s.updates && 3 in s.updates
    && s.updates[1] == Update(1, true, ["k"], 10, "a", Some(Verdict(true, None, 0)))
    && s.updates[3] == Update(2, true, ["k"], 20, "b", None)
  }

  /** Pod 1 is leader and has decided to write version 10; pod 2's first update was not allowed to. */
  ghost predicate Elected(s: State, leaderTtl: nat) {
    && s.entries == map[] && s.leader == Some(Leader(1, Some(s.now + leaderTtl)))
    && s.updates == map[1 := Update(1, true, ["k"], 10, "a", Some(Verdict(true, None, 0))),
                        2 := Update(2, true, ["k"], 20, "b", Some(Verdict(false, None, 0)))]
  }

  const ELECTION: seq<Event> :=
    [Receive(1, 1, "c", true, ["k"], 10, "a"), Check(1), Receive(2, 2, "c", true, ["k"], 20, "b"), Check(2)]

  function Lapse(leaderTtl: nat): seq<Event> {
    [Skip(2), Tick(leaderTtl), Receive(3, 2, "c", true, ["k"], 20, "b")]
  }

  function LapseEvents(leaderTtl: nat): seq<Event> {
    ELECTION + Lapse(leaderTtl)
  }

  lemma ElectionIsReachable(start: nat, cfg: Settings)
    requires cfg.checkLcut
    ensures IsRun(Initial(start), ELECTION, cfg) && Elected(Run(Initial(start), ELECTION, cfg), cfg.leaderTtl)
  {
    var evs := ELECTION;
    var s1 := Step(Initial(start), evs[0], cfg);
    var s2 := Step(s1, evs[1], cfg);
    assert s2.leader == Some(Leader(1, None)) && s2.entries == map[];
    var s3 := Step(s2, evs[2], cfg);
    var s4 := Step(s3, evs[3], cfg);
    assert Elected(s4, cfg.leaderTtl);
    RunCons(s3, evs[3], [], cfg);
    RunCons(s2, evs[2], [evs[3]], cfg);
    RunCons(s1, evs[1], [evs[2], evs[3]], cfg);
    RunCons(Initial(start), evs[0], [evs[1], evs[2], evs[3]], cfg);
  }

  lemma LapseFollows(s: State, cfg: Settings)
    requires Elected(s, cfg.leaderTtl)
    ensures IsRun(s, Lapse(cfg.leaderTtl), cfg) && Lapsed(Run(s, Lapse(cfg.leaderTtl), cfg))
  {
    var evs := Lapse(cfg.leaderTtl);
    var s1 := Step(s, evs[0], cfg);
    var s2 := Step(s1, evs[1], cfg);
    assert s2.leader == None && s2.entries == map[];
    var s3 := Step(s2, evs[2], cfg);
    assert Lapsed(s3);
    RunCons(s2, evs[2], [], cfg);
    RunCons(s1, evs[1], [evs[2]], cfg);
    RunCons(s, evs[0], [evs[1], evs[2]], cfg);
  }

  lemma LapseIsReachable(start: nat, cfg: Settings)
    requires cfg.checkLcut
    ensures IsRun(Initial(start), LapseEvents(cfg.leaderTtl), cfg)
    ensures Lapsed(Run(Initial(start), LapseEvents(cfg.leaderTtl), cfg))
  {
    ElectionIsReachable(start, cfg);
    LapseFollows(Run(Initial(start), ELECTION, cfg), cfg);
    RunConcat(Initial(start), ELECTION, Lapse(cfg.leaderTtl), cfg);
  }

  lemma LateWriteLands(s: State, cfg: Settings)
    requires Lapsed(s)
    ensures IsRun(s, [Check(3), Write(3)], cfg)
            && StoredLcut(Run(s, [Check(3), Write(3)], cfg).entries, "k") == Some(20)
    ensures IsRun(s, [Check(3), Write(3), Write(1)], cfg)
            && StoredLcut(Run(s, [Check(3), Write(3), Write(1)], cfg).entries, "k") == Some(10)
  {
    var s1 := Step(s, Check(3), cfg);
    assert s1.updates[3].verdict == Some(Verdict(true, None, |s.writes|)) && s1.updates[1] == s.updates[1];
    var s2 := Step(s1, Write(3), cfg);
    assert s2.updates[1] == s.updates[1];
    RunCons(s2, Write(1), [], cfg);
    RunCons(s1, Write(3), [Write(1)], cfg);
    RunCons(s, Check(3), [Write(3), Write(1)], cfg);
    RunCons(s1, Write(3), [], cfg);
    RunCons(s, Check(3), [Write(3)], cfg);
  }

  /**
   It is the interleaving that matters: pod 1 checks version 10, its leadership lapses, pod 2 becomes
   leader and writes version 20, then pod 1's write lands and the stored version goes back to 10.
   */
  lemma InterleavedWriteGoesBack(start: nat, cfg: Settings)
    requires cfg.checkLcut
    ensures var a := LapseEvents(cfg.leaderTtl) + [Check(3), Write(3)];
            IsRun(Initial(start), a, cfg) && StoredLcut(Run(Initial(start), a, cfg).entries, "k") == Some(20)
    ensures var b := LapseEvents(cfg.leaderTtl) + [Check(3), Write(3), Write(1)];
            IsRun(Initial(start), b, cfg) && StoredLcut(Run(Initial(start), b, cfg).entries, "k") == Some(10)
  {
    LapseIsReachable(start, cfg);
    LateWriteLands(Run(Initial(start), LapseEvents(cfg.leaderTtl), cfg), cfg);
    RunConcat(Initial(start), LapseEvents(cfg.leaderTtl), [Check(3), Write(3)], cfg);
    RunConcat(Initial(start), LapseEvents(cfg.leaderTtl), [Check(3), Write(3), Write(1)], cfg);
  }

  /** One pod is leader, and two of its contexts that share a key have both decided to write it. */
  ghost predicate BothDecided(s: State) {
    && s.entries == map[] && s.writes == [] && s.leader == Some(Leader(1, None))
    && s.updates == map[1 := Update(1, true, ["k"], 10, "a", Some(Verdict(true, None, 0))),
                        2 := Update(1, true, ["k"], 20, "b", Some(Verdict(true, None, 0)))]
  }

  const BOTH_CHECK: seq<Event> :=
    [Receive(1, 1, "c1", true, ["k"], 10, "a"), Check(1), Receive(2, 1, "c2", true, ["k"], 20, "b"), Check(2)]

  lemma BothDecide(start: nat, cfg: Settings)
    requires cfg.checkLcut
    ensures IsRun(Initial(start), BOTH_CHECK, cfg) && BothDecided(Run(Initial(start), BOTH_CHECK, cfg))
  {
    var evs := BOTH_CHECK;
    var s1 := Step(Initial(start), evs[0], cfg);
    var s2 := Step(s1, evs[1], cfg);
    assert s2.leader == Some(Leader(1, None)) && s2.entries == map[];
    var s3 := Step(s2, evs[2], cfg);
    var s4 := Step(s3, evs[3], cfg);
    assert BothDecided(s4);
    RunCons(s3, evs[3], [], cfg);
    RunCons(s2, evs[2], [evs[3]], cfg);
    RunCons(s1, evs[1], [evs[2], evs[3]], cfg);
    RunCons(Initial(start), evs[0], [evs[1], evs[2], evs[3]], cfg);
  }

  lemma OlderWritesLast(s: State, cfg: Settings)
    requires BothDecided(s)
    ensures IsRun(s, [Write(2), Write(1)], cfg)
    ensures var s1 := Step(s, Write(2), cfg);
            && s1.leader.Some? && s1.leader.value.pod == 1 && StoredLcut(s1.entries, "k") == Some(20)
            && WritesOvertaken(s1, Write(1), "k")
            && StoredLcut(Run(s, [Write(2), Write(1)], cfg).entries, "k") == Some(10)
  {
    var s1 := Step(s, Write(2), cfg);
    assert s1.writes == [Written("k", 20)] && s1.updates[1] == s.updates[1];
    assert LastWrite(s1.writes, "k", 0);
    RunCons(s1, Write(1), [], cfg);
    RunCons(s, Write(2), [Write(1)], cfg);
  }

  /** No lapse is needed: in a single pod that leads throughout, the older of two contexts writes last. */
  lemma OnePodGoesBack(start: nat, cfg: Settings)
    requires cfg.checkLcut
    ensures IsRun(Initial(start), BOTH_CHECK + [Write(2), Write(1)], cfg)
    ensures StoredLcut(Step(Run(Initial(start), BOTH_CHECK, cfg), Write(2), cfg).entries, "k") == Some(20)
    ensures StoredLcut(Run(Initial(start), BOTH_CHECK + [Write(2), Write(1)], cfg).entries, "k") == Some(10)
  {
    BothDecide(start, cfg);
    OlderWritesLast(Run(Initial(start), BOTH_CHECK, cfg), cfg);
    RunConcat(Initial(start), BOTH_CHECK, [Write(2), Write(1)], cfg);
  }
}
