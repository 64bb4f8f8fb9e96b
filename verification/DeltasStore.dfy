/**
 The delta store as a state machine: which responses and requests may move the poll pointer,
 and which runs keep every history gapless.
 */
module DeltasStore {
  import opened Common
  import opened EnvelopeFraming
  import opened DeltaHistory

  /** A request context on the deltas path; the history is shared by all contexts of one SDK key. */
  datatype Context = Context(sdkKey: string, encodings: seq<string>, supportsProto: bool, acceptDeltas: bool)

  datatype State = State(records: map<string, seq<Delta>>, pointers: map<Context, nat>)

  datatype Payload = Payload(time: nat, envelopes: seq<Envelope>)

  datatype Event =
    | Register(ctx: Context, since: nat)              // a client asked for deltas since `since`
    | ConfigData(ctx: Context, lcut: nat)             // the config poll returned data
    | DeltaData(ctx: Context, since: nat, lcut: nat, parsed: Option<Payload>)
    | Refused(ctx: Context)                           // unauthorized or client error
    | Quiet                                           // no data, or an upstream error

  function Upsert(pointers: map<Context, nat>, ctx: Context, lcut: nat): map<Context, nat> {
    if ctx in pointers && lcut <= pointers[ctx] then pointers else pointers[ctx := lcut]
  }

  function History(s: State, sdkKey: string): seq<Delta> {
    if sdkKey in s.records then s.records[sdkKey] else []
  }

  /** What a client that is at `since` is answered. */
  function Answer(c: Codec, s: State, ctx: Context, since: nat): BuildResult {
    if ctx in s.pointers then BuildFrom(c, History(s, ctx.sdkKey), since) else SdkKeyNotRegistered
  }

  /** The delta an event brings, if its payload parses. */
  predicate Carries(ev: Event, key: string, d: Delta) {
    ev.DeltaData? && ev.ctx.sdkKey == key && ev.parsed.Some?
    && d == Delta(ev.since, ev.parsed.value.time, ev.parsed.value.envelopes)
  }

  function Step(s: State, ev: Event, max: nat): State {
    match ev
    case Register(ctx, since) => s.(pointers := Upsert(s.pointers, ctx, since))
    case ConfigData(ctx, lcut) => if ctx in s.pointers then s else s.(pointers := s.pointers[ctx := lcut])
    case DeltaData(ctx, since, lcut, parsed) =>
      State(
        match parsed
        case None => s.records
        case Some(p) =>
          s.records[ctx.sdkKey := Persist(History(s, ctx.sdkKey), Delta(since, p.time, p.envelopes), max)],
        Upsert(s.pointers, ctx, lcut))
    case Refused(ctx) => State(s.records - {ctx.sdkKey}, s.pointers - {ctx})
    case Quiet => s
  }

  function Run(s: State, evs: seq<Event>, max: nat): State
    decreases |evs|
  {
    if evs == [] then s else Run(Step(s, evs[0], max), evs[1..], max)
  }

  lemma PositionIs(q: seq<Delta>, lcut: nat, idx: nat)
    requires idx <= |q| && (forall i | 0 <= i < idx :: q[i].lcut <= lcut)
    requires idx < |q| ==> q[idx].lcut > lcut
    ensures Position(q, lcut) == idx
  {
  }

  class Store {
    var records: map<string, seq<Delta>>
    var pointers: map<Context, nat>
    const maxResponses: nat

    ghost function Model(): State
      reads this
    {
      State(records, pointers)
    }

    constructor (maxResponsesToPersist: nat)
      ensures maxResponses == Max(maxResponsesToPersist, 1)
      ensures Model() == State(map[], map[])
    {
      maxResponses := Max(maxResponsesToPersist, 1);
      records, pointers := map[], map[];
    }

    method PersistDelta(sdkKey: string, d: Delta)
      requires maxResponses >= 1
      modifies this`records
      ensures records == old(records)[sdkKey := Persist(History(old(Model()), sdkKey), d, maxResponses)]
    {
      var queue := if sdkKey in records then records[sdkKey] else [];
      var idx := 0;
      while idx < |queue| && queue[idx].lcut <= d.lcut
        invariant idx <= |queue| && forall i | 0 <= i < idx :: queue[i].lcut <= d.lcut
      {
        idx := idx + 1;
      }
      PositionIs(queue, d.lcut, idx);
      queue := queue[..idx] + [d] + queue[idx..];
      ghost var inserted := queue;
      while |queue| > maxResponses
        invariant Min(|inserted|, maxResponses) <= |queue| <= |inserted|
        invariant queue == inserted[|inserted| - |queue|..]
      {
        queue := queue[1..];
      }
      records := records[sdkKey := queue];
    }

    method UpsertPointer(ctx: Context, lcut: nat)
      modifies this`pointers
      ensures pointers == Upsert(old(pointers), ctx, lcut)
    {
      if ctx in pointers {
        if lcut > pointers[ctx] {
          pointers := pointers[ctx := lcut];
        }
      } else {
        pointers := pointers[ctx := lcut];
      }
    }

    method RegisterSdkKey(ctx: Context, since: nat)
      modifies this`pointers
      ensures Model() == Step(old(Model()), Register(ctx, since), maxResponses)
    {
      UpsertPointer(ctx, since);
    }

    method OnConfigData(ctx: Context, lcut: nat)
      modifies this`pointers
      ensures Model() == Step(old(Model()), ConfigData(ctx, lcut), maxResponses)
    {
      if ctx !in pointers {
        UpsertPointer(ctx, lcut);
      }
    }

    method OnDeltaData(ctx: Context, since: nat, lcut: nat, parsed: Option<Payload>)
      requires maxResponses >= 1
      modifies this
      ensures Model() == Step(old(Model()), DeltaData(ctx, since, lcut, parsed), maxResponses)
    {
      if parsed.Some? {
        PersistDelta(ctx.sdkKey, Delta(since, parsed.value.time, parsed.value.envelopes));
      }
      UpsertPointer(ctx, lcut);
    }

    method RemoveSdkKey(ctx: Context)
      modifies this
      ensures Model() == Step(old(Model()), Refused(ctx), maxResponses)
    {
      pointers := pointers - {ctx};
      records := records - {ctx.sdkKey};
    }

    method BuildCombinedPayload(c: Codec, ctx: Context, since: nat) returns (r: BuildResult)
      ensures r == Answer(c, Model(), ctx, since)
    {
      if ctx !in pointers {
        return SdkKeyNotRegistered;
      }
      var deltas := if ctx.sdkKey in records then records[ctx.sdkKey] else [];
      if deltas == [] {
        return NoCachedDeltas;
      }
      if since < Earliest(deltas) {
        return SinceTimeTooOld(Earliest(deltas));
      }
      var selected := Select(deltas, since);
      if selected == [] || since == Latest(deltas) {
        return NoUpdates(Latest(deltas));
      }
      var payload := AssembleEnvelopes(c, selected);
      return Combined(Latest(deltas), payload);
    }
  }

  // ----- Runs -----

  ghost predicate GoodHistory(q: seq<Delta>, max: nat) {
    0 < |q| <= max && Sorted(q) && Gapless(q)
  }

  /** Histories are sound, and no pointer is past the newest delta retained for its key. */
  ghost predicate Inv(s: State, max: nat) {
    && (forall key | key in s.records :: GoodHistory(s.records[key], max))
    && (forall ctx | ctx in s.pointers && ctx.sdkKey in s.records ::
          s.pointers[ctx] <= Latest(s.records[ctx.sdkKey]))
  }

  predicate NotAhead(s: State, ctx: Context, t: nat) {
    History(s, ctx.sdkKey) == [] || t <= Latest(History(s, ctx.sdkKey))
  }

  /**
   What keeps a run orderly, each part checkable when the event happens: nobody registers past
   the newest retained delta, delta payloads parse and agree with their header, a poll asks from
   a registered pointer, and no response ends before the history begins.
   */
  ghost predicate Orderly(s: State, ev: Event) {
    match ev
    case Register(ctx, since) => NotAhead(s, ctx, since)
    case ConfigData(ctx, lcut) => ctx in s.pointers || NotAhead(s, ctx, lcut)
    case DeltaData(ctx, since, lcut, parsed) =>
      && parsed.Some? && parsed.value.time == lcut
      && (var q := History(s, ctx.sdkKey);
          if q == [] then
            forall other | other in s.pointers && other.sdkKey == ctx.sdkKey :: s.pointers[other] <= lcut
          else Earliest(q) <= lcut && ctx in s.pointers && since <= s.pointers[ctx])
    case Refused(_) => true
    case Quiet => true
  }

  ghost predicate OrderlyRun(s: State, evs: seq<Event>, max: nat)
    decreases |evs|
  {
    evs == [] || (Orderly(s, evs[0]) && OrderlyRun(Step(s, evs[0], max), evs[1..], max))
  }

  lemma DeltaKeepsHistory(s: State, ev: Event, max: nat)
    requires max >= 1 && Inv(s, max) && ev.DeltaData? && Orderly(s, ev)
    ensures var q, r := History(s, ev.ctx.sdkKey), History(Step(s, ev, max), ev.ctx.sdkKey);
            GoodHistory(r, max) && ev.lcut <= Latest(r) && (q != [] ==> Latest(q) <= Latest(r))
  {
    var q := History(s, ev.ctx.sdkKey);
    if q == [] {
      assert Sorted(q) && Gapless(q);
    } else {
      assert GoodHistory(q, max);
    }
    PersistKeepsHistory(q, Delta(ev.since, ev.parsed.value.time, ev.parsed.value.envelopes), max);
  }

  lemma DeltaKeepsInv(s: State, ev: Event, max: nat)
    requires max >= 1 && Inv(s, max) && ev.DeltaData? && Orderly(s, ev)
    ensures Inv(Step(s, ev, max), max)
  {
    DeltaKeepsHistory(s, ev, max);
    var s', key := Step(s, ev, max), ev.ctx.sdkKey;
    assert forall other | other in s'.records && other != key :: s'.records[other] == s.records[other];
    forall ctx | ctx in s'.pointers && ctx.sdkKey in s'.records
      ensures s'.pointers[ctx] <= Latest(s'.records[ctx.sdkKey]) {
      assert ctx != ev.ctx ==> ctx in s.pointers && s'.pointers[ctx] == s.pointers[ctx];
    }
  }

  lemma StepKeepsInv(s: State, ev: Event, max: nat)
    requires max >= 1 && Inv(s, max) && Orderly(s, ev)
    ensures Inv(Step(s, ev, max), max)
  {
    if ev.DeltaData? {
      DeltaKeepsInv(s, ev, max);
    }
  }

  /** Safety over whole runs: an orderly run never leaves a gap in any retained history. */
  lemma {:induction false} OrderlyRunStaysGapless(s: State, evs: seq<Event>, max: nat)
    requires max >= 1 && Inv(s, max) && OrderlyRun(s, evs, max)
    ensures Inv(Run(s, evs, max), max)
    decreases |evs|
  {
    if evs != [] {
      StepKeepsInv(s, evs[0], max);
      OrderlyRunStaysGapless(Step(s, evs[0], max), evs[1..], max);
    }
  }

  lemma {:induction false} RetainedCameFromEvents(s: State, evs: seq<Event>, max: nat, key: string, d: Delta)
    requires d in History(Run(s, evs, max), key)
    ensures d in History(s, key) || exists ev | ev in evs :: Carries(ev, key, d)
    decreases |evs|
  {
    if evs != [] {
      var s' := Step(s, evs[0], max);
      RetainedCameFromEvents(s', evs[1..], max, key, d);
      if ev :| ev in evs[1..] && Carries(ev, key, d) {
        assert ev in evs;
      } else if d !in History(s, key) {
        var x := Delta(evs[0].since, evs[0].parsed.value.time, evs[0].parsed.value.envelopes);
        PersistMembers(History(s, key), x, max, d);
        assert evs[0] in evs && Carries(evs[0], key, d);
      }
    }
  }

  /** Each SDK key has its own origin; a parsed delta tells the truth about it and can be framed. */
  ghost predicate TrustworthyEvent(ev: Event, c: Codec, origins: string -> Origin) {
    forall key, d | Carries(ev, key, d) :: Honest(origins(key), d) && c.AllFit(d.envelopes)
  }

  /**
   The whole pipeline: after any orderly run fed with honest deltas, a client that registers in sync
   at a `since` the history still reaches is answered with bytes that decode, and running them brings
   it in sync at the newest lcut.
   */
  lemma ServedClientCatchesUp(c: Codec, evs: seq<Event>, max: nat, origins: string -> Origin,
                              ctx: Context, since: nat, st: ClientState)
    requires c.Lawful() && max >= 1
    requires OrderlyRun(State(map[], map[]), evs, max) && forall ev | ev in evs :: TrustworthyEvent(ev, c, origins)
    requires var q := History(Run(State(map[], map[]), evs, max), ctx.sdkKey);
             q != [] && Earliest(q) <= since < Latest(q)
    requires InSync(origins(ctx.sdkKey), st, since)
    ensures var s := Step(Run(State(map[], map[]), evs, max), Register(ctx, since), max);
            var r := Answer(c, s, ctx, since);
            && r.Combined? && r.lcut == Latest(History(s, ctx.sdkKey))
            && PayloadMeaning(c, r.payload).Ok?
            && InSync(origins(ctx.sdkKey), Apply(st, PayloadMeaning(c, r.payload).envelopes), r.lcut)
  {
    var s0 := State(map[], map[]);
    var q := History(Run(s0, evs, max), ctx.sdkKey);
    OrderlyRunStaysGapless(s0, evs, max);
    TrustStays(s0, evs, max, c, origins, ctx.sdkKey);
    GaplessCoversAfter(q, since);
    ClientCatchesUp(c, origins(ctx.sdkKey), q, since, st);
  }

  // ----- A client that keeps polling -----

  /** The retained deltas of a key tell the truth about its origin and can be framed. */
  ghost predicate Trusted(s: State, c: Codec, origins: string -> Origin, key: string) {
    AllHonest(origins(key), History(s, key)) && DeltasFit(c, History(s, key))
  }

  lemma TrustStays(s: State, evs: seq<Event>, max: nat, c: Codec, origins: string -> Origin, key: string)
    requires Trusted(s, c, origins, key) && forall ev | ev in evs :: TrustworthyEvent(ev, c, origins)
    ensures Trusted(Run(s, evs, max), c, origins, key)
  {
    forall d | d in History(Run(s, evs, max), key) ensures Honest(origins(key), d) && c.AllFit(d.envelopes) {
      RetainedCameFromEvents(s, evs, max, key, d);
      if ev :| ev in evs && Carries(ev, key, d) {
        assert TrustworthyEvent(ev, c, origins);
      }
    }
  }

  /** What a client holds, and the time it was told it is at. */
  datatype Copy = Copy(specs: ClientState, lcut: nat)

  /** The client asks from where it is; a combined payload is run and brings the time it carries. */
  function Refreshed(c: Codec, s: State, ctx: Context, copy: Copy): Copy {
    var r := Answer(c, s, ctx, copy.lcut);
    if r.Combined? && PayloadMeaning(c, r.payload).Ok?
    then Copy(Apply(copy.specs, PayloadMeaning(c, r.payload).envelopes), r.lcut) else copy
  }

  function Polled(c: Codec, s: State, ctx: Context, copy: Copy, max: nat): (State, Copy) {
    var s' := Step(s, Register(ctx, copy.lcut), max);
    (s', Refreshed(c, s', ctx, copy))
  }

  /** Between its polls the client sees any batch of events. */
  function Session(c: Codec, s: State, ctx: Context, copy: Copy, batches: seq<seq<Event>>, max: nat): (State, Copy)
    decreases |batches|
  {
    if batches == [] then (s, copy)
    else
      var (s', copy') := Polled(c, Run(s, batches[0], max), ctx, copy, max);
      Session(c, s', ctx, copy', batches[1..], max)
  }

  /** Orderly, trustworthy events that do not throw the key's history away. */
  ghost predicate GoodBatch(s: State, evs: seq<Event>, max: nat, c: Codec, origins: string -> Origin, key: string) {
    && OrderlyRun(s, evs, max)
    && forall ev | ev in evs :: TrustworthyEvent(ev, c, origins) && !(ev.Refused? && ev.ctx.sdkKey == key)
  }

  ghost predicate GoodSession(c: Codec, s: State, ctx: Context, copy: Copy, batches: seq<seq<Event>>, max: nat,
                              origins: string -> Origin)
    decreases |batches|
  {
    batches == [] ||
    (GoodBatch(s, batches[0], max, c, origins, ctx.sdkKey)
     && var (s', copy') := Polled(c, Run(s, batches[0], max), ctx, copy, max);
        GoodSession(c, s', ctx, copy', batches[1..], max, origins))
  }

  /** The store knows of the client: it is not past the history or, while there is none, past its pointer. */
  ghost predicate Known(s: State, ctx: Context, copy: Copy) {
    && NotAhead(s, ctx, copy.lcut)
    && (History(s, ctx.sdkKey) == [] ==> ctx in s.pointers && copy.lcut <= s.pointers[ctx])
  }

  /** The copy is as new as the history, unless there is none or the copy is too old for it. */
  ghost predicate UpToDate(s: State, ctx: Context, copy: Copy) {
    var q := History(s, ctx.sdkKey);
    q == [] || copy.lcut == Latest(q) || copy.lcut < Earliest(q)
  }

  lemma PointerStays(s: State, ev: Event, max: nat, ctx: Context)
    requires ctx in s.pointers && !(ev.Refused? && ev.ctx.sdkKey == ctx.sdkKey)
    ensures ctx in Step(s, ev, max).pointers && s.pointers[ctx] <= Step(s, ev, max).pointers[ctx]
  {
  }

  lemma HistoryStays(s: State, ev: Event, max: nat, key: string)
    requires !((ev.Refused? || ev.DeltaData?) && ev.ctx.sdkKey == key)
    ensures History(Step(s, ev, max), key) == History(s, key)
  {
  }

  lemma KnownStep(s: State, ev: Event, max: nat, ctx: Context, copy: Copy)
    requires max >= 1 && Inv(s, max) && Orderly(s, ev) && Known(s, ctx, copy)
    requires !(ev.Refused? && ev.ctx.sdkKey == ctx.sdkKey)
    ensures Known(Step(s, ev, max), ctx, copy)
  {
    if ev.DeltaData? && ev.ctx.sdkKey == ctx.sdkKey {
      DeltaKeepsHistory(s, ev, max);
      assert copy.lcut <= Latest(History(Step(s, ev, max), ctx.sdkKey));
    } else {
      HistoryStays(s, ev, max, ctx.sdkKey);
      if ctx in s.pointers {
        PointerStays(s, ev, max, ctx);
      }
    }
  }

  lemma {:induction false} KnownStays(s: State, evs: seq<Event>, max: nat, ctx: Context, copy: Copy)
    requires max >= 1 && Inv(s, max) && OrderlyRun(s, evs, max) && Known(s, ctx, copy)
    requires forall ev | ev in evs :: !(ev.Refused? && ev.ctx.sdkKey == ctx.sdkKey)
    ensures Known(Run(s, evs, max), ctx, copy)
    decreases |evs|
  {
    if evs != [] {
      assert evs[0] in evs;
      StepKeepsInv(s, evs[0], max);
      KnownStep(s, evs[0], max, ctx, copy);
      KnownStays(Step(s, evs[0], max), evs[1..], max, ctx, copy);
    }
  }

  /** One poll of a client that is in sync and not ahead. */
  lemma PollKeepsSync(c: Codec, s: State, ctx: Context, copy: Copy, max: nat, origins: string -> Origin)
    requires c.Lawful() && max >= 1 && Inv(s, max) && Trusted(s, c, origins, ctx.sdkKey)
    requires NotAhead(s, ctx, copy.lcut) && InSync(origins(ctx.sdkKey), copy.specs, copy.lcut)
    ensures var (s', copy') := Polled(c, s, ctx, copy, max);
            && Inv(s', max) && Trusted(s', c, origins, ctx.sdkKey) && Known(s', ctx, copy')
            && InSync(origins(ctx.sdkKey), copy'.specs, copy'.lcut)
            && copy.lcut <= copy'.lcut && UpToDate(s', ctx, copy')
  {
    StepKeepsInv(s, Register(ctx, copy.lcut), max);
    var s' := Step(s, Register(ctx, copy.lcut), max);
    var q := History(s', ctx.sdkKey);
    assert q == History(s, ctx.sdkKey);
    if q != [] && Earliest(q) <= copy.lcut < Latest(q) {
      assert GoodHistory(q, max);
      GaplessCoversAfter(q, copy.lcut);
      ClientCatchesUp(c, origins(ctx.sdkKey), q, copy.lcut, copy.specs);
    } else {
      assert q != [] && copy.lcut == Latest(q) ==> !BuildFrom(c, q, copy.lcut).Combined?;
    }
  }

  lemma {:induction false} GoodSessionStaysInSync(c: Codec, s: State, ctx: Context, copy: Copy,
                                                  batches: seq<seq<Event>>,
                                                  max: nat, origins: string -> Origin)
    requires c.Lawful() && max >= 1 && Inv(s, max) && Trusted(s, c, origins, ctx.sdkKey) && Known(s, ctx, copy)
    requires InSync(origins(ctx.sdkKey), copy.specs, copy.lcut) && UpToDate(s, ctx, copy)
    requires GoodSession(c, s, ctx, copy, batches, max, origins)
    ensures var (s', copy') := Session(c, s, ctx, copy, batches, max);
            && InSync(origins(ctx.sdkKey), copy'.specs, copy'.lcut)
            && copy.lcut <= copy'.lcut && UpToDate(s', ctx, copy')
    decreases |batches|
  {
    if batches != [] {
      var s1 := Run(s, batches[0], max);
      OrderlyRunStaysGapless(s, batches[0], max);
      TrustStays(s, batches[0], max, c, origins, ctx.sdkKey);
      KnownStays(s, batches[0], max, ctx, copy);
      PollKeepsSync(c, s1, ctx, copy, max, origins);
      var (s2, copy2) := Polled(c, s1, ctx, copy, max);
      GoodSessionStaysInSync(c, s2, ctx, copy2, batches[1..], max, origins);
    }
  }

  /**
   The client over whole sessions: it first polls after any orderly run, from a time the store is not
   behind, and then keeps polling with the time it was told, between any good batches of events. At
   every point it is in sync with the origin at that time, the time never goes back, and after each
   poll it is the newest lcut, unless the history no longer reaches the client or there is none.
   */
  lemma SessionStaysInSync(c: Codec, before: seq<Event>, ctx: Context, copy: Copy, batches: seq<seq<Event>>, max: nat,
                           origins: string -> Origin)
    requires c.Lawful() && max >= 1
    requires OrderlyRun(State(map[], map[]), before, max)
    requires forall ev | ev in before :: TrustworthyEvent(ev, c, origins)
    requires NotAhead(Run(State(map[], map[]), before, max), ctx, copy.lcut)
    requires InSync(origins(ctx.sdkKey), copy.specs, copy.lcut)
    requires var (s, first) := Polled(c, Run(State(map[], map[]), before, max), ctx, copy, max);
             GoodSession(c, s, ctx, first, batches, max, origins)
    ensures var (s, first) := Polled(c, Run(State(map[], map[]), before, max), ctx, copy, max);
            var (s', copy') := Session(c, s, ctx, first, batches, max);
            && InSync(origins(ctx.sdkKey), copy'.specs, copy'.lcut)
            && copy.lcut <= first.lcut <= copy'.lcut && UpToDate(s', ctx, copy')
  {
    var s0 := Run(State(map[], map[]), before, max);
    OrderlyRunStaysGapless(State(map[], map[]), before, max);
    TrustStays(State(map[], map[]), before, max, c, origins, ctx.sdkKey);
    PollKeepsSync(c, s0, ctx, copy, max, origins);
    var (s, first) := Polled(c, s0, ctx, copy, max);
    GoodSessionStaysInSync(c, s, ctx, first, batches, max, origins);
  }

  ghost predicate SortedAndBounded(s: State, max: nat) {
    forall key | key in s.records :: Sorted(s.records[key]) && 0 < |s.records[key]| <= max
  }

  lemma StepKeepsOrder(s: State, ev: Event, max: nat)
    requires max >= 1 && SortedAndBounded(s, max)
    ensures SortedAndBounded(Step(s, ev, max), max)
  {
    if ev.DeltaData? && ev.parsed.Some? {
      var q := History(s, ev.ctx.sdkKey);
      var d := Delta(ev.since, ev.parsed.value.time, ev.parsed.value.envelopes);
      assert Sorted(q);
      PersistKeepsOrder(q, d, max);
    }
  }

  /** Order and bound need no hypothesis: they survive every run. */
  lemma {:induction false} EveryRunStaysSortedAndBounded(s: State, evs: seq<Event>, max: nat)
    requires max >= 1 && SortedAndBounded(s, max)
    ensures SortedAndBounded(Run(s, evs, max), max)
    decreases |evs|
  {
    if evs != [] {
      StepKeepsOrder(s, evs[0], max);
      EveryRunStaysSortedAndBounded(Step(s, evs[0], max), evs[1..], max);
    }
  }

  // ----- What each answer says -----

  /**
   In every run: an unregistered context is told so; otherwise "no deltas", "too old" (with the
   smallest start), "no updates" (with the largest lcut, never past the client) and a combined payload
   (to the largest lcut, past the client) are given exactly where the retained deltas call for them.
   */
  lemma AnswerMeans(c: Codec, evs: seq<Event>, max: nat, ctx: Context, since: nat)
    requires max >= 1
    ensures var s := Run(State(map[], map[]), evs, max);
            var q, r := History(s, ctx.sdkKey), Answer(c, s, ctx, since);
            && (r.SdkKeyNotRegistered? <==> ctx !in s.pointers)
            && (r.NoCachedDeltas? <==> ctx in s.pointers && q == [])
            && (r.SinceTimeTooOld? <==> ctx in s.pointers && q != [] && forall d | d in q :: since < d.since)
            && (r.SinceTimeTooOld? ==> IsSmallestSince(q, r.earliest))
            && (r.NoUpdates? <==> ctx in s.pointers && Reaches(q, since) && forall d | d in q :: d.lcut <= since)
            && (r.NoUpdates? ==> IsLargestLcut(q, r.lcut) && r.lcut <= since)
            && (r.Combined? <==> ctx in s.pointers && Reaches(q, since) && exists d | d in q :: d.lcut > since)
            && (r.Combined? ==> IsLargestLcut(q, r.lcut) && since < r.lcut)
  {
    EveryRunStaysSortedAndBounded(State(map[], map[]), evs, max);
    var q := History(Run(State(map[], map[]), evs, max), ctx.sdkKey);
    assert Sorted(q);
    AnswerCases(c, q, since);
  }

  /** What each event does to the pointer of its own context and the history of its key. */
  lemma EventEffects(c: Codec, s: State, ctx: Context, t: nat, since: nat, parsed: Option<Payload>, max: nat)
    requires max >= 1
    ensures var r := Step(s, Register(ctx, t), max);
            ctx in r.pointers && r.pointers[ctx] == (if ctx in s.pointers then Max(s.pointers[ctx], t) else t)
    ensures var r := Step(s, ConfigData(ctx, t), max);
            ctx in r.pointers && r.pointers[ctx] == (if ctx in s.pointers then s.pointers[ctx] else t)
    ensures var r := Step(s, DeltaData(ctx, since, t, parsed), max);
            && ctx in r.pointers && r.pointers[ctx] == (if ctx in s.pointers then Max(s.pointers[ctx], t) else t)
            && (parsed.None? ==> History(r, ctx.sdkKey) == History(s, ctx.sdkKey))
            && (parsed.Some? && History(s, ctx.sdkKey) == [] ==>
                  History(r, ctx.sdkKey) == [Delta(since, parsed.value.time, parsed.value.envelopes)])
    ensures var r := Step(s, Refused(ctx), max);
            History(r, ctx.sdkKey) == [] && Answer(c, r, ctx, since) == SdkKeyNotRegistered
  {
  }

  /** No event touches the pointers of other contexts, or the histories of other keys. */
  lemma OthersUntouched(s: State, ev: Event, max: nat, other: Context)
    requires ev != Quiet ==> ev.ctx != other
    ensures var r := Step(s, ev, max);
            && (other in r.pointers <==> other in s.pointers)
            && (other in s.pointers ==> r.pointers[other] == s.pointers[other])
            && (ev == Quiet || ev.ctx.sdkKey != other.sdkKey ==> History(r, other.sdkKey) == History(s, other.sdkKey))
  {
  }

  // ----- Exactly which runs stay gapless -----

  ghost predicate AllGapless(s: State) {
    forall key | key in s.records :: Gapless(s.records[key])
  }

  /** A delta that parses fits the history it meets; everything else is harmless. */
  ghost predicate DeltaFits(s: State, ev: Event, max: nat) {
    forall key, d | Carries(ev, key, d) :: FitsHistory(History(s, key), d, max)
  }

  ghost predicate StaysGapless(s: State, evs: seq<Event>, max: nat)
    decreases |evs|
  {
    AllGapless(s) && (evs == [] || StaysGapless(Step(s, evs[0], max), evs[1..], max))
  }

  ghost predicate EveryDeltaFits(s: State, evs: seq<Event>, max: nat)
    decreases |evs|
  {
    evs == [] || (DeltaFits(s, evs[0], max) && EveryDeltaFits(Step(s, evs[0], max), evs[1..], max))
  }

  lemma GaplessStepIff(s: State, ev: Event, max: nat)
    requires max >= 1 && SortedAndBounded(s, max) && AllGapless(s)
    ensures AllGapless(Step(s, ev, max)) <==> DeltaFits(s, ev, max)
  {
    if ev.DeltaData? && ev.parsed.Some? {
      var key, q := ev.ctx.sdkKey, History(s, ev.ctx.sdkKey);
      var d := Delta(ev.since, ev.parsed.value.time, ev.parsed.value.envelopes);
      assert Sorted(q) && Gapless(q) && |q| <= max;
      PersistKeepsGaplessIff(q, d, max);
      var s' := Step(s, ev, max);
      assert s'.records[key] == Persist(q, d, max);
      assert forall other | other in s'.records && other != key :: s'.records[other] == s.records[other];
      assert Carries(ev, key, d);
    }
  }

  /** A run never has a gap in any history, at any point, exactly when each parsed delta fits the history it meets. */
  lemma {:induction false} StaysGaplessIff(s: State, evs: seq<Event>, max: nat)
    requires max >= 1 && SortedAndBounded(s, max) && AllGapless(s)
    ensures StaysGapless(s, evs, max) <==> EveryDeltaFits(s, evs, max)
    decreases |evs|
  {
    if evs != [] {
      GaplessStepIff(s, evs[0], max);
      if DeltaFits(s, evs[0], max) {
        StepKeepsOrder(s, evs[0], max);
        StaysGaplessIff(Step(s, evs[0], max), evs[1..], max);
      }
    }
  }

  // ----- Where orderliness is really needed -----

  const CTX: Context := Context("secret-key", [], true, true)
  const GAPPED: seq<Delta> := [Delta(1, 5, []), Delta(8, 10, [])]

  const AHEAD: seq<Event> :=
    [DeltaData(CTX, 1, 5, Some(Payload(5, []))), Register(CTX, 8), DeltaData(CTX, 8, 10, Some(Payload(10, [])))]

  const UNPARSED: seq<Event> :=
    [DeltaData(CTX, 1, 5, Some(Payload(5, []))), DeltaData(CTX, 5, 8, None),
     DeltaData(CTX, 8, 10, Some(Payload(10, [])))]

  ghost predicate LeavesGap(s: State) {
    CTX in s.pointers && History(s, CTX.sdkKey) == GAPPED
  }

  /** Two disorderly runs: registering ahead of the history, and a payload that fails to parse. */
  lemma DisorderlyRunsLeaveAGap(max: nat)
    requires max >= 2
    ensures LeavesGap(Run(State(map[], map[]), AHEAD, max)) && LeavesGap(Run(State(map[], map[]), UNPARSED, max))
    ensures !CoveredAt(GAPPED, 7)
  {
    var s0 := State(map[], map[]);
    var first := DeltaData(CTX, 1, 5, Some(Payload(5, [])));
    var last := DeltaData(CTX, 8, 10, Some(Payload(10, [])));
    var s1 := Step(s0, first, max);
    assert History(s1, CTX.sdkKey) == [Delta(1, 5, [])];
    forall mid | mid == Register(CTX, 8) || mid == DeltaData(CTX, 5, 8, None)
      ensures LeavesGap(Run(s0, [first, mid, last], max))
    {
      var s2 := Step(s1, mid, max);
      assert History(s2, CTX.sdkKey) == [Delta(1, 5, [])];
      assert Position([Delta(1, 5, [])], 10) == 1;
      assert LeavesGap(Step(s2, last, max));
      assert [first, mid, last][1..] == [mid, last] && [mid, last][1..] == [last];
      assert Run(s2, [last], max) == Step(s2, last, max);
      assert Run(s1, [mid, last], max) == Step(s2, last, max);
    }
  }

  const K: SpecKey := SpecKey(Spec(1), "gate")

  function ChangesAt(t0: nat): Origin {
    (k, t) => if k == K && t >= t0 then Some([1]) else None
  }

  lemma GappedPayload(c: Codec)
    ensures BuildFrom(c, GAPPED, 5) == Combined(10, Frames(c, []))
  {
    var rest := [Delta(8, 10, [])];
    assert GAPPED[1..] == rest;
    assert Select(rest, 5) == rest;
    assert Select(GAPPED, 5) == GAPPED;
    assert AllSpecs(rest) == [];
    assert AllSpecs(GAPPED) == [];
  }

  /**
   Such a gap is not noticed: after either run a client in sync at 5 is told it is current at 10 and
   misses the change at 7, though every delta was honest.
   */
  lemma GapLosesAnUpdate(c: Codec, max: nat, evs: seq<Event>)
    requires max >= 2 && (evs == AHEAD || evs == UNPARSED)
    ensures var s := Run(State(map[], map[]), evs, max);
            && AllHonest(ChangesAt(7), History(s, CTX.sdkKey)) && InSync(ChangesAt(7), map[], 5)
            && Answer(c, s, CTX, 5).Combined? && Answer(c, s, CTX, 5).lcut == 10
            && Refreshed(c, s, CTX, Copy(map[], 5)) == Copy(map[], 10) && !InSync(ChangesAt(7), map[], 10)
  {
    DisorderlyRunsLeaveAGap(max);
    GappedPayload(c);
    forall d | d in GAPPED ensures Honest(ChangesAt(7), d) {
      assert forall k, t: nat | d.since < t <= d.lcut :: !ChangedAt(ChangesAt(7), k, t);
    }
    assert PayloadMeaning(c, Frames(c, [])) == Ok([]);
    assert Lookup(map[], K) != ChangesAt(7)(K, 10);
  }

  /** At the newest lcut itself nothing is re-sent, so a client that missed a change stamped there stays behind. */
  lemma NewestLcutIsNotRepaired(c: Codec)
    ensures var o, q := ChangesAt(5), [Delta(1, 5, [Envelope(K.kind, K.name, "", Some([1]))])];
            && Sorted(q) && Gapless(q) && AllHonest(o, q)
            && NearlyInSync(o, map[], 5) && !InSync(o, map[], 5)
            && BuildFrom(c, q, 5) == NoUpdates(5)
  {
    var o := ChangesAt(5);
    var e := Envelope(K.kind, K.name, "", Some([1]));
    var q := [Delta(1, 5, [e])];
    forall t: nat | Earliest(q) < t <= Latest(q) ensures CoveredAt(q, t) {
      assert q[0] in q && q[0].since < t;
    }
    assert e in q[0].envelopes && KeyOf(e) == K;
    assert Lookup(map[], K) != o(K, 5);
  }

  // ----- An instance -----

  const UPDATE: Envelope := Envelope(K.kind, K.name, "", Some([1]))

  const TWO_DELTAS: seq<Event> :=
    [DeltaData(CTX, 1, 5, Some(Payload(5, [UPDATE]))), DeltaData(CTX, 5, 10, Some(Payload(10, [])))]

  lemma TwoDeltasRun(max: nat)
    requires max >= 2
    ensures OrderlyRun(State(map[], map[]), TWO_DELTAS, max)
    ensures History(Run(State(map[], map[]), TWO_DELTAS, max), CTX.sdkKey) == [Delta(1, 5, [UPDATE]), Delta(5, 10, [])]
  {
    var s0 := State(map[], map[]);
    var s1 := Step(s0, TWO_DELTAS[0], max);
    assert History(s1, CTX.sdkKey) == [Delta(1, 5, [UPDATE])];
    var s2 := Step(s1, TWO_DELTAS[1], max);
    assert Position([Delta(1, 5, [UPDATE])], 10) == 1;
    assert History(s2, CTX.sdkKey) == [Delta(1, 5, [UPDATE]), Delta(5, 10, [])];
    assert Earliest([Delta(1, 5, [UPDATE])]) == 1;
    var last := TWO_DELTAS[1];
    assert Orderly(s1, last);
    assert [last][1..] == [] && Run(s2, [], max) == s2;
    assert OrderlyRun(s1, [last], max) && Run(s1, [last], max) == s2;
    assert TWO_DELTAS[1..] == [last];
  }

  lemma TwoDeltasAreHonest(c: Codec)
    requires c.Fits(UPDATE)
    ensures forall ev | ev in TWO_DELTAS :: TrustworthyEvent(ev, c, key => ChangesAt(3))
  {
    forall ev, key, d | ev in TWO_DELTAS && Carries(ev, key, d)
      ensures Honest(ChangesAt(3), d) && c.AllFit(d.envelopes) {
      assert d == Delta(1, 5, [UPDATE]) || d == Delta(5, 10, []);
      assert UPDATE in [UPDATE] && KeyOf(UPDATE) == K;
    }
  }

  /** The theorem at work: a client at 2 receives the change made at 3 and ends in sync at 10. */
  lemma ClientAtTwoCatchesUp(c: Codec)
    requires c.Lawful() && c.Fits(UPDATE)
    ensures var s := Step(Run(State(map[], map[]), TWO_DELTAS, 2), Register(CTX, 2), 2);
            var r := Answer(c, s, CTX, 2);
            && r.Combined? && r.lcut == 10 && PayloadMeaning(c, r.payload).Ok?
            && Lookup(Apply(map[], PayloadMeaning(c, r.payload).envelopes), K) == Some([1])
  {
    TwoDeltasRun(2);
    TwoDeltasAreHonest(c);
    var q := [Delta(1, 5, [UPDATE]), Delta(5, 10, [])];
    assert q[0] in q && Earliest(q) == 1;
    assert InSync(ChangesAt(3), map[], 2);
    ServedClientCatchesUp(c, TWO_DELTAS, 2, key => ChangesAt(3), CTX, 2, map[]);
  }
}
