/**
 The Entra access-token lifecycle behind pooled Redis connections.

 Durations and instants are whole nanoseconds, the resolution the program's own durations have,
 so its integer divisions are exact here as well.
 */
module TokenLifecycle {
  import opened Common

  const SECOND: nat := 1_000_000_000
  const MIN_REFRESH_DELAY: nat := 30 * SECOND
  const MIN_USABLE_LIFETIME: nat := 120 * SECOND
  const MAX_LIFETIME: nat := 86_400 * SECOND
  const MAX_STARTUP_TIMEOUT: nat := 86_400 * SECOND
  const MIN_REFRESH_MARGIN: nat := 60 * SECOND
  const HARD_EXPIRY_MARGIN: nat := 30 * SECOND
  const MIN_CONNECTION_LIFETIME: nat := 300 * SECOND
  const MIN_RETRY_BACKOFF: nat := 1 * SECOND
  const MAX_RETRY_BACKOFF: nat := 60 * SECOND

  // ----- Duration arithmetic -----

  function UsableLifetime(expiresIn: nat): Option<nat> {
    if expiresIn * SECOND < MIN_USABLE_LIFETIME then None
    else Some(Min(expiresIn * SECOND, MAX_LIFETIME))
  }

  function ShortestDelay(lifetime: nat): nat {
    Min(MIN_REFRESH_DELAY, lifetime / 2)
  }

  predicate ConfiguredMarginFits(lifetime: nat, configured: nat) {
    configured <= SaturatingSub(lifetime, ShortestDelay(lifetime))
  }

  function RefreshMargin(lifetime: nat, configured: Option<nat>): nat {
    var wanted := if configured.Some? && ConfiguredMarginFits(lifetime, configured.value)
                  then configured.value else lifetime / 4;
    Min(Max(wanted, MIN_REFRESH_MARGIN), SaturatingSub(lifetime, ShortestDelay(lifetime)))
  }

  function RefreshDelay(lifetime: nat, configured: Option<nat>): nat {
    SaturatingSub(lifetime, RefreshMargin(lifetime, configured))
  }

  function MaxConnectionLifetime(lifetime: nat, configured: Option<nat>): nat {
    var target := RefreshMargin(lifetime, configured) * 3 / 4;
    Min(Max(target, MIN_CONNECTION_LIFETIME), Max(lifetime / 2, SECOND))
  }

  predicate IsTokenExpiring(now: nat, expiresAt: nat, margin: nat) {
    expiresAt < now || expiresAt - now <= margin
  }

  /** For every accepted token and every configured margin: 30s before the refresh, 60s after it. */
  lemma RefreshWindow(expiresIn: nat, configured: Option<nat>)
    requires UsableLifetime(expiresIn).Some?
    ensures var lifetime := UsableLifetime(expiresIn).value;
            && lifetime <= expiresIn * SECOND
            && RefreshDelay(lifetime, configured) >= MIN_REFRESH_DELAY
            && RefreshDelay(lifetime, configured) + RefreshMargin(lifetime, configured) == lifetime
            && RefreshMargin(lifetime, configured) >= MIN_REFRESH_MARGIN
  {
  }

  /** The margin floor really needs only 90s of lifetime, less than the accepted minimum of 120s. */
  lemma MarginFloorIff(lifetime: nat, configured: Option<nat>)
    ensures RefreshMargin(lifetime, configured) >= MIN_REFRESH_MARGIN <==> lifetime >= 90 * SECOND
  {
  }

  lemma CapBounds(lifetime: nat, configured: Option<nat>)
    ensures 0 < MaxConnectionLifetime(lifetime, configured) <= Max(lifetime / 2, SECOND)
  {
  }

  // ----- The provider -----

  datatype Token = Token(expiresAt: nat, refreshAt: nat, generation: nat, connectionCap: nat)

  function Minted(now: nat, lifetime: nat, generation: nat, configured: Option<nat>): Token {
    Token(now + lifetime, now + RefreshDelay(lifetime, configured), generation,
          MaxConnectionLifetime(lifetime, configured))
  }

  /** A token request either fails or reports `expires_in`. */
  function Refreshed(token: Token, generation: nat, now: nat, response: Option<nat>, configured: Option<nat>)
    : (Token, nat)
  {
    if response.None? || UsableLifetime(response.value).None? then (token, generation)
    else (Minted(now, UsableLifetime(response.value).value, generation + 1, configured), generation + 1)
  }

  class EntraTokenProvider {
    const configured: Option<nat>
    var token: Token
    var generation: nat

    constructor (configured: Option<nat>, now: nat)
      ensures this.configured == configured
      ensures token == Token(now, now, 0, 0) && generation == 0
    {
      this.configured := configured;
      token, generation := Token(now, now, 0, 0), 0;
    }

    method Refresh(now: nat, response: Option<nat>) returns (ok: bool)
      modifies this
      ensures (token, generation) == Refreshed(old(token), old(generation), now, response, configured)
      ensures ok <==> response.Some? && UsableLifetime(response.value).Some?
      ensures !ok ==> unchanged(this)
      ensures ok ==> var lifetime := if response.value <= 86_400 then response.value * SECOND else 86_400 * SECOND;
                     && token.expiresAt == now + lifetime
                     && RefreshesAsConfigured(token, lifetime, configured) && CappedAsPromised(token, lifetime)
    {
      if response.Some? {
        PublishedToken(token, generation, now, response.value, configured);
      }
      if response.None? {
        return false;
      }
      var lifetime := UsableLifetime(response.value);
      if lifetime.None? {
        return false;
      }
      generation := generation + 1;
      token := Minted(now, lifetime.value, generation, configured);
      return true;
    }
  }

  /** The margin an operator gets, spelled out: what was asked for where it lies between 60s and lifetime - 30s. */
  ghost predicate RefreshesAsConfigured(token: Token, lifetime: nat, configured: Option<nat>) {
    match configured
    case Some(margin) =>
      if margin + 30 * SECOND > lifetime then RefreshesByDefault(token, lifetime)
      else if margin >= 60 * SECOND then token.refreshAt + margin == token.expiresAt
      else token.refreshAt + 60 * SECOND == token.expiresAt
    case None => RefreshesByDefault(token, lifetime)
  }

  /** At three quarters of the lifetime, but 60s before its end at the latest. */
  ghost predicate RefreshesByDefault(token: Token, lifetime: nat) {
    if lifetime < 240 * SECOND then token.refreshAt + 60 * SECOND == token.expiresAt
    else token.refreshAt + lifetime / 4 == token.expiresAt
  }

  /** Three quarters of what is left at the refresh, at least 300s, at most half the lifetime. */
  ghost predicate CappedAsPromised(token: Token, lifetime: nat) {
    var left := token.expiresAt - token.refreshAt;
    if left < 400 * SECOND then
      token.connectionCap == if lifetime < 600 * SECOND then lifetime / 2 else 300 * SECOND
    else
      token.connectionCap == if lifetime / 2 < left * 3 / 4 then lifetime / 2 else left * 3 / 4
  }

  lemma MintedRefreshes(now: nat, lifetime: nat, generation: nat, configured: Option<nat>)
    requires lifetime >= 120 * SECOND
    ensures RefreshesAsConfigured(Minted(now, lifetime, generation, configured), lifetime, configured)
  {
    assert ShortestDelay(lifetime) == 30 * SECOND;
  }

  lemma MintedCap(now: nat, lifetime: nat, generation: nat, configured: Option<nat>)
    requires lifetime >= 120 * SECOND
    ensures CappedAsPromised(Minted(now, lifetime, generation, configured), lifetime)
  {
    var margin := RefreshMargin(lifetime, configured);
    assert margin <= lifetime;
    var token := Minted(now, lifetime, generation, configured);
    assert token.expiresAt - token.refreshAt == margin;
    assert token.connectionCap == Min(Max(margin * 3 / 4, 300 * SECOND), lifetime / 2);
  }

  /** What a refresh publishes, for every reported lifetime and every configured margin. */
  lemma PublishedToken(token: Token, generation: nat, now: nat, expiresIn: nat, configured: Option<nat>)
    ensures var (published, next) := Refreshed(token, generation, now, Some(expiresIn), configured);
            if expiresIn < 120 then published == token && next == generation
            else
              var lifetime := if expiresIn <= 86_400 then expiresIn * SECOND else 86_400 * SECOND;
              && published.expiresAt == now + lifetime && published.generation == next == generation + 1
              && RefreshesAsConfigured(published, lifetime, configured) && CappedAsPromised(published, lifetime)
    ensures Refreshed(token, generation, now, None, configured) == (token, generation)
  {
    if expiresIn >= 120 {
      var lifetime := if expiresIn <= 86_400 then expiresIn * SECOND else 86_400 * SECOND;
      assert UsableLifetime(expiresIn) == Some(lifetime);
      MintedRefreshes(now, lifetime, generation + 1, configured);
      MintedCap(now, lifetime, generation + 1, configured);
    }
  }

  // ----- Startup -----

  function BackoffAfter(sleeps: nat): nat {
    if sleeps == 0 then MIN_RETRY_BACKOFF else Min(BackoffAfter(sleeps - 1) * 2, MAX_RETRY_BACKOFF)
  }

  /** A floor on the time the first `sleeps` full back-offs take. */
  function SleptAtLeast(sleeps: nat): nat {
    if sleeps == 0 then 0 else SleptAtLeast(sleeps - 1) + BackoffAfter(sleeps - 1)
  }

  lemma {:induction false} BackoffGrowth(sleeps: nat)
    ensures sleeps >= 6 ==> BackoffAfter(sleeps) == MAX_RETRY_BACKOFF
                            && SleptAtLeast(sleeps) == 63 * SECOND + (sleeps - 6) * MAX_RETRY_BACKOFF
  {
    if sleeps == 6 {
      assert BackoffAfter(3) == 8 * SECOND && SleptAtLeast(3) == 7 * SECOND;
    } else if sleeps > 6 {
      BackoffGrowth(sleeps - 1);
    }
  }

  lemma AttemptBound(sleeps: nat, budget: nat)
    requires sleeps > 0 && SleptAtLeast(sleeps - 1) < budget
    ensures sleeps + 1 <= budget / MAX_RETRY_BACKOFF + 8
  {
    BackoffGrowth(sleeps - 1);
    if sleeps > 7 {
      assert (sleeps - 7) * MAX_RETRY_BACKOFF < budget;
    }
  }

  /**
   The initial fetch with retries. `attemptFails(i)` says how attempt `i` ends, `requestTime(i)` how
   long it takes and `overslept(i)` how much longer than asked the following sleep lasts.
   */
  method Connect(start: nat, startupTimeout: nat, attemptFails: nat -> bool,
                 requestTime: nat -> nat, overslept: nat -> nat)
    returns (ok: bool, attempts: nat, now: nat)
    ensures attempts <= Min(startupTimeout, 86_400 * SECOND) / (60 * SECOND) + 8
    ensures attempts >= 1 && ok == !attemptFails(attempts - 1)
    ensures forall i: nat | i < attempts - 1 :: attemptFails(i)
    ensures !ok ==> now >= start + Min(startupTimeout, 86_400 * SECOND)
    ensures (forall i :: requestTime(i) == 0 == overslept(i)) ==>
              now == start + Min(SleptAtLeast(attempts - 1), Min(startupTimeout, 86_400 * SECOND))
  {
    var budget := Min(startupTimeout, MAX_STARTUP_TIMEOUT);
    var deadline := start + budget;
    var backoff := MIN_RETRY_BACKOFF;
    now, attempts := start, 0;
    while true
      invariant backoff == BackoffAfter(attempts) && 0 < backoff && start <= now
      invariant forall i: nat | i < attempts :: attemptFails(i)
      invariant now >= deadline || now >= start + SleptAtLeast(attempts)
      invariant attempts > 0 ==> SleptAtLeast(attempts - 1) < budget
      invariant (forall i :: requestTime(i) == 0 == overslept(i)) ==> now == start + Min(SleptAtLeast(attempts), budget)
      decreases SaturatingSub(deadline, now), if now >= deadline then 0 else 1
    {
      if attempts > 0 {
        AttemptBound(attempts, budget);
      }
      now := now + requestTime(attempts);
      attempts := attempts + 1;
      if !attemptFails(attempts - 1) {
        return true, attempts, now;
      }
      var remaining := SaturatingSub(deadline, now);
      if remaining == 0 {
        return false, attempts, now;
      }
      now := now + Min(backoff, remaining) + overslept(attempts - 1);
      backoff := Min(backoff * 2, MAX_RETRY_BACKOFF);
    }
  }

  // ----- Runs -----

  datatype Connection = Connection(generation: nat, expiresAt: nat, openedAt: nat)

  /**
   `mints` logs when tokens were published. A connection being opened has read its token (at its
   `openedAt`) and is in its handshake; after it, its age starts anew. Others are idle or checked out.
   */
  datatype State = State(
    now: nat, token: Token, generation: nat, mints: seq<nat>,
    opening: map<nat, Connection>, idle: map<nat, Connection>, busy: map<nat, Connection>)

  datatype Event =
    | Tick(elapsed: nat)
    | Refresh(response: Option<nat>)   // one attempt of the refresh loop
    | StartOpen(id: nat)               // the token is read
    | FinishOpen(id: nat)              // the handshake is done and the pool has the connection
    | FailOpen(id: nat)
    | CheckOut(id: nat)
    | CheckIn(id: nat)
    | Reap(id: nat)                    // the pool drops an idle connection past its age cap

  predicate IsValid(now: nat, c: Connection) {
    !IsTokenExpiring(now, c.expiresAt, HARD_EXPIRY_MARGIN)
  }

  predicate HasBroken(token: Token, c: Connection) {
    c.generation != token.generation
  }

  /** The loop mints only once `refresh_at` is reached; nothing opens before the first token. */
  predicate Enabled(s: State, ev: Event) {
    match ev
    case Tick(_) => true
    case Refresh(_) => s.token.refreshAt <= s.now
    case StartOpen(id) => s.token.generation > 0 && id !in s.opening && id !in s.idle && id !in s.busy
    case FinishOpen(id) => id in s.opening && id !in s.idle && id !in s.busy
    case FailOpen(id) => id in s.opening
    case CheckOut(id) => id in s.idle && id !in s.busy
    case CheckIn(id) => id in s.busy && id !in s.idle
    case Reap(id) => id in s.idle
  }

  function Step(s: State, ev: Event, configured: Option<nat>): State
    requires Enabled(s, ev)
  {
    match ev
    case Tick(elapsed) => s.(now := s.now + elapsed)
    case Refresh(response) =>
      var (token, generation) := Refreshed(s.token, s.generation, s.now, response, configured);
      s.(token := token, generation := generation,
         mints := if generation == s.generation then s.mints else s.mints + [s.now])
    case StartOpen(id) =>
      s.(opening := s.opening[id := Connection(s.token.generation, s.token.expiresAt, s.now)])
    case FinishOpen(id) =>
      s.(opening := s.opening - {id}, idle := s.idle[id := s.opening[id].(openedAt := s.now)])
    case FailOpen(id) => s.(opening := s.opening - {id})
    case CheckOut(id) =>
      if IsValid(s.now, s.idle[id]) then s.(idle := s.idle - {id}, busy := s.busy[id := s.idle[id]])
      else s.(idle := s.idle - {id})
    case CheckIn(id) =>
      if HasBroken(s.token, s.busy[id]) then s.(busy := s.busy - {id})
      else s.(idle := s.idle[id := s.busy[id]], busy := s.busy - {id})
    case Reap(id) => s.(idle := s.idle - {id})
  }

  ghost predicate IsRun(s: State, evs: seq<Event>, configured: Option<nat>)
    decreases |evs|
  {
    evs == [] || (Enabled(s, evs[0]) && IsRun(Step(s, evs[0], configured), evs[1..], configured))
  }

  ghost function Run(s: State, evs: seq<Event>, configured: Option<nat>): State
    requires IsRun(s, evs, configured)
    decreases |evs|
  {
    if evs == [] then s else Run(Step(s, evs[0], configured), evs[1..], configured)
  }

  function Initial(now: nat): State {
    State(now, Token(now, now, 0, 0), 0, [], map[], map[], map[])
  }

  ghost predicate SoundConnection(s: State, c: Connection) {
    && 0 < c.generation <= s.token.generation
    && c.openedAt <= s.now
    && (c.generation == s.token.generation ==> c.expiresAt == s.token.expiresAt)
  }

  ghost predicate TokensSafe(s: State) {
    && s.generation == s.token.generation == |s.mints|
    && (s.mints != [] ==>
          var last := s.mints[|s.mints| - 1];
          last <= s.now && last + MIN_REFRESH_DELAY <= s.token.refreshAt
          && s.token.refreshAt + MIN_REFRESH_MARGIN <= s.token.expiresAt)
    && (forall i | 0 <= i < |s.mints| - 1 :: s.mints[i] + MIN_REFRESH_DELAY <= s.mints[i + 1])
  }

  ghost predicate ConnectionsSafe(s: State) {
    && (forall id | id in s.opening :: SoundConnection(s, s.opening[id]))
    && (forall id | id in s.idle :: SoundConnection(s, s.idle[id]))
    && (forall id | id in s.busy :: SoundConnection(s, s.busy[id]))
  }

  /** Rotation safety: the refresh window, spaced mints, and generations that never run ahead. */
  ghost predicate Safe(s: State) {
    TokensSafe(s) && ConnectionsSafe(s)
  }

  lemma StepKeepsTokens(s: State, ev: Event, configured: Option<nat>)
    requires TokensSafe(s) && Enabled(s, ev)
    ensures TokensSafe(Step(s, ev, configured))
  {
    if ev.Refresh? && ev.response.Some? && UsableLifetime(ev.response.value).Some? {
      RefreshWindow(ev.response.value, configured);
    }
  }

  lemma StepKeepsConnections(s: State, ev: Event, configured: Option<nat>)
    requires TokensSafe(s) && ConnectionsSafe(s) && Enabled(s, ev)
    ensures ConnectionsSafe(Step(s, ev, configured))
  {
    var s' := Step(s, ev, configured);
    assert forall c | SoundConnection(s, c) :: SoundConnection(s', c);
  }

  lemma StepIsSafe(s: State, ev: Event, configured: Option<nat>)
    requires Safe(s) && Enabled(s, ev)
    ensures Safe(Step(s, ev, configured))
  {
    StepKeepsTokens(s, ev, configured);
    StepKeepsConnections(s, ev, configured);
  }

  lemma {:induction false} EveryRunIsSafe(s: State, evs: seq<Event>, configured: Option<nat>)
    requires Safe(s) && IsRun(s, evs, configured)
    ensures Safe(Run(s, evs, configured))
    decreases |evs|
  {
    if evs != [] {
      StepIsSafe(s, evs[0], configured);
      EveryRunIsSafe(Step(s, evs[0], configured), evs[1..], configured);
    }
  }

  /**
   What the two pool hooks guarantee in every reachable state: a failed refresh is invisible, a
   connection handed out has more than 30s of token life, one taken back is of the current token.
   */
  lemma HooksGuard(start: nat, evs: seq<Event>, ev: Event, configured: Option<nat>)
    requires IsRun(Initial(start), evs, configured) && Enabled(Run(Initial(start), evs, configured), ev)
    ensures var s := Run(Initial(start), evs, configured);
            var s' := Step(s, ev, configured);
            && (ev.Refresh? && (ev.response.None? || ev.response.value < 120) ==> s' == s)
            && (ev.CheckOut? && ev.id in s'.busy ==> s.now + 30 * SECOND < s'.busy[ev.id].expiresAt)
            && (ev.CheckIn? && ev.id in s'.idle ==>
                  s'.idle[ev.id].generation == s'.generation && s'.idle[ev.id].expiresAt == s'.token.expiresAt)
            && (ev.CheckIn? && ev.id !in s'.idle ==> s.busy[ev.id].generation < s'.generation)
            && (ev.CheckOut? ==> ev.id !in s'.idle && (ev.id in s'.busy <==> IsValid(s.now, s.idle[ev.id])))
            && (ev.CheckIn? ==> ev.id !in s'.busy
                                && (ev.id in s'.idle <==> s.busy[ev.id].generation == s.token.generation))
  {
    EveryRunIsSafe(Initial(start), evs, configured);
  }

  // ----- Punctual runs -----

  /**
   Every token lives `expiresIn` seconds, refreshes come at most `slack` late,
   handshakes take at most `handshake`.
   */
  datatype Timing = Timing(expiresIn: nat, slack: nat, handshake: nat) {
    predicate Usable() {
      UsableLifetime(expiresIn).Some?
    }

    function Lifetime(): nat
      requires Usable()
    {
      UsableLifetime(expiresIn).value
    }

    function Margin(configured: Option<nat>): nat
      requires Usable()
    {
      RefreshMargin(Lifetime(), configured)
    }

    function Cap(configured: Option<nat>): nat
      requires Usable()
    {
      MaxConnectionLifetime(Lifetime(), configured)
    }
  }

  ghost predicate Punctual(s: State, ev: Event, t: Timing) {
    && (ev.Tick? && s.token.generation > 0 ==> s.now + ev.elapsed <= s.token.refreshAt + t.slack)
    && (ev.Tick? ==> forall id | id in s.opening :: s.now + ev.elapsed <= s.opening[id].openedAt + t.handshake)
    && (ev.Refresh? && ev.response.Some? ==> ev.response.value == t.expiresIn)
  }

  ghost predicate PunctualRun(s: State, evs: seq<Event>, configured: Option<nat>, t: Timing)
    requires IsRun(s, evs, configured)
    decreases |evs|
  {
    evs == [] || (Punctual(s, evs[0], t) && PunctualRun(Step(s, evs[0], configured), evs[1..], configured, t))
  }

  ghost predicate PunctualFrom(s: State, evs: seq<Event>, configured: Option<nat>, t: Timing) {
    IsRun(s, evs, configured) && PunctualRun(s, evs, configured, t)
  }

  ghost predicate Fresh(c: Connection, margin: nat, late: nat) {
    c.openedAt + margin <= c.expiresAt + late
  }

  ghost predicate OnSchedule(s: State, margin: nat, t: Timing) {
    && (s.token.generation > 0 ==>
          s.now <= s.token.refreshAt + t.slack && s.token.refreshAt + margin == s.token.expiresAt)
    && (forall id | id in s.opening ::
          Fresh(s.opening[id], margin, t.slack) && s.now <= s.opening[id].openedAt + t.handshake)
    && (forall id | id in s.idle :: Fresh(s.idle[id], margin, t.slack + t.handshake))
    && (forall id | id in s.busy :: Fresh(s.busy[id], margin, t.slack + t.handshake))
  }

  lemma PunctualStepStaysOnSchedule(s: State, ev: Event, configured: Option<nat>, t: Timing)
    requires t.Usable() && Enabled(s, ev) && Punctual(s, ev, t) && OnSchedule(s, t.Margin(configured), t)
    ensures OnSchedule(Step(s, ev, configured), t.Margin(configured), t)
  {
    if ev.Refresh? {
      RefreshWindow(t.expiresIn, configured);
    }
  }

  lemma {:induction false} PunctualRunStaysOnSchedule(s: State, evs: seq<Event>, configured: Option<nat>, t: Timing)
    requires t.Usable() && PunctualFrom(s, evs, configured, t) && OnSchedule(s, t.Margin(configured), t)
    ensures OnSchedule(Run(s, evs, configured), t.Margin(configured), t)
    decreases |evs|
  {
    if evs != [] {
      PunctualStepStaysOnSchedule(s, evs[0], configured, t);
      PunctualRunStaysOnSchedule(Step(s, evs[0], configured), evs[1..], configured, t);
    }
  }

  lemma RunCons(s: State, ev: Event, evs: seq<Event>, configured: Option<nat>, t: Timing)
    requires Enabled(s, ev) && Punctual(s, ev, t) && PunctualFrom(Step(s, ev, configured), evs, configured, t)
    ensures PunctualFrom(s, [ev] + evs, configured, t)
    ensures Run(s, [ev] + evs, configured) == Run(Step(s, ev, configured), evs, configured)
  {
    assert ([ev] + evs)[1..] == evs;
  }

  lemma {:induction false} RunConcat(s: State, a: seq<Event>, b: seq<Event>, configured: Option<nat>, t: Timing)
    requires PunctualFrom(s, a, configured, t) && PunctualFrom(Run(s, a, configured), b, configured, t)
    ensures PunctualFrom(s, a + b, configured, t)
    ensures Run(s, a + b, configured) == Run(Run(s, a, configured), b, configured)
    decreases |a|
  {
    if a == [] {
      assert a + b == b;
    } else {
      RunConcat(Step(s, a[0], configured), a[1..], b, configured, t);
      RunCons(s, a[0], a[1..] + b, configured, t);
      assert a + b == [a[0]] + (a[1..] + b);
    }
  }

  // ----- Outages -----

  /** A published token is already too old for connections opened with it. */
  ghost predicate Outage(start: nat, evs: seq<Event>, configured: Option<nat>, t: Timing) {
    && PunctualFrom(Initial(start), evs, configured, t)
    && var s := Run(Initial(start), evs, configured);
       s.token.generation > 0 && !IsValid(s.now, Connection(s.token.generation, s.token.expiresAt, s.now))
  }

  ghost predicate NeverOut(configured: Option<nat>, t: Timing) {
    forall start, evs :: !Outage(start, evs, configured, t)
  }

  lemma PromptRefreshesPreventOutage(start: nat, evs: seq<Event>, configured: Option<nat>, t: Timing)
    requires t.Usable() && t.slack + HARD_EXPIRY_MARGIN < t.Margin(configured)
    ensures !Outage(start, evs, configured, t)
  {
    if PunctualFrom(Initial(start), evs, configured, t) {
      PunctualRunStaysOnSchedule(Initial(start), evs, configured, t);
    }
  }

  lemma LateRefreshCausesOutage(start: nat, configured: Option<nat>, t: Timing) returns (evs: seq<Event>)
    requires t.Usable() && t.slack + HARD_EXPIRY_MARGIN >= t.Margin(configured)
    ensures Outage(start, evs, configured, t)
  {
    RefreshWindow(t.expiresIn, configured);
    var mint, wait := Refresh(Some(t.expiresIn)), Tick(RefreshDelay(t.Lifetime(), configured) + t.slack);
    var s0 := Initial(start);
    var s1 := Step(s0, mint, configured);
    RunCons(s1, wait, [], configured, t);
    RunCons(s0, mint, [wait], configured, t);
    evs := [mint] + [wait];
  }

  /** Exactly how late refreshes may be: there is never an outage if and only if slack + 30s is below the margin. */
  lemma NeverOutIff(configured: Option<nat>, t: Timing)
    requires t.Usable()
    ensures NeverOut(configured, t) <==> t.slack + HARD_EXPIRY_MARGIN < t.Margin(configured)
  {
    if t.slack + HARD_EXPIRY_MARGIN < t.Margin(configured) {
      forall start, evs ensures !Outage(start, evs, configured, t) {
        PromptRefreshesPreventOutage(start, evs, configured, t);
      }
    } else {
      var evs := LateRefreshCausesOutage(0, configured, t);
    }
  }

  /** With any accepted token and any configured margin, refreshes less than 30s late leave no outage window. */
  lemma NoOutageWindow(configured: Option<nat>, t: Timing)
    requires t.Usable() && t.slack < 30 * SECOND
    ensures NeverOut(configured, t)
  {
    RefreshWindow(t.expiresIn, configured);
    NeverOutIff(configured, t);
  }

  // ----- The age cap -----

  /** An idle connection still within the age cap fails the expiry guard. */
  ghost predicate Exposed(start: nat, evs: seq<Event>, id: nat, configured: Option<nat>, t: Timing)
    requires t.Usable()
  {
    && PunctualFrom(Initial(start), evs, configured, t)
    && var s := Run(Initial(start), evs, configured);
       id in s.idle && s.now <= s.idle[id].openedAt + t.Cap(configured) && !IsValid(s.now, s.idle[id])
  }

  /** Whether reaping at the age cap keeps every connection of every such run clear of the expiry guard. */
  ghost predicate CapBeatsExpiry(configured: Option<nat>, t: Timing)
    requires t.Usable()
  {
    forall start, evs, id :: !Exposed(start, evs, id, configured, t)
  }

  /** The cap, the guard and all lateness fit into the margin. */
  predicate CapFits(configured: Option<nat>, t: Timing)
    requires t.Usable()
  {
    t.Cap(configured) + HARD_EXPIRY_MARGIN + t.slack + t.handshake < t.Margin(configured)
  }

  lemma CapWithinMarginProtects(start: nat, evs: seq<Event>, id: nat, configured: Option<nat>, t: Timing)
    requires t.Usable() && CapFits(configured, t)
    ensures !Exposed(start, evs, id, configured, t)
  {
    if PunctualFrom(Initial(start), evs, configured, t) {
      var s := Run(Initial(start), evs, configured);
      EveryRunIsSafe(Initial(start), evs, configured);
      PunctualRunStaysOnSchedule(Initial(start), evs, configured, t);
      assert id in s.idle ==> SoundConnection(s, s.idle[id]);
    }
  }

  /** Time passes and tokens are refreshed, and nothing else. */
  ghost predicate OnlyLater(s: State, s': State, elapsed: nat, slack: nat) {
    s'.now == s.now + elapsed <= s'.token.refreshAt + slack
    && s'.opening == s.opening && s'.idle == s.idle && s'.busy == s.busy && s'.token.generation >= s.token.generation
  }

  /** Time can pass, by any amount the handshakes under way allow, in a punctual run that touches no connection. */
  lemma {:induction false} TimePasses(s: State, configured: Option<nat>, t: Timing, elapsed: nat)
    returns (evs: seq<Event>)
    requires t.Usable() && s.generation == s.token.generation && s.now <= s.token.refreshAt + t.slack
    requires forall id | id in s.opening :: s.now + elapsed <= s.opening[id].openedAt + t.handshake
    ensures PunctualFrom(s, evs, configured, t) && OnlyLater(s, Run(s, evs, configured), elapsed, t.slack)
    ensures Run(s, evs, configured).generation == Run(s, evs, configured).token.generation
    decreases elapsed, if s.now >= s.token.refreshAt then 1 else 0
  {
    if s.now + elapsed <= s.token.refreshAt + t.slack {
      evs := [Tick(elapsed)];
      RunCons(s, Tick(elapsed), [], configured, t);
    } else {
      var ev := if s.now >= s.token.refreshAt then Refresh(Some(t.expiresIn)) else Tick(s.token.refreshAt - s.now);
      var spent := if ev.Tick? then ev.elapsed else 0;
      RefreshWindow(t.expiresIn, configured);
      var rest := TimePasses(Step(s, ev, configured), configured, t, elapsed - spent);
      evs := [ev] + rest;
      RunCons(s, ev, rest, configured, t);
    }
  }

  /** Mint, wait as long as punctuality allows, and open a connection with the longest handshake. */
  lemma LateConnection(start: nat, configured: Option<nat>, t: Timing) returns (evs: seq<Event>)
    requires t.Usable()
    ensures PunctualFrom(Initial(start), evs, configured, t)
    ensures var s := Run(Initial(start), evs, configured);
            && 1 in s.idle && s.idle[1].openedAt == s.now <= s.token.refreshAt + t.slack && s.opening == map[]
            && s.idle[1].openedAt + t.Margin(configured) == s.idle[1].expiresAt + t.slack + t.handshake
            && s.generation == s.token.generation
  {
    RefreshWindow(t.expiresIn, configured);
    var mint, wait := Refresh(Some(t.expiresIn)), Tick(RefreshDelay(t.Lifetime(), configured) + t.slack);
    var s0 := Initial(start);
    var s1 := Step(s0, mint, configured);
    var s2 := Step(s1, wait, configured);
    var s3 := Step(s2, StartOpen(1), configured);
    assert s3.opening == map[1 := Connection(1, start + t.Lifetime(), s2.now)];
    var shake := TimePasses(s3, configured, t, t.handshake);
    var s4 := Run(s3, shake, configured);
    RunCons(s4, FinishOpen(1), [], configured, t);
    RunConcat(s3, shake, [FinishOpen(1)], configured, t);
    RunCons(s2, StartOpen(1), shake + [FinishOpen(1)], configured, t);
    RunCons(s1, wait, [StartOpen(1)] + (shake + [FinishOpen(1)]), configured, t);
    RunCons(s0, mint, [wait] + ([StartOpen(1)] + (shake + [FinishOpen(1)])), configured, t);
    evs := [mint] + ([wait] + ([StartOpen(1)] + (shake + [FinishOpen(1)])));
  }

  /** ... and wait until the guard trips. */
  lemma CapBeyondMarginExposes(start: nat, configured: Option<nat>, t: Timing) returns (evs: seq<Event>)
    requires t.Usable() && !CapFits(configured, t)
    ensures Exposed(start, evs, 1, configured, t)
  {
    var open := LateConnection(start, configured, t);
    var s := Run(Initial(start), open, configured);
    var left := SaturatingSub(t.Margin(configured), t.slack + t.handshake + HARD_EXPIRY_MARGIN);
    var wait := TimePasses(s, configured, t, left);
    RunConcat(Initial(start), open, wait, configured, t);
    evs := open + wait;
  }

  /** Exactly when the cap does its job, for every accepted lifetime, margin and lateness, over all runs. */
  lemma CapBeatsExpiryIff(configured: Option<nat>, t: Timing)
    requires t.Usable()
    ensures CapBeatsExpiry(configured, t) <==> CapFits(configured, t)
  {
    if CapFits(configured, t) {
      forall start, evs, id ensures !Exposed(start, evs, id, configured, t) {
        CapWithinMarginProtects(start, evs, id, configured, t);
      }
    } else {
      var evs := CapBeyondMarginExposes(0, configured, t);
    }
  }

  /** For lifetimes of ten minutes and up, lateness of up to 69s in all needs a margin above 330s plus that lateness. */
  lemma CapNeedsMargin(configured: Option<nat>, t: Timing)
    requires t.expiresIn >= 600 && t.slack + t.handshake <= 69 * SECOND
    ensures CapBeatsExpiry(configured, t) <==> t.Margin(configured) > 330 * SECOND + t.slack + t.handshake
  {
    CapBeatsExpiryIff(configured, t);
  }

  /** Over every such run with a 400s margin, no connection within the age cap fails the guard. */
  lemma AgeCapKeepsPoolUsable(start: nat, evs: seq<Event>, configured: Option<nat>, t: Timing, id: nat)
    requires t.Usable() && t.Margin(configured) >= 400 * SECOND && t.slack + t.handshake <= 69 * SECOND
    requires PunctualFrom(Initial(start), evs, configured, t)
    requires var s := Run(Initial(start), evs, configured);
             id in s.idle && s.now <= s.idle[id].openedAt + t.Cap(configured)
    ensures var s := Run(Initial(start), evs, configured);
            IsValid(s.now, s.idle[id])
  {
    CapWithinMarginProtects(start, evs, id, configured, t);
  }
}
