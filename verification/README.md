# Verified model of the forward proxy's data plane

This project models the stateful core of the Statsig forward proxy in Dafny and proves what that
core is for, each with the exact condition it depends on: a client that follows deltas misses no
change while the history has no gap, a pool never hands out a connection whose token is about to
expire, one fetch per key runs at a time unless a fetch that attempts nothing is disturbed, a backup
entry is only kept alive by pods that have seen its version, a list is only removed on complete
knowledge.

Each module follows one component of the program.

| module | component |
|---|---|
| `EnvelopeFraming`, `PlainCodec` | length-delimited envelopes, byte by byte, with an abstract message codec, and one codec that meets its law |
| `DeltaHistory` | the bounded delta queue, selection, assembly, and what a client makes of the result |
| `DeltasStore` | the store object and every run of its notifications |
| `TokenLifecycle` | duration arithmetic, the token provider, the start-up loop, pool hooks over runs |
| `SingleFlight` | the per-key fetch lock with double-checked flag and timed eviction |
| `FetchLauncher` | gates, rank order and the bounded-concurrency launch loop |
| `PollCadence`, `RequestBackoff` | jittered intervals; capped exponential back-off with pruning |
| `VersionedStores` | poll pointers, stored configs and the clients that read them |
| `CompanyManifests`, `SyncProducer` | the manifest union and one locked producer tick |
| `BackupCache` | several pods, one shared Redis, two transactions per update |
| `LogEventDedupe`, `RangeServing`, `RateLimiter` | exposure dedupe, id-list range serving, token bucket |

Code that updates state in loops is a `class` or `method` proved equal to a specification function;
concurrent code is a machine over the points at which another task can run, and its theorems are
about all runs. Time is an integer (a real in the token bucket) that never runs backwards; hashes,
the message codec, request outcomes and completion order are arbitrary.

## Findings

- Delta histories can get gaps. A client registering past the newest retained delta, or a delta
  payload that does not parse, moves the poll pointer over an interval no delta covers; a client
  served across it is told it is current (`DisorderlyRunsLeaveAGap`, `GapLosesAnUpdate`), and any
  uncovered instant can hide a change (`CatchesUpIff`).
  `PersistKeepsGaplessIff` is the exact condition for one delta and `StaysGaplessIff` for a run;
  `Orderly` is a condition on pointers that suffices.
- The comment at src/datastore/caching/redis_auth.rs:54-57 calls 120s the shortest lifetime that
  still yields a 60s margin. By the code it is 90s (`MarginFloorIff`); the constant is safe, the
  reason given is not exact.
- The connection age cap stays ahead of expiry exactly when the margin exceeds cap + 30s plus the
  lateness of refreshes and the time of a handshake, that is 330s plus these for ordinary lifetimes
  (`CapBeatsExpiryIff`, `CapNeedsMargin`); below that a run reaches a connection that only the
  check-out guard stops (`CapBeyondMarginExposes`).
- A fetch that attempts no request while another caller waits for the same lock, or slips in between
  the release of the lock and the removal of its entry, breaks single flight
  (`DisturbedEmptyFetchBreaksIt`). Exactly these steps are unsafe
  (`SingleFlight.StepIsSafeIff`).
- The manifest replacement rule is not an order: it can cycle when one file id appears with two
  creation times. The keys are visited in sorted order, so what then decides is which key holds which
  entry, not what the entries are (`RuleCanCycle`, `OrderIndependentIff`).
- A backup write can replace a newer version that was written after its check, across pods when the
  leadership lapses in between (`InterleavedWriteGoesBack`) and within one pod when two contexts share
  a key (`OnePodGoesBack`). These are exactly the writes that lower a version (`NeverLowersIff`), and a
  check that decides to write beside a decided write of another lcut is exactly what allows them
  (`BackupCache.StepIsSafeIff`).
- Pruning a backed-off key is not invisible: its next failure counts as the first
  (`PruningShowsAfterFailure`; exact condition in `PruningNeverShowsIff`).
- A config stored with lcut 0, as a backup without a time is, is never sent to a client that starts
  at 0 (`FirstPollServesIff`, `BackupAtZeroIsHidden`).
- A rate limiter below one request per second would never grant (`GrantsEverIff`); callers only
  build it with whole positive rates.

## Model

| member | source | states |
|---|---|---|
| `EnvelopeFraming.DecodeEnvelopes` | src/datastore/deltas_store.rs:280-301 | the cursor loop returns exactly what the payload means: all its frames, or one bare message when not even the first frame parses, or an error |
| `EnvelopeFraming.VarintRoundTrip` | src/datastore/deltas_store.rs:186-188 | every 64-bit length survives base-128 encoding, whatever bytes follow it |
| `EnvelopeFraming.VarintFormat` | src/datastore/deltas_store.rs:186-188 | the wire format: seven bits a byte, lowest first, the high bit on all but the last, no byte wasted |
| `EnvelopeFraming.VarintFits` | src/datastore/deltas_store.rs:280-301 | a length that does not fit 64 bits is refused |
| `EnvelopeFraming.FrameRoundTrip` | src/datastore/deltas_store.rs:186-188 | one length-delimited envelope followed by anything decodes to that envelope and leaves the rest |
| `EnvelopeFraming.FrameFormat` | src/datastore/deltas_store.rs:186-188 | a frame announces the length of the message that follows |
| `EnvelopeFraming.FramesRoundTrip` | src/datastore/deltas_store.rs:280-301 | for every envelope list, decoding its frames gives the list back |
| `EnvelopeFraming.TruncatedFrame` | src/datastore/deltas_store.rs:280-301 | no proper prefix of a frame decodes as a frame |
| `EnvelopeFraming.TruncationIsDetected` | src/datastore/deltas_store.rs:280-301 | a payload cut inside any frame after the first is an error, never a shorter list; inside the first, only a bare-message reading is left |
| `PlainCodec.LawfulCodecExists` | src/datastore/deltas_store.rs:186-188 | the law the round trips ask of the message codec is satisfiable: one codec has it and frames the update used in the instance below |
| `DeltaHistory.InsertSorted` | src/datastore/deltas_store.rs:242-248 | insertion keeps lcut order, adds exactly the new delta, and the newest lcut is the maximum |
| `DeltaHistory.EvictKeepsGapless` | src/datastore/deltas_store.rs:249-251 | dropping the oldest entries of a sorted history never opens a gap |
| `DeltaHistory.InsertKeepsGaplessIff` | src/datastore/deltas_store.rs:242-248 | inserting into a gapless history leaves it gapless if and only if the new delta touches it, judged by its two ends |
| `DeltaHistory.PersistKeepsGaplessIff` | src/datastore/deltas_store.rs:221-252 | what insertion and eviction leave is gapless if and only if the new delta touches what is left of the history, or is itself evicted |
| `DeltaHistory.PersistKeepsHistory` | src/datastore/deltas_store.rs:221-252 | insert plus eviction of a contiguous delta keeps order, the bound, the newest lcut and full coverage |
| `DeltaHistory.PersistKeepsOrder` | src/datastore/deltas_store.rs:221-252 | order and bound hold after persisting any delta at all |
| `DeltaHistory.SelectIsSuffix` | src/datastore/deltas_store.rs:126-129 | the selected deltas are a suffix of the history: exactly those with lcut >= since |
| `DeltaHistory.SelectionCovers` | src/datastore/deltas_store.rs:108-136 | for a since time not too old, the selected deltas cover every instant up to the newest lcut |
| `DeltaHistory.AnswerCases` | src/datastore/deltas_store.rs:108-145 | no deltas, too old with the smallest start, no updates with the largest lcut, a payload past the client: each exactly where the retained deltas call for it |
| `DeltaHistory.AssembleEnvelopes` | src/datastore/deltas_store.rs:175-219 | the assembled bytes are the frames of: control envelopes of the newest delta, all specs in delta order, trailer of the newest delta |
| `DeltaHistory.PayloadOrder` | src/datastore/deltas_store.rs:190-216 | what is decoded: TopLevel and CopyPrev first, Checksums and Done last, each as in the newest delta, and the specs of the selected deltas in order between them |
| `DeltaHistory.CombinedMeansSequential` | src/datastore/deltas_store.rs:175-219 | decoding the combined payload gives that layout, and running it on any client state equals applying the selected deltas one after another |
| `DeltaHistory.ClientCatchesUp` | src/datastore/deltas_store.rs:108-145 | end to end: if the history covers what came after since, a client in sync at since (or, where since is covered too, missing only changes stamped since) decodes the payload and is in sync at the newest lcut |
| `DeltaHistory.CatchesUpIff` | src/datastore/deltas_store.rs:108-145 | whatever origin the deltas are honest about, the clients answered end in sync if and only if the history covers every instant after since |
| `DeltaHistory.UncoveredChangeIsLost` | src/datastore/deltas_store.rs:108-145 | for any uncovered instant an origin is built that the deltas are honest about and the client misses |
| `DeltasStore.Store.constructor` | src/datastore/deltas_store.rs:47-58 | starts empty and keeps at least one response whatever limit is configured |
| `DeltasStore.Store.PersistDelta` | src/datastore/deltas_store.rs:221-252 | the search and pop loops leave exactly the specified sorted, bounded history for that key and touch no other |
| `DeltasStore.Store.UpsertPointer` | src/datastore/sdk_key_store.rs:81-93 | a registered pointer only rises |
| `DeltasStore.Store.RegisterSdkKey` | src/datastore/deltas_store.rs:78-81 | one registration step of the machine |
| `DeltasStore.Store.OnConfigData` | src/datastore/deltas_store.rs:344-375 | config data registers a delta pointer only if there is none |
| `DeltasStore.Store.OnDeltaData` | src/datastore/deltas_store.rs:376-396 | delta data is stored if it parses; the pointer rises in either case |
| `DeltasStore.Store.RemoveSdkKey` | src/datastore/deltas_store.rs:147-150 | a refused context loses its pointer and its key loses its history |
| `DeltasStore.Store.BuildCombinedPayload` | src/datastore/deltas_store.rs:93-145 | the five answers, in the order the code decides them, with the assembled payload |
| `DeltasStore.AnswerMeans` | src/datastore/deltas_store.rs:93-145 | over every run: when each of the five answers is given, with its number; no updates is never said of a time past the client |
| `DeltasStore.EventEffects` | src/datastore/deltas_store.rs:337-399 | what each event leaves of its pointer and history; a refused context is no longer registered and its key has no history |
| `DeltasStore.OthersUntouched` | src/datastore/deltas_store.rs:337-399 | no event touches other contexts or other keys |
| `DeltasStore.StaysGaplessIff` | src/datastore/deltas_store.rs:337-399 | no history has a gap at any point of a run if and only if each delta that parses fits the history it meets |
| `DeltasStore.OrderlyRunStaysGapless` | src/datastore/deltas_store.rs:221-252 | over every orderly run all histories stay sorted, bounded and gapless and no pointer passes its history |
| `DeltasStore.ServedClientCatchesUp` | src/datastore/deltas_store.rs:93-145 | after every orderly run with honest deltas, any in-sync client the history reaches registers, is answered with bytes that decode, and is in sync at the newest lcut |
| `DeltasStore.SessionStaysInSync` | src/datastore/deltas_store.rs:93-145 | over whole sessions: a client that keeps polling with the time it was told, between any orderly, honest events, is in sync with the origin at that time at every point, never goes back, and after each poll is at the newest lcut unless the history no longer reaches it |
| `DeltasStore.ClientAtTwoCatchesUp` | src/datastore/deltas_store.rs:93-145 | an instance: a client at 2 receives the change made at 3 and is told it is at 10 |
| `DeltasStore.EveryRunStaysSortedAndBounded` | src/datastore/deltas_store.rs:221-252 | order and bound survive every run, orderly or not |
| `DeltasStore.DisorderlyRunsLeaveAGap` | src/datastore/deltas_store.rs:376-396 | registering ahead of the history, or a payload that fails to parse, leaves a gap |
| `DeltasStore.GapLosesAnUpdate` | src/datastore/deltas_store.rs:108-145 | after either run a client in sync at 5 is answered that it is at 10 and misses the change at 7 |
| `DeltasStore.NewestLcutIsNotRepaired` | src/datastore/deltas_store.rs:131-136 | a client at exactly the newest lcut is sent nothing, even if it misses a change stamped there |
| `TokenLifecycle.RefreshWindow` | src/datastore/caching/redis_auth.rs:415-442 | for every accepted expires_in and every configured margin: refresh at least 30s after issue and at least 60s before expiry |
| `TokenLifecycle.MarginFloorIff` | src/datastore/caching/redis_auth.rs:435-442 | the 60s margin floor is reached if and only if the lifetime is at least 90s |
| `TokenLifecycle.CapBounds` | src/datastore/caching/redis_auth.rs:493-499 | the age cap is positive and at most max(lifetime/2, 1s) |
| `TokenLifecycle.EntraTokenProvider.constructor` | src/datastore/caching/redis_auth.rs:226-256 | starts with an already expired generation-0 token |
| `TokenLifecycle.EntraTokenProvider.Refresh` | src/datastore/caching/redis_auth.rs:319-334 | a usable response publishes the next generation with the configured refresh time and cap; anything else changes nothing |
| `TokenLifecycle.PublishedToken` | src/datastore/caching/redis_auth.rs:415-499 | spelled out: a configured margin between 60s and lifetime - 30s is honoured, a smaller one becomes 60s, none or a larger one a quarter of the lifetime but 60s; the cap is three quarters of it, from 300s to half the lifetime |
| `TokenLifecycle.Connect` | src/datastore/caching/redis_auth.rs:258-274 | the startup loop ends within T/60s + 8 attempts, succeeds on the first good attempt, gives up only once the timeout has passed, and sleeps exactly the doubling back-off up to the deadline |
| `TokenLifecycle.EveryRunIsSafe` | src/datastore/caching/redis_auth.rs:303-334 | over every run of refresh, open, check-out and check-in: the refresh window holds, mints are at least 30s apart, no connection is of a future generation |
| `TokenLifecycle.HooksGuard` | src/datastore/caching/redis_auth.rs:616-636 | in every reachable state: failed refreshes are invisible, check-out hands out only connections with more than 30s of token life, an expiring one is dropped, check-in keeps exactly current-generation ones |
| `TokenLifecycle.PunctualRunStaysOnSchedule` | src/datastore/caching/redis_auth.rs:578-614 | with refreshes at most slack late and handshakes of at most h, every connection enters the pool with at least margin minus slack minus h of token life |
| `TokenLifecycle.NeverOutIff` | src/datastore/caching/redis_auth.rs:435-442 | over all runs with refreshes at most slack late, no published token is too old for a new connection if and only if slack + 30s is below the margin |
| `TokenLifecycle.NoOutageWindow` | src/datastore/caching/redis_auth.rs:435-442 | refreshes less than 30s late leave no outage window, for every accepted token and configured margin |
| `TokenLifecycle.CapBeatsExpiryIff` | src/datastore/caching/redis_auth.rs:493-506 | over all runs with refreshes at most slack late and handshakes of at most h, no connection within the age cap fails the expiry guard if and only if cap + 30s + slack + h is below the margin |
| `TokenLifecycle.CapBeyondMarginExposes` | src/datastore/caching/redis_auth.rs:493-506 | otherwise such a run is built: mint, wait, open with a long handshake, and wait until the guard trips within the cap |
| `TokenLifecycle.CapNeedsMargin` | src/datastore/caching/redis_auth.rs:493-506 | for lifetimes from ten minutes and up to 69s of lateness and handshake: if and only if the margin exceeds 330s plus these |
| `TokenLifecycle.AgeCapKeepsPoolUsable` | src/datastore/caching/redis_auth.rs:493-506 | over every run with a 400s margin and up to 69s of lateness and handshake no connection within the cap fails the hard-expiry guard |
| `SingleFlight.StepKeepsInv` | src/datastore/data_providers/background_data_provider.rs:83-139 | every interleaved step keeps the lock-table invariant |
| `SingleFlight.FetchesAreSingleFlighted` | src/datastore/data_providers/background_data_provider.rs:83-139 | in every interleaving at most one fetch of the key is in flight and the next starts at least 30s after the previous ended, provided no caller holds the lock of a fetch that attempts nothing from its end until its entry is removed |
| `SingleFlight.StepIsSafeIff` | src/datastore/data_providers/background_data_provider.rs:83-139 | from every state of the invariant, a step leaves all undisturbed continuations single-flighted if and only if it is undisturbed itself |
| `SingleFlight.DisturbedStepBreaksIt` | src/datastore/data_providers/background_data_provider.rs:118-123 | every disturbed step can be followed by undisturbed ones to two fetches at once |
| `SingleFlight.AttemptingFetchesAreSingleFlighted` | src/datastore/data_providers/background_data_provider.rs:83-139 | in particular, in every interleaving in which every fetch attempts a request |
| `SingleFlight.NextCallerFetches` | src/datastore/data_providers/background_data_provider.rs:89-116 | while the map holds no lock the next caller fetches |
| `SingleFlight.FetchingResumes` | src/datastore/data_providers/background_data_provider.rs:118-136 | the lock leaves the map 30s after a fetch ended and at once after one that attempted nothing |
| `SingleFlight.DoneMeansNoFetch` | src/datastore/data_providers/background_data_provider.rs:96-98 | a caller that finds the fetch done returns without fetching |
| `SingleFlight.DisturbedEmptyFetchBreaksIt` | src/datastore/data_providers/background_data_provider.rs:118-123 | two such runs from the start: a caller waiting on a fetch that attempts nothing, and one arriving before its entry is removed |
| `FetchLauncher.WaitForLaunchSlot` | src/datastore/data_providers/background_data_provider.rs:397-405 | slots follow the previous slot by the spacing or start now; nothing launches before its slot |
| `FetchLauncher.GatedExactly` | src/datastore/data_providers/background_data_provider.rs:289-310 | the gates let through exactly the wanted items that may be attempted, as often as they occur |
| `FetchLauncher.FillSlots` | src/datastore/data_providers/background_data_provider.rs:366-383 | launches pending items in order until the cap or the end; exactly the new ones join the requests in flight, which stay within the cap |
| `FetchLauncher.ExecutePrepared` | src/datastore/data_providers/background_data_provider.rs:354-395 | for every completion order: each item launched once in order, at every point of the log launches minus completions within the cap, each completing once after its own launch, a freed slot refilled before waiting again, slots spaced, all completed, the count returned |
| `FetchLauncher.SortByRankSorts` | src/datastore/data_providers/background_data_provider.rs:312-325 | the shaped order is by rank, loses nothing and is stable |
| `FetchLauncher.FetchRound` | src/datastore/data_providers/background_data_provider.rs:278-352 | exactly the items that pass both gates are launched, in rank order when shaping applies and in store order otherwise, within the cap, keeping it filled, and paced |
| `PollCadence.IntervalBounds` | src/datastore/data_providers/background_poll_dispatch.rs:55-75 | every interval is positive, fits 64 bits and lies within max(base/10, 1) ms of the base |
| `PollCadence.IntervalExact` | src/datastore/data_providers/background_poll_dispatch.rs:55-75 | the interval is the base shifted by the hash over the window, kept positive and within 64 bits |
| `PollCadence.CadenceBounds` | src/datastore/data_providers/background_data_provider.rs:256-275 | after n cycles the next poll time lies within n times base plus or minus the window |
| `RequestBackoff.BackoffIsExponentialIff` | src/datastore/data_providers/request_backoff.rs:32-41 | for any policy the capped, checked code is min(base*2^(n-1), max) if and only if n <= 32 or the cap is reached by then |
| `RequestBackoff.PollingBackoff` | src/datastore/data_providers/request_backoff.rs:22-41 | policies built from a polling interval always meet the formula, monotone in n and between 1s and 300s |
| `RequestBackoff.PolicyFromInterval` | src/datastore/data_providers/request_backoff.rs:22-41 | the first delay is the interval, the longest 32 of them, both 300s at most |
| `RequestBackoff.Controller.CanAttemptAt` | src/datastore/data_providers/request_backoff.rs:71-79 | answers from the retry time and notes the key as seen |
| `RequestBackoff.Controller.RecordSuccess` | src/datastore/data_providers/request_backoff.rs:93-95 | forgets the key |
| `RequestBackoff.Controller.RecordFailureAt` | src/datastore/data_providers/request_backoff.rs:101-114 | counts the failure and blocks the key for the policy delay |
| `RequestBackoff.Controller.PruneStaleAt` | src/datastore/data_providers/request_backoff.rs:120-142 | the collecting loop removes exactly the keys unseen for longer than twice the maximum delay |
| `RequestBackoff.RunKeepsInv` | src/datastore/data_providers/request_backoff.rs:71-142 | over every run retry_after <= last_seen + max_delay |
| `RequestBackoff.PruningIsInvisible` | src/datastore/data_providers/request_backoff.rs:120-142 | in every reachable state and over every continuation up to the next failure of the key, pruning changes no answer about it |
| `RequestBackoff.PruningNeverShowsIff` | src/datastore/data_providers/request_backoff.rs:120-142 | over all continuations it never shows if and only if the key was not pruned or the delays of the policy never grow |
| `RequestBackoff.PrunedKeyStartsOver` | src/datastore/data_providers/request_backoff.rs:101-142 | after the next failure a pruned key counts one failure, an unpruned one counts on |
| `RequestBackoff.PruningShowsAfterFailure` | src/datastore/data_providers/request_backoff.rs:101-142 | an instance: after a second failure the pruned key waits 1s, the unpruned one 2s |
| `RequestBackoff.FailureBlocksBriefly` | src/datastore/data_providers/request_backoff.rs:101-114 | however the run goes on, a key is attemptable max_delay after its last failure |
| `RequestBackoff.FailureBlocksExactly` | src/datastore/data_providers/request_backoff.rs:71-142 | over every continuation without a success or failure of the key, prunes included, it may be attempted if and only if the delay for its failures has passed |
| `RequestBackoff.SuccessClears` | src/datastore/data_providers/request_backoff.rs:93-114 | after a success the key may be attempted and its next failure counts as the first |
| `RequestBackoff.AskedKeyIsKept` | src/datastore/data_providers/request_backoff.rs:71-142 | a key asked about at least every two maximum delays is never pruned and keeps its count |
| `RequestBackoff.ForgottenKeyIsPruned` | src/datastore/data_providers/request_backoff.rs:120-142 | pruning removes a key if and only if it was not seen for twice the maximum delay |
| `VersionedStores.SdkKeyStore.Update` | src/datastore/sdk_key_store.rs:21-42 | the new registered pointers for every notified result |
| `VersionedStores.SdkKeyStore.Upsert` | src/datastore/sdk_key_store.rs:81-93 | raises one pointer to the maximum and leaves the others |
| `VersionedStores.SdkKeyStore.GetRegisteredStore` | src/datastore/sdk_key_store.rs:103-113 | every registered context exactly once with its pointer |
| `VersionedStores.ConfigSpecStore.Update` | src/datastore/config_spec_store.rs:51-104 | the new stored configs for every notified result |
| `VersionedStores.ConfigSpecStore.Get` | src/datastore/config_spec_store.rs:158-171 | a full payload exactly when the stored lcut is newer than the request |
| `VersionedStores.PointersStayBacked` | src/datastore/data_providers/background_data_provider.rs:493-578 | after every sequence of poll results each lcut-using pointer has a stored config at least as new |
| `VersionedStores.StoreAdvances` | src/datastore/config_spec_store.rs:51-104 | between unauthorized removals a stored config stays as it is or becomes strictly newer |
| `VersionedStores.NewDataArrives` | src/datastore/data_providers/background_data_provider.rs:493-512 | data for a context that ignores lcut, or with another lcut than requested, is in the store, or something newer is, until a removal |
| `VersionedStores.NewerDataIsStored` | src/datastore/config_spec_store.rs:51-104 | newer data is stored with the body it came with, raises the pointer, and gives way only to newer |
| `VersionedStores.BackupIsStored` | src/datastore/config_spec_store.rs:51-104 | a newer backup is stored as it is and never moves the pointer |
| `VersionedStores.OtherResults` | src/datastore/data_providers/background_data_provider.rs:493-578 | an unauthorized context is forgotten by both stores if so configured; other results without data change nothing |
| `VersionedStores.OtherContexts` | src/datastore/data_providers/background_data_provider.rs:493-578 | a result is about its own context only |
| `VersionedStores.StoredWasSent` | src/datastore/config_spec_store.rs:51-104 | over every run, what is stored is a version some poll brought, body and all |
| `VersionedStores.SessionStaysCoherent` | src/datastore/config_spec_store.rs:158-171 | a client polling with its last lcut never goes back in time and after each poll holds exactly the stored config |
| `VersionedStores.FirstPollServesIff` | src/datastore/config_spec_store.rs:158-171 | a new client gets the stored config if and only if it has a positive lcut (or an empty body) |
| `VersionedStores.BackupAtZeroIsHidden` | src/datastore/data_providers/background_data_provider.rs:523-541 | such an entry is reachable: a backup without a time is stored and stays hidden |
| `CompanyManifests.OrderIndependentIff` | src/datastore/idlist_membership/namespaces.rs:102-114 | the chosen version is independent of key order if and only if some candidate is replaced by none |
| `CompanyManifests.WinnerIsMaximum` | src/datastore/idlist_membership/namespaces.rs:102-114 | if each file has one creation time, the winner is the maximum by creation time, file id, size |
| `CompanyManifests.RuleCanCycle` | src/datastore/idlist_membership/namespaces.rs:102-114 | otherwise three entries can replace each other in a circle and every one of them can win |
| `CompanyManifests.LexMeans` | src/datastore/idlist_membership/namespaces.rs:102-114 | file ids are compared as strings: a prefix first, else the first differing character decides |
| `CompanyManifests.MergeManifest` | src/datastore/idlist_membership/namespaces.rs:102-114 | the inner loop computes the pairwise union of two manifests |
| `CompanyManifests.UnionPicksWinners` | src/datastore/idlist_membership/namespaces.rs:85-115 | the union names exactly the lists some key names, each with the winner of its candidates |
| `CompanyManifests.CandidateSources` | src/datastore/idlist_membership/namespaces.rs:85-115 | the candidates of a list are exactly the entries of the company keys that have it |
| `CompanyManifests.UnionIsMaximum` | src/datastore/idlist_membership/namespaces.rs:85-115 | with one creation time per file, the entry of the union is the maximum over every key of the company that lists the name |
| `CompanyManifests.KeyOrderDoesNotMatter` | src/datastore/idlist_membership/namespaces.rs:85-115 | then no order of visiting the keys, the sorted one among them, changes a name or a chosen version |
| `CompanyManifests.FindOwners` | src/datastore/idlist_membership/namespaces.rs:59-72 | the owner map claims exactly the discovered company ids per namespace |
| `CompanyManifests.TwoOwnersIff` | src/datastore/idlist_membership/namespaces.rs:73-83 | the filter keeps exactly the namespaces that two different companies own |
| `CompanyManifests.CollidesIff` | src/datastore/idlist_membership/namespaces.rs:73-83 | some namespace has two owners if and only if the hash is not injective on discovered companies |
| `CompanyManifests.MissingCounts` | src/datastore/idlist_membership/namespaces.rs:89-101 | the unavailable count is the number of configured keys without company or manifest |
| `CompanyManifests.UnionManifests` | src/datastore/idlist_membership/namespaces.rs:54-124 | collisions if and only if the hash collides, naming every shared namespace with all its owners; otherwise exact names, lists, incomplete flags and unavailable count |
| `SyncProducer.PlannerIsSafe` | src/datastore/idlist_membership/redis_syncer/planning.rs:99-171 | the planner never removes, never goes back to an older file, and resumes only within one file with the exact lag |
| `SyncProducer.PlannerMeans` | src/datastore/idlist_membership/redis_syncer/planning.rs:99-171 | the whole decision: full load without a version, for a newer file, damage or a rebuild; the exact growth if only that is missing; else nothing |
| `SyncProducer.PlannerIsAsked` | src/datastore/idlist_membership/redis_syncer.rs:272-299 | the planner is asked about the committed state, the manifest entry, and whether the member set of that version exists |
| `SyncProducer.PlanLists` | src/datastore/idlist_membership/redis_syncer.rs:272-307 | the tasks are exactly what the planner answers for the lists of the manifest |
| `SyncProducer.PlanRemovals` | src/datastore/idlist_membership/redis_syncer.rs:309-322 | removals are exactly the known lists absent from a complete manifest |
| `SyncProducer.PlanCompany` | src/datastore/idlist_membership/redis_syncer.rs:270-339 | one company: exact tasks, and the ready key and reverse marker only when complete and idle |
| `SyncProducer.OrderAndDedupe` | src/datastore/idlist_membership/redis_syncer/planning.rs:177-203 | each list once with its most urgent task, in priority order, scores strictly increasing below 2^40 tasks |
| `SyncProducer.ScheduleMeans` | src/datastore/idlist_membership/redis_syncer/planning.rs:177-203 | full loads before deltas before removals, larger lag first, then by name; scores are the base of the class plus the position in it |
| `SyncProducer.EnqueueTasks` | src/datastore/idlist_membership/redis_syncer.rs:360-418 | over all chunks the count is the growth of the queue; each worker finds remove for a removal and load otherwise, the file fields of a load or the earlier ones, and an expiry of ten intervals, at least 60s |
| `SyncProducer.EnqueuedExactly` | src/datastore/idlist_membership/redis_syncer.rs:360-418 | for one list: a queued member keeps its score, a new one gets its own; a load rewrites the file fields, a removal keeps the old ones, and the expiry is renewed |
| `SyncProducer.RemovalsAreJustified` | src/datastore/idlist_membership/redis_syncer.rs:309-322 | a removal is derived only when every configured key is resolved, all manifests of the company are present and none has the list |
| `SyncProducer.GoneListIsRemoved` | src/datastore/idlist_membership/redis_syncer.rs:309-322 | a known list that no key of a complete company has any more is removed |
| `SyncProducer.ListedIsPlanned` | src/datastore/idlist_membership/redis_syncer.rs:272-307 | a listed list gets the task the planner answers for the winning entry |
| `SyncProducer.ProduceLocked` | src/datastore/idlist_membership/redis_syncer.rs:242-354 | a whole tick: collision writes nothing; tasks are exactly those called for; removals justified; ready and reverse markers exact; queue growth counted |
| `BackupCache.EveryRunIsConfirmed` | src/datastore/caching/redis_cache.rs:77-109 | whatever a pod writes, renews or remembers it received itself, and what is stored came from the origin as it is |
| `BackupCache.RenewalIsGuarded` | src/datastore/caching/redis_cache.rs:328-383 | in every reachable state a touch or skipped write changes no lcut or config and extends only a version its own pod received |
| `BackupCache.StoredAsReceived` | src/datastore/caching/redis_cache.rs:463-627 | over every run a stored lcut and config came in one payload; right after a write the entry is that of the writing update, for the full time to live |
| `BackupCache.ReceiptsComeFromEvents` | src/datastore/caching/redis_cache.rs:77-109 | a payload counts as received if and only if an update event brought it |
| `BackupCache.CheckDecides` | src/datastore/caching/redis_cache.rs:470-509 | a context that ignores lcut is always written; any other exactly by the leading pod if nothing as new is stored; a leader is elected where there is none |
| `BackupCache.FailedCheckDecides` | src/datastore/caching/redis_cache.rs:504-512 | a failed check stops exactly the contexts that use lcut |
| `BackupCache.LeaderLasts` | src/datastore/caching/redis_cache.rs:470-489 | only its expiry ends a leadership; a write renews it; a follower gives a key without expiry one |
| `BackupCache.RenewalExtendsIff` | src/datastore/caching/redis_cache.rs:38-43 | a renewal extends the entry to the full time to live if and only if it holds the renewing version |
| `BackupCache.TouchesAndDeletes` | src/datastore/caching/redis_cache.rs:223-263 | a touch renews what its pod last received for the context; a deletion drops its key alone |
| `BackupCache.ReceiveNotes` | src/datastore/caching/redis_cache.rs:77-109 | a payload is noted as the newest of its context and queued as it came |
| `BackupCache.NextKeyFollows` | src/datastore/caching/redis_cache.rs:463-627 | each key of an update is dealt with once, then the next one is checked anew |
| `BackupCache.AbandonedVersionExpires` | src/datastore/caching/redis_cache.rs:38-43 | once all pods have moved on from a stored version nothing prolongs it and it is gone by its deadline |
| `BackupCache.PendingWriteLowersIff` | src/datastore/caching/redis_cache.rs:463-627 | in every reachable state, a decided write of an lcut-using context would lower the stored lcut if and only if what it overwrites was written after its check with a larger lcut; if the key was not written since, the lcut strictly rises |
| `BackupCache.StepLowersIff` | src/datastore/caching/redis_cache.rs:463-627 | in every reachable state, of all steps exactly such overtaken writes lower a stored lcut |
| `BackupCache.NeverLowersIff` | src/datastore/caching/redis_cache.rs:463-627 | over every run from the start the stored lcut never goes back if and only if no write is overtaken |
| `BackupCache.StepIsSafeIff` | src/datastore/caching/redis_cache.rs:463-627 | at every point of a run of level checks, a step lowers nothing now or in any such continuation if and only if it is no check that decides to write while another decided write carries another lcut |
| `BackupCache.UnlevelCheckLowers` | src/datastore/caching/redis_cache.rs:463-627 | after any other check, two writes lower the stored lcut |
| `BackupCache.VersionNeverGoesBack` | src/datastore/caching/redis_cache.rs:463-627 | from the start and from every later point of a run of level checks (one update of the key at a time is a special case) the stored lcut never goes back |
| `BackupCache.InterleavedWriteGoesBack` | src/datastore/caching/redis_cache.rs:463-627 | with a lapsed leader between check and write, a stored lcut of 20 is replaced by 10 |
| `BackupCache.OnePodGoesBack` | src/datastore/caching/redis_cache.rs:463-627 | the same in a single pod that leads throughout, with two contexts that share the key |
| `LogEventDedupe.Store.CheckKey` | src/datastore/log_event_store.rs:120-134 | new exactly when the hash is not in the cache, after a full cache was emptied |
| `LogEventDedupe.Store.ProcessEvent` | src/datastore/log_event_store.rs:136-151 | one event: invalid dropped, unkeyed kept, keyed decided by the cache |
| `LogEventDedupe.Store.DedupeEvents` | src/datastore/log_event_store.rs:91-107 | the retain loop leaves exactly the kept events and the resulting cache, and in = out + deduped |
| `LogEventDedupe.KeptIsSubsequence` | src/datastore/log_event_store.rs:91-107 | kept events are an order-preserving subsequence from exactly the kept positions |
| `LogEventDedupe.InvalidDroppedUnkeyedKept` | src/datastore/log_event_store.rs:136-151 | no invalid event survives, every event without a key does, in order |
| `LogEventDedupe.BatchesCompose` | src/datastore/log_event_store.rs:91-107 | one batch or two in a row keep the same events and leave the same cache |
| `LogEventDedupe.CacheIsKnown` | src/datastore/log_event_store.rs:120-134 | the cache holds exactly the hashes seen since the last clear |
| `LogEventDedupe.DroppedIff` | src/datastore/log_event_store.rs:120-134 | a keyed event is dropped if and only if its hash was seen and no clear came since |
| `LogEventDedupe.RepeatNeedsClear` | src/datastore/log_event_store.rs:120-134 | two events with one hash, the later kept, have a clear between them |
| `LogEventDedupe.ClearsAreFarApart` | src/datastore/log_event_store.rs:120-134 | between two clears at least limit distinct hashes are admitted |
| `LogEventDedupe.CacheIsBounded` | src/datastore/log_event_store.rs:120-134 | the cache never exceeds its limit (or one) |
| `RangeServing.FileStore.Update` | src/datastore/id_list_file_store.rs:114-134 | a body or backup body replaces, an unauthorized result drops, anything else keeps |
| `RangeServing.FileStore.GetOrFetch` | src/datastore/id_list_file_store.rs:92-105 | a satisfying body is returned unfetched; otherwise whatever the fetch leaves behind |
| `RangeServing.HitResponses` | src/servers/http_server.rs:268-295 | a hit reaches the hint; 206 body and Content-Range complete the prefix; 416 if and only if start = cached length = hint (RFC 9110 sections 14.4, 15.3.7, 15.5.17) |
| `RangeServing.SatisfiesIff` | src/datastore/id_list_file_store.rs:38-68 | a cached body answers if and only if it reaches the hint and has a byte to send, or the client has it all |
| `RangeServing.PayloadCases` | src/servers/http_server.rs:268-295 | 200, 206 with its range, or 416 with the complete length, for every body |
| `RangeServing.MissServesFetch` | src/datastore/id_list_file_store.rs:92-105 | after a miss: what the fetch brought, unauthorized if revoked, else what was there |
| `RangeServing.OtherFiles` | src/datastore/id_list_file_store.rs:92-134 | no file but the requested one is touched, and nothing is served without a file id |
| `RangeServing.PollOutcome` | src/datastore/id_list_file_store.rs:38-68 | a client holding a prefix is left with what it had or with the whole body of the pod |
| `RangeServing.ClientHoldsAPrefix` | src/datastore/id_list_file_store.rs:38-68 | over every run with an append-only origin, stale copies and evictions included, the client holds a beginning of the file |
| `RangeServing.RangedClientNeverShrinks` | src/datastore/id_list_file_store.rs:38-68 | a client that only sends range requests never loses a byte |
| `RangeServing.PollReachesHintIff` | src/datastore/id_list_file_store.rs:38-105 | a poll leaves the client at the hinted size if and only if it hits, fetches that much, or the client was there and keeps it |
| `RateLimiter.Limiter.constructor` | src/utils/rate_limiter.rs:12-19 | starts full |
| `RateLimiter.Limiter.TryAcquire` | src/utils/rate_limiter.rs:21-34 | one attempt refills, caps and takes a token exactly when there is a whole one |
| `RateLimiter.RunKeepsInv` | src/utils/rate_limiter.rs:21-34 | in every run the tokens stay between zero and the capacity |
| `RateLimiter.TokensAreConserved` | src/utils/rate_limiter.rs:21-34 | tokens held plus earned = grants + tokens left + overflow |
| `RateLimiter.RefillIsExact` | src/utils/rate_limiter.rs:21-26 | a refill earns rate times elapsed time up to a full bucket |
| `RateLimiter.OverflowNeedsFullBucket` | src/utils/rate_limiter.rs:21-26 | tokens are lost only from a full bucket |
| `RateLimiter.WindowBound` | src/utils/rate_limiter.rs:21-34 | in every window of every run grants are at most capacity + rate times its length |
| `RateLimiter.FreshWindowBound` | src/utils/rate_limiter.rs:12-34 | the same bound for a limiter as the program builds it, with the rate as capacity |
| `RateLimiter.RefusalMeansSpent` | src/utils/rate_limiter.rs:21-34 | a refused run that never overflowed was granted all but a fraction of one token of what it earned |
| `RateLimiter.WaitingIsRewarded` | src/utils/rate_limiter.rs:21-34 | with room for a token, an attempt that waited for a whole one is granted |
| `RateLimiter.GrantsEverIff` | src/utils/rate_limiter.rs:12-34 | a limiter can ever grant if and only if its rate is at least one |

## Left out

- HTTP, gRPC, TLS, CLI and environment parsing, metrics, logging and key redaction: plumbing without state of their own.
- Compression, serde, regexes, SHA-256 and the inner protobuf codec: foreign; the codec is any encoder with a decoding left inverse, frames are for encodings of at most 2^64 - 1 bytes, and the encode-failure answer of the assembly cannot arise with a growable buffer.
- The decompression and top-level parse in `parse_payload_to_protos`: a delta payload arrives as parsed or not parsed.
- The hash behind dispatch rank and poll jitter, the dedupe key text and its minute rounding: arbitrary functions or inputs.
- Redis key naming, the prefix and the backup read path: keys are arbitrary strings, and reads do not change the shared state.
- The id-list worker modules and the work lock: the producer tick is modelled as the only writer while it runs.
- Redis command failures inside a producer tick and its removal metric: the tick is modelled on the path where every command succeeds.
- The internals of the connection pool: only open, check-out, check-in and reaping with the program's hooks.
- Interleavings inside one store update, concurrent access to the dedupe map, and task cancellation: each notification or batch is one step.
- Floating-point rounding in the rate limiter and in queue scores.
- The endless refresh, poll and producer loops are machine steps, not methods; only loops that end are methods.
- SingleFlight.FetchesAreSingleFlighted: stated for one request key, because every step touches the entry of its own key only; evictions are modelled as timers that fire at or after their due time.
- BackupCache.NeverLowersIff: for contexts that use lcut and with the check of the stored lcut switched on; switched off, the leader writes whatever it received.
- CompanyManifests.WinnerIsMaximum: needs one creation time per file id within a list name; without it the claim is false (RuleCanCycle).
- RequestBackoff.BackoffIsExponentialIff: needs a maximum delay that is a representable duration, which every policy of the program has.
