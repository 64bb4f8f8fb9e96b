/**
 The registered poll pointers and the stored configs, and what every poll result does to both.

 One notification (both stores updated in observer order) is one atomic step; interleavings inside
 a single store update are not modelled.
 */
module VersionedStores {
  import opened Common

  datatype Context = Context(id: string, useLcut: bool)

  datatype Config = Config(lcut: nat, body: string)

  /** The result kinds that observers are told about, with what they carry. */
  datatype Response = Data(lcut: nat, body: string) | Backup(lcut: nat, body: string) | Unauthorized | ClientError

  /** What one poll of the origin came back with. */
  datatype PollResult =
    | DataAvailable(lcut: nat, body: Option<string>)
    | NoDataAvailable
    | UpstreamError(backup: Option<Config>)
    | NotAuthorized
    | BadRequest

  // ----- The two stores -----

  type KeyStore = map<Context, nat>

  function Registered(ks: KeyStore, ctx: Context, r: Response): KeyStore {
    match r
    case Data(lcut, _) =>
      if !ctx.useLcut || ctx !in ks || ks[ctx] < lcut then ks[ctx := lcut] else ks
    case Unauthorized => ks - {ctx}
    case Backup(_, _) => ks
    case ClientError => ks
  }

  function Stored(store: map<Context, Config>, ctx: Context, r: Response): map<Context, Config> {
    match r
    case Unauthorized => store - {ctx}
    case ClientError => store
    case _ =>
      if ctx !in store || store[ctx].lcut < r.lcut then store[ctx := Config(r.lcut, r.body)] else store
  }

  class SdkKeyStore {
    var keystore: KeyStore

    constructor ()
      ensures keystore == map[]
    {
      keystore := map[];
    }

    method Update(ctx: Context, r: Response)
      modifies this
      ensures keystore == Registered(old(keystore), ctx, r)
    {
      match r
      case Data(lcut, _) =>
        if !ctx.useLcut || ctx !in keystore || keystore[ctx] < lcut {
          keystore := keystore[ctx := lcut];
        }
      case Unauthorized =>
        keystore := keystore - {ctx};
      case Backup(_, _) =>
      case ClientError =>
    }

    /** Registering by hand can only raise a pointer. */
    method Upsert(ctx: Context, lcut: nat)
      modifies this
      ensures keystore.Keys == old(keystore).Keys + {ctx}
      ensures keystore[ctx] == if ctx in old(keystore) then Max(old(keystore)[ctx], lcut) else lcut
      ensures keystore - {ctx} == old(keystore) - {ctx}
    {
      if ctx in keystore {
        if lcut > keystore[ctx] {
          keystore := keystore[ctx := lcut];
        }
      } else {
        keystore := keystore[ctx := lcut];
      }
    }

    /** Every registered context exactly once, with its pointer, in some order. */
    method GetRegisteredStore() returns (items: seq<(Context, nat)>)
      ensures |items| == |keystore|
      ensures forall ctx, lcut :: (ctx, lcut) in items <==> ctx in keystore && keystore[ctx] == lcut
    {
      items := [];
      var rest := keystore.Keys;
      while rest != {}
        invariant rest <= keystore.Keys && |items| + |rest| == |keystore.Keys|
        invariant forall ctx, lcut :: (ctx, lcut) in items <==> ctx in keystore.Keys - rest && keystore[ctx] == lcut
      {
        var ctx :| ctx in rest;
        items := items + [(ctx, keystore[ctx])];
        rest := rest - {ctx};
      }
    }
  }

  class ConfigSpecStore {
    var store: map<Context, Config>

    constructor ()
      ensures store == map[]
    {
      store := map[];
    }

    method Update(ctx: Context, r: Response)
      modifies this
      ensures store == Stored(old(store), ctx, r)
    {
      if r.Backup? || r.Data? {
        if ctx !in store {
          store := store[ctx := Config(r.lcut, r.body)];
          return;
        }
        var storedLcut := store[ctx].lcut;
        if r.lcut > storedLcut {
          store := store[ctx := Config(r.lcut, r.body)];
        }
      } else if r.Unauthorized? {
        store := store - {ctx};
      }
    }

    method Get(ctx: Context, since: nat) returns (r: Option<Reply>)
      ensures r == Answer(store, ctx, since)
    {
      if ctx !in store {
        return None;
      }
      var record := store[ctx];
      if record.lcut > since {
        return Some(Full(record.lcut, record.body));
      }
      return Some(NoUpdate(record.lcut));
    }
  }

  datatype Reply = Full(lcut: nat, body: string) | NoUpdate(lcut: nat)

  function Answer(store: map<Context, Config>, ctx: Context, since: nat): Option<Reply> {
    if ctx !in store then None
    else if store[ctx].lcut > since then Some(Full(store[ctx].lcut, store[ctx].body))
    else Some(NoUpdate(store[ctx].lcut))
  }

  // ----- Poll results -----

  datatype State = State(keystore: KeyStore, store: map<Context, Config>)

  function Notify(s: State, ctx: Context, r: Response): State {
    State(Registered(s.keystore, ctx, r), Stored(s.store, ctx, r))
  }

  /** A finished poll of `ctx` that asked for anything newer than `requested`. */
  datatype Poll = Poll(ctx: Context, requested: nat, result: PollResult, clearOnUnauthorized: bool)

  function ProcessResult(s: State, p: Poll): State {
    match p.result
    case DataAvailable(lcut, body) =>
      if body.Some? && (!p.ctx.useLcut || p.requested != lcut) then Notify(s, p.ctx, Data(lcut, body.value)) else s
    case NoDataAvailable => s
    case UpstreamError(backup) =>
      if backup.Some? then Notify(s, p.ctx, Backup(backup.value.lcut, backup.value.body)) else s
    case NotAuthorized => if p.clearOnUnauthorized then Notify(s, p.ctx, Unauthorized) else s
    case BadRequest => Notify(s, p.ctx, ClientError)
  }

  function Run(s: State, polls: seq<Poll>): State
    decreases |polls|
  {
    if polls == [] then s else Run(ProcessResult(s, polls[0]), polls[1..])
  }

  /** The pointer a poll starts from never outruns what is stored to answer clients. */
  ghost predicate PointersBacked(s: State) {
    forall ctx | ctx in s.keystore && ctx.useLcut :: ctx in s.store && s.keystore[ctx] <= s.store[ctx].lcut
  }

  lemma {:induction false} PointersStayBacked(s: State, polls: seq<Poll>)
    requires PointersBacked(s)
    ensures PointersBacked(Run(s, polls))
    decreases |polls|
  {
    if polls != [] {
      PointersStayBacked(ProcessResult(s, polls[0]), polls[1..]);
    }
  }

  predicate Removes(p: Poll, ctx: Context) {
    p.ctx == ctx && p.result.NotAuthorized? && p.clearOnUnauthorized
  }

  /** A stored version only moves forward, and a version number is never re-used for other content. */
  ghost predicate Advances(old_: map<Context, Config>, new_: map<Context, Config>, ctx: Context) {
    ctx in old_ ==> ctx in new_ && (new_[ctx] == old_[ctx] || old_[ctx].lcut < new_[ctx].lcut)
  }

  lemma {:induction false} StoreAdvances(s: State, polls: seq<Poll>, ctx: Context)
    requires forall p | p in polls :: !Removes(p, ctx)
    ensures Advances(s.store, Run(s, polls).store, ctx)
    decreases |polls|
  {
    if polls != [] {
      assert polls[0] in polls;
      StoreAdvances(ProcessResult(s, polls[0]), polls[1..], ctx);
    }
  }

  /** Data newer than the poll's own pointer is never dropped: afterwards the store is at least that new. */
  lemma NewDataArrives(s: State, ctx: Context, requested: nat, lcut: nat, body: string, clear: bool, polls: seq<Poll>)
    requires (ctx.useLcut ==> requested != lcut) && forall p | p in polls :: !Removes(p, ctx)
    ensures var s' := Run(ProcessResult(s, Poll(ctx, requested, DataAvailable(lcut, Some(body)), clear)), polls);
            ctx in s'.store && lcut <= s'.store[ctx].lcut
  {
    StoreAdvances(ProcessResult(s, Poll(ctx, requested, DataAvailable(lcut, Some(body)), clear)), polls, ctx);
  }

  // ----- Clients -----

  /** A client's copy; it starts at time 0 with nothing and keeps the last full payload it got. */
  function Refetched(copy: Config, r: Option<Reply>): Config {
    match r
    case Some(Full(lcut, body)) => Config(lcut, body)
    case _ => copy
  }

  /** Between its polls a client sees any batch of finished origin polls. */
  function Session(s: State, ctx: Context, copy: Config, batches: seq<seq<Poll>>): (State, Config)
    decreases |batches|
  {
    if batches == [] then (s, copy)
    else
      var s' := Run(s, batches[0]);
      Session(s', ctx, Refetched(copy, Answer(s'.store, ctx, copy.lcut)), batches[1..])
  }

  /** The copy is what the store holds, or the store holds something strictly newer. */
  ghost predicate Coherent(store: map<Context, Config>, ctx: Context, copy: Config) {
    ctx in store && (store[ctx] == copy || copy.lcut < store[ctx].lcut)
  }

  /**
   Cache coherence over whole sessions: a client that keeps asking with the lcut it last received
   never goes back in time, and after each poll its copy is exactly the stored config.
   */
  lemma {:induction false} SessionStaysCoherent(s: State, ctx: Context, copy: Config, batches: seq<seq<Poll>>)
    requires Coherent(s.store, ctx, copy)
    requires forall b, p | b in batches && p in b :: !Removes(p, ctx)
    ensures var (s', copy') := Session(s, ctx, copy, batches);
            && copy.lcut <= copy'.lcut && Coherent(s'.store, ctx, copy')
            && (batches != [] ==> copy' == s'.store[ctx])
    decreases |batches|
  {
    if batches != [] {
      assert batches[0] in batches;
      StoreAdvances(s, batches[0], ctx);
      var s' := Run(s, batches[0]);
      SessionStaysCoherent(s', ctx, Refetched(copy, Answer(s'.store, ctx, copy.lcut)), batches[1..]);
    }
  }

  /**
   A new client is given the stored config exactly when that config carries a time;
   one stored at time 0 is never sent.
   */
  lemma FirstPollServesIff(store: map<Context, Config>, ctx: Context)
    requires ctx in store
    ensures Refetched(Config(0, ""), Answer(store, ctx, 0)) == store[ctx] <==>
            store[ctx].lcut > 0 || store[ctx].body == ""
  {
  }

  /** Such an entry can be there: a backup without a time is stored at 0, and stays hidden from new clients. */
  lemma BackupAtZeroIsHidden(ctx: Context, body: string)
    requires body != ""
    ensures var s := Run(State(map[], map[]), [Poll(ctx, 0, UpstreamError(Some(Config(0, body))), false)]);
            && ctx in s.store && s.store[ctx] == Config(0, body)
            && Refetched(Config(0, ""), Answer(s.store, ctx, 0)) == Config(0, "")
  {
    var p := Poll(ctx, 0, UpstreamError(Some(Config(0, body))), false);
    assert Run(State(map[], map[]), [p]) == ProcessResult(State(map[], map[]), p) by {
      assert [p][1..] == [];
    }
  }

  // ----- What each result leaves -----

  /** Newer data is stored with the body it came with, raises the pointer, and is only ever replaced by newer. */
  lemma NewerDataIsStored(s: State, ctx: Context, requested: nat, lcut: nat, body: string, clear: bool,
                          polls: seq<Poll>)
    requires (ctx.useLcut ==> requested != lcut) && (ctx in s.store ==> s.store[ctx].lcut < lcut)
    requires forall p | p in polls :: !Removes(p, ctx)
    ensures var s1 := ProcessResult(s, Poll(ctx, requested, DataAvailable(lcut, Some(body)), clear));
            && ctx in s1.store && s1.store[ctx] == Config(lcut, body)
            && ctx in s1.keystore
            && s1.keystore[ctx] == (if ctx.useLcut && ctx in s.keystore then Max(s.keystore[ctx], lcut) else lcut)
            && ctx in Run(s1, polls).store
            && (Run(s1, polls).store[ctx] == Config(lcut, body) || lcut < Run(s1, polls).store[ctx].lcut)
  {
    StoreAdvances(ProcessResult(s, Poll(ctx, requested, DataAvailable(lcut, Some(body)), clear)), polls, ctx);
  }

  /** A backup is stored like data where it is newer, and never moves the pointer. */
  lemma BackupIsStored(s: State, ctx: Context, requested: nat, backup: Config, clear: bool)
    ensures var s1 := ProcessResult(s, Poll(ctx, requested, UpstreamError(Some(backup)), clear));
            && s1.keystore == s.keystore && ctx in s1.store
            && s1.store[ctx] == if ctx in s.store && backup.lcut <= s.store[ctx].lcut then s.store[ctx] else backup
  {
  }

  /**
   An unauthorized context is forgotten by both stores if so configured; other results without data
   change nothing.
   */
  lemma OtherResults(s: State, ctx: Context, requested: nat, clear: bool, r: PollResult)
    requires r.NotAuthorized? || r.NoDataAvailable? || r.BadRequest? || r == UpstreamError(None)
             || (r.DataAvailable? && (r.body.None? || (ctx.useLcut && r.lcut == requested)))
    ensures var s1 := ProcessResult(s, Poll(ctx, requested, r, clear));
            if r.NotAuthorized? && clear then ctx !in s1.keystore && Answer(s1.store, ctx, requested) == None
            else s1 == s
  {
  }

  /** A result is about its own context only. */
  lemma OtherContexts(s: State, p: Poll, other: Context)
    requires p.ctx != other
    ensures var s1 := ProcessResult(s, p);
            && (other in s1.store <==> other in s.store) && (other in s.store ==> s1.store[other] == s.store[other])
            && (other in s1.keystore <==> other in s.keystore)
            && (other in s.keystore ==> s1.keystore[other] == s.keystore[other])
  {
  }

  /** What the origin sent for a context, as data or through the backup. */
  predicate Sent(p: Poll, ctx: Context, c: Config) {
    p.ctx == ctx && (p.result == DataAvailable(c.lcut, Some(c.body)) || p.result == UpstreamError(Some(c)))
  }

  /** Over every run, what is stored for a context is a version some poll of it brought, body and all. */
  lemma {:induction false} StoredWasSent(s: State, polls: seq<Poll>, ctx: Context)
    requires ctx in Run(s, polls).store
    ensures var c := Run(s, polls).store[ctx];
            (ctx in s.store && s.store[ctx] == c) || exists p | p in polls :: Sent(p, ctx, c)
    decreases |polls|
  {
    if polls != [] {
      var s1, c := ProcessResult(s, polls[0]), Run(s, polls).store[ctx];
      StoredWasSent(s1, polls[1..], ctx);
      assert polls[0] in polls;
      if p :| p in polls[1..] && Sent(p, ctx, c) {
        assert p in polls;
      } else if !(ctx in s.store && s.store[ctx] == c) {
        assert Sent(polls[0], ctx, c);
      }
    }
  }
}
