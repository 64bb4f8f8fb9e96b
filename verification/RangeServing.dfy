/** Serving append-only id-list files: the byte cache, range requests, and the client that follows a file. */
module RangeServing {
  import opened Common

  type Bytes = seq<bv8>

  /** The parts of a download request that matter here. */
  datatype Request = Request(fileId: Option<string>, rangeStart: Option<nat>, sizeHint: Option<nat>)

  datatype ContentRange = ContentRange(first: nat, last: nat, completeLength: nat)

  datatype Response =
    | Complete(data: Bytes)                                // 200
    | Partial(data: Bytes, contentRange: ContentRange)     // 206
    | RangeNotSatisfiable(completeLength: nat)             // 416
    | Unauthorized                                         // 401

  /** What a completed fetch tells the store, if it tells it anything. */
  datatype Notice = Body(data: Bytes) | Revoked | Nothing

  predicate Satisfies(cached: Bytes, rc: Request) {
    match rc.rangeStart
    case Some(start) =>
      if rc.sizeHint.None? then |cached| > start
      else
        && (|cached| > start || (|cached| == start && rc.sizeHint == Some(|cached|)))
        && |cached| >= rc.sizeHint.value
    case None => rc.sizeHint.Some? ==> |cached| >= rc.sizeHint.value
  }

  function BuildPayload(rc: Request, data: Bytes): Response {
    if rc.rangeStart.None? then Complete(data)
    else
      var start := Min(rc.rangeStart.value, U64_MAX);
      if start >= |data| then RangeNotSatisfiable(|data|)
      else Partial(data[start..], ContentRange(start, |data| - 1, |data|))
  }

  function Stored(files: map<string, Bytes>, rc: Request): Option<Bytes> {
    if rc.fileId.Some? && rc.fileId.value in files then Some(files[rc.fileId.value]) else None
  }

  function Hit(files: map<string, Bytes>, rc: Request): Option<Bytes> {
    var found := Stored(files, rc);
    if found.Some? && Satisfies(found.value, rc) then found else None
  }

  function Updated(files: map<string, Bytes>, rc: Request, notice: Notice): map<string, Bytes> {
    if rc.fileId.None? then files
    else match notice
      case Body(data) => files[rc.fileId.value := data]
      case Revoked => files - {rc.fileId.value}
      case Nothing => files
  }

  /** The cache after a request, given what a fetch would report if one is needed. */
  function FilesAfter(files: map<string, Bytes>, rc: Request, notice: Notice): map<string, Bytes> {
    if Hit(files, rc).Some? then files else Updated(files, rc, notice)
  }

  function Respond(files: map<string, Bytes>, rc: Request, notice: Notice): Response {
    var body := Stored(FilesAfter(files, rc, notice), rc);
    if body.None? then Unauthorized else BuildPayload(rc, body.value)
  }

  class FileStore {
    var files: map<string, Bytes>

    constructor ()
      ensures files == map[]
    {
      files := map[];
    }

    method Update(rc: Request, notice: Notice)
      modifies this
      ensures files == Updated(old(files), rc, notice)
    {
      if rc.fileId.None? {
        return;
      }
      match notice
      case Body(data) => files := files[rc.fileId.value := data];
      case Revoked => files := files - {rc.fileId.value};
      case Nothing =>
    }

    /** A body that satisfies the request is returned as it is; otherwise whatever the fetch leaves behind. */
    method GetOrFetch(rc: Request, notice: Notice) returns (body: Option<Bytes>)
      modifies this
      ensures files == FilesAfter(old(files), rc, notice)
      ensures body == Stored(files, rc)
      ensures (if body.None? then Unauthorized else BuildPayload(rc, body.value)) == Respond(old(files), rc, notice)
    {
      body := if rc.fileId.Some? && rc.fileId.value in files then Some(files[rc.fileId.value]) else None;
      if body.Some? && Satisfies(body.value, rc) {
        return;
      }
      if rc.fileId.None? {
        return None;
      }
      Update(rc, notice);
      body := if rc.fileId.value in files then Some(files[rc.fileId.value]) else None;
    }
  }

  predicate FitsU64(rc: Request) {
    rc.rangeStart.Some? ==> rc.rangeStart.value <= U64_MAX
  }

  /** What a hit promises: 200 and 206 reach the hint, and 416 only says that the client already has it all. */
  lemma HitResponses(files: map<string, Bytes>, rc: Request, notice: Notice)
    requires FitsU64(rc) && Hit(files, rc).Some?
    ensures var body, r := Hit(files, rc).value, Respond(files, rc, notice);
            && (rc.sizeHint.Some? ==> |body| >= rc.sizeHint.value)
            && (r.Complete? <==> rc.rangeStart.None?)
            && (r.Complete? ==> r.data == body)
            && (r.RangeNotSatisfiable? <==> rc.rangeStart == rc.sizeHint == Some(|body|))
            && (r.Partial? <==> rc.rangeStart.Some? && rc.rangeStart.value < |body|)
            && (r.Partial? ==>
                  && body[..rc.rangeStart.value] + r.data == body
                  && r.contentRange.first == rc.rangeStart.value
                  && r.contentRange.last - r.contentRange.first + 1 == |r.data|
                  && r.contentRange.last + 1 == r.contentRange.completeLength == |body|)
  {
  }

  // A client following one append-only file through any number of pods

  /** `origin` only grows; a pod's cache maps file ids to bodies; `client` is what one client holds. */
  datatype System = System(origin: Bytes, pods: map<nat, map<string, Bytes>>, client: Bytes)

  /** A fetch reports the origin, or another pod's or the backup's older copy: some version of the file. */
  datatype Fetched = Version(length: nat) | Rejected | Silent

  datatype Event =
    | OriginAppends(more: Bytes)
    | PodFetches(pod: nat, fetched: Fetched)
    | PodEvicts(pod: nat)
    | ClientPolls(pod: nat, ranged: bool, hint: Option<nat>, fetched: Fetched)

  function NoticeOf(origin: Bytes, fetched: Fetched): Notice {
    match fetched
    case Version(length) => Body(origin[..Min(length, |origin|)])
    case Rejected => Revoked
    case Silent => Nothing
  }

  function FilesOf(s: System, pod: nat): map<string, Bytes> {
    if pod in s.pods then s.pods[pod] else map[]
  }

  /** The client asks for what follows the bytes it holds, or for the whole file. */
  function PollRequest(s: System, file: string, ranged: bool, hint: Option<nat>): Request {
    Request(Some(file), if ranged then Some(|s.client|) else None, hint)
  }

  /** A 206 is appended, a 200 replaces, and any other answer changes nothing. */
  function Absorb(client: Bytes, r: Response): Bytes {
    match r
    case Complete(data) => data
    case Partial(data, _) => client + data
    case _ => client
  }

  function Step(s: System, file: string, e: Event): System {
    match e
    case OriginAppends(more) => s.(origin := s.origin + more)
    case PodFetches(pod, fetched) =>
      var rc := Request(Some(file), None, None);
      s.(pods := s.pods[pod := Updated(FilesOf(s, pod), rc, NoticeOf(s.origin, fetched))])
    case PodEvicts(pod) => s.(pods := s.pods[pod := FilesOf(s, pod) - {file}])
    case ClientPolls(pod, ranged, hint, fetched) =>
      var rc, notice := PollRequest(s, file, ranged, hint), NoticeOf(s.origin, fetched);
      var files := FilesOf(s, pod);
      s.(pods := s.pods[pod := FilesAfter(files, rc, notice)], client := Absorb(s.client, Respond(files, rc, notice)))
  }

  function Run(s: System, file: string, events: seq<Event>): System {
    if events == [] then s else Step(Run(s, file, events[..|events| - 1]), file, events[|events| - 1])
  }

  /** The client and every pod hold the beginning of the origin's file, which is addressable in 64 bits. */
  predicate Inv(s: System, file: string) {
    && |s.origin| <= U64_MAX
    && s.client <= s.origin
    && forall p :: p in s.pods ==> (file in s.pods[p] ==> s.pods[p][file] <= s.origin)
  }

  /** Appending the tail of a longer version to a shorter one gives the longer version. */
  lemma PrefixesJoin(held: Bytes, body: Bytes, origin: Bytes)
    requires held <= origin && body <= origin && |held| <= |body|
    ensures held + body[|held|..] == body
  {
    assert body[..|held|] == origin[..|held|] == held;
  }

  /** One poll: the client is left with what it had or with the pod's body, never with a mixture. */
  lemma PollOutcome(s: System, file: string, pod: nat, ranged: bool, hint: Option<nat>, fetched: Fetched)
    requires Inv(s, file)
    ensures var rc := PollRequest(s, file, ranged, hint);
            var notice := NoticeOf(s.origin, fetched);
            var body := Stored(FilesAfter(FilesOf(s, pod), rc, notice), rc);
            var held := Absorb(s.client, Respond(FilesOf(s, pod), rc, notice));
            && (body.Some? ==> body.value <= s.origin)
            && held == (if body.None? || (ranged && |body.value| <= |s.client|) then s.client else body.value)
  {
    var rc := PollRequest(s, file, ranged, hint);
    var body := Stored(FilesAfter(FilesOf(s, pod), rc, NoticeOf(s.origin, fetched)), rc);
    if body.Some? && ranged && |s.client| < |body.value| {
      PrefixesJoin(s.client, body.value, s.origin);
    }
  }

  lemma StepKeepsInv(s: System, file: string, e: Event)
    requires Inv(s, file) && |Step(s, file, e).origin| <= U64_MAX
    ensures Inv(Step(s, file, e), file)
    ensures s.origin <= Step(s, file, e).origin
  {
    if e.ClientPolls? {
      PollOutcome(s, file, e.pod, e.ranged, e.hint, e.fetched);
    }
  }

  /** In every run, whatever copies the pods pick up, the client holds a beginning of the file. */
  lemma {:induction false} ClientHoldsAPrefix(s: System, file: string, events: seq<Event>)
    requires Inv(s, file) && |Run(s, file, events).origin| <= U64_MAX
    ensures Inv(Run(s, file, events), file)
    decreases |events|
  {
    if events != [] {
      var n := |events| - 1;
      assert Run(s, file, events) == Step(Run(s, file, events[..n]), file, events[n]);
      assert |Run(s, file, events[..n]).origin| <= |Run(s, file, events).origin|;
      ClientHoldsAPrefix(s, file, events[..n]);
      StepKeepsInv(Run(s, file, events[..n]), file, events[n]);
    }
  }

  predicate Ranged(events: seq<Event>) {
    forall k :: 0 <= k < |events| && events[k].ClientPolls? ==> events[k].ranged
  }

  /** A client that only sends range requests never loses a byte. */
  lemma {:induction false} RangedClientNeverShrinks(s: System, file: string, events: seq<Event>)
    requires Inv(s, file) && Ranged(events) && |Run(s, file, events).origin| <= U64_MAX
    ensures s.client <= Run(s, file, events).client
    decreases |events|
  {
    if events != [] {
      var n := |events| - 1;
      var t := Run(s, file, events[..n]);
      assert |t.origin| <= |Run(s, file, events).origin|;
      ClientHoldsAPrefix(s, file, events[..n]);
      RangedClientNeverShrinks(s, file, events[..n]);
      if events[n].ClientPolls? {
        var e := events[n];
        PollOutcome(t, file, e.pod, e.ranged, e.hint, e.fetched);
      }
    }
  }

  /** The pod holds some body of the file after the poll. */
  predicate LeavesBody(s: System, file: string, pod: nat, fetched: Fetched) {
    fetched.Version? || (fetched.Silent? && file in FilesOf(s, pod))
  }

  /**
   Exactly when a poll with a hint leaves the client at the hinted size: on a hit, on a fetch that
   reaches the hint, or when the client had reached it before and no shorter whole body replaces it.
   */
  lemma PollReachesHintIff(s: System, file: string, pod: nat, ranged: bool, hint: nat, fetched: Fetched)
    requires Inv(s, file) && hint <= |s.origin|
    ensures hint <= |Step(s, file, ClientPolls(pod, ranged, Some(hint), fetched)).client| <==>
            || Hit(FilesOf(s, pod), PollRequest(s, file, ranged, Some(hint))).Some?
            || (fetched.Version? && fetched.length >= hint)
            || (hint <= |s.client| && (ranged || !LeavesBody(s, file, pod, fetched)))
  {
    PollOutcome(s, file, pod, ranged, Some(hint), fetched);
  }

  /**
   A cached body answers a request exactly when it reaches the hint and has a byte to send, or the
   client has it all.
   */
  lemma SatisfiesIff(cached: Bytes, rc: Request)
    ensures Satisfies(cached, rc) <==>
            && (rc.sizeHint.Some? ==> rc.sizeHint.value <= |cached|)
            && (rc.rangeStart.Some? ==>
                  rc.rangeStart.value < |cached| || rc.rangeStart == rc.sizeHint == Some(|cached|))
  {
  }

  /** What any body is answered as, hit or not. */
  lemma PayloadCases(rc: Request, data: Bytes)
    requires FitsU64(rc)
    ensures var r := BuildPayload(rc, data);
            match rc.rangeStart
            case None => r == Complete(data)
            case Some(start) =>
              if start < |data| then
                r.Partial? && data[..start] + r.data == data
                && r.contentRange == ContentRange(start, |data| - 1, |data|)
              else r == RangeNotSatisfiable(|data|)
  {
  }

  /**
   After a miss the client is served what the fetch brought; a revoked file is gone; silence serves
   what was there.
   */
  lemma MissServesFetch(files: map<string, Bytes>, rc: Request, data: Bytes)
    requires rc.fileId.Some? && Hit(files, rc).None?
    ensures Respond(files, rc, Body(data)) == BuildPayload(rc, data)
    ensures Respond(files, rc, Revoked) == Unauthorized
    ensures Respond(files, rc, Nothing) ==
            if rc.fileId.value in files then BuildPayload(rc, files[rc.fileId.value]) else Unauthorized
  {
  }

  /** Nothing is stored or served without a file id, and other files are never touched. */
  lemma OtherFiles(files: map<string, Bytes>, rc: Request, notice: Notice, other: string)
    requires rc.fileId != Some(other)
    ensures var after := FilesAfter(files, rc, notice);
            (other in after <==> other in files) && (other in files ==> after[other] == files[other])
    ensures rc.fileId.None? ==> Respond(files, rc, notice) == Unauthorized
  {
  }
}
