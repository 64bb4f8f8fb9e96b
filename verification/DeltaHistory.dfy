/**
 The bounded, lcut-ordered history of config deltas and the catch-up payload built from it.

 A delta fetched with `sinceTime = since` whose top-level time is `lcut` covers the half-open
 interval (since, lcut]. The store keeps the newest few deltas of each SDK key and serves a
 client that is at `sinceTime` by concatenating every retained delta with lcut >= sinceTime.
 Times are unsigned 64-bit in the program; nothing here adds to them, so naturals are exact.
 */
module DeltaHistory {
  import opened Common
  import opened EnvelopeFraming

  datatype Delta = Delta(since: nat, lcut: nat, envelopes: seq<Envelope>)

  datatype BuildResult =
    | SdkKeyNotRegistered
    | NoCachedDeltas
    | SinceTimeTooOld(earliest: nat)
    | NoUpdates(lcut: nat)
    | Combined(lcut: nat, payload: seq<Byte>)

  // ----- The queue -----

  function Position(q: seq<Delta>, lcut: nat): (p: nat)
    ensures p <= |q|
    ensures forall i | 0 <= i < p :: q[i].lcut <= lcut
    ensures p < |q| ==> q[p].lcut > lcut
  {
    if q == [] || q[0].lcut > lcut then 0 else 1 + Position(q[1..], lcut)
  }

  function Splice(q: seq<Delta>, p: nat, d: Delta): seq<Delta>
    requires p <= |q|
  {
    q[..p] + [d] + q[p..]
  }

  function Insert(q: seq<Delta>, d: Delta): seq<Delta> {
    Splice(q, Position(q, d.lcut), d)
  }

  function Evict(q: seq<Delta>, max: nat): seq<Delta> {
    if |q| <= max then q else q[|q| - max..]
  }

  function Persist(q: seq<Delta>, d: Delta, max: nat): seq<Delta> {
    Evict(Insert(q, d), max)
  }

  function Starts(q: seq<Delta>): set<nat> {
    set d | d in q :: d.since
  }

  /** The smallest `since` of the history. */
  function Earliest(q: seq<Delta>): (e: nat)
    requires q != []
    ensures e in Starts(q) && forall d | d in q :: e <= d.since
  {
    StartsHasLeast(q);
    var e :| e in Starts(q) && forall d | d in q :: e <= d.since;
    e
  }

  lemma {:induction false} StartsHasLeast(q: seq<Delta>)
    requires q != []
    ensures exists e :: e in Starts(q) && forall d | d in q :: e <= d.since
  {
    assert q[0] in q && q[0].since in Starts(q);
    if |q| == 1 {
      assert forall d | d in q :: q[0].since <= d.since;
    } else {
      assert q == [q[0]] + q[1..];
      StartsHasLeast(q[1..]);
      var e :| e in Starts(q[1..]) && forall d | d in q[1..] :: e <= d.since;
      var m := Min(q[0].since, e);
      assert m in Starts(q) && forall d | d in q :: m <= d.since;
    }
  }

  function Latest(q: seq<Delta>): nat
    requires q != []
  {
    q[|q| - 1].lcut
  }

  ghost predicate Sorted(q: seq<Delta>) {
    forall i, j | 0 <= i < j < |q| :: q[i].lcut <= q[j].lcut
  }

  ghost predicate CoveredAt(q: seq<Delta>, t: nat) {
    exists d | d in q :: d.since < t <= d.lcut
  }

  /** Every instant between the earliest retained request and the newest lcut is in some delta. */
  ghost predicate Gapless(q: seq<Delta>) {
    q != [] ==> GaplessFrom(q, Earliest(q))
  }

  ghost predicate GaplessFrom(q: seq<Delta>, from: nat)
    requires q != []
  {
    forall t: nat | from < t <= Latest(q) :: CoveredAt(q, t)
  }

  /**
   The new delta neither starts after the history ends nor ends before it starts. A history that
   covers nothing (every response older than its request) must be spanned or left empty.
   */
  predicate Contiguous(q: seq<Delta>, d: Delta) {
    q == [] ||
    if Earliest(q) <= Latest(q) then
      && (d.since <= Latest(q) || d.lcut <= Latest(q))
      && (Earliest(q) <= d.lcut || Earliest(q) <= d.since)
    else
      || (d.since <= Earliest(q) && Latest(q) <= d.lcut)
      || (d.lcut <= Earliest(q) && Latest(q) <= d.since && d.lcut <= d.since)
  }

  /** The same for what is left after eviction: a full history gives up its oldest entry, or the new delta itself. */
  predicate FitsHistory(q: seq<Delta>, d: Delta, max: nat) {
    if |q| < max || q == [] then Contiguous(q, d) else d.lcut < q[0].lcut || Contiguous(q[1..], d)
  }

  /** p separates the entries that end by d's lcut from those that end later. */
  predicate Separates(q: seq<Delta>, p: nat, d: Delta) {
    && p <= |q|
    && (forall i | 0 <= i < p :: q[i].lcut <= d.lcut)
    && (p < |q| ==> q[p].lcut > d.lcut)
  }

  lemma SpliceAt(q: seq<Delta>, p: nat, d: Delta, i: nat)
    requires p <= |q| && i <= |q|
    ensures |Splice(q, p, d)| == |q| + 1
    ensures Splice(q, p, d)[i] == if i < p then q[i] else if i == p then d else q[i - 1]
  {
  }

  lemma SpliceOrdered(q: seq<Delta>, p: nat, d: Delta)
    requires Sorted(q) && Separates(q, p, d)
    ensures Sorted(Splice(q, p, d))
  {
    var r := Splice(q, p, d);
    forall i, j | 0 <= i < j < |r| ensures r[i].lcut <= r[j].lcut {
      SpliceAt(q, p, d, i);
      SpliceAt(q, p, d, j);
    }
  }

  lemma SpliceContents(q: seq<Delta>, p: nat, d: Delta)
    requires p <= |q|
    ensures multiset(Splice(q, p, d)) == multiset(q) + multiset{d}
  {
    var a, b := q[..p], q[p..];
    assert q == a + b;
    assert multiset(a + [d] + b) == multiset(a + b) + multiset{d};
  }

  lemma SpliceLatest(q: seq<Delta>, p: nat, d: Delta)
    requires Sorted(q) && Separates(q, p, d)
    ensures Latest(Splice(q, p, d)) == if q == [] then d.lcut else Max(Latest(q), d.lcut)
  {
    SpliceAt(q, p, d, |q|);
    assert 0 < p < |q| ==> q[p].lcut <= Latest(q);
  }

  lemma InsertSorted(q: seq<Delta>, d: Delta)
    requires Sorted(q)
    ensures Sorted(Insert(q, d)) && multiset(Insert(q, d)) == multiset(q) + multiset{d}
    ensures Latest(Insert(q, d)) == if q == [] then d.lcut else Max(Latest(q), d.lcut)
  {
    SpliceOrdered(q, Position(q, d.lcut), d);
    SpliceContents(q, Position(q, d.lcut), d);
    SpliceLatest(q, Position(q, d.lcut), d);
  }

  lemma InsertMembers(q: seq<Delta>, d: Delta, x: Delta)
    ensures x in Insert(q, d) <==> x in q || x == d
  {
    SpliceContents(q, Position(q, d.lcut), d);
    assert x in multiset(Insert(q, d)) <==> x in multiset(q) + multiset{d};
  }

  lemma InsertEarliest(q: seq<Delta>, d: Delta)
    requires q != []
    ensures Earliest(Insert(q, d)) == Min(Earliest(q), d.since)
  {
    var r := Insert(q, d);
    forall x ensures x in r <==> x in q || x == d {
      InsertMembers(q, d, x);
    }
  }

  lemma InsertCoverage(q: seq<Delta>, d: Delta, t: nat)
    ensures CoveredAt(Insert(q, d), t) <==> CoveredAt(q, t) || d.since < t <= d.lcut
  {
    forall x ensures x in Insert(q, d) <==> x in q || x == d {
      InsertMembers(q, d, x);
    }
  }

  /** A survivor ends no earlier than anything dropped, so what it does not cover others do. */
  lemma SuffixCovers(q: seq<Delta>, cut: nat, survivor: Delta, t: nat)
    requires Sorted(q) && cut < |q| && CoveredAt(q, t) && survivor in q[cut..] && survivor.since < t
    ensures CoveredAt(q[cut..], t)
  {
    var d :| d in q && d.since < t <= d.lcut;
    if d !in q[cut..] {
      var i :| 0 <= i < |q| && q[i] == d;
      var j :| cut <= j < |q| && q[j] == survivor;
    }
  }

  lemma SuffixGapless(q: seq<Delta>, cut: nat, from: nat, survivor: Delta)
    requires Sorted(q) && cut < |q| && GaplessFrom(q, from) && survivor in q[cut..] && from <= survivor.since
    ensures GaplessFrom(q[cut..], survivor.since)
  {
    forall t: nat | survivor.since < t <= Latest(q[cut..]) ensures CoveredAt(q[cut..], t) {
      SuffixCovers(q, cut, survivor, t);
    }
  }

  lemma EarliestEntry(q: seq<Delta>) returns (first: Delta)
    requires q != []
    ensures first in q && first.since == Earliest(q)
  {
    assert Earliest(q) in Starts(q);
    first :| first in q && first.since == Earliest(q);
  }

  lemma SuffixMember(q: seq<Delta>, cut: nat, d: Delta)
    requires cut <= |q| && d in q[cut..]
    ensures d in q
  {
  }

  lemma EvictKeepsOrder(q: seq<Delta>, max: nat)
    requires Sorted(q) && max >= 1
    ensures var r := Evict(q, max);
            Sorted(r) && |r| <= max && (q != [] ==> r != [] && Latest(r) == Latest(q))
  {
  }

  lemma EarliestOfSuffix(q: seq<Delta>, cut: nat) returns (first: Delta)
    requires cut < |q|
    ensures first in q[cut..] && first.since == Earliest(q[cut..]) && Earliest(q) <= first.since
  {
    first := EarliestEntry(q[cut..]);
    SuffixMember(q, cut, first);
  }

  lemma SuffixStaysGapless(q: seq<Delta>, cut: nat, r: seq<Delta>)
    requires cut < |q| && r == q[cut..] && Sorted(q) && Gapless(q)
    ensures Gapless(r)
  {
    var first := EarliestOfSuffix(q, cut);
    SuffixGapless(q, cut, Earliest(q), first);
  }

  /** Dropping the oldest entries of a sorted history never opens a gap. */
  lemma EvictKeepsGapless(q: seq<Delta>, max: nat)
    requires Sorted(q) && Gapless(q) && max >= 1
    ensures Gapless(Evict(q, max))
  {
    if |q| > max {
      SuffixStaysGapless(q, |q| - max, Evict(q, max));
    }
  }

  /** Inserting keeps a gapless history gapless exactly when the new delta is contiguous with it. */
  lemma InsertKeepsGaplessIff(q: seq<Delta>, d: Delta)
    requires Sorted(q) && Gapless(q)
    ensures Gapless(Insert(q, d)) <==> Contiguous(q, d)
  {
    if Contiguous(q, d) {
      ContiguousStaysGapless(q, d);
    } else {
      InsertSorted(q, d);
      InsertEarliest(q, d);
      var missed := MissedInstant(q, d);
      NothingCoversEnds(q, missed);
      InsertCoverage(q, d, missed);
    }
  }

  function MissedInstant(q: seq<Delta>, d: Delta): nat
    requires q != []
  {
    if Earliest(q) <= Latest(q) then
      if d.since > Latest(q) && d.lcut > Latest(q) then Latest(q) + 1 else Earliest(q)
    else if d.since > Earliest(q) then Earliest(q) + 1 else Latest(q)
  }

  lemma SpliceWithoutFirst(q: seq<Delta>, p: nat, d: Delta)
    requires q != [] && p <= |q|
    ensures |Splice(q, p, d)| == |q| + 1
    ensures Splice(q, p, d)[1..] == if p == 0 then q else Splice(q[1..], p - 1, d)
  {
    if p > 0 {
      assert q[..p][1..] == q[1..][..p - 1];
    }
  }

  lemma PersistWhenFull(q: seq<Delta>, d: Delta, max: nat)
    requires |q| == max >= 1
    ensures Persist(q, d, max) == if d.lcut < q[0].lcut then q else Insert(q[1..], d)
  {
    SpliceWithoutFirst(q, Position(q, d.lcut), d);
  }

  lemma TailStaysGood(q: seq<Delta>, rest: seq<Delta>)
    requires q != [] && rest == q[1..] && Sorted(q) && Gapless(q)
    ensures Sorted(rest) && Gapless(rest)
  {
    if |q| > 1 {
      SuffixStaysGapless(q, 1, rest);
    }
  }

  lemma FullPersistKeepsGaplessIff(q: seq<Delta>, rest: seq<Delta>, d: Delta, max: nat)
    requires Sorted(q) && Gapless(q) && |q| == max >= 1 && rest == q[1..]
    ensures Gapless(Persist(q, d, max)) <==> d.lcut < q[0].lcut || Contiguous(rest, d)
  {
    PersistWhenFull(q, d, max);
    if d.lcut >= q[0].lcut {
      TailStaysGood(q, rest);
      InsertKeepsGaplessIff(rest, d);
    }
  }

  /** What persisting leaves is gapless exactly when the new delta fits the history it meets. */
  lemma PersistKeepsGaplessIff(q: seq<Delta>, d: Delta, max: nat)
    requires Sorted(q) && Gapless(q) && |q| <= max && max >= 1
    ensures Gapless(Persist(q, d, max)) <==> FitsHistory(q, d, max)
  {
    if |q| < max {
      InsertKeepsGaplessIff(q, d);
    } else {
      FullPersistKeepsGaplessIff(q, q[1..], d, max);
    }
  }

  /** No entry covers the instant after the newest lcut, nor the earliest `since` itself. */
  lemma NothingCoversEnds(q: seq<Delta>, t: nat)
    requires q != [] && Sorted(q) && (t > Latest(q) || t <= Earliest(q))
    ensures !CoveredAt(q, t)
  {
    forall d | d in q ensures d.lcut <= Latest(q) {
      var i :| 0 <= i < |q| && q[i] == d;
    }
  }

  lemma ContiguousStaysGapless(q: seq<Delta>, d: Delta)
    requires Sorted(q) && Gapless(q) && Contiguous(q, d)
    ensures Gapless(Insert(q, d))
  {
    var r := Insert(q, d);
    InsertSorted(q, d);
    if q == [] {
      assert r == [d] && d in r;
    } else {
      InsertEarliest(q, d);
      forall t: nat | Earliest(r) < t <= Latest(r) ensures CoveredAt(r, t) {
        InsertCoverage(q, d, t);
        assert Earliest(q) < t <= Latest(q) ==> CoveredAt(q, t);
      }
    }
  }

  lemma PersistMembers(q: seq<Delta>, d: Delta, max: nat, x: Delta)
    requires x in Persist(q, d, max)
    ensures x in q || x == d
  {
    InsertMembers(q, d, x);
  }

  lemma PersistKeepsOrder(q: seq<Delta>, d: Delta, max: nat)
    requires Sorted(q) && max >= 1
    ensures Sorted(Persist(q, d, max)) && 0 < |Persist(q, d, max)| <= max
  {
    InsertSorted(q, d);
    EvictKeepsOrder(Insert(q, d), max);
  }

  lemma PersistKeepsHistory(q: seq<Delta>, d: Delta, max: nat)
    requires Sorted(q) && Gapless(q) && max >= 1 && Contiguous(q, d)
    ensures var r := Persist(q, d, max);
            Sorted(r) && Gapless(r) && 0 < |r| <= max
            && Latest(r) == if q == [] then d.lcut else Max(Latest(q), d.lcut)
  {
    var r := Insert(q, d);
    InsertSorted(q, d);
    ContiguousStaysGapless(q, d);
    EvictKeepsOrder(r, max);
    EvictKeepsGapless(r, max);
  }

  // ----- Selection and assembly -----

  function Select(q: seq<Delta>, since: nat): seq<Delta> {
    if q == [] then []
    else if q[0].lcut >= since then [q[0]] + Select(q[1..], since)
    else Select(q[1..], since)
  }

  lemma SelectIsSuffix(q: seq<Delta>, since: nat) returns (p: nat)
    requires Sorted(q)
    ensures p <= |q| && Select(q, since) == q[p..]
    ensures forall i | 0 <= i < |q| :: q[i].lcut >= since <==> p <= i
  {
    if q == [] {
      p := 0;
    } else if q[0].lcut >= since {
      p := 0;
      var p' := SelectIsSuffix(q[1..], since);
      assert p' == 0;
      assert q == [q[0]] + q[1..];
    } else {
      var p' := SelectIsSuffix(q[1..], since);
      p := p' + 1;
      assert forall i | 1 <= i < |q| :: q[i] == q[1..][i - 1];
    }
  }

  /** The selected deltas leave no instant after `since` uncovered. */
  lemma SelectionCovers(q: seq<Delta>, since: nat, t: nat)
    requires q != [] && Sorted(q) && Gapless(q)
    requires Earliest(q) <= since < t <= Latest(q)
    ensures CoveredAt(Select(q, since), t)
  {
    assert CoveredAt(q, t);
    var d :| d in q && d.since < t <= d.lcut;
    var i :| 0 <= i < |q| && q[i] == d;
    var p := SelectIsSuffix(q, since);
    assert q[p..][i - p] == d;
  }

  predicate IsSpec(kind: EnvelopeKind) {
    !IsMeta(kind)
  }

  predicate IsControl(kind: EnvelopeKind) {
    IsMeta(kind) && kind != Checksums && kind != Done
  }

  predicate IsTrailer(kind: EnvelopeKind) {
    kind == Checksums || kind == Done
  }

  function Pick(es: seq<Envelope>, keep: EnvelopeKind -> bool): seq<Envelope> {
    if es == [] then []
    else if keep(es[0].kind) then [es[0]] + Pick(es[1..], keep)
    else Pick(es[1..], keep)
  }

  lemma PickSnoc(es: seq<Envelope>, e: Envelope, keep: EnvelopeKind -> bool)
    ensures Pick(es + [e], keep) == if keep(e.kind) then Pick(es, keep) + [e] else Pick(es, keep)
  {
    if es == [] {
      assert es + [e] == [e];
    } else {
      assert (es + [e])[1..] == es[1..] + [e];
      PickSnoc(es[1..], e, keep);
    }
  }

  function AllSpecs(ds: seq<Delta>): seq<Envelope> {
    if ds == [] then [] else Pick(ds[0].envelopes, IsSpec) + AllSpecs(ds[1..])
  }

  /** Control envelopes of the newest delta, every delta's specs in order, the newest trailer. */
  function Layout(ds: seq<Delta>): seq<Envelope> {
    if ds == [] then []
    else
      var last := ds[|ds| - 1];
      Pick(last.envelopes, IsControl) + AllSpecs(ds) + Pick(last.envelopes, IsTrailer)
  }

  lemma WriteOne(c: Codec, payload: seq<Byte>, done: seq<Envelope>, e: Envelope, keep: EnvelopeKind -> bool)
    ensures payload + Frames(c, Pick(done + [e], keep))
         == payload + Frames(c, Pick(done, keep)) + if keep(e.kind) then Frame(c, e) else []
  {
    PickSnoc(done, e, keep);
    if keep(e.kind) {
      FramesSnoc(c, Pick(done, keep), e);
    }
  }

  method WriteMatching(c: Codec, payload: seq<Byte>, es: seq<Envelope>, keep: EnvelopeKind -> bool)
    returns (r: seq<Byte>)
    ensures r == payload + Frames(c, Pick(es, keep))
  {
    r := payload;
    for i := 0 to |es|
      invariant r == payload + Frames(c, Pick(es[..i], keep))
    {
      assert es[..i + 1] == es[..i] + [es[i]];
      WriteOne(c, payload, es[..i], es[i], keep);
      if keep(es[i].kind) {
        r := r + Frame(c, es[i]);
      }
    }
    assert es[..|es|] == es;
  }

  lemma AllSpecsSnoc(ds: seq<Delta>, d: Delta)
    ensures AllSpecs(ds + [d]) == AllSpecs(ds) + Pick(d.envelopes, IsSpec)
  {
    if ds == [] {
      assert ds + [d] == [d];
    } else {
      assert (ds + [d])[1..] == ds[1..] + [d];
      AllSpecsSnoc(ds[1..], d);
    }
  }

  lemma SpecFramesSnoc(c: Codec, ds: seq<Delta>, d: Delta, before: seq<Byte>)
    ensures before + Frames(c, AllSpecs(ds + [d]))
         == before + Frames(c, AllSpecs(ds)) + Frames(c, Pick(d.envelopes, IsSpec))
  {
    AllSpecsSnoc(ds, d);
    FramesConcat(c, AllSpecs(ds), Pick(d.envelopes, IsSpec));
  }

  lemma ThreeParts(c: Codec, head: seq<Envelope>, middle: seq<Envelope>, tail: seq<Envelope>)
    ensures Frames(c, head + middle + tail) == [] + Frames(c, head) + Frames(c, middle) + Frames(c, tail)
  {
    FramesConcat(c, head, middle);
    FramesConcat(c, head + middle, tail);
    assert [] + Frames(c, head) == Frames(c, head);
  }

  lemma LayoutFrames(c: Codec, ds: seq<Delta>)
    requires ds != []
    ensures Frames(c, Layout(ds))
         == [] + Frames(c, Pick(ds[|ds| - 1].envelopes, IsControl)) + Frames(c, AllSpecs(ds))
          + Frames(c, Pick(ds[|ds| - 1].envelopes, IsTrailer))
  {
    var last := ds[|ds| - 1].envelopes;
    ThreeParts(c, Pick(last, IsControl), AllSpecs(ds), Pick(last, IsTrailer));
  }

  method WriteSpecs(c: Codec, before: seq<Byte>, selected: seq<Delta>) returns (payload: seq<Byte>)
    ensures payload == before + Frames(c, AllSpecs(selected))
  {
    payload := before;
    for i := 0 to |selected|
      invariant payload == before + Frames(c, AllSpecs(selected[..i]))
    {
      assert selected[..i + 1] == selected[..i] + [selected[i]];
      SpecFramesSnoc(c, selected[..i], selected[i], before);
      payload := WriteMatching(c, payload, selected[i].envelopes, IsSpec);
    }
    assert selected[..|selected|] == selected;
  }

  method AssembleEnvelopes(c: Codec, selected: seq<Delta>) returns (payload: seq<Byte>)
    ensures payload == Frames(c, Layout(selected))
  {
    if selected == [] {
      return [];
    }
    var last := selected[|selected| - 1];
    LayoutFrames(c, selected);
    payload := WriteMatching(c, [], last.envelopes, IsControl);
    payload := WriteSpecs(c, payload, selected);
    payload := WriteMatching(c, payload, last.envelopes, IsTrailer);
  }

  /** The answer for one cached history; `Combined` carries the framed layout. */
  function BuildFrom(c: Codec, q: seq<Delta>, since: nat): BuildResult {
    if q == [] then NoCachedDeltas
    else if since < Earliest(q) then SinceTimeTooOld(Earliest(q))
    else if Select(q, since) == [] || since == Latest(q) then NoUpdates(Latest(q))
    else Combined(Latest(q), Frames(c, Layout(Select(q, since))))
  }

  /** Some retained delta starts no later than `since`. */
  ghost predicate Reaches(q: seq<Delta>, since: nat) {
    exists d | d in q :: d.since <= since
  }

  ghost predicate IsLargestLcut(q: seq<Delta>, lcut: nat) {
    (exists d | d in q :: d.lcut == lcut) && forall d | d in q :: d.lcut <= lcut
  }

  ghost predicate IsSmallestSince(q: seq<Delta>, since: nat) {
    (exists d | d in q :: d.since == since) && forall d | d in q :: since <= d.since
  }

  lemma LatestIsLargest(q: seq<Delta>)
    requires q != [] && Sorted(q)
    ensures IsLargestLcut(q, Latest(q))
  {
    assert q[|q| - 1] in q;
    forall d | d in q ensures d.lcut <= Latest(q) {
      var i :| 0 <= i < |q| && q[i] == d;
    }
  }

  lemma {:induction false} SelectNonEmptyIff(q: seq<Delta>, since: nat)
    ensures Select(q, since) != [] <==> exists d | d in q :: since <= d.lcut
  {
    if q != [] {
      SelectNonEmptyIff(q[1..], since);
      assert q == [q[0]] + q[1..] && q[0] in q;
    }
  }

  /**
   When each answer is given, in terms of the retained deltas alone: "no updates" only to a client the
   history reaches and has nothing newer for, "too old" exactly where every delta starts later.
   */
  lemma AnswerCases(c: Codec, q: seq<Delta>, since: nat)
    requires Sorted(q)
    ensures var r := BuildFrom(c, q, since);
            && (r.NoCachedDeltas? <==> q == [])
            && (r.SinceTimeTooOld? <==> q != [] && !Reaches(q, since))
            && (r.SinceTimeTooOld? ==> IsSmallestSince(q, r.earliest))
            && (r.NoUpdates? <==> Reaches(q, since) && forall d | d in q :: d.lcut <= since)
            && (r.NoUpdates? ==> IsLargestLcut(q, r.lcut) && r.lcut <= since)
            && (r.Combined? <==> Reaches(q, since) && exists d | d in q :: d.lcut > since)
            && (r.Combined? ==> IsLargestLcut(q, r.lcut) && since < r.lcut)
  {
    if q != [] {
      LatestIsLargest(q);
      SelectNonEmptyIff(q, since);
      var first := EarliestEntry(q);
      assert q[0] in q;
    }
  }

  // ----- What a client makes of it -----

  datatype SpecKey = SpecKey(kind: EnvelopeKind, name: string)

  type ClientState = map<SpecKey, Option<seq<Byte>>>

  function KeyOf(e: Envelope): SpecKey {
    SpecKey(e.kind, e.name)
  }

  function Lookup(st: ClientState, k: SpecKey): Option<seq<Byte>> {
    if k in st then st[k] else None
  }

  /** Control envelopes carry no spec; any other envelope sets the spec it names. */
  function Apply(st: ClientState, es: seq<Envelope>): ClientState
    decreases |es|
  {
    if es == [] then st
    else if IsMeta(es[0].kind) then Apply(st, es[1..])
    else Apply(st[KeyOf(es[0]) := es[0].data], es[1..])
  }

  function ApplyDeltas(st: ClientState, ds: seq<Delta>): ClientState
    decreases |ds|
  {
    if ds == [] then st else ApplyDeltas(Apply(st, ds[0].envelopes), ds[1..])
  }

  lemma ApplyConcat(st: ClientState, a: seq<Envelope>, b: seq<Envelope>)
    ensures Apply(st, a + b) == Apply(Apply(st, a), b)
    decreases |a|
  {
    if a == [] {
      assert a + b == b;
    } else {
      assert (a + b)[1..] == a[1..] + b;
      ApplyConcat(if IsMeta(a[0].kind) then st else st[KeyOf(a[0]) := a[0].data], a[1..], b);
    }
  }

  lemma ApplyIgnoresMeta(st: ClientState, es: seq<Envelope>, keep: EnvelopeKind -> bool)
    requires forall k :: keep(k) ==> IsMeta(k)
    ensures Apply(st, Pick(es, keep)) == st
  {
    if es != [] {
      ApplyIgnoresMeta(st, es[1..], keep);
      if keep(es[0].kind) {
        assert ([es[0]] + Pick(es[1..], keep))[1..] == Pick(es[1..], keep);
      }
    }
  }

  lemma ApplySpecsOnly(st: ClientState, es: seq<Envelope>)
    ensures Apply(st, Pick(es, IsSpec)) == Apply(st, es)
    decreases |es|
  {
    if es != [] {
      ApplySpecsOnly(if IsMeta(es[0].kind) then st else st[KeyOf(es[0]) := es[0].data], es[1..]);
      if !IsMeta(es[0].kind) {
        var rest := Pick(es[1..], IsSpec);
        assert ([es[0]] + rest)[1..] == rest;
      }
    }
  }

  lemma ApplyAllSpecs(st: ClientState, ds: seq<Delta>)
    ensures Apply(st, AllSpecs(ds)) == ApplyDeltas(st, ds)
    decreases |ds|
  {
    if ds != [] {
      ApplyConcat(st, Pick(ds[0].envelopes, IsSpec), AllSpecs(ds[1..]));
      ApplySpecsOnly(st, ds[0].envelopes);
      ApplyAllSpecs(Apply(st, ds[0].envelopes), ds[1..]);
    }
  }

  ghost predicate DeltasFit(c: Codec, ds: seq<Delta>) {
    forall d | d in ds :: c.AllFit(d.envelopes)
  }

  lemma {:induction false} PickFits(c: Codec, es: seq<Envelope>, keep: EnvelopeKind -> bool)
    requires c.AllFit(es)
    ensures c.AllFit(Pick(es, keep))
  {
    if es != [] {
      PickFits(c, es[1..], keep);
    }
  }

  lemma {:induction false} SpecsFit(c: Codec, ds: seq<Delta>)
    requires DeltasFit(c, ds)
    ensures c.AllFit(AllSpecs(ds))
  {
    if ds != [] {
      assert ds[0] in ds;
      PickFits(c, ds[0].envelopes, IsSpec);
      SpecsFit(c, ds[1..]);
    }
  }

  lemma LayoutFits(c: Codec, ds: seq<Delta>)
    requires DeltasFit(c, ds)
    ensures c.AllFit(Layout(ds))
  {
    if ds != [] {
      var last := ds[|ds| - 1];
      assert last in ds;
      PickFits(c, last.envelopes, IsControl);
      PickFits(c, last.envelopes, IsTrailer);
      SpecsFit(c, ds);
    }
  }

  /** Running one combined payload is the same as applying the selected deltas one by one. */
  lemma CombinedMeansSequential(c: Codec, st: ClientState, ds: seq<Delta>)
    requires c.Lawful() && DeltasFit(c, ds)
    ensures var r := PayloadMeaning(c, Frames(c, Layout(ds)));
            r == Ok(Layout(ds)) && Apply(st, r.envelopes) == ApplyDeltas(st, ds)
  {
    LayoutFits(c, ds);
    FramesRoundTrip(c, Layout(ds));
    if ds != [] {
      var last := ds[|ds| - 1].envelopes;
      ApplyConcat(st, Pick(last, IsControl) + AllSpecs(ds), Pick(last, IsTrailer));
      ApplyConcat(st, Pick(last, IsControl), AllSpecs(ds));
      ApplyIgnoresMeta(st, last, IsControl);
      ApplyAllSpecs(st, ds);
      ApplyIgnoresMeta(ApplyDeltas(st, ds), last, IsTrailer);
    }
  }

  // ----- The order of the payload -----

  function OfKind(es: seq<Envelope>, kind: EnvelopeKind): seq<Envelope> {
    if es == [] then []
    else if es[0].kind == kind then [es[0]] + OfKind(es[1..], kind)
    else OfKind(es[1..], kind)
  }

  function SpecsOf(es: seq<Envelope>): seq<Envelope> {
    if es == [] then []
    else if es[0].kind.Spec? then [es[0]] + SpecsOf(es[1..])
    else SpecsOf(es[1..])
  }

  function SpecsOfAll(ds: seq<Delta>): seq<Envelope> {
    if ds == [] then [] else SpecsOf(ds[0].envelopes) + SpecsOfAll(ds[1..])
  }

  predicate OpensPayload(e: Envelope) {
    e.kind == TopLevel || e.kind == CopyPrev
  }

  predicate ClosesPayload(e: Envelope) {
    e.kind == Checksums || e.kind == Done
  }

  /** TopLevel and CopyPrev, then specs, then Checksums and Done. */
  ghost predicate InOrder(es: seq<Envelope>) {
    forall i, j | 0 <= i < j < |es| ::
      (OpensPayload(es[j]) ==> OpensPayload(es[i])) && (ClosesPayload(es[i]) ==> ClosesPayload(es[j]))
  }

  lemma {:induction false} OfKindConcat(a: seq<Envelope>, b: seq<Envelope>, kind: EnvelopeKind)
    ensures OfKind(a + b, kind) == OfKind(a, kind) + OfKind(b, kind)
    ensures SpecsOf(a + b) == SpecsOf(a) + SpecsOf(b)
    decreases |a|
  {
    if a == [] {
      assert a + b == b;
    } else {
      assert (a + b)[1..] == a[1..] + b;
      OfKindConcat(a[1..], b, kind);
    }
  }

  lemma {:induction false} OfKindPick(es: seq<Envelope>, keep: EnvelopeKind -> bool, kind: EnvelopeKind)
    ensures OfKind(Pick(es, keep), kind) == if keep(kind) then OfKind(es, kind) else []
    decreases |es|
  {
    if es != [] {
      OfKindPick(es[1..], keep, kind);
      var rest := Pick(es[1..], keep);
      assert ([es[0]] + rest)[1..] == rest;
    }
  }

  lemma {:induction false} PickedKinds(es: seq<Envelope>, keep: EnvelopeKind -> bool)
    ensures forall e | e in Pick(es, keep) :: keep(e.kind)
  {
    if es != [] {
      PickedKinds(es[1..], keep);
    }
  }

  lemma {:induction false} SpecsOfPick(es: seq<Envelope>, keep: EnvelopeKind -> bool)
    requires (forall k: EnvelopeKind :: keep(k) <==> k.Spec?) || (forall k: EnvelopeKind :: keep(k) ==> !k.Spec?)
    ensures (forall k: EnvelopeKind :: keep(k) <==> k.Spec?) ==>
              Pick(es, keep) == SpecsOf(es) == SpecsOf(Pick(es, keep))
    ensures (forall k: EnvelopeKind :: keep(k) ==> !k.Spec?) ==> SpecsOf(Pick(es, keep)) == []
    decreases |es|
  {
    if es != [] {
      SpecsOfPick(es[1..], keep);
      var rest := Pick(es[1..], keep);
      assert ([es[0]] + rest)[1..] == rest;
    }
  }

  lemma {:induction false} AllSpecsMeaning(ds: seq<Delta>, kind: EnvelopeKind)
    requires !kind.Spec?
    ensures AllSpecs(ds) == SpecsOfAll(ds) == SpecsOf(AllSpecs(ds)) && OfKind(AllSpecs(ds), kind) == []
    ensures forall e | e in AllSpecs(ds) :: e.kind.Spec?
  {
    if ds != [] {
      AllSpecsMeaning(ds[1..], kind);
      var first := ds[0].envelopes;
      SpecsOfPick(first, IsSpec);
      OfKindPick(first, IsSpec, kind);
      PickedKinds(first, IsSpec);
      OfKindConcat(Pick(first, IsSpec), AllSpecs(ds[1..]), kind);
    }
  }

  lemma LayoutInOrder(ds: seq<Delta>)
    requires ds != []
    ensures InOrder(Layout(ds))
  {
    var last := ds[|ds| - 1].envelopes;
    var head, specs, tail := Pick(last, IsControl), AllSpecs(ds), Pick(last, IsTrailer);
    PickedKinds(last, IsControl);
    PickedKinds(last, IsTrailer);
    AllSpecsMeaning(ds, Done);
    assert forall i | 0 <= i < |head| :: OpensPayload(head[i]) by {
      assert forall i | 0 <= i < |head| :: head[i] in head;
    }
    assert forall i | 0 <= i < |specs| :: specs[i].kind.Spec? by {
      assert forall i | 0 <= i < |specs| :: specs[i] in specs;
    }
    assert forall i | 0 <= i < |tail| :: ClosesPayload(tail[i]) by {
      assert forall i | 0 <= i < |tail| :: tail[i] in tail;
    }
    ThreeSections(head, specs, tail);
  }

  lemma ThreeSections(head: seq<Envelope>, specs: seq<Envelope>, tail: seq<Envelope>)
    requires forall i | 0 <= i < |head| :: OpensPayload(head[i])
    requires forall i | 0 <= i < |specs| :: specs[i].kind.Spec?
    requires forall i | 0 <= i < |tail| :: ClosesPayload(tail[i])
    ensures InOrder(head + specs + tail)
  {
    var es := head + specs + tail;
    forall i | 0 <= i < |es|
      ensures es[i] == if i < |head| then head[i]
                       else if i < |head| + |specs| then specs[i - |head|] else tail[i - |head| - |specs|]
    {
    }
  }

  lemma ThreeSectionKinds(head: seq<Envelope>, specs: seq<Envelope>, tail: seq<Envelope>, kind: EnvelopeKind)
    ensures OfKind(head + specs + tail, kind) == OfKind(head, kind) + OfKind(specs, kind) + OfKind(tail, kind)
    ensures SpecsOf(head + specs + tail) == SpecsOf(head) + SpecsOf(specs) + SpecsOf(tail)
  {
    OfKindConcat(head + specs, tail, kind);
    OfKindConcat(head, specs, kind);
  }

  lemma LayoutKinds(ds: seq<Delta>, kind: EnvelopeKind)
    requires ds != [] && !kind.Spec?
    ensures OfKind(Layout(ds), kind) == OfKind(ds[|ds| - 1].envelopes, kind)
  {
    var last := ds[|ds| - 1].envelopes;
    ThreeSectionKinds(Pick(last, IsControl), AllSpecs(ds), Pick(last, IsTrailer), kind);
    OfKindPick(last, IsControl, kind);
    OfKindPick(last, IsTrailer, kind);
    AllSpecsMeaning(ds, kind);
  }

  lemma LayoutSpecs(ds: seq<Delta>)
    requires ds != []
    ensures SpecsOf(Layout(ds)) == SpecsOfAll(ds)
  {
    var last := ds[|ds| - 1].envelopes;
    ThreeSectionKinds(Pick(last, IsControl), AllSpecs(ds), Pick(last, IsTrailer), Done);
    AllSpecsMeaning(ds, Done);
    SpecsOfPick(last, IsControl);
    SpecsOfPick(last, IsTrailer);
  }

  lemma SelectFits(c: Codec, q: seq<Delta>, since: nat)
    requires Sorted(q) && DeltasFit(c, q)
    ensures DeltasFit(c, Select(q, since))
  {
    var p := SelectIsSuffix(q, since);
  }

  /**
   What a client decodes, kind by kind: TopLevel and CopyPrev come first, Checksums and Done last, each
   as the newest retained delta has them, and between them the specs of the selected deltas in order.
   */
  lemma PayloadOrder(c: Codec, q: seq<Delta>, since: nat)
    requires c.Lawful() && Sorted(q) && DeltasFit(c, q) && BuildFrom(c, q, since).Combined?
    ensures var r := PayloadMeaning(c, BuildFrom(c, q, since).payload);
            && q != [] && r.Ok? && InOrder(r.envelopes)
            && SpecsOf(r.envelopes) == SpecsOfAll(Select(q, since))
            && forall kind | kind in {TopLevel, CopyPrev, Checksums, Done} ::
                 OfKind(r.envelopes, kind) == OfKind(q[|q| - 1].envelopes, kind)
  {
    var ds := Select(q, since);
    SelectFits(c, q, since);
    LayoutFits(c, ds);
    FramesRoundTrip(c, Layout(ds));
    LayoutInOrder(ds);
    LayoutSpecs(ds);
    var p := SelectIsSuffix(q, since);
    assert ds[|ds| - 1] == q[|q| - 1];
    forall kind | kind in {TopLevel, CopyPrev, Checksums, Done}
      ensures OfKind(Layout(ds), kind) == OfKind(q[|q| - 1].envelopes, kind)
    {
      LayoutKinds(ds, kind);
    }
  }

  // ----- Catching up with the origin -----

  /** The value of every spec at every time, as the origin sees it. */
  type Origin = (SpecKey, nat) -> Option<seq<Byte>>

  predicate ChangedAt(o: Origin, k: SpecKey, t: nat) {
    t > 0 && o(k, t) != o(k, t - 1)
  }

  predicate Writes(es: seq<Envelope>, k: SpecKey) {
    exists e | e in es :: !IsMeta(e.kind) && KeyOf(e) == k
  }

  ghost predicate WritesOnly(es: seq<Envelope>, k: SpecKey, v: Option<seq<Byte>>) {
    forall e | e in es && !IsMeta(e.kind) && KeyOf(e) == k :: e.data == v
  }

  /** A delta tells the truth: it names every spec changed in (since, lcut], with its value at lcut. */
  ghost predicate Honest(o: Origin, d: Delta) {
    && (forall k :: WritesOnly(d.envelopes, k, o(k, d.lcut)))
    && (forall k, t: nat | d.since < t <= d.lcut && ChangedAt(o, k, t) :: Writes(d.envelopes, k))
  }

  ghost predicate InSync(o: Origin, st: ClientState, t: nat) {
    forall k :: Lookup(st, k) == o(k, t)
  }

  /** Like `InSync`, except that changes stamped exactly `t` may still be missing. */
  ghost predicate NearlyInSync(o: Origin, st: ClientState, t: nat) {
    forall k :: Lookup(st, k) == o(k, t) || ChangedAt(o, k, t)
  }

  lemma ApplySettles(st: ClientState, es: seq<Envelope>, k: SpecKey, v: Option<seq<Byte>>)
    requires WritesOnly(es, k, v)
    requires Writes(es, k) || Lookup(st, k) == v
    ensures Lookup(Apply(st, es), k) == v
    decreases |es|
  {
    if es != [] {
      var st' := if IsMeta(es[0].kind) then st else st[KeyOf(es[0]) := es[0].data];
      assert es == [es[0]] + es[1..];
      ApplySettles(st', es[1..], k, v);
    }
  }

  lemma ApplyDeltasSettle(st: ClientState, ds: seq<Delta>, k: SpecKey, v: Option<seq<Byte>>)
    requires forall d | d in ds :: WritesOnly(d.envelopes, k, v)
    requires (ds != [] && Writes(ds[0].envelopes, k)) || Lookup(st, k) == v
    ensures Lookup(ApplyDeltas(st, ds), k) == v
    decreases |ds|
  {
    if ds != [] {
      ApplySettles(st, ds[0].envelopes, k, v);
      ApplyDeltasSettle(Apply(st, ds[0].envelopes), ds[1..], k, v);
    }
  }

  lemma ApplyDeltasConcat(st: ClientState, a: seq<Delta>, b: seq<Delta>)
    ensures ApplyDeltas(st, a + b) == ApplyDeltas(ApplyDeltas(st, a), b)
    decreases |a|
  {
    if a == [] {
      assert a + b == b;
    } else {
      assert (a + b)[1..] == a[1..] + b;
      ApplyDeltasConcat(Apply(st, a[0].envelopes), a[1..], b);
    }
  }

  function LastChange(o: Origin, k: SpecKey, t: nat): (u: nat)
    ensures u <= t && (u > 0 ==> ChangedAt(o, k, u))
    ensures forall w: nat | u <= w <= t :: o(k, w) == o(k, t)
    ensures forall w: nat | u < w <= t :: !ChangedAt(o, k, w)
  {
    if t == 0 || ChangedAt(o, k, t) then t else LastChange(o, k, t - 1)
  }

  /** From the last change on, honest deltas can only write the final value. */
  lemma LateWritesAreFinal(o: Origin, q: seq<Delta>, from: nat, k: SpecKey)
    requires q != [] && Sorted(q) && AllHonest(o, q) && from <= |q|
    requires forall i | from <= i < |q| :: LastChange(o, k, Latest(q)) <= q[i].lcut
    ensures forall d | d in q[from..] :: WritesOnly(d.envelopes, k, o(k, Latest(q)))
  {
    forall d | d in q[from..] ensures WritesOnly(d.envelopes, k, o(k, Latest(q))) {
      var i :| from <= i < |q| && q[i] == d;
      assert Honest(o, d) && d.lcut <= Latest(q);
      assert o(k, d.lcut) == o(k, Latest(q));
    }
  }

  lemma CoveredChangeIsWritten(o: Origin, q: seq<Delta>, k: SpecKey) returns (j: nat)
    requires q != [] && AllHonest(o, q)
    requires var t := LastChange(o, k, Latest(q)); t > 0 && CoveredAt(q, t)
    ensures j < |q| && LastChange(o, k, Latest(q)) <= q[j].lcut && Writes(q[j].envelopes, k)
  {
    var t := LastChange(o, k, Latest(q));
    var d :| d in q && d.since < t <= d.lcut;
    j :| 0 <= j < |q| && q[j] == d;
    assert Honest(o, d);
  }

  lemma WrittenSpecArrives(o: Origin, q: seq<Delta>, p: nat, j: nat, st: ClientState, k: SpecKey)
    requires q != [] && Sorted(q) && AllHonest(o, q) && p <= j < |q|
    requires LastChange(o, k, Latest(q)) <= q[j].lcut && Writes(q[j].envelopes, k)
    ensures Lookup(ApplyDeltas(st, q[p..]), k) == o(k, Latest(q))
  {
    assert q[p..] == q[p..j] + q[j..];
    ApplyDeltasConcat(st, q[p..j], q[j..]);
    LateWritesAreFinal(o, q, j, k);
    ApplyDeltasSettle(ApplyDeltas(st, q[p..j]), q[j..], k, o(k, Latest(q)));
  }

  /** Every instant after `since`, up to the newest lcut, is in some delta. */
  ghost predicate CoversAfter(q: seq<Delta>, since: nat)
    requires q != []
  {
    forall t: nat | since < t <= Latest(q) :: CoveredAt(q, t)
  }

  ghost predicate AllHonest(o: Origin, q: seq<Delta>) {
    forall d | d in q :: Honest(o, d)
  }

  /** One spec, after the suffix of the history that ends at or after `since`. */
  lemma SpecCatchesUp(o: Origin, q: seq<Delta>, p: nat, since: nat, st: ClientState, k: SpecKey)
    requires q != [] && Sorted(q) && AllHonest(o, q)
    requires p <= |q| && forall i | 0 <= i < |q| :: q[i].lcut >= since <==> p <= i
    requires since < Latest(q) && CoversAfter(q, since)
    requires Lookup(st, k) == o(k, since) || (ChangedAt(o, k, since) && CoveredAt(q, since))
    ensures Lookup(ApplyDeltas(st, q[p..]), k) == o(k, Latest(q))
  {
    var t, v := LastChange(o, k, Latest(q)), o(k, Latest(q));
    if t <= since && Lookup(st, k) == o(k, since) {
      LateWritesAreFinal(o, q, p, k);
      ApplyDeltasSettle(st, q[p..], k, v);
    } else {
      assert CoveredAt(q, t);
      var j := CoveredChangeIsWritten(o, q, k);
      WrittenSpecArrives(o, q, p, j, st, k);
    }
  }

  /** What a client holds after running the answer it is given. */
  function Served(c: Codec, q: seq<Delta>, since: nat, st: ClientState): ClientState {
    var r := BuildFrom(c, q, since);
    if r.Combined? && PayloadMeaning(c, r.payload).Ok? then Apply(st, PayloadMeaning(c, r.payload).envelopes) else st
  }

  lemma ServedIsSuffix(c: Codec, q: seq<Delta>, since: nat, st: ClientState) returns (p: nat)
    requires c.Lawful() && DeltasFit(c, q) && q != [] && Sorted(q) && Earliest(q) <= since < Latest(q)
    ensures p < |q| && forall i | 0 <= i < |q| :: q[i].lcut >= since <==> p <= i
    ensures var r := BuildFrom(c, q, since);
            r.Combined? && r.lcut == Latest(q) && PayloadMeaning(c, r.payload).Ok?
    ensures Served(c, q, since, st) == ApplyDeltas(st, q[p..])
  {
    p := SelectIsSuffix(q, since);
    assert q[|q| - 1].lcut >= since;
    CombinedMeansSequential(c, st, q[p..]);
  }

  /**
   End to end: a client in sync with the origin at `since` decodes the combined payload, runs it,
   and is in sync at the newest lcut, if the history covers what came after `since`. Where it covers
   `since` too, this even repairs a client that missed changes stamped exactly `since`, which is what
   selecting lcut >= since is for.
   */
  lemma ClientCatchesUp(c: Codec, o: Origin, q: seq<Delta>, since: nat, st: ClientState)
    requires c.Lawful() && DeltasFit(c, q)
    requires q != [] && Sorted(q) && AllHonest(o, q)
    requires Earliest(q) <= since < Latest(q) && CoversAfter(q, since)
    requires InSync(o, st, since) || (CoveredAt(q, since) && NearlyInSync(o, st, since))
    ensures var r := BuildFrom(c, q, since);
            r.Combined? && r.lcut == Latest(q) && PayloadMeaning(c, r.payload).Ok?
    ensures InSync(o, Served(c, q, since, st), Latest(q))
  {
    var p := ServedIsSuffix(c, q, since, st);
    forall k ensures Lookup(ApplyDeltas(st, q[p..]), k) == o(k, Latest(q)) {
      SpecCatchesUp(o, q, p, since, st, k);
    }
  }

  // ----- Coverage is exactly what it takes -----

  lemma {:induction false} UntouchedByEnvelopes(st: ClientState, es: seq<Envelope>, k: SpecKey)
    requires !Writes(es, k)
    ensures Lookup(Apply(st, es), k) == Lookup(st, k)
    decreases |es|
  {
    if es != [] {
      assert es[0] in es;
      UntouchedByEnvelopes(if IsMeta(es[0].kind) then st else st[KeyOf(es[0]) := es[0].data], es[1..], k);
    }
  }

  lemma {:induction false} UntouchedByDeltas(st: ClientState, ds: seq<Delta>, k: SpecKey)
    requires forall d | d in ds :: !Writes(d.envelopes, k)
    ensures Lookup(ApplyDeltas(st, ds), k) == Lookup(st, k)
    decreases |ds|
  {
    if ds != [] {
      assert ds[0] in ds;
      UntouchedByEnvelopes(st, ds[0].envelopes, k);
      UntouchedByDeltas(Apply(st, ds[0].envelopes), ds[1..], k);
    }
  }

  lemma {:induction false} LongerThanNames(es: seq<Envelope>) returns (n: nat)
    ensures forall e | e in es :: |e.name| < n
  {
    if es == [] {
      n := 0;
    } else {
      var rest := LongerThanNames(es[1..]);
      n := Max(rest, |es[0].name| + 1);
      assert es == [es[0]] + es[1..];
    }
  }

  lemma {:induction false} LongerThanAllNames(q: seq<Delta>) returns (n: nat)
    ensures forall d, e | d in q && e in d.envelopes :: |e.name| < n
  {
    if q == [] {
      n := 0;
    } else {
      var first := LongerThanNames(q[0].envelopes);
      var rest := LongerThanAllNames(q[1..]);
      n := Max(first, rest);
      assert q == [q[0]] + q[1..];
    }
  }

  lemma UnwrittenSpec(q: seq<Delta>) returns (k: SpecKey)
    ensures forall d | d in q :: !Writes(d.envelopes, k)
  {
    var n := LongerThanAllNames(q);
    k := SpecKey(Spec(0), seq(n, _ => 'x'));
  }

  /** The origin o, except that spec k keeps the value v until it changes at t. */
  function ChangedOnceAt(o: Origin, k: SpecKey, v: Option<seq<Byte>>, t: nat): Origin {
    (x: SpecKey, u: nat) => if x != k then o(x, u) else if u < t then v else if v == None then Some([]) else None
  }

  lemma UncoveredChangeIsHonest(o: Origin, q: seq<Delta>, k: SpecKey, v: Option<seq<Byte>>, t: nat)
    requires AllHonest(o, q) && !CoveredAt(q, t) && forall d | d in q :: !Writes(d.envelopes, k)
    ensures AllHonest(ChangedOnceAt(o, k, v, t), q)
  {
    var o' := ChangedOnceAt(o, k, v, t);
    forall d | d in q ensures Honest(o', d) {
      assert Honest(o, d);
      forall x ensures WritesOnly(d.envelopes, x, o'(x, d.lcut)) {
        assert x == k ==> !Writes(d.envelopes, k);
      }
      forall x, u: nat | d.since < u <= d.lcut && ChangedAt(o', x, u) ensures Writes(d.envelopes, x) {
        assert x == k ==> u == t;
        assert ChangedAt(o, x, u);
      }
    }
  }

  /** An uncovered instant can hide a change: some origin the deltas are honest about leaves the client behind. */
  lemma UncoveredChangeIsLost(c: Codec, o: Origin, q: seq<Delta>, since: nat, st: ClientState, t: nat)
    returns (o': Origin)
    requires c.Lawful() && DeltasFit(c, q) && q != [] && Sorted(q) && Earliest(q) <= since < Latest(q)
    requires AllHonest(o, q) && InSync(o, st, since) && since < t <= Latest(q) && !CoveredAt(q, t)
    ensures AllHonest(o', q) && InSync(o', st, since) && !InSync(o', Served(c, q, since, st), Latest(q))
  {
    var k := UnwrittenSpec(q);
    o' := ChangedOnceAt(o, k, Lookup(st, k), t);
    UncoveredChangeIsHonest(o, q, k, Lookup(st, k), t);
    var p := ServedIsSuffix(c, q, since, st);
    UntouchedByDeltas(st, q[p..], k);
    assert Lookup(Served(c, q, since, st), k) != o'(k, Latest(q));
  }

  /** Whatever origin the deltas are honest about, a client in sync with it at `since` ends in sync. */
  ghost predicate AlwaysCatchesUp(c: Codec, q: seq<Delta>, since: nat, st: ClientState)
    requires q != []
  {
    forall o | AllHonest(o, q) && InSync(o, st, since) :: InSync(o, Served(c, q, since, st), Latest(q))
  }

  /** A history brings the clients it answers up to date if and only if it covers all that came after `since`. */
  lemma CatchesUpIff(c: Codec, o: Origin, q: seq<Delta>, since: nat, st: ClientState)
    requires c.Lawful() && DeltasFit(c, q) && q != [] && Sorted(q) && Earliest(q) <= since < Latest(q)
    requires AllHonest(o, q) && InSync(o, st, since)
    ensures AlwaysCatchesUp(c, q, since, st) <==> CoversAfter(q, since)
  {
    if CoversAfter(q, since) {
      forall o' | AllHonest(o', q) && InSync(o', st, since) ensures InSync(o', Served(c, q, since, st), Latest(q)) {
        ClientCatchesUp(c, o', q, since, st);
      }
    } else {
      var t: nat :| since < t <= Latest(q) && !CoveredAt(q, t);
      var o' := UncoveredChangeIsLost(c, o, q, since, st, t);
    }
  }

  lemma GaplessCoversAfter(q: seq<Delta>, since: nat)
    requires q != [] && Gapless(q) && Earliest(q) <= since
    ensures CoversAfter(q, since) && (Earliest(q) < since <= Latest(q) ==> CoveredAt(q, since))
  {
  }
}
