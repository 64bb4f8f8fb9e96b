/** The per-company union of id-list manifests over the configured server keys. */
module CompanyManifests {
  import opened Common

  datatype Entry = Entry(name: string, size: nat, url: string, creationTime: nat, fileId: string)

  type Manifest = map<string, Entry>

  datatype CompanyManifest = CompanyManifest(lists: Manifest, incomplete: bool)

  /** What one tick looks at: configured keys, discovered companies, last good manifests, the hash. */
  datatype World = World(
    serverKeys: seq<string>,
    companyIds: map<string, string>,
    manifests: map<string, Manifest>,
    hash: string -> string)
  {
    predicate InCompany(key: string, ns: string) {
      key in companyIds && hash(companyIds[key]) == ns
    }
  }

  datatype UnionResult =
    | Union(companies: map<string, CompanyManifest>, unavailable: nat)
    | Collisions(owners: map<string, set<string>>)

  // ----- The replacement rule -----

  /** String order, character by character. */
  predicate LexLess(a: string, b: string) {
    b != [] && (a == [] || a[0] < b[0] || (a[0] == b[0] && LexLess(a[1..], b[1..])))
  }

  lemma LexTotal(a: string, b: string)
    ensures !(LexLess(a, b) && LexLess(b, a))
    ensures a == b <==> !LexLess(a, b) && !LexLess(b, a)
  {
    if a != [] && b != [] {
      LexTotal(a[1..], b[1..]);
      assert a == [a[0]] + a[1..] && b == [b[0]] + b[1..];
    }
  }

  /** A proper prefix comes first; otherwise the first differing character decides. */
  lemma {:induction false} LexMeans(common: string, a: string, b: string)
    ensures b != [] ==> LexLess(common, common + b)
    ensures a != [] && b != [] && a[0] < b[0] ==> LexLess(common + a, common + b)
  {
    if common == [] {
      assert common + a == a && common + b == b;
    } else {
      LexMeans(common[1..], a, b);
      assert (common + a)[1..] == common[1..] + a && (common + b)[1..] == common[1..] + b;
    }
  }

  lemma LexTransitive(a: string, b: string, c: string)
    requires LexLess(a, b) && LexLess(b, c)
    ensures LexLess(a, c)
  {
    if a != [] && a[0] == b[0] == c[0] {
      LexTransitive(a[1..], b[1..], c[1..]);
    }
  }

  predicate Replaces(previous: Entry, entry: Entry) {
    if previous.fileId == entry.fileId then
      entry.size > previous.size || (entry.size == previous.size && entry.creationTime > previous.creationTime)
    else
      entry.creationTime > previous.creationTime
      || (entry.creationTime == previous.creationTime && LexLess(previous.fileId, entry.fileId))
  }

  predicate SameVersion(a: Entry, b: Entry) {
    a.fileId == b.fileId && a.size == b.size && a.creationTime == b.creationTime
  }

  /** Of two different versions exactly one replaces the other. */
  lemma ReplacesIsTotal(a: Entry, b: Entry)
    ensures !(Replaces(a, b) && Replaces(b, a))
    ensures SameVersion(a, b) <==> !Replaces(a, b) && !Replaces(b, a)
  {
    LexTotal(a.fileId, b.fileId);
  }

  /** The entry that is left after the candidates are offered one after another. */
  function Winner(es: seq<Entry>): (w: Entry)
    requires es != []
    ensures w in es
  {
    if |es| == 1 then es[0]
    else
      var best := Winner(es[..|es| - 1]);
      var last := es[|es| - 1];
      if Replaces(best, last) then last else best
  }

  lemma WinnerSnoc(es: seq<Entry>, e: Entry)
    ensures Winner(es + [e]) == if es == [] || Replaces(Winner(es), e) then e else Winner(es)
  {
    assert (es + [e])[..|es|] == es;
  }

  predicate Undefeated(es: seq<Entry>, w: Entry) {
    w in es && forall e | e in es :: !Replaces(w, e)
  }

  lemma {:induction false} UndefeatedWins(es: seq<Entry>, w: Entry)
    requires Undefeated(es, w)
    ensures SameVersion(Winner(es), w)
  {
    if |es| > 1 {
      var init, last := es[..|es| - 1], es[|es| - 1];
      assert es == init + [last];
      if w in init {
        UndefeatedWins(init, w);
      }
      ReplacesIsTotal(Winner(init), w);
    }
  }

  lemma UndefeatedWinsInAnyOrder(es: seq<Entry>, w: Entry, p: seq<Entry>)
    requires Undefeated(es, w) && multiset(p) == multiset(es)
    ensures p != [] && SameVersion(Winner(p), Winner(es))
  {
    assert forall e :: e in p <==> e in multiset(p);
    assert forall e :: e in es <==> e in multiset(es);
    UndefeatedWins(p, w);
    UndefeatedWins(es, w);
  }

  /** One occurrence of e moved to the end. */
  lemma MoveToEnd(es: seq<Entry>, i: nat) returns (rest: seq<Entry>)
    requires i < |es|
    ensures multiset(rest + [es[i]]) == multiset(es) && |rest| == |es| - 1
    ensures forall e | e in rest :: e in es
  {
    var a, b := es[..i], es[i + 1..];
    assert es == a + [es[i]] + b;
    rest := a + b;
  }

  /** If even the winner is replaced by some candidate, visiting that candidate last gives another result. */
  lemma DefeatedWinnerDependsOnOrder(es: seq<Entry>) returns (p: seq<Entry>)
    requires es != [] && !Undefeated(es, Winner(es))
    ensures multiset(p) == multiset(es) && p != [] && !SameVersion(Winner(p), Winner(es))
  {
    var e :| e in es && Replaces(Winner(es), e);
    var i :| 0 <= i < |es| && es[i] == e;
    var rest := MoveToEnd(es, i);
    p := rest + [e];
    WinnerSnoc(rest, e);
    if rest != [] && !Replaces(Winner(rest), e) {
      // Then e loses to the winner of the rest, which is not the winner of all.
      ReplacesIsTotal(Winner(rest), Winner(es));
    }
  }

  ghost predicate OrderIndependent(es: seq<Entry>)
    requires es != []
  {
    forall p | p != [] && multiset(p) == multiset(es) :: SameVersion(Winner(p), Winner(es))
  }

  /**
   The chosen version is independent of the order in which keys are visited exactly when one
   candidate is replaced by no other, and then it is that candidate.
   */
  lemma OrderIndependentIff(es: seq<Entry>)
    requires es != []
    ensures OrderIndependent(es) <==> exists w :: Undefeated(es, w)
  {
    if w :| Undefeated(es, w) {
      forall p | p != [] && multiset(p) == multiset(es) ensures SameVersion(Winner(p), Winner(es)) {
        UndefeatedWinsInAnyOrder(es, w, p);
      }
    } else {
      var p := DefeatedWinnerDependsOnOrder(es);
    }
  }

  /** Within one list name, a file has one creation time. */
  ghost predicate OneCreationTimePerFile(es: seq<Entry>) {
    forall a, b | a in es && b in es && a.fileId == b.fileId :: a.creationTime == b.creationTime
  }

  /** Newest creation time first, then file id, then size. */
  predicate AtMost(a: Entry, b: Entry) {
    a.creationTime < b.creationTime
    || (a.creationTime == b.creationTime
        && (LexLess(a.fileId, b.fileId) || (a.fileId == b.fileId && a.size <= b.size)))
  }

  lemma AtMostTransitive(a: Entry, b: Entry, c: Entry)
    requires AtMost(a, b) && AtMost(b, c)
    ensures AtMost(a, c)
  {
    if LexLess(a.fileId, b.fileId) && LexLess(b.fileId, c.fileId) {
      LexTransitive(a.fileId, b.fileId, c.fileId);
    }
  }

  /** Under that hypothesis the winner is a true maximum, and so does not depend on the order. */
  lemma {:induction false} WinnerIsMaximum(es: seq<Entry>)
    requires es != [] && OneCreationTimePerFile(es)
    ensures forall e | e in es :: AtMost(e, Winner(es))
    ensures Undefeated(es, Winner(es))
  {
    if |es| > 1 {
      var init, last := es[..|es| - 1], es[|es| - 1];
      assert es == init + [last];
      WinnerIsMaximum(init);
      var best := Winner(init);
      LexTotal(best.fileId, last.fileId);
      assert if Replaces(best, last) then AtMost(best, last) else AtMost(last, best);
      forall e | e in es ensures AtMost(e, Winner(es)) {
        if e in init {
          if Replaces(best, last) { AtMostTransitive(e, best, last); }
        }
      }
    }
    forall e | e in es ensures !Replaces(Winner(es), e) {
      LexTotal(e.fileId, Winner(es).fileId);
    }
  }

  /** Without it the pairwise rule can go round in a circle: each of these is replaced by the next. */
  lemma RuleCanCycle()
    ensures var a, b, c := Entry("l", 2, "", 1, "f"), Entry("l", 1, "", 2, "g"), Entry("l", 1, "", 3, "f");
            Replaces(a, b) && Replaces(b, c) && Replaces(c, a)
            && Winner([a, b, c]) == c && Winner([b, c, a]) == a && Winner([c, a, b]) == b
  {
    var a, b, c := Entry("l", 2, "", 1, "f"), Entry("l", 1, "", 2, "g"), Entry("l", 1, "", 3, "f");
    assert [a, b, c][..2] == [a, b] && [b, c, a][..2] == [b, c] && [c, a, b][..2] == [c, a];
    assert [a, b][..1] == [a] && [b, c][..1] == [b] && [c, a][..1] == [c];
    assert Winner([a, b]) == b && Winner([b, c]) == c && Winner([c, a]) == a;
  }

  // ----- The union -----

  function Merged(lists: Manifest, manifest: Manifest): Manifest {
    map name | name in lists.Keys + manifest.Keys ::
      if name !in manifest || (name in lists && !Replaces(lists[name], manifest[name]))
      then lists[name] else manifest[name]
  }

  method MergeManifest(lists0: Manifest, manifest: Manifest) returns (lists: Manifest)
    ensures lists == Merged(lists0, manifest)
  {
    lists := lists0;
    var names := manifest.Keys;
    while names != {}
      invariant names <= manifest.Keys
      invariant lists.Keys == lists0.Keys + (manifest.Keys - names)
      invariant forall n | n in lists :: lists[n] == if n in names then lists0[n] else Merged(lists0, manifest)[n]
    {
      var name :| name in names;
      var entry := manifest[name];
      if name !in lists || Replaces(lists[name], entry) {
        lists := lists[name := entry];
      }
      names := names - {name};
    }
  }

  /** The union over the first `n` keys of those that belong to `ns` and have a manifest. */
  function UnionUpTo(w: World, n: nat, ns: string): Manifest
    requires n <= |w.serverKeys|
  {
    if n == 0 then map[]
    else
      var before, key := UnionUpTo(w, n - 1, ns), w.serverKeys[n - 1];
      if w.InCompany(key, ns) && key in w.manifests then Merged(before, w.manifests[key]) else before
  }

  /** What the keys of `ns` say about one list, in key order. */
  function Candidates(w: World, n: nat, ns: string, name: string): seq<Entry>
    requires n <= |w.serverKeys|
  {
    if n == 0 then []
    else
      var before, key := Candidates(w, n - 1, ns, name), w.serverKeys[n - 1];
      if w.InCompany(key, ns) && key in w.manifests && name in w.manifests[key]
      then before + [w.manifests[key][name]] else before
  }

  /** The union holds exactly the lists some key of the company names, each with its winning entry. */
  lemma {:induction false} UnionPicksWinners(w: World, n: nat, ns: string, name: string)
    requires n <= |w.serverKeys|
    ensures name in UnionUpTo(w, n, ns) <==> Candidates(w, n, ns, name) != []
    ensures name in UnionUpTo(w, n, ns) ==> UnionUpTo(w, n, ns)[name] == Winner(Candidates(w, n, ns, name))
  {
    if n > 0 {
      UnionPicksWinners(w, n - 1, ns, name);
      var before, key := Candidates(w, n - 1, ns, name), w.serverKeys[n - 1];
      if w.InCompany(key, ns) && key in w.manifests && name in w.manifests[key] {
        WinnerSnoc(before, w.manifests[key][name]);
      }
    }
  }

  lemma {:induction false} CandidateSources(w: World, n: nat, ns: string, name: string, e: Entry)
    requires n <= |w.serverKeys|
    ensures e in Candidates(w, n, ns, name) <==>
            exists i | 0 <= i < n :: Offers(w, w.serverKeys[i], ns, name, e)
  {
    if n > 0 {
      CandidateSources(w, n - 1, ns, name, e);
    }
  }

  /** The chosen entry is the maximum over every key of the company that lists the name. */
  lemma UnionIsMaximum(w: World, ns: string, name: string, key: string)
    requires OneCreationTimePerFile(Candidates(w, |w.serverKeys|, ns, name))
    requires key in w.serverKeys && w.InCompany(key, ns) && key in w.manifests && name in w.manifests[key]
    ensures var lists := UnionUpTo(w, |w.serverKeys|, ns);
            name in lists && AtMost(w.manifests[key][name], lists[name])
  {
    var es, e := Candidates(w, |w.serverKeys|, ns, name), w.manifests[key][name];
    CandidateSources(w, |w.serverKeys|, ns, name, e);
    assert e in es;
    UnionPicksWinners(w, |w.serverKeys|, ns, name);
    WinnerIsMaximum(es);
  }

  ghost predicate SameKeys(w: World, v: World) {
    v == w.(serverKeys := v.serverKeys) && multiset(v.serverKeys) == multiset(w.serverKeys)
  }

  lemma SameCandidates(w: World, v: World, ns: string, name: string, e: Entry)
    requires SameKeys(w, v)
    ensures e in Candidates(w, |w.serverKeys|, ns, name) <==> e in Candidates(v, |v.serverKeys|, ns, name)
  {
    CandidateSources(w, |w.serverKeys|, ns, name, e);
    CandidateSources(v, |v.serverKeys|, ns, name, e);
    assert forall k :: k in w.serverKeys <==> k in multiset(w.serverKeys);
    assert forall k :: k in v.serverKeys <==> k in multiset(v.serverKeys);
    if i :| 0 <= i < |w.serverKeys| && Offers(w, w.serverKeys[i], ns, name, e) {
      assert w.serverKeys[i] in v.serverKeys;
    }
    if i :| 0 <= i < |v.serverKeys| && Offers(v, v.serverKeys[i], ns, name, e) {
      assert v.serverKeys[i] in w.serverKeys;
    }
  }

  predicate Offers(w: World, key: string, ns: string, name: string, e: Entry) {
    w.InCompany(key, ns) && key in w.manifests && name in w.manifests[key] && w.manifests[key][name] == e
  }

  /** Where each file has one creation time, configuring the keys in another order changes no chosen version. */
  lemma KeyOrderDoesNotMatter(w: World, v: World, ns: string, name: string)
    requires SameKeys(w, v) && OneCreationTimePerFile(Candidates(w, |w.serverKeys|, ns, name))
    ensures var a, b := UnionUpTo(w, |w.serverKeys|, ns), UnionUpTo(v, |v.serverKeys|, ns);
            (name in a <==> name in b) && (name in a ==> SameVersion(a[name], b[name]))
  {
    var es, fs := Candidates(w, |w.serverKeys|, ns, name), Candidates(v, |v.serverKeys|, ns, name);
    forall e ensures e in es <==> e in fs {
      SameCandidates(w, v, ns, name, e);
    }
    UnionPicksWinners(w, |w.serverKeys|, ns, name);
    UnionPicksWinners(v, |v.serverKeys|, ns, name);
    assert fs != [] ==> fs[0] in es;
    if es != [] {
      assert es[0] in fs;
      WinnerIsMaximum(es);
      UndefeatedWins(fs, Winner(es));
    }
  }

  /** Keys whose company is unknown or whose manifest is missing. */
  function Missing(w: World, n: nat): nat
    requires n <= |w.serverKeys|
  {
    if n == 0 then 0
    else
      var key := w.serverKeys[n - 1];
      Missing(w, n - 1) + if key in w.companyIds && key in w.manifests then 0 else 1
  }

  function UnavailableAmong(w: World, n: nat): set<nat> {
    set i: nat | i < n && Unavailable(w, i)
  }

  lemma OneMoreUnavailable(w: World, n: nat)
    ensures UnavailableAmong(w, n + 1) == UnavailableAmong(w, n) + (if Unavailable(w, n) then {n} else {})
    ensures n !in UnavailableAmong(w, n)
  {
  }

  /** It counts each such key once per place it is configured in. */
  lemma {:induction false} MissingCounts(w: World, n: nat)
    requires n <= |w.serverKeys|
    ensures Missing(w, n) == |UnavailableAmong(w, n)|
  {
    if n > 0 {
      MissingCounts(w, n - 1);
      OneMoreUnavailable(w, n - 1);
    }
  }

  predicate Unavailable(w: World, i: int) {
    0 <= i < |w.serverKeys| && (w.serverKeys[i] !in w.companyIds || w.serverKeys[i] !in w.manifests)
  }

  ghost predicate Collides(w: World) {
    exists a, b | a in w.serverKeys && b in w.serverKeys && a in w.companyIds && b in w.companyIds ::
      w.companyIds[a] != w.companyIds[b] && w.hash(w.companyIds[a]) == w.hash(w.companyIds[b])
  }

  ghost predicate Owns(w: World, n: nat, ns: string, id: string)
    requires n <= |w.serverKeys|
  {
    exists i | 0 <= i < n :: w.InCompany(w.serverKeys[i], ns) && w.companyIds[w.serverKeys[i]] == id
  }

  predicate Claims(owners: map<string, set<string>>, ns: string, id: string) {
    ns in owners && id in owners[ns]
  }

  ghost predicate OwnersOf(w: World, n: nat, owners: map<string, set<string>>)
    requires n <= |w.serverKeys|
  {
    forall ns, id :: Claims(owners, ns, id) <==> Owns(w, n, ns, id)
  }

  method FindOwners(w: World) returns (owners: map<string, set<string>>)
    ensures OwnersOf(w, |w.serverKeys|, owners)
  {
    owners := map[];
    for i := 0 to |w.serverKeys|
      invariant OwnersOf(w, i, owners)
    {
      var key := w.serverKeys[i];
      ghost var before := owners;
      if key in w.companyIds {
        var id := w.companyIds[key];
        var ns := w.hash(id);
        owners := owners[ns := (if ns in owners then owners[ns] else {}) + {id}];
      }
      forall ns, id ensures Claims(owners, ns, id) <==> Owns(w, i + 1, ns, id) {
        assert Owns(w, i + 1, ns, id) <==> Owns(w, i, ns, id) || (w.InCompany(key, ns) && w.companyIds[key] == id);
        assert Claims(before, ns, id) <==> Owns(w, i, ns, id);
      }
    }
  }

  /** Two different companies share the namespace. */
  ghost predicate TwoOwners(w: World, ns: string) {
    exists a, b :: a != b && Owns(w, |w.serverKeys|, ns, a) && Owns(w, |w.serverKeys|, ns, b)
  }

  lemma TwoOwnersIff(w: World, owners: map<string, set<string>>, ns: string)
    requires OwnersOf(w, |w.serverKeys|, owners)
    ensures TwoOwners(w, ns) <==> ns in owners && |owners[ns]| > 1
  {
    if TwoOwners(w, ns) {
      var a, b :| a != b && Owns(w, |w.serverKeys|, ns, a) && Owns(w, |w.serverKeys|, ns, b);
      assert Claims(owners, ns, a) && Claims(owners, ns, b);
      if |owners[ns]| <= 1 {
        SmallSet(owners[ns], a, b);
      }
    }
    if ns in owners && |owners[ns]| > 1 {
      var a :| a in owners[ns];
      assert |owners[ns] - {a}| > 0;
      var b :| b in owners[ns] - {a};
      assert Claims(owners, ns, a) && Claims(owners, ns, b);
      assert Owns(w, |w.serverKeys|, ns, a) && Owns(w, |w.serverKeys|, ns, b);
    }
  }

  /** The hash collides on discovered companies exactly when some namespace has two owners. */
  lemma CollidesIff(w: World)
    ensures Collides(w) <==> exists ns :: TwoOwners(w, ns)
  {
    if Collides(w) {
      var a, b :| a in w.serverKeys && b in w.serverKeys && a in w.companyIds && b in w.companyIds
                  && w.companyIds[a] != w.companyIds[b] && w.hash(w.companyIds[a]) == w.hash(w.companyIds[b]);
      var ns := w.hash(w.companyIds[a]);
      assert Owns(w, |w.serverKeys|, ns, w.companyIds[a]) && Owns(w, |w.serverKeys|, ns, w.companyIds[b]);
      assert TwoOwners(w, ns);
    }
    if ns :| TwoOwners(w, ns) {
      var a, b :| a != b && Owns(w, |w.serverKeys|, ns, a) && Owns(w, |w.serverKeys|, ns, b);
    }
  }

  lemma SmallSet<T>(s: set<T>, a: T, b: T)
    requires a in s && b in s && |s| <= 1
    ensures a == b
  {
    assert |s - {a}| == |s| - 1;
  }

  /** No key of the company lacks a manifest, and every configured key's company is known. */
  ghost predicate Complete(w: World, ns: string) {
    && (forall key | key in w.serverKeys :: key in w.companyIds)
    && (forall key | key in w.serverKeys && w.InCompany(key, ns) :: key in w.manifests)
  }

  ghost predicate Discovered(w: World, n: nat, ns: string)
    requires n <= |w.serverKeys|
  {
    exists i | 0 <= i < n :: w.InCompany(w.serverKeys[i], ns)
  }

  ghost predicate LacksManifest(w: World, n: nat, ns: string)
    requires n <= |w.serverKeys|
  {
    exists i | 0 <= i < n :: w.InCompany(w.serverKeys[i], ns) && w.serverKeys[i] !in w.manifests
  }

  predicate AnyUnknown(w: World, n: nat)
    requires n <= |w.serverKeys|
  {
    n > 0 && (w.serverKeys[n - 1] !in w.companyIds || AnyUnknown(w, n - 1))
  }

  lemma {:induction false} AnyUnknownIff(w: World, n: nat)
    requires n <= |w.serverKeys|
    ensures AnyUnknown(w, n) <==> exists i | 0 <= i < n :: w.serverKeys[i] !in w.companyIds
  {
    if n > 0 {
      AnyUnknownIff(w, n - 1);
    }
  }

  ghost predicate FirstKeysDone(w: World, n: nat, companies: map<string, CompanyManifest>)
    requires n <= |w.serverKeys|
  {
    && (forall ns :: ns in companies <==> Discovered(w, n, ns))
    && (forall ns | ns in companies :: companies[ns].lists == UnionUpTo(w, n, ns))
    && (forall ns | ns in companies :: companies[ns].incomplete <==> LacksManifest(w, n, ns))
  }

  lemma {:induction false} UnseenNamespaceIsEmpty(w: World, n: nat, ns: string)
    requires n <= |w.serverKeys| && forall i | 0 <= i < n :: !w.InCompany(w.serverKeys[i], ns)
    ensures UnionUpTo(w, n, ns) == map[]
  {
    if n > 0 {
      UnseenNamespaceIsEmpty(w, n - 1, ns);
    }
  }

  lemma OneMoreKey(w: World, n: nat, companies: map<string, CompanyManifest>, ns: string, c: CompanyManifest)
    requires n < |w.serverKeys| && FirstKeysDone(w, n, companies)
    requires w.InCompany(w.serverKeys[n], ns)
    requires var old_ := if ns in companies then companies[ns] else CompanyManifest(map[], false);
             c == if w.serverKeys[n] in w.manifests
                  then old_.(lists := Merged(old_.lists, w.manifests[w.serverKeys[n]]))
                  else old_.(incomplete := true)
    ensures FirstKeysDone(w, n + 1, companies[ns := c])
  {
    if ns !in companies {
      UnseenNamespaceIsEmpty(w, n, ns);
    }
    assert forall m | m != ns :: !w.InCompany(w.serverKeys[n], m);
  }

  ghost predicate AllKeysDone(w: World, companies: map<string, CompanyManifest>) {
    && (forall ns :: ns in companies <==> Discovered(w, |w.serverKeys|, ns))
    && (forall ns | ns in companies :: companies[ns].lists == UnionUpTo(w, |w.serverKeys|, ns))
    && (forall ns | ns in companies :: companies[ns].incomplete <==> !Complete(w, ns))
  }

  method CollectCompanies(w: World)
    returns (companies: map<string, CompanyManifest>, unavailable: nat, unknownCompany: bool)
    ensures FirstKeysDone(w, |w.serverKeys|, companies) && unavailable == Missing(w, |w.serverKeys|)
    ensures unknownCompany == AnyUnknown(w, |w.serverKeys|)
  {
    companies, unavailable, unknownCompany := map[], 0, false;
    for i := 0 to |w.serverKeys|
      invariant FirstKeysDone(w, i, companies)
      invariant unavailable == Missing(w, i)
      invariant unknownCompany == AnyUnknown(w, i)
    {
      var key := w.serverKeys[i];
      if key !in w.companyIds {
        UnknownKey(w, i, companies);
        unavailable, unknownCompany := unavailable + 1, true;
        continue;
      }
      var ns := w.hash(w.companyIds[key]);
      var company := if ns in companies then companies[ns] else CompanyManifest(map[], false);
      if key !in w.manifests {
        unavailable := unavailable + 1;
        company := company.(incomplete := true);
      } else {
        var lists := MergeManifest(company.lists, w.manifests[key]);
        company := company.(lists := lists);
      }
      OneMoreKey(w, i, companies, ns, company);
      companies := companies[ns := company];
    }
  }

  lemma UnknownKey(w: World, n: nat, companies: map<string, CompanyManifest>)
    requires n < |w.serverKeys| && w.serverKeys[n] !in w.companyIds && FirstKeysDone(w, n, companies)
    ensures FirstKeysDone(w, n + 1, companies)
  {
  }

  lemma CompleteIff(w: World, ns: string)
    ensures Complete(w, ns) <==>
            !LacksManifest(w, |w.serverKeys|, ns) && !AnyUnknown(w, |w.serverKeys|)
  {
    AnyUnknownIff(w, |w.serverKeys|);
  }

  lemma CompaniesAreDone(w: World, companies: map<string, CompanyManifest>, unknownCompany: bool)
    requires FirstKeysDone(w, |w.serverKeys|, companies)
    requires unknownCompany == AnyUnknown(w, |w.serverKeys|)
    ensures AllKeysDone(w, if unknownCompany then map ns | ns in companies :: companies[ns].(incomplete := true)
                           else companies)
  {
    forall ns | ns in companies ensures companies[ns].incomplete || unknownCompany <==> !Complete(w, ns) {
      CompleteIff(w, ns);
    }
  }

  /** One merged manifest per discovered company, or every namespace claimed by two companies. */
  method UnionManifests(w: World) returns (r: UnionResult)
    ensures r.Collisions? <==> Collides(w)
    ensures r.Collisions? ==> forall ns :: ns in r.owners <==> TwoOwners(w, ns)
    ensures r.Collisions? ==> forall ns, id | ns in r.owners :: id in r.owners[ns] <==> Owns(w, |w.serverKeys|, ns, id)
    ensures r.Union? ==> AllKeysDone(w, r.companies) && r.unavailable == Missing(w, |w.serverKeys|)
  {
    var owners := FindOwners(w);
    var collisions := map ns | ns in owners && |owners[ns]| > 1 :: owners[ns];
    CollidesIff(w);
    forall ns ensures ns in collisions <==> TwoOwners(w, ns) {
      TwoOwnersIff(w, owners, ns);
    }
    assert collisions != map[] <==> exists ns :: ns in collisions;
    if collisions != map[] {
      assert forall ns, id | ns in collisions :: id in collisions[ns] <==> Claims(owners, ns, id);
      return Collisions(collisions);
    }
    var companies, unavailable, unknownCompany := CollectCompanies(w);
    CompaniesAreDone(w, companies, unknownCompany);
    if unknownCompany {
      companies := map ns | ns in companies :: companies[ns].(incomplete := true);
    }
    return Union(companies, unavailable);
  }
}
