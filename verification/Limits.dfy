/** What goes wrong outside the conditions the results rest on. */
module Limits {
  import opened Text
  import P = Package
  import opened R = Release
  import opened Keys
  import opened Calls
  import opened Paths
  import opened Worlds = World
  import opened Publication
  import opened History
  import opened Signatures
  import opened Commands
  import opened Collection
  import opened Republished
  import S = Storage
  import M = Maintenance
  import H = CommandHistory

  // ---- a copy that is overtaken by a clean

  function FirstPublish(codename: string, p: P.Package, signing: Signing, date: string): Run {
    Publish(ReleaseOptions(codename, None, None, None), [], [Suite("main", "amd64", false, [p])], signing, date)
  }

  lemma {:induction false} FirstIndex(
      w: World, objects: Objects, codename: string, p: P.Package, signing: Signing, date: string)
    returns (text: string)
    requires Lawful(w) && w.good(p, codename) && ReleaseFile(codename) !in objects
    ensures w.parsePackages(text).Ok? && ReadsBackAs(w, [p], codename, w.parsePackages(text).value)
    ensures var ops := PlanOf(w, objects, FirstPublish(codename, p, signing, date)).ops;
            ops != [] && ops[0] == Put(Index(codename, "main", "amd64", false), text, Overwrite)
  {
    var suite, run := Suite("main", "amd64", false, [p]), FirstPublish(codename, p, signing, date);
    assert AllGood(w, [p], codename);
    text := w.printPackages([p], codename).value;
    var prepared := Build(w, codename, suite).value;
    FirstSuitePrepared(w, codename, Retrieved(w, objects, run.options), suite, prepared);
    FirstSuiteCalls(w, codename, prepared);
    RunInTwoParts(w, objects, run);
    assert Front(w, objects, run)[0] == Put(Index(codename, "main", "amd64", false), text, Overwrite);
  }

  /** A run that names a stored body and makes its calls after that body was collected leaves an index without the
      body. So a clean must not come between what a copy reads and what it writes. */
  lemma {:induction false} LateRunDangles(
      w: World, codename: string, p: P.Package, body: string, signing: Signing, date: string)
    requires Lawful(w) && w.good(p, codename)
    ensures var path := w.pathOf(p, codename).value;
            var objects: Objects := map[Pool(path) := body];
            var run := FirstPublish(codename, p, signing, date);
            && Admissible(w, objects, run)
            && !Integrity(w,
               Exec(w.hasher.md5, Store(objects - {Pool(path)}, 1), PlanOf(w, objects, run).ops).store.objects)
  {
    var path := w.pathOf(p, codename).value;
    var objects: Objects := map[Pool(path) := body];
    var run, index := FirstPublish(codename, p, signing, date), Index(codename, "main", "amd64", false);
    var text := FirstIndex(w, objects, codename, p, signing, date);
    BodyIsThere(w, codename, p, objects, signing, date);
    BodyIsGone(w, codename, p, objects, PlanOf(w, objects, run).ops, index, text);
  }

  lemma {:induction false} BodyIsThere(
      w: World, codename: string, p: P.Package, objects: Objects, signing: Signing, date: string)
    requires Lawful(w) && w.good(p, codename) && Pool(w.pathOf(p, codename).value) in objects
    ensures Admissible(w, objects, FirstPublish(codename, p, signing, date))
  {}

  lemma {:induction false} BodyIsGone(
      w: World, codename: string, p: P.Package, objects: Objects, ops: seq<Op>, index: Key, text: string)
    requires index.Index? && !index.gz && w.parsePackages(text).Ok?
    requires ReadsBackAs(w, [p], codename, w.parsePackages(text).value)
    requires ops != [] && ops[0] == Put(index, text, Overwrite)
    requires w.pathOf(p, codename).Ok? && objects.Keys == {Pool(w.pathOf(p, codename).value)}
    ensures !Integrity(w,
            Exec(w.hasher.md5, Store(objects - {Pool(w.pathOf(p, codename).value)}, 1), ops).store.objects)
  {
    assert objects - {Pool(w.pathOf(p, codename).value)} == map[];
    FirstCallAlone(w.hasher.md5, ops, index, text);
    IndexWithoutBody(w, codename, p, index, text);
  }

  lemma {:induction false} FirstCallAlone(md5: string -> string, ops: seq<Op>, key: Key, data: string)
    requires ops != [] && ops[0] == Put(key, data, Overwrite)
    ensures Exec(md5, Store(map[], 1), ops).store.objects == map[key := data]
  {
    var first := Step(md5, Store(map[], 1), ops[0]);
    NoBudget(md5, first.store, ops[1..]);
  }

  lemma {:induction false} IndexWithoutBody(w: World, codename: string, p: P.Package, index: Key, text: string)
    requires index.Index? && !index.gz && w.parsePackages(text).Ok?
    requires ReadsBackAs(w, [p], codename, w.parsePackages(text).value)
    ensures !Integrity(w, map[index := text])
  {
    var objects: Objects := map[index := text];
    var again := w.parsePackages(text).value;
    assert SamePackage(w, [p][0], codename, again[0]);
    assert !BackedPackage(w, again[0], objects.Keys);
    assert !BackedText(w, objects[index], objects.Keys);
  }

  // ---- by-hash switched on midway

  /** A Release of one suite that was published without by-hash objects. */
  ghost predicate Plainly(r: ReleaseData, hashes: Digests.FileHashes, gzHashes: Digests.FileHashes) {
    && r.components == ["main"] && r.architectures == ["amd64"] && !r.byHash
    && r.files == map[EntryName("main", "amd64", false) := hashes, EntryName("main", "amd64", true) := gzHashes]
  }

  lemma {:induction false} SecondSuitePrepared(w: World, codename: string, r: ReleaseData, suite: Suite, p: Prepared)
    requires r.components == ["main"] && r.architectures == ["amd64"] && EntryName("main", "amd64", false) in r.files
    requires suite.component == "main" && suite.architecture == "i386" && Build(w, codename, suite) == Ok(p)
    ensures PreparedFor(w, codename, r, [suite]) == Ok([p])
    ensures r.files.Keys <= FinalRelease(w, codename, r, [suite]).files.Keys
  {
    var recorded := Record(w, r, p);
    assert [suite][1..] == [] && [p][1..] == [];
    assert BuildAll(w, codename, []) == Ok([]);
    AppendEmpty([p]);
    assert BuildAll(w, codename, [suite]) == Ok([p]);
    assert RecordAll(w, r, [p]) == recorded;
    RecordGrows(w, r, p);
    assert recorded.components == ["main"] && recorded.architectures == ["amd64", "i386"];
    forall component, a | component in recorded.components && a in RELEASE_ARCHITECTURES && a in recorded.architectures
      ensures EntryName(component, a, false) in recorded.files
    {
      assert component == "main" && (a == "amd64" || a == "i386");
    }
    MissingNothing(recorded);
  }

  lemma {:induction false} OneSuiteAvoids(
      w: World, codename: string, p: Prepared, text: string, signing: Signing, sha256: string)
    requires p.architecture == "i386"
    ensures var key := ByHash(codename, "main", "amd64", sha256);
            Avoids([] + (AllByHashOps(w, codename, [p]) + AllCanonicalOps(codename, [p]))
                + TripleOps(codename, text, signing), key)
  {
    var key := ByHash(codename, "main", "amd64", sha256);
    assert [p][1..] == [];
    AppendEmpty(ByHashOps(w, codename, p));
    AppendEmpty(CanonicalOps(codename, p));
    AvoidsAppend(ByHashOps(w, codename, p), CanonicalOps(codename, p), key);
    AppendEmpty(ByHashOps(w, codename, p) + CanonicalOps(codename, p));
    AvoidsAppend(ByHashOps(w, codename, p) + CanonicalOps(codename, p), TripleOps(codename, text, signing), key);
  }

  /** A run that switches by-hash on announces it for every suite of the Release and still lists the suites published
      before, but stores no by-hash object for them, however many calls it makes. */
  lemma {:induction false} ByHashMidwayLeavesGap(
      w: World, codename: string, stored: string, hashes: Digests.FileHashes, gzHashes: Digests.FileHashes,
      signing: Signing, date: string, calls: nat)
    requires Lawful(w) && Plainly(w.parseRelease(stored), hashes, gzHashes)
    ensures var objects: Objects := map[ReleaseFile(codename) := stored];
            var options := ReleaseOptions(codename, None, None, Some(true));
            var suites := [Suite("main", "i386", true, [])];
            var run := Publish(options, [], suites, signing, date);
            var r := Retrieved(w, objects, options);
            && PreparedFor(w, codename, r, suites).Ok?
            && var final := FinalRelease(w, codename, r, suites);
            && NewRelease(w, objects, run) == Some(w.printRelease(final, date)) && final.byHash
            && EntryName("main", "amd64", false) in final.files
            && ByHash(codename, "main", "amd64", hashes.sha256) !in After(w, objects, run, calls)
  {
    var objects: Objects := map[ReleaseFile(codename) := stored];
    var options := ReleaseOptions(codename, None, None, Some(true));
    var suite := Suite("main", "i386", true, []);
    var run, r := Publish(options, [], [suite], signing, date), Retrieved(w, objects, options);
    assert AllGood(w, [], codename);
    var p := Build(w, codename, suite).value;
    SecondSuitePrepared(w, codename, r, suite, p);
    RecordKeepsByHash(w, r, p);
    RunInTwoParts(w, objects, run);
    var text := NewRelease(w, objects, run).value;
    OneSuiteAvoids(w, codename, p, text, signing, hashes.sha256);
    Untouched(w.hasher.md5, Store(objects, calls), PlanOf(w, objects, run).ops,
        ByHash(codename, "main", "amd64", hashes.sha256));
  }

  lemma {:induction false} RecordKeepsByHash(w: World, r: ReleaseData, p: Prepared)
    ensures RecordAll(w, r, [p]).byHash == r.byHash
  {
    assert [p][1..] == [];
    assert RecordAll(w, r, [p]) == Record(w, r, p);
    RecordGrows(w, r, p);
  }

  // ---- a compressed index that nothing lists

  /** A Release that lists the plain index of its one suite and not the compressed one. */
  ghost predicate PlainOnly(r: ReleaseData, hashes: Digests.FileHashes) {
    && r.components == ["main"] && r.architectures == ["amd64"]
    && r.files == map[EntryName("main", "amd64", false) := hashes]
  }

  /** The backfill looks for plain indexes only. */
  lemma {:induction false} PlainReleaseUnchanged(w: World, codename: string, r: ReleaseData, hashes: Digests.FileHashes)
    requires PlainOnly(r, hashes)
    ensures PreparedFor(w, codename, r, []) == Ok([]) && FinalRelease(w, codename, r, []) == r
    ensures Bare(r, "main", "amd64")
  {
    MissingNothing(r);
    assert BuildAll(w, codename, []) == Ok([]);
    AppendEmpty<Prepared>([]);
    assert RecordAll(w, r, []) == r;
    NamesApart("main", "amd64");
  }

  /** So a run that publishes other things leaves the stored Release listing the plain index alone, wherever it
      stops. */
  lemma {:induction false} PlainEntryStaysAlone(
      w: World, codename: string, stored: string, hashes: Digests.FileHashes, signing: Signing, date: string,
      calls: nat)
    requires Lawful(w) && PlainOnly(w.parseRelease(stored), hashes)
    requires Renderable(w.parseRelease(stored).(codename := codename), date)
    ensures var objects: Objects := map[ReleaseFile(codename) := stored];
            var run := Publish(ReleaseOptions(codename, None, None, None), [], [], signing, date);
            var after := After(w, objects, run, calls);
            ReleaseFile(codename) in after && Bare(w.parseRelease(after[ReleaseFile(codename)]), "main", "amd64")
  {
    var objects: Objects := map[ReleaseFile(codename) := stored];
    var options := ReleaseOptions(codename, None, None, None);
    var run, r := Publish(options, [], [], signing, date), Retrieved(w, objects, options);
    assert r == w.parseRelease(stored).(codename := codename);
    PlainReleaseUnchanged(w, codename, r, hashes);
    var text := w.printRelease(r, date);
    var s := w.parseRelease(text);
    assert s == r.(suite := Some(r.suite.GetOr("")));
    H.RunWrites(w, objects, run, codename, text);
    H.WritesKeepReleases(w.hasher.md5, Store(objects, calls), PlanOf(w, objects, run).ops, codename, text, codename);
    H.ExecWrites(w.hasher.md5, Store(objects, calls), PlanOf(w, objects, run).ops, codename, text, codename);
  }

  // ---- a path with two leading slashes

  /** The index lists one package, whose path has two slashes in front of the key of the body. */
  ghost predicate ListsSlashed(w: World, text: string, q: P.Package, path: string) {
    w.parsePackages(text) == Ok([q]) && forall d {:trigger w.pathOf(q, d)} :: w.pathOf(q, d) == Ok("//" + path)
  }

  /** The body is in the pool of the codename. */
  ghost predicate InPoolOf(codename: string, path: string) {
    CleanKey(codename) && '\\' !in codename && PoolPath(path) && HasPrefix(path, "pool/" + codename + "/")
  }

  lemma {:induction false} ReleaseIsNoIndex(codename: string)
    ensures !M.IsIndexKey()(KeyText(ReleaseFile(codename)))
  {
    BaseOfJoin(SuiteDir(codename), "Release");
  }

  lemma {:induction false} PoolIsNotDists(path: string)
    requires HasPrefix(path, "pool/")
    ensures !HasPrefix(path, "dists/")
  {
    assert path[..5][0] == 'p' && "dists/"[0] == 'd';
  }

  lemma {:induction false} TextOfSome(objects: Objects, key: string) returns (name: Key)
    requires CleanNames(objects) && key in Image(objects)
    ensures name in objects && KeyText(name) == key
  {
    name := NameFor(objects, key);
  }

  /** A body, an index and a Release, and nothing else. */
  ghost predicate HoldsThree(objects: Objects, codename: string, path: string, index: Key) {
    && Pool(path) in objects && index in objects && ReleaseFile(codename) in objects
    && forall key :: key in objects ==> key == Pool(path) || key == index || key == ReleaseFile(codename)
  }

  lemma {:induction false} OneIndexName(codename: string, path: string, index: Key, name: Key)
    requires name == Pool(path) || name == index || name == ReleaseFile(codename)
    requires HasPrefix(path, "pool/") && HasPrefix(KeyText(name), "dists/") && M.IsIndexKey()(KeyText(name))
    ensures name == index
  {
    if name == ReleaseFile(codename) {
      ReleaseIsNoIndex(codename);
    } else if name == Pool(path) {
      PoolIsNotDists(path);
    }
  }

  /** The index is the only one of the three that a clean reads. */
  lemma {:induction false} OneIndexRead(objects: Objects, codename: string, path: string, index: Key, key: string)
    requires CleanNames(objects) && HoldsThree(objects, codename, path, index) && HasPrefix(path, "pool/")
    requires key in Image(objects) && HasPrefix(key, "dists/") && M.IsIndexKey()(key)
    ensures key == KeyText(index)
  {
    var name := TextOfSome(objects, key);
    OneIndexName(codename, path, index, name);
  }

  lemma {:induction false} SlashedReference(w: World, text: string, q: P.Package, path: string)
    requires PoolPath(path) && ListsSlashed(w, text, q, path)
    ensures M.Resolves(w, text) && !M.Names(w, text, path)
  {
    S.TwoSlashes(path);
    assert w.pathOf(q, "") == Ok("//" + path);
    assert |"/" + path| != |path|;
  }

  lemma {:induction false} SlashedUnread(
      w: World, objects: Objects, codename: string, path: string, index: Key, q: P.Package)
    requires CleanNames(objects) && HoldsThree(objects, codename, path, index)
    requires index.Index? && !index.gz && PoolPath(path) && ListsSlashed(w, objects[index], q, path)
    ensures !M.IsReferenced(w, Image(objects), path)
    ensures forall key :: key in Image(objects) && HasPrefix(key, "dists/") && M.IsIndexKey()(key) ==>
              M.Resolves(w, Image(objects)[key])
  {
    SlashedReference(w, objects[index], q, path);
    ImageAt(objects, index);
    forall key | key in Image(objects) && HasPrefix(key, "dists/") && M.IsIndexKey()(key)
      ensures M.Resolves(w, Image(objects)[key]) && !M.Names(w, Image(objects)[key], path)
    {
      OneIndexRead(objects, codename, path, index, key);
    }
  }

  /** A clean may go ahead on such a store and takes the body. */
  lemma {:induction false} SlashedIsTaken(
      w: World, objects: Objects, codename: string, path: string, index: Key, q: P.Package)
    requires CleanNames(objects) && HoldsThree(objects, codename, path, index)
    requires index.Index? && !index.gz && InPoolOf(codename, path) && ListsSlashed(w, objects[index], q, path)
    ensures Cleanable(w, objects, codename) && path in KeysOf(w, objects, codename)
  {
    SlashedUnread(w, objects, codename, path, index, q);
    ImageAt(objects, Pool(path));
    ScopeIs(codename);
    M.DeletionsExist(w, Image(objects), codename);
    M.DeletesExactly(w, Image(objects), codename, path);
  }

  lemma {:induction false} ScopeIs(codename: string)
    requires CleanKey(codename) && '\\' !in codename
    ensures M.ScopedPrefix("pool", codename) == Ok("pool/" + codename + "/")
    ensures '\\' !in "pool/" + codename + "/"
  {
    CleanFixed(codename);
    CleanKeyStart(codename);
    S.CleanKeyInside(codename);
    M.PoolPrefixIs(codename);
  }

  /** Before such a clean the path is looked up under the deleted key. */
  lemma {:induction false} SlashedIsExposed(
      w: World, objects: Objects, codename: string, path: string, prefix: S.Prefix, q: P.Package, text: string)
    requires Cleanable(w, objects, codename) && path in KeysOf(w, objects, codename) && prefix != ""
    requires PoolPath(path) && ListsSlashed(w, text, q, path)
    ensures ExposedPackage(w, objects, codename, prefix, q)
  {
    S.TwoSlashes(path);
    M.DeletesExactly(w, Image(objects), codename, path);
    assert w.pathOf(q, "") == Ok("//" + path);
  }

  lemma {:induction false} OneVerified(w: World, o: VerifyOptions, objects: Objects, a: string, q: P.Package)
    requires var release := ReleaseFile(o.release.codename);
             release in objects && a in w.parseRelease(objects[release]).architectures
    requires var index := Index(o.release.codename, o.component, a, false);
             index in objects && w.parsePackages(objects[index]) == Ok([q])
    ensures a in Retrieved(w, objects, o.release).architectures
    ensures RetrievedPackages(w, objects, o.release.codename, o.component, a) == Ok([q])
  {}

  /** A clean that got to its end has taken the body, and a verification misses more than before. */
  ghost predicate LosesBody(w: World, o: VerifyOptions, objects: Objects, path: string, calls: nat)
    requires Cleanable(w, objects, o.release.codename)
  {
    var c := o.release.codename;
    calls >= |KeysOf(w, objects, c)| ==>
      var after := AfterClean(w, objects, c, calls);
      var was, now := VerifyPlan(w, objects, o), VerifyPlan(w, after, o);
      Pool(path) !in after && was.Ok? && now.Ok? && was.value.missing < now.value.missing
  }

  /** On a store with a prefix: a verification finds the body of a package that is listed with two slashes in front of
      its path, a clean deletes it, and the next verification misses it. */
  lemma {:induction false} SlashedPathLosesBody(
      w: World, o: VerifyOptions, objects: Objects, path: string, a: string, q: P.Package, calls: nat)
    requires PlaceLaw(w) && o.prefix != "" && InPoolOf(o.release.codename, path)
    requires CleanNames(objects)
    requires HoldsThree(objects, o.release.codename, path, Index(o.release.codename, o.component, a, false))
    requires a in w.parseRelease(objects[ReleaseFile(o.release.codename)]).architectures
    requires ListsSlashed(w, objects[Index(o.release.codename, o.component, a, false)], q, path)
    ensures Cleanable(w, objects, o.release.codename) && LosesBody(w, o, objects, path, calls)
  {
    var c, index := o.release.codename, Index(o.release.codename, o.component, a, false);
    SlashedIsTaken(w, objects, c, path, index, q);
    SlashedIsExposed(w, objects, c, path, o.prefix, q, objects[index]);
    OneVerified(w, o, objects, a, q);
    if calls >= |KeysOf(w, objects, c)| {
      BodyTaken(w, objects, c, calls, path);
      ReportGrows(w, objects, c, calls, o, a, q);
    }
  }

  lemma {:induction false} BodyTaken(w: World, objects: Objects, codename: string, calls: nat, path: string)
    requires Cleanable(w, objects, codename) && path in KeysOf(w, objects, codename)
    requires calls >= |KeysOf(w, objects, codename)|
    ensures Pool(path) !in AfterClean(w, objects, codename, calls)
  {
    var keys := KeysOf(w, objects, codename);
    FoundAfter(w, objects, codename, calls, path);
    assert keys[..Least(calls, |keys|)] == keys;
    assert KeyText(Pool(path)) == path;
  }
}
