/** What an upload leaves in the store, said of its files, of their own architectures and of the stored indexes. */
module UploadResults {
  import opened Text
  import P = Package
  import opened Keys
  import opened Calls
  import opened Worlds = World
  import opened Publication
  import opened History
  import opened Signatures
  import opened Commands
  import opened Adding
  import opened Republished
  import opened CommandResults
  import opened U = Upload
  import opened Uploader

  // ---- the manifests as suites

  lemma {:induction false} SuitesAt(o: Options, byHash: bool, loaded: seq<Loaded>, k: nat)
    requires k < |loaded|
    ensures SuitesOf(o, byHash, loaded)[k]
            == Suite(o.component, loaded[k].architecture, byHash, loaded[k].packages)
  {
    if k > 0 {
      SuitesAt(o, byHash, loaded[1..], k - 1);
    }
  }

  lemma {:induction false} SuitesPublish(o: Options, byHash: bool, loaded: seq<Loaded>, a: string)
    ensures PublishesSuite(SuitesOf(o, byHash, loaded), o.component, a) <==> Has(loaded, a)
  {
    var suites := SuitesOf(o, byHash, loaded);
    if Has(loaded, a) {
      SuitesAt(o, byHash, loaded, PositionOf(loaded, a));
    }
    if i :| 0 <= i < |suites| && suites[i].component == o.component && suites[i].architecture == a {
      SuitesAt(o, byHash, loaded, i);
    }
  }

  // ---- the calls of an upload that succeeds

  /** The run of an upload: its bodies, then its manifests. */
  ghost predicate Runs(
      w: World, before: Store, after: Store, o: Options, bodies: seq<Op>, suites: seq<Suite>, signing: Signing,
      date: string) {
    var plan :=
        UploadPlan(w, o.release.codename, Retrieved(w, before.objects, o.release), bodies, suites, signing, date);
    plan.completes && Exec(w.hasher.md5, before, plan.ops) == Attempt(after, true) && Bodies(bodies)
  }

  lemma {:induction false} UploadRuns(
      w: World, before: Store, after: Store, o: Options, files: seq<Result<Incoming>>, signing: Signing, date: string)
    requires Follows(w.hasher.md5, before, UploadCalls(w, before.objects, o, files, signing, date), after, true)
    ensures Manifests(w, before.objects, o, files).Ok?
    ensures var manifests := Manifests(w, before.objects, o, files).value;
            && AllBodies(w, o, manifests).completes
            && Runs(w, before, after, o, AllBodies(w, o, manifests).ops,
                 SuitesOf(o, Retrieved(w, before.objects, o.release).byHash, manifests), signing, date)
  {
    var manifests := Manifests(w, before.objects, o, files).value;
    AllBodiesAreBodies(w, o, manifests);
  }

  // ---- the indexes

  /** The stored packages of a suite with those of the run for it, or for `all`, added. */
  function UploadedTo(o: Options, files: seq<Result<Incoming>>, a: string, stored: seq<P.Package>): seq<P.Package> {
    WithAdded(stored, RunFor(o, files, a), o.preserveVersions)
  }

  lemma {:induction false} ManifestPackages(
      w: World, objects: Objects, o: Options, files: seq<Result<Incoming>>, a: string, stored: seq<P.Package>)
    requires Manifests(w, objects, o, files).Ok?
    requires HoldsIndex(w, objects, o.release.codename, o.component, a, stored)
    ensures var manifests := Manifests(w, objects, o, files).value;
            forall k :: 0 <= k < |manifests| && manifests[k].architecture == a ==>
              manifests[k].packages == UploadedTo(o, files, a, stored)
  {
    var manifests := Manifests(w, objects, o, files).value;
    forall k | 0 <= k < |manifests| && manifests[k].architecture == a
      ensures manifests[k].packages == UploadedTo(o, files, a, stored)
    {
      UploadPlaces(w, objects, o, files, k, stored);
    }
  }

  /** After an upload that succeeds, the index of every architecture it reached lists the packages stored there that
      none of the run replaces, in order, and then the run's packages for it and for `all`, each once. */
  lemma {:induction false} UploadLeaves(
      w: World, before: Store, after: Store, o: Options, files: seq<Result<Incoming>>, signing: Signing, date: string,
      a: string, stored: seq<P.Package>)
    requires Follows(w.hasher.md5, before, UploadCalls(w, before.objects, o, files, signing, date), after, true)
    requires NoneMistaken(w.hasher.md5, before.objects)
    requires Reached(ReleaseArchitectures(w, before.objects, o.release.codename), o, files, a)
    requires HoldsIndex(w, before.objects, o.release.codename, o.component, a, stored)
    ensures Shows(w, after.objects, o.release.codename, o.component, a, UploadedTo(o, files, a, stored),
            HashedBy(w, before.objects, o.release))
  {
    UploadRuns(w, before, after, o, files, signing, date);
    var manifests, byHash :=
        Manifests(w, before.objects, o, files).value, Retrieved(w, before.objects, o.release).byHash;
    var suites := SuitesOf(o, byHash, manifests);
    ManifestsReached(w, before.objects, o, files, a);
    ManifestPackages(w, before.objects, o, files, a, stored);
    SuitesPublish(o, byHash, manifests, a);
    forall i | 0 <= i < |suites| && suites[i].component == o.component && suites[i].architecture == a
      ensures suites[i].packages == UploadedTo(o, files, a, stored) && suites[i].byHash == byHash
    {
      SuitesAt(o, byHash, manifests, i);
    }
    RunLeaves(w, before, after, o.release, AllBodies(w, o, manifests).ops, suites, signing, date, o.component, a,
        UploadedTo(o, files, a, stored), byHash);
  }

  /** However far it gets, it changes no listed index that it does not reach, and none of another codename. */
  lemma {:induction false} UploadChangesOnly(
      w: World, before: Store, after: Store, ok: bool, o: Options, files: seq<Result<Incoming>>, signing: Signing,
      date: string)
    requires Follows(w.hasher.md5, before, UploadCalls(w, before.objects, o, files, signing, date), after, ok)
    ensures ChangesOnly(w, before.objects, after.objects, o.release.codename, o.component,
            iset a | Reached(ReleaseArchitectures(w, before.objects, o.release.codename), o, files, a))
  {
    var manifests := Manifests(w, before.objects, o, files);
    if manifests.Ok? {
      forall c, part, a | c != o.release.codename
          || (ListsIndex(w, before.objects, c, part, a) && !(part == o.component
              && Reached(ReleaseArchitectures(w, before.objects, o.release.codename), o, files, a)))
        ensures SameIndexes(before.objects, after.objects, c, part, a)
      {
        OnlyReached(w, before.objects, o, files, part, a);
        KeptEitherWay(w, before, after, o, files, signing, date, c, part, a);
      }
    }
  }

  lemma {:induction false} OnlyReached(
      w: World, objects: Objects, o: Options, files: seq<Result<Incoming>>, part: string, a: string)
    requires Manifests(w, objects, o, files).Ok?
    ensures PublishesSuite(SuitesOf(o, Retrieved(w, objects, o.release).byHash, Manifests(w, objects, o, files).value),
            part, a)
            ==> part == o.component && Reached(ReleaseArchitectures(w, objects, o.release.codename), o, files, a)
  {
    var byHash, manifests := Retrieved(w, objects, o.release).byHash, Manifests(w, objects, o, files).value;
    var suites := SuitesOf(o, byHash, manifests);
    if i :| 0 <= i < |suites| && suites[i].component == part && suites[i].architecture == a {
      SuitesAt(o, byHash, manifests, i);
      SuitesPublish(o, byHash, manifests, a);
      ManifestsReached(w, objects, o, files, a);
    }
  }

  lemma {:induction false} KeptEitherWay(
      w: World, before: Store, after: Store, o: Options, files: seq<Result<Incoming>>, signing: Signing, date: string,
      c: string, part: string, a: string)
    requires Manifests(w, before.objects, o, files).Ok?
    requires after
             == Exec(w.hasher.md5, before, UploadCalls(w, before.objects, o, files, signing, date).ops).store
    requires c != o.release.codename
             || (ListsIndex(w, before.objects, c, part, a)
                && !PublishesSuite(SuitesOf(o, Retrieved(w, before.objects, o.release).byHash,
                     Manifests(w, before.objects, o, files).value), part, a))
    ensures SameIndexes(before.objects, after.objects, c, part, a)
  {
    var manifests := Manifests(w, before.objects, o, files).value;
    var bodies := AllBodies(w, o, manifests);
    AllBodiesAreBodies(w, o, manifests);
    if bodies.completes {
      IndexesKept(w, before, o.release, bodies.ops, SuitesOf(o, Retrieved(w, before.objects, o.release).byHash,
          manifests), signing, date, c, part, a);
    } else {
      Untouched(w.hasher.md5, before, bodies.ops, Index(c, part, a, false));
      Untouched(w.hasher.md5, before, bodies.ops, Index(c, part, a, true));
    }
  }

  // ---- the bodies

  ghost predicate FromFiles(loaded: seq<Loaded>, files: seq<Result<Incoming>>) {
    forall file :: IsPending(loaded, file) ==> Ok(file) in files
  }

  lemma {:induction false} LoadFromFiles(
      w: World, objects: Objects, o: Options, loaded: seq<Loaded>, a: string, files: seq<Result<Incoming>>)
    requires FromFiles(loaded, files) && Load(w, objects, o, loaded, a).Ok?
    ensures FromFiles(Load(w, objects, o, loaded, a).value, files)
  {
    var next := Load(w, objects, o, loaded, a).value;
    forall file | IsPending(next, file) ensures Ok(file) in files {
      var k :| 0 <= k < |next| && file in next[k].pending;
      assert IsPending(loaded, file);
    }
  }

  lemma {:induction false} LoadAllFromFiles(
      w: World, objects: Objects, o: Options, loaded: seq<Loaded>, architectures: seq<string>,
      files: seq<Result<Incoming>>)
    requires FromFiles(loaded, files) && LoadAll(w, objects, o, loaded, architectures).Ok?
    ensures FromFiles(LoadAll(w, objects, o, loaded, architectures).value, files)
    decreases |architectures|
  {
    if architectures != [] {
      LoadFromFiles(w, objects, o, loaded, architectures[0], files);
      LoadAllFromFiles(w, objects, o, Load(w, objects, o, loaded, architectures[0]).value, architectures[1..], files);
    }
  }

  lemma {:induction false} PlaceFromFiles(
      w: World, objects: Objects, o: Options, st: Placing, file: Result<Incoming>, files: seq<Result<Incoming>>)
    requires FromFiles(st.loaded, files) && file in files && Place(w, objects, o, st, file).Ok?
    ensures FromFiles(Place(w, objects, o, st, file).value.loaded, files)
  {
    var a := TargetOf(file.value.pack, o.architecture).value;
    var loaded, next := LoadFor(w, objects, o, st.loaded, a).value, Place(w, objects, o, st, file).value.loaded;
    if a == ALL && st.loaded == [] {
      LoadAllFromFiles(w, objects, o, st.loaded, DEFAULT_ARCHITECTURES, files);
      LoadFromFiles(w, objects, o, LoadAll(w, objects, o, st.loaded, DEFAULT_ARCHITECTURES).value, a, files);
    } else {
      LoadFromFiles(w, objects, o, st.loaded, a, files);
    }
    forall f | IsPending(next, f) ensures Ok(f) in files {
      var k :| 0 <= k < |next| && f in next[k].pending;
      if f != file.value {
        assert f in loaded[k].pending;
        assert IsPending(loaded, f);
      }
    }
  }

  lemma {:induction false} PlaceAllFromFiles(
      w: World, objects: Objects, o: Options, st: Placing, more: seq<Result<Incoming>>, files: seq<Result<Incoming>>)
    requires FromFiles(st.loaded, files) && PlaceAll(w, objects, o, st, more).Ok?
    requires forall i :: 0 <= i < |more| ==> more[i] in files
    ensures FromFiles(PlaceAll(w, objects, o, st, more).value.loaded, files)
    decreases |more|
  {
    if more != [] {
      PlaceFromFiles(w, objects, o, st, more[0], files);
      PlaceAllFromFiles(w, objects, o, Place(w, objects, o, st, more[0]).value, more[1..], files);
    }
  }

  /** Only files of the run are brought. */
  lemma {:induction false} ManifestsFromFiles(w: World, objects: Objects, o: Options, files: seq<Result<Incoming>>)
    requires Manifests(w, objects, o, files).Ok?
    ensures FromFiles(Manifests(w, objects, o, files).value, files)
  {
    var architectures, st := Retrieved(w, objects, o.release).architectures, Placed(w, objects, o, files);
    LoadAllFromFiles(w, objects, o, [], architectures, files);
    PlaceAllFromFiles(w, objects, o, Placing(LoadAll(w, objects, o, [], architectures).value, []), files, files);
    var manifests := Manifests(w, objects, o, files).value;
    SpreadSameLength(o, st.loaded, st.everywhere);
    forall file | IsPending(manifests, file) ensures Ok(file) in files {
      var k :| 0 <= k < |manifests| && file in manifests[k].pending;
      SpreadAllAt(o, st.loaded, st.everywhere, k);
      assert IsPending(st.loaded, file);
    }
  }

  /** The files that go to this place have these bytes. */
  ghost predicate OneBody(w: World, o: Options, files: seq<Result<Incoming>>, path: string, body: string) {
    forall file :: Ok(file) in files && w.pathOf(file.pack, o.release.codename) == Ok(path) ==> file.body == body
  }

  lemma {:induction false} BodiesPut(
      w: World, o: Options, pending: seq<Incoming>, files: seq<Result<Incoming>>, path: string, body: string)
    requires OneBody(w, o, files, path, body) && forall j :: 0 <= j < |pending| ==> Ok(pending[j]) in files
    ensures OnlyPuts(BodiesOf(w, o, pending).ops, Pool(path), body)
  {
    if !o.skipPackageUpload && pending != [] && BodyOp(w, o, pending[0]).Ok? {
      var op, rest := BodyOp(w, o, pending[0]).value, BodiesOf(w, o, pending[1..]).ops;
      BodiesPut(w, o, pending[1..], files, path, body);
      assert OnlyPuts([op], Pool(path), body);
      OnlyPutsAppend([op], rest, Pool(path), body);
    }
  }

  lemma {:induction false} AllBodiesPut(
      w: World, o: Options, loaded: seq<Loaded>, files: seq<Result<Incoming>>, path: string, body: string)
    requires OneBody(w, o, files, path, body) && FromFiles(loaded, files)
    ensures OnlyPuts(AllBodies(w, o, loaded).ops, Pool(path), body)
  {
    if loaded != [] {
      var rest := loaded[1..];
      forall j | 0 <= j < |loaded[0].pending| ensures Ok(loaded[0].pending[j]) in files {
        assert IsPending(loaded, loaded[0].pending[j]);
      }
      forall file | IsPending(rest, file) ensures Ok(file) in files {
        var k :| 0 <= k < |rest| && file in rest[k].pending;
        assert file in loaded[k + 1].pending;
      }
      BodiesPut(w, o, loaded[0].pending, files, path, body);
      AllBodiesPut(w, o, rest, files, path, body);
      OnlyPutsAppend(BodiesOf(w, o, loaded[0].pending).ops, AllBodies(w, o, rest).ops, Pool(path), body);
    }
  }

  /** Putting bodies, and nothing else on bodies. */
  lemma {:induction false} RunPuts(
      w: World, before: Store, after: Store, o: Options, bodies: seq<Op>, suites: seq<Suite>, signing: Signing,
      date: string, path: string, body: string)
    requires Runs(w, before, after, o, bodies, suites, signing, date) && NoneMistaken(w.hasher.md5, before.objects)
    requires OnlyPuts(bodies, Pool(path), body)
    ensures if Avoids(bodies, Pool(path)) then SameAt(before.objects, after.objects, Pool(path))
            else Pool(path) in after.objects && after.objects[Pool(path)] == body
  {
    var c, r := o.release.codename, Retrieved(w, before.objects, o.release);
    var ops := UploadPlan(w, c, r, bodies, suites, signing, date).ops;
    if Avoids(bodies, Pool(path)) {
      PlanAvoids(w, c, r, bodies, suites, signing, date, Pool(path));
      Untouched(w.hasher.md5, before, ops, Pool(path));
    } else {
      PlanAvoids(w, c, r, [], suites, signing, date, Pool(path));
      var metadata := MetadataPlan(w, c, r, suites, signing, date).ops;
      UploadOfNothing(w, c, r, suites, signing, date);
      AvoidsPuts(metadata, Pool(path), body);
      OnlyPutsAppend(bodies, metadata, Pool(path), body);
      PutLeaves(w.hasher.md5, before, ops, Pool(path), body);
    }
  }

  /** After an upload that succeeds, the object under the path of each of its files has the bytes of that file, when
      the files of the run with this path agree on them. */
  lemma {:induction false} UploadStoresBodies(
      w: World, before: Store, after: Store, o: Options, files: seq<Result<Incoming>>, signing: Signing, date: string,
      file: Incoming)
    requires Follows(w.hasher.md5, before, UploadCalls(w, before.objects, o, files, signing, date), after, true)
    requires NoneMistaken(w.hasher.md5, before.objects) && !o.skipPackageUpload && Ok(file) in files
    requires w.pathOf(file.pack, o.release.codename).Ok?
    requires OneBody(w, o, files, w.pathOf(file.pack, o.release.codename).value, file.body)
    ensures var key := Pool(w.pathOf(file.pack, o.release.codename).value);
            key in after.objects && after.objects[key] == file.body
  {
    UploadRuns(w, before, after, o, files, signing, date);
    var path, manifests :=
        w.pathOf(file.pack, o.release.codename).value, Manifests(w, before.objects, o, files).value;
    var suites := SuitesOf(o, Retrieved(w, before.objects, o.release).byHash, manifests);
    var bodies := AllBodies(w, o, manifests).ops;
    ManifestsFromFiles(w, before.objects, o, files);
    AllBodiesPut(w, o, manifests, files, path, file.body);
    FileBodiesCalled(w, before.objects, o, files);
    var i :| 0 <= i < |files| && files[i] == Ok(file);
    assert Pool(path) in FileKeys(w, o, files);
    var j :| 0 <= j < |bodies| && bodies[j].key == Pool(path);
    RunPuts(w, before, after, o, bodies, suites, signing, date, path, file.body);
  }

  ghost predicate Guarded(ops: seq<Op>) {
    forall j :: 0 <= j < |ops| ==> ops[j].Put? && ops[j].mode != Overwrite
  }

  lemma {:induction false} BodiesGuarded(w: World, o: Options, pending: seq<Incoming>)
    requires o.failIfExists
    ensures Guarded(BodiesOf(w, o, pending).ops)
  {
    if !o.skipPackageUpload && pending != [] && BodyOp(w, o, pending[0]).Ok? {
      BodiesGuarded(w, o, pending[1..]);
    }
  }

  lemma {:induction false} AllBodiesGuarded(w: World, o: Options, loaded: seq<Loaded>)
    requires o.failIfExists
    ensures Guarded(AllBodies(w, o, loaded).ops)
  {
    if loaded != [] {
      BodiesGuarded(w, o, loaded[0].pending);
      AllBodiesGuarded(w, o, loaded[1..]);
    }
  }

  lemma {:induction false} GuardedRun(
      w: World, before: Store, after: Store, o: Options, bodies: seq<Op>, suites: seq<Suite>, signing: Signing,
      date: string, path: string)
    requires Runs(w, before, after, o, bodies, suites, signing, date) && Guarded(bodies)
    requires Pool(path) in before.objects
    ensures SameAt(before.objects, after.objects, Pool(path))
  {
    var c, r := o.release.codename, Retrieved(w, before.objects, o.release);
    var ops, metadata :=
        UploadPlan(w, c, r, bodies, suites, signing, date).ops, MetadataPlan(w, c, r, suites, signing, date).ops;
    PlanAvoids(w, c, r, [], suites, signing, date, Pool(path));
    UploadOfNothing(w, c, r, suites, signing, date);
    assert ops == bodies + metadata && forall j :: |bodies| <= j < |ops| ==> ops[j] == metadata[j - |bodies|];
    NothingReplaced(w.hasher.md5, before, ops, Pool(path));
  }

  /** An upload that must not replace files, and succeeds, has replaced none. */
  lemma {:induction false} UploadReplacesNothing(
      w: World, before: Store, after: Store, o: Options, files: seq<Result<Incoming>>, signing: Signing, date: string,
      path: string)
    requires Follows(w.hasher.md5, before, UploadCalls(w, before.objects, o, files, signing, date), after, true)
    requires o.failIfExists && Pool(path) in before.objects
    ensures SameAt(before.objects, after.objects, Pool(path))
  {
    UploadRuns(w, before, after, o, files, signing, date);
    var manifests := Manifests(w, before.objects, o, files).value;
    AllBodiesGuarded(w, o, manifests);
    GuardedRun(w, before, after, o, AllBodies(w, o, manifests).ops,
        SuitesOf(o, Retrieved(w, before.objects, o.release).byHash, manifests), signing, date, path);
  }

  lemma {:induction false} NoBodies(w: World, o: Options, loaded: seq<Loaded>)
    requires o.skipPackageUpload
    ensures AllBodies(w, o, loaded) == Plan([], true)
  {
    if loaded != [] {
      NoBodies(w, o, loaded[1..]);
      AppendEmpty<Op>([]);
    }
  }

  /** Told to leave the bodies out, it stores none. */
  lemma {:induction false} UploadLeavesBodies(
      w: World, before: Store, after: Store, o: Options, files: seq<Result<Incoming>>, signing: Signing, date: string)
    requires Follows(w.hasher.md5, before, UploadCalls(w, before.objects, o, files, signing, date), after, true)
    requires NoneMistaken(w.hasher.md5, before.objects) && o.skipPackageUpload
    ensures SameBodies(before.objects, after.objects)
  {
    UploadRuns(w, before, after, o, files, signing, date);
    var manifests := Manifests(w, before.objects, o, files).value;
    NoBodies(w, o, manifests);
    forall path ensures SameAt(before.objects, after.objects, Pool(path)) {
      RunPuts(w, before, after, o, [], SuitesOf(o, Retrieved(w, before.objects, o.release).byHash, manifests), signing,
          date, path, "");
    }
  }

  // ---- refusals

  /** The index of the architecture cannot be read, or one of the run's packages for it clashes with another. */
  ghost predicate Rejects(w: World, objects: Objects, o: Options, files: seq<Result<Incoming>>, a: string) {
    || Unreadable(w, objects, o.release.codename, o.component, a)
    || exists stored :: HoldsIndex(w, objects, o.release.codename, o.component, a, stored) && o.failIfExists
         && SomeRefused(stored, RunFor(o, files, a), o.preserveVersions, o.release.codename)
  }

  lemma {:induction false} RejectsExactly(
      w: World, objects: Objects, o: Options, files: seq<Result<Incoming>>, a: string)
    ensures Rejects(w, objects, o, files, a) <==> StoredWith(w, objects, o, a, RunFor(o, files, a)).Err?
  {
    ReadableHolds(w, objects, o.release.codename, o.component, a);
    var stored := RetrievedPackages(w, objects, o.release.codename, o.component, a);
    if stored.Ok? {
      RefusedExactly(stored.value, RunFor(o, files, a), o.preserveVersions, o.release.codename, o.failIfExists);
    }
  }

  ghost predicate SomeRejects(w: World, objects: Objects, o: Options, files: seq<Result<Incoming>>) {
    exists a :: Reached(ReleaseArchitectures(w, objects, o.release.codename), o, files, a)
                && Rejects(w, objects, o, files, a)
  }

  /** An upload is refused before its first call exactly when one of its files cannot be examined, is made for another
      architecture than the override or has none to go to, or an index that it reaches cannot be read or refuses one
      of its packages; and then it leaves the store alone. */
  lemma {:induction false} UploadRefused(
      w: World, before: Store, after: Store, ok: bool, o: Options, files: seq<Result<Incoming>>, signing: Signing,
      date: string)
    requires Follows(w.hasher.md5, before, UploadCalls(w, before.objects, o, files, signing, date), after, ok)
    ensures Manifests(w, before.objects, o, files).Err?
            <==> (exists i :: 0 <= i < |files| && (files[i].Ok? ==> !Placeable(o, files[i].value)))
                 || SomeRejects(w, before.objects, o, files)
    ensures Manifests(w, before.objects, o, files).Err? ==> !ok && after == before
  {
    AcceptedExactly(w, before.objects, o, files);
    forall a ensures Rejects(w, before.objects, o, files, a)
                     <==> StoredWith(w, before.objects, o, a, RunFor(o, files, a)).Err? {
      RejectsExactly(w, before.objects, o, files, a);
    }
    var architectures := ReleaseArchitectures(w, before.objects, o.release.codename);
    if Manifests(w, before.objects, o, files).Err? && EveryPlaceable(o, files) {
      var a :| Reached(architectures, o, files, a)
               && StoredWith(w, before.objects, o, a, RunFor(o, files, a)).Err?;
      assert Rejects(w, before.objects, o, files, a);
    }
  }
}
