/** The upload itself: four phases of calls after everything is prepared in memory. */
module Uploader {
  import opened Text
  import P = Package
  import E = Edits
  import R = Release
  import opened Keys
  import opened Calls
  import opened Worlds = World
  import opened Publication
  import opened Publisher
  import opened Commander
  import opened U = Upload

  method LoadManifest(bucket: Bucket, w: World, o: Options, loaded: seq<Loaded>, a: string)
    returns (r: Result<seq<Loaded>>)
    ensures r == Load(w, bucket.objects, o, loaded, a)
  {
    if PositionOf(loaded, a) < |loaded| {
      return Ok(loaded);
    }
    var packages := RetrieveManifest(bucket, w, o.release.codename, o.component, a);
    if packages.Err? {
      return Err(packages.reason);
    }
    return Ok(loaded + [Loaded(a, packages.value, [])]);
  }

  method LoadEach(bucket: Bucket, w: World, o: Options, loaded: seq<Loaded>, architectures: seq<string>)
    returns (r: Result<seq<Loaded>>)
    ensures r == LoadAll(w, bucket.objects, o, loaded, architectures)
  {
    var now := loaded;
    assert architectures[0..] == architectures;
    for i := 0 to |architectures|
      invariant LoadAll(w, bucket.objects, o, now, architectures[i..])
              == LoadAll(w, bucket.objects, o, loaded, architectures)
    {
      assert architectures[i..][0] == architectures[i] && architectures[i..][1..] == architectures[i + 1..];
      var next := LoadManifest(bucket, w, o, now, architectures[i]);
      if next.Err? {
        return next;
      }
      now := next.value;
    }
    return Ok(now);
  }

  method PlaceFile(bucket: Bucket, w: World, o: Options, st: Placing, file: Result<Incoming>)
    returns (r: Result<Placing>)
    ensures r == Place(w, bucket.objects, o, st, file)
  {
    if file.Err? {
      return Err(file.reason);
    }
    var pack := file.value.pack;
    var a := TargetOf(pack, o.architecture);
    if a.Err? {
      return Err(a.reason);
    }
    var loaded: Result<seq<Loaded>> := Ok(st.loaded);
    if a.value == ALL && |st.loaded| == 0 {
      loaded := LoadEach(bucket, w, o, st.loaded, DEFAULT_ARCHITECTURES);
      if loaded.Err? {
        return Err(loaded.reason);
      }
    }
    loaded := LoadManifest(bucket, w, o, loaded.value, a.value);
    if loaded.Err? {
      return Err(loaded.reason);
    }
    r := AddTo(o, st, loaded.value, a.value, file.value);
  }

  method AddTo(o: Options, st: Placing, loaded: seq<Loaded>, a: string, file: Incoming) returns (r: Result<Placing>)
    ensures var i := PositionOf(loaded, a);
            if i == |loaded| then r == Err(NO_ARCHITECTURE)
            else
              var failure := E.AddFailure(loaded[i].packages, file.pack, o.release.codename, o.failIfExists);
              if failure.Some? then r == Err(failure.value)
              else
                r == Ok(Placing(
                  loaded[i :=
                      Loaded(a, E.Added(loaded[i].packages, file.pack, o.preserveVersions), loaded[i].pending
                      + [file])],
                  if a == ALL then st.everywhere + [file.pack] else st.everywhere))
  {
    var i := PositionOf(loaded, a);
    if i == |loaded| {
      return Err(NO_ARCHITECTURE);
    }
    var failure := E.AddFailure(loaded[i].packages, file.pack, o.release.codename, o.failIfExists);
    if failure.Some? {
      return Err(failure.value);
    }
    var added := Loaded(a, E.Added(loaded[i].packages, file.pack, o.preserveVersions), loaded[i].pending + [file]);
    return Ok(Placing(loaded[i := added], if a == ALL then st.everywhere + [file.pack] else st.everywhere));
  }

  method PlaceEach(bucket: Bucket, w: World, o: Options, loaded: seq<Loaded>, files: seq<Result<Incoming>>)
    returns (r: Result<Placing>)
    ensures r == PlaceAll(w, bucket.objects, o, Placing(loaded, []), files)
  {
    var st := Placing(loaded, []);
    assert files[0..] == files;
    for i := 0 to |files|
      invariant PlaceAll(w, bucket.objects, o, st, files[i..])
              == PlaceAll(w, bucket.objects, o, Placing(loaded, []), files)
    {
      assert files[i..][0] == files[i] && files[i..][1..] == files[i + 1..];
      var next := PlaceFile(bucket, w, o, st, files[i]);
      if next.Err? {
        return next;
      }
      st := next.value;
    }
    return Ok(st);
  }

  // ---- spreading, in whatever order the manifests come

  lemma {:induction false} SpreadFails(o: Options, loaded: seq<Loaded>, everywhere: seq<P.Package>, i: nat)
    requires i < |loaded| && Spread(o, loaded[i], everywhere).Err?
    ensures SpreadAll(o, loaded, everywhere).Err?
  {
    if i > 0 {
      SpreadFails(o, loaded[1..], everywhere, i - 1);
    }
  }

  lemma {:induction false} SpreadSucceeds(
      o: Options, loaded: seq<Loaded>, everywhere: seq<P.Package>, result: seq<Loaded>)
    requires |result| == |loaded| && forall i :: 0 <= i < |loaded| ==> Spread(o, loaded[i], everywhere) == Ok(result[i])
    ensures SpreadAll(o, loaded, everywhere) == Ok(result)
  {
    if loaded != [] {
      SpreadSucceeds(o, loaded[1..], everywhere, result[1..]);
      assert [result[0]] + result[1..] == result;
    }
  }

  function Below(n: nat): (r: set<nat>)
    ensures forall i: nat :: i in r <==> i < n
  {
    if n == 0 then {} else Below(n - 1) + {n - 1}
  }

  /** The outcome does not depend on the order in which the manifests are visited. */
  method SpreadEach(o: Options, loaded: seq<Loaded>, everywhere: seq<P.Package>) returns (r: Result<seq<Loaded>>)
    ensures r.Ok? == SpreadAll(o, loaded, everywhere).Ok?
    ensures r.Ok? ==> r == SpreadAll(o, loaded, everywhere)
  {
    var result := loaded;
    var left: set<nat> := Below(|loaded|);
    while left != {}
      invariant |result| == |loaded| && forall i :: i in left ==> i < |loaded|
      invariant forall i: nat :: 0 <= i < |loaded| && i !in left ==> Spread(o, loaded[i], everywhere) == Ok(result[i])
      decreases |left|
    {
      var i: nat :| i in left;
      left := left - {i};
      var spread := SpreadOne(o, loaded[i], everywhere);
      if spread.Err? {
        SpreadFails(o, loaded, everywhere, i);
        return Err(spread.reason);
      }
      result := result[i := spread.value];
    }
    SpreadSucceeds(o, loaded, everywhere, result);
    return Ok(result);
  }

  method SpreadOne(o: Options, l: Loaded, everywhere: seq<P.Package>) returns (r: Result<Loaded>)
    ensures r == Spread(o, l, everywhere)
  {
    if l.architecture == ALL {
      return Ok(l);
    }
    var added := AddAll(l.packages, everywhere, o.preserveVersions, o.release.codename, o.failIfExists);
    if added.Err? {
      return Err(added.reason);
    }
    return Ok(l.(packages := added.value));
  }

  /** Everything that happens in memory: reads only. */
  method BuildManifests(bucket: Bucket, w: World, o: Options, architectures: seq<string>, files: seq<Result<Incoming>>)
    returns (r: Result<seq<Loaded>>)
    requires architectures == Retrieved(w, bucket.objects, o.release).architectures
    ensures r.Ok? == Manifests(w, bucket.objects, o, files).Ok?
    ensures r.Ok? ==> r == Manifests(w, bucket.objects, o, files)
  {
    var loaded := LoadEach(bucket, w, o, [], architectures);
    if loaded.Err? {
      return loaded;
    }
    var st := PlaceEach(bucket, w, o, loaded.value, files);
    if st.Err? {
      return Err(st.reason);
    }
    r := SpreadEach(o, st.value.loaded, st.value.everywhere);
  }

  // ---- the body phase

  method PublishPackage(bucket: Bucket, w: World, o: Options, file: Incoming) returns (ok: bool)
    requires bucket.md5 == w.hasher.md5
    modifies bucket
    ensures var op := BodyOp(w, o, file);
            if op.Err? then !ok && bucket.View() == old(bucket.View())
            else Attempt(bucket.View(), ok) == Step(w.hasher.md5, old(bucket.View()), op.value)
  {
    var path := w.pathOf(file.pack, o.release.codename);
    if file.pack.filename == "" || path.Err? || !HasPrefix(path.value, "pool/") {
      return false;
    }
    ok := bucket.Put(Pool(path.value), file.body, if o.failIfExists then FailIfExists else Overwrite);
  }

  /** A plan run from a store: the calls in order, then its own verdict. */
  predicate Follows(md5: string -> string, before: Store, plan: Plan, after: Store, ok: bool) {
    var run := Exec(md5, before, plan.ops);
    after == run.store && ok == (run.ok && plan.completes)
  }

  method PublishPackages(bucket: Bucket, w: World, o: Options, pending: seq<Incoming>) returns (ok: bool)
    requires bucket.md5 == w.hasher.md5
    modifies bucket
    ensures Follows(w.hasher.md5, old(bucket.View()), BodiesOf(w, o, pending), bucket.View(), ok)
  {
    if o.skipPackageUpload {
      return true;
    }
    ghost var before := bucket.View();
    assert pending[0..] == pending;
    for i := 0 to |pending|
      invariant forall after, done {:trigger Follows(w.hasher.md5, before, BodiesOf(w, o, pending), after, done)} ::
                  Follows(w.hasher.md5, bucket.View(), BodiesOf(w, o, pending[i..]), after, done)
                  ==> Follows(w.hasher.md5, before, BodiesOf(w, o, pending), after, done)
    {
      assert pending[i..][0] == pending[i] && pending[i..][1..] == pending[i + 1..];
      ghost var here := bucket.View();
      ok := PublishPackage(bucket, w, o, pending[i]);
      BodyStep(w, o, pending[i], pending[i + 1..], here);
      assert [pending[i]] + pending[i + 1..] == pending[i..];
      if !ok {
        assert Follows(w.hasher.md5, here, BodiesOf(w, o, pending[i..]), bucket.View(), false);
        return;
      }
    }
    assert pending[|pending|..] == [];
    assert Follows(w.hasher.md5, bucket.View(), BodiesOf(w, o, pending[|pending|..]), bucket.View(), true);
    return true;
  }

  lemma {:induction false} BodyStep(w: World, o: Options, file: Incoming, rest: seq<Incoming>, store: Store)
    requires !o.skipPackageUpload
    ensures var op, plan := BodyOp(w, o, file), BodiesOf(w, o, [file] + rest);
            if op.Err? then Exec(w.hasher.md5, store, plan.ops) == Attempt(store, true) && !plan.completes
            else
              var first := Step(w.hasher.md5, store, op.value);
              && plan.completes == BodiesOf(w, o, rest).completes
              && Exec(w.hasher.md5, store, plan.ops)
                 == if first.ok then Exec(w.hasher.md5, first.store, BodiesOf(w, o, rest).ops) else first
  {
    assert ([file] + rest)[1..] == rest;
    var op := BodyOp(w, o, file);
    if op.Ok? {
      ExecAppend(w.hasher.md5, store, [op.value], BodiesOf(w, o, rest).ops);
      ExecOne(w.hasher.md5, store, op.value);
    }
  }

  lemma {:induction false} BodiesStep(w: World, o: Options, l: Loaded, rest: seq<Loaded>, store: Store)
    ensures var here, plan := BodiesOf(w, o, l.pending), AllBodies(w, o, [l] + rest);
            var first := Exec(w.hasher.md5, store, here.ops);
            if !here.completes then plan == here
            else
              && plan.completes == AllBodies(w, o, rest).completes
              && Exec(w.hasher.md5, store, plan.ops)
                 == if first.ok then Exec(w.hasher.md5, first.store, AllBodies(w, o, rest).ops) else first
  {
    assert ([l] + rest)[1..] == rest;
    ExecAppend(w.hasher.md5, store, BodiesOf(w, o, l.pending).ops, AllBodies(w, o, rest).ops);
  }

  method PublishBodies(bucket: Bucket, w: World, o: Options, loaded: seq<Loaded>) returns (ok: bool)
    requires bucket.md5 == w.hasher.md5
    modifies bucket
    ensures Follows(w.hasher.md5, old(bucket.View()), AllBodies(w, o, loaded), bucket.View(), ok)
  {
    ghost var before := bucket.View();
    assert loaded[0..] == loaded;
    for i := 0 to |loaded|
      invariant forall after, done {:trigger Follows(w.hasher.md5, before, AllBodies(w, o, loaded), after, done)} ::
                  Follows(w.hasher.md5, bucket.View(), AllBodies(w, o, loaded[i..]), after, done)
                  ==> Follows(w.hasher.md5, before, AllBodies(w, o, loaded), after, done)
    {
      assert [loaded[i]] + loaded[i + 1..] == loaded[i..];
      ghost var here := bucket.View();
      ok := PublishPackages(bucket, w, o, loaded[i].pending);
      BodiesStep(w, o, loaded[i], loaded[i + 1..], here);
      if !ok {
        assert Follows(w.hasher.md5, here, AllBodies(w, o, loaded[i..]), bucket.View(), false);
        return;
      }
    }
    assert loaded[|loaded|..] == [];
    assert Follows(w.hasher.md5, bucket.View(), AllBodies(w, o, loaded[|loaded|..]), bucket.View(), true);
    return true;
  }

  // ---- the four phases

  method CollectSuites(o: Options, byHash: bool, loaded: seq<Loaded>) returns (suites: seq<Suite>)
    ensures suites == SuitesOf(o, byHash, loaded)
  {
    suites := [];
    assert loaded[0..] == loaded;
    AppendEmpty(SuitesOf(o, byHash, loaded));
    for i := 0 to |loaded|
      invariant suites + SuitesOf(o, byHash, loaded[i..]) == SuitesOf(o, byHash, loaded)
    {
      assert loaded[i..][0] == loaded[i] && loaded[i..][1..] == loaded[i + 1..];
      var suite := Suite(o.component, loaded[i].architecture, byHash, loaded[i].packages);
      Assoc(suites, [suite], SuitesOf(o, byHash, loaded[i + 1..]));
      suites := suites + [suite];
    }
    AppendEmpty(suites);
  }

  /** `Upload`: any failure to examine, place or prepare a package happens before the first call. */
  method Upload(bucket: Bucket, w: World, o: Options, files: seq<Result<Incoming>>, signing: Signing, date: string)
    returns (ok: bool)
    requires bucket.md5 == w.hasher.md5
    modifies bucket
    ensures Follows(w.hasher.md5, old(bucket.View()), UploadCalls(w, old(bucket.objects), o, files, signing, date),
            bucket.View(), ok)
    ensures Manifests(w, old(bucket.objects), o, files).Err? ==> !ok && bucket.View() == old(bucket.View())
  {
    var release := RetrieveRelease(bucket, w, o.release);
    var manifests := BuildManifests(bucket, w, o, release.architectures, files);
    if manifests.Err? {
      return false;
    }
    ok := PublishManifests(bucket, w, release, o, manifests.value, signing, date);
  }

  method PublishManifests(
      bucket: Bucket, w: World, release: R.Release, o: Options, manifests: seq<Loaded>, signing: Signing, date: string)
    returns (ok: bool)
    requires bucket.md5 == w.hasher.md5
    modifies bucket, release
    ensures var r, c := old(release.View()), o.release.codename;
            var suites, bodies := SuitesOf(o, r.byHash, manifests), AllBodies(w, o, manifests);
            if PreparedFor(w, c, r, suites).Err? then !ok && bucket.View() == old(bucket.View())
            else if !bodies.completes then Follows(w.hasher.md5, old(bucket.View()), bodies, bucket.View(), ok)
            else Follows(w.hasher.md5, old(bucket.View()), UploadPlan(w, c, r, bodies.ops, suites, signing, date),
                bucket.View(), ok)
  {
    ghost var r, before := release.View(), bucket.View();
    var c := o.release.codename;
    var suites := CollectSuites(o, release.byHash, manifests);
    var prepared := PrepareRun(w, release, c, suites);
    if prepared.Err? {
      return false;
    }
    ghost var bodies, metadata := AllBodies(w, o, manifests), MetadataPlan(w, c, r, suites, signing, date);
    ok := PublishBodies(bucket, w, o, manifests);
    if !ok {
      FollowsStopped(w.hasher.md5, before, bodies, metadata, bucket.View());
      return;
    }
    ghost var middle := bucket.View();
    ok := PublishPrepared(bucket, w, release, c, prepared.value, signing, date);
    FollowsBoth(w.hasher.md5, before, bodies, middle, metadata, bucket.View(), ok);
  }

  lemma {:induction false} FollowsStopped(md5: string -> string, before: Store, first: Plan, second: Plan, after: Store)
    requires Follows(md5, before, first, after, false)
    ensures first.completes ==> Follows(md5, before, Plan(first.ops + second.ops, second.completes), after, false)
  {
    ExecAppend(md5, before, first.ops, second.ops);
  }

  lemma {:induction false} FollowsBoth(
      md5: string -> string, before: Store, first: Plan, middle: Store, second: Plan, after: Store, ok: bool)
    requires Follows(md5, before, first, middle, true) && Follows(md5, middle, second, after, ok)
    ensures first.completes && Follows(md5, before, Plan(first.ops + second.ops, second.completes), after, ok)
  {
    ExecAppend(md5, before, first.ops, second.ops);
  }
}
