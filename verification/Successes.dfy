/** When commands succeed: given calls enough, and digests that tell texts apart, exactly when nothing the caller can
    see beforehand is in their way. */
module Successes {
  import opened Text
  import P = Package
  import opened R = Release
  import opened Keys
  import opened Calls
  import opened Worlds = World
  import opened Publication
  import opened Concurrent
  import opened History
  import opened Signatures
  import opened Commands
  import opened Commander
  import opened Adding
  import opened Republished
  import opened CommandResults
  import opened VerifyResults
  import H = CommandHistory
  import U = Upload
  import opened Uploader
  import opened UploadResults

  // ---- calls that all get through

  /** A call that must not replace an object finds none of another digest, and no call on the same object is a
      deletion or stores another text. */
  ghost predicate Welcome(md5: string -> string, objects: Objects, ops: seq<Op>, j: nat)
    requires j < |ops| && ops[j].Put?
  {
    && (ops[j].key in objects ==> md5(objects[ops[j].key]) == md5(ops[j].data))
    && forall k :: 0 <= k < |ops| && ops[k].key == ops[j].key ==> ops[k].Put? && md5(ops[k].data) == md5(ops[j].data)
  }

  ghost predicate Unopposed(md5: string -> string, objects: Objects, ops: seq<Op>) {
    forall j: nat :: j < |ops| && ops[j].Put? && ops[j].mode != Overwrite ==> Welcome(md5, objects, ops, j)
  }

  lemma {:induction false} WelcomeAfter(md5: string -> string, store: Store, ops: seq<Op>, j: nat)
    requires store.budget > 0 && j + 1 < |ops| && ops[j + 1].Put? && Welcome(md5, store.objects, ops, j + 1)
    requires Step(md5, store, ops[0]).ok
    ensures Welcome(md5, Step(md5, store, ops[0]).store.objects, ops[1..], j)
  {
    assert forall k :: 0 <= k < |ops[1..]| ==> ops[1..][k] == ops[k + 1];
    assert ops[0].key == ops[j + 1].key ==> ops[0].Put? && md5(ops[0].data) == md5(ops[j + 1].data);
  }

  lemma {:induction false} ExecGetsThrough(md5: string -> string, store: Store, ops: seq<Op>)
    requires Unopposed(md5, store.objects, ops) && store.budget >= |ops|
    ensures Exec(md5, store, ops).ok
    decreases |ops|
  {
    if ops != [] {
      assert ops[0].Put? && ops[0].mode != Overwrite ==> Welcome(md5, store.objects, ops, 0);
      var first, rest := Step(md5, store, ops[0]), ops[1..];
      forall j: nat | j < |rest| && rest[j].Put? && rest[j].mode != Overwrite
        ensures Welcome(md5, first.store.objects, rest, j)
      {
        assert rest[j] == ops[j + 1];
        WelcomeAfter(md5, store, ops, j);
      }
      ExecGetsThrough(md5, first.store, rest);
    }
  }

  /** Calls none of which may replace an object all get through only if they are unopposed. */
  lemma {:induction false} GuardedGetThrough(md5: string -> string, store: Store, ops: seq<Op>)
    requires Guarded(ops) && Exec(md5, store, ops).ok
    ensures Unopposed(md5, store.objects, ops)
    decreases |ops|
  {
    if ops != [] {
      var first, rest := Step(md5, store, ops[0]), ops[1..];
      assert forall k :: 0 <= k < |rest| ==> rest[k] == ops[k + 1];
      GuardedGetThrough(md5, first.store, rest);
      forall j: nat | j < |ops| ensures Welcome(md5, store.objects, ops, j) {
        GuardedWelcome(md5, store, ops, j);
      }
    }
  }

  lemma {:induction false} GuardedWelcome(md5: string -> string, store: Store, ops: seq<Op>, j: nat)
    requires Guarded(ops) && j < |ops| && Step(md5, store, ops[0]).ok
    requires Unopposed(md5, Step(md5, store, ops[0]).store.objects, ops[1..])
    ensures Welcome(md5, store.objects, ops, j)
  {
    var objects, rest := Step(md5, store, ops[0]).store.objects, ops[1..];
    assert forall k :: 0 <= k < |rest| ==> rest[k] == ops[k + 1];
    assert forall k :: 0 < k < |ops| ==> ops[k] == rest[k - 1];
    assert ops[0].key in objects && md5(objects[ops[0].key]) == md5(ops[0].data);
    forall k: nat | k < |rest| ensures Welcome(md5, objects, rest, k) {
      assert rest[k] == ops[k + 1];
    }
    forall k | 0 <= k < |ops| && ops[k].key == ops[j].key ensures md5(ops[k].data) == md5(ops[j].data) {
      if j > 0 {
        assert Welcome(md5, objects, rest, j - 1);
      } else if k > 0 {
        assert Welcome(md5, objects, rest, k - 1);
      }
    }
  }

  // ---- the calls of a run

  /** No other text has this text's digest. */
  ghost predicate Unique(sha256: string -> string, text: string) {
    forall other {:trigger sha256(other)} :: sha256(other) == sha256(text) ==> other == text
  }

  /** The run may make all its calls, the by-hash objects found are what their names say, and no other text has the
      digest of one it stores by hash. */
  ghost predicate Ample(w: World, before: Store, ops: seq<Op>) {
    && before.budget >= |ops| && DigestsMatch(w, before.objects)
    && forall j :: 0 <= j < |ops| && ops[j].Put? && ops[j].key.ByHash? ==> Unique(w.hasher.sha256, ops[j].data)
  }

  /** By-hash objects are created under their digest; what is neither that nor a body is overwritten. */
  ghost predicate Orderly(w: World, op: Op) {
    match op
    case Delete(key) => !key.ByHash? && !key.Pool?
    case Put(key, data, mode) =>
      if key.ByHash? then key.sha256 == w.hasher.sha256(data) else key.Pool? || mode == Overwrite
  }

  ghost predicate AllOrderly(w: World, ops: seq<Op>) {
    forall j :: 0 <= j < |ops| ==> Orderly(w, ops[j])
  }

  lemma {:induction false} HashedWelcome(w: World, before: Store, ops: seq<Op>, j: nat)
    requires Ample(w, before, ops) && AllOrderly(w, ops) && j < |ops| && ops[j].Put? && ops[j].key.ByHash?
    ensures Welcome(w.hasher.md5, before.objects, ops, j)
  {
    assert Orderly(w, ops[j]) && Unique(w.hasher.sha256, ops[j].data);
    if ops[j].key in before.objects {
      assert w.hasher.sha256(before.objects[ops[j].key]) == w.hasher.sha256(ops[j].data);
    }
    forall k | 0 <= k < |ops| && ops[k].key == ops[j].key ensures ops[k].Put? && ops[k].data == ops[j].data {
      assert Orderly(w, ops[k]);
    }
  }

  lemma {:induction false} BodiesWelcome(
      md5: string -> string, objects: Objects, bodies: seq<Op>, rest: seq<Op>, j: nat)
    requires j < |bodies| && bodies[j].Put? && Welcome(md5, objects, bodies, j) && bodies[j].key.Pool?
    requires forall k :: 0 <= k < |rest| ==> !rest[k].key.Pool?
    ensures (bodies + rest)[j] == bodies[j] && Welcome(md5, objects, bodies + rest, j)
  {
    var ops := bodies + rest;
    assert forall k :: 0 <= k < |bodies| ==> ops[k] == bodies[k];
    assert forall k :: |bodies| <= k < |ops| ==> ops[k] == rest[k - |bodies|];
  }

  lemma {:induction false} RunUnopposed(w: World, before: Store, bodies: seq<Op>, rest: seq<Op>)
    requires Ample(w, before, bodies + rest) && AllOrderly(w, rest) && Bodies(bodies)
    requires Unopposed(w.hasher.md5, before.objects, bodies)
    requires forall k :: 0 <= k < |rest| ==> !rest[k].key.Pool?
    ensures Unopposed(w.hasher.md5, before.objects, bodies + rest)
  {
    var ops := bodies + rest;
    assert forall k :: 0 <= k < |bodies| ==> ops[k] == bodies[k];
    assert forall k :: |bodies| <= k < |ops| ==> ops[k] == rest[k - |bodies|];
    assert AllOrderly(w, ops);
    forall j: nat | j < |ops| && ops[j].Put? && ops[j].mode != Overwrite
      ensures Welcome(w.hasher.md5, before.objects, ops, j)
    {
      if ops[j].key.ByHash? {
        HashedWelcome(w, before, ops, j);
      } else {
        assert Orderly(w, ops[j]);
        BodiesWelcome(w.hasher.md5, before.objects, bodies, rest, j);
      }
    }
  }

  ghost predicate NoBody(ops: seq<Op>) {
    forall k :: 0 <= k < |ops| ==> !ops[k].key.Pool?
  }

  lemma {:induction false} OrderlyPair(w: World, a: seq<Op>, b: seq<Op>)
    requires AllOrderly(w, a) && AllOrderly(w, b) && NoBody(a) && NoBody(b)
    ensures AllOrderly(w, a + b) && NoBody(a + b)
  {}

  lemma {:induction false} HashedOrderly(w: World, c: string, prepared: seq<Prepared>)
    ensures AllOrderly(w, AllByHashOps(w, c, prepared)) && NoBody(AllByHashOps(w, c, prepared))
  {
    AllByHashFit(w, c, "", prepared);
  }

  lemma {:induction false} CanonicalOrderly(w: World, c: string, prepared: seq<Prepared>)
    ensures AllOrderly(w, AllCanonicalOps(c, prepared)) && NoBody(AllCanonicalOps(c, prepared))
  {
    if prepared != [] {
      CanonicalOrderly(w, c, prepared[1..]);
      OrderlyPair(w, CanonicalOps(c, prepared[0]), AllCanonicalOps(c, prepared[1..]));
    }
  }

  lemma {:induction false} EachOrderly(w: World, c: string, prepared: seq<Prepared>)
    ensures AllOrderly(w, EachOps(w, c, prepared)) && NoBody(EachOps(w, c, prepared))
  {
    if prepared != [] {
      EachOrderly(w, c, prepared[1..]);
      OrderlyPair(w, ByHashOps(w, c, prepared[0]), CanonicalOps(c, prepared[0]));
      OrderlyPair(w, ByHashOps(w, c, prepared[0]) + CanonicalOps(c, prepared[0]), EachOps(w, c, prepared[1..]));
    }
  }

  lemma {:induction false} TripleOrderly(w: World, c: string, text: string, signing: Signing)
    ensures AllOrderly(w, TripleOps(c, text, signing)) && NoBody(TripleOps(c, text, signing))
  {}

  lemma {:induction false} MetadataOrderly(
      w: World, c: string, r: ReleaseData, suites: seq<Suite>, signing: Signing, date: string)
    ensures var ops := MetadataPlan(w, c, r, suites, signing, date).ops; AllOrderly(w, ops) && NoBody(ops)
  {
    var prepared := PreparedFor(w, c, r, suites);
    if prepared.Ok? {
      var text := w.printRelease(FinalRelease(w, c, r, suites), date);
      BackfillIsFixedPoint(w, c, r, suites, signing, date);
      PartsOrderly(w, c, prepared.value, text, signing);
    }
  }

  lemma {:induction false} PartsOrderly(
      w: World, c: string, prepared: seq<Prepared>, text: string, signing: Signing)
    ensures var ops := AllByHashOps(w, c, prepared) + AllCanonicalOps(c, prepared) + TripleOps(c, text, signing);
            AllOrderly(w, ops) && NoBody(ops)
  {
    HashedOrderly(w, c, prepared);
    CanonicalOrderly(w, c, prepared);
    TripleOrderly(w, c, text, signing);
    OrderlyPair(w, AllByHashOps(w, c, prepared), AllCanonicalOps(c, prepared));
    OrderlyPair(w, AllByHashOps(w, c, prepared) + AllCanonicalOps(c, prepared), TripleOps(c, text, signing));
  }

  /** There is no signer, or he gives both artifacts. */
  predicate Delivers(signing: Signing) {
    signing == Unsigned || (signing.Signed? && signing.inRelease != "" && signing.detached != "")
  }

  /** A run that is prepared and whose bodies are unopposed succeeds exactly when signing does. */
  lemma {:induction false} RunSucceeds(
      w: World, before: Store, c: string, r: ReleaseData, bodies: seq<Op>, suites: seq<Suite>, signing: Signing,
      date: string)
    requires Bodies(bodies) && PreparedFor(w, c, r, suites).Ok?
    requires Ample(w, before, UploadPlan(w, c, r, bodies, suites, signing, date).ops)
    requires Unopposed(w.hasher.md5, before.objects, bodies)
    ensures var plan := UploadPlan(w, c, r, bodies, suites, signing, date);
            Exec(w.hasher.md5, before, plan.ops).ok && (plan.completes <==> Delivers(signing))
  {
    var metadata := MetadataPlan(w, c, r, suites, signing, date).ops;
    MetadataOrderly(w, c, r, suites, signing, date);
    RunUnopposed(w, before, bodies, metadata);
    ExecGetsThrough(w.hasher.md5, before, bodies + metadata);
    BackfillIsFixedPoint(w, c, r, suites, signing, date);
  }

  // ---- copy, delete, verify

  /** A publish of these manifests may make all its calls. */
  ghost predicate AmpleFor(
      w: World, before: Store, options: ReleaseOptions, suites: seq<Suite>, signing: Signing, date: string) {
    Ample(w, before,
        MetadataPlan(w, options.codename, Retrieved(w, before.objects, options), suites, signing, date).ops)
  }

  lemma {:induction false} PublishedExactly(
      w: World, before: Store, after: Store, ok: bool, options: ReleaseOptions, suites: seq<Suite>, signing: Signing,
      date: string)
    requires PackagesLaw(w) && Published(w, before, after, ok, options, suites, signing, date)
    requires AmpleFor(w, before, options, suites, signing, date)
    ensures ok <==> !Unprintable(w, options.codename, suites) && Delivers(signing)
  {
    var c, r := options.codename, Retrieved(w, before.objects, options);
    PreparingFails(w, c, r, suites);
    UploadOfNothing(w, c, r, suites, signing, date);
    if PreparedFor(w, c, r, suites).Ok? {
      RunSucceeds(w, before, c, r, [], suites, signing, date);
    }
  }

  lemma {:induction false} OneUnprintable(w: World, c: string, suite: Suite)
    ensures Unprintable(w, c, [suite]) <==> w.printPackages(suite.packages, c).Err?
  {
    assert [suite][0] == suite;
  }

  /** A copy with calls enough succeeds exactly when a package is asked for, the destination refuses none, the result
      can be printed, and signing succeeds. */
  lemma {:induction false} CopySucceeds(
      w: World, before: Store, after: Store, ok: bool, o: CopyOptions, signing: Signing, date: string,
      source: seq<P.Package>, destination: seq<P.Package>)
    requires PackagesLaw(w) && Copied(w, before, after, ok, o, signing, date)
    requires HoldsIndex(w, before.objects, o.sourceCodename, o.sourceComponent, o.architecture, source)
    requires HoldsIndex(w, before.objects, o.release.codename, o.component, o.architecture, destination)
    requires var suites := CopySuites(w, before.objects, o);
             suites.Ok? ==> AmpleFor(w, before, o.release, suites.value, signing, date)
    ensures ok <==> (&& Asked(source, o.name, o.versions) != [] && !CopyRefused(o, source, destination)
                     && w.printPackages(CopiedInto(o, source, destination), o.release.codename).Ok?
                     && Delivers(signing))
  {
    var suites := CopySuites(w, before.objects, o);
    CopyIs(w, before.objects, o, source, destination);
    if suites.Ok? {
      PublishedExactly(w, before, after, ok, o.release, suites.value, signing, date);
      assert suites.value == [suites.value[0]];
      OneUnprintable(w, o.release.codename, suites.value[0]);
    }
  }

  /** A deletion with calls enough succeeds exactly when every index it is about can be read, one of them has such a
      package, what is left of them can be printed, and signing succeeds. */
  lemma {:induction false} DeleteSucceeds(
      w: World, before: Store, after: Store, ok: bool, o: DeleteOptions, signing: Signing, date: string)
    requires PackagesLaw(w) && Deleted(w, before, after, ok, o, signing, date)
    requires var suites := DeleteSuites(w, before.objects, o);
             suites.Ok? ==> AmpleFor(w, before, o.release, suites.value, signing, date)
    ensures var asked := DeletedArchitectures(w, before.objects, o);
            ok <==> (&& !SomeUnreadable(w, before.objects, o, asked) && SomeLoses(w, before.objects, o, asked)
                     && !SomeUnwritable(w, before.objects, o, asked) && Delivers(signing))
  {
    var suites := DeleteSuites(w, before.objects, o);
    DeleteSuitesAre(w, before.objects, o);
    if suites.Ok? {
      DeleteUnprintable(w, before.objects, o);
      PublishedExactly(w, before, after, ok, o.release, suites.value, signing, date);
    } else {
      assert !ok;
    }
  }

  /** What a repair leaves of an index cannot be printed. */
  ghost predicate SomeUnprintable(w: World, objects: Objects, o: VerifyOptions, damaged: seq<string>) {
    exists k :: 0 <= k < |damaged| && w.printPackages(BackedIn(w, objects, o, damaged[k]), o.release.codename).Err?
  }

  lemma {:induction false} RepairsUnprintable(
      w: World, objects: Objects, o: VerifyOptions, byHash: bool, damaged: seq<string>, changed: seq<Suite>)
    requires Repairs(w, objects, o, byHash, damaged, changed)
    ensures Unprintable(w, o.release.codename, changed) <==> SomeUnprintable(w, objects, o, damaged)
  {
    if k :| 0 <= k < |damaged| && w.printPackages(BackedIn(w, objects, o, damaged[k]), o.release.codename).Err? {
      assert changed[k].packages == BackedIn(w, objects, o, damaged[k]);
    }
  }

  /** A repair with calls enough succeeds exactly when every listed index can be read, every path resolved, what is
      left can be printed, and signing succeeds. */
  lemma {:induction false} RepairSucceeds(
      w: World, before: Store, after: Store, ok: bool, o: VerifyOptions, signing: Signing, date: string)
    requires PackagesLaw(w) && Verified(w, before, after, ok, o, signing, date)
    requires o.fix && Damaged(w, before.objects, o, ReleaseArchitectures(w, before.objects, o.release.codename)) != []
    requires var report := VerifyPlan(w, before.objects, o);
             report.Ok? ==> AmpleFor(w, before, o.release, report.value.changed, signing, date)
    ensures var architectures := ReleaseArchitectures(w, before.objects, o.release.codename);
            ok <==> (&& (forall i :: 0 <= i < |architectures| ==> Checkable(w, before.objects, o, architectures[i]))
                     && !SomeUnprintable(w, before.objects, o, Damaged(w, before.objects, o, architectures))
                     && Delivers(signing))
  {
    var architectures := ReleaseArchitectures(w, before.objects, o.release.codename);
    var byHash, report := HashedBy(w, before.objects, o.release), VerifyPlan(w, before.objects, o);
    ReportAccounts(w, before.objects, o);
    if report.Ok? {
      RepairsUnprintable(w, before.objects, o, byHash, Damaged(w, before.objects, o, architectures),
          report.value.changed);
      PublishedExactly(w, before, after, ok, o.release, report.value.changed, signing, date);
    }
  }

  /** Signing anew, with nothing to repair and calls enough, succeeds exactly when signing does. */
  lemma {:induction false} ResignSucceeds(
      w: World, before: Store, after: Store, ok: bool, o: VerifyOptions, signing: Signing, date: string)
    requires PackagesLaw(w) && OnlyLooks(w, before.objects, o) && Verified(w, before, after, ok, o, signing, date)
    requires !signing.Unsigned?
    requires Ample(w, before,
                 ReleasePlan(w, o.release.codename, Retrieved(w, before.objects, o.release), signing, date).ops)
    ensures var architectures := ReleaseArchitectures(w, before.objects, o.release.codename);
            ok <==> ((forall i :: 0 <= i < |architectures| ==> Checkable(w, before.objects, o, architectures[i]))
                     && Delivers(signing))
  {
    var c, r := o.release.codename, Retrieved(w, before.objects, o.release);
    ReportAccounts(w, before.objects, o);
    if VerifyPlan(w, before.objects, o).Ok? {
      ReleaseAloneSucceeds(w, before, c, r, signing, date);
    }
  }

  lemma {:induction false} ReleaseAloneSucceeds(
      w: World, before: Store, c: string, r: ReleaseData, signing: Signing, date: string)
    requires PackagesLaw(w) && Ample(w, before, ReleasePlan(w, c, r, signing, date).ops)
    ensures var plan := ReleasePlan(w, c, r, signing, date);
            Exec(w.hasher.md5, before, plan.ops).ok && (plan.completes <==> Delivers(signing))
  {
    NothingUnprintable(w, c, r);
    var created := BuildAll(w, c, Missing(r)).value;
    var triple := TripleOps(c, w.printRelease(RecordAll(w, r, created), date), signing);
    EachOrderly(w, c, created);
    TripleOrderly(w, c, w.printRelease(RecordAll(w, r, created), date), signing);
    OrderlyPair(w, EachOps(w, c, created), triple);
    OrderlyGetThrough(w, before, EachOps(w, c, created) + triple);
  }

  lemma {:induction false} OrderlyGetThrough(w: World, before: Store, ops: seq<Op>)
    requires Ample(w, before, ops) && AllOrderly(w, ops) && NoBody(ops)
    ensures Exec(w.hasher.md5, before, ops).ok
  {
    assert [] + ops == ops;
    RunUnopposed(w, before, [], ops);
    ExecGetsThrough(w.hasher.md5, before, ops);
  }

  /** Empty manifests can always be printed. */
  lemma {:induction false} NothingUnprintable(w: World, c: string, r: ReleaseData)
    requires PackagesLaw(w)
    ensures BuildAll(w, c, Missing(r)).Ok?
  {
    BuildFails(w, c, Missing(r));
    MissingInExactly(r, r.components);
    forall i | 0 <= i < |Missing(r)| ensures w.printPackages(Missing(r)[i].packages, c).Ok? {
      assert Missing(r)[i] in Missing(r);
      assert Printed(w, [], c, w.printPackages([], c));
    }
  }

  // ---- upload

  /** The body of the file can be stored: it has a file to be read from, and a path below the pool. */
  predicate Storable(w: World, c: string, file: U.Incoming) {
    && file.pack.filename != "" && w.pathOf(file.pack, c).Ok?
    && var path := w.pathOf(file.pack, c).value; |path| >= 5 && path[..5] == "pool/"
  }

  lemma {:induction false} BodiesComplete(w: World, o: U.Options, pending: seq<U.Incoming>)
    requires !o.skipPackageUpload
    ensures U.BodiesOf(w, o, pending).completes
            <==> forall i :: 0 <= i < |pending| ==> Storable(w, o.release.codename, pending[i])
  {
    if pending != [] {
      var rest := pending[1..];
      BodiesComplete(w, o, rest);
      assert forall i :: 0 <= i < |rest| ==> rest[i] == pending[i + 1];
      assert forall i :: 0 < i < |pending| ==> pending[i] == rest[i - 1];
      assert U.BodyOp(w, o, pending[0]).Ok? <==> Storable(w, o.release.codename, pending[0]);
    }
  }

  lemma {:induction false} AllBodiesComplete(w: World, o: U.Options, loaded: seq<U.Loaded>)
    requires !o.skipPackageUpload
    ensures U.AllBodies(w, o, loaded).completes
            <==> forall file :: U.IsPending(loaded, file) ==> Storable(w, o.release.codename, file)
  {
    if loaded != [] {
      AllBodiesComplete(w, o, loaded[1..]);
      BodiesComplete(w, o, loaded[0].pending);
      forall file ensures U.IsPending(loaded, file)
          <==> file in loaded[0].pending || U.IsPending(loaded[1..], file) {
        PendingCons(loaded, file);
      }
    }
  }

  lemma {:induction false} PendingCons(loaded: seq<U.Loaded>, file: U.Incoming)
    requires loaded != []
    ensures U.IsPending(loaded, file) <==> file in loaded[0].pending || U.IsPending(loaded[1..], file)
  {
    var rest := loaded[1..];
    if k :| 0 <= k < |loaded| && file in loaded[k].pending {
      assert k > 0 ==> file in rest[k - 1].pending;
    }
    if k :| 0 <= k < |rest| && file in rest[k].pending {
      assert file in loaded[k + 1].pending;
    }
  }

  /** Under the path of each file nothing else is stored, and the files of the run with one path agree. */
  ghost predicate FilesWelcome(w: World, objects: Objects, o: U.Options, files: seq<Result<U.Incoming>>) {
    forall file, other, path ::
      (&& Ok(file) in files && Ok(other) in files
       && w.pathOf(file.pack, o.release.codename) == Ok(path)
          && w.pathOf(other.pack, o.release.codename) == Ok(path)) ==>
      && (Pool(path) in objects ==> w.hasher.md5(objects[Pool(path)]) == w.hasher.md5(file.body))
      && w.hasher.md5(other.body) == w.hasher.md5(file.body)
  }

  lemma {:induction false} BodyFrom(w: World, o: U.Options, pending: seq<U.Incoming>, j: nat) returns (file: U.Incoming)
    requires !o.skipPackageUpload && j < |U.BodiesOf(w, o, pending).ops|
    ensures file in pending && U.BodyOp(w, o, file) == Ok(U.BodiesOf(w, o, pending).ops[j])
  {
    if j == 0 {
      file := pending[0];
    } else {
      file := BodyFrom(w, o, pending[1..], j - 1);
    }
  }

  lemma {:induction false} BodyFromAny(w: World, o: U.Options, loaded: seq<U.Loaded>, j: nat)
    returns (file: U.Incoming)
    requires !o.skipPackageUpload && j < |U.AllBodies(w, o, loaded).ops|
    ensures U.IsPending(loaded, file) && U.BodyOp(w, o, file) == Ok(U.AllBodies(w, o, loaded).ops[j])
  {
    var first := U.BodiesOf(w, o, loaded[0].pending).ops;
    if j < |first| {
      file := BodyFrom(w, o, loaded[0].pending, j);
    } else {
      file := BodyFromAny(w, o, loaded[1..], j - |first|);
      PendingCons(loaded, file);
    }
  }

  /** The files that are pending are those of the run. */
  ghost predicate Brings(loaded: seq<U.Loaded>, files: seq<Result<U.Incoming>>) {
    forall file :: U.IsPending(loaded, file) <==> Ok(file) in files
  }

  lemma {:induction false} ManifestsBring(w: World, objects: Objects, o: U.Options, files: seq<Result<U.Incoming>>)
    requires U.Manifests(w, objects, o, files).Ok?
    ensures Brings(U.Manifests(w, objects, o, files).value, files)
  {
    ManifestsFromFiles(w, objects, o, files);
    forall file | Ok(file) in files ensures U.IsPending(U.Manifests(w, objects, o, files).value, file) {
      var i :| 0 <= i < |files| && files[i] == Ok(file);
      U.FileIsPending(w, objects, o, files, i);
    }
  }

  lemma {:induction false} FilesUnopposed(
      w: World, objects: Objects, o: U.Options, loaded: seq<U.Loaded>, files: seq<Result<U.Incoming>>)
    requires Brings(loaded, files) && !o.skipPackageUpload && FilesWelcome(w, objects, o, files)
    ensures Unopposed(w.hasher.md5, objects, U.AllBodies(w, o, loaded).ops)
  {
    var ops := U.AllBodies(w, o, loaded).ops;
    U.AllBodiesAreBodies(w, o, loaded);
    forall j: nat | j < |ops| ensures Welcome(w.hasher.md5, objects, ops, j) {
      var file := BodyFromAny(w, o, loaded, j);
      forall k | 0 <= k < |ops| && ops[k].key == ops[j].key
        ensures w.hasher.md5(ops[k].data) == w.hasher.md5(ops[j].data)
      {
        var other := BodyFromAny(w, o, loaded, k);
      }
      assert Ok(file) in files;
    }
  }

  lemma {:induction false} BodyCalled(
      w: World, o: U.Options, loaded: seq<U.Loaded>, file: U.Incoming) returns (j: nat)
    requires !o.skipPackageUpload && U.AllBodies(w, o, loaded).completes && U.IsPending(loaded, file)
    ensures j < |U.AllBodies(w, o, loaded).ops| && U.BodyOp(w, o, file) == Ok(U.AllBodies(w, o, loaded).ops[j])
  {
    var k :| 0 <= k < |loaded| && file in loaded[k].pending;
    U.AllBodiesCover(w, o, loaded, k, file);
    var ops := U.AllBodies(w, o, loaded).ops;
    j :| 0 <= j < |ops| && ops[j] == U.BodyOp(w, o, file).value;
  }

  lemma {:induction false} UnopposedFiles(
      w: World, objects: Objects, o: U.Options, loaded: seq<U.Loaded>, files: seq<Result<U.Incoming>>)
    requires Brings(loaded, files) && !o.skipPackageUpload && o.failIfExists && U.AllBodies(w, o, loaded).completes
    requires Unopposed(w.hasher.md5, objects, U.AllBodies(w, o, loaded).ops)
    ensures FilesWelcome(w, objects, o, files)
  {
    var ops, c := U.AllBodies(w, o, loaded).ops, o.release.codename;
    forall file, other, path |
      && Ok(file) in files && Ok(other) in files && w.pathOf(file.pack, c) == Ok(path)
      && w.pathOf(other.pack, c) == Ok(path)
      ensures Pool(path) in objects ==> w.hasher.md5(objects[Pool(path)]) == w.hasher.md5(file.body)
      ensures w.hasher.md5(other.body) == w.hasher.md5(file.body)
    {
      var j := BodyCalled(w, o, loaded, file);
      var k := BodyCalled(w, o, loaded, other);
      assert ops[k].key == ops[j].key && Welcome(w.hasher.md5, objects, ops, j);
    }
  }

  lemma {:induction false} OverwritingUnopposed(w: World, objects: Objects, o: U.Options, loaded: seq<U.Loaded>)
    requires o.skipPackageUpload || !o.failIfExists
    ensures Unopposed(w.hasher.md5, objects, U.AllBodies(w, o, loaded).ops)
  {
    if o.skipPackageUpload {
      NoBodies(w, o, loaded);
    } else {
      var ops := U.AllBodies(w, o, loaded).ops;
      forall j: nat | j < |ops| ensures ops[j].Put? && ops[j].mode == Overwrite {
        var file := BodyFromAny(w, o, loaded, j);
      }
    }
  }

  /** The bodies can be stored: each file has a path below the pool, and if files must not be replaced, nothing else
      is there. */
  ghost predicate BodiesFit(w: World, objects: Objects, o: U.Options, files: seq<Result<U.Incoming>>) {
    !o.skipPackageUpload ==>
      && (forall file :: Ok(file) in files ==> Storable(w, o.release.codename, file))
      && (o.failIfExists ==> FilesWelcome(w, objects, o, files))
  }

  lemma {:induction false} BodiesFitExactly(
      w: World, objects: Objects, o: U.Options, loaded: seq<U.Loaded>, files: seq<Result<U.Incoming>>)
    requires Brings(loaded, files)
    ensures BodiesFit(w, objects, o, files)
            <==> U.AllBodies(w, o, loaded).completes
                 && Unopposed(w.hasher.md5, objects, U.AllBodies(w, o, loaded).ops)
  {
    if o.skipPackageUpload {
      NoBodies(w, o, loaded);
    } else {
      AllBodiesComplete(w, o, loaded);
      if !o.failIfExists {
        OverwritingUnopposed(w, objects, o, loaded);
      } else if FilesWelcome(w, objects, o, files) {
        FilesUnopposed(w, objects, o, loaded, files);
      } else if U.AllBodies(w, o, loaded).completes && Unopposed(w.hasher.md5, objects, U.AllBodies(w, o, loaded).ops) {
        UnopposedFiles(w, objects, o, loaded, files);
      }
    }
  }

  lemma {:induction false} BodiesThenRest(
      w: World, before: Store, o: U.Options, loaded: seq<U.Loaded>, r: ReleaseData, suites: seq<Suite>,
      signing: Signing, date: string)
    requires PreparedFor(w, o.release.codename, r, suites).Ok? && U.AllBodies(w, o, loaded).completes
    requires var plan := UploadPlan(w, o.release.codename, r, U.AllBodies(w, o, loaded).ops, suites, signing, date);
             Exec(w.hasher.md5, before, plan.ops).ok
    ensures Unopposed(w.hasher.md5, before.objects, U.AllBodies(w, o, loaded).ops)
  {
    var bodies := U.AllBodies(w, o, loaded).ops;
    var metadata := MetadataPlan(w, o.release.codename, r, suites, signing, date).ops;
    ExecAppend(w.hasher.md5, before, bodies, metadata);
    if o.failIfExists {
      AllBodiesGuarded(w, o, loaded);
      GuardedGetThrough(w.hasher.md5, before, bodies);
    } else {
      OverwritingUnopposed(w, before.objects, o, loaded);
    }
  }

  /** What the index of an architecture reached would list cannot be printed. */
  ghost predicate UploadUnprintable(
      w: World, objects: Objects, o: U.Options, files: seq<Result<U.Incoming>>, a: string) {
    exists stored :: HoldsIndex(w, objects, o.release.codename, o.component, a, stored)
                     && w.printPackages(UploadedTo(o, files, a, stored), o.release.codename).Err?
  }

  ghost predicate SomeUploadUnprintable(w: World, objects: Objects, o: U.Options, files: seq<Result<U.Incoming>>) {
    exists a :: U.Reached(ReleaseArchitectures(w, objects, o.release.codename), o, files, a)
                && UploadUnprintable(w, objects, o, files, a)
  }

  lemma {:induction false} ManifestUnprintable(
      w: World, objects: Objects, o: U.Options, files: seq<Result<U.Incoming>>, k: nat)
    requires U.Manifests(w, objects, o, files).Ok? && k < |U.Manifests(w, objects, o, files).value|
    ensures var l := U.Manifests(w, objects, o, files).value[k];
            w.printPackages(l.packages, o.release.codename).Err?
            <==> UploadUnprintable(w, objects, o, files, l.architecture)
  {
    var a := U.Manifests(w, objects, o, files).value[k].architecture;
    U.ManifestIs(w, objects, o, files, k);
    ReadableHolds(w, objects, o.release.codename, o.component, a);
    forall stored | HoldsIndex(w, objects, o.release.codename, o.component, a, stored)
      ensures U.Manifests(w, objects, o, files).value[k].packages == UploadedTo(o, files, a, stored)
    {
      ManifestPackages(w, objects, o, files, a, stored);
    }
  }

  lemma {:induction false} UploadUnprintableExactly(
      w: World, objects: Objects, o: U.Options, files: seq<Result<U.Incoming>>, byHash: bool)
    requires U.Manifests(w, objects, o, files).Ok?
    ensures Unprintable(w, o.release.codename, U.SuitesOf(o, byHash, U.Manifests(w, objects, o, files).value))
            <==> SomeUploadUnprintable(w, objects, o, files)
  {
    var manifests := U.Manifests(w, objects, o, files).value;
    var suites := U.SuitesOf(o, byHash, manifests);
    if k :| 0 <= k < |suites| && w.printPackages(suites[k].packages, o.release.codename).Err? {
      SuitesAt(o, byHash, manifests, k);
      ManifestUnprintable(w, objects, o, files, k);
      U.HasExactly(manifests, manifests[k].architecture);
      U.ManifestsReached(w, objects, o, files, manifests[k].architecture);
    }
    if a :| U.Reached(ReleaseArchitectures(w, objects, o.release.codename), o, files, a)
            && UploadUnprintable(w, objects, o, files, a) {
      U.ManifestsReached(w, objects, o, files, a);
      var k := U.PositionOf(manifests, a);
      ManifestUnprintable(w, objects, o, files, k);
      SuitesAt(o, byHash, manifests, k);
    }
  }

  /** An upload with calls enough succeeds exactly when it is not refused, every index it reaches can be printed, its
      bodies can be stored, and signing succeeds. */
  lemma {:induction false} UploadSucceeds(
      w: World, before: Store, after: Store, ok: bool, o: U.Options, files: seq<Result<U.Incoming>>, signing: Signing,
      date: string)
    requires PackagesLaw(w)
    requires Follows(w.hasher.md5, before, U.UploadCalls(w, before.objects, o, files, signing, date), after, ok)
    requires Ample(w, before, U.UploadCalls(w, before.objects, o, files, signing, date).ops)
    ensures ok <==> (&& (forall i :: 0 <= i < |files| ==> files[i].Ok? && U.Placeable(o, files[i].value))
                     && !SomeRejects(w, before.objects, o, files) && !SomeUploadUnprintable(w, before.objects, o, files)
                     && BodiesFit(w, before.objects, o, files) && Delivers(signing))
  {
    UploadRefused(w, before, after, ok, o, files, signing, date);
    if U.Manifests(w, before.objects, o, files).Ok? {
      UnrefusedSucceeds(w, before, after, ok, o, files, signing, date);
    }
  }

  lemma {:induction false} UnrefusedSucceeds(
      w: World, before: Store, after: Store, ok: bool, o: U.Options, files: seq<Result<U.Incoming>>, signing: Signing,
      date: string)
    requires PackagesLaw(w) && U.Manifests(w, before.objects, o, files).Ok?
    requires Follows(w.hasher.md5, before, U.UploadCalls(w, before.objects, o, files, signing, date), after, ok)
    requires Ample(w, before, U.UploadCalls(w, before.objects, o, files, signing, date).ops)
    ensures ok <==> (&& !SomeUploadUnprintable(w, before.objects, o, files)
                     && BodiesFit(w, before.objects, o, files) && Delivers(signing))
  {
    var r, manifests := Retrieved(w, before.objects, o.release), U.Manifests(w, before.objects, o, files).value;
    var suites, bodies := U.SuitesOf(o, r.byHash, manifests), U.AllBodies(w, o, manifests);
    ManifestsBring(w, before.objects, o, files);
    UploadUnprintableExactly(w, before.objects, o, files, r.byHash);
    PreparingFails(w, o.release.codename, r, suites);
    BodiesFitExactly(w, before.objects, o, manifests, files);
    if PreparedFor(w, o.release.codename, r, suites).Ok? && bodies.completes {
      U.AllBodiesAreBodies(w, o, manifests);
      if Unopposed(w.hasher.md5, before.objects, bodies.ops) {
        RunSucceeds(w, before, o.release.codename, r, bodies.ops, suites, signing, date);
      } else if ok {
        BodiesThenRest(w, before, o, manifests, r, suites, signing, date);
      }
    }
  }

  // ---- by-hash objects over histories

  ghost predicate AllNamed(w: World, ops: seq<Op>) {
    forall j :: 0 <= j < |ops| && ops[j].Put? && ops[j].key.ByHash? ==>
      ops[j].key.sha256 == w.hasher.sha256(ops[j].data)
  }

  lemma {:induction false} ExecKeepsDigests(w: World, store: Store, ops: seq<Op>)
    requires DigestsMatch(w, store.objects) && AllNamed(w, ops)
    ensures DigestsMatch(w, Exec(w.hasher.md5, store, ops).store.objects)
    decreases |ops|
  {
    if ops != [] && Step(w.hasher.md5, store, ops[0]).ok {
      assert forall j :: 0 <= j < |ops[1..]| ==> ops[1..][j] == ops[j + 1];
      ExecKeepsDigests(w, Step(w.hasher.md5, store, ops[0]).store, ops[1..]);
    }
  }

  lemma {:induction false} OrderlyNamed(w: World, bodies: seq<Op>, rest: seq<Op>)
    requires Bodies(bodies) && AllOrderly(w, rest)
    ensures AllNamed(w, bodies + rest)
  {
    var ops := bodies + rest;
    assert forall j :: |bodies| <= j < |ops| ==> ops[j] == rest[j - |bodies|] && Orderly(w, rest[j - |bodies|]);
  }

  lemma {:induction false} PublishNamed(
      w: World, c: string, r: ReleaseData, bodies: seq<Op>, suites: seq<Suite>, signing: Signing, date: string)
    requires Bodies(bodies)
    ensures AllNamed(w, UploadPlan(w, c, r, bodies, suites, signing, date).ops)
  {
    MetadataOrderly(w, c, r, suites, signing, date);
    OrderlyNamed(w, bodies, MetadataPlan(w, c, r, suites, signing, date).ops);
  }

  lemma {:induction false} ResignNamed(w: World, c: string, r: ReleaseData, signing: Signing, date: string)
    ensures AllNamed(w, ReleasePlan(w, c, r, signing, date).ops)
  {
    var created := BuildAll(w, c, Missing(r));
    if created.Ok? {
      var text := w.printRelease(RecordAll(w, r, created.value), date);
      EachOrderly(w, c, created.value);
      TripleOrderly(w, c, text, signing);
      OrderlyPair(w, EachOps(w, c, created.value), TripleOps(c, text, signing));
      OrderlyNamed(w, [], EachOps(w, c, created.value) + TripleOps(c, text, signing));
      assert [] + (EachOps(w, c, created.value) + TripleOps(c, text, signing))
          == EachOps(w, c, created.value) + TripleOps(c, text, signing);
    }
  }

  /** A run, stopped anywhere, keeps by-hash objects what their names say. */
  lemma {:induction false} RunKeepsDigests(w: World, objects: Objects, run: Run, calls: nat)
    requires DigestsMatch(w, objects) && H.ProperRun(w, objects, run)
    ensures DigestsMatch(w, After(w, objects, run, calls))
  {
    var store := Store(objects, calls);
    match run {
      case Publish(options, bodies, suites, signing, date) =>
        PublishNamed(w, options.codename, Retrieved(w, objects, options), bodies, suites, signing, date);
      case Resign(options, signing, date) =>
        ResignNamed(w, options.codename, Retrieved(w, objects, options), signing, date);
      case Collect(deletions) =>
    }
    ExecKeepsDigests(w, store, PlanOf(w, objects, run).ops);
  }

  /** So does every command. */
  lemma {:induction false} CommandKeepsDigests(
      w: World, before: Store, command: H.Command, after: Store, ok: bool)
    requires Lawful(w) && H.Sound(w, before.objects) && H.Proper(w, command)
    requires H.Does(w, before, command, after, ok) && DigestsMatch(w, before.objects)
    ensures DigestsMatch(w, after.objects)
  {
    H.StandsAreClean(w, before.objects);
    H.DoesLeaves(w, before, command, after, ok);
    if H.RunOf(w, before.objects, command).Some? {
      H.RunIsProper(w, before.objects, command);
      RunKeepsDigests(w, before.objects, H.RunOf(w, before.objects, command).value, before.budget);
    } else if after.objects != before.objects {
      var manifests := U.Manifests(w, before.objects, command.upload, command.files).value;
      U.AllBodiesAreBodies(w, command.upload, manifests);
      ExecKeepsDigests(w, before, U.AllBodies(w, command.upload, manifests).ops);
    }
  }

  /** In every history of commands that starts from an empty store, each cut off anywhere, every by-hash object has
      the digest of its name. */
  lemma {:induction false} CommandsKeepDigests(w: World, trace: seq<Objects>, n: nat)
    requires Lawful(w) && H.Chronicle(w, trace) && trace[0] == map[] && n < |trace|
    ensures DigestsMatch(w, trace[n])
  {
    if n > 0 {
      CommandsKeepDigests(w, trace, n - 1);
      H.CommandsKeepIntegrity(w, trace, n - 1);
      var before, command, after, ok := H.ChronicleStep(w, trace, n - 1);
      CommandKeepsDigests(w, before, command, after, ok);
    }
  }
}
