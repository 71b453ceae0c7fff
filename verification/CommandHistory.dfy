/** Histories of the five commands, each as its own contract describes it and stopped anywhere: upload, copy, delete,
    verify and clean never leave an index that names a missing body. */
module CommandHistory {
  import opened Text
  import opened Numbers
  import opened Paths
  import opened Lists
  import P = Package
  import E = Edits
  import opened R = Release
  import opened Keys
  import opened Calls
  import opened Worlds = World
  import opened Publication
  import opened Concurrent
  import opened History
  import opened Signatures
  import opened Consistency
  import opened Commands
  import opened Commander
  import U = Upload
  import opened Uploader
  import M = Maintenance
  import opened Collection

  datatype Command =
    | Uploading(upload: U.Options, files: seq<Result<U.Incoming>>, signing: Signing, date: string)
    | Copying(copy: CopyOptions, signing: Signing, date: string)
    | Deleting(delete: DeleteOptions, signing: Signing, date: string)
    | Verifying(verify: VerifyOptions, signing: Signing, date: string)
    | Cleaning(codename: string)

  /** What the command does to the store, and whether it succeeds: the contracts of the programs. */
  ghost predicate Does(w: World, before: Store, command: Command, after: Store, ok: bool) {
    match command
    case Uploading(o, files, signing, date) =>
      Follows(w.hasher.md5, before, U.UploadCalls(w, before.objects, o, files, signing, date), after, ok)
    case Copying(o, signing, date) => Copied(w, before, after, ok, o, signing, date)
    case Deleting(o, signing, date) => Deleted(w, before, after, ok, o, signing, date)
    case Verifying(o, signing, date) => Verified(w, before, after, ok, o, signing, date)
    case Cleaning(codename) => Cleaned(w, before, after, ok, codename)
  }

  // ---- what the caller gives

  ghost predicate ProperOptions(o: ReleaseOptions, date: string) {
    && CleanKey(o.codename) && Plain(o.codename) && Plain(date)
    && Plain(o.origin.GetOr("")) && Plain(o.suite.GetOr(""))
  }

  predicate ProperArchitecture(a: string) {
    '/' !in a && Word(a)
  }

  predicate ProperComponent(component: string) {
    CleanSegment(component) && Word(component)
  }

  /** A file's own architecture can name a suite, or is missing. */
  ghost predicate ProperFiles(files: seq<Result<U.Incoming>>) {
    forall i :: 0 <= i < |files| && files[i].Ok? ==>
      files[i].value.pack.architecture == "" || ProperArchitecture(files[i].value.pack.architecture)
  }

  /** Names that can be parts of a key, one-line options, and for an upload: files that can be published, with their
      bodies. A clean may be given anything. */
  ghost predicate Proper(w: World, command: Command) {
    match command
    case Uploading(o, files, signing, date) =>
      && ProperOptions(o.release, date) && ProperComponent(o.component)
      && (o.architecture.Some? ==> o.architecture.value == "" || ProperArchitecture(o.architecture.value))
      && ProperFiles(files) && U.GoodFiles(w, o, files) && !o.skipPackageUpload
    case Copying(o, signing, date) =>
      ProperOptions(o.release, date) && ProperComponent(o.component) && ProperArchitecture(o.architecture)
    case Deleting(o, signing, date) =>
      ProperOptions(o.release, date) && ProperComponent(o.component) && ProperArchitecture(o.architecture)
    case Verifying(o, signing, date) => ProperOptions(o.release, date) && ProperComponent(o.component)
    case Cleaning(codename) => true
  }

  /** The run the command comes to, when it gets to publishing or deleting. */
  ghost function RunOf(w: World, objects: Objects, command: Command): Option<Run> {
    match command
    case Uploading(o, files, signing, date) =>
      var manifests := U.Manifests(w, objects, o, files);
      if manifests.Err? then None
      else
        var bodies := U.AllBodies(w, o, manifests.value);
        if !bodies.completes then None
        else Some(Publish(o.release, bodies.ops,
            U.SuitesOf(o, Retrieved(w, objects, o.release).byHash, manifests.value), signing, date))
    case Copying(o, signing, date) =>
      var suites := CopySuites(w, objects, o);
      if suites.Err? then None else Some(Publish(o.release, [], suites.value, signing, date))
    case Deleting(o, signing, date) =>
      var suites := DeleteSuites(w, objects, o);
      if suites.Err? then None else Some(Publish(o.release, [], suites.value, signing, date))
    case Verifying(o, signing, date) =>
      var report := VerifyPlan(w, objects, o);
      if report.Err? then None
      else if report.value.changed != [] then Some(Publish(o.release, [], report.value.changed, signing, date))
      else if signing.Unsigned? then None
      else Some(Resign(o.release, signing, date))
    case Cleaning(codename) =>
      if !CleanNames(objects) then None
      else
        var deletions := M.Deletions(w, Image(objects), codename);
        if deletions.Err? then None else Some(Collect(DeleteOps(deletions.value)))
  }

  /** The artifacts a run builds fit into memory: Go counts bytes in 64 bits. */
  ghost predicate Small(prepared: seq<Prepared>) {
    forall i :: 0 <= i < |prepared| ==> |prepared[i].plain| <= MAX_INT64 && |prepared[i].gzip| <= MAX_INT64
  }

  ghost predicate FitsMemory(w: World, objects: Objects, command: Command) {
    var run := RunOf(w, objects, command);
    run.Some? && !run.value.Collect? && PreparedBy(w, objects, run.value).Ok? ==>
      Small(PreparedBy(w, objects, run.value).value)
  }

  // ---- what every store satisfies

  /** An object has a clean name, and a Release lists proper suites in its format. */
  ghost predicate Sits(w: World, key: Key, data: string) {
    CleanName(key) && (key.ReleaseFile? ==> Sane(w.parseRelease(data), ""))
  }

  ghost predicate Stands(w: World, objects: Objects) {
    forall key :: key in objects ==> Sits(w, key, objects[key])
  }

  /** Every package of every index has its body, every name is clean, every Release is in its format. */
  ghost predicate Sound(w: World, objects: Objects) {
    Integrity(w, objects) && Stands(w, objects)
  }

  ghost predicate OpsStand(w: World, ops: seq<Op>) {
    forall j :: 0 <= j < |ops| && ops[j].Put? ==> Sits(w, ops[j].key, ops[j].data)
  }

  lemma {:induction false} StandsAreClean(w: World, objects: Objects)
    requires Stands(w, objects)
    ensures CleanNames(objects)
  {
    forall key | key in objects ensures CleanName(key) {
      assert Sits(w, key, objects[key]);
    }
  }

  lemma {:induction false} StepStands(w: World, store: Store, op: Op)
    requires Stands(w, store.objects) && (op.Put? ==> Sits(w, op.key, op.data))
    ensures Stands(w, Step(w.hasher.md5, store, op).store.objects)
  {}

  lemma {:induction false} ExecStands(w: World, store: Store, ops: seq<Op>)
    requires Stands(w, store.objects) && OpsStand(w, ops)
    ensures Stands(w, Exec(w.hasher.md5, store, ops).store.objects)
    decreases |ops|
  {
    if ops != [] {
      var first := Step(w.hasher.md5, store, ops[0]);
      StepStands(w, store, ops[0]);
      if first.ok {
        assert forall j :: 0 <= j < |ops[1..]| ==> ops[1..][j] == ops[j + 1];
        ExecStands(w, first.store, ops[1..]);
      }
    }
  }

  lemma {:induction false} OpsStandAppend(w: World, a: seq<Op>, b: seq<Op>)
    requires OpsStand(w, a) && OpsStand(w, b)
    ensures OpsStand(w, a + b)
  {}

  // ---- the calls of a publish

  lemma {:induction false} ByHashStands(w: World, c: string, p: Prepared)
    requires Digests.Proper(w.hasher) && CleanKey(c) && FitsRelease(p)
    ensures OpsStand(w, ByHashOps(w, c, p)) && OpsStand(w, CanonicalOps(c, p))
  {
    assert Digests.WellSized(Digests.HashesOf(w.hasher, p.plain))
        && Digests.WellSized(Digests.HashesOf(w.hasher, p.gzip));
  }

  lemma {:induction false} AllByHashStands(w: World, c: string, prepared: seq<Prepared>)
    requires Digests.Proper(w.hasher) && CleanKey(c) && AllFit(prepared)
    ensures OpsStand(w, AllByHashOps(w, c, prepared))
  {
    if prepared != [] {
      ByHashStands(w, c, prepared[0]);
      AllByHashStands(w, c, prepared[1..]);
    }
  }

  lemma {:induction false} AllCanonicalStands(w: World, c: string, prepared: seq<Prepared>)
    requires Digests.Proper(w.hasher) && CleanKey(c) && AllFit(prepared)
    ensures OpsStand(w, AllCanonicalOps(c, prepared))
  {
    if prepared != [] {
      ByHashStands(w, c, prepared[0]);
      AllCanonicalStands(w, c, prepared[1..]);
    }
  }

  lemma {:induction false} EachStands(w: World, c: string, prepared: seq<Prepared>)
    requires Digests.Proper(w.hasher) && CleanKey(c) && AllFit(prepared)
    ensures OpsStand(w, EachOps(w, c, prepared))
  {
    if prepared != [] {
      ByHashStands(w, c, prepared[0]);
      EachStands(w, c, prepared[1..]);
      OpsStandAppend(w, ByHashOps(w, c, prepared[0]), CanonicalOps(c, prepared[0]));
      OpsStandAppend(w, ByHashOps(w, c, prepared[0]) + CanonicalOps(c, prepared[0]), EachOps(w, c, prepared[1..]));
    }
  }

  lemma {:induction false} TripleStands(w: World, c: string, text: string, signing: Signing)
    requires CleanKey(c) && Sane(w.parseRelease(text), "")
    ensures OpsStand(w, TripleOps(c, text, signing))
  {}

  lemma {:induction false} StandingRelease(w: World, objects: Objects, options: ReleaseOptions, date: string)
    requires Stands(w, objects) && ProperOptions(options, date)
    ensures Sane(Retrieved(w, objects, options), date)
  {
    if ReleaseFile(options.codename) in objects {
      assert Sits(w, ReleaseFile(options.codename), objects[ReleaseFile(options.codename)]);
    }
  }

  ghost predicate ProperSuites(suites: seq<Suite>) {
    forall i :: 0 <= i < |suites| ==> SuiteName(suites[i].component, suites[i].architecture)
  }

  lemma {:induction false} BuiltFit(w: World, c: string, suites: seq<Suite>)
    requires BuildAll(w, c, suites).Ok? && ProperSuites(suites) && Small(BuildAll(w, c, suites).value)
    ensures AllFit(BuildAll(w, c, suites).value)
  {
    BuildKeepsNames(w, c, suites);
  }

  lemma {:induction false} MissingIsProper(r: ReleaseData)
    requires CleanLists(r)
    ensures ProperSuites(Missing(r))
  {
    MissingInExactly(r, r.components);
    forall i | 0 <= i < |Missing(r)| ensures SuiteName(Missing(r)[i].component, Missing(r)[i].architecture) {
      assert Missing(r)[i] in Missing(r);
    }
  }

  lemma {:induction false} SmallParts(a: seq<Prepared>, b: seq<Prepared>)
    requires Small(a + b)
    ensures Small(a) && Small(b)
  {
    assert forall i :: 0 <= i < |a| ==> (a + b)[i] == a[i];
    assert forall i :: 0 <= i < |b| ==> (a + b)[|a| + i] == b[i];
  }

  lemma {:induction false} PreparedFit(w: World, c: string, r: ReleaseData, suites: seq<Suite>, date: string)
    requires Digests.Proper(w.hasher) && Sane(r, date) && ProperSuites(suites)
    requires PreparedFor(w, c, r, suites).Ok? && Small(PreparedFor(w, c, r, suites).value)
    ensures AllFit(PreparedFor(w, c, r, suites).value)
  {
    var changed := BuildAll(w, c, suites).value;
    var recorded := RecordAll(w, r, changed);
    var more := BuildAll(w, c, Missing(recorded)).value;
    SmallParts(changed, more);
    BuiltFit(w, c, suites);
    RecordAllSane(w, r, changed, date);
    MissingIsProper(recorded);
    BuiltFit(w, c, Missing(recorded));
  }

  lemma {:induction false} RecordedText(w: World, r: ReleaseData, prepared: seq<Prepared>, date: string)
    requires Lawful(w) && Sane(r, date) && AllFit(prepared)
    ensures Sane(w.parseRelease(w.printRelease(RecordAll(w, r, prepared), date)), "")
  {
    var final := RecordAll(w, r, prepared);
    RecordAllSane(w, r, prepared, date);
    SaneAnyDate(final, date);
    assert w.parseRelease(w.printRelease(final, date)) == final.(suite := Some(final.suite.GetOr("")));
  }

  ghost predicate ProperRun(w: World, objects: Objects, run: Run) {
    match run
    case Publish(options, bodies, suites, signing, date) =>
      ProperOptions(options, date) && Bodies(bodies) && OpsStand(w, bodies) && ProperSuites(suites)
    case Resign(options, signing, date) => ProperOptions(options, date)
    case Collect(deletions) => forall j :: 0 <= j < |deletions| ==> deletions[j].Delete?
  }

  lemma {:induction false} PublishStands(
      w: World, objects: Objects, options: ReleaseOptions, bodies: seq<Op>, suites: seq<Suite>, signing: Signing,
      date: string)
    requires Lawful(w) && Stands(w, objects)
    requires ProperOptions(options, date) && Bodies(bodies) && OpsStand(w, bodies) && ProperSuites(suites)
    requires var prepared := PreparedFor(w, options.codename, Retrieved(w, objects, options), suites);
             prepared.Ok? ==> Small(prepared.value)
    ensures OpsStand(w,
            UploadPlan(w, options.codename, Retrieved(w, objects, options), bodies, suites, signing, date).ops)
  {
    var c, r := options.codename, Retrieved(w, objects, options);
    PublishInTwoParts(w, c, r, bodies, suites, signing, date);
    if PreparedFor(w, c, r, suites).Ok? {
      var prepared := PreparedFor(w, c, r, suites).value;
      var text := w.printRelease(FinalRelease(w, c, r, suites), date);
      StandingRelease(w, objects, options, date);
      PreparedFit(w, c, r, suites, date);
      RecordedText(w, r, prepared, date);
      AllByHashStands(w, c, prepared);
      AllCanonicalStands(w, c, prepared);
      TripleStands(w, c, text, signing);
      OpsStandAppend(w, AllByHashOps(w, c, prepared), AllCanonicalOps(c, prepared));
      OpsStandAppend(w, bodies, AllByHashOps(w, c, prepared) + AllCanonicalOps(c, prepared));
      OpsStandAppend(w, bodies + (AllByHashOps(w, c, prepared) + AllCanonicalOps(c, prepared)),
          TripleOps(c, text, signing));
    }
  }

  lemma {:induction false} ResignStands(
      w: World, objects: Objects, options: ReleaseOptions, signing: Signing, date: string)
    requires Lawful(w) && Stands(w, objects) && ProperOptions(options, date)
    requires var prepared := BuildAll(w, options.codename, Missing(Retrieved(w, objects, options)));
             prepared.Ok? ==> Small(prepared.value)
    ensures OpsStand(w, ReleasePlan(w, options.codename, Retrieved(w, objects, options), signing, date).ops)
  {
    var c, r := options.codename, Retrieved(w, objects, options);
    var created := BuildAll(w, c, Missing(r));
    if created.Ok? {
      StandingRelease(w, objects, options, date);
      MissingIsProper(r);
      BuiltFit(w, c, Missing(r));
      RecordedText(w, r, created.value, date);
      EachStands(w, c, created.value);
      TripleStands(w, c, w.printRelease(RecordAll(w, r, created.value), date), signing);
      OpsStandAppend(w, EachOps(w, c, created.value),
                     TripleOps(c, w.printRelease(RecordAll(w, r, created.value), date), signing));
    }
  }

  /** A proper run keeps every name clean and every Release in its format, wherever it stops. */
  lemma {:induction false} RunStands(w: World, objects: Objects, run: Run, calls: nat)
    requires Lawful(w) && Stands(w, objects) && ProperRun(w, objects, run)
    requires !run.Collect? && PreparedBy(w, objects, run).Ok? ==> Small(PreparedBy(w, objects, run).value)
    ensures Stands(w, After(w, objects, run, calls))
  {
    match run {
      case Publish(options, bodies, suites, signing, date) =>
        PublishStands(w, objects, options, bodies, suites, signing, date);
      case Resign(options, signing, date) => ResignStands(w, objects, options, signing, date);
      case Collect(deletions) =>
    }
    ExecStands(w, Store(objects, calls), PlanOf(w, objects, run).ops);
  }

  // ---- the suites the commands name

  lemma {:induction false} ProperCons(first: Suite, rest: seq<Suite>)
    requires SuiteName(first.component, first.architecture) && ProperSuites(rest)
    ensures ProperSuites([first] + rest)
  {}

  lemma {:induction false} DeletedSuites(
      w: World, objects: Objects, o: DeleteOptions, byHash: bool, architectures: seq<string>)
    requires ProperComponent(o.component) && forall a :: a in architectures ==> ProperArchitecture(a)
    requires DeleteFrom(w, objects, o, byHash, architectures).Ok?
    ensures ProperSuites(DeleteFrom(w, objects, o, byHash, architectures).value)
  {
    if architectures != [] {
      var rest := DeleteFrom(w, objects, o, byHash, architectures[1..]);
      DeletedSuites(w, objects, o, byHash, architectures[1..]);
      assert architectures[0] in architectures;
      var packages := RetrievedPackages(w, objects, o.release.codename, o.component, architectures[0]).value;
      ProperCons(Suite(o.component, architectures[0], byHash, Filter(packages, Not(E.Doomed(o.name, o.versions)))),
          rest.value);
    }
  }

  lemma {:induction false} RepairedSuites(
      w: World, objects: Objects, o: VerifyOptions, byHash: bool, architectures: seq<string>)
    requires ProperComponent(o.component) && forall a :: a in architectures ==> ProperArchitecture(a)
    requires VerifyFrom(w, objects, o, byHash, architectures).Ok?
    ensures ProperSuites(VerifyFrom(w, objects, o, byHash, architectures).value.changed)
  {
    if architectures != [] {
      var first, rest :=
          VerifyHere(w, objects, o, byHash, architectures[0]), VerifyFrom(w, objects, o, byHash, architectures[1..]);
      RepairedSuites(w, objects, o, byHash, architectures[1..]);
      assert architectures[0] in architectures;
      if first.value.changed != [] {
        assert first.value.changed == [first.value.changed[0]];
        ProperCons(first.value.changed[0], rest.value.changed);
      } else {
        AppendEmpty(rest.value.changed);
      }
    }
  }

  ghost predicate ProperLoaded(loaded: seq<U.Loaded>) {
    forall k :: 0 <= k < |loaded| ==> ProperArchitecture(loaded[k].architecture)
  }

  lemma {:induction false} LoadedProper(w: World, objects: Objects, o: U.Options, loaded: seq<U.Loaded>, a: string)
    requires ProperLoaded(loaded) && ProperArchitecture(a) && U.Load(w, objects, o, loaded, a).Ok?
    ensures ProperLoaded(U.Load(w, objects, o, loaded, a).value)
  {}

  lemma {:induction false} AllLoadedProper(
      w: World, objects: Objects, o: U.Options, loaded: seq<U.Loaded>, architectures: seq<string>)
    requires ProperLoaded(loaded) && forall a :: a in architectures ==> ProperArchitecture(a)
    requires U.LoadAll(w, objects, o, loaded, architectures).Ok?
    ensures ProperLoaded(U.LoadAll(w, objects, o, loaded, architectures).value)
    decreases |architectures|
  {
    if architectures != [] {
      LoadedProper(w, objects, o, loaded, architectures[0]);
      AllLoadedProper(w, objects, o, U.Load(w, objects, o, loaded, architectures[0]).value, architectures[1..]);
    }
  }

  lemma {:induction false} DefaultsProper()
    ensures forall a :: a in U.DEFAULT_ARCHITECTURES ==> ProperArchitecture(a)
  {}

  lemma {:induction false} LoadedForProper(w: World, objects: Objects, o: U.Options, loaded: seq<U.Loaded>, a: string)
    requires ProperLoaded(loaded) && ProperArchitecture(a) && U.LoadFor(w, objects, o, loaded, a).Ok?
    ensures ProperLoaded(U.LoadFor(w, objects, o, loaded, a).value)
  {
    if a == U.ALL && loaded == [] {
      DefaultsProper();
      AllLoadedProper(w, objects, o, loaded, U.DEFAULT_ARCHITECTURES);
      LoadedProper(w, objects, o, U.LoadAll(w, objects, o, loaded, U.DEFAULT_ARCHITECTURES).value, a);
    } else {
      LoadedProper(w, objects, o, loaded, a);
    }
  }

  lemma {:induction false} TargetProper(pack: P.Package, override: Option<string>)
    requires pack.architecture == "" || ProperArchitecture(pack.architecture)
    requires override.Some? ==> override.value == "" || ProperArchitecture(override.value)
    requires U.TargetOf(pack, override).Ok?
    ensures ProperArchitecture(U.TargetOf(pack, override).value)
  {}

  lemma {:induction false} PlacedProper(
      w: World, objects: Objects, o: U.Options, st: U.Placing, file: Result<U.Incoming>)
    requires ProperLoaded(st.loaded)
    requires (o.architecture.Some? ==> o.architecture.value == "" || ProperArchitecture(o.architecture.value))
    requires file.Ok? ==> file.value.pack.architecture == "" || ProperArchitecture(file.value.pack.architecture)
    requires U.Place(w, objects, o, st, file).Ok?
    ensures ProperLoaded(U.Place(w, objects, o, st, file).value.loaded)
  {
    var a := U.TargetOf(file.value.pack, o.architecture).value;
    TargetProper(file.value.pack, o.architecture);
    LoadedForProper(w, objects, o, st.loaded, a);
  }

  lemma {:induction false} AllPlacedProper(
      w: World, objects: Objects, o: U.Options, st: U.Placing, files: seq<Result<U.Incoming>>)
    requires ProperLoaded(st.loaded)
    requires (o.architecture.Some? ==> o.architecture.value == "" || ProperArchitecture(o.architecture.value))
    requires ProperFiles(files) && U.PlaceAll(w, objects, o, st, files).Ok?
    ensures ProperLoaded(U.PlaceAll(w, objects, o, st, files).value.loaded)
    decreases |files|
  {
    if files != [] {
      PlacedProper(w, objects, o, st, files[0]);
      assert forall i :: 0 <= i < |files[1..]| ==> files[1..][i] == files[i + 1];
      AllPlacedProper(w, objects, o, U.Place(w, objects, o, st, files[0]).value, files[1..]);
    }
  }

  lemma {:induction false} SpreadKeepsNames(o: U.Options, loaded: seq<U.Loaded>, everywhere: seq<P.Package>)
    requires U.SpreadAll(o, loaded, everywhere).Ok? && ProperLoaded(loaded)
    ensures ProperLoaded(U.SpreadAll(o, loaded, everywhere).value)
  {
    U.SpreadSameLength(o, loaded, everywhere);
    forall k | 0 <= k < |loaded| ensures ProperArchitecture(U.SpreadAll(o, loaded, everywhere).value[k].architecture) {
      U.SpreadAllAt(o, loaded, everywhere, k);
    }
  }

  lemma {:induction false} SuitesProper(o: U.Options, byHash: bool, loaded: seq<U.Loaded>)
    requires ProperComponent(o.component) && ProperLoaded(loaded)
    ensures ProperSuites(U.SuitesOf(o, byHash, loaded))
  {
    if loaded != [] {
      assert forall k :: 0 <= k < |loaded[1..]| ==> loaded[1..][k] == loaded[k + 1];
      SuitesProper(o, byHash, loaded[1..]);
    }
  }

  lemma {:induction false} ManifestsProper(
      w: World, objects: Objects, o: U.Options, files: seq<Result<U.Incoming>>, date: string)
    requires Stands(w, objects) && ProperOptions(o.release, date)
    requires o.architecture.Some? ==> o.architecture.value == "" || ProperArchitecture(o.architecture.value)
    requires ProperFiles(files) && U.Manifests(w, objects, o, files).Ok?
    ensures ProperLoaded(U.Manifests(w, objects, o, files).value)
  {
    var architectures := Retrieved(w, objects, o.release).architectures;
    StandingRelease(w, objects, o.release, date);
    AllLoadedProper(w, objects, o, [], architectures);
    var loaded := U.LoadAll(w, objects, o, [], architectures).value;
    AllPlacedProper(w, objects, o, U.Placing(loaded, []), files);
    var placed := U.PlaceAll(w, objects, o, U.Placing(loaded, []), files).value;
    SpreadKeepsNames(o, placed.loaded, placed.everywhere);
  }

  // ---- the bodies an upload stores

  ghost predicate PendingGood(w: World, o: U.Options, loaded: seq<U.Loaded>) {
    forall k :: 0 <= k < |loaded| ==> FilesGood(w, o, loaded[k].pending)
  }

  ghost predicate FilesGood(w: World, o: U.Options, pending: seq<U.Incoming>) {
    forall j :: 0 <= j < |pending| ==> w.good(pending[j].pack, o.release.codename)
  }

  lemma {:induction false} LoadedGood(w: World, objects: Objects, o: U.Options, loaded: seq<U.Loaded>, a: string)
    requires PendingGood(w, o, loaded) && U.Load(w, objects, o, loaded, a).Ok?
    ensures PendingGood(w, o, U.Load(w, objects, o, loaded, a).value)
  {}

  lemma {:induction false} AllLoadedGood(
      w: World, objects: Objects, o: U.Options, loaded: seq<U.Loaded>, architectures: seq<string>)
    requires PendingGood(w, o, loaded) && U.LoadAll(w, objects, o, loaded, architectures).Ok?
    ensures PendingGood(w, o, U.LoadAll(w, objects, o, loaded, architectures).value)
    decreases |architectures|
  {
    if architectures != [] {
      LoadedGood(w, objects, o, loaded, architectures[0]);
      AllLoadedGood(w, objects, o, U.Load(w, objects, o, loaded, architectures[0]).value, architectures[1..]);
    }
  }

  lemma {:induction false} LoadedForGood(w: World, objects: Objects, o: U.Options, loaded: seq<U.Loaded>, a: string)
    requires PendingGood(w, o, loaded) && U.LoadFor(w, objects, o, loaded, a).Ok?
    ensures PendingGood(w, o, U.LoadFor(w, objects, o, loaded, a).value)
  {
    if a == U.ALL && loaded == [] {
      AllLoadedGood(w, objects, o, loaded, U.DEFAULT_ARCHITECTURES);
      LoadedGood(w, objects, o, U.LoadAll(w, objects, o, loaded, U.DEFAULT_ARCHITECTURES).value, a);
    } else {
      LoadedGood(w, objects, o, loaded, a);
    }
  }

  lemma {:induction false} PlacedGood(w: World, objects: Objects, o: U.Options, st: U.Placing, file: Result<U.Incoming>)
    requires PendingGood(w, o, st.loaded) && (file.Ok? ==> w.good(file.value.pack, o.release.codename))
    requires U.Place(w, objects, o, st, file).Ok?
    ensures PendingGood(w, o, U.Place(w, objects, o, st, file).value.loaded)
  {
    LoadedForGood(w, objects, o, st.loaded, U.TargetOf(file.value.pack, o.architecture).value);
  }

  lemma {:induction false} AllPlacedGood(
      w: World, objects: Objects, o: U.Options, st: U.Placing, files: seq<Result<U.Incoming>>)
    requires PendingGood(w, o, st.loaded) && U.GoodFiles(w, o, files) && U.PlaceAll(w, objects, o, st, files).Ok?
    ensures PendingGood(w, o, U.PlaceAll(w, objects, o, st, files).value.loaded)
    decreases |files|
  {
    if files != [] {
      PlacedGood(w, objects, o, st, files[0]);
      assert forall i :: 0 <= i < |files[1..]| ==> files[1..][i] == files[i + 1];
      AllPlacedGood(w, objects, o, U.Place(w, objects, o, st, files[0]).value, files[1..]);
    }
  }

  lemma {:induction false} SpreadKeepsPending(o: U.Options, l: U.Loaded, everywhere: seq<P.Package>)
    requires U.Spread(o, l, everywhere).Ok?
    ensures U.Spread(o, l, everywhere).value.pending == l.pending
  {}

  lemma {:induction false} ManifestsGood(w: World, objects: Objects, o: U.Options, files: seq<Result<U.Incoming>>)
    requires U.GoodFiles(w, o, files) && U.Manifests(w, objects, o, files).Ok?
    ensures PendingGood(w, o, U.Manifests(w, objects, o, files).value)
  {
    var architectures := Retrieved(w, objects, o.release).architectures;
    AllLoadedGood(w, objects, o, [], architectures);
    var loaded := U.LoadAll(w, objects, o, [], architectures).value;
    AllPlacedGood(w, objects, o, U.Placing(loaded, []), files);
    var placed := U.PlaceAll(w, objects, o, U.Placing(loaded, []), files).value;
    U.SpreadSameLength(o, placed.loaded, placed.everywhere);
    var spread := U.SpreadAll(o, placed.loaded, placed.everywhere).value;
    forall k | 0 <= k < |spread| ensures FilesGood(w, o, spread[k].pending) {
      U.SpreadAllAt(o, placed.loaded, placed.everywhere, k);
      SpreadKeepsPending(o, placed.loaded[k], placed.everywhere);
    }
  }

  lemma {:induction false} BodyStands(w: World, o: U.Options, file: U.Incoming)
    requires PathLaw(w) && w.good(file.pack, o.release.codename) && U.BodyOp(w, o, file).Ok?
    ensures Sits(w, U.BodyOp(w, o, file).value.key, U.BodyOp(w, o, file).value.data)
  {}

  lemma {:induction false} BodiesStand(w: World, o: U.Options, pending: seq<U.Incoming>)
    requires PathLaw(w) && FilesGood(w, o, pending)
    ensures OpsStand(w, U.BodiesOf(w, o, pending).ops)
  {
    if pending != [] && !o.skipPackageUpload && U.BodyOp(w, o, pending[0]).Ok? {
      BodyStands(w, o, pending[0]);
      assert forall j :: 0 <= j < |pending[1..]| ==> pending[1..][j] == pending[j + 1];
      BodiesStand(w, o, pending[1..]);
      OpsStandAppend(w, [U.BodyOp(w, o, pending[0]).value], U.BodiesOf(w, o, pending[1..]).ops);
    }
  }

  lemma {:induction false} AllBodiesStand(w: World, o: U.Options, loaded: seq<U.Loaded>)
    requires PathLaw(w) && PendingGood(w, o, loaded)
    ensures OpsStand(w, U.AllBodies(w, o, loaded).ops)
  {
    if loaded != [] {
      BodiesStand(w, o, loaded[0].pending);
      assert forall k :: 0 <= k < |loaded[1..]| ==> loaded[1..][k] == loaded[k + 1];
      AllBodiesStand(w, o, loaded[1..]);
      OpsStandAppend(w, U.BodiesOf(w, o, loaded[0].pending).ops, U.AllBodies(w, o, loaded[1..]).ops);
    }
  }

  // ---- one command

  lemma {:induction false} UploadIsProper(w: World, objects: Objects, command: Command)
    requires Lawful(w) && Sound(w, objects) && Proper(w, command) && command.Uploading?
    requires RunOf(w, objects, command).Some?
    ensures ProperRun(w, objects, RunOf(w, objects, command).value)
    ensures Admissible(w, objects, RunOf(w, objects, command).value)
  {
    var o, files := command.upload, command.files;
    var manifests := U.Manifests(w, objects, o, files).value;
    U.UploadAdmissible(w, objects, o, files, command.signing, command.date);
    U.AllBodiesAreBodies(w, o, manifests);
    ManifestsGood(w, objects, o, files);
    AllBodiesStand(w, o, manifests);
    ManifestsProper(w, objects, o, files, command.date);
    SuitesProper(o, Retrieved(w, objects, o.release).byHash, manifests);
  }

  lemma {:induction false} CopyIsProper(w: World, objects: Objects, o: CopyOptions, signing: Signing, date: string)
    requires Sound(w, objects) && ProperOptions(o.release, date) && ProperComponent(o.component)
    requires ProperArchitecture(o.architecture)
    requires CopySuites(w, objects, o).Ok?
    ensures var run := Publish(o.release, [], CopySuites(w, objects, o).value, signing, date);
            ProperRun(w, objects, run) && Admissible(w, objects, run)
  {
    CopyAdmissible(w, objects, o, signing, date);
  }

  lemma {:induction false} DeleteIsProper(w: World, objects: Objects, o: DeleteOptions, signing: Signing, date: string)
    requires Sound(w, objects) && ProperOptions(o.release, date) && ProperComponent(o.component)
    requires ProperArchitecture(o.architecture)
    requires DeleteSuites(w, objects, o).Ok?
    ensures var run := Publish(o.release, [], DeleteSuites(w, objects, o).value, signing, date);
            ProperRun(w, objects, run) && Admissible(w, objects, run)
  {
    var r := Retrieved(w, objects, o.release);
    StandingRelease(w, objects, o.release, date);
    DeleteAdmissible(w, objects, o, signing, date);
    DeletedSuites(w, objects, o, r.byHash, if o.architecture == "all" then r.architectures else [o.architecture]);
  }

  /** The run of a proper command on a sound store is proper and names stored bodies. */
  lemma {:induction false} RunIsProper(w: World, objects: Objects, command: Command)
    requires Lawful(w) && Sound(w, objects) && Proper(w, command) && RunOf(w, objects, command).Some?
    ensures ProperRun(w, objects, RunOf(w, objects, command).value)
    ensures Admissible(w, objects, RunOf(w, objects, command).value)
  {
    if command.Uploading? {
      UploadIsProper(w, objects, command);
    } else if command.Verifying? {
      VerifyIsProper(w, objects, command.verify, command.signing, command.date);
    } else {
      EditIsProper(w, objects, command);
    }
  }

  lemma {:induction false} EditIsProper(w: World, objects: Objects, command: Command)
    requires Lawful(w) && Sound(w, objects) && Proper(w, command) && RunOf(w, objects, command).Some?
    requires command.Copying? || command.Deleting? || command.Cleaning?
    ensures ProperRun(w, objects, RunOf(w, objects, command).value)
    ensures Admissible(w, objects, RunOf(w, objects, command).value)
  {
    if command.Copying? {
      CopyIsProper(w, objects, command.copy, command.signing, command.date);
    } else if command.Deleting? {
      DeleteIsProper(w, objects, command.delete, command.signing, command.date);
    } else {
      CleanIsProper(w, objects, command.codename);
    }
  }

  lemma {:induction false} CleanIsProper(w: World, objects: Objects, codename: string)
    requires CleanNames(objects) && M.Deletions(w, Image(objects), codename).Ok?
    ensures var run := Collect(DeleteOps(M.Deletions(w, Image(objects), codename).value));
            ProperRun(w, objects, run) && Admissible(w, objects, run)
  {
    CleanAdmissible(w, objects, codename);
  }

  /** On a store with integrity the packages a verification keeps are good, so a repair is admissible. */
  lemma {:induction false} VerifyIsProper(w: World, objects: Objects, o: VerifyOptions, signing: Signing, date: string)
    requires PathLaw(w) && Sound(w, objects) && ProperOptions(o.release, date) && ProperComponent(o.component)
    requires VerifyPlan(w, objects, o).Ok?
    ensures var run := Publish(o.release, [], VerifyPlan(w, objects, o).value.changed, signing, date);
            ProperRun(w, objects, run) && Admissible(w, objects, run)
  {
    var r := Retrieved(w, objects, o.release);
    StandingRelease(w, objects, o.release, date);
    RepairedSuites(w, objects, o, r.byHash, r.architectures);
    RepairIsAdmissible(w, objects, o, signing, date);
  }

  /** What a command leaves: the store after its run, or after the bodies alone, or the store it found. */
  ghost predicate Leaves(w: World, before: Store, command: Command, after: Objects) {
    match RunOf(w, before.objects, command)
    case Some(run) => after == After(w, before.objects, run, before.budget)
    case None =>
      || after == before.objects
      || (command.Uploading? && U.Manifests(w, before.objects, command.upload, command.files).Ok?
          && after == Exec(w.hasher.md5, before, U.AllBodies(w, command.upload,
                        U.Manifests(w, before.objects, command.upload, command.files).value).ops).store.objects)
  }

  lemma {:induction false} PublishedLeaves(
      w: World, before: Store, after: Store, ok: bool, options: ReleaseOptions, suites: seq<Suite>, signing: Signing,
      date: string)
    requires Published(w, before, after, ok, options, suites, signing, date)
    ensures after.objects == After(w, before.objects, Publish(options, [], suites, signing, date), before.budget)
  {
    UploadOfNothing(w, options.codename, Retrieved(w, before.objects, options), suites, signing, date);
  }

  lemma {:induction false} VerifiedLeaves(
      w: World, before: Store, o: VerifyOptions, signing: Signing, date: string, after: Store, ok: bool)
    requires Verified(w, before, after, ok, o, signing, date)
    ensures Leaves(w, before, Verifying(o, signing, date), after.objects)
  {
    var report := VerifyPlan(w, before.objects, o);
    if report.Ok? && report.value.changed != [] {
      PublishedLeaves(w, before, after, ok, o.release, report.value.changed, signing, date);
    }
  }

  lemma {:induction false} UploadedLeaves(
      w: World, before: Store, o: U.Options, files: seq<Result<U.Incoming>>, signing: Signing, date: string,
      after: Store, ok: bool)
    requires Follows(w.hasher.md5, before, U.UploadCalls(w, before.objects, o, files, signing, date), after, ok)
    ensures Leaves(w, before, Uploading(o, files, signing, date), after.objects)
  {}

  lemma {:induction false} DoesLeaves(w: World, before: Store, command: Command, after: Store, ok: bool)
    requires CleanNames(before.objects) && Does(w, before, command, after, ok)
    ensures Leaves(w, before, command, after.objects)
  {
    match command {
      case Uploading(o, files, signing, date) =>
        UploadedLeaves(w, before, o, files, signing, date, after, ok);
      case Copying(o, signing, date) =>
        if CopySuites(w, before.objects, o).Ok? {
          PublishedLeaves(w, before, after, ok, o.release, CopySuites(w, before.objects, o).value, signing, date);
        }
      case Deleting(o, signing, date) =>
        if DeleteSuites(w, before.objects, o).Ok? {
          PublishedLeaves(w, before, after, ok, o.release, DeleteSuites(w, before.objects, o).value, signing, date);
        }
      case Verifying(o, signing, date) =>
        VerifiedLeaves(w, before, o, signing, date, after, ok);
      case Cleaning(codename) =>
    }
  }

  lemma {:induction false} BodiesKeepSound(w: World, before: Store, command: Command)
    requires Lawful(w) && Sound(w, before.objects) && Proper(w, command) && command.Uploading?
    requires U.Manifests(w, before.objects, command.upload, command.files).Ok?
    ensures Sound(w, Exec(w.hasher.md5, before, U.AllBodies(w, command.upload,
                       U.Manifests(w, before.objects, command.upload, command.files).value).ops).store.objects)
  {
    var manifests := U.Manifests(w, before.objects, command.upload, command.files).value;
    var bodies := U.AllBodies(w, command.upload, manifests).ops;
    U.AllBodiesAreBodies(w, command.upload, manifests);
    BodiesKeepIntegrity(w, before, bodies);
    ManifestsGood(w, before.objects, command.upload, command.files);
    AllBodiesStand(w, command.upload, manifests);
    ExecStands(w, before, bodies);
  }

  /** Storing bodies alone keeps integrity. */
  lemma {:induction false} BodiesKeepIntegrity(w: World, store: Store, bodies: seq<Op>)
    requires Integrity(w, store.objects) && Bodies(bodies)
    ensures Integrity(w, Exec(w.hasher.md5, store, bodies).store.objects)
  {
    var pool := store.objects.Keys;
    AppendEmpty(bodies);
    BodiesSafe(w, pool, bodies, []);
    SafeExec(w, store, pool, bodies);
  }

  /** Every command keeps a store sound, however far it gets. */
  lemma {:induction false} CommandKeepsSound(w: World, before: Store, command: Command, after: Store, ok: bool)
    requires Lawful(w) && Sound(w, before.objects) && Proper(w, command) && FitsMemory(w, before.objects, command)
    requires Does(w, before, command, after, ok)
    ensures Sound(w, after.objects)
  {
    StandsAreClean(w, before.objects);
    DoesLeaves(w, before, command, after, ok);
    if RunOf(w, before.objects, command).Some? {
      var run := RunOf(w, before.objects, command).value;
      RunIsProper(w, before.objects, command);
      RunKeepsIntegrity(w, before.objects, run, before.budget);
      RunStands(w, before.objects, run, before.budget);
    } else if after.objects != before.objects {
      BodiesKeepSound(w, before, command);
    }
  }

  // ---- all histories

  /** One command, cut off after some number of calls or not at all. */
  ghost predicate Happens(w: World, objects: Objects, after: Objects) {
    exists command, budget: nat, left: nat, ok ::
      && Proper(w, command) && FitsMemory(w, objects, command)
      && Does(w, Store(objects, budget), command, Store(after, left), ok)
  }

  ghost predicate Chronicle(w: World, trace: seq<Objects>) {
    && trace != [] && Sound(w, trace[0])
    && forall n :: 0 <= n < |trace| - 1 ==> Happens(w, trace[n], trace[n + 1])
  }

  /** One command of a history. */
  lemma {:induction false} ChronicleStep(w: World, trace: seq<Objects>, n: nat)
    returns (before: Store, command: Command, after: Store, ok: bool)
    requires Chronicle(w, trace) && n + 1 < |trace|
    ensures before.objects == trace[n] && after.objects == trace[n + 1]
    ensures Proper(w, command) && FitsMemory(w, trace[n], command) && Does(w, before, command, after, ok)
  {
    assert Happens(w, trace[n], trace[n + 1]);
    var c, budget: nat, left: nat, done :|
      && Proper(w, c) && FitsMemory(w, trace[n], c)
      && Does(w, Store(trace[n], budget), c, Store(trace[n + 1], left), done);
    before, command, after, ok := Store(trace[n], budget), c, Store(trace[n + 1], left), done;
  }

  /** In every history of uploads, copies, deletions, verifications and cleans, each cut off anywhere, every package
      of every stored index has its body in the pool. */
  lemma {:induction false} CommandsKeepIntegrity(w: World, trace: seq<Objects>, n: nat)
    requires Lawful(w) && Chronicle(w, trace) && n < |trace|
    ensures Sound(w, trace[n]) && Integrity(w, trace[n])
  {
    if n > 0 {
      CommandsKeepIntegrity(w, trace, n - 1);
      var before, command, after, ok := ChronicleStep(w, trace, n - 1);
      CommandKeepsSound(w, before, command, after, ok);
    }
  }

  /** The empty store is where a history can start. */
  lemma {:induction false} EmptyIsSound(w: World)
    ensures Sound(w, map[])
  {}

  // ---- Releases over all histories

  /** The Release a later one was written over, if there was one, listed the plain index alone. */
  ghost predicate WasBare(w: World, before: Objects, c: string, component: string, a: string) {
    ReleaseFile(c) in before && Bare(w.parseRelease(before[ReleaseFile(c)]), component, a)
  }

  /** A Release that provides for what it lists, and leaves a compressed index out only where the one before did. */
  ghost predicate Written(w: World, before: Objects, c: string, s: ReleaseData) {
    && Complete(s)
    && forall component, a :: SuiteName(component, a) && Bare(s, component, a) ==> WasBare(w, before, c, component, a)
  }

  ghost predicate Kept(before: Objects, after: Objects, c: string) {
    ReleaseFile(c) in before && ReleaseFile(c) in after && after[ReleaseFile(c)] == before[ReleaseFile(c)]
  }

  /** Every Release is the one that was there, or written over it. */
  ghost predicate KeptOrWritten(w: World, before: Objects, after: Objects) {
    forall c :: ReleaseFile(c) in after ==>
        Kept(before, after, c) || Written(w, before, c, w.parseRelease(after[ReleaseFile(c)]))
  }

  /** Calls that store no other text as a Release than this one of this codename, and delete none. */
  ghost predicate Writes(ops: seq<Op>, codename: string, text: string) {
    forall j :: 0 <= j < |ops| && ops[j].key.ReleaseFile? ==>
      ops[j].Put? && ops[j].key.codename == codename && ops[j].data == text
  }

  lemma {:induction false} ExecWrites(
      md5: string -> string, store: Store, ops: seq<Op>, codename: string, text: string, c: string)
    requires Writes(ops, codename, text) && ReleaseFile(c) in Exec(md5, store, ops).store.objects
    ensures var after := Exec(md5, store, ops).store.objects;
            Kept(store.objects, after, c) || (c == codename && after[ReleaseFile(c)] == text)
    decreases |ops|
  {
    if ops != [] {
      var first := Step(md5, store, ops[0]);
      if first.ok {
        ExecWrites(md5, first.store, ops[1..], codename, text, c);
      }
    }
  }

  lemma {:induction false} WritesKeepReleases(
      md5: string -> string, store: Store, ops: seq<Op>, codename: string, text: string, c: string)
    requires Writes(ops, codename, text) && ReleaseFile(c) in store.objects
    ensures ReleaseFile(c) in Exec(md5, store, ops).store.objects
    decreases |ops|
  {
    if ops != [] {
      var first := Step(md5, store, ops[0]);
      if first.ok {
        WritesKeepReleases(md5, first.store, ops[1..], codename, text, c);
      }
    }
  }

  lemma {:induction false} QuietWrites(ops: seq<Op>, codename: string, text: string)
    requires Quiet(ops)
    ensures Writes(ops, codename, text)
  {}

  lemma {:induction false} WritesAppend(a: seq<Op>, b: seq<Op>, codename: string, text: string)
    requires Writes(a, codename, text) && Writes(b, codename, text)
    ensures Writes(a + b, codename, text)
  {}

  lemma {:induction false} TripleWrites(codename: string, text: string, signing: Signing)
    ensures Writes(TripleOps(codename, text, signing), codename, text)
  {}

  lemma {:induction false} RunWrites(w: World, objects: Objects, run: Run, codename: string, text: string)
    requires Shaped(run)
    requires NewRelease(w, objects, run).Some? ==>
            NewRelease(w, objects, run) == Some(text) && codename == CodenameOf(run)
    ensures Writes(PlanOf(w, objects, run).ops, codename, text)
  {
    RunInTwoParts(w, objects, run);
    QuietWrites(Front(w, objects, run), codename, text);
    TripleWrites(codename, text, SigningOf(run));
    if NewRelease(w, objects, run).Some? {
      WritesAppend(Front(w, objects, run), TripleOps(codename, text, SigningOf(run)), codename, text);
    } else {
      AppendEmpty(Front(w, objects, run));
    }
  }

  lemma {:induction false} RetrievedBare(
      w: World, objects: Objects, options: ReleaseOptions, component: string, a: string)
    requires Bare(Retrieved(w, objects, options), component, a)
    ensures WasBare(w, objects, options.codename, component, a)
  {}

  /** What is recorded over the Release of the store is written over it, once it is complete. */
  lemma {:induction false} RecordedIsWritten(
      w: World, objects: Objects, options: ReleaseOptions, prepared: seq<Prepared>, date: string)
    requires Lawful(w) && Sane(Retrieved(w, objects, options), date) && AllFit(prepared)
    requires Complete(RecordAll(w, Retrieved(w, objects, options), prepared))
    ensures var final := RecordAll(w, Retrieved(w, objects, options), prepared);
            Written(w, objects, options.codename, w.parseRelease(w.printRelease(final, date)))
  {
    var r := Retrieved(w, objects, options);
    var final := RecordAll(w, r, prepared);
    RecordAllSane(w, r, prepared, date);
    var s := w.parseRelease(w.printRelease(final, date));
    assert s == final.(suite := Some(final.suite.GetOr("")));
    forall component, a | SuiteName(component, a) && Bare(s, component, a)
      ensures WasBare(w, objects, options.codename, component, a)
    {
      BareExactly(w, r, prepared, component, a);
      RetrievedBare(w, objects, options, component, a);
    }
  }

  lemma {:induction false} NewReleaseWritten(w: World, objects: Objects, run: Run, text: string)
    requires Lawful(w) && Stands(w, objects) && ProperRun(w, objects, run) && !run.Collect?
    requires PreparedBy(w, objects, run).Ok? ==> Small(PreparedBy(w, objects, run).value)
    requires NewRelease(w, objects, run) == Some(text)
    ensures Written(w, objects, CodenameOf(run), w.parseRelease(text))
  {
    var c, r, date := run.options.codename, Retrieved(w, objects, run.options), run.date;
    var prepared := PreparedBy(w, objects, run).value;
    StandingRelease(w, objects, run.options, date);
    if run.Publish? {
      PreparedFit(w, c, r, run.suites, date);
      BackfillIsFixedPoint(w, c, r, run.suites, run.signing, date);
    } else {
      MissingIsProper(r);
      BuiltFit(w, c, Missing(r));
      BackfillCompletes(w, c, r);
    }
    RecordedIsWritten(w, objects, run.options, prepared, date);
  }

  /** A run leaves every Release as it was or writes a new one over it, wherever it stops. */
  lemma {:induction false} RunKeepsReleases(w: World, objects: Objects, run: Run, calls: nat)
    requires Lawful(w) && Stands(w, objects) && ProperRun(w, objects, run) && Shaped(run)
    requires !run.Collect? && PreparedBy(w, objects, run).Ok? ==> Small(PreparedBy(w, objects, run).value)
    ensures KeptOrWritten(w, objects, After(w, objects, run, calls))
  {
    var after, ops := After(w, objects, run, calls), PlanOf(w, objects, run).ops;
    forall c | ReleaseFile(c) in after
      ensures Kept(objects, after, c) || Written(w, objects, c, w.parseRelease(after[ReleaseFile(c)]))
    {
      if NewRelease(w, objects, run).Some? {
        var text := NewRelease(w, objects, run).value;
        RunWrites(w, objects, run, CodenameOf(run), text);
        ExecWrites(w.hasher.md5, Store(objects, calls), ops, CodenameOf(run), text, c);
        NewReleaseWritten(w, objects, run, text);
      } else {
        RunWrites(w, objects, run, c + "/", "");
        ExecWrites(w.hasher.md5, Store(objects, calls), ops, c + "/", "", c);
      }
    }
  }

  lemma {:induction false} BodiesKeepReleases(w: World, store: Store, bodies: seq<Op>)
    requires Bodies(bodies)
    ensures KeptOrWritten(w, store.objects, Exec(w.hasher.md5, store, bodies).store.objects)
  {
    var after := Exec(w.hasher.md5, store, bodies).store.objects;
    forall c | ReleaseFile(c) in after ensures Kept(store.objects, after, c) {
      ExecWrites(w.hasher.md5, store, bodies, c + "/", "", c);
    }
  }

  /** So does every command. */
  lemma {:induction false} CommandKeepsReleases(w: World, before: Store, command: Command, after: Store, ok: bool)
    requires Lawful(w) && Sound(w, before.objects) && Proper(w, command) && FitsMemory(w, before.objects, command)
    requires Does(w, before, command, after, ok)
    ensures KeptOrWritten(w, before.objects, after.objects)
  {
    StandsAreClean(w, before.objects);
    DoesLeaves(w, before, command, after, ok);
    if RunOf(w, before.objects, command).Some? {
      var run := RunOf(w, before.objects, command).value;
      RunIsProper(w, before.objects, command);
      RunKeepsReleases(w, before.objects, run, before.budget);
    } else if after.objects != before.objects {
      var manifests := U.Manifests(w, before.objects, command.upload, command.files).value;
      U.AllBodiesAreBodies(w, command.upload, manifests);
      BodiesKeepReleases(w, before, U.AllBodies(w, command.upload, manifests).ops);
    }
  }

  lemma {:induction false} WrittenOver(w: World, o: Objects, o': Objects, o'': Objects)
    requires KeptOrWritten(w, o, o') && KeptOrWritten(w, o', o'')
    ensures KeptOrWritten(w, o, o'')
  {
    forall c | ReleaseFile(c) in o'' && !Kept(o, o'', c)
      ensures Written(w, o, c, w.parseRelease(o''[ReleaseFile(c)]))
    {
      if !Kept(o', o'', c) {
        var s := w.parseRelease(o''[ReleaseFile(c)]);
        forall component, a | SuiteName(component, a) && Bare(s, component, a) ensures WasBare(w, o, c, component, a) {
          assert WasBare(w, o', c, component, a);
        }
      }
    }
  }

  lemma {:induction false} HistoryKeepsReleases(w: World, trace: seq<Objects>, n: nat)
    requires Lawful(w) && Chronicle(w, trace) && n < |trace|
    ensures KeptOrWritten(w, trace[0], trace[n])
  {
    if n > 0 {
      HistoryKeepsReleases(w, trace, n - 1);
      CommandsKeepIntegrity(w, trace, n - 1);
      var before, command, after, ok := ChronicleStep(w, trace, n - 1);
      CommandKeepsReleases(w, before, command, after, ok);
      WrittenOver(w, trace[0], trace[n - 1], trace[n]);
    }
  }

  /** In every history of commands, each cut off anywhere: every Release lists both indexes of every suite that it
      provides for, unless it is still the text the history found, or the history found the plain index listed
      alone. */
  lemma {:induction false} BothIndexesListed(
      w: World, trace: seq<Objects>, n: nat, c: string, component: string, a: string)
    requires Lawful(w) && Chronicle(w, trace) && n < |trace| && ReleaseFile(c) in trace[n]
    requires var s := w.parseRelease(trace[n][ReleaseFile(c)]);
             component in s.components && a in s.architectures && a in RELEASE_ARCHITECTURES
    ensures var s := w.parseRelease(trace[n][ReleaseFile(c)]);
            || Kept(trace[0], trace[n], c)
            || (EntryName(component, a, false) in s.files
                && (EntryName(component, a, true) in s.files || WasBare(w, trace[0], c, component, a)))
  {
    HistoryKeepsReleases(w, trace, n);
    CommandsKeepIntegrity(w, trace, n);
    assert Sits(w, ReleaseFile(c), trace[n][ReleaseFile(c)]);
  }
}
