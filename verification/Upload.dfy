/** Uploading package files: loading manifests, placing each package, spreading architecture-all packages over every
    loaded manifest, and the run that publishes the result. */
module Upload {
  import opened Text
  import opened Lists
  import P = Package
  import E = Edits
  import opened Keys
  import opened Calls
  import opened Worlds = World
  import opened Publication
  import opened History
  import opened Commands
  import opened Adding

  const DEFAULT_ARCHITECTURES := ["amd64", "i386", "armhf", "arm64"]
  const ALL := "all"

  const WRONG_ARCHITECTURE := "cannot be uploaded with --arch"
  const NO_ARCHITECTURE := "no architecture given and unable to determine one"
  const OUTSIDE_POOL := "refusing to write package body outside pool/"

  datatype Options = Options(
    release: ReleaseOptions, component: string, architecture: Option<string>, preserveVersions: bool,
    failIfExists: bool, skipPackageUpload: bool)

  /** An examined package file: its metadata and its bytes. */
  datatype Incoming = Incoming(pack: P.Package, body: string)

  /** A manifest loaded for the run. */
  datatype Loaded = Loaded(architecture: string, packages: seq<P.Package>, pending: seq<Incoming>)

  /** The manifests in the order they were loaded, and the architecture-all packages in the order of their files. */
  datatype Placing = Placing(loaded: seq<Loaded>, everywhere: seq<P.Package>)

  /** The manifest a package goes to. */
  function TargetOf(pack: P.Package, override: Option<string>): Result<string> {
    if override.Some? && pack.architecture != "" && pack.architecture != ALL && pack.architecture != override.value then
      Err(WRONG_ARCHITECTURE)
    else
      var a := override.GetOr(pack.architecture);
      if a == "" then Err(NO_ARCHITECTURE) else Ok(a)
  }

  function PositionOf(loaded: seq<Loaded>, a: string): (i: nat)
    ensures i <= |loaded|
    ensures i < |loaded| ==> loaded[i].architecture == a
    ensures forall j :: 0 <= j < i ==> loaded[j].architecture != a
  {
    if loaded == [] || loaded[0].architecture == a then 0 else 1 + PositionOf(loaded[1..], a)
  }

  function Load(w: World, objects: Objects, o: Options, loaded: seq<Loaded>, a: string): Result<seq<Loaded>> {
    if PositionOf(loaded, a) < |loaded| then Ok(loaded)
    else
      var packages := RetrievedPackages(w, objects, o.release.codename, o.component, a);
      if packages.Err? then Err(packages.reason) else Ok(loaded + [Loaded(a, packages.value, [])])
  }

  function LoadAll(
      w: World, objects: Objects, o: Options, loaded: seq<Loaded>, architectures: seq<string>): Result<seq<Loaded>>
    decreases |architectures|
  {
    if architectures == [] then Ok(loaded)
    else
      var next := Load(w, objects, o, loaded, architectures[0]);
      if next.Err? then next else LoadAll(w, objects, o, next.value, architectures[1..])
  }

  /** The manifests that must be loaded before a package goes to `a`. */
  function LoadFor(w: World, objects: Objects, o: Options, loaded: seq<Loaded>, a: string): Result<seq<Loaded>> {
    var first := if a == ALL && loaded == [] then LoadAll(w, objects, o, loaded, DEFAULT_ARCHITECTURES) else Ok(loaded);
    if first.Err? then first else Load(w, objects, o, first.value, a)
  }

  /** One package file. */
  function Place(w: World, objects: Objects, o: Options, st: Placing, file: Result<Incoming>): Result<Placing> {
    if file.Err? then Err(file.reason)
    else
      var pack := file.value.pack;
      var a := TargetOf(pack, o.architecture);
      if a.Err? then Err(a.reason)
      else
        var loaded := LoadFor(w, objects, o, st.loaded, a.value);
        if loaded.Err? then Err(loaded.reason)
        else
          var i := PositionOf(loaded.value, a.value);
          if i == |loaded.value| then Err(NO_ARCHITECTURE)
          else
            var failure := E.AddFailure(loaded.value[i].packages, pack, o.release.codename, o.failIfExists);
            if failure.Some? then Err(failure.value)
            else
              Ok(Placing(
                loaded.value[i := Loaded(a.value, E.Added(loaded.value[i].packages, pack, o.preserveVersions),
                                         loaded.value[i].pending + [file.value])],
                if a.value == ALL then st.everywhere + [pack] else st.everywhere))
  }

  function PlaceAll(w: World, objects: Objects, o: Options, st: Placing, files: seq<Result<Incoming>>): Result<Placing>
    decreases |files|
  {
    if files == [] then Ok(st)
    else
      var next := Place(w, objects, o, st, files[0]);
      if next.Err? then next else PlaceAll(w, objects, o, next.value, files[1..])
  }

  /** A manifest with the run's architecture-all packages added; the manifest for `all` has them already. */
  function Spread(o: Options, l: Loaded, everywhere: seq<P.Package>): Result<Loaded> {
    if l.architecture == ALL then Ok(l)
    else
      var added := AddedAll(l.packages, everywhere, o.preserveVersions, o.release.codename, o.failIfExists);
      if added.Err? then Err(added.reason) else Ok(l.(packages := added.value))
  }

  function SpreadAll(o: Options, loaded: seq<Loaded>, everywhere: seq<P.Package>): Result<seq<Loaded>> {
    if loaded == [] then Ok([])
    else
      var first, rest := Spread(o, loaded[0], everywhere), SpreadAll(o, loaded[1..], everywhere);
      if first.Err? then Err(first.reason)
      else if rest.Err? then rest
      else Ok([first.value] + rest.value)
  }

  /** The manifests of a run once every file is examined and placed. */
  function Manifests(w: World, objects: Objects, o: Options, files: seq<Result<Incoming>>): Result<seq<Loaded>> {
    var loaded := LoadAll(w, objects, o, [], Retrieved(w, objects, o.release).architectures);
    if loaded.Err? then loaded
    else
      var placed := PlaceAll(w, objects, o, Placing(loaded.value, []), files);
      if placed.Err? then Err(placed.reason) else SpreadAll(o, placed.value.loaded, placed.value.everywhere)
  }

  function SuitesOf(o: Options, byHash: bool, loaded: seq<Loaded>): (suites: seq<Suite>)
    ensures |suites| == |loaded|
  {
    if loaded == [] then []
    else [Suite(o.component, loaded[0].architecture, byHash, loaded[0].packages)] + SuitesOf(o, byHash, loaded[1..])
  }

  // ---- loading keeps one manifest per architecture

  ghost predicate OnePerArchitecture(loaded: seq<Loaded>) {
    forall i, j :: 0 <= i < j < |loaded| ==> loaded[i].architecture != loaded[j].architecture
  }

  lemma {:induction false} LoadExtends(w: World, objects: Objects, o: Options, loaded: seq<Loaded>, a: string)
    requires OnePerArchitecture(loaded) && Load(w, objects, o, loaded, a).Ok?
    ensures var next := Load(w, objects, o, loaded, a).value;
            OnePerArchitecture(next) && loaded <= next && PositionOf(next, a) < |next|
  {
    var next := Load(w, objects, o, loaded, a).value;
    if PositionOf(loaded, a) == |loaded| {
      assert next[|loaded|].architecture == a;
    }
  }

  /** Loading reads back what publishing printed: a new manifest holds the packages of the stored index, and one
      loaded before keeps what the run added to it. */
  lemma {:induction false} LoadReadsIndex(
      w: World, objects: Objects, o: Options, loaded: seq<Loaded>, a: string, packages: seq<P.Package>)
    requires Lawful(w) && AllGood(w, packages, o.release.codename)
    requires var index := Index(o.release.codename, o.component, a, false);
             index in objects && w.printPackages(packages, o.release.codename) == Ok(objects[index])
    ensures Load(w, objects, o, loaded, a).Ok?
    ensures var next, i := Load(w, objects, o, loaded, a).value, PositionOf(loaded, a);
            && PositionOf(next, a) == i && i < |next|
            && if i < |loaded| then next == loaded
               else
                 && next[..i] == loaded && |next| == i + 1 && next[i].pending == []
                 && ReadsBackAs(w, packages, o.release.codename, next[i].packages)
  {
    assert Printed(w, packages, o.release.codename, w.printPackages(packages, o.release.codename));
    var next, i := Load(w, objects, o, loaded, a).value, PositionOf(loaded, a);
    if i == |loaded| {
      assert next[i].architecture == a;
      PositionAppended(loaded, next[i]);
    }
  }

  lemma {:induction false} PositionAppended(loaded: seq<Loaded>, last: Loaded)
    requires PositionOf(loaded, last.architecture) == |loaded|
    ensures PositionOf(loaded + [last], last.architecture) == |loaded|
  {
    assert forall j :: 0 <= j < |loaded| ==> (loaded + [last])[j] == loaded[j];
    assert (loaded + [last])[|loaded|] == last;
  }

  lemma {:induction false} LoadAllExtends(
      w: World, objects: Objects, o: Options, loaded: seq<Loaded>, architectures: seq<string>)
    requires OnePerArchitecture(loaded) && LoadAll(w, objects, o, loaded, architectures).Ok?
    ensures var next := LoadAll(w, objects, o, loaded, architectures).value; OnePerArchitecture(next) && loaded <= next
    decreases |architectures|
  {
    if architectures != [] {
      LoadExtends(w, objects, o, loaded, architectures[0]);
      LoadAllExtends(w, objects, o, Load(w, objects, o, loaded, architectures[0]).value, architectures[1..]);
    }
  }

  lemma {:induction false} LoadForExtends(w: World, objects: Objects, o: Options, loaded: seq<Loaded>, a: string)
    requires OnePerArchitecture(loaded) && LoadFor(w, objects, o, loaded, a).Ok?
    ensures var next := LoadFor(w, objects, o, loaded, a).value;
            OnePerArchitecture(next) && loaded <= next && PositionOf(next, a) < |next|
  {
    if a == ALL && loaded == [] {
      LoadAllExtends(w, objects, o, loaded, DEFAULT_ARCHITECTURES);
      LoadExtends(w, objects, o, LoadAll(w, objects, o, loaded, DEFAULT_ARCHITECTURES).value, a);
    } else {
      LoadExtends(w, objects, o, loaded, a);
    }
  }

  // ---- which packages go where

  /** The architecture a file is uploaded for: the override, or its own. */
  function MeantFor(o: Options, file: Incoming): string {
    match o.architecture
    case Some(a) => a
    case None => file.pack.architecture
  }

  /** The file has an architecture to go to, and is not made for another one than the override. */
  predicate Placeable(o: Options, file: Incoming) {
    && MeantFor(o, file) != ""
    && (o.architecture.Some? ==> file.pack.architecture in ["", "all", o.architecture.value])
  }

  /** The packages of the files for an architecture, in order. */
  function FilesFor(o: Options, files: seq<Result<Incoming>>, a: string): seq<P.Package> {
    if files == [] then []
    else
      var rest := FilesFor(o, files[1..], a);
      if files[0].Ok? && MeantFor(o, files[0].value) == a then [files[0].value.pack] + rest else rest
  }

  /** What the run adds to the manifest of an architecture: the packages for it, and then those for `all`. */
  function RunFor(o: Options, files: seq<Result<Incoming>>, a: string): seq<P.Package> {
    if a == "all" then FilesFor(o, files, "all") else FilesFor(o, files, a) + FilesFor(o, files, "all")
  }

  lemma {:induction false} TargetIs(o: Options, file: Incoming)
    ensures TargetOf(file.pack, o.architecture).Ok? <==> Placeable(o, file)
    ensures Placeable(o, file) ==> TargetOf(file.pack, o.architecture) == Ok(MeantFor(o, file))
  {}

  lemma {:induction false} FilesForAppend(
      o: Options, files: seq<Result<Incoming>>, more: seq<Result<Incoming>>, a: string)
    ensures FilesFor(o, files + more, a) == FilesFor(o, files, a) + FilesFor(o, more, a)
  {
    if files == [] {
      AppendEmpty(more);
      AppendEmpty(FilesFor(o, more, a));
    } else {
      assert (files + more)[0] == files[0] && (files + more)[1..] == files[1..] + more;
      FilesForAppend(o, files[1..], more, a);
    }
  }

  lemma {:induction false} FilesForOne(o: Options, file: Incoming, a: string)
    ensures FilesFor(o, [Ok(file)], a) == if MeantFor(o, file) == a then [file.pack] else []
  {
    var files: seq<Result<Incoming>> := [Ok(file)];
    assert files[1..] == [];
  }

  lemma {:induction false} FilesForSnoc(o: Options, files: seq<Result<Incoming>>, file: Incoming, a: string)
    ensures FilesFor(o, files + [Ok(file)], a)
            == if MeantFor(o, file) == a then FilesFor(o, files, a) + [file.pack] else FilesFor(o, files, a)
  {
    FilesForAppend(o, files, [Ok(file)], a);
    FilesForOne(o, file, a);
    AppendEmpty(FilesFor(o, files, a));
  }

  // ---- each manifest holds what was retrieved and then the packages of its files

  predicate Has(loaded: seq<Loaded>, a: string) {
    PositionOf(loaded, a) < |loaded|
  }

  /** The packages of the stored index with these added. */
  function StoredWith(
      w: World, objects: Objects, o: Options, a: string, packs: seq<P.Package>): Result<seq<P.Package>> {
    var stored := RetrievedPackages(w, objects, o.release.codename, o.component, a);
    if stored.Err? then stored
    else AddedAll(stored.value, packs, o.preserveVersions, o.release.codename, o.failIfExists)
  }

  ghost predicate InOrder(w: World, objects: Objects, o: Options, st: Placing, done: seq<Result<Incoming>>) {
    && OnePerArchitecture(st.loaded) && st.everywhere == FilesFor(o, done, ALL)
    && AllStored(w, objects, o, st.loaded, done) && NothingElse(o, st.loaded, done)
  }

  /** Each manifest is the stored one with the packages of its files added. */
  ghost predicate AllStored(
      w: World, objects: Objects, o: Options, loaded: seq<Loaded>, done: seq<Result<Incoming>>) {
    forall k :: 0 <= k < |loaded| ==> IsStored(w, objects, o, loaded[k], done)
  }

  ghost predicate IsStored(w: World, objects: Objects, o: Options, l: Loaded, done: seq<Result<Incoming>>) {
    StoredWith(w, objects, o, l.architecture, FilesFor(o, done, l.architecture)) == Ok(l.packages)
  }

  /** No file went to an architecture without a manifest. */
  ghost predicate NothingElse(o: Options, loaded: seq<Loaded>, done: seq<Result<Incoming>>) {
    forall a :: !Has(loaded, a) ==> FilesFor(o, done, a) == []
  }

  lemma {:induction false} PositionPrefix(loaded: seq<Loaded>, more: seq<Loaded>, a: string)
    requires loaded <= more
    ensures PositionOf(loaded, a) < |loaded| ==> PositionOf(more, a) == PositionOf(loaded, a)
    ensures PositionOf(loaded, a) == |loaded| ==> |loaded| <= PositionOf(more, a)
  {
    var i, j := PositionOf(loaded, a), PositionOf(more, a);
    assert forall k :: 0 <= k < |loaded| ==> loaded[k] == more[k];
  }

  lemma {:induction false} LoadInOrder(
      w: World, objects: Objects, o: Options, st: Placing, done: seq<Result<Incoming>>, a: string)
    requires InOrder(w, objects, o, st, done) && Load(w, objects, o, st.loaded, a).Ok?
    ensures InOrder(w, objects, o, Placing(Load(w, objects, o, st.loaded, a).value, st.everywhere), done)
  {
    var next := Load(w, objects, o, st.loaded, a).value;
    LoadExtends(w, objects, o, st.loaded, a);
    forall b | !Has(next, b) ensures FilesFor(o, done, b) == [] {
      PositionPrefix(st.loaded, next, b);
    }
    forall k | 0 <= k < |next| ensures IsStored(w, objects, o, next[k], done) {
      if k < |st.loaded| {
        assert IsStored(w, objects, o, st.loaded[k], done);
      } else {
        assert FilesFor(o, done, a) == [];
      }
    }
  }

  lemma {:induction false} LoadAllInOrder(
      w: World, objects: Objects, o: Options, st: Placing, done: seq<Result<Incoming>>, architectures: seq<string>)
    requires InOrder(w, objects, o, st, done) && LoadAll(w, objects, o, st.loaded, architectures).Ok?
    ensures InOrder(w, objects, o, Placing(LoadAll(w, objects, o, st.loaded, architectures).value, st.everywhere), done)
    decreases |architectures|
  {
    if architectures != [] {
      LoadInOrder(w, objects, o, st, done, architectures[0]);
      LoadAllInOrder(w, objects, o, Placing(Load(w, objects, o, st.loaded, architectures[0]).value, st.everywhere),
          done, architectures[1..]);
    }
  }

  lemma {:induction false} LoadForInOrder(
      w: World, objects: Objects, o: Options, st: Placing, done: seq<Result<Incoming>>, a: string)
    requires InOrder(w, objects, o, st, done) && LoadFor(w, objects, o, st.loaded, a).Ok?
    ensures InOrder(w, objects, o, Placing(LoadFor(w, objects, o, st.loaded, a).value, st.everywhere), done)
  {
    if a == ALL && st.loaded == [] {
      LoadAllInOrder(w, objects, o, st, done, DEFAULT_ARCHITECTURES);
      LoadInOrder(w, objects, o, Placing(LoadAll(w, objects, o, st.loaded, DEFAULT_ARCHITECTURES).value, st.everywhere),
          done, a);
    } else {
      LoadInOrder(w, objects, o, st, done, a);
    }
  }

  lemma {:induction false} ReplaceKeepsPositions(loaded: seq<Loaded>, i: nat, l: Loaded, a: string)
    requires i < |loaded| && l.architecture == loaded[i].architecture
    ensures PositionOf(loaded[i := l], a) == PositionOf(loaded, a)
  {
    var j, k := PositionOf(loaded[i := l], a), PositionOf(loaded, a);
    assert forall n :: 0 <= n < |loaded| ==> loaded[i := l][n].architecture == loaded[n].architecture;
  }

  lemma {:induction false} StoredWithLast(
      w: World, objects: Objects, o: Options, a: string, packs: seq<P.Package>, pack: P.Package,
      packages: seq<P.Package>)
    requires StoredWith(w, objects, o, a, packs) == Ok(packages)
    ensures StoredWith(w, objects, o, a, packs + [pack]).Ok?
            <==> E.AddFailure(packages, pack, o.release.codename, o.failIfExists).None?
    ensures E.AddFailure(packages, pack, o.release.codename, o.failIfExists).None? ==>
              StoredWith(w, objects, o, a, packs + [pack]) == Ok(E.Added(packages, pack, o.preserveVersions))
  {
    AddedLast(RetrievedPackages(w, objects, o.release.codename, o.component, a).value, packs, pack, o.preserveVersions,
        o.release.codename, o.failIfExists);
  }

  lemma {:induction false} AddedStored(
      w: World, objects: Objects, o: Options, loaded: seq<Loaded>, done: seq<Result<Incoming>>, file: Incoming, i: nat,
      l: Loaded)
    requires OnePerArchitecture(loaded) && AllStored(w, objects, o, loaded, done)
    requires i < |loaded| && l.architecture == loaded[i].architecture == MeantFor(o, file)
    requires E.AddFailure(loaded[i].packages, file.pack, o.release.codename, o.failIfExists).None?
    requires l.packages == E.Added(loaded[i].packages, file.pack, o.preserveVersions)
    ensures AllStored(w, objects, o, loaded[i := l], done + [Ok(file)])
  {
    var next := loaded[i := l];
    forall k | 0 <= k < |next| ensures IsStored(w, objects, o, next[k], done + [Ok(file)]) {
      assert IsStored(w, objects, o, loaded[k], done);
      FilesForSnoc(o, done, file, loaded[k].architecture);
      if k == i {
        StoredWithLast(w, objects, o, l.architecture, FilesFor(o, done, l.architecture), file.pack, loaded[i].packages);
      }
    }
  }

  lemma {:induction false} AddedNothingElse(
      o: Options, loaded: seq<Loaded>, done: seq<Result<Incoming>>, file: Incoming, i: nat, l: Loaded)
    requires NothingElse(o, loaded, done) && i < |loaded|
    requires l.architecture == loaded[i].architecture == MeantFor(o, file)
    ensures NothingElse(o, loaded[i := l], done + [Ok(file)])
  {
    forall a | !Has(loaded[i := l], a) ensures FilesFor(o, done + [Ok(file)], a) == [] {
      ReplaceKeepsPositions(loaded, i, l, a);
      FilesForSnoc(o, done, file, a);
    }
  }

  lemma {:induction false} AddInOrder(
      w: World, objects: Objects, o: Options, st: Placing, done: seq<Result<Incoming>>, file: Incoming,
      pending: seq<Incoming>)
    requires InOrder(w, objects, o, st, done) && Has(st.loaded, MeantFor(o, file))
    requires E.AddFailure(st.loaded[PositionOf(st.loaded, MeantFor(o, file))].packages, file.pack, o.release.codename,
             o.failIfExists).None?
    ensures var a := MeantFor(o, file);
            var i := PositionOf(st.loaded, a);
            InOrder(w, objects, o, Placing(
              st.loaded[i := Loaded(a, E.Added(st.loaded[i].packages, file.pack, o.preserveVersions), pending)],
              if a == ALL then st.everywhere + [file.pack] else st.everywhere), done + [Ok(file)])
  {
    var a := MeantFor(o, file);
    var i := PositionOf(st.loaded, a);
    var l := Loaded(a, E.Added(st.loaded[i].packages, file.pack, o.preserveVersions), pending);
    AddedStored(w, objects, o, st.loaded, done, file, i, l);
    AddedNothingElse(o, st.loaded, done, file, i, l);
    FilesForSnoc(o, done, file, ALL);
  }

  lemma {:induction false} PlaceInOrder(
      w: World, objects: Objects, o: Options, st: Placing, done: seq<Result<Incoming>>, file: Result<Incoming>)
    requires InOrder(w, objects, o, st, done) && Place(w, objects, o, st, file).Ok?
    ensures file.Ok? && Placeable(o, file.value)
    ensures InOrder(w, objects, o, Place(w, objects, o, st, file).value, done + [file])
  {
    TargetIs(o, file.value);
    var a := MeantFor(o, file.value);
    var loaded := LoadFor(w, objects, o, st.loaded, a).value;
    LoadForInOrder(w, objects, o, st, done, a);
    AddInOrder(w, objects, o, Placing(loaded, st.everywhere), done, file.value,
        loaded[PositionOf(loaded, a)].pending + [file.value]);
  }

  /** Every file that is placed goes to the manifest of its architecture, behind those before it, and to no other. */
  lemma {:induction false} PlaceAllInOrder(
      w: World, objects: Objects, o: Options, st: Placing, done: seq<Result<Incoming>>, files: seq<Result<Incoming>>)
    requires InOrder(w, objects, o, st, done) && PlaceAll(w, objects, o, st, files).Ok?
    ensures InOrder(w, objects, o, PlaceAll(w, objects, o, st, files).value, done + files)
    decreases |files|
  {
    if files == [] {
      AppendEmpty(done);
    } else {
      PlaceInOrder(w, objects, o, st, done, files[0]);
      PlaceAllInOrder(w, objects, o, Place(w, objects, o, st, files[0]).value, done + [files[0]], files[1..]);
      HeadMoves(done, files);
    }
  }

  lemma {:induction false} HeadMoves<T>(done: seq<T>, files: seq<T>)
    requires files != []
    ensures done + [files[0]] + files[1..] == done + files
  {}

  /** A run whose files are all placed has no file that is made for another architecture than the override, and none
      without an architecture. */
  lemma {:induction false} AllPlaceable(
      w: World, objects: Objects, o: Options, st: Placing, files: seq<Result<Incoming>>)
    requires PlaceAll(w, objects, o, st, files).Ok?
    ensures forall i :: 0 <= i < |files| ==> files[i].Ok? && Placeable(o, files[i].value)
    decreases |files|
  {
    if files != [] {
      TargetIs(o, files[0].value);
      AllPlaceable(w, objects, o, Place(w, objects, o, st, files[0]).value, files[1..]);
      assert forall i :: 0 < i < |files| ==> files[i] == files[1..][i - 1];
    }
  }

  lemma {:induction false} SpreadAllAt(o: Options, loaded: seq<Loaded>, everywhere: seq<P.Package>, k: nat)
    requires SpreadAll(o, loaded, everywhere).Ok? && k < |loaded|
    ensures |SpreadAll(o, loaded, everywhere).value| == |loaded|
    ensures Spread(o, loaded[k], everywhere) == Ok(SpreadAll(o, loaded, everywhere).value[k])
  {
    if k > 0 {
      SpreadAllAt(o, loaded[1..], everywhere, k - 1);
    } else if |loaded| > 1 {
      SpreadAllAt(o, loaded[1..], everywhere, 0);
    }
  }

  lemma {:induction false} SpreadSameLength(o: Options, loaded: seq<Loaded>, everywhere: seq<P.Package>)
    requires SpreadAll(o, loaded, everywhere).Ok?
    ensures |SpreadAll(o, loaded, everywhere).value| == |loaded|
  {
    if loaded != [] {
      SpreadAllAt(o, loaded, everywhere, 0);
    }
  }

  /** The placement a successful run reaches before spreading. */
  function Placed(w: World, objects: Objects, o: Options, files: seq<Result<Incoming>>): Placing
    requires Manifests(w, objects, o, files).Ok?
  {
    PlaceAll(w, objects, o,
        Placing(LoadAll(w, objects, o, [], Retrieved(w, objects, o.release).architectures).value, []), files).value
  }

  lemma {:induction false} PlacedInOrder(w: World, objects: Objects, o: Options, files: seq<Result<Incoming>>)
    requires Manifests(w, objects, o, files).Ok?
    ensures InOrder(w, objects, o, Placed(w, objects, o, files), files)
  {
    var architectures := Retrieved(w, objects, o.release).architectures;
    LoadAllInOrder(w, objects, o, Placing([], []), [], architectures);
    PlaceAllInOrder(w, objects, o, Placing(LoadAll(w, objects, o, [], architectures).value, []), [], files);
    assert [] + files == files;
  }

  lemma {:induction false} AddedAllAppend(
      packages: seq<P.Package>, a: seq<P.Package>, b: seq<P.Package>, preserveVersions: bool, codename: string,
      failIfExists: bool)
    ensures var first := AddedAll(packages, a, preserveVersions, codename, failIfExists);
            AddedAll(packages, a + b, preserveVersions, codename, failIfExists)
            == if first.Err? then first else AddedAll(first.value, b, preserveVersions, codename, failIfExists)
    decreases |a|
  {
    if a == [] {
      AppendEmpty(b);
    } else {
      assert (a + b)[0] == a[0] && (a + b)[1..] == a[1..] + b;
      if E.AddFailure(packages, a[0], codename, failIfExists).None? {
        AddedAllAppend(E.Added(packages, a[0], preserveVersions), a[1..], b, preserveVersions, codename, failIfExists);
      }
    }
  }

  /** A manifest of the run: what was stored, with the run's packages for it added. */
  lemma {:induction false} ManifestIs(
      w: World, objects: Objects, o: Options, files: seq<Result<Incoming>>, k: nat)
    requires Manifests(w, objects, o, files).Ok? && k < |Manifests(w, objects, o, files).value|
    ensures var l := Manifests(w, objects, o, files).value[k];
            StoredWith(w, objects, o, l.architecture, RunFor(o, files, l.architecture)) == Ok(l.packages)
  {
    var st := Placed(w, objects, o, files);
    PlacedInOrder(w, objects, o, files);
    SpreadSameLength(o, st.loaded, st.everywhere);
    SpreadAllAt(o, st.loaded, st.everywhere, k);
    var a := st.loaded[k].architecture;
    assert IsStored(w, objects, o, st.loaded[k], files);
    if a != ALL {
      AddedAllAppend(RetrievedPackages(w, objects, o.release.codename, o.component, a).value, FilesFor(o, files, a),
          FilesFor(o, files, ALL), o.preserveVersions, o.release.codename, o.failIfExists);
    }
  }

  /** An upload places its files as they are made, or as the override says: the manifest of an architecture holds the
      packages that were stored and that none of the run for it or for `all` replaces, in order, and then those of the
      run, the ones for `all` last, each once. */
  lemma {:induction false} UploadPlaces(
      w: World, objects: Objects, o: Options, files: seq<Result<Incoming>>, k: nat, stored: seq<P.Package>)
    requires Manifests(w, objects, o, files).Ok? && k < |Manifests(w, objects, o, files).value|
    requires var a := Manifests(w, objects, o, files).value[k].architecture;
             RetrievedPackages(w, objects, o.release.codename, o.component, a) == Ok(stored)
    ensures var l := Manifests(w, objects, o, files).value[k];
            l.packages == WithAdded(stored, RunFor(o, files, l.architecture), o.preserveVersions)
  {
    var l := Manifests(w, objects, o, files).value[k];
    ManifestIs(w, objects, o, files, k);
    AddedExactly(stored, RunFor(o, files, l.architecture), o.preserveVersions, o.release.codename, o.failIfExists);
  }

  /** A package for `all` that no later one for `all` replaces is in every manifest of the run exactly once, whichever
      file caused the manifest to be loaded. */
  lemma {:induction false} FanOut(
      w: World, objects: Objects, o: Options, files: seq<Result<Incoming>>, k: nat, p: P.Package)
    requires Manifests(w, objects, o, files).Ok? && k < |Manifests(w, objects, o, files).value|
    requires LastIn(p, FilesFor(o, files, "all"), o.preserveVersions)
    ensures Count(Manifests(w, objects, o, files).value[k].packages, p) == 1
  {
    var a := Manifests(w, objects, o, files).value[k].architecture;
    ManifestIs(w, objects, o, files, k);
    var stored := RetrievedPackages(w, objects, o.release.codename, o.component, a).value;
    UploadPlaces(w, objects, o, files, k, stored);
    if a != "all" {
      LastInSuffix(p, FilesFor(o, files, a), FilesFor(o, files, "all"), o.preserveVersions);
    }
    AddedCounts(stored, RunFor(o, files, a), o.preserveVersions, p);
  }

  /** A package for one architecture that no later one for it, and none for `all`, replaces is in the manifest of that
      architecture exactly once. */
  lemma {:induction false} OwnManifest(
      w: World, objects: Objects, o: Options, files: seq<Result<Incoming>>, k: nat, p: P.Package)
    requires Manifests(w, objects, o, files).Ok? && k < |Manifests(w, objects, o, files).value|
    requires var a := Manifests(w, objects, o, files).value[k].architecture;
             && LastIn(p, FilesFor(o, files, a), o.preserveVersions)
             && (a != "all" ==> Outlives(p, FilesFor(o, files, "all"), o.preserveVersions))
    ensures Count(Manifests(w, objects, o, files).value[k].packages, p) == 1
  {
    var a := Manifests(w, objects, o, files).value[k].architecture;
    ManifestIs(w, objects, o, files, k);
    var stored := RetrievedPackages(w, objects, o.release.codename, o.component, a).value;
    UploadPlaces(w, objects, o, files, k, stored);
    if a != "all" {
      LastInPrefix(p, FilesFor(o, files, a), FilesFor(o, files, "all"), o.preserveVersions);
    }
    AddedCounts(stored, RunFor(o, files, a), o.preserveVersions, p);
  }

  // ---- which manifests there are

  /** The run has a manifest of this architecture: the Release names it, a file goes there, or nothing is published
      yet and the first file is for `all`. */
  ghost predicate Reached(architectures: seq<string>, o: Options, files: seq<Result<Incoming>>, a: string) {
    || a in architectures
    || (exists i :: 0 <= i < |files| && files[i].Ok? && MeantFor(o, files[i].value) == a)
    || (architectures == [] && ForAllFirst(o, files) && a in ["amd64", "i386", "armhf", "arm64"])
  }

  predicate ForAllFirst(o: Options, files: seq<Result<Incoming>>) {
    files != [] && files[0].Ok? && MeantFor(o, files[0].value) == "all"
  }

  lemma {:induction false} HasExactly(loaded: seq<Loaded>, a: string)
    ensures Has(loaded, a) <==> exists k :: 0 <= k < |loaded| && loaded[k].architecture == a
  {}

  lemma {:induction false} HasAppended(loaded: seq<Loaded>, l: Loaded, b: string)
    ensures Has(loaded + [l], b) <==> Has(loaded, b) || b == l.architecture
  {
    var all := loaded + [l];
    assert all[|loaded|] == l && forall k :: 0 <= k < |loaded| ==> all[k] == loaded[k];
  }

  lemma {:induction false} LoadHas(w: World, objects: Objects, o: Options, loaded: seq<Loaded>, a: string)
    requires Load(w, objects, o, loaded, a).Ok?
    ensures forall b :: Has(Load(w, objects, o, loaded, a).value, b) <==> Has(loaded, b) || b == a
  {
    if !Has(loaded, a) {
      var l := Load(w, objects, o, loaded, a).value[|loaded|];
      forall b ensures Has(loaded + [l], b) <==> Has(loaded, b) || b == a {
        HasAppended(loaded, l, b);
      }
    }
  }

  lemma {:induction false} LoadAllHas(
      w: World, objects: Objects, o: Options, loaded: seq<Loaded>, architectures: seq<string>)
    requires LoadAll(w, objects, o, loaded, architectures).Ok?
    ensures forall b :: Has(LoadAll(w, objects, o, loaded, architectures).value, b)
                        <==> Has(loaded, b) || b in architectures
    decreases |architectures|
  {
    if architectures != [] {
      LoadHas(w, objects, o, loaded, architectures[0]);
      LoadAllHas(w, objects, o, Load(w, objects, o, loaded, architectures[0]).value, architectures[1..]);
      assert architectures == [architectures[0]] + architectures[1..];
    }
  }

  lemma {:induction false} LoadForHas(w: World, objects: Objects, o: Options, loaded: seq<Loaded>, a: string)
    requires LoadFor(w, objects, o, loaded, a).Ok?
    ensures forall b :: Has(LoadFor(w, objects, o, loaded, a).value, b)
              <==> (Has(loaded, b) || b == a
                   || (a == "all" && loaded == [] && b in ["amd64", "i386", "armhf", "arm64"]))
  {
    if a == ALL && loaded == [] {
      LoadAllHas(w, objects, o, loaded, DEFAULT_ARCHITECTURES);
      LoadHas(w, objects, o, LoadAll(w, objects, o, loaded, DEFAULT_ARCHITECTURES).value, a);
    } else {
      LoadHas(w, objects, o, loaded, a);
    }
  }

  lemma {:induction false} PlaceHas(w: World, objects: Objects, o: Options, st: Placing, file: Result<Incoming>)
    requires Place(w, objects, o, st, file).Ok?
    ensures var a, next := MeantFor(o, file.value), Place(w, objects, o, st, file).value.loaded;
            && next != []
            && forall b :: Has(next, b)
                 <==> (Has(st.loaded, b) || b == a
                      || (a == "all" && st.loaded == [] && b in ["amd64", "i386", "armhf", "arm64"]))
  {
    TargetIs(o, file.value);
    var a := MeantFor(o, file.value);
    var loaded := LoadFor(w, objects, o, st.loaded, a).value;
    LoadForHas(w, objects, o, st.loaded, a);
    forall b ensures PositionOf(Place(w, objects, o, st, file).value.loaded, b) == PositionOf(loaded, b) {
      ReplaceKeepsPositions(loaded, PositionOf(loaded, a),
          Place(w, objects, o, st, file).value.loaded[PositionOf(loaded, a)], b);
    }
  }

  ghost predicate SomeMeant(o: Options, files: seq<Result<Incoming>>, a: string) {
    exists i :: 0 <= i < |files| && files[i].Ok? && MeantFor(o, files[i].value) == a
  }

  lemma {:induction false} SomeMeantCons(o: Options, files: seq<Result<Incoming>>, a: string)
    requires files != []
    ensures SomeMeant(o, files, a)
            <==> (files[0].Ok? && MeantFor(o, files[0].value) == a) || SomeMeant(o, files[1..], a)
  {
    var rest := files[1..];
    if i :| 0 <= i < |files| && files[i].Ok? && MeantFor(o, files[i].value) == a {
      assert i > 0 ==> rest[i - 1] == files[i];
    }
    if i :| 0 <= i < |rest| && rest[i].Ok? && MeantFor(o, rest[i].value) == a {
      assert files[i + 1] == rest[i];
    }
  }

  lemma {:induction false} PlaceAllHas(
      w: World, objects: Objects, o: Options, st: Placing, files: seq<Result<Incoming>>, b: string)
    requires PlaceAll(w, objects, o, st, files).Ok?
    ensures Has(PlaceAll(w, objects, o, st, files).value.loaded, b)
            <==> (Has(st.loaded, b) || SomeMeant(o, files, b)
                 || (st.loaded == [] && ForAllFirst(o, files) && b in ["amd64", "i386", "armhf", "arm64"]))
    decreases |files|
  {
    if files != [] {
      PlaceHas(w, objects, o, st, files[0]);
      PlaceAllHas(w, objects, o, Place(w, objects, o, st, files[0]).value, files[1..], b);
      SomeMeantCons(o, files, b);
    }
  }

  lemma {:induction false} SpreadHas(o: Options, loaded: seq<Loaded>, everywhere: seq<P.Package>, b: string)
    requires SpreadAll(o, loaded, everywhere).Ok?
    ensures Has(SpreadAll(o, loaded, everywhere).value, b) <==> Has(loaded, b)
  {
    SpreadSameLength(o, loaded, everywhere);
    forall k | 0 <= k < |loaded| ensures SpreadAll(o, loaded, everywhere).value[k].architecture
        == loaded[k].architecture
    {
      SpreadAllAt(o, loaded, everywhere, k);
    }
    HasExactly(loaded, b);
    HasExactly(SpreadAll(o, loaded, everywhere).value, b);
  }

  lemma {:induction false} NothingLoaded(
      w: World, objects: Objects, o: Options, architectures: seq<string>)
    requires LoadAll(w, objects, o, [], architectures).Ok?
    ensures LoadAll(w, objects, o, [], architectures).value == [] <==> architectures == []
  {
    LoadAllHas(w, objects, o, [], architectures);
    if architectures != [] {
      assert Has(LoadAll(w, objects, o, [], architectures).value, architectures[0]);
    }
  }

  /** A run has exactly these manifests. */
  lemma {:induction false} ManifestsReached(
      w: World, objects: Objects, o: Options, files: seq<Result<Incoming>>, a: string)
    requires Manifests(w, objects, o, files).Ok?
    ensures Has(Manifests(w, objects, o, files).value, a)
            <==> Reached(Retrieved(w, objects, o.release).architectures, o, files, a)
  {
    var architectures := Retrieved(w, objects, o.release).architectures;
    var loaded, st := LoadAll(w, objects, o, [], architectures).value, Placed(w, objects, o, files);
    LoadAllHas(w, objects, o, [], architectures);
    NothingLoaded(w, objects, o, architectures);
    PlaceAllHas(w, objects, o, Placing(loaded, []), files, a);
    SpreadHas(o, st.loaded, st.everywhere, a);
  }

  // ---- when an upload is refused

  ghost predicate EveryPlaceable(o: Options, files: seq<Result<Incoming>>) {
    forall i :: 0 <= i < |files| ==> files[i].Ok? && Placeable(o, files[i].value)
  }

  lemma {:induction false} StoredWithPrefix(
      w: World, objects: Objects, o: Options, a: string, packs: seq<P.Package>, more: seq<P.Package>)
    requires StoredWith(w, objects, o, a, packs + more).Ok?
    ensures StoredWith(w, objects, o, a, packs).Ok?
    ensures AddedAll(StoredWith(w, objects, o, a, packs).value, more, o.preserveVersions, o.release.codename,
            o.failIfExists).Ok?
  {
    AddedAllAppend(RetrievedPackages(w, objects, o.release.codename, o.component, a).value, packs, more,
        o.preserveVersions, o.release.codename, o.failIfExists);
  }

  predicate Readable(w: World, objects: Objects, o: Options, a: string) {
    RetrievedPackages(w, objects, o.release.codename, o.component, a).Ok?
  }

  lemma {:induction false} LoadAllReads(
      w: World, objects: Objects, o: Options, loaded: seq<Loaded>, architectures: seq<string>)
    requires forall a :: a in architectures ==> Readable(w, objects, o, a)
    ensures LoadAll(w, objects, o, loaded, architectures).Ok?
    decreases |architectures|
  {
    if architectures != [] {
      assert architectures[0] in architectures;
      LoadAllReads(w, objects, o, Load(w, objects, o, loaded, architectures[0]).value, architectures[1..]);
    }
  }

  lemma {:induction false} LoadForReads(w: World, objects: Objects, o: Options, loaded: seq<Loaded>, a: string)
    requires Readable(w, objects, o, a)
    requires a == ALL && loaded == [] ==> forall b :: b in DEFAULT_ARCHITECTURES ==> Readable(w, objects, o, b)
    ensures LoadFor(w, objects, o, loaded, a).Ok?
  {
    if a == ALL && loaded == [] {
      LoadAllReads(w, objects, o, loaded, DEFAULT_ARCHITECTURES);
    }
  }

  /** A file is placed when its index can be read and takes its package. */
  lemma {:induction false} PlaceSucceeds(
      w: World, objects: Objects, o: Options, st: Placing, done: seq<Result<Incoming>>, file: Incoming)
    requires InOrder(w, objects, o, st, done) && Placeable(o, file)
    requires StoredWith(w, objects, o, MeantFor(o, file), FilesFor(o, done, MeantFor(o, file)) + [file.pack]).Ok?
    requires MeantFor(o, file) == ALL && st.loaded == [] ==>
               forall b :: b in DEFAULT_ARCHITECTURES ==> Readable(w, objects, o, b)
    ensures Place(w, objects, o, st, Ok(file)).Ok?
  {
    var a := MeantFor(o, file);
    TargetIs(o, file);
    LoadForReads(w, objects, o, st.loaded, a);
    var loaded := LoadFor(w, objects, o, st.loaded, a).value;
    LoadForExtends(w, objects, o, st.loaded, a);
    LoadForInOrder(w, objects, o, st, done, a);
    assert IsStored(w, objects, o, loaded[PositionOf(loaded, a)], done);
    StoredWithLast(w, objects, o, a, FilesFor(o, done, a), file.pack, loaded[PositionOf(loaded, a)].packages);
  }

  /** The indexes of the files can be read and take all their packages. */
  ghost predicate Takes(
      w: World, objects: Objects, o: Options, all: seq<Result<Incoming>>, files: seq<Result<Incoming>>) {
    forall a :: SomeMeant(o, files, a) ==> StoredWith(w, objects, o, a, FilesFor(o, all, a)).Ok?
  }

  lemma {:induction false} TakesFirst(
      w: World, objects: Objects, o: Options, done: seq<Result<Incoming>>, files: seq<Result<Incoming>>)
    requires files != [] && files[0].Ok? && Takes(w, objects, o, done + files, files)
    ensures var file := files[0].value;
            StoredWith(w, objects, o, MeantFor(o, file), FilesFor(o, done, MeantFor(o, file)) + [file.pack]).Ok?
    ensures Takes(w, objects, o, done + [files[0]] + files[1..], files[1..])
  {
    var file, a := files[0].value, MeantFor(o, files[0].value);
    HeadMoves(done, files);
    forall b ensures SomeMeant(o, files[1..], b) ==> SomeMeant(o, files, b) {
      SomeMeantCons(o, files, b);
    }
    SomeMeantCons(o, files, a);
    FilesForAppend(o, done + [files[0]], files[1..], a);
    FilesForSnoc(o, done, file, a);
    assert done + [files[0]] == done + [Ok(file)];
    StoredWithPrefix(w, objects, o, a, FilesFor(o, done, a) + [file.pack], FilesFor(o, files[1..], a));
  }

  lemma {:induction false} PlaceAllSucceeds(
      w: World, objects: Objects, o: Options, st: Placing, done: seq<Result<Incoming>>, files: seq<Result<Incoming>>)
    requires InOrder(w, objects, o, st, done) && EveryPlaceable(o, files) && Takes(w, objects, o, done + files, files)
    requires st.loaded == [] && ForAllFirst(o, files) ==>
               forall b :: b in DEFAULT_ARCHITECTURES ==> Readable(w, objects, o, b)
    ensures PlaceAll(w, objects, o, st, files).Ok?
    decreases |files|
  {
    if files != [] {
      TakesFirst(w, objects, o, done, files);
      PlaceSucceeds(w, objects, o, st, done, files[0].value);
      PlaceInOrder(w, objects, o, st, done, files[0]);
      PlaceHas(w, objects, o, st, files[0]);
      assert forall i :: 0 <= i < |files[1..]| ==> files[1..][i] == files[i + 1];
      PlaceAllSucceeds(w, objects, o, Place(w, objects, o, st, files[0]).value, done + [files[0]], files[1..]);
    }
  }

  lemma {:induction false} SpreadAllSucceeds(o: Options, loaded: seq<Loaded>, everywhere: seq<P.Package>)
    requires forall k :: 0 <= k < |loaded| ==> Spread(o, loaded[k], everywhere).Ok?
    ensures SpreadAll(o, loaded, everywhere).Ok?
  {
    if loaded != [] {
      assert forall k :: 0 <= k < |loaded[1..]| ==> loaded[1..][k] == loaded[k + 1];
      SpreadAllSucceeds(o, loaded[1..], everywhere);
    }
  }

  /** The files fit their architectures, and every index that the run reaches can be read and takes the run's packages
      for it. */
  ghost predicate Accepts(w: World, objects: Objects, o: Options, files: seq<Result<Incoming>>) {
    && EveryPlaceable(o, files)
    && forall a :: Reached(Retrieved(w, objects, o.release).architectures, o, files, a) ==>
         StoredWith(w, objects, o, a, RunFor(o, files, a)).Ok?
  }

  lemma {:induction false} AcceptedTakes(
      w: World, objects: Objects, o: Options, files: seq<Result<Incoming>>, a: string)
    requires Accepts(w, objects, o, files)
    requires Reached(Retrieved(w, objects, o.release).architectures, o, files, a)
    ensures Readable(w, objects, o, a) && StoredWith(w, objects, o, a, FilesFor(o, files, a)).Ok?
  {
    if a != "all" {
      StoredWithPrefix(w, objects, o, a, FilesFor(o, files, a), FilesFor(o, files, "all"));
    }
  }

  lemma {:induction false} AcceptedPlaces(
      w: World, objects: Objects, o: Options, files: seq<Result<Incoming>>)
    requires Accepts(w, objects, o, files)
    ensures var loaded := LoadAll(w, objects, o, [], Retrieved(w, objects, o.release).architectures);
            loaded.Ok? && PlaceAll(w, objects, o, Placing(loaded.value, []), files).Ok?
  {
    var architectures := Retrieved(w, objects, o.release).architectures;
    forall a | Reached(architectures, o, files, a)
      ensures Readable(w, objects, o, a) && StoredWith(w, objects, o, a, FilesFor(o, files, a)).Ok?
    {
      AcceptedTakes(w, objects, o, files, a);
    }
    LoadAllReads(w, objects, o, [], architectures);
    NothingLoaded(w, objects, o, architectures);
    LoadAllInOrder(w, objects, o, Placing([], []), [], architectures);
    assert [] + files == files;
    forall a | SomeMeant(o, files, a) ensures StoredWith(w, objects, o, a, FilesFor(o, [] + files, a)).Ok? {
      assert Reached(architectures, o, files, a);
    }
    PlaceAllSucceeds(w, objects, o, Placing(LoadAll(w, objects, o, [], architectures).value, []), [], files);
  }

  lemma {:induction false} AcceptedSpreads(
      w: World, objects: Objects, o: Options, files: seq<Result<Incoming>>)
    requires Accepts(w, objects, o, files)
    ensures Manifests(w, objects, o, files).Ok?
  {
    AcceptedPlaces(w, objects, o, files);
    var architectures := Retrieved(w, objects, o.release).architectures;
    var loaded := LoadAll(w, objects, o, [], architectures).value;
    var st := PlaceAll(w, objects, o, Placing(loaded, []), files).value;
    LoadAllInOrder(w, objects, o, Placing([], []), [], architectures);
    PlaceAllInOrder(w, objects, o, Placing(loaded, []), [], files);
    assert [] + files == files;
    LoadAllHas(w, objects, o, [], architectures);
    NothingLoaded(w, objects, o, architectures);
    forall k | 0 <= k < |st.loaded| ensures Spread(o, st.loaded[k], st.everywhere).Ok? {
      var a := st.loaded[k].architecture;
      PlaceAllHas(w, objects, o, Placing(loaded, []), files, a);
      HasExactly(st.loaded, a);
      assert Reached(architectures, o, files, a);
      assert IsStored(w, objects, o, st.loaded[k], files);
      if a != ALL {
        StoredWithPrefix(w, objects, o, a, FilesFor(o, files, a), FilesFor(o, files, "all"));
      }
    }
    SpreadAllSucceeds(o, st.loaded, st.everywhere);
  }

  /** An upload gets past its preparation exactly then. */
  lemma {:induction false} AcceptedExactly(w: World, objects: Objects, o: Options, files: seq<Result<Incoming>>)
    ensures Manifests(w, objects, o, files).Ok? <==> Accepts(w, objects, o, files)
  {
    if Accepts(w, objects, o, files) {
      AcceptedSpreads(w, objects, o, files);
    }
    if Manifests(w, objects, o, files).Ok? {
      var manifests, architectures :=
          Manifests(w, objects, o, files).value, Retrieved(w, objects, o.release).architectures;
      AllPlaceable(w, objects, o, Placing(LoadAll(w, objects, o, [], architectures).value, []), files);
      forall a | Reached(architectures, o, files, a)
        ensures StoredWith(w, objects, o, a, RunFor(o, files, a)).Ok?
      {
        ManifestsReached(w, objects, o, files, a);
        ManifestIs(w, objects, o, files, PositionOf(manifests, a));
      }
    }
  }

  // ---- the run

  /** `publishPackage`: the call that stores one body. */
  function BodyOp(w: World, o: Options, file: Incoming): Result<Op> {
    var path := w.pathOf(file.pack, o.release.codename);
    if file.pack.filename == "" then Err("package has no source filename")
    else if path.Err? then Err(path.reason)
    else if !HasPrefix(path.value, "pool/") then Err(OUTSIDE_POOL)
    else Ok(Put(Pool(path.value), file.body, if o.failIfExists then FailIfExists else Overwrite))
  }

  /** The bodies of one manifest, up to the first that cannot be stored. */
  function BodiesOf(w: World, o: Options, pending: seq<Incoming>): Plan {
    if o.skipPackageUpload || pending == [] then Plan([], true)
    else
      var first := BodyOp(w, o, pending[0]);
      if first.Err? then Plan([], false)
      else
        var rest := BodiesOf(w, o, pending[1..]);
        Plan([first.value] + rest.ops, rest.completes)
  }

  function AllBodies(w: World, o: Options, loaded: seq<Loaded>): Plan {
    if loaded == [] then Plan([], true)
    else
      var first := BodiesOf(w, o, loaded[0].pending);
      if !first.completes then first
      else
        var rest := AllBodies(w, o, loaded[1..]);
        Plan(first.ops + rest.ops, rest.completes)
  }

  /** The calls of an upload. */
  function UploadCalls(
      w: World, objects: Objects, o: Options, files: seq<Result<Incoming>>, signing: Signing, date: string): Plan {
    var manifests := Manifests(w, objects, o, files);
    if manifests.Err? then Plan([], false)
    else
      var r, c := Retrieved(w, objects, o.release), o.release.codename;
      var suites, bodies := SuitesOf(o, r.byHash, manifests.value), AllBodies(w, o, manifests.value);
      if PreparedFor(w, c, r, suites).Err? then Plan([], false)
      else if !bodies.completes then bodies
      else UploadPlan(w, c, r, bodies.ops, suites, signing, date)
  }

  // ---- an upload is an admissible run

  /** The objects the files' bodies go to. */
  ghost function FileKeys(w: World, o: Options, files: seq<Result<Incoming>>): set<Key> {
    set i | 0 <= i < |files| && files[i].Ok? && w.pathOf(files[i].value.pack, o.release.codename).Ok?
      :: Pool(w.pathOf(files[i].value.pack, o.release.codename).value)
  }

  ghost predicate GoodFiles(w: World, o: Options, files: seq<Result<Incoming>>) {
    forall i :: 0 <= i < |files| && files[i].Ok? ==>
      w.good(files[i].value.pack, o.release.codename) && files[i].value.pack.filename != ""
  }

  ghost predicate SuppliedPlacing(w: World, o: Options, st: Placing, pool: set<Key>) {
    && (forall k :: 0 <= k < |st.loaded| ==> SuppliedPackages(w, o.release.codename, st.loaded[k].packages, pool))
    && SuppliedPackages(w, o.release.codename, st.everywhere, pool)
  }

  lemma {:induction false} LoadSupplied(w: World, objects: Objects, o: Options, st: Placing, a: string, pool: set<Key>)
    requires Integrity(w, objects) && objects.Keys <= pool
    requires SuppliedPlacing(w, o, st, pool) && Load(w, objects, o, st.loaded, a).Ok?
    ensures SuppliedPlacing(w, o, Placing(Load(w, objects, o, st.loaded, a).value, st.everywhere), pool)
  {
    var packages := RetrievedPackages(w, objects, o.release.codename, o.component, a);
    if packages.Ok? {
      StoredSupplied(w, objects, o.release.codename, o.component, a, o.release.codename);
      forall k | 0 <= k < |packages.value| ensures Fine(w, o.release.codename, packages.value[k], pool) {
        assert Fine(w, o.release.codename, packages.value[k], objects.Keys);
      }
    }
  }

  lemma {:induction false} LoadAllSupplied(
      w: World, objects: Objects, o: Options, st: Placing, architectures: seq<string>, pool: set<Key>)
    requires Integrity(w, objects) && objects.Keys <= pool
    requires SuppliedPlacing(w, o, st, pool) && LoadAll(w, objects, o, st.loaded, architectures).Ok?
    ensures SuppliedPlacing(w, o, Placing(LoadAll(w, objects, o, st.loaded, architectures).value, st.everywhere), pool)
    decreases |architectures|
  {
    if architectures != [] {
      LoadSupplied(w, objects, o, st, architectures[0], pool);
      LoadAllSupplied(w, objects, o, Placing(Load(w, objects, o, st.loaded, architectures[0]).value, st.everywhere),
          architectures[1..], pool);
    }
  }

  lemma {:induction false} LoadForSupplied(
      w: World, objects: Objects, o: Options, st: Placing, a: string, pool: set<Key>)
    requires Integrity(w, objects) && objects.Keys <= pool
    requires SuppliedPlacing(w, o, st, pool) && LoadFor(w, objects, o, st.loaded, a).Ok?
    ensures SuppliedPlacing(w, o, Placing(LoadFor(w, objects, o, st.loaded, a).value, st.everywhere), pool)
  {
    if a == ALL && st.loaded == [] {
      LoadAllSupplied(w, objects, o, st, DEFAULT_ARCHITECTURES, pool);
      LoadSupplied(w, objects, o,
          Placing(LoadAll(w, objects, o, st.loaded, DEFAULT_ARCHITECTURES).value, st.everywhere), a, pool);
    } else {
      LoadSupplied(w, objects, o, st, a, pool);
    }
  }

  lemma {:induction false} PlaceSupplied(
      w: World, objects: Objects, o: Options, st: Placing, file: Result<Incoming>, pool: set<Key>)
    requires Integrity(w, objects) && objects.Keys <= pool && SuppliedPlacing(w, o, st, pool)
    requires Place(w, objects, o, st, file).Ok? && Fine(w, o.release.codename, file.value.pack, pool)
    ensures SuppliedPlacing(w, o, Place(w, objects, o, st, file).value, pool)
  {
    var a := TargetOf(file.value.pack, o.architecture).value;
    var loaded := LoadFor(w, objects, o, st.loaded, a).value;
    var i := PositionOf(loaded, a);
    LoadForSupplied(w, objects, o, st, a, pool);
    AddedSupplied(w, o.release.codename, loaded[i].packages, file.value.pack, o.preserveVersions, pool);
  }

  lemma {:induction false} PlaceAllSupplied(
      w: World, objects: Objects, o: Options, st: Placing, files: seq<Result<Incoming>>, pool: set<Key>)
    requires Integrity(w, objects) && objects.Keys <= pool && SuppliedPlacing(w, o, st, pool)
    requires PlaceAll(w, objects, o, st, files).Ok?
    requires forall i :: 0 <= i < |files| && files[i].Ok? ==> Fine(w, o.release.codename, files[i].value.pack, pool)
    ensures SuppliedPlacing(w, o, PlaceAll(w, objects, o, st, files).value, pool)
    decreases |files|
  {
    if files != [] {
      PlaceSupplied(w, objects, o, st, files[0], pool);
      forall i | 0 <= i < |files[1..]|
          && files[1..][i].Ok? ensures Fine(w, o.release.codename, files[1..][i].value.pack, pool) {
        assert files[1..][i] == files[i + 1];
      }
      PlaceAllSupplied(w, objects, o, Place(w, objects, o, st, files[0]).value, files[1..], pool);
    }
  }

  // ---- every file's body is among the calls

  ghost predicate IsPending(loaded: seq<Loaded>, file: Incoming) {
    exists k :: 0 <= k < |loaded| && file in loaded[k].pending
  }

  ghost predicate PendingStays(before: seq<Loaded>, after: seq<Loaded>) {
    forall file :: IsPending(before, file) ==> IsPending(after, file)
  }

  lemma {:induction false} PrefixStays(before: seq<Loaded>, after: seq<Loaded>)
    requires before <= after
    ensures PendingStays(before, after)
  {
    forall file | IsPending(before, file) ensures IsPending(after, file) {
      var k :| 0 <= k < |before| && file in before[k].pending;
      assert after[k] == before[k];
    }
  }

  lemma {:induction false} AppendStays(loaded: seq<Loaded>, i: nat, l: Loaded, file: Incoming)
    requires i < |loaded| && l.pending == loaded[i].pending + [file]
    ensures PendingStays(loaded, loaded[i := l]) && IsPending(loaded[i := l], file)
  {
    assert file in loaded[i := l][i].pending;
    forall f | IsPending(loaded, f) ensures IsPending(loaded[i := l], f) {
      var k :| 0 <= k < |loaded| && f in loaded[k].pending;
      assert f in loaded[i := l][k].pending;
    }
  }

  lemma {:induction false} PlaceStays(w: World, objects: Objects, o: Options, st: Placing, file: Result<Incoming>)
    requires OnePerArchitecture(st.loaded) && Place(w, objects, o, st, file).Ok?
    ensures var next := Place(w, objects, o, st, file).value;
            OnePerArchitecture(next.loaded) && PendingStays(st.loaded, next.loaded)
                && IsPending(next.loaded, file.value)
  {
    var a := TargetOf(file.value.pack, o.architecture).value;
    var loaded := LoadFor(w, objects, o, st.loaded, a).value;
    var i := PositionOf(loaded, a);
    LoadForExtends(w, objects, o, st.loaded, a);
    PrefixStays(st.loaded, loaded);
    AppendStays(loaded, i, Place(w, objects, o, st, file).value.loaded[i], file.value);
  }

  lemma {:induction false} PlaceAllStays(
      w: World, objects: Objects, o: Options, st: Placing, files: seq<Result<Incoming>>)
    requires OnePerArchitecture(st.loaded) && PlaceAll(w, objects, o, st, files).Ok?
    ensures var last := PlaceAll(w, objects, o, st, files).value;
            && PendingStays(st.loaded, last.loaded)
            && forall i :: 0 <= i < |files| ==> files[i].Ok? && IsPending(last.loaded, files[i].value)
    decreases |files|
  {
    if files != [] {
      var next := Place(w, objects, o, st, files[0]).value;
      PlaceStays(w, objects, o, st, files[0]);
      PlaceAllStays(w, objects, o, next, files[1..]);
      forall i | 0 <= i < |files|
        ensures files[i].Ok? && IsPending(PlaceAll(w, objects, o, st, files).value.loaded, files[i].value)
      {
        if i > 0 {
          assert files[i] == files[1..][i - 1];
        }
      }
    }
  }

  lemma {:induction false} BodiesCover(w: World, o: Options, pending: seq<Incoming>, file: Incoming)
    requires !o.skipPackageUpload && BodiesOf(w, o, pending).completes && file in pending
    ensures BodyOp(w, o, file).Ok? && BodyOp(w, o, file).value in BodiesOf(w, o, pending).ops
  {
    if file != pending[0] {
      BodiesCover(w, o, pending[1..], file);
    }
  }

  lemma {:induction false} AllBodiesCover(w: World, o: Options, loaded: seq<Loaded>, k: nat, file: Incoming)
    requires !o.skipPackageUpload && AllBodies(w, o, loaded).completes && k < |loaded| && file in loaded[k].pending
    ensures BodyOp(w, o, file).Ok? && BodyOp(w, o, file).value in AllBodies(w, o, loaded).ops
  {
    if k == 0 {
      BodiesCover(w, o, loaded[0].pending, file);
    } else {
      AllBodiesCover(w, o, loaded[1..], k - 1, file);
    }
  }

  lemma {:induction false} BodiesAreBodies(w: World, o: Options, pending: seq<Incoming>)
    ensures Bodies(BodiesOf(w, o, pending).ops)
  {
    if !o.skipPackageUpload && pending != [] && BodyOp(w, o, pending[0]).Ok? {
      BodiesAreBodies(w, o, pending[1..]);
    }
  }

  lemma {:induction false} AllBodiesAreBodies(w: World, o: Options, loaded: seq<Loaded>)
    ensures Bodies(AllBodies(w, o, loaded).ops)
  {
    if loaded != [] {
      BodiesAreBodies(w, o, loaded[0].pending);
      AllBodiesAreBodies(w, o, loaded[1..]);
    }
  }

  lemma {:induction false} SpreadKeepsPending(
      o: Options, loaded: seq<Loaded>, everywhere: seq<P.Package>, file: Incoming)
    requires SpreadAll(o, loaded, everywhere).Ok? && IsPending(loaded, file)
    ensures IsPending(SpreadAll(o, loaded, everywhere).value, file)
  {
    var k :| 0 <= k < |loaded| && file in loaded[k].pending;
    SpreadAllAt(o, loaded, everywhere, k);
    assert file in SpreadAll(o, loaded, everywhere).value[k].pending;
  }

  /** Every file of a successful placement is pending in some manifest. */
  lemma {:induction false} FileIsPending(
      w: World, objects: Objects, o: Options, files: seq<Result<Incoming>>, i: nat)
    requires Manifests(w, objects, o, files).Ok? && i < |files|
    ensures files[i].Ok? && IsPending(Manifests(w, objects, o, files).value, files[i].value)
  {
    var st, architectures := Placed(w, objects, o, files), Retrieved(w, objects, o.release).architectures;
    LoadAllExtends(w, objects, o, [], architectures);
    PlaceAllStays(w, objects, o, Placing(LoadAll(w, objects, o, [], architectures).value, []), files);
    SpreadKeepsPending(o, st.loaded, st.everywhere, files[i].value);
  }

  /** The body of every file of a successful placement is stored by some call. */
  lemma {:induction false} FileBodiesCalled(w: World, objects: Objects, o: Options, files: seq<Result<Incoming>>)
    requires !o.skipPackageUpload && Manifests(w, objects, o, files).Ok?
    requires AllBodies(w, o, Manifests(w, objects, o, files).value).completes
    ensures FileKeys(w, o, files) <= BodyKeys(AllBodies(w, o, Manifests(w, objects, o, files).value).ops)
  {
    var manifests := Manifests(w, objects, o, files).value;
    forall key | key in FileKeys(w, o, files) ensures key in BodyKeys(AllBodies(w, o, manifests).ops) {
      var i :| 0 <= i < |files| && files[i].Ok? && w.pathOf(files[i].value.pack, o.release.codename).Ok?
               && key == Pool(w.pathOf(files[i].value.pack, o.release.codename).value);
      FileIsPending(w, objects, o, files, i);
      var k :| 0 <= k < |manifests| && files[i].value in manifests[k].pending;
      AllBodiesCover(w, o, manifests, k, files[i].value);
    }
  }

  lemma {:induction false} SuitesSupplied(w: World, o: Options, byHash: bool, loaded: seq<Loaded>, pool: set<Key>)
    requires forall k :: 0 <= k < |loaded| ==> SuppliedPackages(w, o.release.codename, loaded[k].packages, pool)
    ensures Supplied(w, o.release.codename, SuitesOf(o, byHash, loaded), pool)
  {
    if loaded != [] {
      forall k | 0 <= k < |loaded[1..]| ensures SuppliedPackages(w, o.release.codename, loaded[1..][k].packages, pool) {
        assert loaded[1..][k] == loaded[k + 1];
      }
      SuitesSupplied(w, o, byHash, loaded[1..], pool);
      SuppliedCons(w, o.release.codename, Suite(o.component, loaded[0].architecture, byHash, loaded[0].packages),
        SuitesOf(o, byHash, loaded[1..]), pool);
    }
  }

  lemma {:induction false} SpreadSupplied(w: World, o: Options, st: Placing, pool: set<Key>)
    requires SuppliedPlacing(w, o, st, pool) && SpreadAll(o, st.loaded, st.everywhere).Ok?
    ensures var spread := SpreadAll(o, st.loaded, st.everywhere).value;
            forall k :: 0 <= k < |spread| ==> SuppliedPackages(w, o.release.codename, spread[k].packages, pool)
  {
    var spread := SpreadAll(o, st.loaded, st.everywhere).value;
    SpreadSameLength(o, st.loaded, st.everywhere);
    forall k | 0 <= k < |spread| ensures SuppliedPackages(w, o.release.codename, spread[k].packages, pool) {
      SpreadAllAt(o, st.loaded, st.everywhere, k);
      if st.loaded[k].architecture != ALL {
        AddedAllSupplied(w, o.release.codename, st.loaded[k].packages, st.everywhere, o.preserveVersions,
            o.failIfExists, pool);
      }
    }
  }

  /** An upload that stores its bodies publishes manifests that name stored or uploaded bodies only. */
  lemma {:induction false} UploadAdmissible(
      w: World, objects: Objects, o: Options, files: seq<Result<Incoming>>, signing: Signing, date: string)
    requires Lawful(w) && Integrity(w, objects) && GoodFiles(w, o, files) && !o.skipPackageUpload
    requires Manifests(w, objects, o, files).Ok? && AllBodies(w, o, Manifests(w, objects, o, files).value).completes
    ensures var manifests := Manifests(w, objects, o, files).value;
            Admissible(w, objects, Publish(o.release, AllBodies(w, o, manifests).ops,
              SuitesOf(o, Retrieved(w, objects, o.release).byHash, manifests), signing, date))
  {
    var manifests := Manifests(w, objects, o, files).value;
    var bodies, architectures := AllBodies(w, o, manifests).ops, Retrieved(w, objects, o.release).architectures;
    var pool := objects.Keys + BodyKeys(bodies);
    var start := Placing(LoadAll(w, objects, o, [], architectures).value, []);
    AllBodiesAreBodies(w, o, manifests);
    FileBodiesCalled(w, objects, o, files);
    forall i | 0 <= i < |files| && files[i].Ok? ensures Fine(w, o.release.codename, files[i].value.pack, pool) {
      assert w.good(files[i].value.pack, o.release.codename);
      assert Pool(w.pathOf(files[i].value.pack, o.release.codename).value) in FileKeys(w, o, files);
    }
    LoadAllSupplied(w, objects, o, Placing([], []), architectures, pool);
    PlaceAllSupplied(w, objects, o, start, files, pool);
    SpreadSupplied(w, o, Placed(w, objects, o, files), pool);
    SuitesSupplied(w, o, Retrieved(w, objects, o.release).byHash, manifests, pool);
  }
}
