/** Copying, deleting and verifying: which manifests these commands publish, and that each is a run whose manifests
    name stored bodies only. */
module Commands {
  import opened Text
  import opened Lists
  import P = Package
  import E = Edits
  import S = Storage
  import opened Keys
  import opened Calls
  import opened Worlds = World
  import opened Publication
  import opened History

  const NO_PACKAGES_FOUND := "no packages found in repository"
  const NO_PACKAGES_DELETED := "no packages were deleted"

  /** `RetrieveManifest`: a missing index is an empty one. */
  function RetrievedPackages(
      w: World, objects: Objects, codename: string, component: string, a: string): Result<seq<P.Package>> {
    var key := Index(codename, component, a, false);
    if key in objects then w.parsePackages(objects[key]) else Ok([])
  }

  /** `Add` for each package in turn, up to the first refusal. */
  function AddedAll(
      packages: seq<P.Package>, packs: seq<P.Package>, preserveVersions: bool, codename: string,
      failIfExists: bool): Result<seq<P.Package>>
    decreases |packs|
  {
    if packs == [] then Ok(packages)
    else
      var failure := E.AddFailure(packages, packs[0], codename, failIfExists);
      if failure.Some? then Err(failure.value)
      else AddedAll(E.Added(packages, packs[0], preserveVersions), packs[1..], preserveVersions, codename, failIfExists)
  }

  // ---- copy

  datatype CopyOptions = CopyOptions(
    sourceCodename: string, sourceComponent: string, release: ReleaseOptions, component: string, architecture: string,
    name: string, versions: Option<seq<string>>, preserveVersions: bool, failIfExists: bool)

  function Wanted(name: string, versions: Option<seq<string>>): P.Package -> bool {
    (pack: P.Package) => pack.name == name && (versions.Some? ==> pack.FullVersion() in versions.value)
  }

  /** The manifest `Copy` publishes. */
  function CopySuites(w: World, objects: Objects, o: CopyOptions): Result<seq<Suite>> {
    var source := RetrievedPackages(w, objects, o.sourceCodename, o.sourceComponent, o.architecture);
    var destination := RetrievedPackages(w, objects, o.release.codename, o.component, o.architecture);
    if source.Err? then Err(source.reason)
    else if destination.Err? then Err(destination.reason)
    else
      var selected := Filter(source.value, Wanted(o.name, o.versions));
      if selected == [] then Err(NO_PACKAGES_FOUND)
      else
        var added := AddedAll(destination.value, selected, o.preserveVersions, o.release.codename, o.failIfExists);
        if added.Err? then Err(added.reason)
        else Ok([Suite(o.component, o.architecture, Retrieved(w, objects, o.release).byHash, added.value)])
  }

  // ---- delete

  datatype DeleteOptions = DeleteOptions(
    release: ReleaseOptions, component: string, architecture: string, name: string, versions: Option<seq<string>>)

  /** The manifests a deletion changes, by architecture. */
  function DeleteFrom(
      w: World, objects: Objects, o: DeleteOptions, byHash: bool, architectures: seq<string>): Result<seq<Suite>> {
    if architectures == [] then Ok([])
    else
      var packages := RetrievedPackages(w, objects, o.release.codename, o.component, architectures[0]);
      var rest := DeleteFrom(w, objects, o, byHash, architectures[1..]);
      if packages.Err? then Err(packages.reason)
      else if rest.Err? then rest
      else
        var doomed := E.Doomed(o.name, o.versions);
        if Filter(packages.value, doomed) == [] then rest
        else Ok([Suite(o.component, architectures[0], byHash, Filter(packages.value, Not(doomed)))] + rest.value)
  }

  function DeleteSuites(w: World, objects: Objects, o: DeleteOptions): Result<seq<Suite>> {
    var r := Retrieved(w, objects, o.release);
    var suites :=
        DeleteFrom(w, objects, o, r.byHash, if o.architecture == "all" then r.architectures else [o.architecture]);
    if suites.Ok? && suites.value == [] then Err(NO_PACKAGES_DELETED) else suites
  }

  // ---- verify

  /** What a verification is asked, and the prefix of the store it works on. */
  datatype VerifyOptions = VerifyOptions(release: ReleaseOptions, component: string, fix: bool, prefix: S.Prefix)

  /** Manifests to republish, and what was counted. */
  datatype Report = Report(changed: seq<Suite>, checked: nat, missing: nat, repaired: nat)

  function Plus(a: Report, b: Report): Report {
    Report(a.changed + b.changed, a.checked + b.checked, a.missing + b.missing, a.repaired + b.repaired)
  }

  /** The logical key of what `Head` looks for: the path joined to the prefix, if that is accepted and below it. */
  function Looked(prefix: S.Prefix, path: Result<string>): Result<Option<string>> {
    if path.Err? then Err(path.reason)
    else
      var physical := S.JoinKey(prefix, path.value);
      if physical.Err? then Err(physical.reason) else Ok(S.LogicalKey(prefix, physical.value))
  }

  predicate Present(objects: Objects, target: Option<string>) {
    target.Some? && Found(objects, target.value)
  }

  /** The packages of a manifest whose body is stored, or the first whose path is unknown or refused. */
  function Surviving(
      w: World, objects: Objects, prefix: S.Prefix, codename: string, packages: seq<P.Package>): Result<seq<P.Package>>
  {
    if packages == [] then Ok([])
    else
      var target := Looked(prefix, w.pathOf(packages[0], codename));
      var rest := Surviving(w, objects, prefix, codename, packages[1..]);
      if target.Err? then Err(target.reason)
      else if rest.Err? then rest
      else if Present(objects, target.value) then Ok([packages[0]] + rest.value)
      else rest
  }

  function Missed(packages: seq<P.Package>, present: seq<P.Package>): nat {
    if |present| <= |packages| then |packages| - |present| else 0
  }

  /** The check of one architecture. */
  function VerifyHere(w: World, objects: Objects, o: VerifyOptions, byHash: bool, a: string): Result<Report> {
    var packages := RetrievedPackages(w, objects, o.release.codename, o.component, a);
    if packages.Err? then Err(packages.reason)
    else
      var present := Surviving(w, objects, o.prefix, o.release.codename, packages.value);
      if present.Err? then Err(present.reason)
      else
        var missing := Missed(packages.value, present.value);
        if o.fix && missing > 0 then
          Ok(Report([Suite(o.component, a, byHash, present.value)], |packages.value|, missing, missing))
        else Ok(Report([], |packages.value|, missing, 0))
  }

  function VerifyFrom(
      w: World, objects: Objects, o: VerifyOptions, byHash: bool, architectures: seq<string>): Result<Report> {
    if architectures == [] then Ok(Report([], 0, 0, 0))
    else
      var first := VerifyHere(w, objects, o, byHash, architectures[0]);
      if first.Err? then first
      else
        var rest := VerifyFrom(w, objects, o, byHash, architectures[1..]);
        if rest.Err? then rest else Ok(Plus(first.value, rest.value))
  }

  function VerifyPlan(w: World, objects: Objects, o: VerifyOptions): Result<Report> {
    var r := Retrieved(w, objects, o.release);
    VerifyFrom(w, objects, o, r.byHash, r.architectures)
  }

  // ---- every command is an admissible run

  lemma {:induction false} StoredSupplied(
      w: World, objects: Objects, codename: string, component: string, a: string, d: string)
    requires Integrity(w, objects) && RetrievedPackages(w, objects, codename, component, a).Ok?
    ensures SuppliedPackages(w, d, RetrievedPackages(w, objects, codename, component, a).value, objects.Keys)
  {
    var key := Index(codename, component, a, false);
    if key in objects {
      var packages := w.parsePackages(objects[key]).value;
      assert BackedText(w, objects[key], objects.Keys);
      forall k | 0 <= k < |packages|
        ensures w.good(packages[k], d) && w.pathOf(packages[k], d).Ok?
        ensures Pool(w.pathOf(packages[k], d).value) in objects.Keys
      {
        assert BackedPackage(w, packages[k], objects.Keys);
      }
    }
  }

  ghost predicate Fine(w: World, codename: string, p: P.Package, pool: set<Key>) {
    w.good(p, codename) && w.pathOf(p, codename).Ok? && Pool(w.pathOf(p, codename).value) in pool
  }

  lemma {:induction false} FilterSupplied(
      w: World, codename: string, packages: seq<P.Package>, f: P.Package -> bool, pool: set<Key>)
    requires SuppliedPackages(w, codename, packages, pool)
    ensures SuppliedPackages(w, codename, Filter(packages, f), pool)
  {
    var r := Filter(packages, f);
    forall k | 0 <= k < |r| ensures Fine(w, codename, r[k], pool) {
      FilterAt(packages, f, k);
      var i :| 0 <= i < |packages| && packages[i] == r[k];
    }
  }

  lemma {:induction false} AddedSupplied(
      w: World, codename: string, packages: seq<P.Package>, pack: P.Package, preserveVersions: bool, pool: set<Key>)
    requires SuppliedPackages(w, codename, packages, pool) && Fine(w, codename, pack, pool)
    ensures SuppliedPackages(w, codename, E.Added(packages, pack, preserveVersions), pool)
  {
    FilterSupplied(w, codename, packages, E.Kept(pack, preserveVersions), pool);
  }

  lemma {:induction false} AddedAllSupplied(
      w: World, codename: string, packages: seq<P.Package>, packs: seq<P.Package>, preserveVersions: bool,
      failIfExists: bool, pool: set<Key>)
    requires SuppliedPackages(w, codename, packages, pool) && SuppliedPackages(w, codename, packs, pool)
    requires AddedAll(packages, packs, preserveVersions, codename, failIfExists).Ok?
    ensures SuppliedPackages(w, codename, AddedAll(packages, packs, preserveVersions, codename, failIfExists).value,
            pool)
    decreases |packs|
  {
    if packs != [] {
      assert Fine(w, codename, packs[0], pool);
      AddedSupplied(w, codename, packages, packs[0], preserveVersions, pool);
      forall k | 0 <= k < |packs[1..]| ensures Fine(w, codename, packs[1..][k], pool) {
        assert packs[1..][k] == packs[k + 1];
      }
      AddedAllSupplied(w, codename, E.Added(packages, packs[0], preserveVersions), packs[1..], preserveVersions,
          failIfExists, pool);
    }
  }

  /** A copy publishes only what is in the pool. */
  lemma {:induction false} CopyAdmissible(w: World, objects: Objects, o: CopyOptions, signing: Signing, date: string)
    requires Integrity(w, objects) && CopySuites(w, objects, o).Ok?
    ensures Admissible(w, objects, Publish(o.release, [], CopySuites(w, objects, o).value, signing, date))
  {
    var source := RetrievedPackages(w, objects, o.sourceCodename, o.sourceComponent, o.architecture).value;
    var destination := RetrievedPackages(w, objects, o.release.codename, o.component, o.architecture).value;
    StoredSupplied(w, objects, o.sourceCodename, o.sourceComponent, o.architecture, o.release.codename);
    StoredSupplied(w, objects, o.release.codename, o.component, o.architecture, o.release.codename);
    FilterSupplied(w, o.release.codename, source, Wanted(o.name, o.versions), objects.Keys);
    AddedAllSupplied(w, o.release.codename, destination, Filter(source, Wanted(o.name, o.versions)), o.preserveVersions,
        o.failIfExists, objects.Keys);
    assert objects.Keys + BodyKeys([]) == objects.Keys;
  }

  lemma {:induction false} SuppliedCons(w: World, codename: string, first: Suite, rest: seq<Suite>, pool: set<Key>)
    requires SuppliedPackages(w, codename, first.packages, pool) && Supplied(w, codename, rest, pool)
    ensures Supplied(w, codename, [first] + rest, pool)
  {}

  lemma {:induction false} DeleteSupplied(
      w: World, objects: Objects, o: DeleteOptions, byHash: bool, architectures: seq<string>)
    requires Integrity(w, objects) && DeleteFrom(w, objects, o, byHash, architectures).Ok?
    ensures Supplied(w, o.release.codename, DeleteFrom(w, objects, o, byHash, architectures).value, objects.Keys)
  {
    if architectures != [] {
      var packages := RetrievedPackages(w, objects, o.release.codename, o.component, architectures[0]).value;
      var retained := Filter(packages, Not(E.Doomed(o.name, o.versions)));
      DeleteSupplied(w, objects, o, byHash, architectures[1..]);
      StoredSupplied(w, objects, o.release.codename, o.component, architectures[0], o.release.codename);
      FilterSupplied(w, o.release.codename, packages, Not(E.Doomed(o.name, o.versions)), objects.Keys);
      SuppliedCons(w, o.release.codename, Suite(o.component, architectures[0], byHash, retained),
        DeleteFrom(w, objects, o, byHash, architectures[1..]).value, objects.Keys);
    }
  }

  /** A deletion publishes only what is in the pool. */
  lemma {:induction false} DeleteAdmissible(
      w: World, objects: Objects, o: DeleteOptions, signing: Signing, date: string)
    requires Integrity(w, objects) && DeleteSuites(w, objects, o).Ok?
    ensures Admissible(w, objects, Publish(o.release, [], DeleteSuites(w, objects, o).value, signing, date))
  {
    var r := Retrieved(w, objects, o.release);
    DeleteSupplied(w, objects, o, r.byHash, if o.architecture == "all" then r.architectures else [o.architecture]);
    assert objects.Keys + BodyKeys([]) == objects.Keys;
  }

  /** The package's body is stored. */
  function BodyFound(w: World, objects: Objects, prefix: S.Prefix, codename: string): P.Package -> bool {
    (p: P.Package) =>
      var target := Looked(prefix, w.pathOf(p, codename));
      target.Ok? && Present(objects, target.value)
  }

  /** A pool path is looked up as it stands. */
  lemma {:induction false} PoolPathLooked(objects: Objects, prefix: S.Prefix, path: string)
    requires PoolPath(path)
    ensures Looked(prefix, Ok(path)) == Ok(Some(path)) && (Found(objects, path) <==> Pool(path) in objects)
  {
    S.LogicalUndoesJoin(prefix, path);
    FoundBody(objects, path);
  }

  /** A check keeps exactly the packages whose body is stored, in order. */
  lemma {:induction false} SurvivingIsFilter(
      w: World, objects: Objects, prefix: S.Prefix, codename: string, packages: seq<P.Package>)
    requires Surviving(w, objects, prefix, codename, packages).Ok?
    ensures Surviving(w, objects, prefix, codename, packages).value
            == Filter(packages, BodyFound(w, objects, prefix, codename))
  {
    if packages != [] {
      SurvivingIsFilter(w, objects, prefix, codename, packages[1..]);
    }
  }

  ghost predicate GoodPackages(w: World, codename: string, packages: seq<P.Package>) {
    forall k :: 0 <= k < |packages| ==> w.good(packages[k], codename)
  }

  /** Whatever the state of the pool, a repaired manifest names stored bodies only. */
  lemma {:induction false} RepairSupplied(
      w: World, objects: Objects, prefix: S.Prefix, codename: string, packages: seq<P.Package>)
    requires PathLaw(w) && GoodPackages(w, codename, packages) && Surviving(w, objects, prefix, codename, packages).Ok?
    ensures SuppliedPackages(w, codename, Surviving(w, objects, prefix, codename, packages).value, objects.Keys)
  {
    var f := BodyFound(w, objects, prefix, codename);
    SurvivingIsFilter(w, objects, prefix, codename, packages);
    forall k | 0 <= k < |Filter(packages, f)| ensures Fine(w, codename, Filter(packages, f)[k], objects.Keys) {
      FilterAt(packages, f, k);
      var i :| 0 <= i < |packages| && packages[i] == Filter(packages, f)[k];
      assert w.good(packages[i], codename);
      PoolPathLooked(objects, prefix, w.pathOf(packages[i], codename).value);
    }
  }

  lemma {:induction false} VerifySupplied(
      w: World, objects: Objects, o: VerifyOptions, byHash: bool, architectures: seq<string>)
    requires PathLaw(w) && VerifyFrom(w, objects, o, byHash, architectures).Ok?
    requires forall a :: RetrievedPackages(w, objects, o.release.codename, o.component, a).Ok? ==>
               GoodPackages(w, o.release.codename,
                   RetrievedPackages(w, objects, o.release.codename, o.component, a).value)
    ensures Supplied(w, o.release.codename, VerifyFrom(w, objects, o, byHash, architectures).value.changed,
            objects.Keys)
  {
    if architectures != [] {
      var packages := RetrievedPackages(w, objects, o.release.codename, o.component, architectures[0]).value;
      var present := Surviving(w, objects, o.prefix, o.release.codename, packages).value;
      var rest := VerifyFrom(w, objects, o, byHash, architectures[1..]).value;
      VerifySupplied(w, objects, o, byHash, architectures[1..]);
      RepairSupplied(w, objects, o.prefix, o.release.codename, packages);
      SuppliedCons(w, o.release.codename, Suite(o.component, architectures[0], byHash, present), rest.changed,
          objects.Keys);
      AppendEmpty(rest.changed);
    }
  }

  /** A repair publishes only what is in the pool, even when bodies have been lost. */
  lemma {:induction false} RepairAdmissible(
      w: World, objects: Objects, o: VerifyOptions, signing: Signing, date: string)
    requires PathLaw(w) && VerifyPlan(w, objects, o).Ok?
    requires forall a :: RetrievedPackages(w, objects, o.release.codename, o.component, a).Ok? ==>
               GoodPackages(w, o.release.codename,
                   RetrievedPackages(w, objects, o.release.codename, o.component, a).value)
    ensures Admissible(w, objects, Publish(o.release, [], VerifyPlan(w, objects, o).value.changed, signing, date))
  {
    var r := Retrieved(w, objects, o.release);
    VerifySupplied(w, objects, o, r.byHash, r.architectures);
    assert objects.Keys + BodyKeys([]) == objects.Keys;
  }

  lemma {:induction false} SurvivingSupplied(
      w: World, objects: Objects, prefix: S.Prefix, codename: string, packages: seq<P.Package>)
    requires PathLaw(w) && SuppliedPackages(w, codename, packages, objects.Keys)
    ensures Surviving(w, objects, prefix, codename, packages) == Ok(packages)
  {
    if packages != [] {
      forall k | 0 <= k < |packages[1..]| ensures Fine(w, codename, packages[1..][k], objects.Keys) {
        assert packages[1..][k] == packages[k + 1];
      }
      assert Fine(w, codename, packages[0], objects.Keys);
      PoolPathLooked(objects, prefix, w.pathOf(packages[0], codename).value);
      SurvivingSupplied(w, objects, prefix, codename, packages[1..]);
      assert [packages[0]] + packages[1..] == packages;
    }
  }

  /** On a store with integrity every package a verification looks at is good, so its repair is admissible. */
  lemma {:induction false} RepairIsAdmissible(
      w: World, objects: Objects, o: VerifyOptions, signing: Signing, date: string)
    requires PathLaw(w) && Integrity(w, objects) && VerifyPlan(w, objects, o).Ok?
    ensures Admissible(w, objects, Publish(o.release, [], VerifyPlan(w, objects, o).value.changed, signing, date))
  {
    forall a | RetrievedPackages(w, objects, o.release.codename, o.component, a).Ok?
      ensures GoodPackages(w, o.release.codename,
              RetrievedPackages(w, objects, o.release.codename, o.component, a).value)
    {
      StoredSupplied(w, objects, o.release.codename, o.component, a, o.release.codename);
    }
    RepairAdmissible(w, objects, o, signing, date);
  }

  /** On a store with referential integrity a check finds nothing missing and repairs nothing. */
  lemma {:induction false} NothingMissing(
      w: World, objects: Objects, o: VerifyOptions, byHash: bool, architectures: seq<string>)
    requires PathLaw(w) && Integrity(w, objects)
    requires forall i :: 0 <= i < |architectures| ==>
            RetrievedPackages(w, objects, o.release.codename, o.component, architectures[i]).Ok?
    ensures var r := VerifyFrom(w, objects, o, byHash, architectures);
            r.Ok? && r.value.changed == [] && r.value.missing == 0 && r.value.repaired == 0
  {
    if architectures != [] {
      var a := architectures[0];
      StoredSupplied(w, objects, o.release.codename, o.component, a, o.release.codename);
      SurvivingSupplied(w, objects, o.prefix, o.release.codename,
          RetrievedPackages(w, objects, o.release.codename, o.component, a).value);
      forall i | 0 <= i < |architectures[1..]|
        ensures RetrievedPackages(w, objects, o.release.codename, o.component, architectures[1..][i]).Ok?
      {
        assert architectures[1..][i] == architectures[i + 1];
      }
      NothingMissing(w, objects, o, byHash, architectures[1..]);
    }
  }
}
