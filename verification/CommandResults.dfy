/** What copying, deleting and verifying leave in the store, and when they fail without touching it, said of the
    packages in the stored indexes and of their own names, versions and bodies. */
module CommandResults {
  import opened Text
  import opened Lists
  import P = Package
  import E = Edits
  import opened Keys
  import opened Calls
  import opened Worlds = World
  import opened Publication
  import opened History
  import opened Signatures
  import opened Commands
  import opened Commander
  import opened Adding
  import opened Republished

  // ---- what a stored index holds

  /** The index of a suite, which may be missing, holds these packages. */
  predicate HoldsIndex(
      w: World, objects: Objects, c: string, component: string, a: string, packages: seq<P.Package>) {
    var key := Index(c, component, a, false);
    if key in objects then w.parsePackages(objects[key]) == Ok(packages) else packages == []
  }

  predicate Unreadable(w: World, objects: Objects, c: string, component: string, a: string) {
    var key := Index(c, component, a, false);
    key in objects && w.parsePackages(objects[key]).Err?
  }

  /** The index of a suite is stored with these packages printed, its compressed form beside it, and both once more
      under their digests if by-hash is on. */
  ghost predicate Shows(
      w: World, objects: Objects, c: string, component: string, a: string, packages: seq<P.Package>, byHash: bool) {
    && w.printPackages(packages, c).Ok?
    && var text := w.printPackages(packages, c).value;
    && HasIndexes(w, objects, c, component, a, text)
    && (byHash ==>
          && ByHash(c, component, a, w.hasher.sha256(text)) in objects
          && ByHash(c, component, a, w.hasher.sha256(w.hasher.gzip(text))) in objects)
  }

  /** Good packages that are shown read back in order, each under its path, and good again. */
  lemma {:induction false} ShownReadsBack(
      w: World, objects: Objects, c: string, component: string, a: string, packages: seq<P.Package>, byHash: bool)
    requires PackagesLaw(w) && AllGood(w, packages, c) && Shows(w, objects, c, component, a, packages, byHash)
    ensures var key := Index(c, component, a, false);
            && key in objects && w.parsePackages(objects[key]).Ok?
            && ReadsBackAs(w, packages, c, w.parsePackages(objects[key]).value)
  {
    assert Printed(w, packages, c, w.printPackages(packages, c));
  }

  lemma {:induction false} ReadableHolds(w: World, objects: Objects, c: string, component: string, a: string)
    ensures Unreadable(w, objects, c, component, a) <==> RetrievedPackages(w, objects, c, component, a).Err?
    ensures RetrievedPackages(w, objects, c, component, a).Ok? ==>
              HoldsIndex(w, objects, c, component, a, RetrievedPackages(w, objects, c, component, a).value)
  {}

  // ---- one publish

  lemma {:induction false} PublishedShows(
      w: World, before: Store, after: Store, options: ReleaseOptions, suites: seq<Suite>, signing: Signing,
      date: string, component: string, a: string, packages: seq<P.Package>, byHash: bool)
    requires Published(w, before, after, true, options, suites, signing, date)
    requires NoneMistaken(w.hasher.md5, before.objects) && PublishesSuite(suites, component, a)
    requires forall i :: 0 <= i < |suites| && suites[i].component == component && suites[i].architecture == a ==>
               suites[i].packages == packages && suites[i].byHash == byHash
    ensures Shows(w, after.objects, options.codename, component, a, packages, byHash)
  {
    UploadOfNothing(w, options.codename, Retrieved(w, before.objects, options), suites, signing, date);
    RunLeaves(w, before, after, options, [], suites, signing, date, component, a, packages, byHash);
  }

  /** A run to its end shows the packages of a suite it was given. */
  lemma {:induction false} RunLeaves(
      w: World, before: Store, after: Store, options: ReleaseOptions, bodies: seq<Op>, suites: seq<Suite>,
      signing: Signing, date: string, component: string, a: string, packages: seq<P.Package>, byHash: bool)
    requires var plan := UploadPlan(w, options.codename, Retrieved(w, before.objects, options), bodies, suites, signing,
             date); plan.completes && Exec(w.hasher.md5, before, plan.ops) == Attempt(after, true)
    requires Bodies(bodies) && NoneMistaken(w.hasher.md5, before.objects) && PublishesSuite(suites, component, a)
    requires forall i :: 0 <= i < |suites| && suites[i].component == component && suites[i].architecture == a ==>
               suites[i].packages == packages && suites[i].byHash == byHash
    ensures Shows(w, after.objects, options.codename, component, a, packages, byHash)
  {
    var c, r := options.codename, Retrieved(w, before.objects, options);
    assert PreparedFor(w, c, r, suites).Ok?;
    var i :| 0 <= i < |suites| && suites[i].component == component && suites[i].architecture == a;
    BuildAllAt(w, c, suites, i);
    var text := w.printPackages(packages, c).value;
    IndexesLeft(w, before, options, bodies, suites, signing, date, component, a, text);
    if byHash {
      assert GivenByHash(w, c, suites, component, a, text);
      HashesLeft(w, before, options, bodies, suites, signing, date, component, a, text, false);
      HashesLeft(w, before, options, bodies, suites, signing, date, component, a, text, true);
    }
  }

  lemma {:induction false} PublishedKeeps(
      w: World, before: Store, after: Store, ok: bool, options: ReleaseOptions, suites: seq<Suite>, signing: Signing,
      date: string, c: string, component: string, a: string)
    requires Published(w, before, after, ok, options, suites, signing, date)
    requires c != options.codename
            || (ListsIndex(w, before.objects, c, component, a) && !PublishesSuite(suites, component, a))
    ensures SameIndexes(before.objects, after.objects, c, component, a)
  {
    UploadOfNothing(w, options.codename, Retrieved(w, before.objects, options), suites, signing, date);
    IndexesKept(w, before, options, [], suites, signing, date, c, component, a);
  }

  /** Of the indexes of other codenames, and of those that the Release lists, only the ones of these architectures of
      the component may have changed. */
  ghost predicate ChangesOnly(
      w: World, o: Objects, o': Objects, codename: string, component: string, changed: iset<string>) {
    forall c, part, a ::
      c != codename || (ListsIndex(w, o, c, part, a) && !(part == component && a in changed)) ==>
        SameIndexes(o, o', c, part, a)
  }

  lemma {:induction false} PublishedChangesOnly(
      w: World, before: Store, after: Store, ok: bool, options: ReleaseOptions, suites: seq<Suite>, signing: Signing,
      date: string, component: string, changed: iset<string>)
    requires Published(w, before, after, ok, options, suites, signing, date)
    requires forall i :: 0 <= i < |suites| ==> suites[i].component == component && suites[i].architecture in changed
    ensures ChangesOnly(w, before.objects, after.objects, options.codename, component, changed)
  {
    forall c, part, a |
      c != options.codename || (ListsIndex(w, before.objects, c, part, a) && !(part == component && a in changed))
      ensures SameIndexes(before.objects, after.objects, c, part, a)
    {
      PublishedKeeps(w, before, after, ok, options, suites, signing, date, c, part, a);
    }
  }

  ghost predicate SameBodies(o: Objects, o': Objects) {
    forall path :: SameAt(o, o', Pool(path))
  }

  lemma {:induction false} PublishedKeepsBodies(
      w: World, before: Store, after: Store, ok: bool, options: ReleaseOptions, suites: seq<Suite>, signing: Signing,
      date: string)
    requires Published(w, before, after, ok, options, suites, signing, date)
    ensures SameBodies(before.objects, after.objects)
  {
    UploadOfNothing(w, options.codename, Retrieved(w, before.objects, options), suites, signing, date);
    forall path ensures SameAt(before.objects, after.objects, Pool(path)) {
      BodiesKept(w, before, options, suites, signing, date, path);
    }
  }

  lemma {:induction false} PublishedNothing(
      w: World, before: Store, after: Store, ok: bool, options: ReleaseOptions, suites: seq<Suite>, signing: Signing,
      date: string)
    requires PackagesLaw(w) && suites != [] && Published(w, before, after, ok, options, suites, signing, date)
    ensures !ok && after == before <==> before.budget == 0 || Unprintable(w, options.codename, suites)
  {
    UploadOfNothing(w, options.codename, Retrieved(w, before.objects, options), suites, signing, date);
    NoCallsExactly(w, before, options, [], suites, signing, date);
  }

  /** A publish of one manifest to its end. */
  lemma {:induction false} OnePublished(
      w: World, before: Store, after: Store, options: ReleaseOptions, suite: Suite, signing: Signing, date: string)
    requires Published(w, before, after, true, options, [suite], signing, date)
    requires NoneMistaken(w.hasher.md5, before.objects)
    ensures Shows(w, after.objects, options.codename, suite.component, suite.architecture, suite.packages, suite.byHash)
  {
    assert [suite][0] == suite;
    PublishedShows(w, before, after, options, [suite], signing, date, suite.component, suite.architecture,
        suite.packages, suite.byHash);
  }

  lemma {:induction false} OneChanges(
      w: World, before: Store, after: Store, options: ReleaseOptions, suite: Suite, signing: Signing, date: string)
    requires Published(w, before, after, true, options, [suite], signing, date)
    ensures ChangesOnly(w, before.objects, after.objects, options.codename, suite.component, iset{suite.architecture})
    ensures SameBodies(before.objects, after.objects)
  {
    PublishedKeepsBodies(w, before, after, true, options, [suite], signing, date);
    PublishedChangesOnly(w, before, after, true, options, [suite], signing, date, suite.component,
        iset{suite.architecture});
  }

  // ---- copy

  /** The packages of the name, and of the versions if there is a list of them, in order. */
  function Asked(packages: seq<P.Package>, name: string, versions: Option<seq<string>>): seq<P.Package> {
    Filter(packages, (p: P.Package) => p.name == name && (versions.Some? ==> p.FullVersion() in versions.value))
  }

  lemma {:induction false} WantedIsAsked(packages: seq<P.Package>, name: string, versions: Option<seq<string>>)
    ensures Filter(packages, Wanted(name, versions)) == Asked(packages, name, versions)
  {
    FilterShrinks(packages, Wanted(name, versions),
        (p: P.Package) => p.name == name && (versions.Some? ==> p.FullVersion() in versions.value));
  }

  /** The destination with the packages asked for. */
  function CopiedInto(o: CopyOptions, source: seq<P.Package>, destination: seq<P.Package>): seq<P.Package> {
    WithAdded(destination, Asked(source, o.name, o.versions), o.preserveVersions)
  }

  /** The manifest is refused: a package asked for clashes with one of its name and version. */
  ghost predicate CopyRefused(o: CopyOptions, source: seq<P.Package>, destination: seq<P.Package>) {
    && o.failIfExists
    && SomeRefused(destination, Asked(source, o.name, o.versions), o.preserveVersions, o.release.codename)
  }

  /** The one manifest a copy publishes, and when there is one. */
  lemma {:induction false} CopyIs(
      w: World, objects: Objects, o: CopyOptions, source: seq<P.Package>, destination: seq<P.Package>)
    requires HoldsIndex(w, objects, o.sourceCodename, o.sourceComponent, o.architecture, source)
    requires HoldsIndex(w, objects, o.release.codename, o.component, o.architecture, destination)
    ensures CopySuites(w, objects, o).Err?
            <==> Asked(source, o.name, o.versions) == [] || CopyRefused(o, source, destination)
    ensures CopySuites(w, objects, o).Ok? ==>
              var suites := CopySuites(w, objects, o).value;
              && |suites| == 1 && suites[0].component == o.component && suites[0].architecture == o.architecture
              && suites[0].packages == CopiedInto(o, source, destination)
              && suites[0].byHash == HashedBy(w, objects, o.release)
  {
    var asked := Asked(source, o.name, o.versions);
    WantedIsAsked(source, o.name, o.versions);
    RefusedExactly(destination, asked, o.preserveVersions, o.release.codename, o.failIfExists);
    if AddedAll(destination, asked, o.preserveVersions, o.release.codename, o.failIfExists).Ok? {
      AddedExactly(destination, asked, o.preserveVersions, o.release.codename, o.failIfExists);
    }
  }

  lemma {:induction false} CopyPublishes(
      w: World, before: Store, after: Store, o: CopyOptions, signing: Signing, date: string, source: seq<P.Package>,
      destination: seq<P.Package>) returns (suite: Suite)
    requires Copied(w, before, after, true, o, signing, date)
    requires HoldsIndex(w, before.objects, o.sourceCodename, o.sourceComponent, o.architecture, source)
    requires HoldsIndex(w, before.objects, o.release.codename, o.component, o.architecture, destination)
    ensures Asked(source, o.name, o.versions) != []
    ensures Published(w, before, after, true, o.release, [suite], signing, date)
    ensures suite.component == o.component && suite.architecture == o.architecture
    ensures suite.packages == CopiedInto(o, source, destination)
    ensures suite.byHash == HashedBy(w, before.objects, o.release)
  {
    CopyIs(w, before.objects, o, source, destination);
    suite := CopySuites(w, before.objects, o).value[0];
    assert [suite] == CopySuites(w, before.objects, o).value;
  }

  /** A copy that succeeds leaves in the destination the packages there whose place none of those asked for takes, in
      order, and then the packages asked for, each once; and every index that it was not about as it was. */
  lemma {:induction false} CopyLeaves(
      w: World, before: Store, after: Store, o: CopyOptions, signing: Signing, date: string, source: seq<P.Package>,
      destination: seq<P.Package>)
    requires Copied(w, before, after, true, o, signing, date) && NoneMistaken(w.hasher.md5, before.objects)
    requires HoldsIndex(w, before.objects, o.sourceCodename, o.sourceComponent, o.architecture, source)
    requires HoldsIndex(w, before.objects, o.release.codename, o.component, o.architecture, destination)
    ensures Asked(source, o.name, o.versions) != []
    ensures Shows(w, after.objects, o.release.codename, o.component, o.architecture,
            CopiedInto(o, source, destination), HashedBy(w, before.objects, o.release))
    ensures ChangesOnly(w, before.objects, after.objects, o.release.codename, o.component, iset{o.architecture})
    ensures SameBodies(before.objects, after.objects)
  {
    var suite := CopyPublishes(w, before, after, o, signing, date, source, destination);
    OnePublished(w, before, after, o.release, suite, signing, date);
    OneChanges(w, before, after, o.release, suite, signing, date);
  }

  /** A copy fails and leaves the store alone exactly when one of the two indexes cannot be read, no package is asked
      for, the destination refuses one, the result cannot be printed, or no call is left. */
  lemma {:induction false} CopyFails(
      w: World, before: Store, after: Store, ok: bool, o: CopyOptions, signing: Signing, date: string)
    requires PackagesLaw(w) && Copied(w, before, after, ok, o, signing, date)
    ensures (Unreadable(w, before.objects, o.sourceCodename, o.sourceComponent, o.architecture)
             || Unreadable(w, before.objects, o.release.codename, o.component, o.architecture)) ==>
              !ok && after == before
    ensures forall source, destination ::
              && HoldsIndex(w, before.objects, o.sourceCodename, o.sourceComponent, o.architecture, source)
              && HoldsIndex(w, before.objects, o.release.codename, o.component, o.architecture, destination) ==>
              (!ok && after == before <==> CopyStops(w, before, o, source, destination))
  {
    forall source, destination |
      && HoldsIndex(w, before.objects, o.sourceCodename, o.sourceComponent, o.architecture, source)
      && HoldsIndex(w, before.objects, o.release.codename, o.component, o.architecture, destination)
      ensures !ok && after == before <==> CopyStops(w, before, o, source, destination)
    {
      CopyIs(w, before.objects, o, source, destination);
      if CopySuites(w, before.objects, o).Ok? {
        PublishedNothing(w, before, after, ok, o.release, CopySuites(w, before.objects, o).value, signing, date);
      }
    }
  }

  ghost predicate CopyStops(
      w: World, before: Store, o: CopyOptions, source: seq<P.Package>, destination: seq<P.Package>) {
    || Asked(source, o.name, o.versions) == [] || CopyRefused(o, source, destination) || before.budget == 0
    || w.printPackages(CopiedInto(o, source, destination), o.release.codename).Err?
  }

  // ---- delete

  /** The packages without those of the name and, if there is a list, of its versions: each version may be given in
      full, or without its epoch, or without epoch and iteration. */
  function Spared(packages: seq<P.Package>, name: string, versions: Option<seq<string>>): seq<P.Package> {
    Filter(packages, (p: P.Package) =>
        p.name != name || (versions.Some? && p.FullVersion() !in versions.value
            && p.version.upstream !in versions.value
            && p.version.upstream + "-" + p.version.iteration !in versions.value))
  }

  lemma {:induction false} RetainedIsSpared(packages: seq<P.Package>, name: string, versions: Option<seq<string>>)
    ensures Filter(packages, Not(E.Doomed(name, versions))) == Spared(packages, name, versions)
    ensures Filter(packages, E.Doomed(name, versions)) == [] <==> Spared(packages, name, versions) == packages
  {
    var keep := Not(E.Doomed(name, versions));
    FilterShrinks(packages, keep, (p: P.Package) =>
        p.name != name || (versions.Some? && p.FullVersion() !in versions.value
            && p.version.upstream !in versions.value
            && p.version.upstream + "-" + p.version.iteration !in versions.value));
    FilterConserves(packages, E.Doomed(name, versions));
    if Filter(packages, E.Doomed(name, versions)) == [] {
      forall i | 0 <= i < |packages| ensures keep(packages[i]) {
        FilterHas(packages, E.Doomed(name, versions), packages[i]);
      }
      FilterEverything(packages, keep);
    }
    if Filter(packages, keep) == packages {
      assert |multiset(Filter(packages, E.Doomed(name, versions)))| == 0;
    }
  }

  /** The architectures the stored Release names. */
  function ReleaseArchitectures(w: World, objects: Objects, c: string): seq<string> {
    if ReleaseFile(c) in objects then w.parseRelease(objects[ReleaseFile(c)]).architectures else []
  }

  /** The architectures a deletion is about. */
  function DeletedArchitectures(w: World, objects: Objects, o: DeleteOptions): seq<string> {
    if o.architecture == "all" then ReleaseArchitectures(w, objects, o.release.codename) else [o.architecture]
  }

  /** The architecture has packages to delete. */
  ghost predicate Loses(w: World, objects: Objects, o: DeleteOptions, a: string) {
    exists packages :: HoldsIndex(w, objects, o.release.codename, o.component, a, packages)
                       && Spared(packages, o.name, o.versions) != packages
  }

  ghost predicate SomeUnreadable(w: World, objects: Objects, o: DeleteOptions, architectures: seq<string>) {
    exists a :: a in architectures && Unreadable(w, objects, o.release.codename, o.component, a)
  }

  ghost predicate SomeLoses(w: World, objects: Objects, o: DeleteOptions, architectures: seq<string>) {
    exists a :: a in architectures && Loses(w, objects, o, a)
  }

  ghost predicate SuiteOfDelete(w: World, objects: Objects, o: DeleteOptions, suite: Suite) {
    && suite.component == o.component && suite.byHash == HashedBy(w, objects, o.release)
    && exists packages :: HoldsIndex(w, objects, o.release.codename, o.component, suite.architecture, packages)
         && Spared(packages, o.name, o.versions) != packages
         && suite.packages == Spared(packages, o.name, o.versions)
  }

  /** The manifests a deletion publishes: one for each architecture that has packages to delete. */
  lemma {:induction false} DeleteIs(
      w: World, objects: Objects, o: DeleteOptions, byHash: bool, architectures: seq<string>)
    requires byHash == HashedBy(w, objects, o.release)
    ensures var suites := DeleteFrom(w, objects, o, byHash, architectures);
            && (suites.Err? <==> SomeUnreadable(w, objects, o, architectures))
            && (suites.Ok? ==>
                  && (forall i :: 0 <= i < |suites.value| ==> SuiteOfDelete(w, objects, o, suites.value[i]))
                  && (forall a :: PublishesSuite(suites.value, o.component, a)
                                  <==> a in architectures && Loses(w, objects, o, a)))
  {
    if architectures != [] {
      var a, rest := architectures[0], architectures[1..];
      DeleteIs(w, objects, o, byHash, rest);
      ReadableHolds(w, objects, o.release.codename, o.component, a);
      assert architectures == [a] + rest;
      var suites := DeleteFrom(w, objects, o, byHash, architectures);
      if suites.Ok? {
        DeleteStepIs(w, objects, o, byHash, architectures);
      }
    }
  }

  lemma {:induction false} DeleteStepIs(
      w: World, objects: Objects, o: DeleteOptions, byHash: bool, architectures: seq<string>)
    requires architectures != [] && DeleteFrom(w, objects, o, byHash, architectures).Ok?
    requires byHash == HashedBy(w, objects, o.release)
    requires var rest := DeleteFrom(w, objects, o, byHash, architectures[1..]).value;
             && (forall i :: 0 <= i < |rest| ==> SuiteOfDelete(w, objects, o, rest[i]))
             && (forall a :: PublishesSuite(rest, o.component, a)
                             <==> a in architectures[1..] && Loses(w, objects, o, a))
    ensures var suites := DeleteFrom(w, objects, o, byHash, architectures).value;
            && (forall i :: 0 <= i < |suites| ==> SuiteOfDelete(w, objects, o, suites[i]))
            && (forall a :: PublishesSuite(suites, o.component, a)
                            <==> a in architectures && Loses(w, objects, o, a))
  {
    var a, rest := architectures[0], DeleteFrom(w, objects, o, byHash, architectures[1..]).value;
    var suites := DeleteFrom(w, objects, o, byHash, architectures).value;
    var packages := RetrievedPackages(w, objects, o.release.codename, o.component, a).value;
    RetainedIsSpared(packages, o.name, o.versions);
    assert HoldsIndex(w, objects, o.release.codename, o.component, a, packages);
    assert architectures == [a] + architectures[1..];
    if Spared(packages, o.name, o.versions) == packages {
      assert suites == rest && !Loses(w, objects, o, a);
    } else {
      var suite := Suite(o.component, a, byHash, Spared(packages, o.name, o.versions));
      assert suites == [suite] + rest && SuiteOfDelete(w, objects, o, suite) && Loses(w, objects, o, a);
      forall b ensures PublishesSuite(suites, o.component, b) <==> b == a || PublishesSuite(rest, o.component, b) {
        PublishesCons(suite, rest, o.component, b);
      }
    }
  }

  lemma {:induction false} PublishesCons(suite: Suite, rest: seq<Suite>, component: string, a: string)
    ensures PublishesSuite([suite] + rest, component, a)
            <==> (suite.component == component && suite.architecture == a) || PublishesSuite(rest, component, a)
  {
    var suites := [suite] + rest;
    assert suites[0] == suite && forall i :: 0 <= i < |rest| ==> suites[i + 1] == rest[i];
    if PublishesSuite(suites, component, a) && !(suite.component == component && suite.architecture == a) {
      var i :| 0 <= i < |suites| && suites[i].component == component && suites[i].architecture == a;
      assert rest[i - 1] == suites[i];
    }
  }

  lemma {:induction false} DeletedPackages(
      w: World, objects: Objects, o: DeleteOptions, suites: seq<Suite>, a: string, packages: seq<P.Package>)
    requires forall i :: 0 <= i < |suites| ==> SuiteOfDelete(w, objects, o, suites[i])
    requires HoldsIndex(w, objects, o.release.codename, o.component, a, packages)
    ensures forall i :: 0 <= i < |suites| && suites[i].component == o.component && suites[i].architecture == a ==>
              suites[i].packages == Spared(packages, o.name, o.versions)
              && suites[i].byHash == HashedBy(w, objects, o.release)
  {
    forall i | 0 <= i < |suites| && suites[i].component == o.component && suites[i].architecture == a
      ensures suites[i].packages == Spared(packages, o.name, o.versions)
              && suites[i].byHash == HashedBy(w, objects, o.release)
    {
      assert SuiteOfDelete(w, objects, o, suites[i]);
    }
  }

  lemma {:induction false} DeleteSuitesAre(w: World, objects: Objects, o: DeleteOptions)
    ensures var asked := DeletedArchitectures(w, objects, o);
            var suites := DeleteSuites(w, objects, o);
            && (suites.Err? <==> SomeUnreadable(w, objects, o, asked) || !SomeLoses(w, objects, o, asked))
            && (suites.Ok? ==>
                  && suites.value != []
                  && (forall i :: 0 <= i < |suites.value| ==> SuiteOfDelete(w, objects, o, suites.value[i]))
                  && (forall a :: PublishesSuite(suites.value, o.component, a)
                                  <==> a in asked && Loses(w, objects, o, a)))
  {
    var r, asked := Retrieved(w, objects, o.release), DeletedArchitectures(w, objects, o);
    DeleteIs(w, objects, o, r.byHash, asked);
    var suites := DeleteFrom(w, objects, o, r.byHash, asked);
    if suites.Ok? && suites.value != [] {
      var first := suites.value[0];
      assert SuiteOfDelete(w, objects, o, first);
      assert PublishesSuite(suites.value, o.component, first.architecture);
    }
  }

  /** A deletion that succeeds leaves, for every architecture it was about and that had packages to delete, the others
      in order; and every index that it changes nothing in as it was. */
  lemma {:induction false} DeleteLeaves(
      w: World, before: Store, after: Store, o: DeleteOptions, signing: Signing, date: string)
    requires Deleted(w, before, after, true, o, signing, date) && NoneMistaken(w.hasher.md5, before.objects)
    ensures forall a, packages ::
              (&& a in DeletedArchitectures(w, before.objects, o)
               && HoldsIndex(w, before.objects, o.release.codename, o.component, a, packages)
               && Spared(packages, o.name, o.versions) != packages) ==>
              Shows(w, after.objects, o.release.codename, o.component, a, Spared(packages, o.name, o.versions),
                  HashedBy(w, before.objects, o.release))
    ensures ChangesOnly(w, before.objects, after.objects, o.release.codename, o.component,
            iset a | a in DeletedArchitectures(w, before.objects, o) && Loses(w, before.objects, o, a))
    ensures SameBodies(before.objects, after.objects)
  {
    var asked, suites := DeletedArchitectures(w, before.objects, o), DeleteSuites(w, before.objects, o).value;
    DeleteSuitesAre(w, before.objects, o);
    PublishedKeepsBodies(w, before, after, true, o.release, suites, signing, date);
    forall a, packages | a in asked && HoldsIndex(w, before.objects, o.release.codename, o.component, a, packages)
        && Spared(packages, o.name, o.versions) != packages
      ensures Shows(w, after.objects, o.release.codename, o.component, a, Spared(packages, o.name, o.versions),
              HashedBy(w, before.objects, o.release))
    {
      assert Loses(w, before.objects, o, a);
      DeletedPackages(w, before.objects, o, suites, a, packages);
      PublishedShows(w, before, after, o.release, suites, signing, date, o.component, a,
          Spared(packages, o.name, o.versions), HashedBy(w, before.objects, o.release));
    }
    var changed := iset a | a in asked && Loses(w, before.objects, o, a);
    forall i | 0 <= i < |suites| ensures suites[i].component == o.component && suites[i].architecture in changed {
      assert SuiteOfDelete(w, before.objects, o, suites[i]);
      assert PublishesSuite(suites, o.component, suites[i].architecture);
    }
    PublishedChangesOnly(w, before, after, true, o.release, suites, signing, date, o.component, changed);
  }

  /** What is left of a manifest that loses packages cannot be printed. */
  ghost predicate Unwritable(w: World, objects: Objects, o: DeleteOptions, a: string) {
    exists packages :: HoldsIndex(w, objects, o.release.codename, o.component, a, packages)
      && Spared(packages, o.name, o.versions) != packages
      && w.printPackages(Spared(packages, o.name, o.versions), o.release.codename).Err?
  }

  ghost predicate SomeUnwritable(w: World, objects: Objects, o: DeleteOptions, architectures: seq<string>) {
    exists a :: a in architectures && Unwritable(w, objects, o, a)
  }

  lemma {:induction false} DeleteUnprintable(w: World, objects: Objects, o: DeleteOptions)
    requires DeleteSuites(w, objects, o).Ok?
    ensures Unprintable(w, o.release.codename, DeleteSuites(w, objects, o).value)
            <==> SomeUnwritable(w, objects, o, DeletedArchitectures(w, objects, o))
  {
    var asked, suites := DeletedArchitectures(w, objects, o), DeleteSuites(w, objects, o).value;
    DeleteSuitesAre(w, objects, o);
    if i :| 0 <= i < |suites| && w.printPackages(suites[i].packages, o.release.codename).Err? {
      assert SuiteOfDelete(w, objects, o, suites[i]);
      assert PublishesSuite(suites, o.component, suites[i].architecture);
      assert Unwritable(w, objects, o, suites[i].architecture);
    }
    if a :| a in asked && Unwritable(w, objects, o, a) {
      var packages :| HoldsIndex(w, objects, o.release.codename, o.component, a, packages)
        && Spared(packages, o.name, o.versions) != packages
        && w.printPackages(Spared(packages, o.name, o.versions), o.release.codename).Err?;
      assert Loses(w, objects, o, a);
      DeletedPackages(w, objects, o, suites, a, packages);
      var i :| 0 <= i < |suites| && suites[i].component == o.component && suites[i].architecture == a;
    }
  }

  /** A deletion fails and leaves the store alone exactly when an index it is about cannot be read, none of them has
      such a package, what is left of one cannot be printed, or no call is left. */
  lemma {:induction false} DeleteFails(
      w: World, before: Store, after: Store, ok: bool, o: DeleteOptions, signing: Signing, date: string)
    requires PackagesLaw(w) && Deleted(w, before, after, ok, o, signing, date)
    ensures var asked := DeletedArchitectures(w, before.objects, o);
            !ok && after == before
            <==> SomeUnreadable(w, before.objects, o, asked) || !SomeLoses(w, before.objects, o, asked)
                 || SomeUnwritable(w, before.objects, o, asked) || before.budget == 0
  {
    DeleteSuitesAre(w, before.objects, o);
    var suites := DeleteSuites(w, before.objects, o);
    if suites.Ok? {
      DeleteUnprintable(w, before.objects, o);
      PublishedNothing(w, before, after, ok, o.release, suites.value, signing, date);
    }
  }
}
