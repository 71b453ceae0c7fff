/** The main results for the repository's own parsers and printers, and what each command leaves behind. */
module Guarantees {
  import opened Text
  import opened Digests
  import P = Package
  import R = Release
  import Index = Manifest
  import opened Keys
  import opened Calls
  import opened Worlds = World
  import opened Instance
  import opened Publication
  import Concurrent
  import Clients
  import opened History
  import opened Consistency
  import opened Commands
  import opened Commander
  import U = Upload
  import C = Collection
  import H = CommandHistory
  import M = Maintenance
  import opened Uploader
  import opened Lists
  import Rereading
  import opened Adding
  import opened Republished
  import opened CommandResults
  import opened VerifyResults
  import opened UploadResults

  function Zeros(n: nat): (s: string)
    ensures |s| == n && Hex(s)
  {
    if n == 0 then "" else ['0'] + Zeros(n - 1)
  }

  /** The laws can be met: any functions with digests of the right lengths will do. */
  lemma {:induction false} LawsAreMet(gzip: string -> string, payload: string -> string) returns (h: Hasher)
    ensures Lawful(RealWorld(h, payload)) && h.gzip == gzip
  {
    h := Hasher(data => Zeros(32), data => Zeros(40), data => Zeros(64), gzip);
    RealWorldLawful(h, payload);
  }

  // ---- what a client can rely on

  /** Of a Release or InRelease that a client once read, every line it finds under `SHA256:` names an index that it
      can fetch from then on by that digest, beside the listed file, with bytes that have it, and unchanged. */
  lemma {:induction false} ClientsCanFetch(
      h: Hasher, payload: string -> string, trace: seq<Concurrent.State>, m: nat, n: nat,
      codename: string, text: string, e: Clients.Entry)
    requires Proper(h) && Concurrent.Execution(RealWorld(h, payload), trace) && m <= n < |trace|
    requires Concurrent.AllServed(RealWorld(h, payload), trace[0])
    requires Concurrent.Reads(RealWorld(h, payload), trace[m].objects, codename, text)
    requires e in Clients.Section(text, "SHA256:")
    ensures exists component, a, gz ::
              && SuiteName(component, a) && e.name == EntryName(component, a, gz)
              && var key := ByHash(codename, component, a, e.digest);
              && key in trace[m].objects && key in trace[n].objects
              && trace[m].objects[key] == trace[n].objects[key]
              && h.sha256(trace[n].objects[key]) == e.digest
  {
    var w := RealWorld(h, payload);
    RealWorldLawful(h, payload);
    Concurrent.ExecutionPrints(w, trace, m);
    Concurrent.ExecutionKeepsInv(w, trace, m);
    Concurrent.ReadIsServed(w, trace[m], codename, text);
    var r, date :| R.Renderable(r, date) && text == w.printRelease(r, date);
    ListedDigest(r, date, e);
    Concurrent.OldGenerationsStayFetchable(w, trace, m, n, codename, text, e.name);
  }

  /** A line under `SHA256:` has the digest that parsing gives the file. */
  lemma {:induction false} ListedDigest(r: R.ReleaseData, date: string, e: Clients.Entry)
    requires R.Renderable(r, date) && e in Clients.Section(R.RenderedRelease(r, date), "SHA256:")
    ensures var files := R.ParsedRelease(R.RenderedRelease(r, date)).files;
            e.name in files && files[e.name].sha256 == e.digest
  {
    Clients.SectionsAsRead(r, date);
    R.ReleaseRoundTrip(r, date);
    var entries := Clients.Section(R.RenderedRelease(r, date), "SHA256:");
    var i :| 0 <= i < |entries| && entries[i] == e;
    assert Clients.IsEntryOf(entries[i], r.files, (hashes: FileHashes) => hashes.sha256);
  }

  /** In every history of uploads, copies, deletions, verifications and cleans, each cut off anywhere: every package
      of every stored index parses, has a repository path, and its body is stored under it. */
  lemma {:induction false} IndexedBodiesExist(
      h: Hasher, payload: string -> string, trace: seq<Objects>, n: nat, key: Key, i: nat, codename: string)
    requires Proper(h) && H.Chronicle(RealWorld(h, payload), trace) && n < |trace|
    requires key in trace[n] && key.Index? && !key.gz
    ensures var packages := Index.ParsedPackages(trace[n][key]);
            && packages.Ok?
            && (i < |packages.value| ==>
                  var path := P.RepositoryFilename(packages.value[i], codename);
                  path.Ok? && Pool(path.value) in trace[n])
  {
    var w := RealWorld(h, payload);
    RealWorldLawful(h, payload);
    H.CommandsKeepIntegrity(w, trace, n);
    assert BackedText(w, trace[n][key], trace[n].Keys);
    var packages := w.parsePackages(trace[n][key]).value;
    if i < |packages| {
      assert BackedPackage(w, packages[i], trace[n].Keys);
      assert w.pathOf(packages[i], codename) == w.pathOf(packages[i], "");
    }
  }

  /** Every entry of a stored Release has the size and digests of the index stored under its name. */
  lemma {:induction false} EntriesMatchIndexes(
      h: Hasher, payload: string -> string, trace: seq<Objects>, bodies: iset<string>, n: nat,
      codename: string, component: string, a: string, gz: bool)
    requires Proper(h) && CompletedHistory(RealWorld(h, payload), trace, bodies) && NoCollisions(h.md5, bodies)
    requires n < |trace|
    requires ReleaseFile(codename) in trace[n] && SuiteName(component, a)
    requires EntryName(component, a, gz) in R.ParsedRelease(trace[n][ReleaseFile(codename)]).files
    ensures var key := Keys.Index(codename, component, a, gz);
            && key in trace[n]
            && R.ParsedRelease(trace[n][ReleaseFile(codename)]).files[EntryName(component, a, gz)]
               == HashesOf(h, trace[n][key])
  {
    var w := RealWorld(h, payload);
    RealWorldLawful(h, payload);
    ReleaseDescribesIndexes(w, trace, bodies, n);
    var r := w.parseRelease(trace[n][ReleaseFile(codename)]);
    assert ConsistentSuite(w, trace[n], codename, r);
    assert DescribesIndex(w, trace[n], Keys.Index(codename, component, a, gz), r.files[EntryName(component, a, gz)]);
  }

  /** In every history of commands that starts from an empty store, every Release lists the plain and the compressed
      index of every suite that it provides for. */
  lemma {:induction false} BothIndexesListed(
      h: Hasher, payload: string -> string, trace: seq<Objects>, n: nat, c: string, component: string, a: string,
      gz: bool)
    requires Proper(h) && H.Chronicle(RealWorld(h, payload), trace) && trace[0] == map[] && n < |trace|
    requires ReleaseFile(c) in trace[n] && a in ["amd64", "i386", "armhf", "arm64"]
    requires var s := R.ParsedRelease(trace[n][ReleaseFile(c)]); component in s.components && a in s.architectures
    ensures EntryName(component, a, gz) in R.ParsedRelease(trace[n][ReleaseFile(c)]).files
  {
    RealWorldLawful(h, payload);
    H.BothIndexesListed(RealWorld(h, payload), trace, n, c, component, a);
  }

  /** On a clean store a clean that got to its end has kept the report of a verification exactly when no path that is
      verified is exposed to it; and wherever it stopped, it has kept it in that case. */
  lemma {:induction false} ReportsSurviveCleans(
      h: Hasher, payload: string -> string, objects: Objects, codename: string, calls: nat, o: VerifyOptions)
    requires C.Cleanable(RealWorld(h, payload), objects, codename)
    ensures var w := RealWorld(h, payload);
            var safe := C.SafeFor(w, objects, codename, o, Retrieved(w, objects, o.release).architectures);
            var kept := VerifyPlan(w, C.AfterClean(w, objects, codename, calls), o) == VerifyPlan(w, objects, o);
            (safe ==> kept) && (calls >= |C.KeysOf(w, objects, codename)| ==> (kept <==> safe))
  {
    RealPlaceLaw(h, payload);
    C.ReportsKeptExactly(RealWorld(h, payload), objects, codename, calls, o);
  }

  // ---- what the commands leave, however far they get

  /** `Copy` keeps referential integrity wherever it stops. */
  lemma {:induction false} CopyIsSafe(
      w: World, before: Store, after: Store, ok: bool, o: CopyOptions, signing: Signing, date: string)
    requires Lawful(w) && Integrity(w, before.objects) && Copied(w, before, after, ok, o, signing, date)
    ensures Integrity(w, after.objects)
  {
    var suites := CopySuites(w, before.objects, o);
    if suites.Ok? {
      H.PublishedLeaves(w, before, after, ok, o.release, suites.value, signing, date);
      CopyAdmissible(w, before.objects, o, signing, date);
      RunKeepsIntegrity(w, before.objects, Publish(o.release, [], suites.value, signing, date), before.budget);
    }
  }

  /** So does `Delete`. */
  lemma {:induction false} DeleteIsSafe(
      w: World, before: Store, after: Store, ok: bool, o: DeleteOptions, signing: Signing, date: string)
    requires Lawful(w) && Integrity(w, before.objects) && Deleted(w, before, after, ok, o, signing, date)
    ensures Integrity(w, after.objects)
  {
    var suites := DeleteSuites(w, before.objects, o);
    if suites.Ok? {
      H.PublishedLeaves(w, before, after, ok, o.release, suites.value, signing, date);
      DeleteAdmissible(w, before.objects, o, signing, date);
      RunKeepsIntegrity(w, before.objects, Publish(o.release, [], suites.value, signing, date), before.budget);
    }
  }

  /** And `Verify`, whether it repairs, signs anew or only looks. */
  lemma {:induction false} VerifyIsSafe(
      w: World, before: Store, after: Store, ok: bool, o: VerifyOptions, signing: Signing, date: string)
    requires Lawful(w) && Integrity(w, before.objects) && Verified(w, before, after, ok, o, signing, date)
    ensures Integrity(w, after.objects)
  {
    var report := VerifyPlan(w, before.objects, o);
    if report.Ok? {
      var run := if report.value.changed != [] then Publish(o.release, [], report.value.changed, signing, date)
                 else Resign(o.release, signing, date);
      if report.value.changed != [] {
        H.PublishedLeaves(w, before, after, ok, o.release, report.value.changed, signing, date);
        RepairIsAdmissible(w, before.objects, o, signing, date);
      }
      RunKeepsIntegrity(w, before.objects, run, before.budget);
    }
  }

  /** And `Clean`. */
  lemma {:induction false} CleanIsSafe(w: World, before: Store, after: Store, ok: bool, codename: string)
    requires Lawful(w) && Integrity(w, before.objects) && CleanNames(before.objects)
    requires C.Cleaned(w, before, after, ok, codename)
    ensures Integrity(w, after.objects)
  {
    var deletions := M.Deletions(w, Image(before.objects), codename);
    if deletions.Ok? {
      C.CleanAdmissible(w, before.objects, codename);
      RunKeepsIntegrity(w, before.objects, Collect(C.DeleteOps(deletions.value)), before.budget);
    }
  }

  /** And `Upload`, unless it is told to leave the bodies out, whatever fails on the way. */
  lemma {:induction false} UploadIsSafe(
      w: World, before: Store, after: Store, ok: bool, o: U.Options, files: seq<Result<U.Incoming>>, signing: Signing,
      date: string)
    requires Lawful(w) && Integrity(w, before.objects) && U.GoodFiles(w, o, files) && !o.skipPackageUpload
    requires Follows(w.hasher.md5, before, U.UploadCalls(w, before.objects, o, files, signing, date), after, ok)
    ensures Integrity(w, after.objects)
  {
    var manifests := U.Manifests(w, before.objects, o, files);
    if manifests.Ok? {
      var r, bodies := Retrieved(w, before.objects, o.release), U.AllBodies(w, o, manifests.value);
      var suites := U.SuitesOf(o, r.byHash, manifests.value);
      if bodies.completes {
        U.UploadAdmissible(w, before.objects, o, files, signing, date);
        RunKeepsIntegrity(w, before.objects, Publish(o.release, bodies.ops, suites, signing, date), before.budget);
      } else {
        U.AllBodiesAreBodies(w, o, manifests.value);
        H.BodiesKeepIntegrity(w, before, bodies.ops);
      }
    }
  }

  // ---- what the indexes read as afterwards

  /** Every package can be written and belongs into the pool. */
  ghost predicate AllAreGood(packages: seq<P.Package>, codename: string) {
    forall p :: p in packages ==> Good(p, codename)
  }

  /** The stored index parses to these packages, in order: each under its path, good again, and with its name and
      version if these can be read back. */
  ghost predicate ReadsAs(objects: Objects, c: string, component: string, a: string, packages: seq<P.Package>) {
    var key := Keys.Index(c, component, a, false);
    && key in objects && Index.ParsedPackages(objects[key]).Ok?
    && Rereading.RereadAll(packages, c, Index.ParsedPackages(objects[key]).value)
  }

  lemma {:induction false} GoodReadBack(packages: seq<P.Package>, c: string)
    requires AllAreGood(packages, c)
    ensures Index.RenderedManifest(packages, c).Ok?
    ensures var read := Index.ParsedPackages(Index.RenderedManifest(packages, c).value);
            read.Ok? && Rereading.RereadAll(packages, c, read.value)
  {
    forall i | 0 <= i < |packages| ensures Rereading.Indexable(packages[i], c) {
      assert Good(packages[i], c);
    }
    Rereading.IndexReread(packages, c);
  }

  lemma {:induction false} ShownInIndex(
      w: World, objects: Objects, c: string, component: string, a: string, packages: seq<P.Package>,
      byHash: bool)
    requires Shows(w, objects, c, component, a, packages, byHash)
    ensures var key := Keys.Index(c, component, a, false);
            key in objects && w.printPackages(packages, c) == Ok(objects[key])
  {}

  lemma {:induction false} ShownReadsAs(
      h: Hasher, payload: string -> string, objects: Objects, c: string, component: string, a: string,
      packages: seq<P.Package>, byHash: bool)
    requires Shows(RealWorld(h, payload), objects, c, component, a, packages, byHash) && AllAreGood(packages, c)
    ensures ReadsAs(objects, c, component, a, packages)
  {
    ShownInIndex(RealWorld(h, payload), objects, c, component, a, packages, byHash);
    GoodReadBack(packages, c);
  }

  /** After a copy the destination reads as the packages it had whose place none of those asked for takes, and then
      those asked for, each once. */
  lemma {:induction false} CopyReadsAs(
      h: Hasher, payload: string -> string, before: Store, after: Store, o: CopyOptions, signing: Signing, date: string,
      source: seq<P.Package>, destination: seq<P.Package>)
    requires var w := RealWorld(h, payload);
             && Copied(w, before, after, true, o, signing, date)
             && HoldsIndex(w, before.objects, o.sourceCodename, o.sourceComponent, o.architecture, source)
             && HoldsIndex(w, before.objects, o.release.codename, o.component, o.architecture, destination)
    requires NoneMistaken(h.md5, before.objects)
    requires AllAreGood(source, o.release.codename) && AllAreGood(destination, o.release.codename)
    ensures ReadsAs(after.objects, o.release.codename, o.component, o.architecture,
            CopiedInto(o, source, destination))
  {
    var asked := Asked(source, o.name, o.versions);
    CopyLeaves(RealWorld(h, payload), before, after, o, signing, date, source, destination);
    forall p | p in CopiedInto(o, source, destination) ensures Good(p, o.release.codename) {
      AddedMembers(destination, asked, o.preserveVersions, p);
      FilterHas(source, (q: P.Package) => q.name == o.name
          && (o.versions.Some? ==> q.FullVersion() in o.versions.value),
          p);
    }
    ShownReadsAs(h, payload, after.objects, o.release.codename, o.component, o.architecture,
        CopiedInto(o, source, destination), HashedBy(RealWorld(h, payload), before.objects, o.release));
  }

  lemma {:induction false} SparedMember(
      packages: seq<P.Package>, name: string, versions: Option<seq<string>>, p: P.Package)
    requires p in Spared(packages, name, versions)
    ensures p in packages
  {
    FilterHas(packages, (q: P.Package) =>
        q.name != name || (versions.Some? && q.FullVersion() !in versions.value
            && q.version.upstream !in versions.value
            && q.version.upstream + "-" + q.version.iteration !in versions.value), p);
  }

  /** After a deletion every index that it was about and that had such packages reads as the others. */
  lemma {:induction false} DeleteReadsAs(
      h: Hasher, payload: string -> string, before: Store, after: Store, o: DeleteOptions, signing: Signing,
      date: string, a: string, packages: seq<P.Package>)
    requires var w := RealWorld(h, payload);
             && Deleted(w, before, after, true, o, signing, date)
             && a in DeletedArchitectures(w, before.objects, o)
             && HoldsIndex(w, before.objects, o.release.codename, o.component, a, packages)
    requires NoneMistaken(h.md5, before.objects) && AllAreGood(packages, o.release.codename)
    requires Spared(packages, o.name, o.versions) != packages
    ensures ReadsAs(after.objects, o.release.codename, o.component, a, Spared(packages, o.name, o.versions))
  {
    DeleteLeaves(RealWorld(h, payload), before, after, o, signing, date);
    forall p | p in Spared(packages, o.name, o.versions) ensures Good(p, o.release.codename) {
      SparedMember(packages, o.name, o.versions, p);
    }
    ShownReadsAs(h, payload, after.objects, o.release.codename, o.component, a,
        Spared(packages, o.name, o.versions), HashedBy(RealWorld(h, payload), before.objects, o.release));
  }

  /** After a repair every damaged index reads as its packages whose body is there. */
  lemma {:induction false} RepairReadsAs(
      h: Hasher, payload: string -> string, before: Store, after: Store, o: VerifyOptions, signing: Signing,
      date: string, a: string)
    requires var w := RealWorld(h, payload);
             && o.fix && Verified(w, before, after, true, o, signing, date)
             && a in Damaged(w, before.objects, o, ReleaseArchitectures(w, before.objects, o.release.codename))
             && AllAreGood(BackedIn(w, before.objects, o, a), o.release.codename)
    requires NoneMistaken(h.md5, before.objects)
    ensures ReadsAs(after.objects, o.release.codename, o.component, a,
            BackedIn(RealWorld(h, payload), before.objects, o, a))
  {
    var w := RealWorld(h, payload);
    RepairLeaves(w, before, after, o, signing, date);
    ShownReadsAs(h, payload, after.objects, o.release.codename, o.component, a, BackedIn(w, before.objects, o, a),
        HashedBy(w, before.objects, o.release));
  }

  /** After an upload the index of every architecture that it reached reads as the packages stored there that none of
      the run replaces, and then the run's packages for it and for `all`, each once. */
  lemma {:induction false} UploadReadsAs(
      h: Hasher, payload: string -> string, before: Store, after: Store, o: U.Options, files: seq<Result<U.Incoming>>,
      signing: Signing, date: string, a: string, stored: seq<P.Package>)
    requires var w := RealWorld(h, payload);
             && Follows(h.md5, before, U.UploadCalls(w, before.objects, o, files, signing, date), after, true)
             && U.Reached(ReleaseArchitectures(w, before.objects, o.release.codename), o, files, a)
             && HoldsIndex(w, before.objects, o.release.codename, o.component, a, stored)
    requires NoneMistaken(h.md5, before.objects)
    requires AllAreGood(stored, o.release.codename) && AllAreGood(U.RunFor(o, files, a), o.release.codename)
    ensures ReadsAs(after.objects, o.release.codename, o.component, a, UploadedTo(o, files, a, stored))
  {
    UploadLeaves(RealWorld(h, payload), before, after, o, files, signing, date, a, stored);
    forall p | p in UploadedTo(o, files, a, stored) ensures Good(p, o.release.codename) {
      AddedMembers(stored, U.RunFor(o, files, a), o.preserveVersions, p);
    }
    ShownReadsAs(h, payload, after.objects, o.release.codename, o.component, a, UploadedTo(o, files, a, stored),
        HashedBy(RealWorld(h, payload), before.objects, o.release));
  }
}
