/** The commands themselves, proved to publish the manifests of `Commands` and to touch nothing when they fail before
    publishing. */
module Commander {
  import opened Text
  import opened Lists
  import P = Package
  import E = Edits
  import S = Storage
  import opened R = Release
  import opened Keys
  import opened Calls
  import opened Worlds = World
  import opened Publication
  import opened Publisher
  import opened Commands

  method RetrieveManifest(bucket: Bucket, w: World, codename: string, component: string, a: string)
    returns (r: Result<seq<P.Package>>)
    ensures r == RetrievedPackages(w, bucket.objects, codename, component, a)
  {
    var data := bucket.Get(Index(codename, component, a, false));
    if data.None? {
      return Ok([]);
    }
    return w.parsePackages(data.value);
  }

  method RetrieveRelease(bucket: Bucket, w: World, options: ReleaseOptions) returns (release: R.Release)
    ensures fresh(release) && release.View() == Retrieved(w, bucket.objects, options)
  {
    var data := bucket.Get(ReleaseFile(options.codename));
    if data.None? {
      release := new R.Release(
        ReleaseData(options.codename, options.origin, options.suite, [], [], options.byHash.GetOr(false), map[]));
      return;
    }
    release := new R.Release(w.parseRelease(data.value));
    release.codename := options.codename;
    if options.origin.Some? {
      release.origin := options.origin;
    }
    if options.suite.Some? {
      release.suite := options.suite;
    }
    if options.byHash.Some? {
      release.byHash := options.byHash.value;
    }
  }

  method AddAll(
      packages: seq<P.Package>, packs: seq<P.Package>, preserveVersions: bool, codename: string, failIfExists: bool)
    returns (r: Result<seq<P.Package>>)
    ensures r == AddedAll(packages, packs, preserveVersions, codename, failIfExists)
  {
    var added := packages;
    ghost var all := AddedAll(packages, packs, preserveVersions, codename, failIfExists);
    assert packs[0..] == packs;
    for i := 0 to |packs|
      invariant AddedAll(added, packs[i..], preserveVersions, codename, failIfExists) == all
    {
      assert packs[i..][0] == packs[i] && packs[i..][1..] == packs[i + 1..];
      var failure := E.AddFailure(added, packs[i], codename, failIfExists);
      if failure.Some? {
        return Err(failure.value);
      }
      added := E.Added(added, packs[i], preserveVersions);
    }
    return Ok(added);
  }

  method Select(packages: seq<P.Package>, name: string, versions: Option<seq<string>>)
    returns (selected: seq<P.Package>)
    ensures selected == Filter(packages, Wanted(name, versions))
  {
    selected := [];
    for i := 0 to |packages|
      invariant selected == Filter(packages[..i], Wanted(name, versions))
    {
      FilterSnoc(packages, i, Wanted(name, versions));
      if packages[i].name != name {
        continue;
      }
      if versions.Some? && packages[i].FullVersion() !in versions.value {
        continue;
      }
      selected := selected + [packages[i]];
    }
    assert packages[..|packages|] == packages;
  }

  /** What `PublishMetadata` does to the store, and whether it succeeds. */
  ghost predicate Published(
      w: World, before: Store, after: Store, ok: bool, options: ReleaseOptions, suites: seq<Suite>, signing: Signing,
      date: string) {
    var plan := MetadataPlan(w, options.codename, Retrieved(w, before.objects, options), suites, signing, date);
    var run := Exec(w.hasher.md5, before, plan.ops);
    after == run.store && ok == (run.ok && plan.completes)
  }

  /** What a copy does: it fails before any call, or publishes the destination's manifest. */
  ghost predicate Copied(
      w: World, before: Store, after: Store, ok: bool, o: CopyOptions, signing: Signing, date: string) {
    var suites := CopySuites(w, before.objects, o);
    if suites.Err? then !ok && after == before
    else Published(w, before, after, ok, o.release, suites.value, signing, date)
  }

  /** What a deletion does: it fails before any call, or publishes the manifests that lost packages. */
  ghost predicate Deleted(
      w: World, before: Store, after: Store, ok: bool, o: DeleteOptions, signing: Signing, date: string) {
    var suites := DeleteSuites(w, before.objects, o);
    if suites.Err? then !ok && after == before
    else Published(w, before, after, ok, o.release, suites.value, signing, date)
  }

  /** What a verification does: it fails before any call, publishes repaired manifests, signs anew, or writes
      nothing. */
  ghost predicate Verified(
      w: World, before: Store, after: Store, ok: bool, o: VerifyOptions, signing: Signing, date: string) {
    var verified := VerifyPlan(w, before.objects, o);
    if verified.Err? then !ok && after == before
    else if verified.value.changed != [] then
      Published(w, before, after, ok, o.release, verified.value.changed, signing, date)
    else if signing.Unsigned? then ok && after == before
    else
      var plan := ReleasePlan(w, o.release.codename, Retrieved(w, before.objects, o.release), signing, date);
      var run := Exec(w.hasher.md5, before, plan.ops);
      after == run.store && ok == (run.ok && plan.completes)
  }

  method Copy(bucket: Bucket, w: World, o: CopyOptions, signing: Signing, date: string) returns (ok: bool)
    requires bucket.md5 == w.hasher.md5
    modifies bucket
    ensures Copied(w, old(bucket.View()), bucket.View(), ok, o, signing, date)
  {
    var source := RetrieveManifest(bucket, w, o.sourceCodename, o.sourceComponent, o.architecture);
    if source.Err? {
      return false;
    }
    var release := RetrieveRelease(bucket, w, o.release);
    var destination := RetrieveManifest(bucket, w, o.release.codename, o.component, o.architecture);
    if destination.Err? {
      return false;
    }
    var selected := Select(source.value, o.name, o.versions);
    if |selected| == 0 {
      return false;
    }
    var added := AddAll(destination.value, selected, o.preserveVersions, o.release.codename, o.failIfExists);
    if added.Err? {
      return false;
    }
    var suite := Suite(o.component, o.architecture, release.byHash, added.value);
    ok := PublishMetadata(bucket, w, release, o.release.codename, [suite], signing, date);
  }

  /** The manifest a deletion changes in one architecture, if any. */
  function DeleteHere(w: World, objects: Objects, o: DeleteOptions, byHash: bool, a: string): Result<seq<Suite>> {
    var packages := RetrievedPackages(w, objects, o.release.codename, o.component, a);
    if packages.Err? then Err(packages.reason)
    else if Filter(packages.value, E.Doomed(o.name, o.versions)) == [] then Ok([])
    else Ok([Suite(o.component, a, byHash, Filter(packages.value, Not(E.Doomed(o.name, o.versions))))])
  }

  lemma {:induction false} DeleteStep(
      w: World, objects: Objects, o: DeleteOptions, byHash: bool, architectures: seq<string>, i: nat)
    requires i < |architectures|
    ensures var first, rest :=
            DeleteHere(w, objects, o, byHash, architectures[i]),
            DeleteFrom(w, objects, o, byHash, architectures[i + 1..]);
            DeleteFrom(w, objects, o, byHash, architectures[i..])
            == if first.Err? then first else if rest.Err? then rest else Ok(first.value + rest.value)
  {
    assert architectures[i..][0] == architectures[i] && architectures[i..][1..] == architectures[i + 1..];
    var rest := DeleteFrom(w, objects, o, byHash, architectures[i + 1..]);
    if rest.Ok? {
      AppendEmpty(rest.value);
    }
  }

  /** One architecture of a deletion. */
  method DeleteOne(bucket: Bucket, w: World, o: DeleteOptions, byHash: bool, a: string) returns (r: Result<seq<Suite>>)
    ensures r == DeleteHere(w, bucket.objects, o, byHash, a)
  {
    var packages := RetrieveManifest(bucket, w, o.release.codename, o.component, a);
    if packages.Err? {
      return Err(packages.reason);
    }
    var deleted: seq<P.Package>, retained: seq<P.Package> := [], [];
    ghost var doomed := E.Doomed(o.name, o.versions);
    for i := 0 to |packages.value|
      invariant deleted == Filter(packages.value[..i], doomed) && retained == Filter(packages.value[..i], Not(doomed))
    {
      FilterSnoc(packages.value, i, doomed);
      FilterSnoc(packages.value, i, Not(doomed));
      var remove := E.ToRemove(packages.value[i], o.name, o.versions);
      if remove {
        deleted := deleted + [packages.value[i]];
      } else {
        retained := retained + [packages.value[i]];
      }
    }
    assert packages.value[..|packages.value|] == packages.value;
    if |deleted| == 0 {
      return Ok([]);
    }
    return Ok([Suite(o.component, a, byHash, retained)]);
  }

  /** Suites already found, followed by the outcome for the rest. */
  function Then(done: seq<Suite>, rest: Result<seq<Suite>>): Result<seq<Suite>> {
    if rest.Err? then rest else Ok(done + rest.value)
  }

  method Delete(bucket: Bucket, w: World, o: DeleteOptions, signing: Signing, date: string) returns (ok: bool)
    requires bucket.md5 == w.hasher.md5
    modifies bucket
    ensures Deleted(w, old(bucket.View()), bucket.View(), ok, o, signing, date)
  {
    var release := RetrieveRelease(bucket, w, o.release);
    var architectures := if o.architecture == "all" then release.architectures else [o.architecture];
    var changed := DeleteEach(bucket, w, o, release.byHash, architectures);
    if changed.Err? || |changed.value| == 0 {
      return false;
    }
    ok := PublishMetadata(bucket, w, release, o.release.codename, changed.value, signing, date);
  }

  method DeleteEach(bucket: Bucket, w: World, o: DeleteOptions, byHash: bool, architectures: seq<string>)
    returns (r: Result<seq<Suite>>)
    ensures r == DeleteFrom(w, bucket.objects, o, byHash, architectures)
  {
    var changed: seq<Suite> := [];
    ghost var all := DeleteFrom(w, bucket.objects, o, byHash, architectures);
    assert architectures[0..] == architectures;
    if all.Ok? {
      AppendEmpty(all.value);
    }
    for i := 0 to |architectures|
      invariant Then(changed, DeleteFrom(w, bucket.objects, o, byHash, architectures[i..])) == all
    {
      DeleteStep(w, bucket.objects, o, byHash, architectures, i);
      var one := DeleteOne(bucket, w, o, byHash, architectures[i]);
      if one.Err? {
        return Err(one.reason);
      }
      ghost var rest := DeleteFrom(w, bucket.objects, o, byHash, architectures[i + 1..]);
      if rest.Ok? {
        Assoc(changed, one.value, rest.value);
      }
      changed := changed + one.value;
    }
    AppendEmpty(changed);
    return Ok(changed);
  }

  // ---- verify

  /** The packages of one manifest whose body is there. */
  method Check(bucket: Bucket, w: World, prefix: S.Prefix, codename: string, packages: seq<P.Package>)
    returns (r: Result<seq<P.Package>>)
    ensures r == Surviving(w, bucket.objects, prefix, codename, packages)
  {
    var retained: seq<P.Package> := [];
    ghost var all := Surviving(w, bucket.objects, prefix, codename, packages);
    assert packages[0..] == packages;
    if all.Ok? {
      AppendEmpty(all.value);
    }
    for i := 0 to |packages|
      invariant KeptThen(retained, Surviving(w, bucket.objects, prefix, codename, packages[i..])) == all
    {
      assert packages[i..][0] == packages[i] && packages[i..][1..] == packages[i + 1..];
      var target := Looked(prefix, w.pathOf(packages[i], codename));
      if target.Err? {
        return Err(target.reason);
      }
      var found := false;
      if target.value.Some? {
        found := bucket.Head(target.value.value);
      }
      if found {
        ghost var rest := Surviving(w, bucket.objects, prefix, codename, packages[i + 1..]);
        if rest.Ok? {
          Assoc(retained, [packages[i]], rest.value);
        }
        retained := retained + [packages[i]];
      }
    }
    AppendEmpty(retained);
    return Ok(retained);
  }

  function KeptThen(kept: seq<P.Package>, rest: Result<seq<P.Package>>): Result<seq<P.Package>> {
    if rest.Err? then rest else Ok(kept + rest.value)
  }

  method VerifyOne(bucket: Bucket, w: World, o: VerifyOptions, byHash: bool, a: string) returns (r: Result<Report>)
    ensures r == VerifyHere(w, bucket.objects, o, byHash, a)
  {
    var packages := RetrieveManifest(bucket, w, o.release.codename, o.component, a);
    if packages.Err? {
      return Err(packages.reason);
    }
    var retained := Check(bucket, w, o.prefix, o.release.codename, packages.value);
    if retained.Err? {
      return Err(retained.reason);
    }
    var missing := Missed(packages.value, retained.value);
    if o.fix && missing > 0 {
      return Ok(Report([Suite(o.component, a, byHash, retained.value)], |packages.value|, missing, missing));
    }
    return Ok(Report([], |packages.value|, missing, 0));
  }

  /** The report so far, followed by the outcome for the rest. */
  function ReportThen(done: Report, rest: Result<Report>): Result<Report> {
    if rest.Err? then rest else Ok(Plus(done, rest.value))
  }

  function BothReports(first: Result<Report>, rest: Result<Report>): Result<Report> {
    if first.Err? then first else if rest.Err? then rest else Ok(Plus(first.value, rest.value))
  }

  lemma {:induction false} ThenBoth(done: Report, first: Result<Report>, rest: Result<Report>)
    ensures ReportThen(done, BothReports(first, rest))
            == if first.Err? then first else ReportThen(Plus(done, first.value), rest)
  {
    if first.Ok? && rest.Ok? {
      Assoc(done.changed, first.value.changed, rest.value.changed);
    }
  }

  lemma {:induction false} VerifyFromBoth(
      w: World, objects: Objects, o: VerifyOptions, byHash: bool, architectures: seq<string>)
    requires architectures != []
    ensures VerifyFrom(w, objects, o, byHash, architectures)
            == BothReports(VerifyHere(w, objects, o, byHash, architectures[0]),
                           VerifyFrom(w, objects, o, byHash, architectures[1..]))
  {}

  lemma {:induction false} ReportStep(
      w: World, objects: Objects, o: VerifyOptions, byHash: bool, architectures: seq<string>, i: nat, done: Report)
    requires i < |architectures|
    ensures var first := VerifyHere(w, objects, o, byHash, architectures[i]);
            var rest := VerifyFrom(w, objects, o, byHash, architectures[i + 1..]);
            ReportThen(done, VerifyFrom(w, objects, o, byHash, architectures[i..]))
            == if first.Err? then first else ReportThen(Plus(done, first.value), rest)
  {
    var now := architectures[i..];
    assert now[0] == architectures[i] && now[1..] == architectures[i + 1..];
    VerifyFromBoth(w, objects, o, byHash, now);
    ThenBoth(done, VerifyHere(w, objects, o, byHash, now[0]), VerifyFrom(w, objects, o, byHash, now[1..]));
  }

  /** The next architecture, added to the report so far. */
  method VerifyNext(
      bucket: Bucket, w: World, o: VerifyOptions, byHash: bool, architectures: seq<string>, i: nat, done: Report)
    returns (r: Result<Report>)
    requires i < |architectures|
    ensures ReportThen(done, VerifyFrom(w, bucket.objects, o, byHash, architectures[i..]))
            == if r.Err? then r
            else ReportThen(r.value, VerifyFrom(w, bucket.objects, o, byHash, architectures[i + 1..]))
  {
    ReportStep(w, bucket.objects, o, byHash, architectures, i, done);
    r := VerifyOne(bucket, w, o, byHash, architectures[i]);
    if r.Ok? {
      r := Ok(Plus(done, r.value));
    }
  }

  lemma {:induction false} ReportStart(all: Result<Report>)
    ensures ReportThen(NOTHING_REPORTED, all) == all
  {
    if all.Ok? {
      AppendEmpty(all.value.changed);
    }
  }

  lemma {:induction false} WholeSlice<T>(s: seq<T>)
    ensures s[0..] == s
  {}

  lemma {:induction false} ReportEnd(w: World, objects: Objects, o: VerifyOptions, byHash: bool, done: Report)
    ensures ReportThen(done, VerifyFrom(w, objects, o, byHash, [])) == Ok(done)
  {
    AppendEmpty(done.changed);
  }

  const NOTHING_REPORTED := Report([], 0, 0, 0)

  method VerifyEach(bucket: Bucket, w: World, o: VerifyOptions, byHash: bool, architectures: seq<string>)
    returns (r: Result<Report>)
    ensures r == VerifyFrom(w, bucket.objects, o, byHash, architectures)
  {
    var report := NOTHING_REPORTED;
    ghost var all := VerifyFrom(w, bucket.objects, o, byHash, architectures);
    WholeSlice(architectures);
    ReportStart(all);
    for i := 0 to |architectures|
      invariant ReportThen(report, VerifyFrom(w, bucket.objects, o, byHash, architectures[i..])) == all
    {
      var next := VerifyNext(bucket, w, o, byHash, architectures, i, report);
      if next.Err? {
        return next;
      }
      report := next.value;
    }
    assert architectures[|architectures|..] == [];
    ReportEnd(w, bucket.objects, o, byHash, report);
    return Ok(report);
  }

  /** Verifies one component; publishes repaired manifests, or only signs anew when nothing changed. */
  method Verify(bucket: Bucket, w: World, o: VerifyOptions, signing: Signing, date: string)
    returns (ok: bool, report: Report)
    requires bucket.md5 == w.hasher.md5
    modifies bucket
    ensures Verified(w, old(bucket.View()), bucket.View(), ok, o, signing, date)
    ensures VerifyPlan(w, old(bucket.objects), o).Ok? ==> report == VerifyPlan(w, old(bucket.objects), o).value
  {
    var release := RetrieveRelease(bucket, w, o.release);
    var verified := VerifyEach(bucket, w, o, release.byHash, release.architectures);
    if verified.Err? {
      return false, Report([], 0, 0, 0);
    }
    report := verified.value;
    if |report.changed| > 0 {
      ok := PublishMetadata(bucket, w, release, o.release.codename, report.changed, signing, date);
    } else if !signing.Unsigned? {
      ok := PublishRelease(bucket, w, release, o.release.codename, signing, date);
    } else {
      ok := true;
    }
  }
}
