/** The publishing code itself, run against a store that may stop it after any call, and proved to make exactly the
    planned calls. */
module Publisher {
  import opened Text
  import opened R = Release
  import opened Keys
  import opened Calls
  import opened Worlds = World
  import opened Publication

  // ---- Manifest

  method BuildArtifacts(w: World, codename: string, suite: Suite) returns (r: Result<Prepared>)
    ensures r == Build(w, codename, suite)
  {
    var manifest := w.printPackages(suite.packages, codename);
    if manifest.Err? {
      return Err(manifest.reason);
    }
    return Ok(Prepared(suite.component, suite.architecture, suite.byHash, manifest.value,
        w.hasher.gzip(manifest.value)));
  }

  method PublishByHash(bucket: Bucket, w: World, codename: string, p: Prepared) returns (ok: bool)
    requires bucket.md5 == w.hasher.md5
    modifies bucket
    ensures Attempt(bucket.View(), ok) == Exec(w.hasher.md5, old(bucket.View()), ByHashOps(w, codename, p))
  {
    if !p.byHash {
      return true;
    }
    ghost var ops := ByHashOps(w, codename, p);
    ExecTwo(w.hasher.md5, bucket.View(), ops[0], ops[1]);
    ok := bucket.Put(ByHash(codename, p.component, p.architecture, w.hasher.sha256(p.plain)), p.plain, CreateOnly);
    if !ok {
      return;
    }
    ok := bucket.Put(ByHash(codename, p.component, p.architecture, w.hasher.sha256(p.gzip)), p.gzip, CreateOnly);
  }

  method PublishCanonical(bucket: Bucket, w: World, codename: string, p: Prepared) returns (ok: bool)
    requires bucket.md5 == w.hasher.md5
    modifies bucket
    ensures Attempt(bucket.View(), ok) == Exec(w.hasher.md5, old(bucket.View()), CanonicalOps(codename, p))
  {
    ghost var ops := CanonicalOps(codename, p);
    ExecTwo(w.hasher.md5, bucket.View(), ops[0], ops[1]);
    ok := bucket.Put(Index(codename, p.component, p.architecture, false), p.plain, Overwrite);
    if !ok {
      return;
    }
    ok := bucket.Put(Index(codename, p.component, p.architecture, true), p.gzip, Overwrite);
  }

  // ---- Release

  method FindMissing(release: R.Release, component: string) returns (created: seq<Suite>)
    ensures created == MissingFor(release.View(), component, RELEASE_ARCHITECTURES)
  {
    created := [];
    var all := RELEASE_ARCHITECTURES;
    ghost var r := release.View();
    assert all[0..] == all;
    AppendEmpty(MissingFor(r, component, all));
    for i := 0 to |all|
      invariant created + MissingFor(r, component, all[i..]) == MissingFor(r, component, all)
    {
      assert all[i..][1..] == all[i + 1..];
      var packagesPath := component + "/binary-" + all[i] + "/Packages";
      assert packagesPath + "" == packagesPath;
      if packagesPath in release.files || all[i] !in release.architectures {
        continue;
      }
      var suite := Suite(component, all[i], release.byHash, []);
      Assoc(created, [suite], MissingFor(r, component, all[i + 1..]));
      created := created + [suite];
    }
    AppendEmpty(created);
  }

  method MissingManifests(release: R.Release) returns (created: seq<Suite>)
    ensures created == Missing(release.View())
  {
    created := [];
    var components := release.components;
    ghost var r := release.View();
    assert components[0..] == components;
    AppendEmpty(MissingIn(r, components));
    for i := 0 to |components|
      invariant created + MissingIn(r, components[i..]) == MissingIn(r, components)
    {
      var found := FindMissing(release, components[i]);
      assert components[i..][1..] == components[i + 1..];
      Assoc(created, found, MissingIn(r, components[i + 1..]));
      created := created + found;
    }
    AppendEmpty(created);
  }

  /** What preparing still has to deliver. */
  function After(done: seq<Prepared>, rest: Result<seq<Prepared>>): Result<seq<Prepared>> {
    if rest.Err? then rest else Ok(done + rest.value)
  }

  lemma {:induction false} AfterStep(w: World, codename: string, done: seq<Prepared>, suites: seq<Suite>, i: nat)
    requires i < |suites|
    ensures var first, rest := Build(w, codename, suites[i]), BuildAll(w, codename, suites[i + 1..]);
            After(done, BuildAll(w, codename, suites[i..]))
            == if first.Err? then Err(first.reason) else After(done + [first.value], rest)
  {
    assert suites[i..][0] == suites[i] && suites[i..][1..] == suites[i + 1..];
    var first, rest := Build(w, codename, suites[i]), BuildAll(w, codename, suites[i + 1..]);
    if first.Ok? && rest.Ok? {
      Assoc(done, [first.value], rest.value);
    }
  }

  /** The prepare loop: builds each manifest's artifacts and records them in the Release. */
  method PrepareAll(w: World, release: R.Release, codename: string, suites: seq<Suite>)
    returns (r: Result<seq<Prepared>>)
    modifies release
    ensures r == BuildAll(w, codename, suites)
    ensures r.Ok? ==> release.View() == RecordAll(w, old(release.View()), r.value)
  {
    var prepared: seq<Prepared> := [];
    ghost var all := BuildAll(w, codename, suites);
    assert suites[0..] == suites;
    if all.Ok? {
      AppendEmpty(all.value);
    }
    for i := 0 to |suites|
      invariant After(prepared, BuildAll(w, codename, suites[i..])) == all
      invariant release.View() == RecordAll(w, old(release.View()), prepared)
    {
      AfterStep(w, codename, prepared, suites, i);
      var artifacts := BuildArtifacts(w, codename, suites[i]);
      if artifacts.Err? {
        return Err(artifacts.reason);
      }
      var p := artifacts.value;
      RecordAllAppend(w, old(release.View()), prepared, [p]);
      release.UpdateManifest(p.component, p.architecture, Entries(w, p));
      assert RecordAll(w, RecordAll(w, old(release.View()), prepared), [p])
             == Record(w, RecordAll(w, old(release.View()), prepared), p)
      by { RecordOne(w, RecordAll(w, old(release.View()), prepared), p); }
      prepared := prepared + [p];
    }
    AppendEmpty(prepared);
    return Ok(prepared);
  }

  lemma {:induction false} RecordOne(w: World, r: ReleaseData, p: Prepared)
    ensures RecordAll(w, r, [p]) == Record(w, r, p)
  {
    assert [p][1..] == [];
  }

  method PublishEach(bucket: Bucket, w: World, codename: string, prepared: seq<Prepared>) returns (ok: bool)
    requires bucket.md5 == w.hasher.md5
    modifies bucket
    ensures Attempt(bucket.View(), ok) == Exec(w.hasher.md5, old(bucket.View()), EachOps(w, codename, prepared))
  {
    ghost var whole := Exec(w.hasher.md5, bucket.View(), EachOps(w, codename, prepared));
    assert prepared[0..] == prepared;
    for i := 0 to |prepared|
      invariant Exec(w.hasher.md5, bucket.View(), EachOps(w, codename, prepared[i..])) == whole
    {
      var p := prepared[i];
      assert prepared[i..][0] == p && prepared[i..][1..] == prepared[i + 1..];
      ExecAppend(w.hasher.md5, bucket.View(), ByHashOps(w, codename, p) + CanonicalOps(codename, p),
          EachOps(w, codename, prepared[i + 1..]));
      ExecAppend(w.hasher.md5, bucket.View(), ByHashOps(w, codename, p), CanonicalOps(codename, p));
      ok := PublishByHash(bucket, w, codename, p);
      if !ok {
        return;
      }
      ok := PublishCanonical(bucket, w, codename, p);
      if !ok {
        return;
      }
    }
    assert prepared[|prepared|..] == [];
    return true;
  }

  method PublishTriple(bucket: Bucket, w: World, codename: string, text: string, signing: Signing) returns (ok: bool)
    requires bucket.md5 == w.hasher.md5
    modifies bucket
    ensures var run := Exec(w.hasher.md5, old(bucket.View()), TripleOps(codename, text, signing));
            bucket.View() == run.store && ok == (run.ok && !Refused(signing))
  {
    if Refused(signing) {
      return false;
    }
    ghost var ops := TripleOps(codename, text, signing);
    ghost var first := Step(w.hasher.md5, bucket.View(), ops[0]);
    ExecThree(w.hasher.md5, bucket.View(), ops[0], ops[1], ops[2]);
    ExecTwo(w.hasher.md5, first.store, ops[1], ops[2]);
    if signing.Unsigned? {
      ok := bucket.Delete(Detached(codename));
      if !ok {
        return;
      }
      ok := bucket.Delete(InRelease(codename));
      if !ok {
        return;
      }
    }
    ok := bucket.Put(ReleaseFile(codename), text, Overwrite);
    if !ok || signing.Unsigned? {
      return;
    }
    ok := bucket.Put(Detached(codename), signing.detached, Overwrite);
    if !ok {
      return;
    }
    ok := bucket.Put(InRelease(codename), signing.inRelease, Overwrite);
  }

  /** `Release.Publish`: validates the other manifests, signs, and stores the Release and its signatures. */
  method PublishRelease(bucket: Bucket, w: World, release: R.Release, codename: string, signing: Signing, date: string)
    returns (ok: bool)
    requires bucket.md5 == w.hasher.md5
    modifies bucket, release
    ensures var plan := ReleasePlan(w, codename, old(release.View()), signing, date);
            var run := Exec(w.hasher.md5, old(bucket.View()), plan.ops);
            bucket.View() == run.store && ok == (run.ok && plan.completes)
  {
    ghost var r, before := release.View(), bucket.View();
    var missing := MissingManifests(release);
    var created := PrepareAll(w, release, codename, missing);
    if created.Err? {
      return false;
    }
    ghost var rest := TripleOps(codename, w.printRelease(RecordAll(w, r, created.value), date), signing);
    ExecAppend(w.hasher.md5, before, EachOps(w, codename, created.value), rest);
    ok := PublishEach(bucket, w, codename, created.value);
    if !ok {
      return;
    }
    ok := PublishTriple(bucket, w, codename, w.printRelease(release.View(), date), signing);
  }

  method PublishAllByHash(bucket: Bucket, w: World, codename: string, prepared: seq<Prepared>) returns (ok: bool)
    requires bucket.md5 == w.hasher.md5
    modifies bucket
    ensures Attempt(bucket.View(), ok) == Exec(w.hasher.md5, old(bucket.View()), AllByHashOps(w, codename, prepared))
  {
    ghost var whole := Exec(w.hasher.md5, bucket.View(), AllByHashOps(w, codename, prepared));
    assert prepared[0..] == prepared;
    for i := 0 to |prepared|
      invariant Exec(w.hasher.md5, bucket.View(), AllByHashOps(w, codename, prepared[i..])) == whole
    {
      assert prepared[i..][0] == prepared[i] && prepared[i..][1..] == prepared[i + 1..];
      ExecAppend(w.hasher.md5, bucket.View(), ByHashOps(w, codename, prepared[i]),
          AllByHashOps(w, codename, prepared[i + 1..]));
      ok := PublishByHash(bucket, w, codename, prepared[i]);
      if !ok {
        return;
      }
    }
    assert prepared[|prepared|..] == [];
    return true;
  }

  method PublishAllCanonical(bucket: Bucket, w: World, codename: string, prepared: seq<Prepared>) returns (ok: bool)
    requires bucket.md5 == w.hasher.md5
    modifies bucket
    ensures Attempt(bucket.View(), ok) == Exec(w.hasher.md5, old(bucket.View()), AllCanonicalOps(codename, prepared))
  {
    ghost var whole := Exec(w.hasher.md5, bucket.View(), AllCanonicalOps(codename, prepared));
    assert prepared[0..] == prepared;
    for i := 0 to |prepared|
      invariant Exec(w.hasher.md5, bucket.View(), AllCanonicalOps(codename, prepared[i..])) == whole
    {
      assert prepared[i..][0] == prepared[i] && prepared[i..][1..] == prepared[i + 1..];
      ExecAppend(w.hasher.md5, bucket.View(), CanonicalOps(codename, prepared[i]),
          AllCanonicalOps(codename, prepared[i + 1..]));
      ok := PublishCanonical(bucket, w, codename, prepared[i]);
      if !ok {
        return;
      }
    }
    assert prepared[|prepared|..] == [];
    return true;
  }

  /** Prepares the changed manifests, then the ones still missing. */
  method PrepareRun(w: World, release: R.Release, codename: string, suites: seq<Suite>)
    returns (r: Result<seq<Prepared>>)
    modifies release
    ensures r == PreparedFor(w, codename, old(release.View()), suites)
    ensures r.Ok? ==> release.View() == FinalRelease(w, codename, old(release.View()), suites)
  {
    ghost var before := release.View();
    var changed := PrepareAll(w, release, codename, suites);
    if changed.Err? {
      return changed;
    }
    var missing := MissingManifests(release);
    var more := PrepareAll(w, release, codename, missing);
    if more.Err? {
      return more;
    }
    RecordAllAppend(w, before, changed.value, more.value);
    return Ok(changed.value + more.value);
  }

  /** By-hash objects, canonical indexes and the Release, after everything was prepared. */
  method PublishPrepared(
      bucket: Bucket, w: World, release: R.Release, codename: string, prepared: seq<Prepared>, signing: Signing,
      date: string)
    returns (ok: bool)
    requires bucket.md5 == w.hasher.md5
    modifies bucket, release
    ensures var last := ReleasePlan(w, codename, old(release.View()), signing, date);
            var run := Exec(w.hasher.md5, old(bucket.View()),
                            AllByHashOps(w, codename, prepared) + AllCanonicalOps(codename, prepared) + last.ops);
            bucket.View() == run.store && ok == (run.ok && last.completes)
  {
    ghost var before := bucket.View();
    ghost var last := ReleasePlan(w, codename, release.View(), signing, date).ops;
    ghost var hashed, canonical := AllByHashOps(w, codename, prepared), AllCanonicalOps(codename, prepared);
    ExecAppend(w.hasher.md5, before, hashed + canonical, last);
    ExecAppend(w.hasher.md5, before, hashed, canonical);
    ok := PublishAllByHash(bucket, w, codename, prepared);
    if !ok {
      return;
    }
    ok := PublishAllCanonical(bucket, w, codename, prepared);
    if !ok {
      return;
    }
    ok := PublishRelease(bucket, w, release, codename, signing, date);
  }

  /** `PublishMetadata`: prepares everything first, then all by-hash objects, all canonical ones, the Release. */
  method PublishMetadata(
      bucket: Bucket, w: World, release: R.Release, codename: string, suites: seq<Suite>, signing: Signing,
      date: string)
    returns (ok: bool)
    requires bucket.md5 == w.hasher.md5
    modifies bucket, release
    ensures var plan := MetadataPlan(w, codename, old(release.View()), suites, signing, date);
            var run := Exec(w.hasher.md5, old(bucket.View()), plan.ops);
            bucket.View() == run.store && ok == (run.ok && plan.completes)
  {
    var prepared := PrepareRun(w, release, codename, suites);
    if prepared.Err? {
      return false;
    }
    ok := PublishPrepared(bucket, w, release, codename, prepared.value, signing, date);
  }
}
