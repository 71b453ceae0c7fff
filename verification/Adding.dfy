/** What adding one package after another leaves of a manifest, and when it is refused, said of the packages' own
    names, versions and paths. */
module Adding {
  import opened Text
  import opened Lists
  import P = Package
  import E = Edits
  import Paths
  import opened Commands

  /** A package takes the place of those of its name, or of its name and version when versions are kept apart. */
  predicate Supersedes(later: P.Package, earlier: P.Package, preserveVersions: bool) {
    later.name == earlier.name && (preserveVersions ==> later.FullVersion() == earlier.FullVersion())
  }

  predicate Outlives(p: P.Package, packs: seq<P.Package>, preserveVersions: bool) {
    forall j :: 0 <= j < |packs| ==> !Supersedes(packs[j], p, preserveVersions)
  }

  /** The packages whose place none of `packs` takes, in order. */
  function Outliving(packages: seq<P.Package>, packs: seq<P.Package>, preserveVersions: bool): seq<P.Package> {
    Filter(packages, (p: P.Package) => Outlives(p, packs, preserveVersions))
  }

  /** The packages of a list whose place no later one of it takes, in order. */
  function LastOnes(packs: seq<P.Package>, preserveVersions: bool): seq<P.Package> {
    if packs == [] then []
    else
      var rest := LastOnes(packs[1..], preserveVersions);
      if Outlives(packs[0], packs[1..], preserveVersions) then [packs[0]] + rest else rest
  }

  /** The manifest after `packs` were added to `packages`. */
  function WithAdded(packages: seq<P.Package>, packs: seq<P.Package>, preserveVersions: bool): seq<P.Package> {
    Outliving(packages, packs, preserveVersions) + LastOnes(packs, preserveVersions)
  }

  // ---- the manifest

  lemma {:induction false} OutlivesCons(p: P.Package, first: P.Package, rest: seq<P.Package>, preserveVersions: bool)
    ensures Outlives(p, [first] + rest, preserveVersions)
            <==> !Supersedes(first, p, preserveVersions) && Outlives(p, rest, preserveVersions)
  {
    var packs := [first] + rest;
    assert forall j :: 0 <= j < |rest| ==> packs[j + 1] == rest[j];
    if Outlives(p, packs, preserveVersions) {
      forall j | 0 <= j < |rest| ensures !Supersedes(rest[j], p, preserveVersions) {
        assert !Supersedes(packs[j + 1], p, preserveVersions);
      }
      assert !Supersedes(packs[0], p, preserveVersions);
    }
  }

  lemma {:induction false} KeptIsOutliving(
      packages: seq<P.Package>, first: P.Package, rest: seq<P.Package>, preserveVersions: bool)
    ensures Outliving(Filter(packages, E.Kept(first, preserveVersions)), rest, preserveVersions)
            == Outliving(packages, [first] + rest, preserveVersions)
  {
    if packages != [] {
      KeptIsOutliving(packages[1..], first, rest, preserveVersions);
      OutlivesCons(packages[0], first, rest, preserveVersions);
      var kept := Filter(packages[1..], E.Kept(first, preserveVersions));
      assert ([packages[0]] + kept)[1..] == kept;
    }
  }

  lemma {:induction false} OneOutliving(p: P.Package, packs: seq<P.Package>, preserveVersions: bool)
    ensures Outliving([p], packs, preserveVersions) == if Outlives(p, packs, preserveVersions) then [p] else []
  {
    assert [p][1..] == [];
  }

  lemma {:induction false} OutlivingNothing(packages: seq<P.Package>, preserveVersions: bool)
    ensures WithAdded(packages, [], preserveVersions) == packages
  {
    FilterEverything(packages, (p: P.Package) => Outlives(p, [], preserveVersions));
    AppendEmpty(packages);
  }

  lemma {:induction false} AddedFirst(
      packages: seq<P.Package>, first: P.Package, rest: seq<P.Package>, preserveVersions: bool)
    ensures WithAdded(E.Added(packages, first, preserveVersions), rest, preserveVersions)
            == WithAdded(packages, [first] + rest, preserveVersions)
  {
    var kept := Filter(packages, E.Kept(first, preserveVersions));
    KeptIsOutliving(packages, first, rest, preserveVersions);
    OneOutliving(first, rest, preserveVersions);
    FilterAppend(kept, [first], (p: P.Package) => Outlives(p, rest, preserveVersions));
    assert ([first] + rest)[1..] == rest;
    Assoc(Outliving(kept, rest, preserveVersions), Outliving([first], rest, preserveVersions),
        LastOnes(rest, preserveVersions));
  }

  /** Adding a list leaves the packages whose place none of it takes, in order, and then those of the list whose place
      no later one takes, in order. */
  lemma {:induction false} AddedExactly(
      packages: seq<P.Package>, packs: seq<P.Package>, preserveVersions: bool, codename: string, failIfExists: bool)
    requires AddedAll(packages, packs, preserveVersions, codename, failIfExists).Ok?
    ensures AddedAll(packages, packs, preserveVersions, codename, failIfExists).value
            == WithAdded(packages, packs, preserveVersions)
    decreases |packs|
  {
    if packs == [] {
      OutlivingNothing(packages, preserveVersions);
    } else {
      AddedExactly(E.Added(packages, packs[0], preserveVersions), packs[1..], preserveVersions, codename, failIfExists);
      AddedFirst(packages, packs[0], packs[1..], preserveVersions);
      assert [packs[0]] + packs[1..] == packs;
    }
  }

  // ---- how often a package is there

  function Count(packages: seq<P.Package>, p: P.Package): nat {
    multiset(packages)[p]
  }

  lemma {:induction false} CountFilter(packages: seq<P.Package>, f: P.Package -> bool, p: P.Package)
    ensures Count(Filter(packages, f), p) == if f(p) then Count(packages, p) else 0
  {
    if packages != [] {
      CountFilter(packages[1..], f, p);
      assert packages == [packages[0]] + packages[1..];
    }
  }

  /** The package stands at this place of the list, and none behind it takes its place. */
  predicate LastAt(p: P.Package, packs: seq<P.Package>, i: nat, preserveVersions: bool) {
    i < |packs| && packs[i] == p && forall j :: i < j < |packs| ==> !Supersedes(packs[j], p, preserveVersions)
  }

  /** The package is one of the list, and no later one takes its place. */
  ghost predicate LastIn(p: P.Package, packs: seq<P.Package>, preserveVersions: bool) {
    exists i: nat :: LastAt(p, packs, i, preserveVersions)
  }

  lemma {:induction false} LastAtTail(p: P.Package, packs: seq<P.Package>, i: nat, preserveVersions: bool)
    requires packs != []
    ensures LastAt(p, packs, i + 1, preserveVersions) <==> LastAt(p, packs[1..], i, preserveVersions)
  {
    var rest := packs[1..];
    assert forall j :: 0 <= j < |rest| ==> rest[j] == packs[j + 1];
    assert forall j :: 0 < j < |packs| ==> packs[j] == rest[j - 1];
  }

  lemma {:induction false} LastAtHead(p: P.Package, packs: seq<P.Package>, preserveVersions: bool)
    requires packs != []
    ensures LastAt(p, packs, 0, preserveVersions)
            <==> packs[0] == p && Outlives(p, packs[1..], preserveVersions)
  {
    var rest := packs[1..];
    assert forall j :: 0 <= j < |rest| ==> rest[j] == packs[j + 1];
    assert forall j :: 0 < j < |packs| ==> packs[j] == rest[j - 1];
  }

  lemma {:induction false} LastInCons(p: P.Package, packs: seq<P.Package>, preserveVersions: bool)
    requires packs != []
    ensures LastIn(p, packs, preserveVersions)
            <==> (packs[0] == p && Outlives(p, packs[1..], preserveVersions)) || LastIn(p, packs[1..], preserveVersions)
  {
    LastAtHead(p, packs, preserveVersions);
    if i: nat :| LastAt(p, packs, i, preserveVersions) {
      if i > 0 {
        LastAtTail(p, packs, i - 1, preserveVersions);
      }
    }
    if i: nat :| LastAt(p, packs[1..], i, preserveVersions) {
      LastAtTail(p, packs, i, preserveVersions);
    }
  }

  lemma {:induction false} LastInSuffix(
      p: P.Package, front: seq<P.Package>, packs: seq<P.Package>, preserveVersions: bool)
    requires LastIn(p, packs, preserveVersions)
    ensures LastIn(p, front + packs, preserveVersions)
  {
    var i: nat :| LastAt(p, packs, i, preserveVersions);
    var all := front + packs;
    assert forall j :: |front| <= j < |all| ==> all[j] == packs[j - |front|];
    assert LastAt(p, all, |front| + i, preserveVersions);
  }

  lemma {:induction false} LastInPrefix(
      p: P.Package, packs: seq<P.Package>, rest: seq<P.Package>, preserveVersions: bool)
    requires LastIn(p, packs, preserveVersions) && Outlives(p, rest, preserveVersions)
    ensures LastIn(p, packs + rest, preserveVersions)
  {
    var i: nat :| LastAt(p, packs, i, preserveVersions);
    var all := packs + rest;
    assert forall j :: |packs| <= j < |all| ==> all[j] == rest[j - |packs|];
    assert LastAt(p, all, i, preserveVersions);
  }

  lemma {:induction false} NoneLast(p: P.Package, packs: seq<P.Package>, preserveVersions: bool)
    requires Outlives(p, packs, preserveVersions)
    ensures !LastIn(p, packs, preserveVersions)
  {
    forall i: nat ensures !LastAt(p, packs, i, preserveVersions) {
      assert i < |packs| ==> !Supersedes(packs[i], p, preserveVersions);
    }
  }

  lemma {:induction false} LastOnesCount(packs: seq<P.Package>, preserveVersions: bool, p: P.Package)
    ensures Count(LastOnes(packs, preserveVersions), p) == if LastIn(p, packs, preserveVersions) then 1 else 0
  {
    if packs != [] {
      LastOnesCount(packs[1..], preserveVersions, p);
      LastInCons(p, packs, preserveVersions);
      if packs[0] == p && Outlives(p, packs[1..], preserveVersions) {
        NoneLast(p, packs[1..], preserveVersions);
      }
    }
  }

  /** After adding a list, a package of it that no later one of it replaces is there once; a package that none of the
      list replaces is there as often as before; and nothing else is there. */
  lemma {:induction false} AddedCounts(
      packages: seq<P.Package>, packs: seq<P.Package>, preserveVersions: bool, p: P.Package)
    ensures Count(WithAdded(packages, packs, preserveVersions), p)
            == if LastIn(p, packs, preserveVersions) then 1
               else if Outlives(p, packs, preserveVersions) then Count(packages, p) else 0
  {
    CountFilter(packages, (q: P.Package) => Outlives(q, packs, preserveVersions), p);
    LastOnesCount(packs, preserveVersions, p);
    if Outlives(p, packs, preserveVersions) {
      NoneLast(p, packs, preserveVersions);
    }
  }

  /** Nothing but what was there or is added. */
  lemma {:induction false} AddedMembers(
      packages: seq<P.Package>, packs: seq<P.Package>, preserveVersions: bool, p: P.Package)
    requires p in WithAdded(packages, packs, preserveVersions)
    ensures p in packages || p in packs
  {
    AddedCounts(packages, packs, preserveVersions, p);
    if LastIn(p, packs, preserveVersions) {
      var i: nat :| LastAt(p, packs, i, preserveVersions);
    }
  }

  // ---- refusals

  lemma {:induction false} AddedLast(
      packages: seq<P.Package>, packs: seq<P.Package>, pack: P.Package, preserveVersions: bool, codename: string,
      failIfExists: bool)
    ensures var before := AddedAll(packages, packs, preserveVersions, codename, failIfExists);
            AddedAll(packages, packs + [pack], preserveVersions, codename, failIfExists)
            == if before.Err? then before
               else if E.AddFailure(before.value, pack, codename, failIfExists).Some? then
                 Err(E.AddFailure(before.value, pack, codename, failIfExists).value)
               else Ok(E.Added(before.value, pack, preserveVersions))
    decreases |packs|
  {
    if packs == [] {
      AppendEmpty([pack]);
      assert [pack][1..] == [];
    } else {
      assert (packs + [pack])[0] == packs[0] && (packs + [pack])[1..] == packs[1..] + [pack];
      if E.AddFailure(packages, packs[0], codename, failIfExists).None? {
        AddedLast(E.Added(packages, packs[0], preserveVersions), packs[1..], pack, preserveVersions, codename,
            failIfExists);
      }
    }
  }

  /** The existing package has the same name and version, and no path or another file name. */
  predicate Clashes(existing: P.Package, pack: P.Package, codename: string) {
    var there, wanted := P.RepositoryFilename(existing, codename), P.RepositoryFilename(pack, codename);
    && existing.name == pack.name && existing.FullVersion() == pack.FullVersion()
    && (there.Ok? && wanted.Ok? ==> Paths.Base(there.value) != Paths.Base(wanted.value))
  }

  /** The `i`-th package meets one that clashes with it, or has no path itself. */
  predicate RefusedAt(packages: seq<P.Package>, packs: seq<P.Package>, preserveVersions: bool, codename: string, i: nat)
    requires i < |packs|
  {
    || P.RepositoryFilename(packs[i], codename).Err?
    || exists q :: q in WithAdded(packages, packs[..i], preserveVersions) && Clashes(q, packs[i], codename)
  }

  lemma {:induction false} FailureExactly(
      packages: seq<P.Package>, pack: P.Package, codename: string, failIfExists: bool)
    ensures E.AddFailure(packages, pack, codename, failIfExists).Some?
            <==> failIfExists && (P.RepositoryFilename(pack, codename).Err?
                 || exists q :: q in packages && Clashes(q, pack, codename))
  {
    var path := P.RepositoryFilename(pack, codename);
    if path.Ok? {
      E.ConflictExactly(packages, pack, path.value, codename);
      if q :| q in packages && Clashes(q, pack, codename) {
        var i :| 0 <= i < |packages| && packages[i] == q;
        assert E.SamePair(packages[i], pack) && !E.SameFile(P.RepositoryFilename(packages[i], codename), path.value);
      }
      if i :| 0 <= i < |packages| && E.SamePair(packages[i], pack)
              && !E.SameFile(P.RepositoryFilename(packages[i], codename), path.value) {
        assert Clashes(packages[i], pack, codename);
      }
    }
  }

  ghost predicate SomeRefused(packages: seq<P.Package>, packs: seq<P.Package>, preserveVersions: bool, codename: string)
  {
    exists i: nat :: i < |packs| && RefusedAt(packages, packs, preserveVersions, codename, i)
  }

  lemma {:induction false} RefusedLast(
      packages: seq<P.Package>, packs: seq<P.Package>, pack: P.Package, preserveVersions: bool, codename: string)
    ensures SomeRefused(packages, packs + [pack], preserveVersions, codename)
            <==> SomeRefused(packages, packs, preserveVersions, codename)
                 || P.RepositoryFilename(pack, codename).Err?
                 || exists q :: q in WithAdded(packages, packs, preserveVersions) && Clashes(q, pack, codename)
  {
    var all := packs + [pack];
    assert all[..|packs|] == packs && all[|packs|] == pack;
    forall i: nat | i < |packs|
      ensures RefusedAt(packages, all, preserveVersions, codename, i)
              <==> RefusedAt(packages, packs, preserveVersions, codename, i)
    {
      assert all[..i] == packs[..i] && all[i] == packs[i];
    }
    if RefusedAt(packages, all, preserveVersions, codename, |packs|) {
      assert SomeRefused(packages, all, preserveVersions, codename);
    }
  }

  /** Adding is refused exactly when it must not replace files and one of the packages has no path, or meets a package
      of its name and version with another file name or without a path. */
  lemma {:induction false} RefusedExactly(
      packages: seq<P.Package>, packs: seq<P.Package>, preserveVersions: bool, codename: string, failIfExists: bool)
    ensures AddedAll(packages, packs, preserveVersions, codename, failIfExists).Err?
            <==> failIfExists && SomeRefused(packages, packs, preserveVersions, codename)
    decreases |packs|
  {
    if packs != [] {
      var init, last := packs[..|packs| - 1], packs[|packs| - 1];
      var before := AddedAll(packages, init, preserveVersions, codename, failIfExists);
      assert init + [last] == packs;
      RefusedExactly(packages, init, preserveVersions, codename, failIfExists);
      AddedLast(packages, init, last, preserveVersions, codename, failIfExists);
      RefusedLast(packages, init, last, preserveVersions, codename);
      if before.Ok? {
        AddedExactly(packages, init, preserveVersions, codename, failIfExists);
        FailureExactly(before.value, last, codename, failIfExists);
      }
    }
  }
}
