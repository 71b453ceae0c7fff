/** The manifest in memory: adding and deleting packages by compacting the backing array in place. */
module Edits {
  import opened Text
  import opened Lists
  import opened Digests
  import opened Package
  import opened Index = Manifest
  import Paths

  predicate SamePair(p: Package, q: Package) {
    p.name == q.name && p.FullVersion() == q.FullVersion()
  }

  // ---- Add

  predicate Replaced(existing: Package, pack: Package, preserveVersions: bool) {
    existing.name == pack.name && (preserveVersions ==> existing.FullVersion() == pack.FullVersion())
  }

  function Kept(pack: Package, preserveVersions: bool): Package -> bool {
    (existing: Package) => !Replaced(existing, pack, preserveVersions)
  }

  function Added(packages: seq<Package>, pack: Package, preserveVersions: bool): seq<Package> {
    Filter(packages, Kept(pack, preserveVersions)) + [pack]
  }

  const CONFLICT := "package already exists with different contents"

  /** The first reason why a package of the same name and version stands in the way of `filename`. */
  function Conflict(packages: seq<Package>, pack: Package, filename: string, codename: string): Option<string> {
    if packages == [] then None
    else if !SamePair(packages[0], pack) then Conflict(packages[1..], pack, filename, codename)
    else
      var existing := RepositoryFilename(packages[0], codename);
      if existing.Err? then Some(existing.reason)
      else if Paths.Base(existing.value) != Paths.Base(filename) then Some(CONFLICT)
      else Conflict(packages[1..], pack, filename, codename)
  }

  /** Why `Add` refuses when it must not replace an existing file. */
  function AddFailure(packages: seq<Package>, pack: Package, codename: string, failIfExists: bool): Option<string> {
    if !failIfExists then None
    else
      var filename := RepositoryFilename(pack, codename);
      if filename.Err? then Some(filename.reason) else Conflict(packages, pack, filename.value, codename)
  }

  // ---- DeletePackage

  /** `versions` is the caller's list; `None` stands for the nil slice, which deletes every version. */
  predicate Deleted(pack: Package, name: string, versions: Option<seq<string>>) {
    pack.name == name
    && (versions.Some? ==>
          || pack.version.upstream in versions.value
          || pack.version.upstream + "-" + pack.version.iteration in versions.value
          || pack.FullVersion() in versions.value)
  }

  function Doomed(name: string, versions: Option<seq<string>>): Package -> bool {
    (pack: Package) => Deleted(pack, name, versions)
  }

  // ---- the manifest object

  class Manifest {
    const codename: string
    const component: string
    const architecture: string
    const byHash: bool
    const failIfExists: bool
    const skipPackageUpload: bool
    var slots: array<Package>
    var count: nat
    var pendingUploads: seq<Package>
    var files: map<string, FileHashes>

    ghost predicate Valid()
      reads this
    {
      count <= slots.Length
    }

    ghost function Packages(): seq<Package>
      requires Valid()
      reads this, slots
    {
      slots[..count]
    }

    constructor (
        codename: string, component: string, architecture: string, byHash: bool, failIfExists: bool,
        skipPackageUpload: bool)
      ensures Valid() && fresh(slots) && Packages() == [] && pendingUploads == [] && files == map[]
      ensures this.codename == codename && this.component == component && this.architecture == architecture
      ensures this.byHash == byHash && this.failIfExists == failIfExists && this.skipPackageUpload == skipPackageUpload
    {
      this.codename, this.component, this.architecture := codename, component, architecture;
      this.byHash, this.failIfExists, this.skipPackageUpload := byHash, failIfExists, skipPackageUpload;
      slots, count := new Package[0], 0;
      pendingUploads, files := [], map[];
    }

    method CheckConflict(pack: Package) returns (failure: Option<string>)
      requires Valid()
      ensures failure == AddFailure(Packages(), pack, codename, failIfExists)
    {
      if !failIfExists {
        return None;
      }
      var filename := RepositoryFilename(pack, codename);
      if filename.Err? {
        return Some(filename.reason);
      }
      failure := FindConflict(pack, filename.value);
    }

    method FindConflict(pack: Package, filename: string) returns (failure: Option<string>)
      requires Valid()
      ensures failure == Conflict(Packages(), pack, filename, codename)
    {
      ghost var all := Packages();
      assert all[0..] == all;
      for i := 0 to count
        invariant Conflict(all[i..], pack, filename, codename) == Conflict(all, pack, filename, codename)
      {
        var existing := slots[i];
        assert all[i..][0] == existing && all[i..][1..] == all[i + 1..];
        if !SamePair(existing, pack) {
          continue;
        }
        var existingFilename := RepositoryFilename(existing, codename);
        if existingFilename.Err? {
          return Some(existingFilename.reason);
        }
        if Paths.Base(existingFilename.value) != Paths.Base(filename) {
          return Some(CONFLICT);
        }
      }
      assert all[count..] == [];
      failure := None;
    }

    /** `append`: into the backing array while it has room, into a larger copy otherwise. */
    method Append(pack: Package)
      requires Valid()
      modifies this`slots, this`count, slots
      ensures Valid() && (slots == old(slots) || fresh(slots))
      ensures Packages() == old(Packages()) + [pack]
    {
      if count == slots.Length {
        var larger := new Package[2 * slots.Length + 1];
        for i := 0 to count
          invariant slots == old(slots) && slots[..] == old(slots[..]) && count == old(count)
          invariant larger[..i] == slots[..i]
        {
          larger[i] := slots[i];
        }
        slots := larger;
      }
      slots[count] := pack;
      count := count + 1;
    }

    /** Compacts the packages that `Add` does not replace to the front of the backing array. */
    method RetainOthers(pack: Package, preserveVersions: bool)
      requires Valid()
      modifies this`count, slots
      ensures Valid() && slots == old(slots)
      ensures Packages() == Filter(old(Packages()), Kept(pack, preserveVersions))
    {
      ghost var before, keep := Packages(), Kept(pack, preserveVersions);
      var retained := 0;
      for i := 0 to count
        invariant retained <= i && Valid() && count == old(count)
        invariant slots[..retained] == Filter(before[..i], keep)
        invariant forall k :: i <= k < count ==> slots[k] == before[k]
      {
        var existing := slots[i];
        FilterSnoc(before, i, keep);
        var replace := existing.name == pack.name;
        if preserveVersions {
          replace := replace && existing.FullVersion() == pack.FullVersion();
        }
        if !replace {
          slots[retained] := existing;
          retained := retained + 1;
        }
      }
      assert before[..count] == before;
      count := retained;
    }

    method Add(pack: Package, preserveVersions: bool, needsUploading: bool) returns (r: Result<()>)
      requires Valid()
      modifies this, slots
      ensures Valid() && (slots == old(slots) || fresh(slots)) && files == old(files)
      ensures var failure := AddFailure(old(Packages()), pack, codename, failIfExists);
              if failure.Some? then
                r == Err(failure.value) && Packages() == old(Packages()) && pendingUploads == old(pendingUploads)
              else
                && r == Ok(())
                && Packages() == Added(old(Packages()), pack, preserveVersions)
                && pendingUploads == old(pendingUploads) + (if needsUploading then [pack] else [])
    {
      var failure := CheckConflict(pack);
      if failure.Some? {
        return Err(failure.value);
      }
      RetainOthers(pack, preserveVersions);
      Append(pack);
      if needsUploading {
        pendingUploads := pendingUploads + [pack];
      }
      return Ok(());
    }

    method DeletePackage(name: string, versions: Option<seq<string>>) returns (deleted: seq<Package>)
      requires Valid()
      modifies this`count, slots
      ensures Valid() && slots == old(slots)
      ensures deleted == Filter(old(Packages()), Doomed(name, versions))
      ensures Packages() == Filter(old(Packages()), Not(Doomed(name, versions)))
    {
      ghost var before, doomed := Packages(), Doomed(name, versions);
      var retained := 0;
      deleted := [];
      for i := 0 to count
        invariant retained <= i && Valid() && count == old(count)
        invariant slots[..retained] == Filter(before[..i], Not(doomed))
        invariant deleted == Filter(before[..i], doomed)
        invariant forall k :: i <= k < count ==> slots[k] == before[k]
      {
        var pack := slots[i];
        FilterSnoc(before, i, doomed);
        FilterSnoc(before, i, Not(doomed));
        var remove := ToRemove(pack, name, versions);
        if remove {
          deleted := deleted + [pack];
        } else {
          slots[retained] := pack;
          retained := retained + 1;
        }
      }
      assert before[..count] == before;
      count := retained;
    }
  }

  method ToRemove(pack: Package, name: string, versions: Option<seq<string>>) returns (remove: bool)
    ensures remove == Doomed(name, versions)(pack)
  {
    var versionSet := if versions.Some? then set version | version in versions.value else {};
    remove := pack.name == name && versions.None?;
    if pack.name == name && versions.Some? {
      var baseMatch := pack.version.upstream in versionSet;
      var iterationMatch := pack.version.upstream + "-" + pack.version.iteration in versionSet;
      var fullMatch := pack.FullVersion() in versionSet;
      remove := baseMatch || iterationMatch || fullMatch;
    }
  }

  // ---- what the edits guarantee

  /** The manifest refuses a package exactly when its path or that of an equal version is unknown, or when the two
      have different file names. */
  lemma {:induction false} ConflictExactly(packages: seq<Package>, pack: Package, filename: string, codename: string)
    ensures Conflict(packages, pack, filename, codename).None?
            <==> forall i :: 0 <= i < |packages| && SamePair(packages[i], pack) ==>
                   SameFile(RepositoryFilename(packages[i], codename), filename)
  {
    if packages != [] {
      ConflictExactly(packages[1..], pack, filename, codename);
      forall i | 1 <= i < |packages| ensures packages[i] == packages[1..][i - 1] {}
    }
  }

  predicate SameFile(existing: Result<string>, filename: string) {
    existing.Ok? && Paths.Base(existing.value) == Paths.Base(filename)
  }

  /** No two packages with the same name and version. */
  ghost predicate DistinctPairs(packages: seq<Package>) {
    forall i, j :: 0 <= i < j < |packages| ==> !SamePair(packages[i], packages[j])
  }

  lemma {:induction false} FilterDistinct(packages: seq<Package>, f: Package -> bool)
    requires DistinctPairs(packages)
    ensures DistinctPairs(Filter(packages, f))
  {
    FilterIsStable(packages, f);
    var w, r := Where(packages, f, 0), Filter(packages, f);
    forall i, j | 0 <= i < j < |r| ensures !SamePair(r[i], r[j]) {
      assert r[i] == packages[w[i]] && r[j] == packages[w[j]] && w[i] < w[j];
    }
  }

  lemma {:induction false} AddedDistinct(packages: seq<Package>, pack: Package, preserveVersions: bool)
    requires DistinctPairs(packages)
    ensures DistinctPairs(Added(packages, pack, preserveVersions))
  {
    var keep := Kept(pack, preserveVersions);
    var r := Filter(packages, keep);
    FilterDistinct(packages, keep);
    forall i | 0 <= i < |r| ensures !SamePair(r[i], pack) {
      FilterAt(packages, keep, i);
    }
  }

  /** Adding without keeping versions leaves the new package alone under its name. */
  lemma {:induction false} AddedAlone(packages: seq<Package>, pack: Package, q: Package)
    requires q in Added(packages, pack, false) && q.name == pack.name
    ensures q == pack
  {
    if q != pack {
      FilterHas(packages, Kept(pack, false), q);
    }
  }

  /** Adding the same package again changes nothing. */
  lemma {:induction false} AddedTwice(packages: seq<Package>, pack: Package, preserveVersions: bool)
    ensures var once := Added(packages, pack, preserveVersions); Added(once, pack, preserveVersions) == once
  {
    var keep := Kept(pack, preserveVersions);
    var r := Filter(packages, keep);
    forall i | 0 <= i < |r| ensures keep(r[i]) {
      FilterAt(packages, keep, i);
    }
    FilterEverything(r, keep);
    FilterAppend(r, [pack], keep);
    FilterNothing([pack], keep);
    AppendEmpty(r);
  }

  /** A deletion splits the list in two, both in order, and loses nothing. */
  lemma {:induction false} DeletionPartitions(packages: seq<Package>, name: string, versions: Option<seq<string>>)
    ensures var doomed := Doomed(name, versions);
            var deleted, retained := Filter(packages, doomed), Filter(packages, Not(doomed));
            && multiset(deleted) + multiset(retained) == multiset(packages)
            && (forall p :: p in deleted <==> p in packages && Deleted(p, name, versions))
            && (forall p :: p in retained <==> p in packages && !Deleted(p, name, versions))
            && Filter(retained, doomed) == []
  {
    var doomed := Doomed(name, versions);
    FilterConserves(packages, doomed);
    forall p ensures p in Filter(packages, doomed) <==> p in packages && Deleted(p, name, versions) {
      FilterHas(packages, doomed, p);
    }
    forall p ensures p in Filter(packages, Not(doomed)) <==> p in packages && !Deleted(p, name, versions) {
      FilterHas(packages, Not(doomed), p);
    }
    FilterNothing(Filter(packages, Not(doomed)), doomed);
  }

  // ---- any sequence of calls

  datatype Edit =
    | AddCall(pack: Package, preserveVersions: bool)
    | DeleteCall(name: string, versions: Option<seq<string>>)

  function Edited(packages: seq<Package>, edit: Edit, codename: string, failIfExists: bool): seq<Package> {
    match edit
    case AddCall(pack, preserveVersions) =>
      if AddFailure(packages, pack, codename, failIfExists).Some? then packages
      else Added(packages, pack, preserveVersions)
    case DeleteCall(name, versions) => Filter(packages, Not(Doomed(name, versions)))
  }

  function EditedAll(packages: seq<Package>, edits: seq<Edit>, codename: string, failIfExists: bool): seq<Package>
    decreases |edits|
  {
    if edits == [] then packages
    else EditedAll(Edited(packages, edits[0], codename, failIfExists), edits[1..], codename, failIfExists)
  }

  /** No sequence of edits makes two packages with the same name and version. */
  lemma {:induction false} EditsKeepPairsDistinct(
      packages: seq<Package>, edits: seq<Edit>, codename: string, failIfExists: bool)
    requires DistinctPairs(packages)
    ensures DistinctPairs(EditedAll(packages, edits, codename, failIfExists))
    decreases |edits|
  {
    if edits != [] {
      match edits[0] {
        case AddCall(pack, preserveVersions) => AddedDistinct(packages, pack, preserveVersions);
        case DeleteCall(name, versions) => FilterDistinct(packages, Not(Doomed(name, versions)));
      }
      EditsKeepPairsDistinct(Edited(packages, edits[0], codename, failIfExists), edits[1..], codename, failIfExists);
    }
  }

  // ---- edits after a parse leave the other records as they were

  lemma {:induction false} RecordsAppend(a: seq<Package>, b: seq<Package>, codename: string)
    ensures var first, second := Records(a, codename), Records(b, codename);
            Records(a + b, codename)
            == if first.Err? then first else if second.Err? then second else Ok(first.value + second.value)
  {
    if a == [] {
      assert a + b == b;
      if Records(b, codename).Ok? {
        AppendEmpty(Records(b, codename).value);
      }
    } else {
      assert (a + b)[0] == a[0] && (a + b)[1..] == a[1..] + b;
      RecordsAppend(a[1..], b, codename);
      RecordsStep(a, codename);
      RecordsStep(a + b, codename);
      if Records(a, codename).Ok? && Records(b, codename).Ok? {
        Assoc([Rendered(a[0], codename).value], Records(a[1..], codename).value, Records(b, codename).value);
      }
    }
  }

  lemma {:induction false} RecordsStep(packages: seq<Package>, codename: string)
    requires packages != []
    ensures var first, rest := Rendered(packages[0], codename), Records(packages[1..], codename);
            Records(packages, codename)
            == if first.Err? then Err(first.reason) else if rest.Err? then rest else Ok([first.value] + rest.value)
  {}

  /** The selection does not tell a package from its reread form. */
  ghost predicate Blind(f: Package -> bool, packages: seq<Package>, codename: string)
    requires AllPublishable(packages, codename)
  {
    forall i :: 0 <= i < |packages| ==> f(packages[i]) == f(Again(packages[i], codename))
  }

  lemma {:induction false} BlindTail(f: Package -> bool, packages: seq<Package>, codename: string)
    requires AllPublishable(packages, codename) && Blind(f, packages, codename) && packages != []
    ensures AllPublishable(packages[1..], codename) && Blind(f, packages[1..], codename)
  {
    forall i | 0 <= i < |packages[1..]|
      ensures f(packages[1..][i]) == f(Again(packages[1..][i], codename))
    {
      assert packages[1..][i] == packages[i + 1];
    }
  }

  /** Selecting from parsed packages is the same as parsing the selected ones. */
  lemma {:induction false} SelectionAgain(packages: seq<Package>, codename: string, f: Package -> bool)
    requires AllPublishable(packages, codename) && Blind(f, packages, codename)
    ensures AllPublishable(Filter(packages, f), codename)
    ensures AllAgain(Filter(packages, f), codename) == Filter(AllAgain(packages, codename), f)
  {
    if packages != [] {
      BlindTail(f, packages, codename);
      SelectionAgain(packages[1..], codename, f);
      SelectionStep(packages, codename, f);
    }
  }

  lemma {:induction false} SelectionStep(packages: seq<Package>, codename: string, f: Package -> bool)
    requires packages != [] && AllPublishable(packages, codename) && AllPublishable(packages[1..], codename)
    requires f(packages[0]) == f(Again(packages[0], codename))
    requires AllPublishable(Filter(packages[1..], f), codename)
    requires AllAgain(Filter(packages[1..], f), codename) == Filter(AllAgain(packages[1..], codename), f)
    ensures AllPublishable(Filter(packages, f), codename)
    ensures AllAgain(Filter(packages, f), codename) == Filter(AllAgain(packages, codename), f)
  {
    var first, rest := packages[0], Filter(packages[1..], f);
    FilteredAgain(packages, codename, f);
    if f(first) {
      AllAgainCons(first, rest, codename);
      assert Filter(packages, f) == [first] + rest;
    } else {
      assert Filter(packages, f) == rest;
    }
  }

  lemma {:induction false} FilteredAgain(packages: seq<Package>, codename: string, f: Package -> bool)
    requires packages != [] && AllPublishable(packages, codename)
    ensures AllPublishable(packages[1..], codename)
    ensures var q, tail := Again(packages[0], codename), Filter(AllAgain(packages[1..], codename), f);
            Filter(AllAgain(packages, codename), f) == if f(q) then [q] + tail else tail
  {
    FilterCons(Again(packages[0], codename), AllAgain(packages[1..], codename), f);
  }

  lemma {:induction false} FilterCons<T>(head: T, rest: seq<T>, f: T -> bool)
    ensures Filter([head] + rest, f) == if f(head) then [head] + Filter(rest, f) else Filter(rest, f)
  {
    assert ([head] + rest)[1..] == rest;
  }

  lemma {:induction false} AllAgainCons(p: Package, rest: seq<Package>, codename: string)
    requires Publishable(p, codename) && AllPublishable(rest, codename)
    ensures AllPublishable([p] + rest, codename)
    ensures AllAgain([p] + rest, codename) == [Again(p, codename)] + AllAgain(rest, codename)
  {
    assert ([p] + rest)[1..] == rest;
  }

  /** Whatever is selected after a parse prints the records it had before. */
  lemma {:induction false} SelectionKeepsRecords(packages: seq<Package>, codename: string, f: Package -> bool)
    requires AllPublishable(packages, codename) && Blind(f, packages, codename)
    ensures Records(Filter(AllAgain(packages, codename), f), codename) == Records(Filter(packages, f), codename)
  {
    SelectionAgain(packages, codename, f);
    AllRecords(Filter(packages, f), codename);
  }

  lemma {:induction false} AgainIdentity(p: Package, codename: string)
    requires Publishable(p, codename)
    ensures Again(p, codename).name == p.name && Again(p, codename).FullVersion() == p.FullVersion()
  {
    PackageAgain(p, codename);
  }

  /** Adding to a manifest just read prints the same bytes as adding to the manifest that was written. */
  lemma {:induction false} AddKeepsBytes(
      packages: seq<Package>, pack: Package, preserveVersions: bool, codename: string)
    requires AllPublishable(packages, codename)
    ensures RenderedManifest(Added(AllAgain(packages, codename), pack, preserveVersions), codename)
            == RenderedManifest(Added(packages, pack, preserveVersions), codename)
  {
    var keep := Kept(pack, preserveVersions);
    forall i | 0 <= i < |packages| ensures keep(packages[i]) == keep(Again(packages[i], codename)) {
      AgainIdentity(packages[i], codename);
    }
    SelectionKeepsRecords(packages, codename, keep);
    RecordsAppend(Filter(packages, keep), [pack], codename);
    RecordsAppend(Filter(AllAgain(packages, codename), keep), [pack], codename);
  }

  /** The version is the one its text splits into. */
  predicate SplitVersion(p: Package) {
    ParsedVersion(p.FullVersion()) == Some(p.version)
  }

  /** As it is for every parsed package. */
  lemma {:induction false} ParsedIsSplit(text: string)
    requires ParsedPackage(text).Ok?
    ensures SplitVersion(ParsedPackage(text).value)
  {
    VersionIsSplit(text);
  }

  ghost predicate AllSplit(packages: seq<Package>) {
    forall i :: 0 <= i < |packages| ==> SplitVersion(packages[i])
  }

  lemma {:induction false} SplitCons(p: Package, rest: seq<Package>)
    requires SplitVersion(p) && AllSplit(rest)
    ensures AllSplit([p] + rest)
  {}

  lemma {:induction false} PiecesAreSplit(pieces: seq<string>)
    requires ParsedPieces(ParsedPackage, pieces).Ok?
    ensures AllSplit(ParsedPieces(ParsedPackage, pieces).value)
  {
    if pieces != [] {
      PiecesAreSplit(pieces[1..]);
      if !Blank(pieces[0]) {
        ParsedIsSplit(pieces[0]);
        SplitCons(ParsedPackage(pieces[0]).value, ParsedPieces(ParsedPackage, pieces[1..]).value);
      }
    }
  }

  /** And for every package of a parsed index. */
  lemma {:induction false} IndexIsSplit(text: string)
    requires ParsedPackages(text).Ok?
    ensures forall i :: 0 <= i < |ParsedPackages(text).value| ==> SplitVersion(ParsedPackages(text).value[i])
  {
    if !Blank(text) {
      PiecesAreSplit(Pieces(text));
    }
  }

  lemma {:induction false} AgainVersion(p: Package, codename: string)
    requires Publishable(p, codename) && SplitVersion(p)
    ensures Again(p, codename).version == p.version
  {}

  /** Deleting from a manifest just read prints the same bytes as deleting from the one that was written. */
  lemma {:induction false} DeleteKeepsBytes(
      packages: seq<Package>, name: string, versions: Option<seq<string>>, codename: string)
    requires AllPublishable(packages, codename)
    requires forall i :: 0 <= i < |packages| ==> SplitVersion(packages[i])
    ensures RenderedManifest(Filter(AllAgain(packages, codename), Not(Doomed(name, versions))), codename)
            == RenderedManifest(Filter(packages, Not(Doomed(name, versions))), codename)
  {
    var keep := Not(Doomed(name, versions));
    forall i | 0 <= i < |packages| ensures keep(packages[i]) == keep(Again(packages[i], codename)) {
      AgainIdentity(packages[i], codename);
      AgainVersion(packages[i], codename);
    }
    SelectionKeepsRecords(packages, codename, keep);
  }
}
