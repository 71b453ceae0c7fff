/** The repository's own codecs obey the laws that publishing relies on. */
module Instance {
  import opened Text
  import opened Digests
  import opened Package
  import opened Index = Manifest
  import R = Release
  import opened Rereading
  import opened Inspection
  import opened Numbers
  import opened Paths
  import opened W = World

  /** A package whose record can be written and whose body belongs into the pool. */
  ghost predicate Good(p: Package, codename: string) {
    Indexable(p, codename) && PoolPath(RepositoryFilename(p, codename).value)
  }

  ghost function RealWorld(hasher: Hasher, payload: string -> string): World {
    World(hasher, ParsedPackages, RenderedManifest, RepositoryFilename, R.ParsedRelease, R.RenderedRelease, payload,
        Good)
  }

  /** A package read back has its path in the record, whatever the codename. */
  lemma {:induction false} RecordedPath(q: Package, path: string, d: string)
    requires q.filename == "" && q.indexFilename == Some(path)
    ensures RepositoryFilename(q, d) == Ok(path)
  {}

  lemma {:induction false} GoodAgain(w: World, p: Package, codename: string, q: Package)
    requires w.pathOf == RepositoryFilename && w.good == Good
    requires Good(p, codename) && RereadOf(p, codename, q)
    ensures SamePackage(w, p, codename, q)
  {
    forall d ensures w.pathOf(q, d) == w.pathOf(p, codename) && w.good(q, d) {
      RecordedPath(q, RepositoryFilename(p, codename).value, d);
    }
  }

  lemma {:induction false} GoodPrints(w: World, packages: seq<Package>, codename: string)
    requires w.pathOf == RepositoryFilename && w.good == Good && w.parsePackages == ParsedPackages
    requires forall i :: 0 <= i < |packages| ==> Good(packages[i], codename)
    ensures Printed(w, packages, codename, RenderedManifest(packages, codename))
  {
    IndexReread(packages, codename);
    var again := ParsedPackages(RenderedManifest(packages, codename).value).value;
    forall i | 0 <= i < |packages| ensures SamePackage(w, packages[i], codename, again[i]) {
      GoodAgain(w, packages[i], codename, again[i]);
    }
  }

  lemma {:induction false} RealPackagesLaw(hasher: Hasher, payload: string -> string)
    ensures PackagesLaw(RealWorld(hasher, payload))
  {
    var w := RealWorld(hasher, payload);
    forall packages, codename | AllGood(w, packages, codename)
      ensures Printed(w, packages, codename, w.printPackages(packages, codename))
    {
      GoodPrints(w, packages, codename);
    }
  }

  lemma {:induction false} RealReleaseLaw(hasher: Hasher, payload: string -> string)
    ensures ReleaseLaw(RealWorld(hasher, payload))
  {
    var w := RealWorld(hasher, payload);
    forall r, date | R.Renderable(r, date)
      ensures w.parseRelease(w.printRelease(r, date)) == r.(suite := Some(r.suite.GetOr("")))
    {
      R.ReleaseRoundTrip(r, date);
    }
  }

  lemma {:induction false} RealPathLaw(hasher: Hasher, payload: string -> string)
    ensures PathLaw(RealWorld(hasher, payload))
  {}

  /** The laws hold for the real parsers and printers. */
  lemma {:induction false} RealWorldLawful(hasher: Hasher, payload: string -> string)
    requires Proper(hasher)
    ensures Lawful(RealWorld(hasher, payload))
  {
    RealPackagesLaw(hasher, payload);
    RealPathLaw(hasher, payload);
    RealReleaseLaw(hasher, payload);
  }

  // ---- package files

  /** What `ReadPackageFile` hands to an upload: the metadata with the file's name, size and digests. */
  function FromFile(info: PackageInfo, filename: string): Package {
    info.pack.(filename := filename, size := Some(Itoa(info.hashes.size)), md5 := Some(info.hashes.md5),
               sha1 := Some(info.hashes.sha1), sha256 := Some(info.hashes.sha256))
  }

  lemma {:induction false} HexFits(s: string)
    requires Hex(s)
    ensures FitText(s)
  {
    forall i | 0 <= i < |s| ensures s[i] != '\r' {}
  }

  lemma {:induction false} SizeFits(n: nat)
    ensures FitText(Itoa(n))
  {
    forall i | 0 <= i < |Decimal(n)| ensures Decimal(n)[i] != '\r' {}
  }

  lemma {:induction false} FromFileFits(p: Package, h: Hasher, data: string, filename: string)
    requires Proper(h) && FitPackage(p) && FitRelations(p)
    ensures FitPackage(FromFile(PackageInfo(Inspected(p), HashesOf(h, data)), filename))
    ensures FitRelations(FromFile(PackageInfo(Inspected(p), HashesOf(h, data)), filename))
  {
    assert WellSized(HashesOf(h, data));
    HexFits(h.md5(data));
    HexFits(h.sha1(data));
    HexFits(h.sha256(data));
    SizeFits(|data|);
  }

  /** A path derived from a package file is a clean key below `pool/`. */
  lemma {:induction false} DerivedInPool(p: Package, codename: string)
    requires p.indexFilename.None? && RepositoryFilename(p, codename).Ok?
    ensures var path := RepositoryFilename(p, codename).value; CleanKey(path) && HasPrefix(path, "pool/")
  {
    var path := RepositoryFilename(p, codename).value;
    assert path[..5] == "pool/";
    CleanGivesCleanKey(path);
  }

  lemma {:induction false} PrefixOf(a: string, b: string)
    ensures HasPrefix(a + b, a)
  {
    assert (a + b)[..|a|] == a;
  }

  /** It is below the pool of the codename, the first letter and the first two letters of the package, and keeps the
      name of the file. */
  lemma {:induction false} DerivedPlace(p: Package, codename: string)
    requires p.indexFilename.None? && RepositoryFilename(p, codename).Ok?
    ensures p.name != ""
    ensures var path := RepositoryFilename(p, codename).value;
            && HasPrefix(path, "pool/" + codename + "/" + p.name[..1] + "/" + p.name[..if |p.name| == 1 then 1 else 2]
               + "/")
            && Base(path) == Base(p.filename)
  {
    var path := RepositoryFilename(p, codename).value;
    var dir := "pool/" + codename + "/" + p.name[..1] + "/";
    var prefix, base := if |p.name| > 2 then p.name[..2] else p.name, FileBase(p.filename);
    assert prefix == p.name[..if |p.name| == 1 then 1 else 2];
    assert path == dir + prefix + "/" + base;
    PrefixOf(dir + prefix + "/", base);
    DerivedInPool(p, codename);
    BaseShape(p.filename);
    if base == "/" {
      CleanKeyEnd(path);
    } else {
      BaseOfJoin(dir + prefix, base);
    }
  }

  /** A package file as inspection leaves it is fit for an upload when it has a pool path and its version, extra
      fields and path can be written on their lines. */
  lemma {:induction false} FileIsGood(text: string, h: Hasher, data: string, filename: string, codename: string)
    requires Proper(h) && '\r' !in text && ParsedPackage(text).Ok?
    requires FitVersion(ParsedPackage(text).value.FullVersion())
    ensures var p := FromFile(PackageInfo(Inspected(ParsedPackage(text).value), HashesOf(h, data)), filename);
            RepositoryFilename(p, codename).Ok? ==>
              var path := RepositoryFilename(p, codename).value;
              FitPath(path) && '\\' !in path && FitExtras(ParsedPackage(text).value.extraFields, path) ==>
                  Good(p, codename)
  {
    var p := FromFile(PackageInfo(Inspected(ParsedPackage(text).value), HashesOf(h, data)), filename);
    if RepositoryFilename(p, codename).Ok? && FitPath(RepositoryFilename(p, codename).value) {
      ParsedFits(text);
      FromFileFits(ParsedPackage(text).value, h, data, filename);
      PackageRowFits(p, RepositoryFilename(p, codename).value);
      DerivedInPool(p, codename);
    }
  }

  /** A parsed package has no local file, so its path is the one in its record or none. */
  ghost predicate Recorded(packages: seq<Package>) {
    forall i :: 0 <= i < |packages| ==> packages[i].filename == ""
  }

  lemma {:induction false} ParsedIsRecorded(text: string)
    requires ParsedPackage(text).Ok?
    ensures ParsedPackage(text).value.filename == ""
  {}

  lemma {:induction false} PiecesRecorded(pieces: seq<string>)
    requires ParsedPieces(ParsedPackage, pieces).Ok?
    ensures Recorded(ParsedPieces(ParsedPackage, pieces).value)
  {
    if pieces != [] {
      PiecesRecorded(pieces[1..]);
      if !Blank(pieces[0]) {
        ParsedIsRecorded(pieces[0]);
      }
    }
  }

  lemma {:induction false} OnePath(p: Package, d: string)
    requires p.filename == ""
    ensures RepositoryFilename(p, d) == RepositoryFilename(p, "")
  {}

  lemma {:induction false} RecordedPaths(w: World, packages: seq<Package>)
    requires w.pathOf == RepositoryFilename && Recorded(packages)
    ensures FixedPaths(w, packages)
  {
    forall i, d | 0 <= i < |packages| ensures w.pathOf(packages[i], d) == w.pathOf(packages[i], "") {
      OnePath(packages[i], d);
    }
  }

  lemma {:induction false} RealPlaceLaw(hasher: Hasher, payload: string -> string)
    ensures PlaceLaw(RealWorld(hasher, payload))
  {
    var w := RealWorld(hasher, payload);
    forall text | w.parsePackages(text).Ok? ensures FixedPaths(w, w.parsePackages(text).value) {
      if !Blank(text) {
        PiecesRecorded(Pieces(text));
      }
      RecordedPaths(w, w.parsePackages(text).value);
    }
  }
}
