/** An extra field named `Filename` takes the place of the path in the record of its package: the index of an upload
    then names another object than the one its body went to. */
module StrayPaths {
  import opened Text
  import opened Digests
  import opened Control
  import opened P = Package
  import opened Rereading
  import M = Manifest
  import R = Release
  import opened Keys
  import opened Calls
  import opened Worlds = World
  import opened Instance
  import opened Inspection
  import opened Publication
  import opened History
  import opened Signatures
  import opened Limits
  import opened Republished
  import opened Commands
  import opened Collection
  import U = Upload

  // ---- the record

  /** The package's record would be read under another path. */
  ghost predicate Astray(p: P.Package, codename: string, other: string) {
    var extra := LastOf(p.extraFields, NameOf(FFilename));
    && RepositoryFilename(p, codename).Ok? && extra.Some? && other == Refold(extra.value)
    && other != RepositoryFilename(p, codename).value
  }

  /** It can be written, and its version can be read. */
  ghost predicate Legible(p: P.Package, codename: string) {
    && RepositoryFilename(p, codename).Ok? && Canonical(RepositoryFilename(p, codename).value)
    && PlainRecord(p, RepositoryFilename(p, codename).value)
    && FitVersion(p.FullVersion()) && LastOf(p.extraFields, NameOf(FVersion)).None?
  }

  lemma {:induction false} VersionParses(fields: seq<Field>, full: string, i: nat)
    requires i == 0 && TakenAt(i) == FVersion && FieldValue(fields, FVersion) == Some(full) && FitVersion(full)
    ensures PackageOf(fields).Ok?
  {
    TakenFirst(fields, i, FVersion);
    PrintedVersionFits(full);
  }

  lemma {:induction false} RecordAstray(p: P.Package, codename: string, other: string)
    requires Legible(p, codename) && Astray(p, codename, other)
    ensures var read := ParsedPackage(WrittenAll(RecordFields(p, RepositoryFilename(p, codename).value)));
            read.Ok? && read.value.indexFilename == Some(other)
  {
    var path := RepositoryFilename(p, codename).value;
    var fields := ParseFields(WrittenAll(RecordFields(p, path)));
    VersionRead(p, path);
    RefoldVersion(p.FullVersion());
    VersionParses(fields, Refold(p.FullVersion()), 0);
    FilenameRead(p, path);
    ParsedFilename(fields);
  }

  lemma {:induction false} IndexAstray(p: P.Package, codename: string, other: string)
    returns (text: string, q: P.Package)
    requires Legible(p, codename) && Astray(p, codename, other)
    ensures M.RenderedManifest([p], codename) == Ok(text) && M.ParsedPackages(text) == Ok([q])
    ensures q.indexFilename == Some(other)
  {
    var path := RepositoryFilename(p, codename).value;
    RecordAstray(p, codename, other);
    RecordIsPlain(p, path);
    var lines := PlainBlock(p, codename, path);
    q := ParsedPackage(WrittenAll(RecordFields(p, path))).value;
    OneBlock(p, codename, lines, q);
    text := M.RenderedManifest([p], codename).value;
  }

  // ---- an upload of it

  function OptionsFor(codename: string, preserveVersions: bool, failIfExists: bool): U.Options {
    U.Options(ReleaseOptions(codename, None, None, None), "main", None, preserveVersions, failIfExists, false)
  }

  lemma {:induction false} OnePlaced(w: World, o: U.Options, file: U.Incoming)
    requires o.architecture == None && file.pack.architecture == "amd64"
    requires RepositoryFilename(file.pack, o.release.codename).Ok?
    ensures U.Place(w, map[], o, U.Placing([], []), Ok(file))
            == Ok(U.Placing([U.Loaded("amd64", [file.pack], [file])], []))
  {
    var empty, l := U.Loaded("amd64", [], []), U.Loaded("amd64", [file.pack], [file]);
    assert [] + [empty] == [empty];
    assert U.LoadFor(w, map[], o, [], "amd64") == Ok([empty]);
    assert U.PositionOf([empty], "amd64") == 0;
    assert U.E.AddFailure([], file.pack, o.release.codename, o.failIfExists) == None;
    assert U.E.Added([], file.pack, o.preserveVersions) == [file.pack];
    assert [] + [file] == [file] && [empty][0 := l] == [l];
  }

  lemma {:induction false} OneManifest(w: World, o: U.Options, file: U.Incoming)
    requires o.architecture == None && file.pack.architecture == "amd64"
    requires RepositoryFilename(file.pack, o.release.codename).Ok?
    ensures U.Manifests(w, map[], o, [Ok(file)]) == Ok([U.Loaded("amd64", [file.pack], [file])])
  {
    var l, files: seq<Result<U.Incoming>> := U.Loaded("amd64", [file.pack], [file]), [Ok(file)];
    OnePlaced(w, o, file);
    assert files[1..] == [];
    assert U.PlaceAll(w, map[], o, U.Placing([], []), files) == Ok(U.Placing([l], []));
    assert [l][1..] == [];
    assert U.Spread(o, l, []) == Ok(l);
    assert U.SpreadAll(o, [], []) == Ok([]);
    assert [l] + [] == [l];
    assert U.SpreadAll(o, [l], []) == Ok([l]);
  }

  /** The calls of such an upload: the body, the index, and nothing more that concerns either. */
  lemma {:induction false} OneFileCalls(
      w: World, o: U.Options, file: U.Incoming, path: string, text: string, signing: Signing,
      date: string) returns (more: seq<Op>)
    requires o == OptionsFor(o.release.codename, o.preserveVersions, o.failIfExists)
    requires file.pack.architecture == "amd64" && file.pack.filename != ""
    requires w.pathOf == RepositoryFilename && RepositoryFilename(file.pack, o.release.codename) == Ok(path)
    requires HasPrefix(path, "pool/") && w.printPackages([file.pack], o.release.codename) == Ok(text)
    ensures var index := Index(o.release.codename, "main", "amd64", false);
            && U.UploadCalls(w, map[], o, [Ok(file)], signing, date).ops
               == [Put(Pool(path), file.body, if o.failIfExists then FailIfExists else Overwrite),
               Put(index, text, Overwrite)] + more
            && forall j :: 0 <= j < |more| ==> !more[j].key.Pool? && more[j].key != index
  {
    var c, r := o.release.codename, Retrieved(w, map[], o.release);
    var suite := Suite("main", "amd64", false, [file.pack]);
    OneManifest(w, o, file);
    OneSuite(o, file);
    OneBody(w, o, file);
    var p := Build(w, c, suite).value;
    FirstSuitePrepared(w, c, r, suite, p);
    var body := U.BodyOp(w, o, file).value;
    more := OneSuitePlan(w, c, r, suite, p, body, signing, date);
  }

  lemma {:induction false} OneSuitePlan(
      w: World, c: string, r: R.ReleaseData, suite: Suite, p: Prepared, body: Op, signing: Signing,
      date: string) returns (more: seq<Op>)
    requires suite.component == "main" && suite.architecture == "amd64" && !suite.byHash && Build(w, c, suite) == Ok(p)
    requires PreparedFor(w, c, r, [suite]) == Ok([p])
    ensures var index := Index(c, "main", "amd64", false);
            && UploadPlan(w, c, r, [body], [suite], signing, date).ops == [body, Put(index, p.plain, Overwrite)] + more
            && forall j :: 0 <= j < |more| ==> !more[j].key.Pool? && more[j].key != index
  {
    var text := w.printRelease(FinalRelease(w, c, r, [suite]), date);
    OneSuiteMetadata(w, c, r, suite, p, signing, date);
    more := OneSuiteCalls(w, c, p, text, signing);
    TwoInFront(body, Put(Index(c, "main", "amd64", false), p.plain, Overwrite), more);
  }

  lemma {:induction false} TwoInFront(body: Op, put: Op, more: seq<Op>)
    ensures [body] + ([put] + more) == [body, put] + more
  {}

  lemma {:induction false} OneSuiteMetadata(
      w: World, c: string, r: R.ReleaseData, suite: Suite, p: Prepared, signing: Signing, date: string)
    requires PreparedFor(w, c, r, [suite]) == Ok([p])
    ensures MetadataPlan(w, c, r, [suite], signing, date).ops
            == AllByHashOps(w, c, [p]) + AllCanonicalOps(c, [p])
               + TripleOps(c, w.printRelease(FinalRelease(w, c, r, [suite]), date), signing)
  {
    BackfillIsFixedPoint(w, c, r, [suite], signing, date);
  }

  lemma {:induction false} OneSuite(o: U.Options, file: U.Incoming)
    ensures U.SuitesOf(o, false, [U.Loaded("amd64", [file.pack], [file])])
            == [Suite(o.component, "amd64", false, [file.pack])]
  {
    assert [U.Loaded("amd64", [file.pack], [file])][1..] == [];
  }

  lemma {:induction false} OneBody(w: World, o: U.Options, file: U.Incoming)
    requires !o.skipPackageUpload && U.BodyOp(w, o, file).Ok?
    ensures U.AllBodies(w, o, [U.Loaded("amd64", [file.pack], [file])]) == Plan([U.BodyOp(w, o, file).value], true)
  {
    var l, op := U.Loaded("amd64", [file.pack], [file]), U.BodyOp(w, o, file).value;
    assert [file][1..] == [] && [l][1..] == [];
    assert U.BodiesOf(w, o, []) == Plan([], true);
    assert [op] + [] == [op];
    assert U.BodiesOf(w, o, [file]) == Plan([op], true);
    assert U.AllBodies(w, o, []) == Plan([], true);
  }

  lemma {:induction false} OneSuiteCalls(w: World, codename: string, p: Prepared, text: string, signing: Signing)
    returns (more: seq<Op>)
    requires p.component == "main" && p.architecture == "amd64" && !p.byHash
    ensures var index := Index(codename, "main", "amd64", false);
            && AllByHashOps(w, codename, [p]) + AllCanonicalOps(codename, [p]) + TripleOps(codename, text, signing)
               == [Put(index, p.plain, Overwrite)] + more
            && forall j :: 0 <= j < |more| ==> !more[j].key.Pool? && more[j].key != index
  {
    assert [p][1..] == [];
    var gz := Put(Index(codename, "main", "amd64", true), p.gzip, Overwrite);
    more := [gz] + TripleOps(codename, text, signing);
  }

  lemma {:induction false} TwoStored(md5: string -> string, calls: nat, body: Op, put: Op, more: seq<Op>, other: string)
    requires calls >= 2 && body.Put? && body.key.Pool? && put.Put? && put.key.Index? && body.key != Pool(other)
    requires forall j :: 0 <= j < |more| ==> !more[j].key.Pool? && more[j].key != put.key
    ensures var after := Exec(md5, Store(map[], calls), [body, put] + more).store.objects;
            put.key in after && after[put.key] == put.data && Pool(other) !in after
  {
    var store := Store(map[], calls);
    ExecAppend(md5, store, [body, put], more);
    ExecTwo(md5, store, body, put);
    var two := Exec(md5, store, [body, put]).store;
    Untouched(md5, two, more, put.key);
    Untouched(md5, two, more, Pool(other));
  }

  /** The stored index names an object that is not there. */
  ghost predicate Dangling(w: World, objects: Objects, index: Keys.Key, other: string) {
    && index in objects && w.parsePackages(objects[index]).Ok?
    && (exists q :: q in w.parsePackages(objects[index]).value && w.pathOf(q, "") == Ok(other))
    && Pool(other) !in objects && !Integrity(w, objects)
  }

  /** The repository's own parser, printer and paths. */
  ghost predicate RealIndexes(w: World) {
    w.pathOf == RepositoryFilename && w.printPackages == M.RenderedManifest && w.parsePackages == M.ParsedPackages
  }

  lemma {:induction false} NamesAbsent(
      w: World, objects: Objects, index: Keys.Key, text: string, q: P.Package, other: string)
    requires index in objects && index.Index? && !index.gz && objects[index] == text && Pool(other) !in objects
    requires w.parsePackages(text) == Ok([q]) && w.pathOf(q, "") == Ok(other)
    ensures Dangling(w, objects, index, other)
  {
    assert q in [q];
    assert !BackedPackage(w, [q][0], objects.Keys);
    assert !BackedText(w, objects[index], objects.Keys);
  }

  /** The store after that many calls of an upload of the file to an empty store. */
  function AfterUpload(w: World, o: U.Options, file: U.Incoming, signing: Signing, date: string, calls: nat): Objects {
    Exec(w.hasher.md5, Store(map[], calls), U.UploadCalls(w, map[], o, [Ok(file)], signing, date).ops).store.objects
  }

  lemma {:induction false} UploadStores(
      w: World, o: U.Options, file: U.Incoming, path: string, text: string, other: string, signing: Signing,
      date: string, calls: nat)
    requires o == OptionsFor(o.release.codename, o.preserveVersions, o.failIfExists) && calls >= 2 && path != other
    requires file.pack.architecture == "amd64" && file.pack.filename != ""
    requires w.pathOf == RepositoryFilename && RepositoryFilename(file.pack, o.release.codename) == Ok(path)
    requires HasPrefix(path, "pool/") && w.printPackages([file.pack], o.release.codename) == Ok(text)
    ensures var after, index :=
            AfterUpload(w, o, file, signing, date, calls), Index(o.release.codename, "main", "amd64", false);
            index in after && after[index] == text && Pool(other) !in after
  {
    var index := Index(o.release.codename, "main", "amd64", false);
    var more := OneFileCalls(w, o, file, path, text, signing, date);
    var body := Put(Pool(path), file.body, if o.failIfExists then FailIfExists else Overwrite);
    TwoStored(w.hasher.md5, calls, body, Put(index, text, Overwrite), more, other);
  }

  /** An upload of one such file to an empty store, from its second call on: the index it stores names an object that
      is not there, although the body is stored under the path of the file. */
  lemma {:induction false} UploadGoesAstray(
      w: World, o: U.Options, file: U.Incoming, other: string, signing: Signing, date: string, calls: nat)
    requires RealIndexes(w) && calls >= 2
    requires o == OptionsFor(o.release.codename, o.preserveVersions, o.failIfExists)
    requires file.pack.architecture == "amd64" && file.pack.filename != "" && file.pack.indexFilename == None
    requires Legible(file.pack, o.release.codename) && Astray(file.pack, o.release.codename, other)
    ensures Dangling(w, AfterUpload(w, o, file, signing, date, calls),
            Index(o.release.codename, "main", "amd64", false), other)
  {
    var index, after :=
        Index(o.release.codename, "main", "amd64", false), AfterUpload(w, o, file, signing, date, calls);
    var path := RepositoryFilename(file.pack, o.release.codename).value;
    DerivedInPool(file.pack, o.release.codename);
    var text, q := IndexAstray(file.pack, o.release.codename, other);
    UploadStores(w, o, file, path, text, other, signing, date, calls);
    ReadsOther(w, q, other);
    NamesAbsent(w, after, index, text, q, other);
  }

  lemma {:induction false} ReadsOther(w: World, q: P.Package, other: string)
    requires RealIndexes(w) && q.indexFilename == Some(other)
    ensures w.pathOf(q, "") == Ok(other)
  {}

  // ---- from the control file

  /** A control file with a user-defined field, which is to appear in the index under the rest of its name. */
  function ControlFile(name: string, other: string): seq<Field> {
    [Field(NameOf(FPackage), "foo"), Field(NameOf(FVersion), "1"), Field(NameOf(FArchitecture), "amd64"),
     Field(name, other)]
  }

  predicate UserDefined(name: string) {
    FieldName(name) && HasPrefix(name, "X")
  }

  predicate OneWord(s: string) {
    s != "" && Trimmed(s) && '\n' !in s && '\r' !in s
  }

  lemma {:induction false} WordStays(value: string)
    requires OneWord(value)
    ensures Refold(value) == value
  {
    TrimmedIsFixed(value);
    RefoldOneLineTrims(value);
  }

  lemma {:induction false} NoTemplateStartsWithX(name: string)
    requires HasPrefix(name, "X")
    ensures !TakenName(KEY_COUNT, name)
  {
    forall k ensures NameOf(k) != name {
      assert NameOf(k)[0] != 'X';
    }
  }

  lemma {:induction false} PrefixGoes()
    ensures NormalizeExtraFieldName("XB-Filename") == NameOf(FFilename)
  {
    var rest := "XB-Filename"[1..];
    assert rest[1] == '-' && rest[0] == 'B';
    assert IndexOf(rest, '-') == 1;
    assert rest[2..] == "Filename";
  }

  lemma {:induction false} WordsStay(fields: seq<Field>)
    requires Writable(fields) && forall i :: 0 <= i < |fields| ==> OneWord(fields[i].value)
    ensures ParseFields(WrittenAll(fields)) == fields
  {
    ParseWritten(fields);
    forall i | 0 <= i < |fields| ensures Refolded(fields)[i] == fields[i] {
      RefoldedAt(fields, i);
      WordStays(fields[i].value);
    }
  }

  lemma {:induction false} LookupAt(fields: seq<Field>, i: nat)
    requires DistinctNames(fields) && i < |fields|
    ensures Lookup(fields, fields[i].name) == Some(fields[i].value)
  {}

  lemma {:induction false} ControlFileWritable(name: string, other: string)
    requires UserDefined(name) && OneWord(other)
    ensures Writable(ControlFile(name, other))
    ensures forall i :: 0 <= i < 4 ==> OneWord(ControlFile(name, other)[i].value)
  {
    var fields := ControlFile(name, other);
    TemplateNamesValid(FPackage);
    TemplateNamesValid(FVersion);
    TemplateNamesValid(FArchitecture);
    assert fields[0].name[0] == 'P' && fields[1].name[0] == 'V' && fields[2].name[0] == 'A' && fields[3].name[0] == 'X';
    assert OneWord("foo") && OneWord("1") && OneWord("amd64");
  }

  lemma {:induction false} TakenGoes(k: P.Key, value: string, rest: seq<Field>)
    ensures Untaken([Field(NameOf(k), value)] + rest, KEY_COUNT) == Untaken(rest, KEY_COUNT)
  {
    TakenNameOfKey(k);
    assert ([Field(NameOf(k), value)] + rest)[1..] == rest;
  }

  lemma {:induction false} LastStays(name: string, value: string)
    requires HasPrefix(name, "X")
    ensures Untaken([Field(name, value)], KEY_COUNT) == [Field(name, value)]
  {
    NoTemplateStartsWithX(name);
    assert [Field(name, value)][1..] == [];
  }

  lemma {:induction false} ControlFileUntaken(name: string, other: string)
    requires HasPrefix(name, "X")
    ensures Untaken(ControlFile(name, other), KEY_COUNT) == [Field(name, other)]
  {
    var last := [Field(name, other)];
    LastStays(name, other);
    var two := [Field(NameOf(FArchitecture), "amd64")] + last;
    var three := [Field(NameOf(FVersion), "1")] + two;
    TakenGoes(FArchitecture, "amd64", last);
    TakenGoes(FVersion, "1", two);
    TakenGoes(FPackage, "foo", three);
    assert ControlFile(name, other) == [Field(NameOf(FPackage), "foo")] + three;
  }

  lemma {:induction false} OneExtra(name: string, value: string)
    ensures ExtraFields([Field(name, value)], []) == [Field(NormalizeExtraFieldName(name), value)]
  {
    var left := [Field(name, value)];
    assert left[1..] == [];
    SetAppends([], NormalizeExtraFieldName(name), value);
    assert [] + [Field(NormalizeExtraFieldName(name), value)] == [Field(NormalizeExtraFieldName(name), value)];
  }

  /** What the values taken make of a package, apart from what does not matter here. */
  lemma {:induction false} PackageMade(values: seq<Option<string>>, left: seq<Field>, i: nat, j: nat)
    requires |values| == KEY_COUNT && i == 0 && j == 1 && values[i] == Some("1") && values[j] == Some("amd64")
    ensures PackageFrom(values, left).Ok?
    ensures var p := PackageFrom(values, left).value;
            && p.architecture == "amd64" && p.extraFields == ExtraFields(left, []) && FitVersion(p.FullVersion())
  {
    assert FitVersion("1");
    PrintedVersionFits("1");
  }

  lemma {:induction false} ControlFilePackage(name: string, other: string, i: nat, j: nat)
    requires UserDefined(name) && OneWord(other) && i == 0 && j == 1 && TakenAt(i) == FVersion
    requires TakenAt(j) == FArchitecture
    ensures ParsedPackage(WrittenAll(ControlFile(name, other))).Ok?
    ensures var p := ParsedPackage(WrittenAll(ControlFile(name, other))).value;
            && p.architecture == "amd64" && p.extraFields == [Field(NormalizeExtraFieldName(name), other)]
            && FitVersion(p.FullVersion())
  {
    var fields := ControlFile(name, other);
    ControlFileWritable(name, other);
    WordsStay(fields);
    LookupAt(fields, 1);
    LookupAt(fields, 2);
    TakenFirst(fields, i, FVersion);
    TakenFirst(fields, j, FArchitecture);
    ControlFileUntaken(name, other);
    OneExtra(name, other);
    PackageMade(TakenValues(fields), Untaken(fields, KEY_COUNT), i, j);
  }

  lemma {:induction false} ControlFileText(name: string, other: string)
    requires UserDefined(name) && OneWord(other)
    ensures '\r' !in WrittenAll(ControlFile(name, other))
  {
    ControlFileWritable(name, other);
    WrittenAllIsLines(ControlFile(name, other));
    FoldedLinesChars(ControlFile(name, other));
    UnlinesChars(AllFoldedLines(ControlFile(name, other)));
  }

  /** The package of this control file as `ReadPackageFile` hands it to an upload. */
  ghost function FileOf(h: Hasher, data: string, filename: string, name: string, other: string): P.Package
    requires ParsedPackage(WrittenAll(ControlFile(name, other))).Ok?
  {
    var p := ParsedPackage(WrittenAll(ControlFile(name, other))).value;
    FromFile(PackageInfo(Inspected(p), HashesOf(h, data)), filename)
  }

  /** It has the extra field under the rest of its name, and can be written under any path that fits a line. */
  lemma {:induction false} FileOfFits(
      h: Hasher, data: string, filename: string, name: string, other: string, codename: string)
    requires Proper(h) && UserDefined(name) && OneWord(other)
    ensures ParsedPackage(WrittenAll(ControlFile(name, other))).Ok?
    ensures var p := FileOf(h, data, filename, name, other);
            && p.architecture == "amd64" && p.filename == filename && p.indexFilename == None
            && p.extraFields == [Field(NormalizeExtraFieldName(name), other)] && FitVersion(p.FullVersion())
            && var path := RepositoryFilename(p, codename);
            path.Ok? && FitPath(path.value) ==> FitRow(Row(p, path.value))
  {
    var text := WrittenAll(ControlFile(name, other));
    ControlFilePackage(name, other, 0, 1);
    ControlFileText(name, other);
    ParsedFits(text);
    FromFileFits(ParsedPackage(text).value, h, data, filename);
    var p := FileOf(h, data, filename, name, other);
    if RepositoryFilename(p, codename).Ok? && FitPath(RepositoryFilename(p, codename).value) {
      PackageRowFits(p, RepositoryFilename(p, codename).value);
    }
  }

  lemma {:induction false} FilenameIsAstray(p: P.Package, codename: string, path: string, other: string)
    requires p.extraFields == [Field(NameOf(FFilename), other)] && OneWord(other) && FitVersion(p.FullVersion())
    requires RepositoryFilename(p, codename) == Ok(path) && FitPath(path) && path != other && FitRow(Row(p, path))
    ensures Legible(p, codename) && Astray(p, codename, other)
  {
    OnlyExtra(p, other);
  }

  lemma {:induction false} LastOfOne(name: string, value: string, asked: string)
    ensures LastOf([Field(name, value)], asked) == if name == asked then Some(value) else None
  {
    assert [Field(name, value)][1..] == [];
  }

  lemma {:induction false} OnlyExtra(p: P.Package, other: string)
    requires p.extraFields == [Field(NameOf(FFilename), other)] && OneWord(other)
    ensures PlainFields(p.extraFields) && LastOf(p.extraFields, NameOf(FVersion)) == None
    ensures LastOf(p.extraFields, NameOf(FFilename)) == Some(other) && Refold(other) == other
  {
    TemplateNamesValid(FFilename);
    WordStays(other);
    assert NameOf(FFilename)[0] == 'F' && NameOf(FVersion)[0] == 'V';
    LastOfOne(NameOf(FFilename), other, NameOf(FVersion));
    LastOfOne(NameOf(FFilename), other, NameOf(FFilename));
  }

  /** So it is for a package file whose control file has the line `XB-Filename: <other>`, whatever the codename. */
  lemma {:induction false} PackageFileGoesAstray(
      w: World, h: Hasher, o: U.Options, data: string, filename: string, other: string, signing: Signing, date: string,
      calls: nat)
    requires RealIndexes(w) && Proper(h) && OneWord(other) && filename != "" && calls >= 2
    requires o == OptionsFor(o.release.codename, o.preserveVersions, o.failIfExists)
    ensures ParsedPackage(WrittenAll(ControlFile("XB-Filename", other))).Ok?
    ensures var p := FileOf(h, data, filename, "XB-Filename", other);
            var path := RepositoryFilename(p, o.release.codename);
            path.Ok? && FitPath(path.value) && path.value != other ==>
              var index := Index(o.release.codename, "main", "amd64", false);
              Dangling(w, AfterUpload(w, o, U.Incoming(p, data), signing, date, calls), index, other)
  {
    UserField();
    FileOfFits(h, data, filename, "XB-Filename", other, o.release.codename);
    PrefixGoes();
    var p := FileOf(h, data, filename, "XB-Filename", other);
    var path := RepositoryFilename(p, o.release.codename);
    if path.Ok? && FitPath(path.value) && path.value != other {
      FilenameIsAstray(p, o.release.codename, path.value, other);
      UploadGoesAstray(w, o, U.Incoming(p, data), other, signing, date, calls);
    }
  }

  lemma {:induction false} UserField()
    ensures UserDefined("XB-Filename")
  {
    assert "XB-Filename"[..1] == "X";
  }

  lemma {:induction false} LaterUserField()
    ensures UserDefined("X-XB-Filename")
  {
    assert "X-XB-Filename"[..1] == "X";
  }

  // ---- a second leading slash

  /** An index of a package whose extra `Filename` has two slashes in front of its own path: verified on a store with
      a prefix, the package loses its body to a clean. */
  lemma {:induction false} SlashedFilenameLosesBody(
      w: World, o: VerifyOptions, objects: Objects, p: P.Package, path: string, a: string, calls: nat)
    requires RealIndexes(w) && PlaceLaw(w) && o.prefix != "" && InPoolOf(o.release.codename, path)
    requires Legible(p, o.release.codename) && Astray(p, o.release.codename, "//" + path)
    requires CleanNames(objects)
    requires var index := Index(o.release.codename, o.component, a, false);
             HoldsThree(objects, o.release.codename, path, index)
             && M.RenderedManifest([p], o.release.codename) == Ok(objects[index])
    requires a in w.parseRelease(objects[ReleaseFile(o.release.codename)]).architectures
    ensures Cleanable(w, objects, o.release.codename) && LosesBody(w, o, objects, path, calls)
  {
    var text, q := IndexAstray(p, o.release.codename, "//" + path);
    forall d ensures w.pathOf(q, d) == Ok("//" + path) {}
    SlashedPathLosesBody(w, o, objects, path, a, q, calls);
  }

  // ---- a second generation

  lemma {:induction false} SecondPrefixGoes()
    ensures NormalizeExtraFieldName("X-XB-Filename") == "XB-Filename"
  {
    var rest := "X-XB-Filename"[1..];
    assert rest[0] == '-';
    assert IndexOf(rest, '-') == 0;
    assert rest[1..] == "XB-Filename";
  }

  /** A package whose control file had a field `X-XB-Filename`: one prefix is gone, one is left. */
  ghost predicate LaterAstray(p: P.Package, codename: string, other: string) {
    && RepositoryFilename(p, codename).Ok? && FitPath(RepositoryFilename(p, codename).value)
    && p.extraFields == [Field("XB-Filename", other)] && OneWord(other)
    && FitRow(Row(p, RepositoryFilename(p, codename).value)) && FitVersion(p.FullVersion())
  }

  lemma {:induction false} NoTemplateExtra(name: string, value: string)
    requires HasPrefix(name, "X")
    ensures NoneTemplate([Field(name, value)])
  {
    forall k: P.Key ensures name != NameOf(k) {
      assert NameOf(k)[0] != 'X';
    }
  }

  lemma {:induction false} ExtraIsWritable(name: string, other: string)
    requires UserDefined(name) && OneWord(other)
    ensures PlainFields([Field(name, other)]) && NoneTemplate([Field(name, other)])
    ensures DistinctNames([Field(name, other)])
  {
    NoTemplateExtra(name, other);
  }

  lemma {:induction false} LaterIsWritable(p: P.Package, path: string, name: string, other: string)
    requires UserDefined(name) && p.extraFields == [Field(name, other)] && OneWord(other) && FitRow(Row(p, path))
    ensures PlainRecord(p, path) && NoneTemplate(p.extraFields) && Writable(RecordFields(p, path))
  {
    ExtraIsWritable(name, other);
    RecordIsPlain(p, path);
    RowDistinct(Row(p, path), p.extraFields, 0);
  }

  lemma {:induction false} RefoldedUntaken(fields: seq<Field>)
    ensures Untaken(Refolded(fields), KEY_COUNT) == Refolded(Untaken(fields, KEY_COUNT))
  {
    if fields != [] {
      var head, rest := Field(fields[0].name, Refold(fields[0].value)), Refolded(fields[1..]);
      RefoldedUntaken(fields[1..]);
      assert ([head] + rest)[1..] == rest;
      if !TakenName(KEY_COUNT, fields[0].name) {
        assert ([fields[0]] + Untaken(fields[1..], KEY_COUNT))[1..] == Untaken(fields[1..], KEY_COUNT);
      }
    }
  }

  /** The fields left over when the record is read back. */
  lemma {:induction false} LaterUntaken(p: P.Package, path: string, other: string)
    requires p.extraFields == [Field("XB-Filename", other)] && OneWord(other)
    requires NoneTemplate(p.extraFields) && Writable(RecordFields(p, path))
    ensures Untaken(ParseFields(WrittenAll(RecordFields(p, path))), KEY_COUNT) == p.extraFields
  {
    ParseWritten(RecordFields(p, path));
    RefoldedUntaken(RecordFields(p, path));
    UntakenRow(Row(p, path), p.extraFields, 0);
    WordStays(other);
    assert p.extraFields[1..] == [];
  }

  lemma {:induction false} LaterLookups(other: string)
    ensures LastOf([Field("XB-Filename", other)], NameOf(FFilename)) == None
    ensures LastOf([Field("XB-Filename", other)], NameOf(FVersion)) == None
  {
    assert NameOf(FFilename)[0] == 'F' && NameOf(FVersion)[0] == 'V';
    LastOfOne("XB-Filename", other, NameOf(FFilename));
    LastOfOne("XB-Filename", other, NameOf(FVersion));
  }

  lemma {:induction false} LaterFields(p: P.Package, path: string, other: string)
    requires p.extraFields == [Field("XB-Filename", other)] && OneWord(other)
    requires Canonical(path) && PlainRecord(p, path) && Writable(RecordFields(p, path))
    ensures var fields := ParseFields(WrittenAll(RecordFields(p, path)));
            && Writable(fields) && FieldValue(fields, FFilename) == Some(path)
            && FieldValue(fields, FVersion) == Some(Refold(p.FullVersion()))
  {
    LaterLookups(other);
    ParseWritten(RecordFields(p, path));
    RefoldedIsWritable(RecordFields(p, path));
    FilenameRead(p, path);
    VersionRead(p, path);
  }

  /** Read back, the package has its path, and an extra `Filename`. */
  lemma {:induction false} LaterRead(p: P.Package, codename: string, path: string, other: string)
    requires LaterAstray(p, codename, other) && RepositoryFilename(p, codename) == Ok(path)
    ensures PlainRecord(p, path)
    ensures ReadFrom(ParsedPackage(WrittenAll(RecordFields(p, path))), p.extraFields, path)
  {
    UserField();
    LaterIsWritable(p, path, "XB-Filename", other);
    LaterUntaken(p, path, other);
    LaterFields(p, path, other);
    RefoldVersion(p.FullVersion());
    FieldsRead(ParseFields(WrittenAll(RecordFields(p, path))), path, Refold(p.FullVersion()));
  }

  lemma {:induction false} LaterIsAstray(
      r: Result<P.Package>, extra: seq<Field>, codename: string, path: string, other: string)
    requires ReadFrom(r, extra, path) && extra == [Field("XB-Filename", other)] && OneWord(other) && FitPath(path)
    ensures RepositoryFilename(r.value, codename) == Ok(path)
    ensures other != path ==> Legible(r.value, codename) && Astray(r.value, codename, other)
  {
    OneExtra("XB-Filename", other);
    PrefixGoes();
    PackageRowFits(r.value, path);
    if other != path {
      FilenameIsAstray(r.value, codename, path, other);
    }
  }

  /** Its index is read back under its own path, and the index printed from what was read is read back under the other
      one. */
  lemma {:induction false} SecondPrintGoesAstray(p: P.Package, codename: string, path: string, other: string)
    returns (first: string, second: string, q: P.Package, r: P.Package)
    requires LaterAstray(p, codename, other) && RepositoryFilename(p, codename) == Ok(path) && other != path
    ensures M.RenderedManifest([p], codename) == Ok(first) && M.ParsedPackages(first) == Ok([q])
    ensures RepositoryFilename(q, codename) == Ok(path)
    ensures M.RenderedManifest([q], codename) == Ok(second) && M.ParsedPackages(second) == Ok([r])
    ensures r.indexFilename == Some(other)
  {
    LaterRead(p, codename, path, other);
    RecordIsPlain(p, path);
    var read := ParsedPackage(WrittenAll(RecordFields(p, path)));
    LaterIsAstray(read, p.extraFields, codename, path, other);
    var lines := PlainBlock(p, codename, path);
    q := read.value;
    OneBlock(p, codename, lines, q);
    first := M.RenderedManifest([p], codename).value;
    second, r := IndexAstray(q, codename, other);
  }

  lemma {:induction false} BodyElsewhere(
      w: World, path: string, body: string, index: Keys.Key, text: string, r: P.Package, other: string)
    requires RealIndexes(w) && index.Index? && !index.gz && other != path
    requires w.parsePackages(text) == Ok([r]) && r.indexFilename == Some(other)
    ensures Dangling(w, map[Pool(path) := body, index := text], index, other)
  {
    ReadsOther(w, r, other);
    NamesAbsent(w, map[Pool(path) := body, index := text], index, text, r, other);
  }

  /** Every package read from the text has this path. */
  ghost predicate NamesOnly(w: World, text: string, codename: string, path: string) {
    && w.parsePackages(text).Ok?
    && forall q :: q in w.parsePackages(text).value ==> w.pathOf(q, codename) == Ok(path)
  }

  /** The index of the package names its body, and an index printed from what is read of that one dangles although the
      body is there. */
  ghost predicate SecondDangles(
    w: World, p: P.Package, body: string, codename: string, path: string, other: string, index: Keys.Key, first: string,
    second: string)
  {
    && w.printPackages([p], codename) == Ok(first) && NamesOnly(w, first, codename, path)
    && w.printPackages(w.parsePackages(first).value, codename) == Ok(second)
    && Dangling(w, map[Pool(path) := body, index := second], index, other)
  }

  lemma {:induction false} SecondIndexDangles(
      w: World, p: P.Package, body: string, codename: string, path: string, other: string, index: Keys.Key)
    returns (first: string, second: string)
    requires RealIndexes(w) && index.Index? && !index.gz
    requires LaterAstray(p, codename, other) && RepositoryFilename(p, codename) == Ok(path) && other != path
    ensures SecondDangles(w, p, body, codename, path, other, index, first, second)
  {
    var q, r;
    first, second, q, r := SecondPrintGoesAstray(p, codename, path, other);
    BodyElsewhere(w, path, body, index, second, r, other);
  }

  /** So it is for a package file whose control file has the line `X-XB-Filename: <other>`. */
  lemma {:induction false} LaterIndexGoesAstray(
      w: World, h: Hasher, data: string, filename: string, other: string, codename: string, index: Keys.Key)
    returns (first: string, second: string)
    requires RealIndexes(w) && Proper(h) && OneWord(other) && index.Index? && !index.gz
    ensures ParsedPackage(WrittenAll(ControlFile("X-XB-Filename", other))).Ok?
    ensures var p := FileOf(h, data, filename, "X-XB-Filename", other);
            var path := RepositoryFilename(p, codename);
            path.Ok? && FitPath(path.value) && other != path.value ==>
              SecondDangles(w, p, data, codename, path.value, other, index, first, second)
  {
    LaterUserField();
    FileOfFits(h, data, filename, "X-XB-Filename", other, codename);
    SecondPrefixGoes();
    var p := FileOf(h, data, filename, "X-XB-Filename", other);
    var path := RepositoryFilename(p, codename);
    first, second := "", "";
    if path.Ok? && FitPath(path.value) && other != path.value {
      first, second := SecondIndexDangles(w, p, data, codename, path.value, other, index);
    }
  }
}
