/** Any package whose record can be written at all reads back under its path, and can be written again. Values may be
    indented, end in blank lines or hold lone dots: the text may settle differently, but the path stays. */
module Rereading {
  import opened Text
  import opened Control
  import opened Dependency
  import opened Package
  import opened Index = Manifest

  // ---- what can be written

  predicate Fits(value: Option<string>) {
    value.Some? ==> '\r' !in value.value
  }

  ghost predicate FitRow(row: seq<Option<string>>) {
    forall i :: 0 <= i < |row| ==> Fits(row[i])
  }

  /** One line that is not blank. */
  predicate FitVersion(full: string) {
    '\n' !in full && '\r' !in full && TrimSpace(full) != ""
  }

  predicate FitPath(path: string) {
    Canonical(path) && '\r' !in path
  }

  /** A field name that stays one however often parsing takes a prefix off it. */
  predicate SoundName(name: string)
    decreases |name|
  {
    FieldName(name) && (NormalizeExtraFieldName(name) == name || SoundName(NormalizeExtraFieldName(name)))
  }

  /** The name a field has once parsing takes no more prefixes off it. */
  function CoreName(name: string): string
    decreases |name|
  {
    if NormalizeExtraFieldName(name) == name then name else CoreName(NormalizeExtraFieldName(name))
  }

  /** An extra field that can be written and will never name another path nor an unwritable version, however often the
      record is read and written. */
  ghost predicate FitExtra(f: Field, path: string) {
    && SoundName(f.name) && '\r' !in f.value
    && (CoreName(f.name) == NameOf(FFilename) ==> Refold(f.value) == path)
    && (CoreName(f.name) == NameOf(FVersion) ==> FitVersion(f.value))
  }

  ghost predicate FitExtras(extra: seq<Field>, path: string) {
    forall i :: 0 <= i < |extra| ==> FitExtra(extra[i], path)
  }

  ghost predicate Printable(p: Package, path: string) {
    FitRow(Row(p, path)) && FitExtras(p.extraFields, path) && FitVersion(p.FullVersion()) && FitPath(path)
  }

  ghost predicate PlainRecord(p: Package, path: string) {
    FitRow(Row(p, path)) && PlainFields(p.extraFields)
  }

  lemma {:induction false} RowMember(row: seq<Option<string>>, f: Field) returns (k: Key)
    requires |row| == KEY_COUNT && FitRow(row) && f in RowFields(row, 0)
    ensures f.name == NameOf(k) && '\r' !in f.value
  {
    var j :| 0 <= j < |RowFields(row, 0)| && RowFields(row, 0)[j] == f;
    AppendEmpty(RowFields(row, 0));
    RowNames(row, [], 0, j);
    var i :| 0 <= i < KEY_COUNT && row[i].Some? && f == Field(NameOf(KeyAt(i)), row[i].value);
    assert Fits(row[i]);
    k := KeyAt(i);
  }

  lemma {:induction false} RowIsPlain(row: seq<Option<string>>)
    requires |row| == KEY_COUNT && FitRow(row)
    ensures Writable(RowFields(row, 0))
  {
    var fields := RowFields(row, 0);
    AppendEmpty(fields);
    RowDistinct(row, [], 0);
    forall j | 0 <= j < |fields| ensures FieldName(fields[j].name) && '\r' !in fields[j].value {
      var k := RowMember(row, fields[j]);
      TemplateNamesValid(k);
    }
  }

  lemma {:induction false} PlainAppend(a: seq<Field>, b: seq<Field>)
    requires PlainFields(a) && PlainFields(b)
    ensures PlainFields(a + b)
  {}

  lemma {:induction false} RecordIsPlain(p: Package, path: string)
    requires PlainRecord(p, path)
    ensures PlainFields(RecordFields(p, path))
  {
    RowIsPlain(Row(p, path));
    PlainAppend(RowFields(Row(p, path), 0), p.extraFields);
  }

  lemma {:induction false} FitExtrasPlain(extra: seq<Field>, path: string)
    requires FitExtras(extra, path)
    ensures PlainFields(extra)
  {
    forall i | 0 <= i < |extra| ensures FieldName(extra[i].name) && '\r' !in extra[i].value {
      assert FitExtra(extra[i], path);
    }
  }

  // ---- fields folded once

  function Folded(value: Option<string>): Option<string> {
    if value.None? then None else Some(Refold(value.value))
  }

  // ---- versions

  lemma {:induction false} OneLine(value: string)
    requires '\n' !in value && value != ""
    ensures ValueLines(value) == [value]
  {
    SplitOne(value, '\n');
  }

  lemma {:induction false} RefoldOneLineTrims(value: string)
    requires '\n' !in value && value != ""
    ensures Refold(value) == TrimSpace(value)
  {
    OneLine(value);
    assert [value][1..] == [];
  }

  /** A version on one line is read back without the blanks around it. */
  lemma {:induction false} RefoldVersion(full: string)
    requires FitVersion(full)
    ensures Refold(full) == TrimSpace(full) && FitVersion(Refold(full))
  {
    assert full != "";
    RefoldOneLineTrims(full);
    TrimSpaceChars(full, '\n');
    TrimSpaceChars(full, '\r');
    TrimmedIsFixed(TrimSpace(full));
  }

  lemma {:induction false} TrimmedAppend(s: string, t: string)
    requires TrimSpace(s) != ""
    ensures TrimSpace(s + t) != ""
  {
    BlankMeansAllSpace(s);
    BlankMeansAllSpace(s + t);
    var c :| c in s && !IsSpace(c);
    assert c in s + t;
  }

  /** What is printed for the parts of a version that fits its line fits its line. */
  lemma {:induction false} PrintedVersionFits(full: string)
    requires FitVersion(full)
    ensures ParsedVersion(full).Some? && FitVersion(VersionText(ParsedVersion(full).value))
  {
    assert full != "";
    PrintedVersion(full);
    TrimmedAppend(full, "-");
  }

  // ---- extra fields

  lemma {:induction false} RefoldKeepsFit(f: Field, path: string)
    requires FitExtra(f, path) && Canonical(path)
    ensures FitExtra(Field(f.name, Refold(f.value)), path)
  {
    RefoldChars(f.value);
    SurvivesIffCanonical(path);
    if FitVersion(f.value) {
      RefoldVersion(f.value);
    }
  }

  lemma {:induction false} SetKeepsFit(extra: seq<Field>, f: Field, path: string)
    requires FitExtras(extra, path) && FitExtra(f, path)
    ensures FitExtras(SetField(extra, f.name, f.value), path)
  {}

  lemma {:induction false} RenamingKeepsFit(f: Field, path: string)
    requires FitExtra(f, path)
    ensures FitExtra(Field(NormalizeExtraFieldName(f.name), f.value), path)
  {}

  /** Renaming and merging keep extra fields fit. */
  lemma {:induction false} MergingKeepsFit(fields: seq<Field>, extra: seq<Field>, path: string)
    requires FitExtras(fields, path) && FitExtras(extra, path)
    ensures FitExtras(ExtraFields(fields, extra), path)
    decreases |fields|
  {
    if fields != [] {
      var f := Field(NormalizeExtraFieldName(fields[0].name), fields[0].value);
      assert FitExtra(fields[0], path);
      RenamingKeepsFit(fields[0], path);
      SetKeepsFit(extra, f, path);
      MergingKeepsFit(fields[1..], SetField(extra, f.name, f.value), path);
    }
  }

  ghost predicate FitOrTaken(fields: seq<Field>, path: string) {
    forall i :: 0 <= i < |fields| ==> TakenName(KEY_COUNT, fields[i].name) || FitExtra(fields[i], path)
  }

  lemma {:induction false} UntakenFit(fields: seq<Field>, path: string)
    requires FitOrTaken(fields, path)
    ensures FitExtras(Untaken(fields, KEY_COUNT), path)
  {
    if fields != [] {
      assert TakenName(KEY_COUNT, fields[0].name) || FitExtra(fields[0], path);
      UntakenFit(fields[1..], path);
    }
  }

  /** What is read back of a record of fit fields: template fields and fit extra fields. */
  lemma {:induction false} ReadBackFit(p: Package, path: string)
    requires Printable(p, path)
    ensures PlainRecord(p, path)
    ensures var fields := ParseFields(WrittenAll(RecordFields(p, path))); Writable(fields) && FitOrTaken(fields, path)
  {
    FitExtrasPlain(p.extraFields, path);
    RecordIsPlain(p, path);
    var written := RecordFields(p, path);
    var fields := ParseFields(WrittenAll(written));
    forall j | 0 <= j < |fields|
      ensures FieldName(fields[j].name) && '\r' !in fields[j].value
      ensures TakenName(KEY_COUNT, fields[j].name) || FitExtra(fields[j], path)
    {
      ParsedWereWritten(written, fields[j]);
      var i :| 0 <= i < |written| && fields[j] == Field(written[i].name, Refold(written[i].value));
      RefoldChars(written[i].value);
      RecordMember(p, path, written[i]);
      if FitExtra(written[i], path) {
        RefoldKeepsFit(written[i], path);
      }
    }
  }

  lemma {:induction false} RecordMember(p: Package, path: string, f: Field)
    requires Printable(p, path) && f in RecordFields(p, path)
    ensures TakenName(KEY_COUNT, f.name) || FitExtra(f, path)
  {
    if f in RowFields(Row(p, path), 0) {
      var k := RowMember(Row(p, path), f);
      TakenNameOfKey(k);
    }
  }

  // ---- the values of a parsed package

  lemma {:induction false} LookupFits(fields: seq<Field>, name: string)
    requires forall i :: 0 <= i < |fields| ==> '\r' !in fields[i].value
    ensures Fits(Lookup(fields, name))
  {}

  lemma {:induction false} ValuesFit(fields: seq<Field>)
    requires forall i :: 0 <= i < |fields| ==> '\r' !in fields[i].value
    ensures FitRow(TakenValues(fields))
  {
    forall i | 0 <= i < KEY_COUNT ensures Fits(TakenValues(fields)[i]) {
      TakenValuesAt(fields, i);
      LookupFits(fields, NameOf(TakenAt(i)));
    }
  }

  predicate FitText(s: string) {
    '\r' !in s
  }

  /** Every text of the package that the template prints. */
  ghost predicate FitPackage(p: Package) {
    && FitText(p.name) && FitText(p.FullVersion()) && FitText(p.license) && FitText(p.vendor) && FitText(p.architecture)
    && FitText(p.maintainer) && FitText(p.category)
    && Fits(p.installedSize) && Fits(p.priority) && Fits(p.homepage) && Fits(p.description)
    && Fits(p.origin) && Fits(p.size) && Fits(p.sha1) && Fits(p.sha256) && Fits(p.md5)
    && Fits(p.breaks) && Fits(p.preDepends) && Fits(p.providing) && Fits(p.replacing)
    && Fits(p.recommends) && Fits(p.suggests) && Fits(p.enhances)
  }

  lemma {:induction false} TemplateFits(
      p: Package, path: string, depends: Option<string>, conflicts: Option<string>, k: Key)
    requires FitPackage(p) && FitText(path) && Fits(depends) && Fits(conflicts)
    ensures Fits(TemplateValue(p, path, depends, conflicts, k))
  {}

  ghost predicate FitRelations(p: Package) {
    Free(p.dependencies, '\r') && Fits(p.conflicts) && !p.ignoreIteration
  }

  lemma {:induction false} RelationsFit(p: Package)
    requires FitRelations(p)
    ensures Fits(DependsOf(p)) && Fits(ConflictsOf(p))
  {
    var all := NormalizedAll(p.dependencies, false);
    NormalizedAllFree(p.dependencies, '\r');
    JoinedFree(all.0, ", ", '\r');
    var own := if p.conflicts.Some? then [p.conflicts.value] else [];
    FreeAppend(own, all.1, '\r');
    JoinedFree(own + all.1, ", ", '\r');
  }

  lemma {:induction false} PackageRowFits(p: Package, path: string)
    requires FitPackage(p) && FitRelations(p) && FitText(path)
    ensures FitRow(Row(p, path))
  {
    RelationsFit(p);
    forall i | 0 <= i < KEY_COUNT ensures Fits(Row(p, path)[i]) {
      RowAt(p, path, i);
      TemplateFits(p, path, DependsOf(p), ConflictsOf(p), KeyAt(i));
    }
  }

  lemma {:induction false} FromValuesFit(
      values: seq<Option<string>>, depends: string, version: Version, extra: seq<Field>)
    requires |values| == KEY_COUNT && FitRow(values) && FitText(depends) && FitText(VersionText(version))
    ensures var q := FromValues(values, ParsedDependencies(depends), version, extra);
            FitPackage(q) && FitRelations(q)
  {
    ParsedFree(depends, '\r');
    assert FitText("unknown") && FitText("none") && FitText("");
    forall i | 0 <= i < KEY_COUNT ensures Fits(values[i]) {}
  }

  /** The package of a control file without carriage returns holds none, once its version holds none. */
  lemma {:induction false} ParsedFits(text: string)
    requires '\r' !in text && ParsedPackage(text).Ok? && FitText(ParsedPackage(text).value.FullVersion())
    ensures FitPackage(ParsedPackage(text).value) && FitRelations(ParsedPackage(text).value)
  {
    var fields, p := ParseFields(text), ParsedPackage(text).value;
    ParsedIsWritable(text);
    var values := TakenValues(fields);
    ValuesFit(fields);
    assert Fits(values[17]);
    FromValuesFit(values, values[17].GetOr(""), p.version, p.extraFields);
  }

  /** A package under the path that can be written again. */
  ghost predicate ReadUnder(r: Result<Package>, path: string) {
    r.Ok? && r.value.indexFilename == Some(path) && r.value.filename == "" && Printable(r.value, path)
  }

  lemma {:induction false} FitIsPrintable(q: Package, path: string)
    requires FitPackage(q) && FitRelations(q) && FitVersion(q.FullVersion()) && FitExtras(q.extraFields, path)
    requires FitPath(path)
    ensures Printable(q, path)
  {
    PackageRowFits(q, path);
  }

  /** What is read under the path from values that fit, whatever the extra fields are. */
  ghost predicate ReadFrom(r: Result<Package>, extra: seq<Field>, path: string) {
    && r.Ok? && r.value.indexFilename == Some(path) && r.value.filename == ""
    && r.value.extraFields == ExtraFields(extra, []) && FitVersion(r.value.FullVersion())
    && FitPackage(r.value) && FitRelations(r.value)
  }

  lemma {:induction false} ValuesRead(values: seq<Option<string>>, extra: seq<Field>, path: string, full: string)
    requires |values| == KEY_COUNT && FitRow(values)
    requires values[11] == Some(path) && values[0] == Some(full) && FitVersion(full)
    ensures ReadFrom(PackageFrom(values, extra), extra, path)
  {
    PrintedVersionFits(full);
    assert Fits(values[17]);
    FromValuesFit(values, values[17].GetOr(""), ParsedVersion(full).value, ExtraFields(extra, []));
  }

  lemma {:induction false} TakenFirst(fields: seq<Field>, j: nat, k: Key)
    requires j < KEY_COUNT && TakenAt(j) == k
    ensures TakenValues(fields)[j] == FieldValue(fields, k)
  {
    TakenValuesAt(fields, j);
    TakenValueOf(fields, j, k);
  }

  lemma {:induction false} TakenRead(fields: seq<Field>, path: string, full: string, i: nat, j: nat)
    requires Writable(fields)
    requires i == 0 && j == 11 && TakenAt(i) == FVersion && TakenAt(j) == FFilename
    requires FieldValue(fields, FFilename) == Some(path)
    requires FieldValue(fields, FVersion) == Some(full) && FitVersion(full)
    ensures ReadFrom(PackageOf(fields), Untaken(fields, KEY_COUNT), path)
  {
    ValuesFit(fields);
    TakenFirst(fields, i, FVersion);
    TakenFirst(fields, j, FFilename);
    ValuesRead(TakenValues(fields), Untaken(fields, KEY_COUNT), path, full);
  }

  lemma {:induction false} FieldsRead(fields: seq<Field>, path: string, full: string)
    requires Writable(fields) && FieldValue(fields, FFilename) == Some(path)
    requires FieldValue(fields, FVersion) == Some(full) && FitVersion(full)
    ensures ReadFrom(PackageOf(fields), Untaken(fields, KEY_COUNT), path)
  {
    TakenRead(fields, path, full, 0, 11);
  }

  lemma {:induction false} ReadFromIsReadUnder(r: Result<Package>, extra: seq<Field>, path: string)
    requires ReadFrom(r, extra, path) && FitExtras(extra, path) && FitPath(path)
    ensures ReadUnder(r, path)
  {
    MergingKeepsFit(extra, [], path);
    FitIsPrintable(r.value, path);
  }

  /** Written fields with a version and a path parse to a package under that path that can be written again. */
  lemma {:induction false} FieldsReread(fields: seq<Field>, path: string, full: string)
    requires Writable(fields) && FitExtras(Untaken(fields, KEY_COUNT), path)
    requires FieldValue(fields, FFilename) == Some(path) && FitPath(path)
    requires FieldValue(fields, FVersion) == Some(full) && FitVersion(full)
    ensures ReadUnder(PackageOf(fields), path)
  {
    FieldsRead(fields, path, full);
    ReadFromIsReadUnder(PackageOf(fields), Untaken(fields, KEY_COUNT), path);
  }

  // ---- a record read back

  lemma {:induction false} PathOfTemplate(p: Package, path: string, depends: Option<string>, conflicts: Option<string>)
    ensures TemplateValue(p, path, depends, conflicts, FFilename) == Some(path)
    ensures TemplateValue(p, path, depends, conflicts, FVersion) == Some(p.FullVersion())
  {}

  lemma {:induction false} FilenameInRow(p: Package, path: string)
    ensures Row(p, path)[Ordinal(FFilename)] == Some(path)
  {
    KeyAtOrdinal(FFilename);
    RowAt(p, path, Ordinal(FFilename));
    PathOfTemplate(p, path, DependsOf(p), ConflictsOf(p));
  }

  lemma {:induction false} VersionInRow(p: Package, path: string)
    ensures Row(p, path)[Ordinal(FVersion)] == Some(p.FullVersion())
  {
    KeyAtOrdinal(FVersion);
    RowAt(p, path, Ordinal(FVersion));
    PathOfTemplate(p, path, DependsOf(p), ConflictsOf(p));
  }

  // ---- extra fields named like template fields

  lemma {:induction false} RowLookup(row: seq<Option<string>>, k: Key)
    requires |row| == KEY_COUNT && FitRow(row)
    ensures LastOf(RowFields(row, 0), NameOf(k)) == row[Ordinal(k)]
  {
    RowIsPlain(row);
    LastIsOnly(RowFields(row, 0), NameOf(k));
    WrittenAt(row, [], k);
    AppendEmpty(RowFields(row, 0));
  }

  /** A template field is read back from its own line, unless an extra field has its name: then the last of them
      wins. */
  lemma {:induction false} ExtraFieldWins(p: Package, path: string, k: Key)
    requires PlainRecord(p, path)
    ensures var extra := LastOf(p.extraFields, NameOf(k));
            FieldValue(ParseFields(WrittenAll(RecordFields(p, path))), k)
            == Folded(if extra.Some? then extra else Row(p, path)[Ordinal(k)])
  {
    var row := RowFields(Row(p, path), 0);
    RowIsPlain(Row(p, path));
    PlainAppend(row, p.extraFields);
    ParseKeepsLast(RecordFields(p, path), NameOf(k));
    LastOfAppend(row, p.extraFields, NameOf(k));
    RowLookup(Row(p, path), k);
  }

  lemma {:induction false} ParsedFilename(fields: seq<Field>)
    requires PackageOf(fields).Ok?
    ensures PackageOf(fields).value.indexFilename == FieldValue(fields, FFilename)
  {
    TakenFirst(fields, 11, FFilename);
  }

  lemma {:induction false} FilenameRead(p: Package, path: string)
    requires PlainRecord(p, path) && Canonical(path)
    ensures var extra := LastOf(p.extraFields, NameOf(FFilename));
            FieldValue(ParseFields(WrittenAll(RecordFields(p, path))), FFilename)
            == Some(if extra.Some? then Refold(extra.value) else path)
  {
    ExtraFieldWins(p, path, FFilename);
    FilenameInRow(p, path);
    SurvivesIffCanonical(path);
  }

  /** A record keeps the path of its package exactly when no extra field names another one. */
  lemma {:induction false} PathKept(p: Package, path: string)
    requires PlainRecord(p, path) && Canonical(path)
    ensures var text, extra := WrittenAll(RecordFields(p, path)), LastOf(p.extraFields, NameOf(FFilename));
            ParsedPackage(text).Ok? ==>
              (ParsedPackage(text).value.indexFilename == Some(path) <==> extra.None? || Refold(extra.value) == path)
  {
    var text := WrittenAll(RecordFields(p, path));
    FilenameRead(p, path);
    if ParsedPackage(text).Ok? {
      ParsedFilename(ParseFields(text));
    }
  }

  lemma {:induction false} LastIsMember(fields: seq<Field>, name: string)
    requires LastOf(fields, name).Some?
    ensures Field(name, LastOf(fields, name).value) in fields
  {
    if LastOf(fields[1..], name).Some? {
      LastIsMember(fields[1..], name);
    }
  }

  predicate PathOrVersion(k: Key) {
    k == FFilename || k == FVersion
  }

  /** A value that the record may have under the name of `k`. */
  ghost predicate FitFor(k: Key, value: string, path: string) {
    (k == FFilename ==> Refold(value) == path) && (k == FVersion ==> FitVersion(value))
  }

  lemma {:induction false} CoreStays(name: string)
    requires !HasPrefix(name, "X")
    ensures CoreName(name) == name
  {}

  lemma {:induction false} NoPrefix(k: Key)
    requires PathOrVersion(k)
    ensures !HasPrefix(NameOf(k), "X")
  {
    assert NameOf(k)[0] != 'X';
  }

  lemma {:induction false} CoreOfKey(k: Key)
    requires PathOrVersion(k)
    ensures CoreName(NameOf(k)) == NameOf(k)
  {
    NoPrefix(k);
    CoreStays(NameOf(k));
  }

  lemma {:induction false} FitForCore(f: Field, k: Key, path: string)
    requires FitExtra(f, path) && PathOrVersion(k) && CoreName(f.name) == NameOf(k)
    ensures FitFor(k, f.value, path)
  {}

  lemma {:induction false} LastIsFit(extra: seq<Field>, path: string, k: Key)
    requires FitExtras(extra, path) && LastOf(extra, NameOf(k)).Some? && PathOrVersion(k)
    ensures FitFor(k, LastOf(extra, NameOf(k)).value, path)
  {
    LastIsMember(extra, NameOf(k));
    CoreOfKey(k);
    FitForCore(Field(NameOf(k), LastOf(extra, NameOf(k)).value), k, path);
  }

  lemma {:induction false} OwnIsFit(p: Package, path: string, k: Key)
    requires Printable(p, path) && PathOrVersion(k)
    ensures Row(p, path)[Ordinal(k)].Some? && FitFor(k, Row(p, path)[Ordinal(k)].value, path)
  {
    if k == FFilename {
      FilenameInRow(p, path);
      SurvivesIffCanonical(path);
    } else {
      VersionInRow(p, path);
    }
  }

  /** What is read back under the name of `k`. */
  lemma {:induction false} FitFieldRead(p: Package, path: string, k: Key) returns (value: string)
    requires Printable(p, path) && PlainRecord(p, path) && PathOrVersion(k)
    ensures FieldValue(ParseFields(WrittenAll(RecordFields(p, path))), k) == Some(Refold(value))
    ensures FitFor(k, value, path)
  {
    var extra := LastOf(p.extraFields, NameOf(k));
    ExtraFieldWins(p, path, k);
    if extra.Some? {
      value := extra.value;
      LastIsFit(p.extraFields, path, k);
    } else {
      OwnIsFit(p, path, k);
      value := Row(p, path)[Ordinal(k)].value;
    }
  }

  lemma {:induction false} VersionRead(p: Package, path: string)
    requires PlainRecord(p, path)
    ensures var extra := LastOf(p.extraFields, NameOf(FVersion));
            FieldValue(ParseFields(WrittenAll(RecordFields(p, path))), FVersion)
            == Some(Refold(if extra.Some? then extra.value else p.FullVersion()))
  {
    ExtraFieldWins(p, path, FVersion);
    VersionInRow(p, path);
  }

  /** A printable package reads back, from its own record, as a printable package under the same path. */
  lemma {:induction false} RecordReread(p: Package, path: string)
    requires Printable(p, path)
    ensures PlainFields(RecordFields(p, path)) && ReadUnder(ParsedPackage(WrittenAll(RecordFields(p, path))), path)
  {
    var fields := ParseFields(WrittenAll(RecordFields(p, path)));
    ReadBackFit(p, path);
    RecordIsPlain(p, path);
    UntakenFit(fields, path);
    var name := FitFieldRead(p, path, FFilename);
    var full := FitFieldRead(p, path, FVersion);
    RefoldVersion(full);
    FieldsReread(fields, path, Refold(full));
  }

  // ---- name and version

  /** Name and version are written in canonical form, and no extra field has the name of theirs. */
  ghost predicate KeepsIdentity(p: Package) {
    && Canonical(p.name) && Canonical(p.FullVersion()) && ParsedVersion(p.FullVersion()) == Some(p.version)
    && LastOf(p.extraFields, NameOf(FPackage)).None? && LastOf(p.extraFields, NameOf(FVersion)).None?
  }

  lemma {:induction false} ValuesIdentity(values: seq<Option<string>>, extra: seq<Field>, name: string, full: string)
    requires |values| == KEY_COUNT && values[5] == Some(name) && values[0] == Some(full)
    requires PackageFrom(values, extra).Ok?
    ensures PackageFrom(values, extra).value.name == name
    ensures Some(PackageFrom(values, extra).value.version) == ParsedVersion(full)
  {}

  lemma {:induction false} TakenIdentity(fields: seq<Field>, name: string, full: string, i: nat, j: nat)
    requires i == 0 && j == 5 && TakenAt(i) == FVersion && TakenAt(j) == FPackage
    requires FieldValue(fields, FPackage) == Some(name) && FieldValue(fields, FVersion) == Some(full)
    requires PackageOf(fields).Ok?
    ensures PackageOf(fields).value.name == name && Some(PackageOf(fields).value.version) == ParsedVersion(full)
  {
    TakenFirst(fields, i, FVersion);
    TakenFirst(fields, j, FPackage);
    ValuesIdentity(TakenValues(fields), Untaken(fields, KEY_COUNT), name, full);
  }

  lemma {:induction false} NameInRow(p: Package, path: string)
    ensures Row(p, path)[Ordinal(FPackage)] == Some(p.name)
  {
    KeyAtOrdinal(FPackage);
    RowAt(p, path, Ordinal(FPackage));
  }

  /** Such a package is read back with its name and its version. */
  lemma {:induction false} IdentityKept(p: Package, path: string)
    requires PlainRecord(p, path) && KeepsIdentity(p) && ParsedPackage(WrittenAll(RecordFields(p, path))).Ok?
    ensures var q := ParsedPackage(WrittenAll(RecordFields(p, path))).value;
            q.name == p.name && q.FullVersion() == p.FullVersion()
  {
    var fields := ParseFields(WrittenAll(RecordFields(p, path)));
    ExtraFieldWins(p, path, FPackage);
    NameInRow(p, path);
    VersionRead(p, path);
    SurvivesIffCanonical(p.name);
    SurvivesIffCanonical(p.FullVersion());
    TakenIdentity(fields, p.name, p.FullVersion(), 0, 5);
  }

  // ---- a whole index

  ghost predicate Indexable(p: Package, codename: string) {
    RepositoryFilename(p, codename).Ok? && Printable(p, RepositoryFilename(p, codename).value)
  }

  /** What is read back of `p`: a package under the path of `p` that can be written again, with the same name and
      version if these can be read back. */
  ghost predicate RereadOf(p: Package, codename: string, q: Package) {
    && RepositoryFilename(p, codename).Ok? && ReadUnder(Ok(q), RepositoryFilename(p, codename).value)
    && (KeepsIdentity(p) ==> q.name == p.name && q.FullVersion() == p.FullVersion())
  }

  /** The record of a package as a block of an index. */
  lemma {:induction false} PlainBlock(p: Package, codename: string, path: string) returns (lines: seq<string>)
    requires RepositoryFilename(p, codename) == Ok(path) && PlainFields(RecordFields(p, path))
    requires ParsedPackage(WrittenAll(RecordFields(p, path))).Ok?
    ensures Rendered(p, codename) == Ok(Unlines(lines))
    ensures Block(ParsedPackage, lines, ParsedPackage(WrittenAll(RecordFields(p, path))).value)
  {
    var fields := RecordFields(p, path);
    RecordStarts(p, path);
    WritableLines(fields);
    lines := AllFoldedLines(fields);
    SameFieldsSamePackage(Join(lines, "\n"), Unlines(lines));
  }

  lemma {:induction false} PrintedBlock(p: Package, codename: string) returns (lines: seq<string>, q: Package)
    requires Indexable(p, codename)
    ensures Rendered(p, codename) == Ok(Unlines(lines)) && Block(ParsedPackage, lines, q) && RereadOf(p, codename, q)
  {
    var path := RepositoryFilename(p, codename).value;
    RecordReread(p, path);
    lines := PlainBlock(p, codename, path);
    q := ParsedPackage(WrittenAll(RecordFields(p, path))).value;
    if KeepsIdentity(p) {
      FitExtrasPlain(p.extraFields, path);
      IdentityKept(p, path);
    }
  }

  ghost predicate RereadAll(packages: seq<Package>, codename: string, again: seq<Package>) {
    |again| == |packages| && forall i :: 0 <= i < |packages| ==> RereadOf(packages[i], codename, again[i])
  }

  lemma {:induction false} RereadCons(packages: seq<Package>, codename: string, q: Package, others: seq<Package>)
    requires packages != [] && RereadOf(packages[0], codename, q) && RereadAll(packages[1..], codename, others)
    ensures RereadAll(packages, codename, [q] + others)
  {
    forall i | 0 <= i < |packages| ensures RereadOf(packages[i], codename, ([q] + others)[i]) {
      if i > 0 {
        assert packages[i] == packages[1..][i - 1];
      }
    }
  }

  lemma {:induction false} BlocksCons(parse: string -> Result<Package>, lines: seq<string>, q: Package,
                                      blocks: seq<seq<string>>, again: seq<Package>)
    requires Block(parse, lines, q) && Blocks(parse, blocks, again)
    ensures Blocks(parse, [lines] + blocks, [q] + again)
  {}

  lemma {:induction false} UnblockedCons(lines: seq<string>, blocks: seq<seq<string>>)
    ensures Unblocked([lines] + blocks) == [Unlines(lines)] + Unblocked(blocks)
  {
    assert ([lines] + blocks)[1..] == blocks;
  }

  ghost predicate AllIndexable(packages: seq<Package>, codename: string) {
    forall i :: 0 <= i < |packages| ==> Indexable(packages[i], codename)
  }

  lemma {:induction false} IndexableTail(packages: seq<Package>, codename: string)
    requires packages != [] && AllIndexable(packages, codename)
    ensures Indexable(packages[0], codename) && AllIndexable(packages[1..], codename)
  {}

  /** `blocks` are the printed records of `packages`, and `again` is what they parse to. */
  ghost predicate PrintedAs(packages: seq<Package>, codename: string, blocks: seq<seq<string>>, again: seq<Package>) {
    && Records(packages, codename) == Ok(Unblocked(blocks)) && Blocks(ParsedPackage, blocks, again)
    && RereadAll(packages, codename, again)
  }

  lemma {:induction false} PrintedCons(packages: seq<Package>, codename: string, lines: seq<string>, q: Package,
                                       blocks: seq<seq<string>>, again: seq<Package>)
    requires packages != [] && Rendered(packages[0], codename) == Ok(Unlines(lines)) && Block(ParsedPackage, lines, q)
    requires RereadOf(packages[0], codename, q) && PrintedAs(packages[1..], codename, blocks, again)
    ensures PrintedAs(packages, codename, [lines] + blocks, [q] + again)
  {
    RecordsCons(packages, codename, Unlines(lines), Unblocked(blocks));
    UnblockedCons(lines, blocks);
    BlocksCons(ParsedPackage, lines, q, blocks, again);
    RereadCons(packages, codename, q, again);
  }

  lemma {:induction false} NothingPrinted(codename: string)
    ensures PrintedAs([], codename, [], [])
  {}

  lemma {:induction false} PrintedBlocks(packages: seq<Package>, codename: string)
    returns (blocks: seq<seq<string>>, again: seq<Package>)
    requires AllIndexable(packages, codename)
    ensures PrintedAs(packages, codename, blocks, again)
  {
    if packages == [] {
      blocks, again := [], [];
      NothingPrinted(codename);
    } else {
      IndexableTail(packages, codename);
      var lines, q := PrintedBlock(packages[0], codename);
      var more, others := PrintedBlocks(packages[1..], codename);
      blocks, again := [lines] + more, [q] + others;
      PrintedCons(packages, codename, lines, q, more, others);
    }
  }

  lemma {:induction false} OneRecord(p: Package, codename: string, record: string)
    requires Rendered(p, codename) == Ok(record)
    ensures Records([p], codename) == Ok([record])
  {
    RecordsAre([p], codename, [record]);
  }

  lemma {:induction false} OneUnblocked(lines: seq<string>)
    ensures Unblocked([lines]) == [Unlines(lines)]
  {
    assert [lines][1..] == [];
  }

  lemma {:induction false} ManifestOfBlocks(
      packages: seq<Package>, codename: string, blocks: seq<seq<string>>, again: seq<Package>)
    requires Records(packages, codename) == Ok(Unblocked(blocks)) && Blocks(ParsedPackage, blocks, again)
    ensures RenderedManifest(packages, codename).Ok?
    ensures ParsedPackages(RenderedManifest(packages, codename).value) == Ok(again)
  {
    ParsedManifest(blocks, again);
  }

  lemma {:induction false} OneOfBlocks(parse: string -> Result<Package>, lines: seq<string>, q: Package)
    requires Block(parse, lines, q)
    ensures Blocks(parse, [lines], [q])
  {}

  lemma {:induction false} OneBlock(p: Package, codename: string, lines: seq<string>, q: Package)
    requires Rendered(p, codename) == Ok(Unlines(lines)) && Block(ParsedPackage, lines, q)
    ensures RenderedManifest([p], codename).Ok? && ParsedPackages(RenderedManifest([p], codename).value) == Ok([q])
  {
    OneRecord(p, codename, Unlines(lines));
    OneUnblocked(lines);
    OneOfBlocks(ParsedPackage, lines, q);
    ManifestOfBlocks([p], codename, [lines], [q]);
  }

  /** An index of printable packages reads back as printable packages under the same paths, in order. */
  lemma {:induction false} IndexReread(packages: seq<Package>, codename: string)
    requires AllIndexable(packages, codename)
    ensures RenderedManifest(packages, codename).Ok?
    ensures var read := ParsedPackages(RenderedManifest(packages, codename).value);
            read.Ok? && RereadAll(packages, codename, read.value)
  {
    var blocks, again := PrintedBlocks(packages, codename);
    ParsedManifest(blocks, again);
  }
}
