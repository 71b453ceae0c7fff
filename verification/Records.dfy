/** What an APT client reads of a package record under the names of its fields, and of the record of a package file. */
module Records {
  import opened Text
  import opened Numbers
  import opened Digests
  import opened Control
  import opened Dependency
  import opened Package
  import opened Rereading
  import opened Inspection
  import opened Instance

  /** The record can be written, and no extra field has the name of a template field. */
  ghost predicate Plainly(p: Package, path: string) {
    PlainRecord(p, path) && NoneTemplate(p.extraFields)
  }

  lemma {:induction false} LastOfNone(fields: seq<Field>, k: Key)
    requires NoneTemplate(fields)
    ensures LastOf(fields, NameOf(k)) == None
  {
    if fields != [] {
      LastOfNone(fields[1..], k);
    }
  }

  lemma {:induction false} TemplateAsRead(p: Package, path: string, k: Key)
    requires Plainly(p, path)
    ensures Lookup(ParseFields(WrittenAll(RecordFields(p, path))), NameOf(k))
            == Folded(TemplateValue(p, path, DependsOf(p), ConflictsOf(p), k))
  {
    LastOfNone(p.extraFields, k);
    ExtraFieldWins(p, path, k);
    KeyAtOrdinal(k);
    RowAt(p, path, Ordinal(k));
  }

  /** The record shows this value under the name. */
  ghost predicate Shows(fields: seq<Field>, name: string, value: Option<string>) {
    Lookup(fields, name) == value
  }

  /** What a package is, by the name a client asks for. */
  ghost predicate TellsIdentity(p: Package, path: string, name: string, value: Option<string>) {
    || (name == "Package" && value == Some(p.name))
    || (name == "Version" && value == Some(p.FullVersion()))
    || (name == "Architecture" && value == Some(p.architecture))
    || (name == "Maintainer" && value == Some(p.maintainer))
    || (name == "Filename" && value == Some(path))
  }

  /** Its file. */
  ghost predicate TellsFile(p: Package, path: string, name: string, value: Option<string>) {
    || (name == "Size" && value == p.size)
    || (name == "MD5sum" && value == p.md5)
    || (name == "SHA1" && value == p.sha1)
    || (name == "SHA256" && value == p.sha256)
  }

  /** Its relations. */
  ghost predicate TellsRelations(p: Package, path: string, name: string, value: Option<string>) {
    || (name == "Pre-Depends" && value == p.preDepends)
    || (name == "Recommends" && value == p.recommends)
    || (name == "Suggests" && value == p.suggests)
    || (name == "Enhances" && value == p.enhances)
    || (name == "Breaks" && value == p.breaks)
    || (name == "Provides" && value == p.providing)
    || (name == "Replaces" && value == p.replacing)
  }

  /** The rest. */
  ghost predicate TellsMore(p: Package, path: string, name: string, value: Option<string>) {
    || (name == "Section" && value == Some(p.category))
    || (name == "Priority" && value == Some(p.priority.GetOr("")))
    || (name == "Origin" && value == p.origin)
    || (name == "License" && value == Some(p.license))
    || (name == "Vendor" && value == Some(p.vendor))
    || (name == "Installed-Size" && value == Some(p.installedSize.GetOr("")))
    || (name == "Homepage" && value == Some(p.homepage.GetOr("http://nourlgiven.example.com/")))
    || (name == "Description" && value == Some(p.description.GetOr("no description given")))
  }

  /** The two relations that normalising works on. */
  ghost predicate TellsNormalised(p: Package, path: string, name: string, value: Option<string>) {
    (name == "Depends" && value == DependsOf(p)) || (name == "Conflicts" && value == ConflictsOf(p))
  }

  ghost predicate Tells(p: Package, path: string, name: string, value: Option<string>) {
    || TellsIdentity(p, path, name, value) || TellsFile(p, path, name, value) || TellsRelations(p, path, name, value)
    || TellsNormalised(p, path, name, value) || TellsMore(p, path, name, value)
  }

  /** The template field of this name has this value. */
  ghost predicate InTemplate(
      p: Package, path: string, depends: Option<string>, conflicts: Option<string>, k: Key, name: string,
      value: Option<string>) {
    NameOf(k) == name && TemplateValue(p, path, depends, conflicts, k) == value
  }

  lemma {:induction false} IdentityKey(
      p: Package, path: string, depends: Option<string>, conflicts: Option<string>, name: string,
      value: Option<string>) returns (k: Key)
    requires TellsIdentity(p, path, name, value)
    ensures InTemplate(p, path, depends, conflicts, k, name, value)
  {
    if name == "Package" {
      k := FPackage;
    } else if name == "Version" {
      k := FVersion;
    } else if name == "Architecture" {
      k := FArchitecture;
    } else if name == "Maintainer" {
      k := FMaintainer;
    } else {
      k := FFilename;
    }
  }

  lemma {:induction false} FileKey(
      p: Package, path: string, depends: Option<string>, conflicts: Option<string>, name: string,
      value: Option<string>) returns (k: Key)
    requires TellsFile(p, path, name, value)
    ensures InTemplate(p, path, depends, conflicts, k, name, value)
  {
    if name == "Size" {
      k := FSize;
    } else if name == "MD5sum" {
      k := FMD5sum;
    } else if name == "SHA1" {
      k := FSHA1;
    } else {
      k := FSHA256;
    }
  }

  lemma {:induction false} RelationKey(
      p: Package, path: string, depends: Option<string>, conflicts: Option<string>, name: string,
      value: Option<string>) returns (k: Key)
    requires TellsRelations(p, path, name, value)
    ensures InTemplate(p, path, depends, conflicts, k, name, value)
  {
    if name == "Pre-Depends" {
      k := FPreDepends;
    } else if name == "Recommends" {
      k := FRecommends;
    } else if name == "Suggests" {
      k := FSuggests;
    } else if name == "Enhances" {
      k := FEnhances;
    } else if name == "Breaks" {
      k := FBreaks;
    } else if name == "Provides" {
      k := FProvides;
    } else {
      k := FReplaces;
    }
  }

  lemma {:induction false} OtherKey(
      p: Package, path: string, depends: Option<string>, conflicts: Option<string>, name: string,
      value: Option<string>) returns (k: Key)
    requires TellsMore(p, path, name, value)
    ensures InTemplate(p, path, depends, conflicts, k, name, value)
  {
    if name == "Section" {
      k := FSection;
    } else if name == "Priority" {
      k := FPriority;
    } else if name == "Origin" {
      k := FOrigin;
    } else if name == "License" {
      k := FLicense;
    } else if name == "Vendor" {
      k := FVendor;
    } else if name == "Installed-Size" {
      k := FInstalledSize;
    } else if name == "Homepage" {
      k := FHomepage;
    } else {
      k := FDescription;
    }
  }

  lemma {:induction false} NormalisedKey(
      p: Package, path: string, depends: Option<string>, conflicts: Option<string>, name: string,
      value: Option<string>) returns (k: Key)
    requires (name == "Depends" && value == depends) || (name == "Conflicts" && value == conflicts)
    ensures InTemplate(p, path, depends, conflicts, k, name, value)
  {
    if name == "Depends" {
      k := FDepends;
    } else {
      k := FConflicts;
    }
  }

  lemma {:induction false} TemplateKey(p: Package, path: string, name: string, value: Option<string>) returns (k: Key)
    requires Tells(p, path, name, value)
    ensures InTemplate(p, path, DependsOf(p), ConflictsOf(p), k, name, value)
  {
    if TellsIdentity(p, path, name, value) {
      k := IdentityKey(p, path, DependsOf(p), ConflictsOf(p), name, value);
    } else if TellsFile(p, path, name, value) {
      k := FileKey(p, path, DependsOf(p), ConflictsOf(p), name, value);
    } else if TellsRelations(p, path, name, value) {
      k := RelationKey(p, path, DependsOf(p), ConflictsOf(p), name, value);
    } else if TellsNormalised(p, path, name, value) {
      k := NormalisedKey(p, path, DependsOf(p), ConflictsOf(p), name, value);
    } else {
      k := OtherKey(p, path, DependsOf(p), ConflictsOf(p), name, value);
    }
  }

  lemma {:induction false} KeyShown(p: Package, path: string, k: Key, name: string, value: Option<string>)
    requires Plainly(p, path) && InTemplate(p, path, DependsOf(p), ConflictsOf(p), k, name, value)
    ensures Shows(ParseFields(WrittenAll(RecordFields(p, path))), name, Folded(value))
  {
    TemplateAsRead(p, path, k);
  }

  /** A client that asks the record for a name is told this, folded once. */
  lemma {:induction false} RecordTells(p: Package, path: string, name: string, value: Option<string>)
    requires Plainly(p, path) && Tells(p, path, name, value)
    ensures Shows(ParseFields(WrittenAll(RecordFields(p, path))), name, Folded(value))
  {
    var k := TemplateKey(p, path, name, value);
    KeyShown(p, path, k, name, value);
  }

  lemma {:induction false} PlaceholdersTaken(values: seq<Option<string>>, left: seq<Field>)
    requires |values| == KEY_COUNT && PackageFrom(values, left).Ok?
    ensures PackageFrom(values, left).value.license == values[3].GetOr("unknown")
    ensures PackageFrom(values, left).value.vendor == values[7].GetOr("none")
  {}

  /** The package that is built of these fields takes the value of the key at this place. */
  ghost predicate TakesAt(fields: seq<Field>, j: nat, k: Key, name: string) {
    j < KEY_COUNT && TakenAt(j) == k && NameOf(k) == name
  }

  lemma {:induction false} LicenseAndVendorTaken(fields: seq<Field>)
    ensures TakesAt(fields, 3, FLicense, "License") && TakesAt(fields, 7, FVendor, "Vendor")
  {}

  lemma {:induction false} PlaceholdersOf(fields: seq<Field>, i: nat, j: nat, license: string, vendor: string)
    requires i == 3 && j == 7 && TakesAt(fields, i, FLicense, license) && TakesAt(fields, j, FVendor, vendor)
    requires PackageOf(fields).Ok?
    ensures PackageOf(fields).value.license == Lookup(fields, license).GetOr("unknown")
    ensures PackageOf(fields).value.vendor == Lookup(fields, vendor).GetOr("none")
  {
    TakenFirst(fields, i, FLicense);
    TakenFirst(fields, j, FVendor);
    PlaceholdersTaken(TakenValues(fields), Untaken(fields, KEY_COUNT));
  }

  ghost predicate HasPlaceholders(fields: seq<Field>, p: Package, license: string, vendor: string) {
    p.license == Lookup(fields, license).GetOr("unknown") && p.vendor == Lookup(fields, vendor).GetOr("none")
  }

  lemma {:induction false} PlaceholdersNamed(fields: seq<Field>, i: nat, j: nat, license: string, vendor: string)
    requires i == 3 && j == 7 && TakesAt(fields, i, FLicense, license) && TakesAt(fields, j, FVendor, vendor)
    requires PackageOf(fields).Ok?
    ensures HasPlaceholders(fields, PackageOf(fields).value, license, vendor)
  {
    PlaceholdersOf(fields, i, j, license, vendor);
  }

  /** A record that is read without a license or a vendor gets a placeholder for it. */
  lemma {:induction false} Placeholders(fields: seq<Field>)
    requires PackageOf(fields).Ok?
    ensures HasPlaceholders(fields, PackageOf(fields).value, "License", "Vendor")
  {
    LicenseAndVendorTaken(fields);
    PlaceholdersNamed(fields, 3, 7, "License", "Vendor");
  }

  // ---- relations, one dependency after another

  /** What a list of entries becomes, when each becomes entries or a conflict. */
  function Gathered(f: string -> (seq<string>, string), entries: seq<string>): (seq<string>, seq<string>) {
    if entries == [] then ([], [])
    else
      var first, rest := f(entries[0]), Gathered(f, entries[1..]);
      (first.0 + rest.0, (if first.1 != "" then [first.1] else []) + rest.1)
  }

  lemma {:induction false} GatheredSnoc(f: string -> (seq<string>, string), entries: seq<string>, e: string)
    ensures Gathered(f, entries + [e])
            == (Gathered(f, entries).0 + f(e).0,
                Gathered(f, entries).1 + (if f(e).1 != "" then [f(e).1] else []))
  {
    if entries == [] {
      assert [e][1..] == [] && entries + [e] == [e];
      AppendEmpty(f(e).0);
      AppendEmpty(if f(e).1 != "" then [f(e).1] else []);
    } else {
      assert (entries + [e])[0] == entries[0] && (entries + [e])[1..] == entries[1..] + [e];
      GatheredSnoc(f, entries[1..], e);
      var first, rest := f(entries[0]), Gathered(f, entries[1..]);
      Assoc(first.0, rest.0, f(e).0);
      Assoc(if first.1 != "" then [first.1] else [], rest.1, if f(e).1 != "" then [f(e).1] else []);
    }
  }

  ghost function Normalizing(): string -> (seq<string>, string) {
    (e: string) => Normalized(e, false)
  }

  lemma {:induction false} NormalizedIsGathered(entries: seq<string>)
    ensures NormalizedAll(entries, false) == Gathered(Normalizing(), entries)
  {
    if entries != [] {
      NormalizedIsGathered(entries[1..]);
      NormalizedAllCons(entries[0], entries[1..]);
      assert [entries[0]] + entries[1..] == entries;
    }
  }

  lemma {:induction false} NormalizedAllSnoc(dependencies: seq<string>, e: string, last: (seq<string>, string))
    requires last == Normalizing()(e)
    ensures NormalizedAll(dependencies + [e], false)
            == (NormalizedAll(dependencies, false).0 + last.0,
                NormalizedAll(dependencies, false).1 + (if last.1 != "" then [last.1] else []))
  {
    NormalizedIsGathered(dependencies);
    NormalizedIsGathered(dependencies + [e]);
    GatheredSnoc(Normalizing(), dependencies, e);
  }

  lemma {:induction false} JoinSnoc(parts: seq<string>, last: string, sep: string)
    ensures Join(parts + [last], sep) == if parts == [] then last else Join(parts, sep) + sep + last
  {
    if |parts| > 1 {
      assert (parts + [last])[0] == parts[0] && (parts + [last])[1..] == parts[1..] + [last];
      JoinSnoc(parts[1..], last, sep);
      Assoc(parts[0] + sep, Join(parts[1..], sep), sep + last);
    } else if |parts| == 1 {
      assert (parts + [last])[1..] == [last] && parts[1..] == [];
    }
  }

  /** Without dependencies there are no others than the package's own conflicts. */
  lemma {:induction false} NoRelations(p: Package)
    requires p.dependencies == []
    ensures DependsOf(p) == None && ConflictsOf(p) == p.conflicts
  {}

  lemma {:induction false} ConflictsAppended(p: Package, e: string, last: string)
    requires Normalized(e, false) == ([], last) && last != "" && !p.ignoreIteration
    ensures ConflictsOf(p.(dependencies := p.dependencies + [e]))
            == Some(if ConflictsOf(p).Some? then ConflictsOf(p).value + ", " + last else last)
  {
    NormalizedAllSnoc(p.dependencies, e, ([], last));
    var own := if p.conflicts.Some? then [p.conflicts.value] else [];
    var before := NormalizedAll(p.dependencies, false).1;
    assert own + (before + [last]) == own + before + [last];
    JoinSnoc(own + before, last, ", ");
  }

  /** A further dependency that is an inequality adds its conflict behind the others. */
  lemma {:induction false} ConflictsGrow(p: Package, name: string, version: string)
    requires PlainWord(name) && PlainWord(version) && '!' !in name && '>' !in name && '>' !in version
    requires !p.ignoreIteration
    ensures var grown := p.(dependencies := p.dependencies + [name + " " + "!=" + " " + version]);
            var last := name + " (" + "=" + " " + version + ")";
            ConflictsOf(grown) == Some(if ConflictsOf(p).Some? then ConflictsOf(p).value + ", " + last else last)
  {
    InequalityConflicts(name, version);
    ConflictsAppended(p, name + " " + "!=" + " " + version, name + " (" + "=" + " " + version + ")");
  }

  /** A further dependency that is none adds what it becomes behind the others. */
  lemma {:induction false} DependsGrow(p: Package, e: string, x: string)
    requires Normalized(e, false) == ([x], "") && !p.ignoreIteration && !p.noDepends
    ensures var grown := p.(dependencies := p.dependencies + [e]);
            && ConflictsOf(grown) == ConflictsOf(p)
            && DependsOf(grown)
               == Some(if NormalizedAll(p.dependencies, false).0 == [] then x else DependsOf(p).value + ", " + x)
  {
    NormalizedAllSnoc(p.dependencies, e, ([x], ""));
    AppendEmpty(NormalizedAll(p.dependencies, false).1);
    JoinSnoc(NormalizedAll(p.dependencies, false).0, x, ", ");
  }

  // ---- names of extra fields

  /** The prefix of a user-defined field, `X` and up to three of the letters `B`, `C` and `S` before a dash, is taken
      off its name, and no other. */
  lemma {:induction false} PrefixTaken(tag: string, rest: string)
    requires '-' !in tag
    ensures NormalizeExtraFieldName("X" + tag + "-" + rest)
            == if |tag| <= 3 && forall c :: c in tag ==> c == 'B' || c == 'C' || c == 'S' then rest
               else "X" + tag + "-" + rest
  {
    var name := "X" + tag + "-" + rest;
    var tail := tag + "-" + rest;
    assert name[1..] == tail && tail[|tag|] == '-' && tail[..|tag|] == tag;
    assert forall i :: 0 <= i < |tag| ==> tail[i] == tag[i];
    assert forall i :: 0 <= i < |tag| ==> tail[i] in tag;
    var dash := IndexOf(tail, '-');
    assert dash == |tag| && tail[dash + 1..] == rest;
    assert name[..1] == "X";
    forall i | 0 <= i < dash ensures tail[i] in "BCS" <==> tail[i] == 'B' || tail[i] == 'C' || tail[i] == 'S' {
      TagLetter(tail[i]);
    }
    assert forall i :: 0 <= i < dash ==> tail[i] in tag;
    assert forall c :: c in tag ==> exists i :: 0 <= i < dash && tail[i] == c;
  }

  lemma {:induction false} TagLetter(c: char)
    ensures c in "BCS" <==> c == 'B' || c == 'C' || c == 'S'
  {
    assert "BCS"[0] == 'B' && "BCS"[1] == 'C' && "BCS"[2] == 'S';
  }

  lemma {:induction false} OtherNameStays(name: string)
    requires name == "" || name[0] != 'X'
    ensures NormalizeExtraFieldName(name) == name
  {}

  // ---- the record of a package file

  lemma {:induction false} WordRefolds(s: string)
    requires Word(s)
    ensures Refold(s) == s
  {
    assert '\n' !in s;
    RefoldOneLineTrims(s);
    TrimmedIsFixed(s);
  }

  lemma {:induction false} HexWord(s: string)
    requires Hex(s) && s != ""
    ensures Word(s)
  {}

  /** What is said of a file with these bytes that is stored under the path. */
  ghost predicate SaidOfFile(h: Hasher, data: string, path: string, name: string, value: string) {
    || (name == "Filename" && value == path)
    || (name == "Size" && value == Decimal(|data|))
    || (name == "MD5sum" && value == h.md5(data))
    || (name == "SHA1" && value == h.sha1(data))
    || (name == "SHA256" && value == h.sha256(data))
  }

  lemma {:induction false} SaidIsWord(h: Hasher, data: string, path: string, name: string, value: string)
    requires Proper(h) && Word(path) && SaidOfFile(h, data, path, name, value)
    ensures Folded(Some(value)) == Some(value)
  {
    assert WellSized(HashesOf(h, data));
    HexWord(h.md5(data));
    HexWord(h.sha1(data));
    HexWord(h.sha256(data));
    DecimalIsWord(|data|);
    WordRefolds(value);
  }

  lemma {:induction false} FileTells(
      h: Hasher, q: Package, data: string, filename: string, path: string, name: string, value: string)
    requires SaidOfFile(h, data, path, name, value)
    ensures Tells(FromFile(PackageInfo(q, HashesOf(h, data)), filename), path, name, Some(value))
  {}

  /** The record of an uploaded file gives the path it is stored under, the size of the file and the digests of its
      bytes, each under its name. */
  lemma {:induction false} FileDescribed(
      h: Hasher, q: Package, data: string, filename: string, codename: string, path: string, name: string,
      value: string)
    requires Proper(h) && Word(path) && SaidOfFile(h, data, path, name, value)
    requires var p := FromFile(PackageInfo(q, HashesOf(h, data)), filename);
             Plainly(p, path) && RepositoryFilename(p, codename) == Ok(path)
    ensures var text := Rendered(FromFile(PackageInfo(q, HashesOf(h, data)), filename), codename);
            text.Ok? && Shows(ParseFields(text.value), name, Some(value))
  {
    var p := FromFile(PackageInfo(q, HashesOf(h, data)), filename);
    FileTells(h, q, data, filename, path, name, value);
    RecordTells(p, path, name, Some(value));
    SaidIsWord(h, data, path, name, value);
  }
}
