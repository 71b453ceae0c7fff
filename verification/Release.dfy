/** The Release index of a suite: printing it in sorted sections and parsing it back. */
module Release {
  import opened Text
  import opened Numbers
  import opened Control
  import opened Digests
  import opened Order

  datatype ReleaseData = ReleaseData(
    codename: string, origin: Option<string>, suite: Option<string>, architectures: seq<string>,
    components: seq<string>, byHash: bool, files: map<string, FileHashes>)

  // ---- the three sections

  datatype Kind = MD5 | SHA1 | SHA256

  function Heading(kind: Kind): string {
    match kind case MD5 => "MD5Sum" case SHA1 => "SHA1" case SHA256 => "SHA256"
  }

  function DigestOf(kind: Kind, hashes: FileHashes): string {
    match kind case MD5 => hashes.md5 case SHA1 => hashes.sha1 case SHA256 => hashes.sha256
  }

  function WithDigest(kind: Kind, hashes: FileHashes, digest: string): FileHashes {
    match kind
    case MD5 => hashes.(md5 := digest)
    case SHA1 => hashes.(sha1 := digest)
    case SHA256 => hashes.(sha256 := digest)
  }

  /** The section a digest belongs to, by its length. */
  function KindOf(digest: string): Option<Kind> {
    if |digest| == 32 then Some(MD5)
    else if |digest| == 40 then Some(SHA1)
    else if |digest| == 64 then Some(SHA256)
    else None
  }

  // ---- parsing

  function InputLines(input: string): seq<string> {
    Split(UnixLines(input), '\n')
  }

  /** The rest of the first line that starts with the name, a colon and a blank. */
  function ReleaseField(lines: seq<string>, name: string): Option<string> {
    if lines == [] then None
    else if HasPrefix(lines[0], name + ": ") then Some(lines[0][|name| + 2..])
    else ReleaseField(lines[1..], name)
  }

  function HashesFor(files: map<string, FileHashes>, filename: string): FileHashes {
    if filename in files then files[filename] else NO_HASHES
  }

  function Recorded(
      files: map<string, FileHashes>, digest: string, size: int, filename: string): map<string, FileHashes> {
    var kind := KindOf(digest);
    if kind.None? then files
    else files[filename := WithDigest(kind.value, HashesFor(files, filename).(size := size), digest)]
  }

  predicate Indented(line: string) {
    line != "" && (line[0] == ' ' || line[0] == '\t')
  }

  function ReadHashLine(files: map<string, FileHashes>, line: string): map<string, FileHashes> {
    if !Indented(line) then files
    else
      var parts := Fields(line);
      if |parts| != 3 then files
      else
        var size := ParseInt(parts[1]);
        if !size.Number? || size.value < 0 then files
        else Recorded(files, parts[0], size.value, parts[2])
  }

  function ReadHashLines(files: map<string, FileHashes>, lines: seq<string>): map<string, FileHashes>
    decreases |lines|
  {
    if lines == [] then files else ReadHashLines(ReadHashLine(files, lines[0]), lines[1..])
  }

  /** `strings.EqualFold` with "yes", for ASCII text. */
  predicate IsYes(value: string) {
    |value| == 3 && value[0] in "yY" && value[1] in "eE" && value[2] in "sS"
  }

  function ParsedRelease(input: string): ReleaseData {
    ParsedLines(InputLines(input))
  }

  function ParsedLines(lines: seq<string>): ReleaseData {
    ReleaseData(
      ReleaseField(lines, "Codename").GetOr(""),
      ReleaseField(lines, "Origin"),
      ReleaseField(lines, "Suite"),
      Fields(ReleaseField(lines, "Architectures").GetOr("")),
      Fields(ReleaseField(lines, "Components").GetOr("")),
      IsYes(TrimSpace(ReleaseField(lines, "Acquire-By-Hash").GetOr(""))),
      ReadHashLines(map[], lines))
  }

  // ---- printing

  function Padding(n: nat): string {
    if n == 0 then "" else " " + Padding(n - 1)
  }

  /** `%16d`. */
  function Width16(n: int): string {
    var digits := Itoa(n);
    (if |digits| < 16 then Padding(16 - |digits|) else "") + digits
  }

  function HashLine(kind: Kind, filename: string, hashes: FileHashes): string {
    " " + DigestOf(kind, hashes) + " " + Width16(hashes.size) + " " + filename
  }

  function HashLines(kind: Kind, filenames: seq<string>, files: map<string, FileHashes>): seq<string>
    requires forall i :: 0 <= i < |filenames| ==> filenames[i] in files
  {
    if filenames == [] then []
    else [HashLine(kind, filenames[0], files[filenames[0]])] + HashLines(kind, filenames[1..], files)
  }

  function Section(kind: Kind, filenames: seq<string>, files: map<string, FileHashes>): string
    requires forall i :: 0 <= i < |filenames| ==> filenames[i] in files
  {
    Heading(kind) + ":\n" + Unlines(HashLines(kind, filenames, files))
  }

  function HeaderFields(r: ReleaseData, date: string): seq<Field> {
    (if r.origin.Some? then [Field("Origin", r.origin.value)] else [])
    + [Field("Codename", r.codename), Field("Date", date), Field("Architectures", Join(r.architectures, " ")),
       Field("Components", Join(r.components, " ")), Field("Suite", r.suite.GetOr(""))]
    + (if r.byHash then [Field("Acquire-By-Hash", "yes")] else [])
  }

  function Filenames(files: map<string, FileHashes>): seq<string> {
    SortedSet(files.Keys)
  }

  function RenderedRelease(r: ReleaseData, date: string): string {
    var filenames := Filenames(r.files);
    WrittenAll(HeaderFields(r, date))
    + Section(MD5, filenames, r.files) + Section(SHA1, filenames, r.files) + Section(SHA256, filenames, r.files)
  }

  // ---- reading one hash line

  ghost predicate AllSpaces(s: string) {
    forall i :: 0 <= i < |s| ==> s[i] == ' '
  }

  lemma {:induction false} PaddingSpaces(n: nat)
    ensures AllSpaces(Padding(n))
  {
    if n > 0 {
      PaddingSpaces(n - 1);
    }
  }

  lemma {:induction false} FieldsOfThree(a: string, pad: string, b: string, c: string)
    requires Word(a) && Word(b) && Word(c) && AllSpaces(pad)
    ensures Fields(" " + a + " " + (pad + b) + " " + c) == [a, b, c]
  {
    FieldsCons(" ", c, "");
    AppendEmpty(" " + c);
    FieldsCons(" " + pad, b, " " + c);
    FieldsCons(" ", a, " " + pad + b + (" " + c));
    ThreeParts(a, pad, b, c);
  }

  lemma {:induction false} ThreeParts(a: string, pad: string, b: string, c: string)
    ensures " " + a + " " + (pad + b) + " " + c == " " + a + (" " + pad + b + (" " + c))
  {}

  predicate Sized(hashes: FileHashes) {
    WellSized(hashes) && 0 <= hashes.size <= MAX_INT64
  }

  lemma {:induction false} HexIsWord(s: string)
    requires Hex(s) && s != ""
    ensures Word(s)
  {}

  lemma {:induction false} DigestIsWord(kind: Kind, hashes: FileHashes)
    requires WellSized(hashes)
    ensures Word(DigestOf(kind, hashes)) && KindOf(DigestOf(kind, hashes)) == Some(kind)
  {
    HexIsWord(DigestOf(kind, hashes));
  }

  lemma {:induction false} HashLineParts(kind: Kind, filename: string, hashes: FileHashes) returns (pad: string)
    requires Sized(hashes)
    ensures AllSpaces(pad)
    ensures HashLine(kind, filename, hashes)
            == " " + DigestOf(kind, hashes) + " " + (pad + Decimal(hashes.size)) + " " + filename
  {
    var digits := Decimal(hashes.size);
    pad := if |digits| < 16 then Padding(16 - |digits|) else "";
    if |digits| < 16 {
      PaddingSpaces(16 - |digits|);
    }
  }

  lemma {:induction false} FieldsOfHashLine(kind: Kind, filename: string, hashes: FileHashes)
    requires Sized(hashes) && Word(filename)
    ensures Fields(HashLine(kind, filename, hashes)) == [DigestOf(kind, hashes), Decimal(hashes.size), filename]
  {
    var pad := HashLineParts(kind, filename, hashes);
    DigestIsWord(kind, hashes);
    DecimalIsWord(hashes.size);
    FieldsOfThree(DigestOf(kind, hashes), pad, Decimal(hashes.size), filename);
  }

  lemma {:induction false} ReadOneHashLine(
      files: map<string, FileHashes>, kind: Kind, filename: string, hashes: FileHashes)
    requires Sized(hashes) && Word(filename)
    ensures ReadHashLine(files, HashLine(kind, filename, hashes))
            == files[filename :=
            WithDigest(kind, HashesFor(files, filename).(size := hashes.size), DigestOf(kind, hashes))]
  {
    var line := HashLine(kind, filename, hashes);
    FieldsOfHashLine(kind, filename, hashes);
    DigestIsWord(kind, hashes);
    ParseDecimal(hashes.size);
    HashLineIndented(kind, filename, hashes);
    ReadParts(files, line, DigestOf(kind, hashes), Decimal(hashes.size), filename, hashes.size, kind);
  }

  lemma {:induction false} HashLineIndented(kind: Kind, filename: string, hashes: FileHashes)
    ensures Indented(HashLine(kind, filename, hashes)) && HashLine(kind, filename, hashes)[0] == ' '
  {}

  lemma {:induction false} ReadParts(
      files: map<string, FileHashes>, line: string, digest: string, digits: string, filename: string, size: nat,
      kind: Kind)
    requires Indented(line) && Fields(line) == [digest, digits, filename]
    requires ParseInt(digits) == Number(size) && KindOf(digest) == Some(kind)
    ensures ReadHashLine(files, line)
            == files[filename := WithDigest(kind, HashesFor(files, filename).(size := size), digest)]
  {}

  // ---- reading a section

  lemma {:induction false} ReadHashLinesAppend(files: map<string, FileHashes>, a: seq<string>, b: seq<string>)
    ensures ReadHashLines(files, a + b) == ReadHashLines(ReadHashLines(files, a), b)
    decreases |a|
  {
    if a == [] {
      assert a + b == b;
    } else {
      assert (a + b)[1..] == a[1..] + b;
      ReadHashLinesAppend(ReadHashLine(files, a[0]), a[1..], b);
    }
  }

  lemma {:induction false} ReadNothing(files: map<string, FileHashes>, lines: seq<string>)
    requires forall i :: 0 <= i < |lines| ==> !Indented(lines[i])
    ensures ReadHashLines(files, lines) == files
    decreases |lines|
  {
    if lines != [] {
      ReadNothing(files, lines[1..]);
    }
  }

  ghost predicate Listable(files: map<string, FileHashes>) {
    forall f :: f in files ==> Word(f) && Sized(files[f])
  }

  ghost predicate Within(names: seq<string>, files: map<string, FileHashes>) {
    forall i :: 0 <= i < |names| ==> names[i] in files
  }

  /** What a section adds to an entry. */
  function Merged(kind: Kind, old_: FileHashes, all: FileHashes): FileHashes {
    WithDigest(kind, old_.(size := all.size), DigestOf(kind, all))
  }

  lemma {:induction false} MergedTwice(kind: Kind, a: FileHashes, all: FileHashes)
    ensures Merged(kind, Merged(kind, a, all), all) == Merged(kind, a, all)
  {}

  lemma {:induction false} MergedThrice(a: FileHashes, all: FileHashes)
    ensures Merged(SHA256, Merged(SHA1, Merged(MD5, a, all), all), all) == all
  {}

  /** `r` is `files` with the digests of `kind` merged into the named entries, the others left alone. */
  ghost predicate SectionRead(
      r: map<string, FileHashes>, files: map<string, FileHashes>, kind: Kind, names: set<string>, all: map<string,
      FileHashes>)
    requires names <= all.Keys
  {
    && r.Keys == files.Keys + names
    && (forall f :: f in names ==> r[f] == Merged(kind, HashesFor(files, f), all[f]))
    && (forall f :: f in files && f !in names ==> r[f] == files[f])
  }

  lemma {:induction false} SectionReadCons(
      r: map<string, FileHashes>, files: map<string, FileHashes>, kind: Kind, first: string, rest: set<string>,
      all: map<string, FileHashes>)
    requires first in all && rest <= all.Keys
    requires SectionRead(r, files[first := Merged(kind, HashesFor(files, first), all[first])], kind, rest, all)
    ensures SectionRead(r, files, kind, {first} + rest, all)
  {
    MergedTwice(kind, HashesFor(files, first), all[first]);
  }

  function Elements(names: seq<string>): set<string> {
    set name | name in names
  }

  lemma {:induction false} ElementsCons(names: seq<string>)
    requires names != []
    ensures Elements(names) == {names[0]} + Elements(names[1..])
  {
    assert names == [names[0]] + names[1..];
  }

  lemma {:induction false} ReadSection(
      files: map<string, FileHashes>, kind: Kind, names: seq<string>, all: map<string, FileHashes>)
    requires Within(names, all) && Listable(all)
    ensures SectionRead(ReadHashLines(files, HashLines(kind, names, all)), files, kind, Elements(names), all)
    decreases |names|
  {
    if names == [] {
      assert Elements(names) == {};
    } else {
      var first, rest := names[0], names[1..];
      var next := files[first := Merged(kind, HashesFor(files, first), all[first])];
      ReadOneHashLine(files, kind, first, all[first]);
      ReadSection(next, kind, rest, all);
      ElementsCons(names);
      ReadHashCons(files, HashLine(kind, first, all[first]), HashLines(kind, rest, all));
      SectionReadCons(ReadHashLines(next, HashLines(kind, rest, all)), files, kind, first, Elements(rest), all);
    }
  }

  lemma {:induction false} ReadHashCons(files: map<string, FileHashes>, line: string, rest: seq<string>)
    ensures ReadHashLines(files, [line] + rest) == ReadHashLines(ReadHashLine(files, line), rest)
  {
    assert ([line] + rest)[1..] == rest;
  }

  /** Three sections over all names rebuild the map. */
  lemma {:induction false} SectionsMerge(
      a: map<string, FileHashes>, b: map<string, FileHashes>, c: map<string, FileHashes>, all: map<string, FileHashes>)
    requires SectionRead(a, map[], MD5, all.Keys, all)
    requires SectionRead(b, a, SHA1, all.Keys, all) && SectionRead(c, b, SHA256, all.Keys, all)
    ensures c == all
  {
    forall f | f in all ensures c[f] == all[f] {
      MergedThrice(HashesFor(map[], f), all[f]);
    }
  }

  lemma {:induction false} ReadSections(names: seq<string>, all: map<string, FileHashes>)
    requires Within(names, all) && Listable(all) && Elements(names) == all.Keys
    ensures var a := ReadHashLines(map[], HashLines(MD5, names, all));
            var b := ReadHashLines(a, HashLines(SHA1, names, all));
            ReadHashLines(b, HashLines(SHA256, names, all)) == all
  {
    var a := ReadHashLines(map[], HashLines(MD5, names, all));
    var b := ReadHashLines(a, HashLines(SHA1, names, all));
    ReadSection(map[], MD5, names, all);
    ReadSection(a, SHA1, names, all);
    ReadSection(b, SHA256, names, all);
    SectionsMerge(a, b, ReadHashLines(b, HashLines(SHA256, names, all)), all);
  }

  // ---- the lines of a rendered Release

  predicate Plain(value: string) {
    '\n' !in value && '\r' !in value
  }

  function HeaderLine(f: Field): string {
    f.name + ": " + f.value
  }

  function HeaderLines(fields: seq<Field>): (lines: seq<string>)
    ensures |lines| == |fields|
  {
    if fields == [] then [] else [HeaderLine(fields[0])] + HeaderLines(fields[1..])
  }

  ghost predicate PlainFields(fields: seq<Field>) {
    forall i :: 0 <= i < |fields| ==> FieldName(fields[i].name) && Plain(fields[i].value)
  }

  lemma {:induction false} PlainIsOneLine(f: Field)
    requires Plain(f.value)
    ensures FoldedLines(f) == [HeaderLine(f)]
  {
    SplitOne(f.value, '\n');
    AppendEmpty([HeaderLine(f)]);
  }

  lemma {:induction false} HeaderIsWritten(fields: seq<Field>)
    requires PlainFields(fields)
    ensures WrittenAll(fields) == Unlines(HeaderLines(fields))
  {
    if fields != [] {
      PlainIsOneLine(fields[0]);
      UnlinesOne(HeaderLine(fields[0]));
      HeaderIsWritten(fields[1..]);
      UnlinesCons(HeaderLine(fields[0]), HeaderLines(fields[1..]));
    }
  }

  lemma {:induction false} UnlinesOne(line: string)
    ensures Unlines([line]) == line + "\n"
  {
    assert [line][1..] == [];
    AppendEmpty(line + "\n");
  }

  lemma {:induction false} UnlinesCons(line: string, rest: seq<string>)
    ensures Unlines([line] + rest) == line + "\n" + Unlines(rest)
  {
    assert ([line] + rest)[1..] == rest;
  }

  function SectionLines(kind: Kind, names: seq<string>, files: map<string, FileHashes>): seq<string>
    requires forall i :: 0 <= i < |names| ==> names[i] in files
  {
    [Heading(kind) + ":"] + HashLines(kind, names, files)
  }

  lemma {:induction false} SectionIsLines(kind: Kind, names: seq<string>, files: map<string, FileHashes>)
    requires Within(names, files)
    ensures Section(kind, names, files) == Unlines(SectionLines(kind, names, files))
  {
    UnlinesCons(Heading(kind) + ":", HashLines(kind, names, files));
    ColonLine(Heading(kind));
  }

  lemma {:induction false} ColonLine(heading: string)
    ensures heading + ":" + "\n" == heading + ":\n"
  {}

  function BodyLines(names: seq<string>, files: map<string, FileHashes>): seq<string>
    requires forall i :: 0 <= i < |names| ==> names[i] in files
  {
    SectionLines(MD5, names, files) + SectionLines(SHA1, names, files) + SectionLines(SHA256, names, files)
  }

  lemma {:induction false} RenderedIsLines(r: ReleaseData, date: string)
    requires PlainFields(HeaderFields(r, date))
    ensures RenderedRelease(r, date)
            == Unlines(HeaderLines(HeaderFields(r, date)) + BodyLines(Filenames(r.files), r.files))
  {
    var names, header := Filenames(r.files), HeaderLines(HeaderFields(r, date));
    var a, b, c :=
        SectionLines(MD5, names, r.files), SectionLines(SHA1, names, r.files), SectionLines(SHA256, names, r.files);
    HeaderIsWritten(HeaderFields(r, date));
    SectionIsLines(MD5, names, r.files);
    SectionIsLines(SHA1, names, r.files);
    SectionIsLines(SHA256, names, r.files);
    FourParts(header, a, b, c);
  }

  lemma {:induction false} FourParts(a: seq<string>, b: seq<string>, c: seq<string>, d: seq<string>)
    ensures Unlines(a + (b + c + d)) == Unlines(a) + Unlines(b) + Unlines(c) + Unlines(d)
  {
    UnlinesAppend(a, b + c + d);
    UnlinesAppend(b + c, d);
    UnlinesAppend(b, c);
    Assoc(Unlines(a), Unlines(b) + Unlines(c), Unlines(d));
    Assoc(Unlines(a), Unlines(b), Unlines(c));
  }

  // ---- which lines hold which information

  /** A line that holds no header field: indented, or without a blank. */
  predicate NoHeader(line: string) {
    HasPrefix(line, " ") || ' ' !in line
  }

  lemma {:induction false} HeaderShows(line: string, name: string)
    requires HasPrefix(line, name + ": ") && FieldName(name)
    ensures !NoHeader(line)
  {
    var prefix := name + ": ";
    assert line[..|prefix|][|name| + 1] == ' ';
    assert line[|name| + 1] == ' ';
    assert line[..|prefix|][0] == name[0] && NameChar(name[0]);
    assert line[0] == name[0] != ' ';
  }

  lemma {:induction false} NoHeaderNoField(line: string, name: string)
    requires NoHeader(line) && FieldName(name)
    ensures !HasPrefix(line, name + ": ")
  {
    if HasPrefix(line, name + ": ") {
      HeaderShows(line, name);
    }
  }

  lemma {:induction false} FieldAbsent(lines: seq<string>, name: string)
    requires FieldName(name) && forall i :: 0 <= i < |lines| ==> NoHeader(lines[i])
    ensures ReleaseField(lines, name) == None
  {
    if lines != [] {
      NoHeaderNoField(lines[0], name);
      FieldAbsent(lines[1..], name);
    }
  }

  lemma {:induction false} HeaderLinePrefix(f: Field, name: string)
    requires FieldName(f.name) && FieldName(name)
    ensures HasPrefix(HeaderLine(f), name + ": ") <==> f.name == name
    ensures HeaderLine(f)[|f.name| + 2..] == f.value
  {
    var line := HeaderLine(f);
    HeaderColon(f.name, f.value);
    if HasPrefix(line, name + ": ") {
      var rest := line[|name| + 2..];
      assert line == line[..|name| + 2] + rest;
      HeaderColon(name, rest);
      assert line[..|name|] == line[..|name| + 2][..|name|];
      assert line[..|f.name|] == f.name;
    }
    if f.name == name {
      assert line[..|name| + 2] == name + ": ";
    }
  }

  lemma {:induction false} HeaderColon(name: string, value: string)
    requires FieldName(name)
    ensures IndexOf(name + ": " + value, ':') == |name|
  {
    assert name + ": " + value == name + ":" + (" " + value);
    IndexOfColon(name, " " + value);
  }

  lemma {:induction false} FieldFound(fields: seq<Field>, rest: seq<string>, name: string)
    requires PlainFields(fields) && FieldName(name)
    ensures ReleaseField(HeaderLines(fields) + rest, name)
            == if Lookup(fields, name).Some? then Lookup(fields, name) else ReleaseField(rest, name)
  {
    if fields == [] {
      AppendEmpty(rest);
    } else {
      FieldFound(fields[1..], rest, name);
      HeaderLinePrefix(fields[0], name);
      HeaderLinesCons(fields, rest);
    }
  }

  lemma {:induction false} HeaderLinesCons(fields: seq<Field>, rest: seq<string>)
    requires fields != []
    ensures var all := HeaderLines(fields) + rest;
            all[0] == HeaderLine(fields[0]) && all[1..] == HeaderLines(fields[1..]) + rest
  {}

  // ---- the round trip

  /** A Release that fits its own format: one-line fields, lists of words, sized entries under space-free names. */
  ghost predicate Renderable(r: ReleaseData, date: string) {
    && Plain(r.codename) && Plain(date) && Plain(r.origin.GetOr("")) && Plain(r.suite.GetOr(""))
    && Words(r.architectures) && Words(r.components) && Listable(r.files)
  }

  lemma {:induction false} WordPlain(word: string)
    requires Word(word)
    ensures Plain(word)
  {
    assert forall i :: 0 <= i < |word| ==> !IsSpace(word[i]);
  }

  lemma {:induction false} JoinPlain(words: seq<string>)
    requires Words(words)
    ensures Plain(Join(words, " "))
  {
    if words != [] {
      WordPlain(words[0]);
      JoinPlain(words[1..]);
    }
  }

  lemma {:induction false} HeaderNames()
    ensures FieldName("Origin") && FieldName("Codename") && FieldName("Date") && FieldName("Architectures")
    ensures FieldName("Components") && FieldName("Suite") && FieldName("Acquire-By-Hash")
  {}

  lemma {:induction false} HeaderPlain(r: ReleaseData, date: string)
    requires Renderable(r, date)
    ensures PlainFields(HeaderFields(r, date))
  {
    HeaderNames();
    JoinPlain(r.architectures);
    JoinPlain(r.components);
    assert Plain("yes");
  }

  lemma {:induction false} LookupEmpty(name: string)
    ensures Lookup([], name) == None
  {}

  /** The header fields after the optional `Origin`, one constructor per line. */
  function FromCodename(r: ReleaseData, date: string): seq<Field> {
    [Field("Codename", r.codename)] + ([Field("Date", date)]
    + ([Field("Architectures", Join(r.architectures, " "))] + ([Field("Components", Join(r.components, " "))]
    + ([Field("Suite", r.suite.GetOr(""))] + (if r.byHash then [Field("Acquire-By-Hash", "yes")] else [])))))
  }

  lemma {:induction false} HeaderInSteps(r: ReleaseData, date: string)
    ensures HeaderFields(r, date)
            == (if r.origin.Some? then [Field("Origin", r.origin.value)] else []) + FromCodename(r, date)
  {}

  lemma {:induction false} HeaderLookup(r: ReleaseData, date: string, name: string)
    requires name == "Origin" || |name| != 6
    ensures Lookup(HeaderFields(r, date), name)
            == if name == "Origin" && r.origin.Some? then Some(r.origin.value) else Lookup(FromCodename(r, date), name)
  {
    HeaderInSteps(r, date);
    if r.origin.Some? {
      LookupHead(Field("Origin", r.origin.value), FromCodename(r, date), name);
    } else {
      AppendEmpty(FromCodename(r, date));
    }
  }

  lemma {:induction false} CodenameLookup(r: ReleaseData, date: string, name: string)
    ensures var value := Lookup(FromCodename(r, date), name);
            && (name == "Codename" ==> value == Some(r.codename)) && (name == "Date" ==> value == Some(date))
            && (name == "Architectures" ==> value == Some(Join(r.architectures, " ")))
            && (name == "Components" ==> value == Some(Join(r.components, " ")))
            && (name == "Suite" ==> value == Some(r.suite.GetOr("")))
            && (name == "Acquire-By-Hash" ==> value == if r.byHash then Some("yes") else None)
            && (name == "Origin" ==> value == None)
  {
    var f := if r.byHash then [Field("Acquire-By-Hash", "yes")] else [];
    var e := [Field("Suite", r.suite.GetOr(""))] + f;
    var d := [Field("Components", Join(r.components, " "))] + e;
    var c := [Field("Architectures", Join(r.architectures, " "))] + d;
    var b := [Field("Date", date)] + c;
    LookupHead(Field("Codename", r.codename), b, name);
    LookupHead(Field("Date", date), c, name);
    LookupHead(Field("Architectures", Join(r.architectures, " ")), d, name);
    LookupHead(Field("Components", Join(r.components, " ")), e, name);
    LookupHead(Field("Suite", r.suite.GetOr("")), f, name);
    LookupEmpty(name);
    if r.byHash {
      AppendEmpty(f);
      LookupHead(Field("Acquire-By-Hash", "yes"), [], name);
    }
  }

  lemma {:induction false} HexPlain(s: string)
    requires Hex(s)
    ensures Plain(s) && ' ' !in s
  {}

  lemma {:induction false} PaddingPlain(n: nat)
    ensures Plain(Padding(n))
  {
    if n > 0 {
      PaddingPlain(n - 1);
    }
  }

  lemma {:induction false} Width16Plain(n: nat)
    ensures Plain(Width16(n))
  {
    WordPlain(Decimal(n)) by { DecimalIsWord(n); }
    if |Decimal(n)| < 16 {
      PaddingPlain(16 - |Decimal(n)|);
    }
  }

  lemma {:induction false} HashLinePlain(kind: Kind, filename: string, hashes: FileHashes)
    requires Sized(hashes) && Word(filename)
    ensures var line := HashLine(kind, filename, hashes); Plain(line) && NoHeader(line)
  {
    HexPlain(DigestOf(kind, hashes));
    Width16Plain(hashes.size);
    WordPlain(filename);
    HashLineIndented(kind, filename, hashes);
  }

  /** Lines of the sections: nothing in them can be taken for a header field or a line break. */
  ghost predicate BodyLike(lines: seq<string>) {
    forall i :: 0 <= i < |lines| ==> Plain(lines[i]) && NoHeader(lines[i])
  }

  lemma {:induction false} HashLinesBodyLike(kind: Kind, names: seq<string>, files: map<string, FileHashes>)
    requires Within(names, files) && Listable(files)
    ensures BodyLike(HashLines(kind, names, files))
  {
    if names != [] {
      HashLinePlain(kind, names[0], files[names[0]]);
      HashLinesBodyLike(kind, names[1..], files);
    }
  }

  lemma {:induction false} HeadingBodyLike(kind: Kind)
    ensures BodyLike([Heading(kind) + ":"]) && !Indented(Heading(kind) + ":")
  {}

  lemma {:induction false} BodyLikeAppend(a: seq<string>, b: seq<string>)
    requires BodyLike(a) && BodyLike(b)
    ensures BodyLike(a + b)
  {}

  lemma {:induction false} SectionBodyLike(kind: Kind, names: seq<string>, files: map<string, FileHashes>)
    requires Within(names, files) && Listable(files)
    ensures BodyLike(SectionLines(kind, names, files))
  {
    HeadingBodyLike(kind);
    HashLinesBodyLike(kind, names, files);
    BodyLikeAppend([Heading(kind) + ":"], HashLines(kind, names, files));
  }

  lemma {:induction false} BodyIsBodyLike(names: seq<string>, files: map<string, FileHashes>)
    requires Within(names, files) && Listable(files)
    ensures BodyLike(BodyLines(names, files))
  {
    SectionBodyLike(MD5, names, files);
    SectionBodyLike(SHA1, names, files);
    SectionBodyLike(SHA256, names, files);
    BodyLikeAppend(SectionLines(MD5, names, files), SectionLines(SHA1, names, files));
    BodyLikeAppend(SectionLines(MD5, names, files) + SectionLines(SHA1, names, files),
        SectionLines(SHA256, names, files));
  }

  lemma {:induction false} HeaderLinesPlain(fields: seq<Field>)
    requires PlainFields(fields)
    ensures forall i :: 0 <= i < |fields| ==> Plain(HeaderLines(fields)[i]) && !Indented(HeaderLines(fields)[i])
  {
    if fields != [] {
      FieldNameChars(fields[0].name);
      assert HeaderLine(fields[0])[0] == fields[0].name[0] && NameChar(fields[0].name[0]);
      HeaderLinesPlain(fields[1..]);
    }
  }

  lemma {:induction false} PlainLinesSplit(lines: seq<string>)
    requires forall i :: 0 <= i < |lines| ==> Plain(lines[i])
    ensures InputLines(Unlines(lines)) == lines + [""] && UnixLines(Unlines(lines)) == Unlines(lines)
  {
    assert Free(lines, '\n') && Free(lines, '\r');
    UnlinesChars(lines);
    UnixLinesFixed(Unlines(lines));
    SplitUnlines(lines);
  }

  lemma {:induction false} NamesWithin(files: map<string, FileHashes>)
    ensures Within(Filenames(files), files) && Elements(Filenames(files)) == files.Keys
  {
    forall i | 0 <= i < |Filenames(files)| ensures Filenames(files)[i] in files {
      assert Filenames(files)[i] in Filenames(files);
    }
  }

  lemma {:induction false} BodyOfRelease(files: map<string, FileHashes>)
    requires Listable(files)
    ensures Within(Filenames(files), files) && BodyLike(BodyLines(Filenames(files), files) + [""])
  {
    NamesWithin(files);
    BodyIsBodyLike(Filenames(files), files);
    BodyLikeAppend(BodyLines(Filenames(files), files), [""]);
  }

  lemma {:induction false} PlainHeaderAndBody(header: seq<string>, body: seq<string>)
    requires (forall i :: 0 <= i < |header| ==> Plain(header[i])) && BodyLike(body + [""])
    ensures InputLines(Unlines(header + body)) == header + (body + [""])
    ensures UnixLines(Unlines(header + body)) == Unlines(header + body)
  {
    forall i | 0 <= i < |header + body| ensures Plain((header + body)[i]) {
      if i >= |header| {
        assert (header + body)[i] == (body + [""])[i - |header|];
      }
    }
    PlainLinesSplit(header + body);
    Assoc(header, body, [""]);
  }

  lemma {:induction false} RenderedLines(r: ReleaseData, date: string)
    requires Renderable(r, date)
    ensures InputLines(RenderedRelease(r, date))
            == HeaderLines(HeaderFields(r, date)) + (BodyLines(Filenames(r.files), r.files) + [""])
    ensures UnixLines(RenderedRelease(r, date)) == RenderedRelease(r, date)
    ensures PlainFields(HeaderFields(r, date)) && BodyLike(BodyLines(Filenames(r.files), r.files) + [""])
  {
    HeaderPlain(r, date);
    HeaderLinesPlain(HeaderFields(r, date));
    BodyOfRelease(r.files);
    RenderedIsLines(r, date);
    PlainHeaderAndBody(HeaderLines(HeaderFields(r, date)), BodyLines(Filenames(r.files), r.files));
  }

  lemma {:induction false} RenderedField(r: ReleaseData, date: string, name: string)
    requires Renderable(r, date) && FieldName(name) && (name == "Origin" || |name| != 6)
    ensures ReleaseField(InputLines(RenderedRelease(r, date)), name)
            == if name == "Origin" && r.origin.Some? then r.origin else Lookup(FromCodename(r, date), name)
  {
    var body := BodyLines(Filenames(r.files), r.files) + [""];
    RenderedLines(r, date);
    FieldFound(HeaderFields(r, date), body, name);
    FieldAbsent(body, name);
    HeaderLookup(r, date, name);
  }

  lemma {:induction false} ReadSectionLines(
      files: map<string, FileHashes>, kind: Kind, names: seq<string>, all: map<string, FileHashes>)
    requires Within(names, all)
    ensures ReadHashLines(files, SectionLines(kind, names, all)) == ReadHashLines(files, HashLines(kind, names, all))
  {
    HeadingBodyLike(kind);
    ReadHashCons(files, Heading(kind) + ":", HashLines(kind, names, all));
  }

  lemma {:induction false} ReadBody(names: seq<string>, all: map<string, FileHashes>)
    requires Within(names, all) && Listable(all) && Elements(names) == all.Keys
    ensures ReadHashLines(map[], BodyLines(names, all)) == all
  {
    var a, b, c := SectionLines(MD5, names, all), SectionLines(SHA1, names, all), SectionLines(SHA256, names, all);
    ReadHashLinesAppend(map[], a + b, c);
    ReadHashLinesAppend(map[], a, b);
    ReadSectionLines(map[], MD5, names, all);
    ReadSectionLines(ReadHashLines(map[], a), SHA1, names, all);
    ReadSectionLines(ReadHashLines(ReadHashLines(map[], a), b), SHA256, names, all);
    ReadSections(names, all);
  }

  lemma {:induction false} ReadHeaderAndBody(header: seq<string>, body: seq<string>)
    requires forall i :: 0 <= i < |header| ==> !Indented(header[i])
    ensures ReadHashLines(map[], header + (body + [""])) == ReadHashLines(map[], body)
  {
    var files := ReadHashLines(map[], body);
    ReadHashLinesAppend(map[], header, body + [""]);
    ReadNothing(map[], header);
    ReadHashLinesAppend(map[], body, [""]);
    ReadNothing(files, [""]);
  }

  lemma {:induction false} RenderedFiles(r: ReleaseData, date: string)
    requires Renderable(r, date)
    ensures ReadHashLines(map[], InputLines(RenderedRelease(r, date))) == r.files
  {
    RenderedLines(r, date);
    HeaderLinesPlain(HeaderFields(r, date));
    ReadHeaderAndBody(HeaderLines(HeaderFields(r, date)), BodyLines(Filenames(r.files), r.files));
    NamesWithin(r.files);
    ReadBody(Filenames(r.files), r.files);
  }

  lemma {:induction false} TextRecovered(r: ReleaseData, date: string)
    requires Renderable(r, date)
    ensures var lines := InputLines(RenderedRelease(r, date));
            && ReleaseField(lines, "Codename") == Some(r.codename)
            && ReleaseField(lines, "Origin") == r.origin
            && ReleaseField(lines, "Suite") == Some(r.suite.GetOr(""))
  {
    HeaderNames();
    RenderedField(r, date, "Codename");
    CodenameLookup(r, date, "Codename");
    RenderedField(r, date, "Origin");
    CodenameLookup(r, date, "Origin");
    RenderedField(r, date, "Suite");
    CodenameLookup(r, date, "Suite");
  }

  lemma {:induction false} ListsRecovered(r: ReleaseData, date: string)
    requires Renderable(r, date)
    ensures var lines := InputLines(RenderedRelease(r, date));
            && ReleaseField(lines, "Architectures") == Some(Join(r.architectures, " "))
            && ReleaseField(lines, "Components") == Some(Join(r.components, " "))
            && ReleaseField(lines, "Acquire-By-Hash") == if r.byHash then Some("yes") else None
  {
    HeaderNames();
    RenderedField(r, date, "Architectures");
    CodenameLookup(r, date, "Architectures");
    RenderedField(r, date, "Components");
    CodenameLookup(r, date, "Components");
    RenderedField(r, date, "Acquire-By-Hash");
    CodenameLookup(r, date, "Acquire-By-Hash");
  }

  lemma {:induction false} LinesRecovered(lines: seq<string>, r: ReleaseData)
    requires ReleaseField(lines, "Codename") == Some(r.codename) && ReleaseField(lines, "Origin") == r.origin
    requires ReleaseField(lines, "Suite") == Some(r.suite.GetOr(""))
    requires ReleaseField(lines, "Architectures") == Some(Join(r.architectures, " "))
    requires ReleaseField(lines, "Components") == Some(Join(r.components, " "))
    requires ReleaseField(lines, "Acquire-By-Hash") == if r.byHash then Some("yes") else None
    requires ReadHashLines(map[], lines) == r.files && Words(r.architectures) && Words(r.components)
    ensures ParsedLines(lines) == r.(suite := Some(r.suite.GetOr("")))
  {
    FieldsOfJoin(r.architectures);
    FieldsOfJoin(r.components);
    TrimmedIsFixed("yes");
  }

  /** Parsing a rendered Release recovers everything it says; a missing `Suite` comes back as the empty one. */
  lemma {:induction false} ReleaseRoundTrip(r: ReleaseData, date: string)
    requires Renderable(r, date)
    ensures ParsedRelease(RenderedRelease(r, date)) == r.(suite := Some(r.suite.GetOr("")))
  {
    TextRecovered(r, date);
    ListsRecovered(r, date);
    RenderedFiles(r, date);
    LinesRecovered(InputLines(RenderedRelease(r, date)), r);
  }

  // ---- the Release object

  function AppendUnique(values: seq<string>, value: string): (r: seq<string>)
    ensures value in r && (forall v :: v in values ==> v in r)
  {
    if value in values then values else values + [value]
  }

  function Updated(
      r: ReleaseData, component: string, architecture: string, files: map<string, FileHashes>): ReleaseData {
    r.(components := AppendUnique(r.components, component), architectures :=
        AppendUnique(r.architectures, architecture),
       files := r.files + files)
  }

  /** A Release that fits its format still does after an update with words and sized entries. */
  lemma {:induction false} UpdateKeepsRenderable(
      r: ReleaseData, date: string, component: string, architecture: string, files: map<string, FileHashes>)
    requires Renderable(r, date) && Word(component) && Word(architecture) && Listable(files)
    ensures Renderable(Updated(r, component, architecture, files), date)
  {}

  lemma {:induction false} SectionStep(
      text: string, kind: Kind, filenames: seq<string>, files: map<string, FileHashes>, i: nat)
    requires i < |filenames| && forall j :: 0 <= j < |filenames| ==> filenames[j] in files
    ensures text + Unlines(HashLines(kind, filenames[i..], files))
            == text + (HashLine(kind, filenames[i], files[filenames[i]]) + "\n")
            + Unlines(HashLines(kind, filenames[i + 1..], files))
  {
    var line, rest := HashLine(kind, filenames[i], files[filenames[i]]), HashLines(kind, filenames[i + 1..], files);
    assert filenames[i..][0] == filenames[i] && filenames[i..][1..] == filenames[i + 1..];
    UnlinesCons(line, rest);
    Assoc(text, line + "\n", Unlines(rest));
  }

  method WriteReleaseHashes(output: string, kind: Kind, filenames: seq<string>, files: map<string, FileHashes>)
    returns (r: string)
    requires forall i :: 0 <= i < |filenames| ==> filenames[i] in files
    ensures r == output + Section(kind, filenames, files)
  {
    var text := "";
    ghost var lines := HashLines(kind, filenames, files);
    assert filenames[0..] == filenames;
    AppendEmpty(Unlines(lines));
    for i := 0 to |filenames|
      invariant text + Unlines(HashLines(kind, filenames[i..], files)) == Unlines(lines)
    {
      SectionStep(text, kind, filenames, files, i);
      text := text + (HashLine(kind, filenames[i], files[filenames[i]]) + "\n");
    }
    AppendEmpty(text);
    r := output + (Heading(kind) + ":\n" + text);
  }

  method FindReleaseField(lines: seq<string>, name: string) returns (value: Option<string>)
    ensures value == ReleaseField(lines, name)
  {
    assert lines[0..] == lines;
    for i := 0 to |lines|
      invariant ReleaseField(lines[i..], name) == ReleaseField(lines, name)
    {
      if HasPrefix(lines[i], name + ": ") {
        return Some(lines[i][|name| + 2..]);
      }
      assert lines[i..][1..] == lines[i + 1..];
    }
    return None;
  }

  method ReadFiles(lines: seq<string>) returns (files: map<string, FileHashes>)
    ensures files == ReadHashLines(map[], lines)
  {
    files := map[];
    assert lines[0..] == lines;
    for i := 0 to |lines|
      invariant ReadHashLines(files, lines[i..]) == ReadHashLines(map[], lines)
    {
      var line := lines[i];
      assert lines[i..][1..] == lines[i + 1..];
      if line == "" || (line[0] != ' ' && line[0] != '\t') {
        continue;
      }
      var parts := Fields(line);
      if |parts| != 3 {
        continue;
      }
      var size := ParseInt(parts[1]);
      if !size.Number? || size.value < 0 {
        continue;
      }
      var filename := parts[2];
      var hashes := HashesFor(files, filename).(size := size.value);
      var length := |parts[0]|;
      if length == 32 {
        hashes := hashes.(md5 := parts[0]);
      } else if length == 40 {
        hashes := hashes.(sha1 := parts[0]);
      } else if length == 64 {
        hashes := hashes.(sha256 := parts[0]);
      } else {
        continue;
      }
      files := files[filename := hashes];
    }
  }

  class Release {
    var codename: string
    var origin: Option<string>
    var suite: Option<string>
    var architectures: seq<string>
    var components: seq<string>
    var byHash: bool
    var files: map<string, FileHashes>

    function View(): ReleaseData
      reads this
    {
      ReleaseData(codename, origin, suite, architectures, components, byHash, files)
    }

    constructor (data: ReleaseData)
      ensures View() == data
    {
      codename, origin, suite := data.codename, data.origin, data.suite;
      architectures, components, byHash, files := data.architectures, data.components, data.byHash, data.files;
    }

    method Render(date: string) returns (text: string)
      ensures text == RenderedRelease(View(), date)
    {
      HeaderAt(View(), date);
      text := WriteHeader(View(), date, HeaderFields(View(), date));
      var filenames := Filenames(files);
      NamesWithin(files);
      text := WriteReleaseHashes(text, MD5, filenames, files);
      text := WriteReleaseHashes(text, SHA1, filenames, files);
      text := WriteReleaseHashes(text, SHA256, filenames, files);
    }

    method UpdateManifest(component: string, architecture: string, entries: map<string, FileHashes>)
      modifies this
      ensures View() == Updated(old(View()), component, architecture, entries)
    {
      components := AppendUnique(components, component);
      architectures := AppendUnique(architectures, architecture);
      files := MergeFiles(files, entries);
    }
  }

  function Restricted(files: map<string, FileHashes>, names: set<string>): map<string, FileHashes> {
    map f | f in files && f in names :: files[f]
  }

  /** Copies entries in whatever order the map yields them. */
  method MergeFiles(files: map<string, FileHashes>, entries: map<string, FileHashes>)
    returns (r: map<string, FileHashes>)
    ensures r == files + entries
  {
    r := files;
    var left := entries.Keys;
    assert Restricted(entries, left) == entries;
    while left != {}
      invariant left <= entries.Keys
      invariant r + Restricted(entries, left) == files + entries
      decreases |left|
    {
      var filename :| filename in left;
      MergeStep(r, entries, left, filename);
      r := r[filename := entries[filename]];
      left := left - {filename};
    }
    assert Restricted(entries, left) == map[];
    assert r + map[] == r;
  }

  lemma {:induction false} MergeStep(
      r: map<string, FileHashes>, entries: map<string, FileHashes>, left: set<string>, name: string)
    requires name in left && name in entries
    ensures r[name := entries[name]] + Restricted(entries, left - {name}) == r + Restricted(entries, left)
  {}

  /** The header fields by position. */
  ghost predicate IsHeader(header: seq<Field>, r: ReleaseData, date: string) {
    var k := OriginCount(r);
    StartsHeader(header, k, r, date) && ListsHeader(header, k + 2, r) && EndsHeader(header, k + 5, r.byHash)
  }

  function OriginCount(r: ReleaseData): nat {
    if r.origin.Some? then 1 else 0
  }

  ghost predicate StartsHeader(header: seq<Field>, k: nat, r: ReleaseData, date: string) {
    && |header| >= k + 2 && k == OriginCount(r)
    && (r.origin.Some? ==> header[0] == Field("Origin", r.origin.value))
    && header[k] == Field("Codename", r.codename) && header[k + 1] == Field("Date", date)
  }

  ghost predicate ListsHeader(header: seq<Field>, i: nat, r: ReleaseData) {
    && |header| >= i + 3
    && header[i] == Field("Architectures", Join(r.architectures, " "))
    && header[i + 1] == Field("Components", Join(r.components, " "))
       && header[i + 2] == Field("Suite", r.suite.GetOr(""))
  }

  ghost predicate EndsHeader(header: seq<Field>, i: nat, byHash: bool) {
    if byHash then |header| == i + 1 && header[i] == Field("Acquire-By-Hash", "yes") else |header| == i
  }

  lemma {:induction false} HeaderAt(r: ReleaseData, date: string)
    ensures IsHeader(HeaderFields(r, date), r, date)
  {}

  method WriteHeaderStart(r: ReleaseData, date: string, ghost header: seq<Field>, ghost k: nat) returns (text: string)
    requires StartsHeader(header, k, r, date)
    ensures text == WrittenAll(header[..k + 2])
  {
    text := WriteOrigin(r.origin, header, k);
    text := AppendField(text, header, k, "Codename", r.codename);
    text := AppendField(text, header, k + 1, "Date", date);
  }

  method WriteOrigin(origin: Option<string>, ghost header: seq<Field>, ghost k: nat) returns (text: string)
    requires |header| > 0 && k == if origin.Some? then 1 else 0
    requires origin.Some? ==> header[0] == Field("Origin", origin.value)
    ensures text == WrittenAll(header[..k])
  {
    text := "";
    if origin.Some? {
      text := AppendField(text, header, 0, "Origin", origin.value);
    }
  }

  method WriteHeaderLists(start: string, r: ReleaseData, ghost header: seq<Field>, ghost i: nat) returns (text: string)
    requires ListsHeader(header, i, r) && start == WrittenAll(header[..i])
    ensures text == WrittenAll(header[..i + 3])
  {
    text := AppendField(start, header, i, "Architectures", Join(r.architectures, " "));
    text := AppendField(text, header, i + 1, "Components", Join(r.components, " "));
    text := AppendField(text, header, i + 2, "Suite", r.suite.GetOr(""));
  }

  method WriteHeaderEnd(start: string, byHash: bool, ghost header: seq<Field>, ghost i: nat) returns (text: string)
    requires EndsHeader(header, i, byHash) && start == WrittenAll(header[..i])
    ensures text == WrittenAll(header)
  {
    text := start;
    if byHash {
      text := AppendField(text, header, i, "Acquire-By-Hash", "yes");
    }
    assert header[..|header|] == header;
  }

  method WriteHeader(r: ReleaseData, date: string, ghost header: seq<Field>) returns (text: string)
    requires IsHeader(header, r, date)
    ensures text == WrittenAll(header)
  {
    ghost var k := OriginCount(r);
    text := WriteHeaderStart(r, date, header, k);
    text := WriteHeaderLists(text, r, header, k + 2);
    text := WriteHeaderEnd(text, r.byHash, header, k + 5);
  }

  method AppendField(text: string, ghost header: seq<Field>, ghost i: nat, name: string, value: string)
    returns (r: string)
    requires i < |header| && text == WrittenAll(header[..i]) && header[i] == Field(name, value)
    ensures r == WrittenAll(header[..i + 1])
  {
    r := WriteField(text, name, value);
    WrittenSnoc(header[..i], Field(name, value));
    TakeSnoc(header, i);
  }

  lemma {:induction false} WrittenSnoc(fields: seq<Field>, f: Field)
    ensures WrittenAll(fields + [f]) == WrittenAll(fields) + Written(f)
  {
    if fields == [] {
      AppendEmpty([f]);
      AppendEmpty(Written(f));
    } else {
      assert (fields + [f])[1..] == fields[1..] + [f];
      WrittenSnoc(fields[1..], f);
      Assoc(Written(fields[0]), WrittenAll(fields[1..]), Written(f));
    }
  }

  method ParseRelease(input: string) returns (release: Release)
    ensures fresh(release) && release.View() == ParsedRelease(input)
  {
    var lines := InputLines(input);
    var codename := FindReleaseField(lines, "Codename");
    var origin := FindReleaseField(lines, "Origin");
    var suite := FindReleaseField(lines, "Suite");
    var byHash := FindReleaseField(lines, "Acquire-By-Hash");
    var architectures := FindReleaseField(lines, "Architectures");
    var components := FindReleaseField(lines, "Components");
    var files := ReadFiles(lines);
    release := new Release(ReleaseData(codename.GetOr(""), origin, suite, Fields(architectures.GetOr("")),
      Fields(components.GetOr("")), IsYes(TrimSpace(byHash.GetOr(""))), files));
  }
}
