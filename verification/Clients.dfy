/** What an APT client reads of what is published: the sections of a Release by their headings, its header fields by
    their names, the fields of a package record by theirs. The readers here are a client's; they know nothing of the
    program's own parsers. */
module Clients {
  import opened Text
  import opened Numbers
  import opened Digests
  import opened Order
  import opened Control
  import opened R = Release

  // ---- the sections of a Release

  /** One line of a section. */
  datatype Entry = Entry(digest: string, size: string, name: string)

  /** The lines below the first one that is the heading. */
  function Below(lines: seq<string>, heading: string): seq<string> {
    if lines == [] then []
    else if lines[0] == heading then lines[1..]
    else Below(lines[1..], heading)
  }

  predicate StartsBlank(line: string) {
    line != "" && (line[0] == ' ' || line[0] == '\t')
  }

  /** The indented lines up to the first that is not. */
  function Block(lines: seq<string>): seq<string> {
    if lines == [] || !StartsBlank(lines[0]) then [] else [lines[0]] + Block(lines[1..])
  }

  function EntriesOf(lines: seq<string>): seq<Entry> {
    if lines == [] then []
    else
      var words, rest := Fields(lines[0]), EntriesOf(lines[1..]);
      if |words| == 3 then [Entry(words[0], words[1], words[2])] + rest else rest
  }

  /** What a Release lists under a heading. */
  function Section(text: string, heading: string): seq<Entry> {
    EntriesOf(Block(Below(Split(text, '\n'), heading)))
  }

  /** Each file is listed exactly once, with its size and this digest, and nothing else is. */
  ghost predicate ListsExactly(entries: seq<Entry>, files: map<string, FileHashes>, digest: FileHashes -> string) {
    && (forall i :: 0 <= i < |entries| ==> IsEntryOf(entries[i], files, digest))
    && (forall f :: f in files ==> exists i :: 0 <= i < |entries| && entries[i].name == f)
    && (forall i, j :: 0 <= i < j < |entries| ==> entries[i].name != entries[j].name)
  }

  ghost predicate IsEntryOf(e: Entry, files: map<string, FileHashes>, digest: FileHashes -> string) {
    && e.name in files && e.digest == digest(files[e.name])
    && ParseInt(e.size) == Number(files[e.name].size)
  }

  lemma {:induction false} BelowSkips(a: seq<string>, b: seq<string>, heading: string)
    requires heading !in a
    ensures Below(a + b, heading) == Below(b, heading)
  {
    if a == [] {
      AppendEmpty(b);
    } else {
      assert (a + b)[0] == a[0] && (a + b)[1..] == a[1..] + b;
      BelowSkips(a[1..], b, heading);
    }
  }

  ghost predicate AllBlank(lines: seq<string>) {
    forall i :: 0 <= i < |lines| ==> StartsBlank(lines[i])
  }

  lemma {:induction false} BlockIs(a: seq<string>, b: seq<string>)
    requires AllBlank(a) && b != [] && !StartsBlank(b[0])
    ensures Block(a + b) == a
  {
    if a == [] {
      AppendEmpty(b);
    } else {
      assert (a + b)[0] == a[0] && (a + b)[1..] == a[1..] + b;
      BlockIs(a[1..], b);
    }
  }

  /** A block in its place: nothing before it is its heading, and the line after it is not indented. */
  lemma {:induction false} BlockBelow(front: seq<string>, heading: string, block: seq<string>, rest: seq<string>)
    requires heading !in front && AllBlank(block) && rest != [] && !StartsBlank(rest[0])
    ensures Block(Below(front + ([heading] + block + rest), heading)) == block
  {
    var lines := [heading] + block + rest;
    BelowSkips(front, lines, heading);
    assert lines[0] == heading && lines[1..] == block + rest;
    BlockIs(block, rest);
  }

  lemma {:induction false} NotInBlock(front: seq<string>, other: string, block: seq<string>, heading: string)
    requires heading !in front && AllBlank(block) && other != heading && !StartsBlank(heading)
    ensures heading !in front + ([other] + block)
  {}

  /** Three blocks under headings of their own are told apart. */
  lemma {:induction false} ThreeBlocks(
      front: seq<string>, x: string, first: seq<string>, y: string, second: seq<string>, z: string, third: seq<string>)
    requires x !in front && y !in front && z !in front && x != y && y != z && x != z
    requires !StartsBlank(x) && !StartsBlank(y) && !StartsBlank(z)
    requires AllBlank(first) && AllBlank(second) && AllBlank(third)
    ensures var lines := front + (([x] + first) + ([y] + second) + ([z] + third) + [""]);
            && Block(Below(lines, x)) == first && Block(Below(lines, y)) == second && Block(Below(lines, z)) == third
  {
    var lines := front + (([x] + first) + ([y] + second) + ([z] + third) + [""]);
    var middle, last := ([y] + second) + (([z] + third) + [""]), ([z] + third) + [""];
    assert lines == front + ([x] + first + middle);
    BlockBelow(front, x, first, middle);
    assert lines == (front + ([x] + first)) + ([y] + second + last);
    NotInBlock(front, x, first, y);
    NotInBlock(front, x, first, z);
    BlockBelow(front + ([x] + first), y, second, last);
    assert lines == (front + ([x] + first) + ([y] + second)) + ([z] + third + [""]);
    NotInBlock(front + ([x] + first), y, second, z);
    BlockBelow(front + ([x] + first) + ([y] + second), z, third, [""]);
  }

  function EntryFor(kind: Kind, name: string, hashes: FileHashes): Entry
    requires hashes.size >= 0
  {
    Entry(DigestOf(kind, hashes), Decimal(hashes.size), name)
  }

  /** The lines of a section hold its entries. */
  lemma {:induction false} EntriesAre(kind: Kind, names: seq<string>, files: map<string, FileHashes>)
    requires Within(names, files) && Listable(files)
    ensures var entries := EntriesOf(HashLines(kind, names, files));
            && |entries| == |names|
            && forall i :: 0 <= i < |names| ==> entries[i] == EntryFor(kind, names[i], files[names[i]])
  {
    if names != [] {
      var line, rest := HashLine(kind, names[0], files[names[0]]), HashLines(kind, names[1..], files);
      FieldsOfHashLine(kind, names[0], files[names[0]]);
      EntriesAre(kind, names[1..], files);
      assert ([line] + rest)[1..] == rest;
    }
  }

  lemma {:induction false} HashLinesBlank(kind: Kind, names: seq<string>, files: map<string, FileHashes>)
    requires Within(names, files)
    ensures AllBlank(HashLines(kind, names, files))
  {
    if names != [] {
      HashLineIndented(kind, names[0], files[names[0]]);
      HashLinesBlank(kind, names[1..], files);
    }
  }

  lemma {:induction false} EntryIsOf(
      kind: Kind, name: string, files: map<string, FileHashes>, digest: FileHashes -> string)
    requires Listable(files) && name in files && digest(files[name]) == DigestOf(kind, files[name])
    ensures IsEntryOf(EntryFor(kind, name, files[name]), files, digest)
  {
    ParseDecimal(files[name].size);
  }

  lemma {:induction false} NamedOnce(
      kind: Kind, names: seq<string>, files: map<string, FileHashes>, entries: seq<Entry>,
      digest: FileHashes -> string)
    requires Within(names, files) && Listable(files) && Ascending(names) && Elements(names) == files.Keys
    requires |entries| == |names|
    requires forall i :: 0 <= i < |names| ==> entries[i] == EntryFor(kind, names[i], files[names[i]])
    requires forall hashes :: digest(hashes) == DigestOf(kind, hashes)
    ensures ListsExactly(entries, files, digest)
  {
    forall i | 0 <= i < |entries| ensures IsEntryOf(entries[i], files, digest) {
      EntryIsOf(kind, names[i], files, digest);
    }
    forall f | f in files ensures exists i :: 0 <= i < |entries| && entries[i].name == f {
      assert f in Elements(names);
      var i :| 0 <= i < |names| && names[i] == f;
      assert entries[i].name == f;
    }
  }

  lemma {:induction false} SectionListed(
      text: string, heading: string, kind: Kind, files: map<string, FileHashes>, digest: FileHashes -> string)
    requires Listable(files) && Within(Filenames(files), files)
    requires Block(Below(Split(text, '\n'), heading)) == HashLines(kind, Filenames(files), files)
    requires forall hashes :: digest(hashes) == DigestOf(kind, hashes)
    ensures ListsExactly(Section(text, heading), files, digest)
  {
    NamesWithin(files);
    EntriesAre(kind, Filenames(files), files);
    NamedOnce(kind, Filenames(files), files, Section(text, heading), digest);
  }

  // ---- the lines of a rendered Release

  lemma {:induction false} HeaderIsNoHeading(fields: seq<Field>, heading: string)
    requires ' ' !in heading
    ensures heading !in HeaderLines(fields)
  {
    if fields != [] {
      HeaderIsNoHeading(fields[1..], heading);
      assert HeaderLine(fields[0])[|fields[0].name| + 1] == ' ';
    }
  }

  lemma {:induction false} HeadingsAre()
    ensures Heading(MD5) + ":" == "MD5Sum:" && Heading(SHA1) + ":" == "SHA1:" && Heading(SHA256) + ":" == "SHA256:"
  {}

  lemma {:induction false} HeadingsApart(x: string, y: string, z: string)
    requires x == "MD5Sum:" && y == "SHA1:" && z == "SHA256:"
    ensures x != y && y != z && x != z && ' ' !in x && ' ' !in y && ' ' !in z
    ensures !StartsBlank(x) && !StartsBlank(y) && !StartsBlank(z)
  {
    assert |x| == 7 && |y| == 5 && x[0] == 'M' && z[0] == 'S';
  }

  lemma {:induction false} ReleaseBlocks(r: ReleaseData, date: string, x: string, y: string, z: string)
    requires Renderable(r, date)
    requires x == Heading(MD5) + ":" && y == Heading(SHA1) + ":" && z == Heading(SHA256) + ":"
    requires x != y && y != z && x != z && ' ' !in x && ' ' !in y && ' ' !in z
    requires !StartsBlank(x) && !StartsBlank(y) && !StartsBlank(z)
    ensures var lines, names := Split(RenderedRelease(r, date), '\n'), Filenames(r.files);
            && Within(names, r.files)
            && Block(Below(lines, x)) == HashLines(MD5, names, r.files)
            && Block(Below(lines, y)) == HashLines(SHA1, names, r.files)
            && Block(Below(lines, z)) == HashLines(SHA256, names, r.files)
  {
    var header, names := HeaderLines(HeaderFields(r, date)), Filenames(r.files);
    RenderedLines(r, date);
    NamesWithin(r.files);
    HeaderIsNoHeading(HeaderFields(r, date), x);
    HeaderIsNoHeading(HeaderFields(r, date), y);
    HeaderIsNoHeading(HeaderFields(r, date), z);
    HashLinesBlank(MD5, names, r.files);
    HashLinesBlank(SHA1, names, r.files);
    HashLinesBlank(SHA256, names, r.files);
    ThreeBlocks(header, x, HashLines(MD5, names, r.files), y, HashLines(SHA1, names, r.files), z,
        HashLines(SHA256, names, r.files));
  }

  /** Under each of the three headings a client finds every file once, with its size and the digest of that kind, and
      nothing else. */
  lemma {:induction false} SectionsAsRead(r: ReleaseData, date: string)
    requires Renderable(r, date)
    ensures ListsExactly(Section(RenderedRelease(r, date), "MD5Sum:"), r.files, (h: FileHashes) => h.md5)
    ensures ListsExactly(Section(RenderedRelease(r, date), "SHA1:"), r.files, (h: FileHashes) => h.sha1)
    ensures ListsExactly(Section(RenderedRelease(r, date), "SHA256:"), r.files, (h: FileHashes) => h.sha256)
  {
    HeadingsAre();
    HeadingsApart("MD5Sum:", "SHA1:", "SHA256:");
    ReleaseBlocks(r, date, "MD5Sum:", "SHA1:", "SHA256:");
    SectionListed(RenderedRelease(r, date), "MD5Sum:", MD5, r.files, (h: FileHashes) => h.md5);
    SectionListed(RenderedRelease(r, date), "SHA1:", SHA1, r.files, (h: FileHashes) => h.sha1);
    SectionListed(RenderedRelease(r, date), "SHA256:", SHA256, r.files, (h: FileHashes) => h.sha256);
  }

  // ---- its header

  /** The rest of the first line that starts with the name, a colon and a blank. */
  function FirstField(lines: seq<string>, name: string): Option<string> {
    if lines == [] then None
    else if HasPrefix(lines[0], name + ": ") then Some(lines[0][|name| + 2..])
    else FirstField(lines[1..], name)
  }

  function HeaderField(text: string, name: string): Option<string> {
    FirstField(Split(text, '\n'), name)
  }

  lemma {:induction false} SameField(lines: seq<string>, name: string)
    ensures FirstField(lines, name) == ReleaseField(lines, name)
  {
    if lines != [] {
      SameField(lines[1..], name);
    }
  }

  lemma {:induction false} FieldAsRead(r: ReleaseData, date: string, name: string)
    requires Renderable(r, date) && FieldName(name) && (name == "Origin" || |name| != 6)
    ensures HeaderField(RenderedRelease(r, date), name)
            == if name == "Origin" && r.origin.Some? then r.origin else Lookup(FromCodename(r, date), name)
  {
    RenderedLines(r, date);
    RenderedField(r, date, name);
    SameField(Split(RenderedRelease(r, date), '\n'), name);
  }

  /** A client finds the header fields under their names, the lists as words between blanks. */
  lemma {:induction false} HeaderAsRead(r: ReleaseData, date: string)
    requires Renderable(r, date)
    ensures var text := RenderedRelease(r, date);
            && HeaderField(text, "Codename") == Some(r.codename) && HeaderField(text, "Date") == Some(date)
            && HeaderField(text, "Origin") == r.origin && HeaderField(text, "Suite") == Some(r.suite.GetOr(""))
  {
    HeaderNames();
    FieldAsRead(r, date, "Codename");
    FieldAsRead(r, date, "Date");
    FieldAsRead(r, date, "Origin");
    FieldAsRead(r, date, "Suite");
    CodenameLookup(r, date, "Codename");
    CodenameLookup(r, date, "Date");
    CodenameLookup(r, date, "Origin");
    CodenameLookup(r, date, "Suite");
  }

  lemma {:induction false} ListsAsRead(r: ReleaseData, date: string)
    requires Renderable(r, date)
    ensures var text := RenderedRelease(r, date);
            && HeaderField(text, "Architectures").Some?
            && Fields(HeaderField(text, "Architectures").value) == r.architectures
            && HeaderField(text, "Components").Some?
            && Fields(HeaderField(text, "Components").value) == r.components
            && HeaderField(text, "Acquire-By-Hash") == (if r.byHash then Some("yes") else None)
  {
    HeaderNames();
    FieldAsRead(r, date, "Architectures");
    FieldAsRead(r, date, "Components");
    FieldAsRead(r, date, "Acquire-By-Hash");
    CodenameLookup(r, date, "Architectures");
    CodenameLookup(r, date, "Components");
    CodenameLookup(r, date, "Acquire-By-Hash");
    FieldsOfJoin(r.architectures);
    FieldsOfJoin(r.components);
  }
}
