/** The Packages index of one suite: splitting it into records, printing it, and the in-place edits. */
module Manifest {
  import opened Text
  import opened Control
  import opened Package

  // ---- records apart: the separator \r?\n[\t ]*\r?\n

  function LineBreakLength(s: string): (n: nat)
    ensures n <= |s| && n <= 2
  {
    if s != "" && s[0] == '\n' then 1
    else if |s| > 1 && s[0] == '\r' && s[1] == '\n' then 2
    else 0
  }

  function BlanksLength(s: string): (n: nat)
    ensures n <= |s|
    ensures n < |s| ==> s[n] != '\t' && s[n] != ' '
  {
    if s != "" && (s[0] == '\t' || s[0] == ' ') then 1 + BlanksLength(s[1..]) else 0
  }

  /** Length of the separator a text starts with, zero without one. */
  function SeparatorLength(s: string): (n: nat)
    ensures n <= |s|
  {
    var first := LineBreakLength(s);
    if first == 0 then 0
    else
      var second := first + BlanksLength(s[first..]);
      var last := LineBreakLength(s[second..]);
      if last == 0 then 0 else second + last
  }

  /** The pieces between separators (`Regexp.Split`). */
  function Pieces(s: string): (pieces: seq<string>)
    ensures pieces != []
    decreases |s|
  {
    var n := SeparatorLength(s);
    if s == "" then [""]
    else if n > 0 then [""] + Pieces(s[n..])
    else
      var rest := Pieces(s[1..]);
      [[s[0]] + rest[0]] + rest[1..]
  }

  /** Text that starts with `prefix` before its first piece ends. */
  function Prepend(prefix: string, pieces: seq<string>): seq<string>
    requires pieces != []
  {
    [prefix + pieces[0]] + pieces[1..]
  }

  lemma {:induction false} PrependTwice(a: string, b: string, pieces: seq<string>)
    requires pieces != []
    ensures Prepend(a, Prepend(b, pieces)) == Prepend(a + b, pieces)
  {
    Assoc(a, b, pieces[0]);
  }

  ghost predicate NoBreaks(line: string) {
    forall i :: 0 <= i < |line| ==> line[i] != '\n' && line[i] != '\r'
  }

  /** A line that cannot be part of a separator. */
  ghost predicate Solid(line: string) {
    NoBreaks(line) && BlanksLength(line) < |line|
  }

  ghost predicate SolidLines(lines: seq<string>) {
    forall i :: 0 <= i < |lines| ==> Solid(lines[i])
  }

  lemma {:induction false} PiecesStep(c: char, rest: string)
    requires SeparatorLength([c] + rest) == 0
    ensures Pieces([c] + rest) == Prepend([c], Pieces(rest))
  {
    assert ([c] + rest)[1..] == rest;
  }

  lemma {:induction false} PrependNothing(pieces: seq<string>)
    requires pieces != []
    ensures Prepend("", pieces) == pieces
  {
    AppendEmpty(pieces[0]);
  }

  lemma {:induction false} PiecesThroughLine(line: string, tail: string)
    requires NoBreaks(line)
    ensures Pieces(line + tail) == Prepend(line, Pieces(tail))
  {
    if line == "" {
      AppendEmpty(tail);
      PrependNothing(Pieces(tail));
    } else {
      var rest := line[1..];
      assert [line[0]] + rest == line;
      Assoc([line[0]], rest, tail);
      PiecesStep(line[0], rest + tail);
      PiecesThroughLine(rest, tail);
      PrependTwice([line[0]], rest, Pieces(tail));
    }
  }

  lemma {:induction false} BlanksLengthIs(line: string, tail: string)
    requires BlanksLength(line) < |line|
    ensures BlanksLength(line + tail) == BlanksLength(line)
  {
    if BlanksLength(line) > 0 {
      assert (line + tail)[1..] == line[1..] + tail;
      BlanksLengthIs(line[1..], tail);
    }
  }

  lemma {:induction false} NoSeparatorBeforeLine(line: string, tail: string)
    requires Solid(line)
    ensures SeparatorLength("\n" + (line + tail)) == 0
  {
    var s := "\n" + (line + tail);
    assert s[1..] == line + tail;
    BlanksLengthIs(line, tail);
    var k := BlanksLength(line);
    assert s[1 + k] == line[k];
    assert s[1 + k..][0] == line[k];
  }

  lemma {:induction false} PiecesThroughBreak(line: string, tail: string)
    requires Solid(line)
    ensures Pieces("\n" + (line + tail)) == Prepend("\n" + line, Pieces(tail))
  {
    NoSeparatorBeforeLine(line, tail);
    PiecesStep('\n', line + tail);
    PiecesThroughLine(line, tail);
    PrependTwice("\n", line, Pieces(tail));
  }

  /** Lines of a record stay together. */
  lemma {:induction false} PiecesThroughLines(lines: seq<string>, tail: string)
    requires lines != [] && SolidLines(lines)
    ensures Pieces(Join(lines, "\n") + tail) == Prepend(Join(lines, "\n"), Pieces(tail))
  {
    PiecesThroughLine(lines[0], Breaks(lines[1..]) + tail);
    JoinIsBreaks(lines);
    PiecesThroughBreaks(lines[1..], tail);
    PrependTwice(lines[0], Breaks(lines[1..]), Pieces(tail));
    Assoc(lines[0], Breaks(lines[1..]), tail);
  }

  /** Every line with the line break in front of it. */
  function Breaks(lines: seq<string>): string {
    if lines == [] then "" else "\n" + lines[0] + Breaks(lines[1..])
  }

  lemma {:induction false} JoinIsBreaks(lines: seq<string>)
    requires lines != []
    ensures Join(lines, "\n") == lines[0] + Breaks(lines[1..])
  {
    if |lines| == 1 {
      AppendEmpty(lines[0]);
    } else {
      JoinIsBreaks(lines[1..]);
      Assoc(lines[0], "\n", Join(lines[1..], "\n"));
      Assoc("\n", lines[1], Breaks(lines[2..]));
      assert lines[1..][1..] == lines[2..];
    }
  }

  lemma {:induction false} PiecesThroughBreaks(lines: seq<string>, tail: string)
    requires SolidLines(lines)
    ensures Pieces(Breaks(lines) + tail) == Prepend(Breaks(lines), Pieces(tail))
  {
    if lines == [] {
      AppendEmpty(tail);
      PrependNothing(Pieces(tail));
    } else {
      var rest := Breaks(lines[1..]);
      PiecesThroughBreak(lines[0], rest + tail);
      PiecesThroughBreaks(lines[1..], tail);
      PrependTwice("\n" + lines[0], rest, Pieces(tail));
      Assoc("\n" + lines[0], rest, tail);
      Assoc("\n", lines[0], rest + tail);
    }
  }

  lemma {:induction false} UnlinesIsJoin(lines: seq<string>)
    requires lines != []
    ensures Unlines(lines) == Join(lines, "\n") + "\n"
  {
    if |lines| == 1 {
      AppendEmpty(lines[0] + "\n");
    } else {
      UnlinesIsJoin(lines[1..]);
      Assoc(lines[0] + "\n", Join(lines[1..], "\n"), "\n");
    }
  }

  lemma {:induction false} PiecesOfSeparated(rest: string)
    ensures Pieces("\n\n" + rest) == [""] + Pieces(rest)
  {
    var s := "\n\n" + rest;
    assert s[1..] == "\n" + rest;
    assert s[1..][0] == '\n';
    assert SeparatorLength(s) == 2;
    assert s[2..] == rest;
  }

  lemma {:induction false} PiecesOfBreak()
    ensures Pieces("\n") == ["\n"]
  {
    assert "\n"[1..] == "";
    AppendEmpty("\n");
    PiecesStep('\n', "");
  }

  /** The last record keeps its line break. */
  lemma {:induction false} PiecesOfLast(lines: seq<string>)
    requires lines != [] && SolidLines(lines)
    ensures Pieces(Unlines(lines)) == [Unlines(lines)]
  {
    UnlinesIsJoin(lines);
    PiecesThroughLines(lines, "\n");
    PiecesOfBreak();
  }

  /** A record before another loses its line break to the separator. */
  lemma {:induction false} PiecesOfFirst(lines: seq<string>, rest: string)
    requires lines != [] && SolidLines(lines)
    ensures Pieces(Unlines(lines) + "\n" + rest) == [Join(lines, "\n")] + Pieces(rest)
  {
    UnlinesIsJoin(lines);
    var record := Join(lines, "\n");
    TwoBreaks(record, rest);
    PiecesThroughLines(lines, "\n\n" + rest);
    PiecesOfSeparated(rest);
    PrependToEmpty(record, Pieces(rest));
  }

  lemma {:induction false} TwoBreaks(record: string, rest: string)
    ensures record + "\n" + "\n" + rest == record + ("\n\n" + rest)
  {}

  lemma {:induction false} PrependToEmpty(record: string, pieces: seq<string>)
    ensures Prepend(record, [""] + pieces) == [record] + pieces
  {
    AppendEmpty(record);
  }

  // ---- a record with or without its last line break

  lemma {:induction false} LastBreakIgnored(lines: seq<string>)
    requires lines != [] && Free(lines, '\n') && Free(lines, '\r')
    ensures ParseFields(Join(lines, "\n")) == ParseFields(Unlines(lines))
  {
    JoinFree(lines, '\r');
    UnlinesChars(lines);
    UnixLinesFixed(Join(lines, "\n"));
    UnixLinesFixed(Unlines(lines));
    SplitJoin(lines, '\n');
    SplitUnlines(lines);
    ReadLinesAppend(START, lines, [""]);
    EmptyLineIgnored(ReadLines(START, lines));
  }

  lemma {:induction false} EmptyLineIgnored(st: Reading)
    ensures ReadLines(st, [""]) == st
  {
    assert TrimReturn("") == "" && ReadLine(st, "") == st;
    assert ReadLines(st, [""]) == ReadLines(st, []);
  }

  lemma {:induction false} JoinFree(lines: seq<string>, c: char)
    requires Free(lines, c) && c != '\n'
    ensures c !in Join(lines, "\n")
  {
    if |lines| > 1 {
      JoinFree(lines[1..], c);
    }
  }

  // ---- the lines of a written record are solid

  lemma {:induction false} FoldLineSolid(line: string)
    requires NoBreaks(line)
    ensures Solid(FoldLine(line))
  {
    if Blank(line) {
      assert BlanksLength(" .") == 1 by {
        assert " ."[1..] == ".";
      }
    } else {
      BlankMeansAllSpace(line);
      var i :| 0 <= i < |line| && !IsSpace(line[i]);
      assert (" " + line)[i + 1] == line[i];
      BlanksStop(" " + line, i + 1);
    }
  }

  lemma {:induction false} BlanksStop(s: string, i: nat)
    requires i < |s| && s[i] != ' ' && s[i] != '\t'
    ensures BlanksLength(s) <= i
  {
    if i > 0 {
      BlanksStop(s[1..], i - 1);
    }
  }

  lemma {:induction false} FoldedFirstSolid(name: string, line: string)
    requires FieldName(name) && NoBreaks(line)
    ensures Solid(name + ": " + line)
  {
    var first := name + ": " + line;
    assert first[0] == name[0] && NameChar(name[0]);
    BlanksStop(first, 0);
    forall i | 0 <= i < |first| ensures first[i] != '\n' && first[i] != '\r' {
      if i < |name| {
        assert first[i] == name[i] && NameChar(name[i]);
      } else if i >= |name| + 2 {
        assert first[i] == line[i - |name| - 2];
      }
    }
  }

  lemma {:induction false} ValueLineNoBreaks(value: string, i: nat)
    requires '\r' !in value && i < |ValueLines(value)|
    ensures NoBreaks(ValueLines(value)[i])
  {
    ValueLinesChars(value);
    var line := ValueLines(value)[i];
    assert '\n' !in line && '\r' !in line;
    forall k | 0 <= k < |line| ensures line[k] != '\n' && line[k] != '\r' {
      assert line[k] in line;
    }
  }

  lemma {:induction false} FoldedLinesSolid(f: Field)
    requires FieldName(f.name) && '\r' !in f.value
    ensures SolidLines(FoldedLines(f)) && FoldedLines(f) != []
  {
    var lines, folded := ValueLines(f.value), FoldedLines(f);
    forall i | 0 <= i < |folded| ensures Solid(folded[i]) {
      ValueLineNoBreaks(f.value, i);
      if i == 0 {
        FoldedFirstSolid(f.name, lines[0]);
      } else {
        FoldedAt(f, i);
        FoldLineSolid(lines[i]);
      }
    }
  }

  lemma {:induction false} RecordLinesSolid(fields: seq<Field>)
    requires forall i :: 0 <= i < |fields| ==> FieldName(fields[i].name) && '\r' !in fields[i].value
    ensures SolidLines(AllFoldedLines(fields))
    ensures fields != [] ==> AllFoldedLines(fields) != []
  {
    if fields != [] {
      FoldedLinesSolid(fields[0]);
      RecordLinesSolid(fields[1..]);
      SolidAppend(FoldedLines(fields[0]), AllFoldedLines(fields[1..]));
    }
  }

  lemma {:induction false} SolidAppend(a: seq<string>, b: seq<string>)
    requires SolidLines(a) && SolidLines(b)
    ensures SolidLines(a + b)
  {}

  // ---- ParsePackages and Render

  /** The packages of the pieces that are not blank, or the first failure. */
  ghost function ParsedPieces(parse: string -> Result<Package>, pieces: seq<string>): Result<seq<Package>> {
    if pieces == [] then Ok([])
    else if Blank(pieces[0]) then ParsedPieces(parse, pieces[1..])
    else
      var first, rest := parse(pieces[0]), ParsedPieces(parse, pieces[1..]);
      if first.Err? then Err(first.reason)
      else if rest.Err? then rest
      else Ok([first.value] + rest.value)
  }

  ghost function ParsedPackages(input: string): Result<seq<Package>> {
    if Blank(input) then Ok([]) else ParsedPieces(ParsedPackage, Pieces(input))
  }

  /** The records of the packages, in order, or the first failure. */
  function Records(packages: seq<Package>, codename: string): Result<seq<string>> {
    if packages == [] then Ok([])
    else
      var first, rest := Rendered(packages[0], codename), Records(packages[1..], codename);
      if first.Err? then Err(first.reason)
      else if rest.Err? then rest
      else Ok([first.value] + rest.value)
  }

  /** The text of a manifest: records with an empty line between them. */
  function RenderedManifest(packages: seq<Package>, codename: string): Result<string> {
    var records := Records(packages, codename);
    if records.Err? then Err(records.reason) else Ok(Join(records.value, "\n"))
  }

  method ParsePackages(input: string) returns (r: Result<seq<Package>>)
    ensures r == ParsedPackages(input)
  {
    if TrimSpace(input) == "" {
      return Ok([]);
    }
    var paragraphs := Pieces(input);
    r := ReadPieces(paragraphs, ParsedPackage);
  }

  method ReadPieces(paragraphs: seq<string>, ghost parse: string -> Result<Package>) returns (r: Result<seq<Package>>)
    requires forall i {:trigger ParsedPackage(paragraphs[i])} :: 0 <= i < |paragraphs| ==>
               parse(paragraphs[i]) == ParsedPackage(paragraphs[i])
    ensures r == ParsedPieces(parse, paragraphs)
  {
    var packages: seq<Package> := [];
    ghost var all := ParsedPieces(parse, paragraphs);
    assert paragraphs[0..] == paragraphs;
    if all.Ok? {
      AppendEmpty(all.value);
    }
    for i := 0 to |paragraphs|
      invariant Following(packages, ParsedPieces(parse, paragraphs[i..])) == all
    {
      ParsedPiecesStep(parse, packages, paragraphs, i);
      if TrimSpace(paragraphs[i]) == "" {
        continue;
      }
      var package := ParsePackage(paragraphs[i]);
      assert package == parse(paragraphs[i]);
      if package.Err? {
        return Err(package.reason);
      }
      packages := packages + [package.value];
    }
    assert paragraphs[|paragraphs|..] == [];
    AppendEmpty(packages);
    return Ok(packages);
  }

  lemma {:induction false} ParsedPiecesStep(
      parse: string -> Result<Package>, packages: seq<Package>, pieces: seq<string>, i: nat)
    requires i < |pieces|
    ensures var first, rest := parse(pieces[i]), ParsedPieces(parse, pieces[i + 1..]);
            Following(packages, ParsedPieces(parse, pieces[i..]))
            == if Blank(pieces[i]) then Following(packages, rest)
               else if first.Err? then Err(first.reason)
               else Following(packages + [first.value], rest)
  {
    assert pieces[i..][0] == pieces[i] && pieces[i..][1..] == pieces[i + 1..];
    if !Blank(pieces[i]) && parse(pieces[i]).Ok? {
      FollowingStep(packages, parse(pieces[i]).value, ParsedPieces(parse, pieces[i + 1..]));
    }
  }

  /** Packages already read, followed by the outcome for the rest. */
  function Following(packages: seq<Package>, rest: Result<seq<Package>>): Result<seq<Package>> {
    if rest.Err? then rest else Ok(packages + rest.value)
  }

  lemma {:induction false} FollowingStep(packages: seq<Package>, package: Package, rest: Result<seq<Package>>)
    ensures Following(packages, if rest.Err? then rest else Ok([package] + rest.value))
            == Following(packages + [package], rest)
  {
    if rest.Ok? {
      Assoc(packages, [package], rest.value);
    }
  }

  // ---- byte stability of a manifest

  /** A package with a repository path whose record reads back. */
  ghost predicate Publishable(p: Package, codename: string) {
    var path := RepositoryFilename(p, codename);
    path.Ok? && WellFormed(p, path.value)
  }

  ghost predicate AllPublishable(packages: seq<Package>, codename: string) {
    forall i :: 0 <= i < |packages| ==> Publishable(packages[i], codename)
  }

  /** The package read back from the record of `p`. */
  ghost function Again(p: Package, codename: string): Package
    requires Publishable(p, codename)
  {
    Reread(p, RepositoryFilename(p, codename).value)
  }

  /** Lines of a record that parse to `q`, with or without the last line break. */
  ghost predicate Block(parse: string -> Result<Package>, lines: seq<string>, q: Package) {
    && lines != [] && SolidLines(lines) && lines[0] != "" && !IsSpace(lines[0][0])
    && parse(Unlines(lines)) == Ok(q) && parse(Join(lines, "\n")) == Ok(q)
  }

  ghost predicate Blocks(parse: string -> Result<Package>, blocks: seq<seq<string>>, packages: seq<Package>) {
    |blocks| == |packages| && forall i :: 0 <= i < |blocks| ==> Block(parse, blocks[i], packages[i])
  }

  function Unblocked(blocks: seq<seq<string>>): (texts: seq<string>)
    ensures |texts| == |blocks|
    ensures forall i :: 0 <= i < |texts| ==> texts[i] == Unlines(blocks[i])
  {
    if blocks == [] then [] else [Unlines(blocks[0])] + Unblocked(blocks[1..])
  }

  lemma {:induction false} BlockNotBlank(lines: seq<string>)
    requires lines != [] && lines[0] != "" && !IsSpace(lines[0][0])
    ensures !Blank(Join(lines, "\n")) && !Blank(Unlines(lines))
    ensures Join(lines, "\n")[0] == lines[0][0] && Unlines(lines)[0] == lines[0][0]
  {
    VisibleIsNotBlank(Join(lines, "\n"));
    VisibleIsNotBlank(Unlines(lines));
  }

  lemma {:induction false} ParsedFirst(
      parse: string -> Result<Package>, piece: string, q: Package, rest: seq<string>, qs: seq<Package>)
    requires !Blank(piece) && parse(piece) == Ok(q) && ParsedPieces(parse, rest) == Ok(qs)
    ensures ParsedPieces(parse, [piece] + rest) == Ok([q] + qs)
  {
    assert ([piece] + rest)[1..] == rest;
  }

  lemma {:induction false} ParsedBlocks(
      parse: string -> Result<Package>, blocks: seq<seq<string>>, packages: seq<Package>)
    requires Blocks(parse, blocks, packages) && blocks != []
    ensures ParsedPieces(parse, Pieces(Join(Unblocked(blocks), "\n"))) == Ok(packages)
  {
    var first := blocks[0];
    BlockNotBlank(first);
    assert [packages[0]] + packages[1..] == packages;
    if |blocks| == 1 {
      PiecesOfLast(first);
      AppendEmpty([Unlines(first)]);
      ParsedFirst(parse, Unlines(first), packages[0], [], []);
    } else {
      var rest := Join(Unblocked(blocks[1..]), "\n");
      ParsedBlocks(parse, blocks[1..], packages[1..]);
      PiecesOfFirst(first, rest);
      ParsedFirst(parse, Join(first, "\n"), packages[0], Pieces(rest), packages[1..]);
    }
  }

  // ---- a publishable package gives a block

  lemma {:induction false} NameValue(p: Package, path: string, depends: Option<string>, conflicts: Option<string>)
    ensures TemplateValue(p, path, depends, conflicts, KeyAt(0)) == Some(p.name)
  {}

  lemma {:induction false} RowFieldsStart(row: seq<Option<string>>, name: string)
    requires |row| == KEY_COUNT && row[0] == Some(name)
    ensures RowFields(row, 0) != []
  {}

  lemma {:induction false} RecordStarts(p: Package, path: string)
    ensures RecordFields(p, path) != []
  {
    RowAt(p, path, 0);
    NameValue(p, path, DependsOf(p), ConflictsOf(p));
    RowFieldsStart(Row(p, path), p.name);
  }

  lemma {:induction false} FirstCharacter(fields: seq<Field>)
    requires fields != [] && FieldName(fields[0].name)
    ensures var lines := AllFoldedLines(fields); lines != [] && lines[0] != "" && !IsSpace(lines[0][0])
  {
    var f := fields[0];
    var line := f.name + ": " + ValueLines(f.value)[0];
    assert FoldedLines(f)[0] == line;
    assert line[0] == f.name[0] && NameChar(f.name[0]);
  }

  lemma {:induction false} SameFieldsSamePackage(a: string, b: string)
    requires ParseFields(a) == ParseFields(b)
    ensures ParsedPackage(a) == ParsedPackage(b)
  {}

  lemma {:induction false} WritableLines(fields: seq<Field>)
    requires PlainFields(fields) && fields != []
    ensures var lines := AllFoldedLines(fields);
            && WrittenAll(fields) == Unlines(lines)
            && lines != [] && SolidLines(lines) && lines[0] != "" && !IsSpace(lines[0][0])
            && ParseFields(Join(lines, "\n")) == ParseFields(Unlines(lines))
  {
    var lines := AllFoldedLines(fields);
    WrittenAllIsLines(fields);
    RecordLinesSolid(fields);
    FirstCharacter(fields);
    FoldedLinesChars(fields);
    LastBreakIgnored(lines);
  }

  lemma {:induction false} SoundIsWritable(p: Package, path: string)
    requires Sound(p, path)
    ensures Writable(RecordFields(p, path)) && RecordFields(p, path) != []
  {
    RecordWritable(Row(p, path), p.extraFields);
    RecordStarts(p, path);
  }

  /** The lines of the record of `p`. */
  function RecordLines(p: Package, path: string): seq<string> {
    AllFoldedLines(RecordFields(p, path))
  }

  lemma {:induction false} RecordBlock(p: Package, path: string)
    requires Sound(p, path)
    ensures WrittenAll(RecordFields(p, path)) == Unlines(RecordLines(p, path))
    ensures Block(ParsedPackage, RecordLines(p, path), Reread(p, path))
  {
    var lines := RecordLines(p, path);
    SoundIsWritable(p, path);
    WritableLines(RecordFields(p, path));
    SameFieldsSamePackage(Join(lines, "\n"), Unlines(lines));
    ParsedRecord(p, path);
  }

  /** The lines of the record a publishable package prints. */
  ghost function Lines(p: Package, codename: string): seq<string>
    requires Publishable(p, codename)
  {
    RecordLines(p, RepositoryFilename(p, codename).value)
  }

  /** Same identity and same repository path. */
  predicate SameEntry(p: Package, q: Package, codename: string) {
    q.name == p.name && q.FullVersion() == p.FullVersion()
    && RepositoryFilename(q, codename) == RepositoryFilename(p, codename)
  }

  lemma {:induction false} PackageAgain(p: Package, codename: string)
    requires Publishable(p, codename)
    ensures Rendered(p, codename) == Ok(Unlines(Lines(p, codename)))
    ensures Rendered(Again(p, codename), codename) == Ok(Unlines(Lines(p, codename)))
    ensures Block(ParsedPackage, Lines(p, codename), Again(p, codename))
    ensures Publishable(Again(p, codename), codename) && SameEntry(p, Again(p, codename), codename)
  {
    var path := RepositoryFilename(p, codename).value;
    RecordBlock(p, path);
    RecordByteStable(p, path, codename);
  }

  ghost function AllLines(packages: seq<Package>, codename: string): (blocks: seq<seq<string>>)
    requires AllPublishable(packages, codename)
    ensures |blocks| == |packages|
  {
    if packages == [] then [] else [Lines(packages[0], codename)] + AllLines(packages[1..], codename)
  }

  /** The packages read back from a rendered manifest. */
  ghost function AllAgain(packages: seq<Package>, codename: string): (again: seq<Package>)
    requires AllPublishable(packages, codename)
    ensures |again| == |packages|
  {
    if packages == [] then [] else [Again(packages[0], codename)] + AllAgain(packages[1..], codename)
  }

  lemma {:induction false} AllAgainAt(packages: seq<Package>, codename: string, i: nat)
    requires AllPublishable(packages, codename) && i < |packages|
    ensures AllAgain(packages, codename)[i] == Again(packages[i], codename)
    ensures AllLines(packages, codename)[i] == Lines(packages[i], codename)
  {
    if i > 0 {
      AllAgainAt(packages[1..], codename, i - 1);
    }
  }

  lemma {:induction false} RecordsCons(packages: seq<Package>, codename: string, record: string, records: seq<string>)
    requires packages != [] && Rendered(packages[0], codename) == Ok(record)
    requires Records(packages[1..], codename) == Ok(records)
    ensures Records(packages, codename) == Ok([record] + records)
  {}

  lemma {:induction false} HeadAndTail<T>(s: seq<T>)
    requires s != []
    ensures [s[0]] + s[1..] == s
  {}

  lemma {:induction false} RecordsAre(packages: seq<Package>, codename: string, records: seq<string>)
    requires |packages| == |records|
    requires forall i :: 0 <= i < |packages| ==> Rendered(packages[i], codename) == Ok(records[i])
    ensures Records(packages, codename) == Ok(records)
  {
    if packages != [] {
      RecordsAre(packages[1..], codename, records[1..]);
      RecordsCons(packages, codename, records[0], records[1..]);
      HeadAndTail(records);
    }
  }

  lemma {:induction false} AllRecords(packages: seq<Package>, codename: string)
    requires AllPublishable(packages, codename)
    ensures Records(packages, codename) == Ok(Unblocked(AllLines(packages, codename)))
    ensures Records(AllAgain(packages, codename), codename) == Ok(Unblocked(AllLines(packages, codename)))
  {
    var records := Unblocked(AllLines(packages, codename));
    forall i | 0 <= i < |packages|
      ensures Rendered(packages[i], codename) == Ok(records[i])
      ensures Rendered(AllAgain(packages, codename)[i], codename) == Ok(records[i])
    {
      AllAgainAt(packages, codename, i);
      PackageAgain(packages[i], codename);
    }
    RecordsAre(packages, codename, records);
    RecordsAre(AllAgain(packages, codename), codename, records);
  }

  lemma {:induction false} AllBlocks(packages: seq<Package>, codename: string)
    requires AllPublishable(packages, codename)
    ensures Blocks(ParsedPackage, AllLines(packages, codename), AllAgain(packages, codename))
    ensures AllPublishable(AllAgain(packages, codename), codename)
  {
    var blocks, again := AllLines(packages, codename), AllAgain(packages, codename);
    forall i | 0 <= i < |packages|
      ensures Block(ParsedPackage, blocks[i], again[i]) && Publishable(again[i], codename)
    {
      AllAgainAt(packages, codename, i);
      PackageAgain(packages[i], codename);
    }
  }

  lemma {:induction false} AllSameEntries(packages: seq<Package>, codename: string)
    requires AllPublishable(packages, codename)
    ensures forall i :: 0 <= i < |packages| ==> SameEntry(packages[i], AllAgain(packages, codename)[i], codename)
  {
    forall i | 0 <= i < |packages| ensures SameEntry(packages[i], AllAgain(packages, codename)[i], codename) {
      AllAgainAt(packages, codename, i);
      PackageAgain(packages[i], codename);
    }
  }

  lemma {:induction false} ParsedManifest(blocks: seq<seq<string>>, packages: seq<Package>)
    requires Blocks(ParsedPackage, blocks, packages)
    ensures ParsedPackages(Join(Unblocked(blocks), "\n")) == Ok(packages)
  {
    if blocks != [] {
      ParsedBlocks(ParsedPackage, blocks, packages);
      ManifestNotBlank(blocks, packages);
    }
  }

  /** Parsing a rendered manifest returns its packages as read back, with the same names, versions and paths, and they
      print the same bytes. */
  lemma {:induction false} ManifestByteStable(packages: seq<Package>, codename: string)
    requires AllPublishable(packages, codename)
    ensures var text, again := RenderedManifest(packages, codename), AllAgain(packages, codename);
            && text.Ok?
            && ParsedPackages(text.value) == Ok(again)
            && RenderedManifest(again, codename) == text
            && AllPublishable(again, codename)
            && forall i :: 0 <= i < |packages| ==> SameEntry(packages[i], again[i], codename)
  {
    AllRecords(packages, codename);
    AllBlocks(packages, codename);
    AllSameEntries(packages, codename);
    ParsedManifest(AllLines(packages, codename), AllAgain(packages, codename));
  }

  lemma {:induction false} ManifestNotBlank(blocks: seq<seq<string>>, packages: seq<Package>)
    requires blocks != [] && Blocks(ParsedPackage, blocks, packages)
    ensures !Blank(Join(Unblocked(blocks), "\n"))
  {
    BlockNotBlank(blocks[0]);
    VisibleIsNotBlank(Join(Unblocked(blocks), "\n"));
  }
}
