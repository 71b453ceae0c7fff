/** Debian control paragraphs: the lenient parser, the ordered `Paragraph` with its name index, the folding printer,
    and exactly when one undoes the other. */
module Control {
  import opened Text

  datatype Field = Field(name: string, value: string)

  // ---- fields in order, distinct by name

  ghost predicate DistinctNames(fields: seq<Field>) {
    forall i, j :: 0 <= i < j < |fields| ==> fields[i].name != fields[j].name
  }

  function Names(fields: seq<Field>): seq<string> {
    seq(|fields|, i requires 0 <= i < |fields| => fields[i].name)
  }

  function Position(fields: seq<Field>, name: string): (p: nat)
    ensures p <= |fields|
    ensures p < |fields| ==> fields[p].name == name
    ensures forall i :: 0 <= i < p ==> fields[i].name != name
  {
    if fields == [] || fields[0].name == name then 0 else 1 + Position(fields[1..], name)
  }

  function Lookup(fields: seq<Field>, name: string): Option<string> {
    var p := Position(fields, name);
    if p < |fields| then Some(fields[p].value) else None
  }

  function SetField(fields: seq<Field>, name: string, value: string): (r: seq<Field>)
    ensures DistinctNames(fields) ==> DistinctNames(r)
  {
    var p := Position(fields, name);
    if p < |fields| then fields[p := Field(name, value)] else fields + [Field(name, value)]
  }

  function RemoveField(fields: seq<Field>, name: string): seq<Field> {
    var p := Position(fields, name);
    if p < |fields| then fields[..p] + fields[p + 1..] else fields
  }

  lemma {:induction false} LookupTail(fields: seq<Field>, name: string)
    requires fields != [] && fields[0].name != name
    ensures Lookup(fields, name) == Lookup(fields[1..], name)
    ensures RemoveField(fields, name) == [fields[0]] + RemoveField(fields[1..], name)
  {
    var p := Position(fields[1..], name);
    assert Position(fields, name) == 1 + p;
    if p < |fields[1..]| {
      RemoveInTail(fields, p);
    } else {
      assert fields == [fields[0]] + fields[1..];
    }
  }

  lemma {:induction false} RemoveInTail(fields: seq<Field>, p: nat)
    requires p + 1 < |fields|
    ensures fields[..p + 1] + fields[p + 2..] == [fields[0]] + (fields[1..][..p] + fields[1..][p + 1..])
  {}

  lemma {:induction false} LookupHead(head: Field, rest: seq<Field>, name: string)
    ensures Lookup([head] + rest, name) == if head.name == name then Some(head.value) else Lookup(rest, name)
  {
    assert ([head] + rest)[1..] == rest;
    if head.name != name {
      LookupTail([head] + rest, name);
    }
  }

  /** The ordered fields and the index from a name to its position. */
  class Paragraph {
    var fields: seq<Field>
    var index: map<string, nat>

    ghost predicate Valid()
      reads this
    {
      && DistinctNames(fields)
      && (forall name :: name in index ==> index[name] < |fields| && fields[index[name]].name == name)
      && (forall i :: 0 <= i < |fields| ==> fields[i].name in index)
    }

    constructor ()
      ensures Valid() && fields == []
    {
      fields := [];
      index := map[];
    }

    method Get(name: string) returns (value: Option<string>)
      requires Valid()
      ensures value == Lookup(fields, name)
    {
      if name in index {
        value := Some(fields[index[name]].value);
        assert Position(fields, name) == index[name];
      } else {
        value := None;
      }
    }

    method Set(name: string, value: string)
      requires Valid()
      modifies this
      ensures Valid()
      ensures fields == SetField(old(fields), name, value)
    {
      if name in index {
        assert Position(fields, name) == index[name];
        fields := fields[index[name] := Field(name, value)];
        return;
      }
      index := index[name := |fields|];
      fields := fields + [Field(name, value)];
    }

    method Take(name: string) returns (value: Option<string>)
      requires Valid()
      modifies this
      ensures Valid()
      ensures value == Lookup(old(fields), name)
      ensures fields == RemoveField(old(fields), name)
    {
      if name !in index {
        return None;
      }
      var position := index[name];
      assert Position(fields, name) == position;
      value := Some(fields[position].value);
      fields := fields[..position] + fields[position + 1..];
      Reindex();
    }

    method Reindex()
      requires DistinctNames(fields)
      modifies this`index
      ensures Valid()
    {
      index := map[];
      for position := 0 to |fields|
        invariant forall name :: name in index ==> index[name] < |fields| && fields[index[name]].name == name
        invariant forall i :: 0 <= i < position ==> fields[i].name in index
      {
        index := index[fields[position].name := position];
      }
    }
  }

  // ---- lines of a paragraph

  /** `strings.ReplaceAll(input, "\r\n", "\n")`. */
  function UnixLines(s: string): string {
    if s == "" then ""
    else if HasPrefix(s, "\r\n") then "\n" + UnixLines(s[2..])
    else [s[0]] + UnixLines(s[1..])
  }

  function TrimReturn(line: string): string {
    if line != "" && line[|line| - 1] == '\r' then line[..|line| - 1] else line
  }

  lemma {:induction false} UnixLinesFixed(s: string)
    requires '\r' !in s
    ensures UnixLines(s) == s
  {
    if s != "" {
      assert s[0] != '\r';
      assert !HasPrefix(s, "\r\n");
      UnixLinesFixed(s[1..]);
    }
  }

  predicate NameChar(c: char) {
    c == '-' || c == '_' || 'a' <= c <= 'z' || 'A' <= c <= 'Z' || IsDigit(c)
  }

  predicate FieldName(name: string) {
    name != "" && forall i :: 0 <= i < |name| ==> NameChar(name[i])
  }

  function IndexOf(s: string, c: char): (p: nat)
    ensures p <= |s|
    ensures p < |s| ==> s[p] == c
    ensures forall i :: 0 <= i < p ==> s[i] != c
  {
    if s == "" || s[0] == c then 0 else 1 + IndexOf(s[1..], c)
  }

  function Indent(line: string): nat {
    |line| - |TrimLeft(line)|
  }

  predicate IsContinuation(line: string) {
    0 < Indent(line) < |line|
  }

  predicate IsControlField(line: string) {
    var colon := IndexOf(line, ':');
    0 < colon < |line| && FieldName(line[..colon])
  }

  lemma {:induction false} IndentIs(line: string, k: nat)
    requires k <= |line|
    requires forall i :: 0 <= i < k ==> IsSpace(line[i])
    requires k == |line| || !IsSpace(line[k])
    ensures Indent(line) == k && TrimLeft(line) == line[k..]
  {
    if k > 0 {
      assert line[1..][k - 1..] == line[k..];
      IndentIs(line[1..], k - 1);
    }
  }

  method ContinuationOf(line: string) returns (indent: nat, rest: string, ok: bool)
    ensures ok == IsContinuation(line)
    ensures ok ==> indent == Indent(line) && rest == TrimLeft(line)
  {
    indent := 0;
    while indent < |line| && IsSpace(line[indent])
      invariant indent <= |line|
      invariant forall i :: 0 <= i < indent ==> IsSpace(line[i])
    {
      indent := indent + 1;
    }
    IndentIs(line, indent);
    if indent == 0 || indent == |line| {
      return 0, "", false;
    }
    return indent, line[indent..], true;
  }

  method ControlFieldOf(line: string) returns (name: string, value: string, ok: bool)
    ensures ok == IsControlField(line)
    ensures ok ==> name == line[..IndexOf(line, ':')] && value == line[IndexOf(line, ':') + 1..]
  {
    var colon := IndexOf(line, ':');
    if colon == 0 || colon == |line| {
      return "", "", false;
    }
    name := line[..colon];
    for i := 0 to |name|
      invariant forall j :: 0 <= j < i ==> NameChar(name[j])
    {
      if !NameChar(name[i]) {
        return "", "", false;
      }
    }
    return name, line[colon + 1..], true;
  }

  // ---- parsing

  /** The loop state of `ParseParagraph`: committed fields and the field being read. */
  datatype Reading = Reading(fields: seq<Field>, name: string, value: string) {
    function Commit(): (r: seq<Field>)
      ensures DistinctNames(fields) ==> DistinctNames(r)
    {
      if name == "" then fields else SetField(fields, name, value)
    }
  }

  function ReadLine(st: Reading, line: string): (r: Reading)
    ensures DistinctNames(st.fields) ==> DistinctNames(r.fields)
  {
    if IsContinuation(line) then
      if st.name == "" then st
      else if Indent(line) == 1 && TrimLeft(line) == "." then st.(value := st.value + "\n")
      else st.(value := (if st.value != "" then st.value + "\n" else "") + TrimLeft(line))
    else if IsControlField(line) then
      var colon := IndexOf(line, ':');
      Reading(st.Commit(), line[..colon], TrimSpace(line[colon + 1..]))
    else st
  }

  function ReadLines(st: Reading, lines: seq<string>): (r: Reading)
    ensures DistinctNames(st.fields) ==> DistinctNames(r.fields)
    decreases |lines|
  {
    if lines == [] then st else ReadLines(ReadLine(st, TrimReturn(lines[0])), lines[1..])
  }

  const START := Reading([], "", "")

  function ParseFields(input: string): (fields: seq<Field>)
    ensures DistinctNames(fields)
  {
    ReadLines(START, Split(UnixLines(input), '\n')).Commit()
  }

  lemma {:induction false} ReadLinesAppend(st: Reading, a: seq<string>, b: seq<string>)
    ensures ReadLines(st, a + b) == ReadLines(ReadLines(st, a), b)
    decreases |a|
  {
    if a == [] {
      assert a + b == b;
    } else {
      assert (a + b)[1..] == a[1..] + b;
      ReadLinesAppend(ReadLine(st, TrimReturn(a[0])), a[1..], b);
    }
  }

  method ParseParagraph(input: string) returns (p: Paragraph)
    ensures fresh(p) && p.Valid()
    ensures p.fields == ParseFields(input)
  {
    p := new Paragraph();
    var currentName, currentValue := "", "";
    var lines := Split(UnixLines(input), '\n');
    ghost var result := ReadLines(START, lines);
    for i := 0 to |lines|
      invariant fresh(p) && p.Valid()
      invariant ReadLines(Reading(p.fields, currentName, currentValue), lines[i..]) == result
    {
      var line := TrimReturn(lines[i]);
      assert lines[i..][0] == lines[i] && lines[i..][1..] == lines[i + 1..];
      var indent, rest, continues := ContinuationOf(line);
      if continues {
        if currentName == "" {
          continue;
        }
        if indent == 1 && rest == "." {
          currentValue := currentValue + "\n";
          continue;
        }
        if currentValue != "" {
          currentValue := currentValue + "\n";
        }
        currentValue := currentValue + rest;
        continue;
      }
      var name, value, ok := ControlFieldOf(line);
      if !ok {
        continue;
      }
      if currentName != "" {
        p.Set(currentName, currentValue);
      }
      currentName := name;
      currentValue := TrimSpace(value);
    }
    assert lines[|lines|..] == [];
    if currentName != "" {
      p.Set(currentName, currentValue);
    }
  }

  // ---- printing

  function DropTrailingEmpty(lines: seq<string>): (r: seq<string>)
    ensures r <= lines
    ensures r != [] ==> r[|r| - 1] != ""
    ensures forall i :: |r| <= i < |lines| ==> lines[i] == ""
  {
    if lines != [] && lines[|lines| - 1] == "" then DropTrailingEmpty(lines[..|lines| - 1]) else lines
  }

  /** The lines of a value that get written; the empty value is one empty line. */
  function ValueLines(value: string): (lines: seq<string>)
    ensures lines != []
  {
    var lines := if value == "" then [] else DropTrailingEmpty(Split(value, '\n'));
    if lines == [] then [""] else lines
  }

  lemma {:induction false} ValueLinesChars(value: string)
    ensures Free(ValueLines(value), '\n')
    ensures '\r' !in value ==> Free(ValueLines(value), '\r')
  {
    JoinSplit(value, '\n');
    if '\r' !in value {
      SplitChars(value, '\n', '\r');
    }
  }

  method SplitValueLines(value: string) returns (lines: seq<string>)
    ensures lines == if value == "" then [] else DropTrailingEmpty(Split(value, '\n'))
  {
    if value == "" {
      return [];
    }
    lines := Split(value, '\n');
    while lines != [] && lines[|lines| - 1] == ""
      invariant DropTrailingEmpty(lines) == DropTrailingEmpty(Split(value, '\n'))
      decreases |lines|
    {
      lines := lines[..|lines| - 1];
    }
  }

  function FoldLine(line: string): string {
    if Blank(line) then " ." else " " + line
  }

  function FoldedLines(f: Field): seq<string> {
    var lines := ValueLines(f.value);
    [f.name + ": " + lines[0]] + FoldRest(lines[1..])
  }

  function FoldRest(lines: seq<string>): (r: seq<string>)
    ensures |r| == |lines|
    ensures forall i :: 0 <= i < |r| ==> r[i] == FoldLine(lines[i])
  {
    if lines == [] then [] else [FoldLine(lines[0])] + FoldRest(lines[1..])
  }

  function Written(f: Field): string {
    Unlines(FoldedLines(f))
  }

  function AllFoldedLines(fields: seq<Field>): seq<string> {
    if fields == [] then [] else FoldedLines(fields[0]) + AllFoldedLines(fields[1..])
  }

  function WrittenAll(fields: seq<Field>): string {
    if fields == [] then "" else Written(fields[0]) + WrittenAll(fields[1..])
  }

  lemma {:induction false} WrittenAllIsLines(fields: seq<Field>)
    ensures WrittenAll(fields) == Unlines(AllFoldedLines(fields))
  {
    if fields != [] {
      WrittenAllIsLines(fields[1..]);
      UnlinesAppend(FoldedLines(fields[0]), AllFoldedLines(fields[1..]));
    }
  }

  lemma {:induction false} FoldedAt(f: Field, i: nat)
    requires 1 <= i < |ValueLines(f.value)|
    ensures FoldedLines(f)[i] == FoldLine(ValueLines(f.value)[i])
  {
    var lines := ValueLines(f.value);
    assert FoldedLines(f)[i] == FoldRest(lines[1..])[i - 1] && lines[1..][i - 1] == lines[i];
  }

  method WriteField(output: string, name: string, value: string) returns (r: string)
    ensures r == output + Written(Field(name, value))
  {
    var lines := SplitValueLines(value);
    if |lines| == 0 {
      lines := [""];
    }
    var text := name + ": " + lines[0] + "\n";
    ghost var f := Field(name, value);
    UnlinesSnoc(FoldedLines(f), 0);
    for i := 1 to |lines|
      invariant text == Unlines(FoldedLines(f)[..i])
    {
      UnlinesSnoc(FoldedLines(f), i);
      FoldedAt(f, i);
      if TrimSpace(lines[i]) == "" {
        text := text + " ." + "\n";
      } else {
        text := text + (" " + lines[i]) + "\n";
      }
    }
    assert FoldedLines(f)[..|lines|] == FoldedLines(f);
    r := output + text;
  }

  // ---- one fold and unfold of a value

  /** What reading one folded line adds to the value read so far. */
  function Unfold(value: string, line: string): string {
    if Blank(line) || line == "." then value + "\n"
    else (if value != "" then value + "\n" else "") + TrimLeft(line)
  }

  function UnfoldAll(value: string, lines: seq<string>): string
    decreases |lines|
  {
    if lines == [] then value else UnfoldAll(Unfold(value, lines[0]), lines[1..])
  }

  /** The value read back after writing `value`. */
  function Refold(value: string): string {
    var lines := ValueLines(value);
    UnfoldAll(TrimSpace(lines[0]), lines[1..])
  }

  lemma {:induction false} ReadFolded(st: Reading, lines: seq<string>)
    requires st.name != ""
    requires Free(lines, '\r')
    ensures ReadLines(st, FoldRest(lines)) == st.(value := UnfoldAll(st.value, lines))
    decreases |lines|
  {
    if lines != [] {
      var line, folded := lines[0], FoldLine(lines[0]);
      BlankMeansAllSpace(line);
      if Blank(line) {
        assert TrimLeft(" .") == ".";
      } else {
        assert TrimLeft(" " + line) == TrimLeft(line);
        assert folded[|folded| - 1] in line;
      }
      assert TrimReturn(folded) == folded;
      assert ReadLine(st, folded) == st.(value := Unfold(st.value, line));
      ReadFolded(st.(value := Unfold(st.value, line)), lines[1..]);
      assert FoldRest(lines)[1..] == FoldRest(lines[1..]);
    }
  }

  lemma {:induction false} IndexOfColon(name: string, rest: string)
    requires FieldName(name)
    ensures IndexOf(name + ":" + rest, ':') == |name|
  {
    var line := name + ":" + rest;
    assert forall i :: 0 <= i < |name| ==> line[i] == name[i];
    assert line[|name|] == ':';
  }

  lemma {:induction false} FirstLineIsField(name: string, line: string)
    requires FieldName(name)
    ensures var first := name + ": " + line;
            && !IsContinuation(first) && IsControlField(first)
            && first[..IndexOf(first, ':')] == name
            && TrimSpace(first[IndexOf(first, ':') + 1..]) == TrimSpace(line)
  {
    var first := name + ": " + line;
    assert first == name + ":" + (" " + line);
    IndexOfColon(name, " " + line);
    assert first[..|name|] == name && first[|name| + 1..] == " " + line;
    assert TrimLeft(" " + line) == TrimLeft(line);
    assert first[0] == name[0];
  }

  lemma {:induction false} TrimReturnFixed(prefix: string, line: string)
    requires '\r' !in line && prefix != "" && prefix[|prefix| - 1] == ' '
    ensures TrimReturn(prefix + line) == prefix + line
  {
    if line != "" {
      assert (prefix + line)[|prefix + line| - 1] == line[|line| - 1];
      assert line[|line| - 1] in line;
    }
  }

  lemma {:induction false} ReadFirst(st: Reading, name: string, line: string)
    requires FieldName(name) && '\r' !in line
    ensures ReadLine(st, TrimReturn(name + ": " + line)) == Reading(st.Commit(), name, TrimSpace(line))
  {
    FirstLineIsField(name, line);
    TrimReturnFixed(name + ": ", line);
  }

  lemma {:induction false} ReadField(st: Reading, f: Field)
    requires FieldName(f.name) && '\r' !in f.value
    ensures ReadLines(st, FoldedLines(f)) == Reading(st.Commit(), f.name, Refold(f.value))
  {
    var lines := ValueLines(f.value);
    ValueLinesChars(f.value);
    assert lines[0] in lines;
    ReadFirst(st, f.name, lines[0]);
    ReadFolded(Reading(st.Commit(), f.name, TrimSpace(lines[0])), lines[1..]);
    assert FoldedLines(f)[1..] == FoldRest(lines[1..]);
  }

  ghost predicate Writable(fields: seq<Field>) {
    && DistinctNames(fields)
    && forall i :: 0 <= i < |fields| ==> FieldName(fields[i].name) && '\r' !in fields[i].value
  }

  function Refolded(fields: seq<Field>): (r: seq<Field>)
    ensures |r| == |fields|
  {
    if fields == [] then [] else [Field(fields[0].name, Refold(fields[0].value))] + Refolded(fields[1..])
  }

  lemma {:induction false} RefoldedAt(fields: seq<Field>, i: nat)
    requires i < |fields|
    ensures Refolded(fields)[i].name == fields[i].name && Refolded(fields)[i].value == Refold(fields[i].value)
  {
    if i > 0 {
      RefoldedAt(fields[1..], i - 1);
      assert Refolded(fields)[i] == Refolded(fields[1..])[i - 1];
    }
  }

  lemma {:induction false} SetAppends(done: seq<Field>, name: string, value: string)
    requires forall i :: 0 <= i < |done| ==> done[i].name != name
    ensures SetField(done, name, value) == done + [Field(name, value)]
  {}

  lemma {:induction false} CommitAppends(done: seq<Field>, name: string, value: string)
    requires name != ""
    requires forall i :: 0 <= i < |done| ==> done[i].name != name
    ensures Reading(done, name, value).Commit() == done + [Field(name, value)]
  {}

  lemma {:induction false} WritableStep(done: seq<Field>, fields: seq<Field>)
    requires Writable(done + fields) && fields != []
    ensures FieldName(fields[0].name) && '\r' !in fields[0].value
    ensures forall i :: 0 <= i < |done| ==> done[i].name != fields[0].name
    ensures Writable(done + [Field(fields[0].name, Refold(fields[0].value))] + fields[1..])
  {
    var all := done + fields;
    var f' := Field(fields[0].name, Refold(fields[0].value));
    var next := done + [f'] + fields[1..];
    assert all[|done|] == fields[0];
    assert forall i :: 0 <= i < |done| ==> all[i] == done[i];
    RefoldChars(fields[0].value);
    assert next == all[|done| := f'];
  }

  lemma {:induction false} ReadAllFrom(st: Reading, done: seq<Field>, fields: seq<Field>)
    requires st.Commit() == done
    requires Writable(done + fields) && fields != []
    ensures ReadLines(st, AllFoldedLines(fields)).Commit() == done + Refolded(fields)
    decreases |fields|
  {
    var f, rest := fields[0], fields[1..];
    WritableStep(done, fields);
    ReadField(st, f);
    ReadLinesAppend(st, FoldedLines(f), AllFoldedLines(rest));
    var f' := Field(f.name, Refold(f.value));
    CommitAppends(done, f.name, Refold(f.value));
    Assoc(done, [f'], Refolded(rest));
    AppendEmpty(done + [f']);
    if rest != [] {
      ReadAllFrom(Reading(done, f.name, Refold(f.value)), done + [f'], rest);
    }
  }

  lemma {:induction false} UnfoldChars(value: string, lines: seq<string>, c: char)
    requires c != '\n' && c !in value
    requires Free(lines, c)
    ensures c !in UnfoldAll(value, lines)
    decreases |lines|
  {
    if lines != [] {
      assert lines[0] in lines;
      TrimLeftChars(lines[0], c);
      UnfoldChars(Unfold(value, lines[0]), lines[1..], c);
    }
  }

  lemma {:induction false} RefoldChars(value: string)
    requires '\r' !in value
    ensures '\r' !in Refold(value)
  {
    var lines := ValueLines(value);
    ValueLinesChars(value);
    assert lines[0] in lines;
    TrimSpaceChars(lines[0], '\r');
    UnfoldChars(TrimSpace(lines[0]), lines[1..], '\r');
  }

  ghost predicate PlainFields(fields: seq<Field>) {
    forall i :: 0 <= i < |fields| ==> FieldName(fields[i].name) && '\r' !in fields[i].value
  }

  lemma {:induction false} ParseLines(fields: seq<Field>)
    requires PlainFields(fields)
    ensures ParseFields(WrittenAll(fields)) == ReadLines(START, AllFoldedLines(fields)).Commit()
  {
    var lines := AllFoldedLines(fields);
    WrittenAllIsLines(fields);
    FoldedLinesChars(fields);
    UnlinesChars(lines);
    UnixLinesFixed(WrittenAll(fields));
    SplitUnlines(lines);
    ReadLinesAppend(START, lines, [""]);
    var st := ReadLines(START, lines);
    assert TrimReturn("") == "" && ReadLine(st, "") == st;
    assert ReadLines(st, [""]) == ReadLines(st, []);
  }

  /** The parser reads back exactly the written fields, in order, each value folded and unfolded once. */
  lemma {:induction false} ParseWritten(fields: seq<Field>)
    requires Writable(fields)
    ensures ParseFields(WrittenAll(fields)) == Refolded(fields)
  {
    ParseLines(fields);
    if fields != [] {
      assert [] + fields == fields;
      ReadAllFrom(START, [], fields);
      assert [] + Refolded(fields) == Refolded(fields);
    }
  }

  // ---- names written twice

  function SetAll(done: seq<Field>, fields: seq<Field>): seq<Field>
    decreases |fields|
  {
    if fields == [] then done else SetAll(SetField(done, fields[0].name, fields[0].value), fields[1..])
  }

  lemma {:induction false} ReadAnyFrom(st: Reading, done: seq<Field>, fields: seq<Field>)
    requires st.Commit() == done && PlainFields(fields)
    ensures ReadLines(st, AllFoldedLines(fields)).Commit() == SetAll(done, Refolded(fields))
    decreases |fields|
  {
    if fields != [] {
      var f, rest := fields[0], fields[1..];
      ReadField(st, f);
      ReadLinesAppend(st, FoldedLines(f), AllFoldedLines(rest));
      ReadAnyFrom(Reading(done, f.name, Refold(f.value)), SetField(done, f.name, Refold(f.value)), rest);
    }
  }

  /** Whatever names repeat, the parser returns only fields that were written, each value folded and unfolded once. */
  lemma {:induction false} ParsedWereWritten(fields: seq<Field>, f: Field)
    requires PlainFields(fields) && f in ParseFields(WrittenAll(fields))
    ensures exists i :: 0 <= i < |fields| && f == Field(fields[i].name, Refold(fields[i].value))
  {
    ParseLines(fields);
    ReadAnyFrom(START, [], fields);
    SetAllMembers([], Refolded(fields), f);
    var i :| 0 <= i < |fields| && Refolded(fields)[i] == f;
    RefoldedAt(fields, i);
  }

  lemma {:induction false} SetAllMembers(done: seq<Field>, fields: seq<Field>, f: Field)
    requires f in SetAll(done, fields)
    ensures f in done || f in fields
    decreases |fields|
  {
    if fields != [] {
      SetAllMembers(SetField(done, fields[0].name, fields[0].value), fields[1..], f);
    }
  }

  /** The last value under the name. */
  function LastOf(fields: seq<Field>, name: string): Option<string> {
    if fields == [] then None
    else
      var later := LastOf(fields[1..], name);
      if later.Some? || fields[0].name != name then later else Some(fields[0].value)
  }

  lemma {:induction false} PositionIs(fields: seq<Field>, name: string, p: nat)
    requires p <= |fields| && (p < |fields| ==> fields[p].name == name)
    requires forall i :: 0 <= i < p ==> fields[i].name != name
    ensures Position(fields, name) == p
  {}

  lemma {:induction false} LookupSet(fields: seq<Field>, name: string, value: string, other: string)
    ensures Lookup(SetField(fields, name, value), other) == if other == name then Some(value) else Lookup(fields, other)
  {
    var again, p, q := SetField(fields, name, value), Position(fields, name), Position(fields, other);
    if p < |fields| {
      assert forall i :: 0 <= i < |fields| ==> again[i].name == fields[i].name;
      PositionIs(again, other, q);
    } else {
      assert forall i :: 0 <= i < |fields| ==> again[i] == fields[i];
      PositionIs(again, other, if other == name then p else if q < |fields| then q else |again|);
    }
  }

  lemma {:induction false} LookupSetAll(done: seq<Field>, fields: seq<Field>, name: string)
    ensures Lookup(SetAll(done, fields), name) == if LastOf(fields, name).Some? then LastOf(fields, name)
            else Lookup(done, name)
    decreases |fields|
  {
    if fields != [] {
      LookupSetAll(SetField(done, fields[0].name, fields[0].value), fields[1..], name);
      LookupSet(done, fields[0].name, fields[0].value, name);
    }
  }

  lemma {:induction false} RefoldedLast(fields: seq<Field>, name: string)
    ensures LastOf(Refolded(fields), name)
            == match LastOf(fields, name) case None => None case Some(value) => Some(Refold(value))
  {
    if fields != [] {
      RefoldedLast(fields[1..], name);
    }
  }

  /** Of names written more than once the parser keeps the last value. */
  lemma {:induction false} ParseKeepsLast(fields: seq<Field>, name: string)
    requires PlainFields(fields)
    ensures Lookup(ParseFields(WrittenAll(fields)), name)
            == match LastOf(fields, name) case None => None case Some(value) => Some(Refold(value))
  {
    ParseLines(fields);
    ReadAnyFrom(START, [], fields);
    LookupSetAll([], Refolded(fields), name);
    RefoldedLast(fields, name);
  }

  lemma {:induction false} LastOfAppend(a: seq<Field>, b: seq<Field>, name: string)
    ensures LastOf(a + b, name) == if LastOf(b, name).Some? then LastOf(b, name) else LastOf(a, name)
  {
    if a == [] {
      assert a + b == b;
    } else {
      assert (a + b)[1..] == a[1..] + b;
      LastOfAppend(a[1..], b, name);
    }
  }

  lemma {:induction false} LastIsOnly(fields: seq<Field>, name: string)
    requires DistinctNames(fields)
    ensures LastOf(fields, name) == Lookup(fields, name)
  {
    if fields != [] {
      LastIsOnly(fields[1..], name);
    }
  }

  lemma {:induction false} FoldLineFree(line: string, c: char)
    requires c !in line && c != ' ' && c != '.'
    ensures c !in FoldLine(line)
  {}

  lemma {:induction false} FieldNameChars(name: string)
    requires FieldName(name)
    ensures '\n' !in name && '\r' !in name && ':' !in name && ' ' !in name
  {}

  lemma {:induction false} FoldedLinesFree(f: Field, c: char)
    requires FieldName(f.name) && c !in f.name
    requires Free(ValueLines(f.value), c)
    requires c != ' ' && c != '.' && c != ':'
    ensures Free(FoldedLines(f), c)
  {
    var lines, folded := ValueLines(f.value), FoldedLines(f);
    forall i | 0 <= i < |folded| ensures c !in folded[i] {
      if i == 0 {
        assert folded[0] == f.name + ": " + lines[0];
        assert c !in ": ";
      } else {
        assert folded[i] == FoldRest(lines[1..])[i - 1] == FoldLine(lines[i]);
        FoldLineFree(lines[i], c);
      }
    }
  }

  lemma {:induction false} FoldedLinesChars(fields: seq<Field>)
    requires forall i :: 0 <= i < |fields| ==> FieldName(fields[i].name) && '\r' !in fields[i].value
    ensures Free(AllFoldedLines(fields), '\n') && Free(AllFoldedLines(fields), '\r')
  {
    if fields != [] {
      var f := fields[0];
      ValueLinesChars(f.value);
      FieldNameChars(f.name);
      FoldedLinesFree(f, '\n');
      FoldedLinesFree(f, '\r');
      FoldedLinesChars(fields[1..]);
    }
  }

  lemma {:induction false} UnlinesChars(lines: seq<string>)
    requires Free(lines, '\r')
    ensures '\r' !in Unlines(lines)
  {
    if lines != [] {
      UnlinesChars(lines[1..]);
    }
  }

  // ---- when a value survives

  predicate CanonicalLine(line: string) {
    line == "" || (!IsSpace(line[0]) && line != ".")
  }

  /** First line trimmed, later lines not indented and not a lone dot, no trailing blank line, and an empty first line
      only above a blank one. */
  predicate Canonical(value: string) {
    var lines := Split(value, '\n');
    value == "" || (
      && Trimmed(lines[0])
      && (lines[0] == "" ==> |lines| > 1 && lines[1] == "")
      && (forall i :: 1 <= i < |lines| ==> CanonicalLine(lines[i]))
      && lines[|lines| - 1] != "")
  }

  function Undot(line: string): string {
    if line == "." then "" else line
  }

  function UndotAll(lines: seq<string>): (r: seq<string>)
    ensures |r| == |lines|
    ensures forall i :: 0 <= i < |r| ==> r[i] == Undot(lines[i])
  {
    if lines == [] then [] else [Undot(lines[0])] + UndotAll(lines[1..])
  }

  lemma {:induction false} UndotAllFixed(lines: seq<string>)
    requires "." !in lines
    ensures UndotAll(lines) == lines
  {
    if lines != [] {
      assert lines[0] in lines;
      UndotAllFixed(lines[1..]);
    }
  }

  predicate Flush(line: string) {
    line == "" || !IsSpace(line[0])
  }

  ghost predicate AllFlush(lines: seq<string>) {
    forall i :: 0 <= i < |lines| ==> Flush(lines[i])
  }

  lemma {:induction false} UnfoldFlush(value: string, line: string)
    requires Flush(line)
    requires value == "" ==> Undot(line) == ""
    ensures Unfold(value, line) == value + "\n" + Undot(line)
  {
    if line != "" {
      VisibleIsNotBlank(line);
    }
  }

  /** Unfolding lines that are not indented joins them, lone dots read as blank lines. */
  lemma {:induction false} UnfoldJoins(value: string, lines: seq<string>)
    requires AllFlush(lines)
    requires value == "" ==> lines == [] || Undot(lines[0]) == ""
    ensures UnfoldAll(value, lines) == Join([value] + UndotAll(lines), "\n")
    decreases |lines|
  {
    if lines != [] {
      var line := lines[0];
      var next := Unfold(value, line);
      UnfoldFlush(value, line);
      UnfoldJoins(next, lines[1..]);
      var rest := UndotAll(lines[1..]);
      JoinMerge(value, Undot(line), rest);
      ConsCons(value, Undot(line), rest);
    } else {
      AppendEmpty([value]);
    }
  }

  lemma {:induction false} CanonicalSurvives(value: string)
    requires Canonical(value)
    ensures Refold(value) == value
  {
    if value != "" {
      var lines := Split(value, '\n');
      assert ValueLines(value) == lines;
      TrimmedIsFixed(lines[0]);
      forall l | l in lines[1..] ensures Flush(l) && l != "." {
        var i :| 0 <= i < |lines[1..]| && lines[1..][i] == l;
        assert CanonicalLine(lines[i + 1]);
      }
      UnfoldJoins(lines[0], lines[1..]);
      UndotAllFixed(lines[1..]);
      JoinSplit(value, '\n');
    }
  }

  function Weight(lines: seq<string>): nat {
    if lines == [] then 0 else 1 + |lines[0]| + Weight(lines[1..])
  }

  lemma {:induction false} WeightOfPrefix(lines: seq<string>, k: nat)
    requires k <= |lines|
    ensures Weight(lines[..k]) + |lines| - k <= Weight(lines)
  {
    if k == 0 {
      WeightAtLeast(lines);
    } else {
      assert lines[..k][1..] == lines[1..][..k - 1];
      WeightOfPrefix(lines[1..], k - 1);
    }
  }

  lemma {:induction false} WeightAtLeast(lines: seq<string>)
    ensures |lines| <= Weight(lines)
  {
    if lines != [] {
      WeightAtLeast(lines[1..]);
    }
  }

  lemma {:induction false} WeightOfJoin(lines: seq<string>)
    requires lines != []
    ensures |Join(lines, "\n")| + 1 == Weight(lines)
  {
    if |lines| > 1 {
      WeightOfJoin(lines[1..]);
    }
  }

  /** Unfolding never gains characters, and keeps them all only on canonical lines. */
  lemma {:induction false} UnfoldWeight(value: string, lines: seq<string>)
    ensures |UnfoldAll(value, lines)| <= |value| + Weight(lines)
    ensures |UnfoldAll(value, lines)| == |value| + Weight(lines) ==>
              && (forall i :: 0 <= i < |lines| ==> CanonicalLine(lines[i]))
              && (value == "" ==> lines == [] || lines[0] == "")
    decreases |lines|
  {
    if lines != [] {
      UnfoldWeight(Unfold(value, lines[0]), lines[1..]);
    }
  }

  lemma {:induction false} SurvivorIsCanonical(value: string)
    requires Refold(value) == value
    ensures Canonical(value)
  {
    if value != "" {
      var all := Split(value, '\n');
      var lines := ValueLines(value);
      var kept := DropTrailingEmpty(all);
      JoinSplit(value, '\n');
      WeightOfJoin(all);
      if kept != [] {
        WeightOfPrefix(all, |kept|);
        assert kept == all[..|kept|];
        UnfoldWeight(TrimSpace(lines[0]), lines[1..]);
        assert Weight(lines) == 1 + |lines[0]| + Weight(lines[1..]);
        assert lines == all;
        assert forall i :: 1 <= i < |lines| ==> lines[i] == lines[1..][i - 1];
      }
    }
  }

  /** A value is read back unchanged exactly when it is canonical. */
  lemma {:induction false} SurvivesIffCanonical(value: string)
    ensures Refold(value) == value <==> Canonical(value)
  {
    if Canonical(value) {
      CanonicalSurvives(value);
    }
    if Refold(value) == value {
      SurvivorIsCanonical(value);
    }
  }

  /** The parser returns exactly the written list, in order, if and only if every value is canonical. */
  lemma {:induction false} ParagraphRoundTrip(fields: seq<Field>)
    requires Writable(fields)
    ensures ParseFields(WrittenAll(fields)) == fields
            <==> forall i :: 0 <= i < |fields| ==> Canonical(fields[i].value)
  {
    ParseWritten(fields);
    forall i | 0 <= i < |fields| ensures Refolded(fields)[i] == fields[i] <==> Canonical(fields[i].value) {
      RefoldedAt(fields, i);
      SurvivesIffCanonical(fields[i].value);
    }
  }

  // ---- parsed values

  /** The shape of every value the parser returns. */
  predicate Unfolded(value: string) {
    var lines := Split(value, '\n');
    && (forall i :: 0 <= i < |lines| ==> Flush(lines[i]))
    && (lines[0] == "" ==> |lines| == 1 || lines[1] == "")
  }

  lemma {:induction false} SplitAppendLine(value: string, line: string)
    requires '\n' !in line
    ensures Split(value + "\n" + line, '\n') == Split(value, '\n') + [line]
  {
    var parts := Split(value, '\n');
    JoinSplit(value, '\n');
    JoinAppendLine(parts, line);
    SplitJoin(parts + [line], '\n');
  }

  lemma {:induction false} UnfoldedLine(line: string)
    requires '\n' !in line && Flush(line)
    ensures Unfolded(line)
  {
    SplitOne(line, '\n');
  }

  lemma {:induction false} UnfoldedAppend(value: string, line: string)
    requires Unfolded(value) && '\n' !in line && Flush(line)
    requires value == "" ==> line == ""
    ensures Unfolded(value + "\n" + line)
  {
    SplitAppendLine(value, line);
    var lines := Split(value, '\n');
    JoinSplit(value, '\n');
    if |lines| == 1 {
      assert value == lines[0];
    }
  }

  ghost predicate AllUnfolded(fields: seq<Field>) {
    forall i :: 0 <= i < |fields| ==> Unfolded(fields[i].value)
  }

  lemma {:induction false} UnfoldedContinuation(value: string, rest: string)
    requires Unfolded(value) && '\n' !in rest && rest != "" && !IsSpace(rest[0])
    ensures Unfolded((if value != "" then value + "\n" else "") + rest)
  {
    if value != "" {
      UnfoldedAppend(value, rest);
    } else {
      UnfoldedLine(rest);
      assert "" + rest == rest;
    }
  }

  lemma {:induction false} ReadLineUnfolded(st: Reading, line: string)
    requires '\n' !in line && Unfolded(st.value) && AllUnfolded(st.fields)
    ensures Unfolded(ReadLine(st, line).value) && AllUnfolded(ReadLine(st, line).fields)
  {
    if IsContinuation(line) {
      UnfoldedAppend(st.value, "");
      assert st.value + "\n" + "" == st.value + "\n";
      TrimLeftChars(line, '\n');
      UnfoldedContinuation(st.value, TrimLeft(line));
    } else if IsControlField(line) {
      var text := line[IndexOf(line, ':') + 1..];
      TrimSpaceChars(text, '\n');
      UnfoldedLine(TrimSpace(text));
    }
  }

  lemma {:induction false} ReadLinesUnfolded(st: Reading, lines: seq<string>)
    requires Free(lines, '\n')
    requires Unfolded(st.value) && AllUnfolded(st.fields)
    ensures Unfolded(ReadLines(st, lines).value) && AllUnfolded(ReadLines(st, lines).fields)
    decreases |lines|
  {
    if lines != [] {
      assert lines[0] in lines;
      ReadLineUnfolded(st, TrimReturn(lines[0]));
      ReadLinesUnfolded(ReadLine(st, TrimReturn(lines[0])), lines[1..]);
    }
  }

  lemma {:induction false} ParsedValuesUnfolded(input: string)
    ensures AllUnfolded(ParseFields(input))
  {
    var lines := Split(UnixLines(input), '\n');
    JoinSplit(UnixLines(input), '\n');
    UnfoldedLine("");
    ReadLinesUnfolded(START, lines);
  }

  predicate EndsInLoneDot(value: string) {
    var lines := ValueLines(value);
    |lines| > 1 && lines[|lines| - 1] == "."
  }

  lemma {:induction false} UndotAllChars(lines: seq<string>, c: char)
    requires Free(lines, c)
    ensures Free(UndotAll(lines), c)
  {
    if lines != [] {
      assert lines[0] in lines;
      UndotAllChars(lines[1..], c);
    }
  }

  lemma {:induction false} DropTrailingFlush(value: string)
    requires Unfolded(value)
    ensures AllFlush(ValueLines(value))
    ensures var lines := ValueLines(value); lines[0] == "" ==> |lines| == 1 || lines[1] == ""
    ensures var lines := ValueLines(value); |lines| > 1 ==> lines[|lines| - 1] != ""
  {
    var all := Split(value, '\n');
    var kept := DropTrailingEmpty(all);
    assert kept == all[..|kept|];
  }

  lemma {:induction false} RefoldJoins(value: string)
    requires Unfolded(value)
    ensures var lines := ValueLines(value);
            Refold(value) == Join([TrimSpace(lines[0])] + UndotAll(lines[1..]), "\n")
  {
    var lines := ValueLines(value);
    DropTrailingFlush(value);
    if lines[0] != "" {
      VisibleIsNotBlank(lines[0]);
    }
    UnfoldJoins(TrimSpace(lines[0]), lines[1..]);
  }

  lemma {:induction false} RefoldLinesFree(value: string)
    ensures var lines := ValueLines(value); Free([TrimSpace(lines[0])] + UndotAll(lines[1..]), '\n')
  {
    var lines := ValueLines(value);
    ValueLinesChars(value);
    TrimSpaceChars(lines[0], '\n');
    UndotAllChars(lines[1..], '\n');
  }

  lemma {:induction false} RefoldUnfolded(value: string)
    requires Unfolded(value)
    ensures var lines := ValueLines(value);
            Split(Refold(value), '\n') == [TrimSpace(lines[0])] + UndotAll(lines[1..])
  {
    var lines := ValueLines(value);
    RefoldJoins(value);
    RefoldLinesFree(value);
    SplitJoin([TrimSpace(lines[0])] + UndotAll(lines[1..]), '\n');
  }

  lemma {:induction false} UndotAllLast(lines: seq<string>)
    requires lines != []
    ensures UndotAll(lines)[|lines| - 1] == Undot(lines[|lines| - 1])
    ensures AllFlush(lines) ==> forall i :: 0 <= i < |lines| ==> CanonicalLine(UndotAll(lines)[i])
  {
    assert lines[0] in lines;
    if |lines| > 1 {
      UndotAllLast(lines[1..]);
    } else {
      assert UndotAll(lines) == [Undot(lines[0])];
    }
  }

  lemma {:induction false} RefoldOneLine(value: string)
    requires Unfolded(value) && |ValueLines(value)| == 1
    ensures Canonical(Refold(value))
  {
    RefoldUnfolded(value);
    var head := TrimSpace(ValueLines(value)[0]);
    assert Split(Refold(value), '\n') == [head];
    JoinSplit(Refold(value), '\n');
  }

  lemma {:induction false} CanonicalFromLines(value: string, head: string, rest: seq<string>)
    requires Split(value, '\n') == [head] + rest && rest != []
    requires Trimmed(head) && (head == "" ==> rest[0] == "")
    requires forall i :: 0 <= i < |rest| ==> CanonicalLine(rest[i])
    ensures Canonical(value) <==> rest[|rest| - 1] != ""
  {
    var lines := Split(value, '\n');
    assert lines[|lines| - 1] == rest[|rest| - 1];
    assert Split("", '\n') == [""];
  }

  /** The lines a value of several lines is read back as. */
  lemma {:induction false} RefoldedRest(lines: seq<string>)
    requires |lines| > 1 && AllFlush(lines) && lines[|lines| - 1] != ""
    ensures var rest := UndotAll(lines[1..]);
            && rest != [] && (forall i :: 0 <= i < |rest| ==> CanonicalLine(rest[i]))
            && (rest[|rest| - 1] == "" <==> lines[|lines| - 1] == ".")
            && (lines[1] == "" ==> rest[0] == "")
  {
    var tail := lines[1..];
    assert AllFlush(tail) && tail[|tail| - 1] == lines[|lines| - 1];
    UndotAllLast(tail);
  }

  lemma {:induction false} RefoldedHead(lines: seq<string>)
    requires lines != [] && AllFlush(lines)
    ensures TrimSpace(lines[0]) == "" <==> lines[0] == ""
  {
    if lines[0] != "" {
      VisibleIsNotBlank(lines[0]);
    }
  }

  lemma {:induction false} RefoldManyLines(value: string)
    requires Unfolded(value) && |ValueLines(value)| > 1
    ensures Canonical(Refold(value)) <==> !EndsInLoneDot(value)
  {
    var lines := ValueLines(value);
    RefoldUnfolded(value);
    DropTrailingFlush(value);
    RefoldedRest(lines);
    RefoldedHead(lines);
    CanonicalFromLines(Refold(value), TrimSpace(lines[0]), UndotAll(lines[1..]));
  }

  /** One fold and unfold brings a parsed value to a fixed point exactly when its last written line is not a lone
      dot. */
  lemma {:induction false} RefoldReachesFixpoint(value: string)
    requires Unfolded(value)
    ensures Refold(Refold(value)) == Refold(value) <==> !EndsInLoneDot(value)
  {
    SurvivesIffCanonical(Refold(value));
    if |ValueLines(value)| == 1 {
      RefoldOneLine(value);
    } else {
      RefoldManyLines(value);
    }
  }

  // ---- whole paragraphs

  predicate WritableField(f: Field) {
    FieldName(f.name) && '\r' !in f.value
  }

  ghost predicate WritableState(st: Reading) {
    && (st.name == "" || FieldName(st.name)) && '\r' !in st.value
    && forall i :: 0 <= i < |st.fields| ==> WritableField(st.fields[i])
  }

  lemma {:induction false} CommitWritable(st: Reading)
    requires WritableState(st)
    ensures forall i :: 0 <= i < |st.Commit()| ==> WritableField(st.Commit()[i])
  {}

  lemma {:induction false} ReadLineWritable(st: Reading, line: string)
    requires '\r' !in line && WritableState(st)
    ensures WritableState(ReadLine(st, line))
  {
    CommitWritable(st);
    TrimLeftChars(line, '\r');
    if IsControlField(line) {
      TrimSpaceChars(line[IndexOf(line, ':') + 1..], '\r');
    }
  }

  lemma {:induction false} ReadLinesWritable(st: Reading, lines: seq<string>)
    requires Free(lines, '\r') && WritableState(st)
    ensures WritableState(ReadLines(st, lines))
    decreases |lines|
  {
    if lines != [] {
      assert lines[0] in lines;
      ReadLineWritable(st, TrimReturn(lines[0]));
      ReadLinesWritable(ReadLine(st, TrimReturn(lines[0])), lines[1..]);
    }
  }

  lemma {:induction false} ParsedIsWritable(input: string)
    requires '\r' !in input
    ensures Writable(ParseFields(input))
  {
    UnixLinesFixed(input);
    SplitChars(input, '\n', '\r');
    ReadLinesWritable(START, Split(input, '\n'));
    CommitWritable(ReadLines(START, Split(input, '\n')));
  }

  lemma {:induction false} RefoldedIsWritable(fields: seq<Field>)
    requires Writable(fields)
    ensures Writable(Refolded(fields))
  {
    var again := Refolded(fields);
    forall i | 0 <= i < |again| ensures again[i].name == fields[i].name && '\r' !in again[i].value {
      RefoldedAt(fields, i);
      RefoldChars(fields[i].value);
    }
  }

  /** Writing what was parsed and parsing it again settles a paragraph, unless a value ends in a lone dot. */
  lemma {:induction false} ParagraphSettles(input: string)
    requires '\r' !in input
    ensures var fields := ParseFields(input);
            var once := ParseFields(WrittenAll(fields));
            ParseFields(WrittenAll(once)) == once <==> forall i :: 0 <= i < |fields| ==> !EndsInLoneDot(fields[i].value)
  {
    var fields := ParseFields(input);
    ParsedIsWritable(input);
    ParsedValuesUnfolded(input);
    ParseWritten(fields);
    RefoldedIsWritable(fields);
    ParagraphRoundTrip(Refolded(fields));
    forall i | 0 <= i < |fields| ensures Canonical(Refolded(fields)[i].value) <==> !EndsInLoneDot(fields[i].value) {
      RefoldedAt(fields, i);
      RefoldReachesFixpoint(fields[i].value);
      SurvivesIffCanonical(Refold(fields[i].value));
    }
  }
}
