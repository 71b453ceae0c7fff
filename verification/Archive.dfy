/** The `ar` stream of a Debian package: members in order however little of each body is read, the member grammar, and
    the counter every byte passes. */
module Archive {
  import opened Text
  import opened Numbers
  import R = Release

  const MAGIC := "!<arch>\n"
  const HEADER_SIZE: nat := 60

  /** The input with the tee in front of it: everything read is counted and fed to the hashes. */
  class Source {
    const data: string
    var position: nat
    var counted: nat
    var hashed: string

    ghost predicate Valid()
      reads this
    {
      position <= |data| && counted == position && hashed == data[..position]
    }

    constructor (data: string)
      ensures Valid() && this.data == data && position == 0
    {
      this.data, position, counted, hashed := data, 0, 0, "";
    }

    /** Passes `n` bytes on. */
    method Take(n: nat) returns (chunk: string)
      requires Valid() && position + n <= |data|
      modifies this
      ensures Valid() && position == old(position) + n && chunk == data[old(position)..position]
    {
      chunk := data[position..position + n];
      hashed := hashed + chunk;
      position, counted := position + n, counted + n;
      assert data[..position] == data[..position - n] + data[position - n..position];
    }

    /** `Read`: some bytes, at least one unless the input or the request is at its end. */
    method Read(limit: nat) returns (chunk: string)
      requires Valid()
      modifies this
      ensures Valid() && position == old(position) + |chunk| && chunk == data[old(position)..position]
      ensures |chunk| <= limit && (limit > 0 && old(position) < |data| ==> |chunk| > 0)
    {
      var available := |data| - position;
      var most := if limit < available then limit else available;
      var n: nat :| n <= most && (most > 0 ==> n > 0);
      chunk := Take(n);
    }

    /** `io.ReadFull`: all of it, or whatever is left and a failure. */
    method ReadFull(n: nat) returns (chunk: string, ok: bool)
      requires Valid()
      modifies this
      ensures Valid() && ok == (old(position) + n <= |data|)
      ensures position == (if ok then old(position) + n else |data|) && chunk == data[old(position)..position]
    {
      ok := n <= |data| - position;
      chunk := Take(if ok then n else |data| - position);
    }
  }

  // ---- headers

  datatype Header = End | Bad(reason: string) | Member(name: string, size: nat)

  function TrimSlash(name: string): string {
    if HasSuffix(name, "/") then name[..|name| - 1] else name
  }

  /** A header of sixty bytes. */
  function ParsedHeader(header: string): Header
    requires |header| == HEADER_SIZE
  {
    if header[58..60] != "`\n" then Bad("invalid ar member header trailer")
    else
      var name := TrimSlash(TrimSpace(header[0..16]));
      if name == "" then Bad("ar member has an empty name")
      else if name == "/" || name == "//" || HasPrefix(name, "#1/") then Bad("unsupported extended ar member name")
      else
        var size := ParseInt(TrimSpace(header[48..58]));
        if !size.Number? || size.value < 0 then Bad("invalid size for ar member") else Member(name, size.value)
  }

  /** What stands at a position where a member may begin. */
  function HeaderAt(data: string, p: nat): Header {
    if p > |data| then Bad("truncated ar member")
    else if p == |data| then End
    else if |data| - p < HEADER_SIZE then Bad("truncated ar member header")
    else ParsedHeader(data[p..p + HEADER_SIZE])
  }

  /** Where the member after one at `p` begins: bodies of odd size are padded. */
  function AfterMember(p: nat, size: nat): nat {
    p + HEADER_SIZE + size + size % 2
  }

  // ---- the reader

  class ArReader {
    const source: Source
    var started: bool
    var remaining: nat
    var padding: nat

    ghost predicate Valid()
      reads this, source
    {
      source.Valid()
    }

    /** Where the next header is due, however much of the current body was read. */
    ghost function Due(): nat
      reads this, source
    {
      if started then source.position + remaining + padding else |MAGIC|
    }

    constructor (source: Source)
      requires source.Valid() && source.position == 0
      ensures Valid() && this.source == source && !started && remaining == 0 && padding == 0
    {
      this.source, started, remaining, padding := source, false, 0, 0;
    }

    method ReadMagic() returns (ok: bool)
      requires Valid() && source.position == 0 && !started && remaining == 0 && padding == 0
      modifies this`started, source
      ensures Valid() && ok == HasPrefix(source.data, MAGIC)
      ensures ok ==> started && source.position == |MAGIC|
    {
      var magic, full := source.ReadFull(|MAGIC|);
      if !full || magic != MAGIC {
        return false;
      }
      started := true;
      return true;
    }

    /** Skips what is left of the current body and its padding. */
    method SkipBody() returns (ok: bool)
      requires Valid() && started
      modifies this`remaining, this`padding, source
      ensures Valid() && ok == (old(Due()) <= |source.data|)
      ensures ok ==> source.position == old(Due()) && remaining == 0 && padding == 0
    {
      if remaining > 0 {
        var skipped, full := source.ReadFull(remaining);
        if !full {
          return false;
        }
      }
      if padding > 0 {
        var padded, full := source.ReadFull(padding);
        if !full {
          return false;
        }
      }
      remaining, padding := 0, 0;
      return true;
    }

    method ReadHeader() returns (member: Header)
      requires Valid()
      modifies source
      ensures Valid() && member == HeaderAt(source.data, old(source.position))
      ensures member.Member? ==> source.position == old(source.position) + HEADER_SIZE
      ensures member.End? ==> source.position == |source.data|
    {
      if source.position == |source.data| {
        return End;
      }
      var header, full := source.ReadFull(HEADER_SIZE);
      if !full {
        return Bad("truncated ar member header");
      }
      return ParsedHeader(header);
    }

    method Next() returns (member: Header)
      requires Valid() && (started || (source.position == 0 && remaining == 0 && padding == 0))
      modifies this, source
      ensures Valid()
      ensures if !old(started) && !HasPrefix(source.data, MAGIC) then member.Bad?
              else if HeaderAt(source.data, old(Due())).Bad? then member.Bad?
              else member == HeaderAt(source.data, old(Due()))
      ensures member.Member? ==> started && source.position == old(Due()) + HEADER_SIZE
                                 && remaining == member.size && padding == member.size % 2
      ensures member.End? ==> source.position == |source.data|
    {
      if !started {
        var ok := ReadMagic();
        if !ok {
          return Bad("incorrect ar magic");
        }
      }
      var skipped := SkipBody();
      if !skipped {
        return Bad("truncated ar member");
      }
      member := ReadHeader();
      if member.Member? {
        remaining, padding := member.size, member.size % 2;
      }
    }

    /** `memberReader.Read`: bytes of the current body only; the next header stays where it is. An input that ends
        inside the body is told from the end of the body. */
    method ReadBody(limit: nat) returns (chunk: string, early: bool)
      requires Valid() && started
      modifies this`remaining, source
      ensures Valid() && Due() == old(Due()) && |chunk| <= limit && |chunk| <= old(remaining)
      ensures source.position == old(source.position) + |chunk|
      ensures chunk == source.data[old(source.position)..source.position]
      ensures remaining == old(remaining) - |chunk|
      ensures limit > 0 && old(remaining) > 0 && old(source.position) < |source.data| ==> |chunk| > 0
      ensures early <==> limit > 0 && old(remaining) > 0 && old(source.position) == |source.data|
    {
      if remaining == 0 {
        assert source.data[source.position..source.position] == "";
        return "", false;
      }
      chunk := source.Read(if limit > remaining then remaining else limit);
      remaining := remaining - |chunk|;
      early := limit > 0 && chunk == "";
    }
  }

  // ---- archives with given members

  datatype File = File(name: string, body: string)

  /** Names and sizes that fit a header, and fields of the right width for what the reader ignores. */
  ghost predicate FitsHeader(f: File, ignored: string) {
    && f.name != "" && Trimmed(f.name) && |f.name| <= 16 && f.name[|f.name| - 1] != '/' && !HasPrefix(f.name, "#1/")
    && |Decimal(|f.body|)| <= 10 && |f.body| <= MAX_INT64 && |ignored| == 32
  }

  function Padded(s: string, width: nat): string {
    if |s| < width then s + R.Padding(width - |s|) else s
  }

  function HeaderOf(f: File, ignored: string): string {
    Padded(f.name, 16) + ignored + Padded(Decimal(|f.body|), 10) + "`\n"
  }

  function Packed(f: File, ignored: string): string {
    HeaderOf(f, ignored) + f.body + (if |f.body| % 2 == 1 then "\n" else "")
  }

  function PackedAll(files: seq<File>, ignored: string): string {
    if files == [] then "" else Packed(files[0], ignored) + PackedAll(files[1..], ignored)
  }

  function ArchiveOf(files: seq<File>, ignored: string): string {
    "!<arch>\n" + PackedAll(files, ignored)
  }

  lemma {:induction false} PaddingLength(n: nat)
    ensures |R.Padding(n)| == n
  {
    if n > 0 {
      PaddingLength(n - 1);
    }
  }

  lemma {:induction false} PaddedLength(s: string, width: nat)
    requires |s| <= width
    ensures |Padded(s, width)| == width
  {
    if |s| < width {
      PaddingLength(width - |s|);
    }
  }

  lemma {:induction false} TrimRightSpaces(s: string, spaces: string)
    requires forall i :: 0 <= i < |spaces| ==> IsSpace(spaces[i])
    ensures TrimRight(s + spaces) == TrimRight(s)
    decreases |spaces|
  {
    if spaces == "" {
      AppendEmpty(s);
    } else {
      var t := s + spaces;
      assert t[|t| - 1] == spaces[|spaces| - 1];
      assert t[..|t| - 1] == s + spaces[..|spaces| - 1];
      TrimRightSpaces(s, spaces[..|spaces| - 1]);
    }
  }

  lemma {:induction false} TrimPadded(s: string, width: nat)
    requires s != "" && Trimmed(s)
    ensures TrimSpace(Padded(s, width)) == s
  {
    TrimmedIsFixed(s);
    if |s| < width {
      var spaces := R.Padding(width - |s|);
      R.PaddingSpaces(width - |s|);
      assert (s + spaces)[0] == s[0];
      assert TrimLeft(s + spaces) == s + spaces && TrimLeft(s) == s;
      TrimRightSpaces(s, spaces);
    }
  }

  lemma {:induction false} HeaderParts(a: string, b: string, c: string)
    requires |a| == 16 && |b| == 32 && |c| == 10
    ensures var h := a + b + c + "`\n"; |h| == HEADER_SIZE && h[0..16] == a && h[48..58] == c && h[58..60] == "`\n"
  {}

  lemma {:induction false} WordTrimmed(s: string)
    requires Word(s)
    ensures Trimmed(s)
  {}

  /** A name, padded to the width of a header, and a size: what the header says is a member of the name without a
      slash at its end, unless that leaves no name or one of the extended forms. */
  lemma {:induction false} HeaderExactly(f: File, ignored: string)
    requires f.name != "" && Trimmed(f.name) && |f.name| <= 16
    requires |Decimal(|f.body|)| <= 10 && |f.body| <= MAX_INT64 && |ignored| == 32
    ensures |HeaderOf(f, ignored)| == HEADER_SIZE
    ensures var n := if f.name[|f.name| - 1] == '/' then f.name[..|f.name| - 1] else f.name;
            if n == "" || n == "/" || n == "//" || HasPrefix(n, "#1/") then ParsedHeader(HeaderOf(f, ignored)).Bad?
            else ParsedHeader(HeaderOf(f, ignored)) == Member(n, |f.body|)
  {
    var digits := Decimal(|f.body|);
    PaddedLength(f.name, 16);
    PaddedLength(digits, 10);
    HeaderParts(Padded(f.name, 16), ignored, Padded(digits, 10));
    TrimPadded(f.name, 16);
    DecimalIsWord(|f.body|);
    WordTrimmed(digits);
    TrimPadded(digits, 10);
    ParseDecimal(|f.body|);
    LastSlash(f.name);
  }

  lemma {:induction false} LastSlash(s: string)
    requires s != ""
    ensures HasSuffix(s, "/") <==> s[|s| - 1] == '/'
  {
    assert s[|s| - 1..] == [s[|s| - 1]];
  }

  /** A header reads back as its member. */
  lemma {:induction false} HeaderReadsBack(f: File, ignored: string)
    requires FitsHeader(f, ignored)
    ensures |HeaderOf(f, ignored)| == HEADER_SIZE && ParsedHeader(HeaderOf(f, ignored)) == Member(f.name, |f.body|)
  {
    HeaderExactly(f, ignored);
  }

  /** Where the header of the `i`-th member stands. */
  function Offset(files: seq<File>, i: nat): nat
    requires i <= |files|
  {
    if i == 0 then |MAGIC| else AfterMember(Offset(files, i - 1), |files[i - 1].body|)
  }

  ghost predicate AllFit(files: seq<File>, ignored: string) {
    forall i :: 0 <= i < |files| ==> FitsHeader(files[i], ignored)
  }

  lemma {:induction false} PackedLength(f: File, ignored: string)
    requires FitsHeader(f, ignored)
    ensures |Packed(f, ignored)| == AfterMember(0, |f.body|)
  {
    HeaderReadsBack(f, ignored);
  }

  lemma {:induction false} DropFirst(data: string, p: nat, first: string, rest: string)
    requires p <= |data| && data[p..] == first + rest
    ensures p + |first| <= |data| && data[p + |first|..] == rest
  {
    assert data[p + |first|..] == data[p..][|first|..];
  }

  lemma {:induction false} PackedAllStep(files: seq<File>, ignored: string, i: nat)
    requires i < |files|
    ensures PackedAll(files[i..], ignored) == Packed(files[i], ignored) + PackedAll(files[i + 1..], ignored)
  {
    assert files[i..][0] == files[i] && files[i..][1..] == files[i + 1..];
  }

  lemma {:induction false} TailNext(data: string, p: nat, files: seq<File>, ignored: string, i: nat)
    requires i < |files| && FitsHeader(files[i], ignored)
    requires p <= |data| && data[p..] == PackedAll(files[i..], ignored)
    ensures AfterMember(p, |files[i].body|) <= |data|
    ensures data[AfterMember(p, |files[i].body|)..] == PackedAll(files[i + 1..], ignored)
  {
    PackedLength(files[i], ignored);
    PackedAllStep(files, ignored, i);
    DropFirst(data, p, Packed(files[i], ignored), PackedAll(files[i + 1..], ignored));
  }

  /** Everything from the `i`-th header on. */
  lemma {:induction false} TailAt(files: seq<File>, ignored: string, i: nat)
    requires AllFit(files, ignored) && i <= |files|
    ensures Offset(files, i) <= |ArchiveOf(files, ignored)|
    ensures ArchiveOf(files, ignored)[Offset(files, i)..] == PackedAll(files[i..], ignored)
  {
    var data := ArchiveOf(files, ignored);
    if i == 0 {
      assert files[0..] == files;
    } else {
      TailAt(files, ignored, i - 1);
      TailNext(data, Offset(files, i - 1), files, ignored, i - 1);
    }
  }

  lemma {:induction false} HeaderInTail(data: string, p: nat, header: string, rest: string)
    requires p <= |data| && data[p..] == header + rest && |header| == HEADER_SIZE
    ensures HeaderAt(data, p) == ParsedHeader(header)
  {
    assert data[p..p + HEADER_SIZE] == data[p..][..HEADER_SIZE] == header;
  }

  lemma {:induction false} EndInTail(data: string, p: nat)
    requires p <= |data| && data[p..] == ""
    ensures HeaderAt(data, p) == End
  {}

  /** At each offset stands the member's header, and at the last the end of the archive. */
  lemma {:induction false} MemberAt(files: seq<File>, ignored: string, i: nat)
    requires AllFit(files, ignored) && i <= |files|
    ensures HeaderAt(ArchiveOf(files, ignored), Offset(files, i))
            == if i == |files| then End else Member(files[i].name, |files[i].body|)
  {
    var data, p := ArchiveOf(files, ignored), Offset(files, i);
    TailAt(files, ignored, i);
    if i == |files| {
      EndInTail(data, p);
    } else {
      var f := files[i];
      var pad := if |f.body| % 2 == 1 then "\n" else "";
      HeaderReadsBack(f, ignored);
      Assoc(HeaderOf(f, ignored), f.body, pad);
      Assoc(HeaderOf(f, ignored), f.body + pad, PackedAll(files[i + 1..], ignored));
      assert files[i..][0] == f && files[i..][1..] == files[i + 1..];
      HeaderInTail(data, p, HeaderOf(f, ignored), f.body + pad + PackedAll(files[i + 1..], ignored));
    }
  }

  /** What stands at each position of the input. */
  function Headers(data: string): nat -> Header {
    (p: nat) => HeaderAt(data, p)
  }

  /** Members one after another, each header where the one before it ends. */
  ghost predicate Linked(at: nat -> Header, offsets: seq<nat>, members: seq<Header>) {
    && |offsets| == |members| + 1 && offsets[0] == |MAGIC|
    && forall i :: 0 <= i < |members| ==>
         members[i].Member? && at(offsets[i]) == members[i]
             && offsets[i + 1] == AfterMember(offsets[i], members[i].size)
  }

  /** The input is an archive of the members and nothing else. */
  ghost predicate LaidOut(data: string, offsets: seq<nat>, members: seq<Header>) {
    HasPrefix(data, MAGIC) && Linked(Headers(data), offsets, members) && Headers(data)(offsets[|members|]) == End
  }

  lemma {:induction false} LinkedSnoc(at: nat -> Header, offsets: seq<nat>, members: seq<Header>, member: Header)
    requires Linked(at, offsets, members) && member.Member? && at(offsets[|members|]) == member
    ensures Linked(at, offsets + [AfterMember(offsets[|members|], member.size)], members + [member])
  {}

  lemma {:induction false} LaidOutWhenEnded(data: string, offsets: seq<nat>, members: seq<Header>)
    requires HasPrefix(data, MAGIC) && Linked(Headers(data), offsets, members)
    requires Headers(data)(offsets[|members|]) == End
    ensures LaidOut(data, offsets, members)
  {}

  /** The reader is due at the position, or has not begun. */
  ghost predicate DueAt(reader: ArReader, due: nat)
    reads reader, reader.source
  {
    && reader.Valid() && reader.Due() == due
    && (if reader.started then HasPrefix(reader.source.data, MAGIC)
        else reader.source.position == 0 && reader.remaining == 0 && reader.padding == 0)
  }

  /** `Next`, by where the reader is due. */
  method NextAt(reader: ArReader, ghost due: nat) returns (member: Header)
    requires DueAt(reader, due)
    modifies reader, reader.source
    ensures reader.Valid()
    ensures HasPrefix(reader.source.data, MAGIC) && !Headers(reader.source.data)(due).Bad? ==>
            member == Headers(reader.source.data)(due)
    ensures !member.Bad? ==> HasPrefix(reader.source.data, MAGIC) && Headers(reader.source.data)(due) == member
    ensures member.Member? ==>
            reader.started && reader.remaining == member.size && DueAt(reader, AfterMember(due, member.size))
    ensures member.Member? ==> reader.source.position == due + HEADER_SIZE
    ensures member.End? ==> reader.source.position == |reader.source.data|
  {
    member := reader.Next();
  }

  /** Reads an archive, taking at most `appetite(i)` bytes of the `i`-th body: whatever the appetite and however the
      input comes in pieces, exactly the members come out, in order, and every byte was counted and hashed. */
  method ReadMembers(source: Source, appetite: nat -> nat, ghost offsets: seq<nat>, ghost expected: seq<Header>)
    returns (members: seq<Header>)
    requires source.Valid() && source.position == 0 && LaidOut(source.data, offsets, expected)
    modifies source
    ensures members == expected
    ensures source.Valid() && source.counted == |source.data| && source.hashed == source.data
  {
    var reader := new ArReader(source);
    ghost var at := Headers(source.data);
    members := [];
    var member := NextAt(reader, |MAGIC|);
    while member.Member?
      invariant fresh(reader) && reader.source == source && reader.Valid() && |members| <= |expected|
      invariant members == expected[..|members|] && member == at(offsets[|members|])
      invariant member.Member? ==> reader.started && DueAt(reader, AfterMember(offsets[|members|], member.size))
      invariant member.End? ==> source.position == |source.data|
      decreases |expected| - |members|
    {
      var _, _ := reader.ReadBody(appetite(|members|));
      TakeSnoc(expected, |members|);
      members := members + [member];
      member := NextAt(reader, offsets[|members|]);
    }
    assert source.data[..source.position] == source.data;
  }

  function OffsetsOf(files: seq<File>, n: nat): (offsets: seq<nat>)
    requires n <= |files|
    ensures |offsets| == n + 1 && forall i :: 0 <= i <= n ==> offsets[i] == Offset(files, i)
  {
    if n == 0 then [Offset(files, 0)] else OffsetsOf(files, n - 1) + [Offset(files, n)]
  }

  function MembersOf(files: seq<File>): (members: seq<Header>)
    ensures |members| == |files|
    ensures forall i :: 0 <= i < |files| ==> members[i] == Member(files[i].name, |files[i].body|)
  {
    if files == [] then [] else [Member(files[0].name, |files[0].body|)] + MembersOf(files[1..])
  }

  lemma {:induction false} LinkedFrom(at: nat -> Header, files: seq<File>)
    requires forall i :: 0 <= i < |files| ==> at(Offset(files, i)) == MembersOf(files)[i]
    ensures Linked(at, OffsetsOf(files, |files|), MembersOf(files))
  {
    var offsets, members := OffsetsOf(files, |files|), MembersOf(files);
    assert offsets[0] == Offset(files, 0);
    forall i | 0 <= i < |members|
      ensures members[i].Member? && at(offsets[i]) == members[i]
      ensures offsets[i + 1] == AfterMember(offsets[i], members[i].size)
    {
      NextOffset(files, i);
    }
  }

  lemma {:induction false} NextOffset(files: seq<File>, i: nat)
    requires i < |files|
    ensures OffsetsOf(files, |files|)[i] == Offset(files, i)
    ensures OffsetsOf(files, |files|)[i + 1] == AfterMember(Offset(files, i), |files[i].body|)
  {}

  /** An archive of any members is laid out as its members say, so reading it yields exactly them. */
  lemma {:induction false} ArchiveLaidOut(files: seq<File>, ignored: string)
    requires AllFit(files, ignored)
    ensures LaidOut(ArchiveOf(files, ignored), OffsetsOf(files, |files|), MembersOf(files))
  {
    var at := Headers(ArchiveOf(files, ignored));
    forall i | 0 <= i <= |files| ensures at(Offset(files, i)) == if i < |files| then MembersOf(files)[i] else End {
      MemberAt(files, ignored, i);
    }
    StartsWithMagic(PackedAll(files, ignored));
    LinkedFrom(at, files);
  }

  lemma {:induction false} StartsWithMagic(rest: string)
    ensures HasPrefix(MAGIC + rest, MAGIC)
  {
    assert (MAGIC + rest)[..|MAGIC|] == MAGIC;
  }
}
