/** Inspecting a package file: what it must contain, and what is learnt from it. */
module Inspection {
  import opened Text
  import opened Archive
  import opened PackageFile
  import opened Digests
  import P = Package

  /** What is there of the body whose header stands at `p`. */
  function BodyAt(data: string, p: nat, size: nat): string {
    if p + HEADER_SIZE > |data| then ""
    else if p + HEADER_SIZE + size > |data| then data[p + HEADER_SIZE..]
    else data[p + HEADER_SIZE..p + HEADER_SIZE + size]
  }

  /** The member at `p` states a supported format version. */
  predicate StatesFormat(data: string, p: nat, size: nat) {
    size <= 32 && p + HEADER_SIZE + size <= |data| && SupportedFormat(BodyAt(data, p, size))
  }

  /** Decompressing and searching a control archive: from its name and its bytes to the control file. */
  type Unpacker = (string, string) -> Result<string>

  /** A member the reader can go past in a state. */
  predicate Passes(unpack: Unpacker, data: string, p: nat, member: Header, state: nat)
    requires member.Member?
  {
    && Advance(state, member.name).Some?
    && (state == 0 ==> StatesFormat(data, p, member.size))
    && (state == 1 && Advance(state, member.name) == Some(2) ==> unpack(member.name, BodyAt(data, p, member.size)).Ok?)
  }

  function NamesOf(members: seq<Header>): (names: seq<string>)
    ensures |names| == |members|
    ensures forall i :: 0 <= i < |names| ==> names[i] == if members[i].Member? then members[i].name else ""
  {
    if members == [] then [] else [if members[0].Member? then members[0].name else ""] + NamesOf(members[1..])
  }

  lemma {:induction false} NamesSnoc(members: seq<Header>, member: Header)
    requires member.Member?
    ensures NamesOf(members + [member]) == NamesOf(members) + [member.name]
  {
    var names, more := NamesOf(members) + [member.name], NamesOf(members + [member]);
    assert forall i :: 0 <= i < |names| ==> more[i] == names[i];
  }

  lemma {:induction false} NamesTake(members: seq<Header>, k: nat)
    requires k <= |members|
    ensures NamesOf(members[..k]) == NamesOf(members)[..k]
  {}

  // ---- package files

  ghost predicate HasControl(unpack: Unpacker, data: string, offsets: seq<nat>, members: seq<Header>, text: string) {
    exists c: nat :: ControlFrom(unpack, data, offsets, members, text, c)
  }

  ghost predicate ControlFrom(
      unpack: Unpacker, data: string, offsets: seq<nat>, members: seq<Header>, text: string, c: nat) {
    && c < |offsets| && ControlAt(NamesOf(members), c) && members[c].Member?
    && unpack(members[c].name, BodyAt(data, offsets[c], members[c].size)) == Ok(text)
  }

  ghost predicate HasFormat(data: string, offsets: seq<nat>, members: seq<Header>) {
    members != [] && offsets != [] && members[0].Member? && StatesFormat(data, offsets[0], members[0].size)
  }

  /** The input is a package file: an archive of these members and nothing else, named as the format asks, with a
      supported version in front and a control archive that unpacks to the text. */
  ghost predicate PackageWith(unpack: Unpacker, data: string, offsets: seq<nat>, members: seq<Header>, text: string) {
    && LaidOut(data, offsets, members) && Grammar(NamesOf(members))
    && HasFormat(data, offsets, members) && HasControl(unpack, data, offsets, members, text)
  }

  lemma {:induction false} FormatPasses(data: string, offsets: seq<nat>, members: seq<Header>, k: nat, state: nat)
    requires HasFormat(data, offsets, members) && |offsets| == |members| + 1 && k < |members| && members[k].Member?
    requires AdvanceAll(0, NamesOf(members)[..k]) == Some(state)
    ensures state == 0 ==> StatesFormat(data, offsets[k], members[k].size)
  {
    StateTells(NamesOf(members)[..k]);
  }

  lemma {:induction false} ControlPasses(
      unpack: Unpacker, data: string, offsets: seq<nat>, members: seq<Header>, text: string, k: nat, state: nat)
    requires HasControl(unpack, data, offsets, members, text) && |offsets| == |members| + 1 && k < |members|
    requires members[k].Member?
    requires AdvanceAll(0, NamesOf(members)[..k]) == Some(state)
    ensures state == 1 && Advance(1, members[k].name) == Some(2) ==>
              unpack(members[k].name, BodyAt(data, offsets[k], members[k].size)) == Ok(text)
  {
    if state == 1 && Advance(1, members[k].name) == Some(2) {
      ControlNext(NamesOf(members), k);
      var c: nat :| ControlFrom(unpack, data, offsets, members, text, c);
      OneControl(NamesOf(members), c, k);
    }
  }

  lemma {:induction false} NamePasses(members: seq<Header>, k: nat, state: nat)
    requires Grammar(NamesOf(members)) && k < |members| && members[k].Member?
    requires AdvanceAll(0, NamesOf(members)[..k]) == Some(state)
    ensures Advance(state, members[k].name).Some?
  {
    AcceptedPrefix(NamesOf(members), k);
  }

  lemma {:induction false} EndPasses(names: seq<string>, k: nat, state: nat)
    requires Grammar(names) && k == |names| && AdvanceAll(0, names[..k]) == Some(state)
    ensures state == 3
  {
    assert names[..k] == names;
    FollowsAccepted(names);
  }

  /** In a package file every member passes in the state the ones before it lead to, and the list does not stop before
      a data archive. */
  lemma {:induction false} PackagePasses(
      unpack: Unpacker, data: string, offsets: seq<nat>, members: seq<Header>, text: string, k: nat, state: nat)
    requires PackageWith(unpack, data, offsets, members, text)
    requires k <= |members| && AdvanceAll(0, NamesOf(members[..k])) == Some(state)
    ensures k == |members| ==> state == 3
    ensures k < |members| ==> Passes(unpack, data, offsets[k], members[k], state)
  {
    NamesTake(members, k);
    if k == |members| {
      EndPasses(NamesOf(members), k, state);
    } else {
      NamePasses(members, k, state);
      FormatPasses(data, offsets, members, k, state);
      ControlPasses(unpack, data, offsets, members, text, k, state);
    }
  }

  lemma {:induction false} OneText(
      unpack: Unpacker, data: string, offsets: seq<nat>, members: seq<Header>, a: string, b: string)
    requires HasControl(unpack, data, offsets, members, a) && HasControl(unpack, data, offsets, members, b)
    ensures a == b
  {
    var c: nat :| ControlFrom(unpack, data, offsets, members, a, c);
    var d: nat :| ControlFrom(unpack, data, offsets, members, b, d);
    OneControl(NamesOf(members), c, d);
  }

  // ---- progress of the reader

  /** Members read so far, the state they lead to, and the control file once it is read. */
  ghost predicate Progress(
      unpack: Unpacker, data: string, offsets: seq<nat>, members: seq<Header>, state: nat, text: string) {
    && Linked(Headers(data), offsets, members) && AdvanceAll(0, NamesOf(members)) == Some(state)
    && (state >= 1 ==> HasFormat(data, offsets, members))
    && (state >= 2 ==> HasControl(unpack, data, offsets, members, text))
  }

  lemma {:induction false} ControlAtStays(names: seq<string>, name: string, c: nat)
    requires ControlAt(names, c)
    ensures ControlAt(names + [name], c)
  {
    assert forall j :: 0 <= j <= c ==> (names + [name])[j] == names[j];
  }

  lemma {:induction false} ControlFromStays(
      unpack: Unpacker, data: string, offsets: seq<nat>, members: seq<Header>, text: string, member: Header, next: nat,
      c: nat)
    requires ControlFrom(unpack, data, offsets, members, text, c) && member.Member? && |offsets| == |members| + 1
    ensures ControlFrom(unpack, data, offsets + [next], members + [member], text, c)
  {
    NamesSnoc(members, member);
    ControlAtStays(NamesOf(members), member.name, c);
    assert (members + [member])[c] == members[c] && (offsets + [next])[c] == offsets[c];
  }

  lemma {:induction false} ControlStays(
      unpack: Unpacker, data: string, offsets: seq<nat>, members: seq<Header>, text: string, member: Header, next: nat)
    requires HasControl(unpack, data, offsets, members, text) && member.Member? && |offsets| == |members| + 1
    ensures HasControl(unpack, data, offsets + [next], members + [member], text)
  {
    var c: nat :| ControlFrom(unpack, data, offsets, members, text, c);
    ControlFromStays(unpack, data, offsets, members, text, member, next, c);
  }

  lemma {:induction false} ControlFound(
      unpack: Unpacker, data: string, offsets: seq<nat>, members: seq<Header>, text: string, member: Header, next: nat)
    requires AdvanceAll(0, NamesOf(members)) == Some(1) && |offsets| == |members| + 1
    requires member.Member? && Advance(1, member.name) == Some(2)
    requires unpack(member.name, BodyAt(data, offsets[|members|], member.size)) == Ok(text)
    ensures HasControl(unpack, data, offsets + [next], members + [member], text)
  {
    StateTells(NamesOf(members));
    NamesSnoc(members, member);
    assert ControlFrom(unpack, data, offsets + [next], members + [member], text, |members|);
  }

  lemma {:induction false} FormatGrows(
      data: string, offsets: seq<nat>, members: seq<Header>, state: nat, member: Header, next: nat)
    requires |offsets| == |members| + 1 && member.Member? && AdvanceAll(0, NamesOf(members)) == Some(state)
    requires state >= 1 ==> HasFormat(data, offsets, members)
    requires state == 0 ==> StatesFormat(data, offsets[|members|], member.size)
    ensures HasFormat(data, offsets + [next], members + [member])
  {
    StateTells(NamesOf(members));
  }

  lemma {:induction false} StateAdvances(state: nat, name: string)
    requires Advance(state, name).Some? && state <= 3
    ensures state != 1 || Advance(state, name) == Some(1) || Advance(state, name) == Some(2)
    ensures Advance(state, name).value >= 2 ==> state >= 2 || (state == 1 && Advance(state, name) == Some(2))
    ensures Advance(state, name).value <= 3
  {}

  lemma {:induction false} ControlGrows(
      unpack: Unpacker, data: string, offsets: seq<nat>, members: seq<Header>, state: nat, text: string,
      member: Header, read: string, after: nat)
    requires |offsets| == |members| + 1 && member.Member? && AdvanceAll(0, NamesOf(members)) == Some(state)
    requires state <= 3 && (state >= 2 ==> HasControl(unpack, data, offsets, members, text))
    requires Advance(state, member.name).Some?
    requires state == 1 && Advance(state, member.name) == Some(2) ==>
               unpack(member.name, BodyAt(data, offsets[|members|], member.size)) == Ok(read)
    ensures Advance(state, member.name).value >= 2 ==>
              HasControl(unpack, data, offsets + [after], members + [member],
                         if state == 1 && Advance(state, member.name) == Some(2) then read else text)
  {
    StateAdvances(state, member.name);
    if state == 1 && Advance(state, member.name) == Some(2) {
      ControlFound(unpack, data, offsets, members, read, member, after);
    } else if state >= 2 {
      ControlStays(unpack, data, offsets, members, text, member, after);
    }
  }

  lemma {:induction false} NamesAdvance(members: seq<Header>, state: nat, member: Header)
    requires AdvanceAll(0, NamesOf(members)) == Some(state) && member.Member?
    ensures AdvanceAll(0, NamesOf(members + [member])) == Advance(state, member.name)
    ensures state <= 3
  {
    NamesSnoc(members, member);
    AdvanceAllSnoc(0, NamesOf(members), member.name);
    StateBounded(0, NamesOf(members));
  }

  lemma {:induction false} ProgressGrows(
      unpack: Unpacker, data: string, offsets: seq<nat>, members: seq<Header>, state: nat, text: string, member: Header,
      read: string)
    requires Progress(unpack, data, offsets, members, state, text) && member.Member?
    requires Headers(data)(offsets[|members|]) == member && Passes(unpack, data, offsets[|members|], member, state)
    requires var found := state == 1 && Advance(state, member.name) == Some(2);
             found ==> unpack(member.name, BodyAt(data, offsets[|members|], member.size)) == Ok(read)
    ensures var found := state == 1 && Advance(state, member.name) == Some(2);
            Progress(unpack, data, offsets + [AfterMember(offsets[|members|], member.size)], members + [member],
                     Advance(state, member.name).value, if found then read else text)
  {
    var after := AfterMember(offsets[|members|], member.size);
    LinkedSnoc(Headers(data), offsets, members, member);
    NamesAdvance(members, state, member);
    FormatGrows(data, offsets, members, state, member, after);
    ControlGrows(unpack, data, offsets, members, state, text, member, read, after);
  }

  // ---- reading

  /** One member: the format version and the control archive are read, other bodies are left to be skipped. */
  method HandleMember(reader: ArReader, member: Header, state: nat, unpack: Unpacker, appetite: nat, ghost due: nat)
    returns (r: Result<string>, next: nat)
    requires reader.Valid() && reader.started && member.Member? && reader.remaining == member.size
    requires reader.source.position == due + HEADER_SIZE
    modifies reader`remaining, reader.source
    ensures reader.Valid() && reader.Due() == old(reader.Due())
    ensures r.Ok? == Passes(unpack, reader.source.data, due, member, state)
    ensures r.Ok? ==> Advance(state, member.name) == Some(next)
    ensures r.Ok? && state == 1 && next == 2 ==> unpack(member.name, BodyAt(reader.source.data, due, member.size)) == r
  {
    next := state;
    if state == 0 {
      if member.name != "debian-binary" {
        return Err("first member is not debian-binary"), state;
      }
      var valid := ValidateDebianBinary(reader, member.size);
      return if valid then Ok("") else Err("unsupported Debian package format version"), 1;
    } else if state == 1 {
      if HasPrefix(member.name, "_") {
        return Ok(""), 1;
      }
      if !HasPrefix(member.name, "control.tar") {
        return Err("unexpected member before control archive"), state;
      }
      r := unpack(member.name, BodyAt(reader.source.data, reader.source.position - HEADER_SIZE, member.size));
      var _, _ := reader.ReadBody(appetite);
      return r, 2;
    } else if state == 2 {
      if HasPrefix(member.name, "_") {
        return Ok(""), 2;
      }
      if !HasPrefix(member.name, "data.tar") {
        return Err("unexpected member before data archive"), state;
      }
      return Ok(""), 3;
    }
    return Ok(""), 3;
  }

  /** What is read of the member that is due. */
  ghost predicate Answered(
      unpack: Unpacker, data: string, due: nat, state: nat, member: Header, r: Result<string>, next: nat) {
    && (HasPrefix(data, MAGIC) && !Headers(data)(due).Bad? ==> member == Headers(data)(due))
    && (!member.Bad? ==> HasPrefix(data, MAGIC) && Headers(data)(due) == member)
    && (member.Member? ==> r.Ok? == Passes(unpack, data, due, member, state))
    && (member.Member? && r.Ok? ==> Advance(state, member.name) == Some(next))
    && (member.Member? && r.Ok? && state == 1 && next == 2 ==> unpack(member.name, BodyAt(data, due, member.size)) == r)
  }

  /** The next member, if there is one and it passes; at the end of the archive everything has been read. */
  method ReadMember(reader: ArReader, unpack: Unpacker, appetite: nat, state: nat, ghost due: nat)
    returns (member: Header, r: Result<string>, next: nat)
    requires DueAt(reader, due)
    modifies reader, reader.source
    ensures reader.Valid()
    ensures Answered(unpack, reader.source.data, due, state, member, r, next)
    ensures member.Member? && r.Ok? ==> DueAt(reader, AfterMember(due, member.size))
    ensures member.End? ==> reader.source.position == |reader.source.data|
  {
    r, next := Ok(""), state;
    member := NextAt(reader, due);
    if member.Member? {
      r, next := HandleMember(reader, member, state, unpack, appetite, due);
    }
  }

  /** The metadata of the control file without what belongs to an index entry. */
  function Inspected(p: P.Package): P.Package {
    p.(indexFilename := None, size := None, md5 := None, sha1 := None, sha256 := None)
  }

  datatype PackageInfo = PackageInfo(pack: P.Package, hashes: FileHashes)

  /** The members so far are the first of the expected ones. */
  ghost predicate FirstOf(layout: seq<nat>, expected: seq<Header>, offsets: seq<nat>, members: seq<Header>) {
    && |members| <= |expected| && |layout| == |expected| + 1 && |offsets| == |members| + 1
    && members == expected[..|members|] && offsets == layout[..|members| + 1]
  }

  lemma {:induction false} FirstGrows(layout: seq<nat>, expected: seq<Header>, offsets: seq<nat>, members: seq<Header>)
    requires FirstOf(layout, expected, offsets, members) && |members| < |expected|
    ensures FirstOf(layout, expected, offsets + [layout[|members| + 1]], members + [expected[|members|]])
    ensures offsets[|members|] == layout[|members|]
  {
    TakeSnoc(expected, |members|);
    TakeSnoc(layout, |members| + 1);
  }

  lemma {:induction false} FirstIsAll(layout: seq<nat>, expected: seq<Header>, offsets: seq<nat>, members: seq<Header>)
    requires FirstOf(layout, expected, offsets, members) && |members| == |expected|
    ensures offsets == layout && members == expected
  {}

  /** Any package file the input may be is read along. */
  ghost predicate ReadAlong(
      unpack: Unpacker, data: string, layout: seq<nat>, expected: seq<Header>, content: string,
      offsets: seq<nat>, members: seq<Header>)
  {
    PackageWith(unpack, data, layout, expected, content) ==> FirstOf(layout, expected, offsets, members)
  }

  /** What stands where a package file goes on. */
  lemma {:induction false} StandsNext(
      data: string, layout: seq<nat>, expected: seq<Header>, offsets: seq<nat>, members: seq<Header>)
    requires LaidOut(data, layout, expected) && FirstOf(layout, expected, offsets, members)
    ensures offsets[|members|] == layout[|members|]
    ensures var here := Headers(data)(offsets[|members|]);
            if |members| == |expected| then here == End
            else
              && here == expected[|members|] && here.Member?
              && layout[|members| + 1] == AfterMember(offsets[|members|], here.size)
  {}

  lemma {:induction false} AlongPasses(
      unpack: Unpacker, data: string, layout: seq<nat>, expected: seq<Header>, content: string,
      offsets: seq<nat>, members: seq<Header>, state: nat)
    requires PackageWith(unpack, data, layout, expected, content) && FirstOf(layout, expected, offsets, members)
    requires AdvanceAll(0, NamesOf(members)) == Some(state)
    ensures var here := Headers(data)(offsets[|members|]);
            && !here.Bad? && (here.End? ==> state == 3 && members == expected && offsets == layout)
            && (here.Member? ==>
                  && Passes(unpack, data, offsets[|members|], here, state)
                  && FirstOf(layout, expected, offsets + [AfterMember(offsets[|members|], here.size)], members
                     + [here]))
  {
    PackagePasses(unpack, data, layout, expected, content, |members|, state);
    StandsNext(data, layout, expected, offsets, members);
    if |members| < |expected| {
      FirstGrows(layout, expected, offsets, members);
    } else {
      FirstIsAll(layout, expected, offsets, members);
    }
  }

  lemma {:induction false} MemberInside(data: string, p: nat)
    requires Headers(data)(p).Member?
    ensures p < |data|
  {}

  /** What holds between two members. */
  ghost predicate Between(
      unpack: Unpacker, data: string, offsets: seq<nat>, members: seq<Header>, state: nat, text: string,
      layout: seq<nat>, expected: seq<Header>, content: string)
  {
    && Progress(unpack, data, offsets, members, state, text)
    && ReadAlong(unpack, data, layout, expected, content, offsets, members)
  }

  /** The control file known after the member. */
  function Learnt(state: nat, next: nat, text: string, read: string): string {
    if state == 1 && next == 2 then read else text
  }

  /** An archive that is a package file never fails, and ends where it should. */
  lemma {:induction false} AnswerFits(
      unpack: Unpacker, data: string, offsets: seq<nat>, members: seq<Header>, state: nat, text: string,
      layout: seq<nat>, expected: seq<Header>, content: string, member: Header, r: Result<string>, next: nat)
    requires Between(unpack, data, offsets, members, state, text, layout, expected, content)
    requires Answered(unpack, data, offsets[|members|], state, member, r, next)
    requires PackageWith(unpack, data, layout, expected, content)
    ensures !member.Bad? && (member.Member? ==> r.Ok?)
    ensures member.End? ==> state == 3 && members == expected && offsets == layout
    ensures member.Member? ==>
              FirstOf(layout, expected, offsets + [AfterMember(offsets[|members|], member.size)], members + [member])
  {
    AlongPasses(unpack, data, layout, expected, content, offsets, members, state);
  }

  lemma {:induction false} AnswerProgress(
      unpack: Unpacker, data: string, offsets: seq<nat>, members: seq<Header>, state: nat, text: string,
      member: Header, r: Result<string>, next: nat)
    requires Progress(unpack, data, offsets, members, state, text)
    requires Answered(unpack, data, offsets[|members|], state, member, r, next) && member.Member? && r.Ok?
    ensures Progress(unpack, data, offsets + [AfterMember(offsets[|members|], member.size)], members + [member], next,
                     Learnt(state, next, text, r.value))
  {
    ProgressGrows(unpack, data, offsets, members, state, text, member, r.value);
  }

  lemma {:induction false} AnswerGrows(
      unpack: Unpacker, data: string, offsets: seq<nat>, members: seq<Header>, state: nat, text: string,
      layout: seq<nat>, expected: seq<Header>, content: string, member: Header, r: Result<string>, next: nat)
    requires Between(unpack, data, offsets, members, state, text, layout, expected, content)
    requires Answered(unpack, data, offsets[|members|], state, member, r, next) && member.Member? && r.Ok?
    ensures offsets[|members|] < |data|
    ensures Between(unpack, data, offsets + [AfterMember(offsets[|members|], member.size)], members + [member], next,
                    Learnt(state, next, text, r.value), layout, expected, content)
  {
    MemberInside(data, offsets[|members|]);
    AnswerProgress(unpack, data, offsets, members, state, text, member, r, next);
    if PackageWith(unpack, data, layout, expected, content) {
      AnswerFits(unpack, data, offsets, members, state, text, layout, expected, content, member, r, next);
    }
  }

  /** The next member and what is known after it. A package file never fails and ends where it should. */
  method ReadNext(
      reader: ArReader, unpack: Unpacker, appetite: nat, ghost offsets: seq<nat>, ghost members: seq<Header>,
      state: nat, text: string, ghost layout: seq<nat>, ghost expected: seq<Header>, ghost content: string)
    returns (member: Header, r: Result<string>, next: nat)
    requires Between(unpack, reader.source.data, offsets, members, state, text, layout, expected, content)
    requires DueAt(reader, offsets[|members|])
    modifies reader, reader.source
    ensures reader.Valid()
    ensures PackageWith(unpack, reader.source.data, layout, expected, content) ==>
              !member.Bad? && r.Ok? && (member.End? ==> state == 3 && members == expected && offsets == layout)
    ensures member.End? ==>
            HasPrefix(reader.source.data, MAGIC) && Headers(reader.source.data)(offsets[|members|]) == End
    ensures member.End? ==> reader.source.position == |reader.source.data|
    ensures member.Member? && r.Ok? ==>
              var after := offsets + [AfterMember(offsets[|members|], member.size)];
              && DueAt(reader, AfterMember(offsets[|members|], member.size))
                 && offsets[|members|] < |reader.source.data|
              && Between(unpack, reader.source.data, after, members + [member], next, r.value, layout, expected,
                 content)
  {
    member, r, next := ReadMember(reader, unpack, appetite, state, offsets[|members|]);
    ghost var data := reader.source.data;
    if PackageWith(unpack, data, layout, expected, content) {
      AnswerFits(unpack, data, offsets, members, state, text, layout, expected, content, member, r, next);
    }
    if !member.Member? {
      r := Ok(text);
    } else if r.Ok? {
      AnswerGrows(unpack, data, offsets, members, state, text, layout, expected, content, member, r, next);
      r := Ok(Learnt(state, next, text, r.value));
    }
  }

  /** The loop over the members, up to the end of the archive or the first failure. */
  method ReadToEnd(
      reader: ArReader, unpack: Unpacker, appetite: nat -> nat, ghost layout: seq<nat>, ghost expected: seq<Header>,
      ghost content: string)
    returns (r: Result<string>, state: nat, members: seq<Header>, ghost offsets: seq<nat>)
    requires Between(unpack, reader.source.data, [|MAGIC|], [], 0, "", layout, expected, content)
    requires DueAt(reader, |MAGIC|)
    modifies reader, reader.source
    ensures reader.Valid() && |offsets| == |members| + 1
    ensures r.Ok? ==> Progress(unpack, reader.source.data, offsets, members, state, r.value)
    ensures r.Ok? ==> HasPrefix(reader.source.data, MAGIC) && Headers(reader.source.data)(offsets[|members|]) == End
    ensures r.Ok? ==> reader.source.position == |reader.source.data|
    ensures PackageWith(unpack, reader.source.data, layout, expected, content) ==>
              r.Ok? && state == 3 && members == expected && offsets == layout
  {
    var text;
    state, text, members, offsets := 0, "", [], [|MAGIC|];
    while true
      invariant |offsets| == |members| + 1 && DueAt(reader, offsets[|members|])
      invariant Between(unpack, reader.source.data, offsets, members, state, text, layout, expected, content)
      decreases |reader.source.data| - offsets[|members|]
    {
      var member, read, next :=
          ReadNext(reader, unpack, appetite(|members|), offsets, members, state, text, layout, expected, content);
      if member.Bad? {
        return Err(member.reason), state, members, offsets;
      }
      if read.Err? {
        return read, state, members, offsets;
      }
      if member.End? {
        return Ok(text), state, members, offsets;
      }
      offsets, members := offsets + [AfterMember(offsets[|members|], member.size)], members + [member];
      state, text := next, read.value;
    }
  }

  /** Reads all members. It succeeds exactly on the archives that are package files, and returns their members. */
  method ReadArchive(
      source: Source, unpack: Unpacker, appetite: nat -> nat, ghost layout: seq<nat>, ghost expected: seq<Header>,
      ghost content: string)
    returns (r: Result<string>, members: seq<Header>, ghost offsets: seq<nat>)
    requires source.Valid() && source.position == 0
    modifies source
    ensures r.Ok? ==>
              && PackageWith(unpack, source.data, offsets, members, r.value)
              && source.counted == |source.data| && source.hashed == source.data
    ensures PackageWith(unpack, source.data, layout, expected, content) ==>
              r == Ok(content) && members == expected && offsets == layout
  {
    var reader := new ArReader(source);
    NothingRead(unpack, source.data, layout, expected, content);
    var state;
    r, state, members, offsets := ReadToEnd(reader, unpack, appetite, layout, expected, content);
    if r.Err? {
      return;
    }
    if state < 3 {
      return Err("missing member"), members, offsets;
    }
    ReadEverything(unpack, source.data, offsets, members, state, r.value, layout, expected, content);
    EverythingPassed(source);
  }

  lemma {:induction false} EverythingPassed(source: Source)
    requires source.Valid() && source.position == |source.data|
    ensures source.counted == |source.data| && source.hashed == source.data
  {
    assert source.data[..source.position] == source.data;
  }

  lemma {:induction false} NothingRead(
      unpack: Unpacker, data: string, layout: seq<nat>, expected: seq<Header>, content: string)
    ensures Progress(unpack, data, [|MAGIC|], [], 0, "")
    ensures ReadAlong(unpack, data, layout, expected, content, [|MAGIC|], [])
  {}

  lemma {:induction false} ReadEverything(
      unpack: Unpacker, data: string, offsets: seq<nat>, members: seq<Header>, state: nat, text: string,
      layout: seq<nat>, expected: seq<Header>, content: string)
    requires Progress(unpack, data, offsets, members, state, text) && state >= 3
    requires HasPrefix(data, MAGIC) && Headers(data)(offsets[|members|]) == End
    requires PackageWith(unpack, data, layout, expected, content) ==> members == expected && offsets == layout
    ensures PackageWith(unpack, data, offsets, members, text)
    ensures PackageWith(unpack, data, layout, expected, content) ==> text == content
  {
    EndsInLastState(NamesOf(members));
    LaidOutWhenEnded(data, offsets, members);
    if PackageWith(unpack, data, layout, expected, content) {
      OneText(unpack, data, offsets, members, text, content);
    }
  }

  /** `ReadPackage` succeeds exactly on package files with a control file that parses. It returns the metadata without
      its index fields, and the size and digests of the whole input. */
  method ReadPackage(
      source: Source, h: Hasher, unpack: Unpacker, appetite: nat -> nat,
      ghost layout: seq<nat>, ghost expected: seq<Header>, ghost content: string)
    returns (r: Result<PackageInfo>, ghost offsets: seq<nat>, ghost members: seq<Header>, ghost text: string)
    requires source.Valid() && source.position == 0
    modifies source
    ensures r.Ok? ==>
              && PackageWith(unpack, source.data, offsets, members, text) && P.ParsedPackage(text).Ok?
              && r.value == PackageInfo(Inspected(P.ParsedPackage(text).value), HashesOf(h, source.data))
    ensures PackageWith(unpack, source.data, layout, expected, content) && P.ParsedPackage(content).Ok? ==>
            r.Ok? && text == content
  {
    text := "";
    var control, all;
    control, all, offsets := ReadArchive(source, unpack, appetite, layout, expected, content);
    members := all;
    if control.Err? {
      return Err(control.reason), offsets, members, text;
    }
    text := control.value;
    var pack := P.ParsePackage(control.value);
    if pack.Err? {
      return Err(pack.reason), offsets, members, text;
    }
    var hashes := FileHashes(source.counted, h.md5(source.hashed), h.sha1(source.hashed), h.sha256(source.hashed));
    return Ok(PackageInfo(Inspected(pack.value), hashes)), offsets, members, text;
  }

  // ---- packages that are built

  lemma {:induction false} BodyInTail(data: string, p: nat, header: string, body: string, rest: string)
    requires p <= |data| && data[p..] == header + (body + rest) && |header| == HEADER_SIZE
    ensures p + HEADER_SIZE + |body| <= |data| && BodyAt(data, p, |body|) == body
  {
    assert data[p + HEADER_SIZE..p + HEADER_SIZE + |body|] == data[p..][HEADER_SIZE..HEADER_SIZE + |body|] == body;
  }

  lemma {:induction false} BodyReadsBack(files: seq<File>, ignored: string, i: nat)
    requires AllFit(files, ignored) && i < |files|
    ensures var data, p, size := ArchiveOf(files, ignored), Offset(files, i), |files[i].body|;
            p + HEADER_SIZE + size <= |data| && BodyAt(data, p, size) == files[i].body
  {
    var f, rest := files[i], PackedAll(files[i + 1..], ignored);
    var pad := if |f.body| % 2 == 1 then "\n" else "";
    TailAt(files, ignored, i);
    PackedAllStep(files, ignored, i);
    HeaderReadsBack(f, ignored);
    Assoc(HeaderOf(f, ignored), f.body, pad);
    Assoc(HeaderOf(f, ignored), f.body + pad, rest);
    Assoc(f.body, pad, rest);
    BodyInTail(ArchiveOf(files, ignored), Offset(files, i), HeaderOf(f, ignored), f.body, pad + rest);
  }

  function FileNames(files: seq<File>): (names: seq<string>)
    ensures |names| == |files|
    ensures forall i :: 0 <= i < |names| ==> names[i] == files[i].name
  {
    if files == [] then [] else [files[0].name] + FileNames(files[1..])
  }

  lemma {:induction false} NamesOfMembers(files: seq<File>)
    ensures NamesOf(MembersOf(files)) == FileNames(files)
  {
    assert forall i :: 0 <= i < |files| ==> NamesOf(MembersOf(files))[i] == FileNames(files)[i];
  }

  lemma {:induction false} BuiltFormat(files: seq<File>, ignored: string)
    requires AllFit(files, ignored) && files != [] && |files[0].body| <= 32 && SupportedFormat(files[0].body)
    ensures HasFormat(ArchiveOf(files, ignored), OffsetsOf(files, |files|), MembersOf(files))
  {
    BodyReadsBack(files, ignored, 0);
  }

  lemma {:induction false} BuiltControl(files: seq<File>, ignored: string, unpack: Unpacker, c: nat, text: string)
    requires AllFit(files, ignored) && ControlAt(FileNames(files), c)
    requires unpack(files[c].name, files[c].body) == Ok(text)
    ensures HasControl(unpack, ArchiveOf(files, ignored), OffsetsOf(files, |files|), MembersOf(files), text)
  {
    BodyReadsBack(files, ignored, c);
    NamesOfMembers(files);
    assert ControlFrom(unpack, ArchiveOf(files, ignored), OffsetsOf(files, |files|), MembersOf(files), text, c);
  }

  /** An archive built from files in the order of the format is a package file, so it is read successfully. */
  lemma {:induction false} BuiltIsPackage(files: seq<File>, ignored: string, unpack: Unpacker, c: nat, text: string)
    requires AllFit(files, ignored) && Grammar(FileNames(files))
    requires |files[0].body| <= 32 && HasPrefix(TrimSpace(files[0].body), "2.")
    requires ControlAt(FileNames(files), c) && unpack(files[c].name, files[c].body) == Ok(text)
    ensures PackageWith(unpack, ArchiveOf(files, ignored), OffsetsOf(files, |files|), MembersOf(files), text)
  {
    ArchiveLaidOut(files, ignored);
    NamesOfMembers(files);
    SupportedExactly(files[0].body);
    BuiltFormat(files, ignored);
    BuiltControl(files, ignored, unpack, c, text);
  }
}
