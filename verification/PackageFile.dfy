/** Reading a Debian package: the order of its members, the format version, and the limit on what is unpacked. */
module PackageFile {
  import opened Text
  import opened Archive

  // ---- the member grammar

  /** The state after a member, or `None` for a format error. */
  function Advance(state: nat, name: string): Option<nat> {
    if state == 0 then if name == "debian-binary" then Some(1) else None
    else if state == 1 then
      if HasPrefix(name, "_") then Some(1) else if HasPrefix(name, "control.tar") then Some(2) else None
    else if state == 2 then
      if HasPrefix(name, "_") then Some(2) else if HasPrefix(name, "data.tar") then Some(3) else None
    else Some(3)
  }

  function AdvanceAll(state: nat, names: seq<string>): Option<nat>
    decreases |names|
  {
    if names == [] then Some(state)
    else
      var next := Advance(state, names[0]);
      if next.None? then None else AdvanceAll(next.value, names[1..])
  }

  ghost predicate AllIgnorable(names: seq<string>, from: nat, to: nat)
    requires to <= |names|
  {
    forall k :: from <= k < to ==> HasPrefix(names[k], "_")
  }

  /** `debian-binary`, ignorable members, a control archive, ignorable members, a data archive, anything. */
  ghost predicate Grammar(names: seq<string>) {
    exists c, d :: 1 <= c < d < |names| && InPlaces(names, c, d)
  }

  ghost predicate InPlaces(names: seq<string>, c: nat, d: nat)
    requires 1 <= c < d < |names|
  {
    && names[0] == "debian-binary"
    && AllIgnorable(names, 1, c) && HasPrefix(names[c], "control.tar")
    && AllIgnorable(names, c + 1, d) && HasPrefix(names[d], "data.tar")
  }

  lemma {:induction false} AdvanceAllTail(state: nat, names: seq<string>)
    requires names != []
    ensures AdvanceAll(state, names) == if Advance(state, names[0]).None? then None
            else AdvanceAll(Advance(state, names[0]).value, names[1..])
  {}

  lemma {:induction false} LastStateStays(names: seq<string>)
    ensures AdvanceAll(3, names) == Some(3)
  {
    if names != [] {
      LastStateStays(names[1..]);
    }
  }

  /** From a state that waits for an archive: ignorable members, then the archive. */
  ghost predicate Waits(state: nat, names: seq<string>, k: nat) {
    && k < |names| && AllIgnorable(names, 0, k)
    && HasPrefix(names[k], if state == 1 then "control.tar" else "data.tar")
    && AdvanceAll(state + 1, names[k + 1..]) == Some(3)
  }

  lemma {:induction false} NotIgnorable(name: string)
    requires HasPrefix(name, "control.tar") || HasPrefix(name, "data.tar")
    ensures !HasPrefix(name, "_")
  {
    if HasPrefix(name, "control.tar") {
      assert name[..11][0] == 'c';
    } else {
      assert name[..8][0] == 'd';
    }
  }

  lemma {:induction false} WaitsExactly(state: nat, names: seq<string>)
    requires state == 1 || state == 2
    ensures AdvanceAll(state, names) == Some(3) <==> exists k: nat :: Waits(state, names, k)
  {
    if names != [] {
      var rest := names[1..];
      WaitsExactly(state, rest);
      if HasPrefix(names[0], "_") {
        IgnorableFirst(state, names);
      } else {
        ArchiveFirst(state, names);
      }
    }
  }

  lemma {:induction false} IgnorableFirst(state: nat, names: seq<string>)
    requires (state == 1 || state == 2) && names != [] && HasPrefix(names[0], "_")
    ensures (exists k: nat :: Waits(state, names, k)) <==> exists k: nat :: Waits(state, names[1..], k)
  {
    var rest := names[1..];
    if k: nat :| Waits(state, names, k) {
      if k == 0 {
        NotIgnorable(names[0]);
      } else {
        assert names[k + 1..] == rest[k..] && rest[k - 1] == names[k];
        assert Waits(state, rest, k - 1);
      }
    }
    if k: nat :| Waits(state, rest, k) {
      assert names[k + 2..] == rest[k + 1..] && rest[k] == names[k + 1];
      assert forall j :: 1 <= j < k + 1 ==> names[j] == rest[j - 1];
      assert Waits(state, names, k + 1);
    }
  }

  lemma {:induction false} ArchiveFirst(state: nat, names: seq<string>)
    requires (state == 1 || state == 2) && names != [] && !HasPrefix(names[0], "_")
    ensures (exists k: nat :: Waits(state, names, k)) <==> AdvanceAll(state, names) == Some(3)
  {
    AdvanceAllTail(state, names);
    if k: nat :| Waits(state, names, k) {
      assert k == 0;
    }
    if AdvanceAll(state, names) == Some(3) {
      assert Waits(state, names, 0);
    }
  }

  /** The reader accepts a list of member names exactly when it follows the grammar. */
  lemma {:induction false} AcceptsGrammar(names: seq<string>)
    ensures AdvanceAll(0, names) == Some(3) <==> Grammar(names)
  {
    if names != [] && names[0] == "debian-binary" {
      WaitsExactly(1, names[1..]);
      if AdvanceAll(0, names) == Some(3) {
        AcceptedFollows(names);
      }
      if Grammar(names) {
        FollowsAccepted(names);
      }
    }
  }

  lemma {:induction false} PlacesFound(names: seq<string>, k: nat, m: nat)
    requires names != [] && names[0] == "debian-binary" && k + 1 < |names| && k + 2 + m < |names|
    requires AllIgnorable(names[1..], 0, k) && HasPrefix(names[1..][k], "control.tar")
    requires AllIgnorable(names[k + 2..], 0, m) && HasPrefix(names[k + 2..][m], "data.tar")
    ensures InPlaces(names, k + 1, k + 2 + m)
  {
    forall j | 1 <= j < k + 1 ensures HasPrefix(names[j], "_") {
      assert names[j] == names[1..][j - 1];
    }
    forall j | k + 2 <= j < k + 2 + m ensures HasPrefix(names[j], "_") {
      assert names[j] == names[k + 2..][j - k - 2];
    }
  }

  lemma {:induction false} AcceptedFollows(names: seq<string>)
    requires names != [] && names[0] == "debian-binary" && AdvanceAll(0, names) == Some(3)
    ensures Grammar(names)
  {
    WaitsExactly(1, names[1..]);
    var k: nat :| Waits(1, names[1..], k);
    assert names[1..][k + 1..] == names[k + 2..];
    WaitsExactly(2, names[k + 2..]);
    var m: nat :| Waits(2, names[k + 2..], m);
    PlacesFound(names, k, m);
  }

  lemma {:induction false} FollowsAccepted(names: seq<string>)
    requires Grammar(names)
    ensures AdvanceAll(0, names) == Some(3)
  {
    var c, d :| 1 <= c < d < |names| && InPlaces(names, c, d);
    var rest := names[1..];
    var tail := rest[c..];
    var m := d - c - 1;
    assert tail[m] == names[d] && forall j :: 0 <= j < m ==> tail[j] == names[c + 1 + j];
    LastStateStays(tail[m + 1..]);
    assert Waits(2, tail, m);
    WaitsExactly(2, tail);
    assert rest[c - 1] == names[c] && forall j :: 0 <= j < c - 1 ==> rest[j] == names[j + 1];
    assert Waits(1, rest, c - 1);
    WaitsExactly(1, rest);
  }

  lemma {:induction false} AdvanceAllSnoc(state: nat, names: seq<string>, name: string)
    ensures AdvanceAll(state, names + [name])
            == if AdvanceAll(state, names).None? then None else Advance(AdvanceAll(state, names).value, name)
    decreases |names|
  {
    if names == [] {
      AppendEmpty([name]);
      assert [name][1..] == [];
    } else {
      assert (names + [name])[0] == names[0] && (names + [name])[1..] == names[1..] + [name];
      if Advance(state, names[0]).Some? {
        AdvanceAllSnoc(Advance(state, names[0]).value, names[1..], name);
      }
    }
  }

  // ---- the format version

  function DotAt(s: string): (k: nat)
    ensures k <= |s|
  {
    if s == "" || s[0] == '.' then 0 else 1 + DotAt(s[1..])
  }

  /** Major version two, followed by a dot. */
  predicate SupportedFormat(text: string) {
    var version := TrimSpace(text);
    DotAt(version) < |version| && version[..DotAt(version)] == "2"
  }

  lemma {:induction false} DotAtFirst(s: string, k: nat)
    requires k < |s| && s[k] == '.' && forall i :: 0 <= i < k ==> s[i] != '.'
    ensures DotAt(s) == k
  {
    if k > 0 {
      DotAtFirst(s[1..], k - 1);
    }
  }

  /** Exactly what starts with `2.` is supported, white space around it apart. */
  lemma {:induction false} SupportedExactly(text: string)
    ensures SupportedFormat(text) <==> HasPrefix(TrimSpace(text), "2.")
  {
    var version := TrimSpace(text);
    if HasPrefix(version, "2.") {
      assert version[0] == '2' && version[1] == '.';
      DotAtFirst(version, 1);
    }
    if SupportedFormat(text) {
      DotIsDot(version);
      assert version[..1] == "2" && version[1] == '.';
      assert version[..2] == version[..1] + [version[1]];
    }
  }

  lemma {:induction false} DotIsDot(s: string)
    ensures DotAt(s) < |s| ==> s[DotAt(s)] == '.'
  {
    if s != "" && s[0] != '.' {
      DotIsDot(s[1..]);
    }
  }

  /** `io.ReadAll` on the current body: all of it, or a failure when the input ends before. */
  method ReadWhole(reader: ArReader) returns (body: string, ok: bool)
    requires reader.Valid() && reader.started
    modifies reader`remaining, reader.source
    ensures reader.Valid() && reader.Due() == old(reader.Due())
    ensures ok == (old(reader.source.position) + old(reader.remaining) <= |reader.source.data|)
    ensures ok ==>
            body == reader.source.data[old(reader.source.position)..old(reader.source.position) + old(reader.remaining)]
  {
    body := "";
    ghost var start, size := reader.source.position, reader.remaining;
    while reader.remaining > 0
      invariant reader.Valid() && reader.Due() == old(reader.Due()) && start <= reader.source.position
      invariant reader.source.position + reader.remaining == start + size
      invariant body == reader.source.data[start..reader.source.position]
      decreases reader.remaining
    {
      ghost var before := reader.source.position;
      var chunk, early := reader.ReadBody(512);
      if early {
        return body, false;
      }
      assert reader.source.data[start..before] + reader.source.data[before..reader.source.position]
             == reader.source.data[start..reader.source.position];
      body := body + chunk;
    }
    ok := true;
  }

  method ValidateDebianBinary(reader: ArReader, size: nat) returns (ok: bool)
    requires reader.Valid() && reader.started && reader.remaining == size
    modifies reader`remaining, reader.source
    ensures reader.Valid() && reader.Due() == old(reader.Due())
    ensures var p := old(reader.source.position);
            ok == (size <= 32 && p + size <= |reader.source.data| && SupportedFormat(reader.source.data[p..p + size]))
  {
    if size > 32 {
      return false;
    }
    var value, whole := ReadWhole(reader);
    return whole && SupportedFormat(value);
  }

  // ---- limits

  /** A reader that fails once more than `limit` bytes come out of its source. */
  class LimitedReader {
    const source: Source
    const limit: nat
    var remaining: nat

    constructor (source: Source, limit: nat)
      ensures this.source == source && this.limit == limit && remaining == limit
    {
      this.source, this.limit, remaining := source, limit, limit;
    }

    method Read(size: nat) returns (chunk: string, tooLarge: bool)
      requires source.Valid() && size > 0
      modifies this`remaining, source
      ensures source.Valid() && |chunk| <= old(remaining) && remaining == old(remaining) - |chunk|
      ensures tooLarge == (old(remaining) == 0 && old(source.position) < |source.data|)
      ensures !tooLarge ==>
              source.position == old(source.position) + |chunk|
              && chunk == source.data[old(source.position)..source.position]
      ensures !tooLarge && old(source.position) < |source.data| ==> |chunk| > 0
    {
      if remaining == 0 {
        var probe := source.Read(1);
        if |probe| > 0 {
          return "", true;
        }
        return "", false;
      }
      chunk := source.Read(if size > remaining then remaining else size);
      remaining := remaining - |chunk|;
      tooLarge := false;
    }
  }

  /** A stream is read to its end exactly when it is within the limit; one byte more is an error. */
  method ReadLimited(source: Source, limit: nat) returns (content: string, ok: bool)
    requires source.Valid()
    modifies source
    ensures ok == (|source.data| - old(source.position) <= limit)
    ensures ok ==> content == source.data[old(source.position)..]
  {
    var limited := new LimitedReader(source, limit);
    ghost var start := source.position;
    content := "";
    while source.position < |source.data|
      invariant fresh(limited) && limited.source == source && source.Valid() && start <= source.position
      invariant content == source.data[start..source.position] && limited.remaining + |content| == limit
      decreases |source.data| - source.position
    {
      ghost var before := source.position;
      var chunk, tooLarge := limited.Read(512);
      if tooLarge {
        return content, false;
      }
      assert source.data[start..before] + source.data[before..source.position] == source.data[start..source.position];
      content := content + chunk;
    }
    assert source.data[start..source.position] == source.data[start..];
    return content, true;
  }

  // ---- prefixes of member lists

  lemma {:induction false} StateBounded(state: nat, names: seq<string>)
    requires state <= 3
    ensures AdvanceAll(state, names).Some? ==> AdvanceAll(state, names).value <= 3
    decreases |names|
  {
    if names != [] && Advance(state, names[0]).Some? {
      StateBounded(Advance(state, names[0]).value, names[1..]);
    }
  }

  lemma {:induction false} AdvanceAllSplit(state: nat, a: seq<string>, b: seq<string>)
    ensures AdvanceAll(state, a + b)
            == if AdvanceAll(state, a).None? then None else AdvanceAll(AdvanceAll(state, a).value, b)
    decreases |a|
  {
    if a == [] {
      AppendEmpty(b);
    } else {
      assert (a + b)[0] == a[0] && (a + b)[1..] == a[1..] + b;
      if Advance(state, a[0]).Some? {
        AdvanceAllSplit(Advance(state, a[0]).value, a[1..], b);
      }
    }
  }

  lemma {:induction false} EndsInLastState(names: seq<string>)
    requires AdvanceAll(0, names).Some? && AdvanceAll(0, names).value >= 3
    ensures Grammar(names)
  {
    StateBounded(0, names);
    AcceptsGrammar(names);
  }

  /** Where an accepted list goes on, the next member is accepted too. */
  lemma {:induction false} AcceptedPrefix(names: seq<string>, k: nat)
    requires Grammar(names) && k < |names|
    ensures AdvanceAll(0, names[..k]).Some? && Advance(AdvanceAll(0, names[..k]).value, names[k]).Some?
  {
    FollowsAccepted(names);
    assert names == names[..k] + names[k..];
    AdvanceAllSplit(0, names[..k], names[k..]);
    AdvanceAllTail(AdvanceAll(0, names[..k]).value, names[k..]);
  }

  lemma {:induction false} StatesGrow(state: nat, names: seq<string>)
    requires state <= 3 && AdvanceAll(state, names).Some?
    ensures state <= AdvanceAll(state, names).value <= 3
    decreases |names|
  {
    if names != [] {
      StatesGrow(Advance(state, names[0]).value, names[1..]);
    }
  }

  lemma {:induction false} StillWaiting(names: seq<string>)
    requires AdvanceAll(1, names) == Some(1)
    ensures AllIgnorable(names, 0, |names|)
  {
    if names != [] {
      StatesGrow(Advance(1, names[0]).value, names[1..]);
      StillWaiting(names[1..]);
      forall k | 0 <= k < |names| ensures HasPrefix(names[k], "_") {
        if k > 0 {
          assert names[k] == names[1..][k - 1];
        }
      }
    }
  }

  /** The state says how far a list has come: nothing read, or no archive yet. */
  lemma {:induction false} StateTells(names: seq<string>)
    ensures AdvanceAll(0, names) == Some(0) ==> names == []
    ensures AdvanceAll(0, names) == Some(1) ==>
              names != [] && names[0] == "debian-binary" && AllIgnorable(names, 1, |names|)
  {
    if names != [] && names[0] == "debian-binary" && AdvanceAll(1, names[1..]).Some? {
      StatesGrow(1, names[1..]);
      if AdvanceAll(1, names[1..]) == Some(1) {
        StillWaiting(names[1..]);
        forall k | 1 <= k < |names| ensures HasPrefix(names[k], "_") {
          assert names[k] == names[1..][k - 1];
        }
      }
    }
  }

  /** The first member that is not ignorable is the control archive. */
  ghost predicate ControlAt(names: seq<string>, c: nat) {
    1 <= c < |names| && AllIgnorable(names, 1, c) && HasPrefix(names[c], "control.tar")
  }

  lemma {:induction false} ControlNext(names: seq<string>, k: nat)
    requires k < |names| && AdvanceAll(0, names[..k]) == Some(1) && Advance(1, names[k]) == Some(2)
    ensures ControlAt(names, k)
  {
    StateTells(names[..k]);
    assert forall j :: 1 <= j < k ==> names[j] == names[..k][j];
  }

  lemma {:induction false} OneControl(names: seq<string>, b: nat, c: nat)
    requires ControlAt(names, b) && ControlAt(names, c)
    ensures b == c
  {
    NotIgnorable(names[b]);
    NotIgnorable(names[c]);
  }
}
