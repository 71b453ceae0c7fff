/** Object keys under a configured prefix, and the in-memory store as a refinement of a plain map. */
module Storage {
  import opened Text
  import opened Order
  import opened Paths

  // ---- keys

  /** `strings.Trim(p, "/")`. */
  function TrimSlashes(p: string): string {
    TrimSlashesLeft(TrimSlashesRight(p))
  }

  predicate Escapes(cleaned: string) {
    cleaned == ".." || HasPrefix(cleaned, "../")
  }

  const BACKSLASH := "contains a backslash"
  const ESCAPES := "escapes the repository prefix"
  const EMPTY_KEY := "object key cannot be empty"

  function NormalizePrefix(prefix: string): Result<string> {
    var p := TrimSlashes(prefix);
    if p == "" then Ok("")
    else if '\\' in p then Err(BACKSLASH)
    else if Escapes(Clean(p)) then Err(ESCAPES)
    else Ok(Clean(p))
  }

  /** `strings.TrimPrefix(key, "/")`. */
  function TrimOneSlash(key: string): string {
    if HasPrefix(key, "/") then key[1..] else key
  }

  function JoinKey(prefix: string, key: string): Result<string> {
    var p, k := NormalizePrefix(prefix), TrimOneSlash(key);
    if p.Err? then p
    else if k == "" || k == "." then Err(EMPTY_KEY)
    else if '\\' in k then Err(BACKSLASH)
    else if Escapes(Clean(k)) then Err(ESCAPES)
    else if p.value == "" then Ok(Clean(k))
    else Ok(JoinPath(p.value, Clean(k)))
  }

  function LogicalKey(prefix: string, physical: string): Option<string> {
    var p := TrimSlashes(prefix);
    if p == "" then Some(physical)
    else if !HasPrefix(physical, p + "/") then None
    else Some(physical[|p| + 1..])
  }

  /** A clean key below a normalised prefix. */
  function Under(prefix: string, key: string): string {
    if prefix == "" then key else prefix + "/" + key
  }

  /** A prefix as `normalizePrefix` leaves it: empty or a clean key without a backslash. */
  ghost predicate GoodPrefix(prefix: string) {
    prefix == "" || (CleanKey(prefix) && '\\' !in prefix)
  }

  /** The prefix a store keeps. */
  type Prefix = s: string | GoodPrefix(s)

  lemma {:induction false} GoodPrefixFixed(prefix: string)
    requires GoodPrefix(prefix)
    ensures TrimSlashes(prefix) == prefix && NormalizePrefix(prefix) == Ok(prefix)
  {
    if prefix != "" {
      CleanKeyStart(prefix);
      CleanKeyEnd(prefix);
      CleanFixed(prefix);
      CleanKeyInside(prefix);
    }
  }

  lemma {:induction false} CleanKeyInside(p: string)
    requires CleanKey(p)
    ensures !Escapes(p) && p != "."
  {
    var parts := Split(p, '/');
    JoinSplit(p, '/');
    assert CleanSegment(parts[0]);
    if p == ".." || p == "." {
      SplitOne(p, '/');
    } else if HasPrefix(p, "../") {
      assert p == ".." + ['/'] + p[3..];
      SplitCons("..", '/', p[3..]);
    }
  }

  lemma {:induction false} UnderIsJoin(prefix: string, key: string)
    requires GoodPrefix(prefix) && CleanKey(key)
    ensures CleanKey(Under(prefix, key))
    ensures prefix != "" ==> JoinPath(prefix, key) == Under(prefix, key)
  {
    if prefix != "" {
      CleanKeyStart(prefix);
      CleanKeyStart(key);
      CleanKeyAppend(prefix, key);
      CleanFixed(prefix + "/" + key);
    }
  }

  /** On clean keys `JoinKey` puts the key below the prefix and `logicalKey` takes it back. */
  lemma {:induction false} LogicalUndoesJoin(prefix: string, key: string)
    requires GoodPrefix(prefix) && CleanKey(key) && '\\' !in key
    ensures JoinKey(prefix, key) == Ok(Under(prefix, key))
    ensures LogicalKey(prefix, Under(prefix, key)) == Some(key)
  {
    GoodPrefixFixed(prefix);
    CleanKeyStart(key);
    CleanKeyInside(key);
    CleanFixed(key);
    UnderIsJoin(prefix, key);
    LogicalOfUnder(prefix, key);
  }

  lemma {:induction false} LogicalOfUnder(prefix: string, key: string)
    requires GoodPrefix(prefix)
    ensures LogicalKey(prefix, Under(prefix, key)) == Some(key)
  {
    GoodPrefixFixed(prefix);
    if prefix != "" {
      assert (prefix + "/" + key)[..|prefix| + 1] == prefix + "/";
      assert (prefix + "/" + key)[|prefix| + 1..] == key;
    }
  }

  /** No two clean keys share an object. */
  lemma {:induction false} JoinKeyInjective(prefix: string, a: string, b: string)
    requires GoodPrefix(prefix) && CleanKey(a) && CleanKey(b) && '\\' !in a && '\\' !in b
    requires JoinKey(prefix, a) == JoinKey(prefix, b)
    ensures a == b
  {
    LogicalUndoesJoin(prefix, a);
    LogicalUndoesJoin(prefix, b);
  }

  /** What a key asks for below the prefix: its cleaned form without a leading slash, empty for the prefix itself. */
  function Relative(key: string): string {
    var k := TrimOneSlash(key);
    if Rooted(k) then Clean(k)[1..] else if Clean(k) == "." then "" else Clean(k)
  }

  /** Every accepted key names the object of what it asks for, or the prefix itself when it asks for nothing. */
  lemma {:induction false} JoinKeyCleans(prefix: string, key: string)
    requires GoodPrefix(prefix) && JoinKey(prefix, key).Ok?
    ensures Relative(key) == "" || CleanKey(Relative(key))
    ensures prefix != "" ==>
            JoinKey(prefix, key) == Ok(if Relative(key) == "" then prefix else Under(prefix, Relative(key)))
    ensures prefix == "" ==> JoinKey(prefix, key) == Ok(Clean(TrimOneSlash(key)))
  {
    var k := TrimOneSlash(key);
    GoodPrefixFixed(prefix);
    if Rooted(k) {
      RootedKey(k);
      if prefix != "" {
        RootedJoin(prefix, Relative(key));
      }
    } else if Clean(k) != "." {
      CleanGivesCleanKey(k);
      UnderIsJoin(prefix, Clean(k));
    } else if prefix != "" {
      DotJoin(prefix);
    }
  }

  lemma {:induction false} PushRooted(stack: seq<string>, segments: seq<string>)
    requires NoDots(stack)
    ensures NoDots(PushAll(stack, segments, true))
    decreases |segments|
  {
    if segments != [] {
      PushRooted(PushSegment(stack, segments[0], true), segments[1..]);
    }
  }

  /** A rooted path cleans to a slash and a clean key, or to the slash alone. */
  lemma {:induction false} RootedKey(k: string)
    requires Rooted(k)
    ensures Clean(k) == "/" + Clean(k)[1..] && (Clean(k)[1..] == "" || CleanKey(Clean(k)[1..]))
  {
    var stack := CleanStack(k);
    var joined := Join(stack, "/");
    assert Clean(k) == "/" + joined && ("/" + joined)[1..] == joined;
    if stack != [] {
      CleanStackGood(k);
      CleanStackIsSplit(k);
      PushRooted([], Split(k, '/'));
      forall i | 0 <= i < |stack| ensures CleanSegment(stack[i]) {}
    }
  }

  lemma {:induction false} PushAllAppend(stack: seq<string>, a: seq<string>, b: seq<string>, rooted: bool)
    ensures PushAll(stack, a + b, rooted) == PushAll(PushAll(stack, a, rooted), b, rooted)
    decreases |a|
  {
    if a == [] {
      AppendEmpty(b);
    } else {
      assert (a + b)[0] == a[0] && (a + b)[1..] == a[1..] + b;
      PushAllAppend(PushSegment(stack, a[0], rooted), a[1..], b, rooted);
    }
  }

  lemma {:induction false} StartsUnrooted(prefix: string, rest: string)
    requires CleanKey(prefix)
    ensures !Rooted(prefix + rest)
  {
    CleanKeyStart(prefix);
    assert (prefix + rest)[0] == prefix[0];
  }

  lemma {:induction false} PushPrefix(prefix: string, segments: seq<string>)
    requires CleanKey(prefix)
    ensures PushAll([], Split(prefix, '/') + segments, false) == PushAll(Split(prefix, '/'), segments, false)
  {
    PushAllAppend([], Split(prefix, '/'), segments, false);
    PushClean([], Split(prefix, '/'), false);
    AppendEmpty(Split(prefix, '/'));
  }

  lemma {:induction false} DoubleSlash(prefix: string, key: string)
    requires CleanKey(prefix)
    ensures CleanStack(prefix + "/" + ("/" + key)) == PushAll(Split(prefix, '/'), Split(key, '/'), false)
  {
    StartsUnrooted(prefix, "/" + ("/" + key));
    assert prefix + ("/" + ("/" + key)) == prefix + "/" + ("/" + key);
    SplitConcat(prefix, "/" + key, '/');
    assert prefix + ['/'] + ("/" + key) == prefix + "/" + ("/" + key);
    SplitCons("", '/', key);
    assert "" + ['/'] + key == "/" + key;
    PushPrefix(prefix, [""] + Split(key, '/'));
    assert ([""] + Split(key, '/'))[1..] == Split(key, '/');
  }

  lemma {:induction false} SingleSlash(prefix: string, key: string)
    requires CleanKey(prefix) && CleanKey(key)
    ensures CleanStack(prefix + "/" + key) == PushAll(Split(prefix, '/'), Split(key, '/'), false)
  {
    StartsUnrooted(prefix, "/" + key);
    assert prefix + ("/" + key) == prefix + "/" + key;
    CleanKeyAppend(prefix, key);
    PushPrefix(prefix, Split(key, '/'));
  }

  lemma {:induction false} SameStackSameClean(p: string, q: string)
    requires p != "" && q != "" && !Rooted(p) && !Rooted(q) && CleanStack(p) == CleanStack(q)
    ensures Clean(p) == Clean(q)
  {}

  lemma {:induction false} RootedJoin(prefix: string, key: string)
    requires CleanKey(prefix) && (key == "" || CleanKey(key))
    ensures JoinPath(prefix, "/" + key) == if key == "" then prefix else Under(prefix, key)
  {
    var p := prefix + "/" + ("/" + key);
    CleanKeyStart(prefix);
    assert p[0] == prefix[0];
    DoubleSlash(prefix, key);
    if key == "" {
      assert [""][1..] == [];
      assert PushAll(Split(prefix, '/'), [""], false) == Split(prefix, '/');
      PushClean([], Split(prefix, '/'), false);
      SameStackSameClean(p, prefix);
      CleanFixed(prefix);
    } else {
      SingleSlash(prefix, key);
      assert (prefix + "/" + key)[0] == prefix[0];
      SameStackSameClean(p, prefix + "/" + key);
      CleanKeyAppend(prefix, key);
      CleanFixed(prefix + "/" + key);
    }
  }

  lemma {:induction false} DotJoin(prefix: string)
    requires CleanKey(prefix)
    ensures JoinPath(prefix, ".") == prefix
  {
    CleanKeyStart(prefix);
    CleanFixed(prefix);
    SplitConcat(prefix, ".", '/');
    SplitOne(".", '/');
    PushDot([], Split(prefix, '/'));
    assert (prefix + "/" + ".")[0] == prefix[0];
    assert prefix + ['/'] + "." == prefix + "/" + ".";
  }

  lemma {:induction false} PushDot(stack: seq<string>, segments: seq<string>)
    ensures PushAll(stack, segments + ["."], false) == PushAll(stack, segments, false)
    decreases |segments|
  {
    if segments == [] {
      AppendEmpty(["."]);
      assert PushAll(stack, ["."], false) == PushAll(stack, [], false);
    } else {
      assert (segments + ["."])[1..] == segments[1..] + ["."];
      PushDot(PushSegment(stack, segments[0], false), segments[1..]);
    }
  }

  /** An accepted key stays below the prefix exactly when it asks for something there. */
  lemma {:induction false} JoinKeyStaysInside(prefix: string, key: string)
    requires GoodPrefix(prefix) && prefix != "" && JoinKey(prefix, key).Ok?
    ensures HasPrefix(JoinKey(prefix, key).value, prefix + "/") <==> Relative(key) != ""
  {
    JoinKeyCleans(prefix, key);
    if Relative(key) != "" {
      assert Under(prefix, Relative(key))[..|prefix| + 1] == prefix + "/";
    }
  }

  /** Which keys are accepted does not depend on the prefix. */
  lemma {:induction false} AcceptedAnywhere(prefix: Prefix, key: string)
    ensures JoinKey(prefix, key).Ok? <==> JoinKey("", key).Ok?
  {
    GoodPrefixFixed(prefix);
    GoodPrefixFixed("");
  }

  /** The logical key of what an accepted key names. */
  lemma {:induction false} LogicalOfJoin(prefix: Prefix, key: string)
    requires JoinKey(prefix, key).Ok?
    ensures LogicalKey(prefix, JoinKey(prefix, key).value)
            == if prefix == "" then Some(Clean(TrimOneSlash(key)))
               else if Relative(key) == "" then None else Some(Relative(key))
  {
    JoinKeyCleans(prefix, key);
    if prefix != "" && Relative(key) == "" {
      GoodPrefixFixed(prefix);
    } else {
      LogicalOfUnder(prefix, if prefix == "" then Clean(TrimOneSlash(key)) else Relative(key));
    }
  }

  /** The same, compared with what it names on a store without a prefix. */
  lemma {:induction false} LogicalCases(prefix: Prefix, key: string)
    requires JoinKey("", key).Ok?
    ensures JoinKey(prefix, key).Ok?
    ensures var logical := LogicalKey(prefix, JoinKey(prefix, key).value);
            && (prefix == "" ==> logical == Some(JoinKey("", key).value))
            && (prefix != "" ==> logical == if Relative(key) == "" then None else Some(Relative(key)))
    ensures Relative(key) != "" && !Rooted(TrimOneSlash(key)) ==> Relative(key) == JoinKey("", key).value
  {
    AcceptedAnywhere(prefix, key);
    LogicalOfJoin(prefix, key);
    JoinKeyCleans("", key);
  }

  lemma {:induction false} DotIsNotClean()
    ensures !CleanKey(".") && Clean(".") == "."
  {
    SplitOne(".", '/');
    assert Split(".", '/')[0] == "." && Split(".", '/')[1..] == [];
  }

  /** A key is refused exactly when it asks for nothing, holds a backslash, or climbs out of the store. */
  lemma {:induction false} RefusedExactly(prefix: Prefix, key: string)
    ensures var asked := if key != "" && key[0] == '/' then key[1..] else key;
            JoinKey(prefix, key).Err? <==> asked == "" || asked == "." || '\\' in asked || ClimbsOut(asked)
  {
    GoodPrefixFixed(prefix);
    CleanClimbs(TrimOneSlash(key));
  }

  /** `normalizePrefix` leaves such a prefix, or a dot. */
  lemma {:induction false} NormalizedIsGood(prefix: string)
    requires NormalizePrefix(prefix).Ok?
    ensures GoodPrefix(NormalizePrefix(prefix).value) <==> NormalizePrefix(prefix).value != "."
  {
    var p := TrimSlashes(prefix);
    if p != "" {
      CleanFree(p, '\\');
      if Clean(p) != "." {
        CleanGivesCleanKey(p);
      } else {
        DotIsNotClean();
      }
    }
  }

  lemma {:induction false} CleanBelowDot(key: string)
    requires CleanKey(key)
    ensures Clean("./" + key) == key
  {
    SplitCons(".", '/', key);
    assert "." + ['/'] + key == "./" + key;
    assert (["."] + Split(key, '/'))[1..] == Split(key, '/');
    CleanFixed(key);
    CleanKeyStart(key);
  }

  /** With a dot for a prefix every clean key is stored as it is, and taken for a key of another store: nothing is
      ever listed. */
  lemma {:induction false} DotPrefixListsNothing(key: string)
    requires CleanKey(key) && '\\' !in key
    ensures JoinKey(".", key) == Ok(key) && LogicalKey(".", key) == None
  {
    CleanBelowDot(key);
    CleanKeyStart(key);
    CleanKeyInside(key);
    CleanFixed(key);
    DotIsNotClean();
    assert TrimSlashes(".") == "." && "." + "/" + key == "./" + key;
    assert JoinKey(".", key) == Ok(key);
    if HasPrefix(key, "./") {
      assert key == "." + ['/'] + key[2..];
      SplitCons(".", '/', key[2..]);
    }
  }

  /** A key that asks for something names, on a store with a prefix, the object that it names without one, exactly
      when it has no second leading slash. */
  lemma {:induction false} PrefixHidesSlash(prefix: Prefix, key: string)
    requires JoinKey(prefix, key).Ok? && Relative(key) != ""
    ensures JoinKey("", key).Ok?
    ensures LogicalKey(prefix, JoinKey(prefix, key).value) == Some(JoinKey("", key).value)
            <==> prefix == "" || !Rooted(TrimOneSlash(key))
  {
    var k := TrimOneSlash(key);
    AcceptedAnywhere(prefix, key);
    LogicalOfJoin(prefix, key);
    JoinKeyCleans("", key);
    if Rooted(k) {
      RootedKey(k);
    }
  }

  lemma {:induction false} SlashedIsClean(key: string)
    requires CleanKey(key)
    ensures Clean("/" + key) == "/" + key
  {
    SplitConcat("", key, '/');
    SplitOne("", '/');
    assert "" + ['/'] + key == "/" + key;
    assert ([""] + Split(key, '/'))[1..] == Split(key, '/');
    PushClean([], Split(key, '/'), true);
    AppendEmpty(Split(key, '/'));
    JoinSplit(key, '/');
  }

  /** With two leading slashes a key asks for the same object below a prefix, and for none that a listing shows
      without one. */
  lemma {:induction false} TwoSlashes(key: string)
    requires CleanKey(key) && '\\' !in key
    ensures JoinKey("", "//" + key) == Ok("/" + key)
    ensures Rooted(TrimOneSlash("//" + key)) && Relative("//" + key) == key
  {
    var k := TrimOneSlash("//" + key);
    assert k == "/" + key;
    SlashedIsClean(key);
    assert ("/" + key)[1..] == key && ("/" + key)[0] == '/';
    GoodPrefixFixed("");
  }

  lemma {:induction false} DotDotCleans()
    ensures Clean("a/..") == "."
  {
    SplitOne("..", '/');
    SplitCons("a", '/', "..");
    assert "a" + ['/'] + ".." == "a/..";
    assert ["a"] + [".."] == ["a", ".."];
    assert ["a", ".."][1..] == [".."] && [".."][1..] == [];
    assert PushSegment(["a"], "..", false) == [];
    assert PushAll(["a"], [".."], false) == [];
  }

  lemma {:induction false} JoinKeySteps(prefix: string, key: string)
    requires GoodPrefix(prefix) && prefix != "" && key != "" && key != "." && '\\' !in key
    requires TrimOneSlash(key) == key && !Escapes(Clean(key))
    ensures JoinKey(prefix, key) == Ok(JoinPath(prefix, Clean(key)))
  {
    GoodPrefixFixed(prefix);
  }

  lemma {:induction false} PrefixIsNoKey(prefix: string)
    requires GoodPrefix(prefix) && prefix != ""
    ensures LogicalKey(prefix, prefix) == None
  {
    GoodPrefixFixed(prefix);
  }

  /** The key `a/..` names the prefix itself, an object outside the repository. */
  lemma {:induction false} DotDotKeyLeavesPrefix(prefix: string)
    requires GoodPrefix(prefix) && prefix != ""
    ensures JoinKey(prefix, "a/..") == Ok(prefix) && LogicalKey(prefix, prefix) == None
  {
    var key := "a/..";
    DotDotCleans();
    assert TrimOneSlash(key) == key && '\\' !in key;
    JoinKeySteps(prefix, key);
    DotJoin(prefix);
    PrefixIsNoKey(prefix);
  }

  // ---- the in-memory store

  const NOT_FOUND := "object not found"
  const CONFLICT := "object conflicts"

  datatype Blob = Blob(data: string, md5: string)

  datatype PutOptions = PutOptions(createOnly: bool, failIfExists: bool)

  function TrimQuotesLeft(s: string): string {
    if s != "" && s[0] == '"' then TrimQuotesLeft(s[1..]) else s
  }

  function TrimQuotesRight(s: string): string {
    if s != "" && s[|s| - 1] == '"' then TrimQuotesRight(s[..|s| - 1]) else s
  }

  /** `trimETag`: an ETag without the blanks and quotes around it. */
  function TrimETag(etag: string): string {
    TrimQuotesRight(TrimQuotesLeft(TrimSpace(etag)))
  }

  lemma {:induction false} QuotesOff(etag: string)
    requires etag != "" && etag[0] != '"' && etag[|etag| - 1] != '"'
    ensures TrimQuotesRight(TrimQuotesLeft(['"'] + etag + ['"'])) == etag
  {
    var half := etag + ['"'];
    assert (['"'] + etag + ['"'])[1..] == half && half[0] == etag[0];
    assert half[..|half| - 1] == etag && half[|half| - 1] == '"';
  }

  /** An ETag means the same with and without the quotes around it. */
  lemma {:induction false} ETagQuoted(etag: string)
    requires etag != "" && Trimmed(etag) && etag[0] != '"' && etag[|etag| - 1] != '"'
    ensures TrimETag(etag) == etag && TrimETag(['"'] + etag + ['"']) == etag
  {
    TrimmedIsFixed(etag);
    TrimmedIsFixed(['"'] + etag + ['"']);
    QuotesOff(etag);
  }

  /** The digest under which an object is stored decides whether a write is skipped or refused. */
  function PutOutcome(
      objects: map<string, Blob>, physical: string, blob: Blob, options: PutOptions): Result<map<string, Blob>> {
    if physical in objects && objects[physical].md5 == blob.md5 then Ok(objects)
    else if physical in objects && (options.failIfExists || options.createOnly) then Err(CONFLICT)
    else Ok(objects[physical := blob])
  }

  /** The physical prefix that `List` filters by. */
  function ListPrefix(prefix: string, keyPrefix: string): Result<string> {
    var base, joined := NormalizePrefix(prefix), JoinKey(prefix, keyPrefix);
    if base.Err? || keyPrefix == "" then base
    else if joined.Err? then joined
    else Ok(joined.value + (if HasSuffix(keyPrefix, "/") then "/" else ""))
  }

  /** `List` filters the objects by a physical prefix and reports logical keys. */
  function Listed(objects: map<string, Blob>, prefix: string, physicalPrefix: string): set<string> {
    Selected(objects.Keys, prefix, physicalPrefix)
  }

  function Selected(keys: set<string>, prefix: string, physicalPrefix: string): set<string> {
    set p | p in keys && HasPrefix(p, physicalPrefix) && LogicalKey(prefix, p).Some? :: LogicalKey(prefix, p).value
  }

  lemma {:induction false} SelectedAdd(keys: set<string>, p: string, prefix: string, physicalPrefix: string)
    ensures Selected(keys + {p}, prefix, physicalPrefix)
            == Selected(keys, prefix, physicalPrefix)
               + (if HasPrefix(p, physicalPrefix) && LogicalKey(prefix, p).Some?
                  then {LogicalKey(prefix, p).value} else {})
  {}

  class MemoryStore {
    const prefix: string
    const md5: string -> string
    var objects: map<string, Blob>

    /** Every object carries the digest of its bytes. */
    ghost predicate Valid()
      reads this
    {
      forall p :: p in objects ==> objects[p].md5 == md5(objects[p].data)
    }

    constructor (prefix: string, md5: string -> string)
      ensures Valid() && objects == map[] && this.md5 == md5
      ensures this.prefix == if NormalizePrefix(prefix).Ok? then NormalizePrefix(prefix).value else prefix
    {
      this.prefix := if NormalizePrefix(prefix).Ok? then NormalizePrefix(prefix).value else prefix;
      this.md5 := md5;
      objects := map[];
    }

    method Get(key: string) returns (r: Result<string>)
      ensures r == match JoinKey(prefix, key)
                   case Err(reason) => Err(reason)
                   case Ok(p) => if p in objects then Ok(objects[p].data) else Err(NOT_FOUND)
    {
      var physical := JoinKey(prefix, key);
      if physical.Err? {
        return Err(physical.reason);
      }
      if physical.value !in objects {
        return Err(NOT_FOUND);
      }
      return Ok(objects[physical.value].data);
    }

    /** The ETag of the object. */
    method Head(key: string) returns (r: Result<string>)
      ensures r == match JoinKey(prefix, key)
                   case Err(reason) => Err(reason)
                   case Ok(p) => if p in objects then Ok(objects[p].md5) else Err(NOT_FOUND)
    {
      var physical := JoinKey(prefix, key);
      if physical.Err? {
        return Err(physical.reason);
      }
      if physical.value !in objects {
        return Err(NOT_FOUND);
      }
      return Ok(objects[physical.value].md5);
    }

    method Put(key: string, data: string, options: PutOptions) returns (r: Result<()>)
      requires Valid()
      modifies this
      ensures Valid()
      ensures var p := JoinKey(prefix, key);
              if p.Err? then r == Err(p.reason) && objects == old(objects)
              else
                var outcome := PutOutcome(old(objects), p.value, Blob(data, md5(data)), options);
                if outcome.Err? then r == Err(outcome.reason) && objects == old(objects)
                else r == Ok(()) && objects == outcome.value
    {
      var physical := JoinKey(prefix, key);
      if physical.Err? {
        return Err(physical.reason);
      }
      var digest := md5(data);
      if physical.value in objects {
        if objects[physical.value].md5 == digest {
          return Ok(());
        }
        if options.failIfExists || options.createOnly {
          return Err(CONFLICT);
        }
      }
      objects := objects[physical.value := Blob(data, digest)];
      return Ok(());
    }

    method Delete(key: string) returns (r: Result<()>)
      requires Valid()
      modifies this
      ensures Valid()
      ensures var p := JoinKey(prefix, key);
              if p.Err? then r == Err(p.reason) && objects == old(objects)
              else r == Ok(()) && objects == old(objects) - {p.value}
    {
      var physical := JoinKey(prefix, key);
      if physical.Err? {
        return Err(physical.reason);
      }
      objects := objects - {physical.value};
      return Ok(());
    }

    method DeleteIfMatch(key: string, etag: string) returns (r: Result<()>)
      requires Valid()
      modifies this
      ensures Valid()
      ensures var p := JoinKey(prefix, key);
              if p.Err? then r == Err(p.reason) && objects == old(objects)
              else if p.value !in old(objects) then r == Err(NOT_FOUND) && objects == old(objects)
              else if TrimETag(old(objects)[p.value].md5) != TrimETag(etag) then r == Err(CONFLICT)
                  && objects == old(objects)
              else r == Ok(()) && objects == old(objects) - {p.value}
    {
      var physical := JoinKey(prefix, key);
      if physical.Err? {
        return Err(physical.reason);
      }
      if physical.value !in objects {
        return Err(NOT_FOUND);
      }
      if TrimETag(objects[physical.value].md5) != TrimETag(etag) {
        return Err(CONFLICT);
      }
      objects := objects - {physical.value};
      return Ok(());
    }

    method List(keyPrefix: string) returns (r: Result<seq<string>>)
      ensures var wanted := ListPrefix(prefix, keyPrefix);
              r == if wanted.Err? then Err(wanted.reason) else Ok(SortedSet(Listed(objects, prefix, wanted.value)))
    {
      var wanted := ResolvePrefix(keyPrefix);
      if wanted.Err? {
        return Err(wanted.reason);
      }
      var keys := CollectKeys(wanted.value);
      return Ok(SortedSet(keys));
    }

    method ResolvePrefix(keyPrefix: string) returns (r: Result<string>)
      ensures r == ListPrefix(prefix, keyPrefix)
    {
      r := NormalizePrefix(prefix);
      if r.Err? || keyPrefix == "" {
        return r;
      }
      r := JoinKey(prefix, keyPrefix);
      if r.Ok? {
        var tail := if HasSuffix(keyPrefix, "/") then "/" else "";
        r := Ok(r.value + tail);
      }
    }

    /** Visits the objects in whatever order the map yields them. */
    method CollectKeys(wanted: string) returns (keys: set<string>)
      ensures keys == Listed(objects, prefix, wanted)
    {
      keys := {};
      var left := objects.Keys;
      while left != {}
        invariant left <= objects.Keys
        invariant keys == Selected(objects.Keys - left, prefix, wanted)
        decreases |left|
      {
        var physical :| physical in left;
        SelectedAdd(objects.Keys - left, physical, prefix, wanted);
        assert objects.Keys - (left - {physical}) == objects.Keys - left + {physical};
        left := left - {physical};
        if !HasPrefix(physical, wanted) {
          continue;
        }
        var logical := LogicalKey(prefix, physical);
        if logical.None? {
          continue;
        }
        keys := keys + {logical.value};
      }
      assert objects.Keys - left == objects.Keys;
    }
  }

  // ---- refinement of a plain map

  /** The store as the rest of the program sees it: logical keys to bytes. */
  ghost function View(objects: map<string, Blob>, prefix: string): map<string, string> {
    map key | key in Listed(objects, prefix, Under(prefix, "")) && Under(prefix, key) in objects
      :: objects[Under(prefix, key)].data
  }

  lemma {:induction false} LogicalIsUnder(prefix: string, physical: string)
    requires GoodPrefix(prefix) && LogicalKey(prefix, physical).Some?
    ensures physical == Under(prefix, LogicalKey(prefix, physical).value)
  {
    GoodPrefixFixed(prefix);
    if prefix != "" {
      assert physical == physical[..|prefix| + 1] + physical[|prefix| + 1..];
    }
  }

  lemma {:induction false} UnderStarts(prefix: string, start: string, key: string)
    ensures HasPrefix(Under(prefix, key), Under(prefix, start)) <==> HasPrefix(key, start)
  {
    if prefix != "" {
      var n := |prefix| + 1;
      var whole := prefix + "/" + key;
      assert whole[n..] == key && whole[..n] == prefix + "/";
      if |start| <= |key| {
        assert whole[..n + |start|] == whole[..n] + key[..|start|];
        assert (prefix + "/" + start)[n..] == start;
        assert whole[..n + |start|][n..] == key[..|start|];
      }
    }
  }

  lemma {:induction false} ListedExactly(objects: map<string, Blob>, prefix: string, start: string, key: string)
    requires GoodPrefix(prefix)
    ensures key in Listed(objects, prefix, Under(prefix, start))
            <==> Under(prefix, key) in objects && HasPrefix(key, start)
  {
    if key in Listed(objects, prefix, Under(prefix, start)) {
      var p :| p in objects && HasPrefix(p, Under(prefix, start)) && LogicalKey(prefix, p) == Some(key);
      LogicalIsUnder(prefix, p);
      UnderStarts(prefix, start, key);
    }
    if Under(prefix, key) in objects && HasPrefix(key, start) {
      LogicalOfUnder(prefix, key);
      UnderStarts(prefix, start, key);
    }
  }

  lemma {:induction false} ViewAt(objects: map<string, Blob>, prefix: string, key: string)
    requires GoodPrefix(prefix)
    ensures key in View(objects, prefix) <==> Under(prefix, key) in objects
    ensures key in View(objects, prefix) ==> View(objects, prefix)[key] == objects[Under(prefix, key)].data
  {
    ListedExactly(objects, prefix, "", key);
  }

  lemma {:induction false} UnderInjective(prefix: string, a: string, b: string)
    requires GoodPrefix(prefix) && Under(prefix, a) == Under(prefix, b)
    ensures a == b
  {
    LogicalOfUnder(prefix, a);
    LogicalOfUnder(prefix, b);
  }

  /** A stored object is an entry of the plain map. */
  lemma {:induction false} ViewAfterPut(objects: map<string, Blob>, prefix: string, key: string, blob: Blob)
    requires GoodPrefix(prefix)
    ensures View(objects[Under(prefix, key) := blob], prefix) == View(objects, prefix)[key := blob.data]
  {
    var after := objects[Under(prefix, key) := blob];
    forall k
      ensures k in View(after, prefix) <==> k in View(objects, prefix)[key := blob.data]
      ensures k in View(after, prefix) ==> View(after, prefix)[k] == View(objects, prefix)[key := blob.data][k]
    {
      ViewAt(after, prefix, k);
      ViewAt(objects, prefix, k);
      if Under(prefix, k) == Under(prefix, key) {
        UnderInjective(prefix, k, key);
      }
    }
  }

  /** A deleted object is gone from the plain map. */
  lemma {:induction false} ViewAfterDelete(objects: map<string, Blob>, prefix: string, key: string)
    requires GoodPrefix(prefix)
    ensures View(objects - {Under(prefix, key)}, prefix) == View(objects, prefix) - {key}
  {
    var after := objects - {Under(prefix, key)};
    forall k
      ensures k in View(after, prefix) <==> k in View(objects, prefix) - {key}
      ensures k in View(after, prefix) ==> View(after, prefix)[k] == View(objects, prefix)[k]
    {
      ViewAt(after, prefix, k);
      ViewAt(objects, prefix, k);
      if Under(prefix, k) == Under(prefix, key) {
        UnderInjective(prefix, k, key);
      }
    }
  }

  ghost predicate Digested(objects: map<string, Blob>, md5: string -> string) {
    forall p :: p in objects ==> objects[p].md5 == md5(objects[p].data)
  }

  /** No stored body shares its digest with different bytes. */
  ghost predicate CollisionFree(objects: map<string, Blob>, data: string, md5: string -> string) {
    forall p :: p in objects && md5(objects[p].data) == md5(data) ==> objects[p].data == data
  }

  /** `Put` through a clean key refuses exactly when the options forbid to replace different bytes, and is an update
      of the plain map otherwise. */
  lemma {:induction false} PutRefines(
      objects: map<string, Blob>, prefix: string, key: string, data: string, md5: string -> string, options: PutOptions)
    requires GoodPrefix(prefix) && Digested(objects, md5) && CollisionFree(objects, data, md5)
    ensures var view := View(objects, prefix);
            var outcome := PutOutcome(objects, Under(prefix, key), Blob(data, md5(data)), options);
            && (outcome.Err? <==> (options.createOnly || options.failIfExists) && key in view && view[key] != data)
            && (outcome.Ok? ==> View(outcome.value, prefix) == view[key := data])
  {
    var physical, blob := Under(prefix, key), Blob(data, md5(data));
    ViewAt(objects, prefix, key);
    if physical in objects && objects[physical].md5 == blob.md5 {
      assert View(objects, prefix)[key := data] == View(objects, prefix);
    } else if PutOutcome(objects, physical, blob, options).Ok? {
      ViewAfterPut(objects, prefix, key, blob);
    }
  }

  /** An object outside the prefix is never the one a clean key names. */
  lemma {:induction false} OutsideUntouched(prefix: string, key: string, physical: string)
    requires GoodPrefix(prefix) && prefix != "" && !HasPrefix(physical, prefix + "/")
    ensures physical != Under(prefix, key)
  {
    assert Under(prefix, key)[..|prefix| + 1] == prefix + "/";
  }

  /** Listing `x/` yields exactly the keys below `x`, in order. */
  lemma {:induction false} ListIsExact(objects: map<string, Blob>, prefix: string, x: string)
    requires GoodPrefix(prefix) && CleanKey(x) && '\\' !in x
    ensures JoinKey(prefix, x + "/") == Ok(Under(prefix, x)) && HasSuffix(x + "/", "/")
    ensures Listed(objects, prefix, Under(prefix, x) + "/")
            == set key | key in View(objects, prefix) && HasPrefix(key, x + "/")
  {
    CleanTrailing(x);
    CleanKeyStart(x);
    CleanKeyInside(x);
    GoodPrefixFixed(prefix);
    UnderIsJoin(prefix, x);
    Assoc(prefix + "/", x, "/");
    forall key
      ensures key in Listed(objects, prefix, Under(prefix, x) + "/")
              <==> key in View(objects, prefix) && HasPrefix(key, x + "/")
    {
      ListedExactly(objects, prefix, x + "/", key);
      ViewAt(objects, prefix, key);
    }
  }
}
