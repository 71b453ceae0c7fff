/** Go's `path` package on slash-separated keys, by segments. */
module Paths {
  import opened Text

  function PushSegment(stack: seq<string>, segment: string, rooted: bool): seq<string> {
    if segment == "" || segment == "." then stack
    else if segment == ".." then
      if stack != [] && stack[|stack| - 1] != ".." then stack[..|stack| - 1]
      else if rooted then stack
      else stack + [".."]
    else stack + [segment]
  }

  function PushAll(stack: seq<string>, segments: seq<string>, rooted: bool): seq<string>
    decreases |segments|
  {
    if segments == [] then stack
    else PushAll(PushSegment(stack, segments[0], rooted), segments[1..], rooted)
  }

  predicate Rooted(p: string) {
    HasPrefix(p, "/")
  }

  /** `path.Clean`. */
  function Clean(p: string): string {
    if p == "" then "."
    else
      var joined := Join(PushAll([], Split(p, '/'), Rooted(p)), "/");
      if Rooted(p) then "/" + joined
      else if joined == "" then "."
      else joined
  }

  /** `path.Join` of two elements. */
  function JoinPath(a: string, b: string): string {
    if a == "" && b == "" then ""
    else if a == "" then Clean(b)
    else if b == "" then Clean(a)
    else Clean(a + "/" + b)
  }

  function TrimSlashesRight(p: string): (r: string)
    ensures |r| <= |p| && r == p[..|r|]
    ensures r != "" ==> r[|r| - 1] != '/'
  {
    if p != "" && p[|p| - 1] == '/' then TrimSlashesRight(p[..|p| - 1]) else p
  }

  function TrimSlashesLeft(p: string): (r: string)
    ensures |r| <= |p|
    ensures r != "" ==> r[0] != '/'
  {
    if p != "" && p[0] == '/' then TrimSlashesLeft(p[1..]) else p
  }

  /** Length of the text up to and including the last slash. */
  function LastSlash(p: string): (n: nat)
    ensures n <= |p|
    ensures n > 0 ==> p[n - 1] == '/'
    ensures forall i :: n <= i < |p| ==> p[i] != '/'
  {
    if p == "" then 0
    else if p[|p| - 1] == '/' then |p|
    else LastSlash(p[..|p| - 1])
  }

  /** `path.Base`. */
  function Base(p: string): string {
    if p == "" then "."
    else
      var q := TrimSlashesRight(p);
      if q == "" then "/" else q[LastSlash(q)..]
  }

  /** `path.Dir`. */
  function Dir(p: string): string {
    Clean(p[..LastSlash(p)])
  }

  lemma {:induction false} RootStays(p: string)
    requires Rooted(p)
    ensures HasPrefix(Clean(p), "/")
  {}

  // ---- clean keys

  predicate CleanSegment(s: string) {
    s != "" && s != "." && s != ".." && '/' !in s
  }

  ghost predicate CleanSegments(segments: seq<string>) {
    segments != [] && forall i :: 0 <= i < |segments| ==> CleanSegment(segments[i])
  }

  /** A key of ordinary segments: no empty, dot or dot-dot segment, no leading slash. */
  ghost predicate CleanKey(p: string) {
    CleanSegments(Split(p, '/'))
  }

  lemma {:induction false} PushClean(stack: seq<string>, segments: seq<string>, rooted: bool)
    requires forall i :: 0 <= i < |segments| ==> CleanSegment(segments[i])
    ensures PushAll(stack, segments, rooted) == stack + segments
    decreases |segments|
  {
    if segments == [] {
      AppendEmpty(stack);
    } else {
      PushClean(stack + [segments[0]], segments[1..], rooted);
      Assoc(stack, [segments[0]], segments[1..]);
      assert [segments[0]] + segments[1..] == segments;
    }
  }

  lemma {:induction false} CleanKeyStart(p: string)
    requires CleanKey(p)
    ensures p != "" && p[0] != '/'
  {
    assert CleanSegment(Split(p, '/')[0]);
  }

  lemma {:induction false} CleanFixed(p: string)
    requires CleanKey(p)
    ensures Clean(p) == p
  {
    CleanKeyStart(p);
    PushClean([], Split(p, '/'), Rooted(p));
    AppendEmpty(Split(p, '/'));
    JoinSplit(p, '/');
  }

  lemma {:induction false} CleanKeyAppend(a: string, b: string)
    requires CleanKey(a) && CleanKey(b)
    ensures CleanKey(a + "/" + b)
    ensures Split(a + "/" + b, '/') == Split(a, '/') + Split(b, '/')
  {
    SplitConcat(a, b, '/');
  }

  lemma {:induction false} SplitConcat(a: string, b: string, sep: char)
    ensures Split(a + [sep] + b, sep) == Split(a, sep) + Split(b, sep)
    decreases |a|
  {
    var s := a + [sep] + b;
    if a == "" {
      assert s[1..] == b;
    } else {
      assert s[1..] == a[1..] + [sep] + b;
      SplitConcat(a[1..], b, sep);
      var rest := Split(a[1..], sep);
      if a[0] == sep {
        Assoc([""], rest, Split(b, sep));
      } else {
        assert (rest + Split(b, sep))[0] == rest[0];
        assert (rest + Split(b, sep))[1..] == rest[1..] + Split(b, sep);
        Assoc([[a[0]] + rest[0]], rest[1..], Split(b, sep));
      }
    }
  }

  lemma {:induction false} OneSegmentKey(s: string)
    requires CleanSegment(s)
    ensures CleanKey(s) && Split(s, '/') == [s]
  {
    SplitOne(s, '/');
  }

  // ---- what Clean returns

  ghost predicate GoodStack(stack: seq<string>) {
    && (forall i :: 0 <= i < |stack| ==> stack[i] != "" && stack[i] != "." && '/' !in stack[i])
    && (forall i :: 0 < i < |stack| ==> stack[i] == ".." ==> stack[i - 1] == "..")
  }

  lemma {:induction false} PushGood(stack: seq<string>, segments: seq<string>, rooted: bool)
    requires GoodStack(stack) && Free(segments, '/')
    ensures GoodStack(PushAll(stack, segments, rooted))
    decreases |segments|
  {
    if segments != [] {
      PushGood(PushSegment(stack, segments[0], rooted), segments[1..], rooted);
    }
  }

  lemma {:induction false} StackWithoutDots(stack: seq<string>, i: nat)
    requires GoodStack(stack) && stack != [] && stack[0] != ".." && i < |stack|
    ensures stack[i] != ".."
  {
    if i > 0 {
      StackWithoutDots(stack, i - 1);
    }
  }

  /** The stack of segments a cleaned path is joined from. */
  function CleanStack(p: string): seq<string> {
    PushAll([], Split(p, '/'), Rooted(p))
  }

  lemma {:induction false} CleanStackGood(p: string)
    ensures GoodStack(CleanStack(p))
  {
    JoinSplit(p, '/');
    PushGood([], Split(p, '/'), Rooted(p));
  }

  lemma {:induction false} CleanStackIsSplit(p: string)
    requires CleanStack(p) != []
    ensures Split(Join(CleanStack(p), "/"), '/') == CleanStack(p)
    ensures Join(CleanStack(p), "/") != ""
  {
    var stack := CleanStack(p);
    CleanStackGood(p);
    SplitJoin(stack, '/');
    assert Split("", '/') == [""];
  }

  /** A relative path that neither cleans to nothing nor climbs out of its root cleans to a clean key. */
  lemma {:induction false} CleanGivesCleanKey(p: string)
    requires p != "" && !Rooted(p)
    requires Clean(p) != "." && Clean(p) != ".." && !HasPrefix(Clean(p), "../")
    ensures CleanKey(Clean(p))
  {
    var stack := CleanStack(p);
    if stack != [] {
      CleanStackGood(p);
      CleanStackIsSplit(p);
      var joined := Join(stack, "/");
      assert Clean(p) == joined;
      if stack[0] == ".." {
        DotDotStart(stack);
      }
      forall i | 0 <= i < |stack| ensures CleanSegment(stack[i]) {
        StackWithoutDots(stack, i);
      }
    }
  }

  lemma {:induction false} PushFree(stack: seq<string>, segments: seq<string>, rooted: bool, c: char)
    requires Free(stack, c) && Free(segments, c) && c != '.'
    ensures Free(PushAll(stack, segments, rooted), c)
    decreases |segments|
  {
    if segments != [] {
      assert c !in segments[0];
      PushFree(PushSegment(stack, segments[0], rooted), segments[1..], rooted, c);
    }
  }

  lemma {:induction false} JoinFree(parts: seq<string>, c: char)
    requires Free(parts, c) && c != '/'
    ensures c !in Join(parts, "/")
  {
    if |parts| > 1 {
      JoinFree(parts[1..], c);
    }
  }

  /** Cleaning brings no character into a path. */
  lemma {:induction false} CleanFree(p: string, c: char)
    requires c !in p && c != '.' && c != '/'
    ensures c !in Clean(p)
  {
    SplitChars(p, '/', c);
    PushFree([], Split(p, '/'), Rooted(p), c);
    JoinFree(CleanStack(p), c);
  }

  lemma {:induction false} DotDotStart(stack: seq<string>)
    requires stack != [] && stack[0] == ".."
    ensures Join(stack, "/") == ".." || HasPrefix(Join(stack, "/"), "../")
  {
    if |stack| > 1 {
      assert Join(stack, "/")[..3] == "../";
    }
  }

  // ---- base and directory

  lemma {:induction false} LastSlashIs(p: string, n: nat)
    requires n <= |p| && (n > 0 ==> p[n - 1] == '/')
    requires forall i :: n <= i < |p| ==> p[i] != '/'
    ensures LastSlash(p) == n
  {
    if n < |p| {
      LastSlashIs(p[..|p| - 1], n);
    }
  }

  lemma {:induction false} LastSlashOfJoin(dir: string, name: string)
    requires '/' !in name
    ensures LastSlash(dir + "/" + name) == |dir| + 1
  {
    var p := dir + "/" + name;
    LastSlashIs(p, |dir| + 1);
  }

  /** The last segment, when it is not empty. */
  lemma {:induction false} BaseOfJoin(dir: string, name: string)
    requires name != "" && '/' !in name
    ensures Base(dir + "/" + name) == name
  {
    var p := dir + "/" + name;
    assert p[|p| - 1] == name[|name| - 1];
    assert TrimSlashesRight(p) == p;
    LastSlashOfJoin(dir, name);
    assert p[|dir| + 1..] == name;
  }

  lemma {:induction false} SplitTrailingSlash(a: string)
    ensures Split(a + "/", '/') == Split(a, '/') + [""]
  {
    SplitConcat(a, "", '/');
    assert a + ['/'] + "" == a + "/";
  }

  lemma {:induction false} PushTrailing(stack: seq<string>, segments: seq<string>, rooted: bool)
    ensures PushAll(stack, segments + [""], rooted) == PushAll(stack, segments, rooted)
    decreases |segments|
  {
    if segments == [] {
      AppendEmpty([""]);
      assert PushAll(stack, [""], rooted) == PushAll(stack, [], rooted);
    } else {
      assert (segments + [""])[1..] == segments[1..] + [""];
      PushTrailing(PushSegment(stack, segments[0], rooted), segments[1..], rooted);
    }
  }

  lemma {:induction false} CleanTrailing(key: string)
    requires CleanKey(key)
    ensures Clean(key + "/") == key
  {
    SplitTrailingSlash(key);
    CleanKeyStart(key);
    CleanFixed(key);
    assert (key + "/")[0] == key[0];
    PushTrailing([], Split(key, '/'), false);
  }

  lemma {:induction false} DirOfJoin(dir: string, name: string)
    requires CleanKey(dir) && '/' !in name
    ensures Dir(dir + "/" + name) == dir
  {
    var p := dir + "/" + name;
    LastSlashOfJoin(dir, name);
    assert p[..|dir| + 1] == dir + "/";
    CleanTrailing(dir);
  }

  lemma {:induction false} TrailingSlashNotClean(q: string)
    ensures !CleanKey(q + "/")
  {
    SplitTrailingSlash(q);
    assert (Split(q, '/') + [""])[|Split(q, '/')|] == "";
  }

  lemma {:induction false} CleanKeyEnd(p: string)
    requires CleanKey(p)
    ensures p != "" && p[|p| - 1] != '/'
  {
    CleanKeyStart(p);
    if p[|p| - 1] == '/' {
      assert p == p[..|p| - 1] + "/";
      TrailingSlashNotClean(p[..|p| - 1]);
    }
  }

  lemma {:induction false} BaseShape(p: string)
    requires p != ""
    ensures Base(p) == "/" || (Base(p) != "" && '/' !in Base(p))
  {
    var q := TrimSlashesRight(p);
    if q != "" {
      assert LastSlash(q) < |q|;
    }
  }

  // ---- paths that climb out

  /** Walking down these segments leaves the directory at some point. */
  predicate Climbs(segments: seq<string>, depth: nat) {
    if segments == [] then false
    else if segments[0] == "" || segments[0] == "." then Climbs(segments[1..], depth)
    else if segments[0] == ".." then depth == 0 || Climbs(segments[1..], depth - 1)
    else Climbs(segments[1..], depth + 1)
  }

  predicate ClimbsOut(p: string) {
    !Rooted(p) && Climbs(Split(p, '/'), 0)
  }

  ghost predicate NoDots(stack: seq<string>) {
    forall i :: 0 <= i < |stack| ==> stack[i] != ".."
  }

  lemma {:induction false} DotsStay(stack: seq<string>, segments: seq<string>)
    requires stack != [] && stack[0] == ".."
    ensures var r := PushAll(stack, segments, false); r != [] && r[0] == ".."
    decreases |segments|
  {
    if segments != [] {
      DotsStay(PushSegment(stack, segments[0], false), segments[1..]);
    }
  }

  lemma {:induction false} ClimbingLeavesDots(stack: seq<string>, segments: seq<string>)
    requires NoDots(stack)
    ensures var r := PushAll(stack, segments, false);
            if Climbs(segments, |stack|) then r != [] && r[0] == ".." else NoDots(r)
    decreases |segments|
  {
    if segments != [] {
      var next := PushSegment(stack, segments[0], false);
      if segments[0] == ".." && stack == [] {
        DotsStay(next, segments[1..]);
      } else {
        ClimbingLeavesDots(next, segments[1..]);
      }
    }
  }

  lemma {:induction false} EscapeStarts(joined: string)
    requires joined == ".." || HasPrefix(joined, "../")
    ensures Split(joined, '/') != [] && Split(joined, '/')[0] == ".."
  {
    if joined == ".." {
      SplitOne(joined, '/');
    } else {
      assert joined == ".." + ['/'] + joined[3..];
      SplitCons("..", '/', joined[3..]);
    }
  }

  lemma {:induction false} NoDotsNoEscape(stack: seq<string>, joined: string)
    requires NoDots(stack) && Split(joined, '/') == stack
    ensures joined != ".." && !HasPrefix(joined, "../")
  {
    if joined == ".." || HasPrefix(joined, "../") {
      EscapeStarts(joined);
    }
  }

  /** A path cleans to one that starts by going up exactly when walking it climbs out. */
  lemma {:induction false} CleanClimbs(p: string)
    ensures Clean(p) == ".." || HasPrefix(Clean(p), "../") <==> ClimbsOut(p)
  {
    if p == "" {
      assert Split(p, '/') == [""];
      assert [""][1..] == [];
    } else if !Rooted(p) {
      ClimbingLeavesDots([], Split(p, '/'));
      var stack := CleanStack(p);
      if ClimbsOut(p) {
        DotDotStart(stack);
        CleanStackIsSplit(p);
      } else if stack != [] {
        CleanStackIsSplit(p);
        NoDotsNoEscape(stack, Join(stack, "/"));
      }
    }
  }
}
