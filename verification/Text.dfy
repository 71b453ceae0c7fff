/** Text primitives of the Go standard library that the repository's codecs rest on, for ASCII text, and the inverse
    laws between splitting and joining. */
module Text {

  datatype Option<+T> = None | Some(value: T) {
    function GetOr(default: T): T {
      if Some? then value else default
    }
  }

  datatype Result<+T> = Ok(value: T) | Err(reason: string)

  /** `unicode.IsSpace` on the ASCII range: tab, newline, vertical tab, form feed, carriage return, blank. */
  predicate IsSpace(c: char) {
    c == ' ' || '\t' <= c <= '\r'
  }

  predicate IsDigit(c: char) {
    '0' <= c <= '9'
  }

  predicate HasSpace(s: string) {
    exists i :: 0 <= i < |s| && IsSpace(s[i])
  }

  /** A nonempty run without white space: what `strings.Fields` returns pieces of. */
  predicate Word(s: string) {
    s != "" && !HasSpace(s)
  }

  predicate HasPrefix(s: string, prefix: string) {
    |prefix| <= |s| && s[..|prefix|] == prefix
  }

  predicate HasSuffix(s: string, suffix: string) {
    |suffix| <= |s| && s[|s| - |suffix|..] == suffix
  }

  // ---- trimming

  function TrimLeft(s: string): (r: string)
    ensures |r| <= |s|
    ensures |r| == |s| ==> r == s
    ensures r != "" ==> !IsSpace(r[0])
  {
    if s != "" && IsSpace(s[0]) then TrimLeft(s[1..]) else s
  }

  function TrimRight(s: string): (r: string)
    ensures |r| <= |s| && r == s[..|r|]
    ensures r != "" ==> !IsSpace(r[|r| - 1])
  {
    if s != "" && IsSpace(s[|s| - 1]) then TrimRight(s[..|s| - 1]) else s
  }

  function TrimSpace(s: string): (r: string)
    ensures |r| <= |s|
    ensures |r| == |s| ==> r == s
    ensures Trimmed(r)
  {
    TrimRight(TrimLeft(s))
  }

  predicate Trimmed(s: string) {
    s == "" || (!IsSpace(s[0]) && !IsSpace(s[|s| - 1]))
  }

  predicate Blank(s: string) {
    TrimSpace(s) == ""
  }

  lemma {:induction false} TrimLeftChars(s: string, c: char)
    requires c !in s
    ensures c !in TrimLeft(s)
  {
    if s != "" && IsSpace(s[0]) {
      TrimLeftChars(s[1..], c);
    }
  }

  lemma {:induction false} TrimSpaceChars(s: string, c: char)
    requires c !in s
    ensures c !in TrimSpace(s)
  {
    TrimLeftChars(s, c);
  }

  lemma {:induction false} TrimmedIsFixed(s: string)
    requires Trimmed(s)
    ensures TrimSpace(s) == s
  {}

  /** A line that starts with a visible character is not blank. */
  lemma {:induction false} VisibleIsNotBlank(s: string)
    requires s != "" && !IsSpace(s[0])
    ensures !Blank(s)
  {
    assert TrimLeft(s) == s;
    VisibleStart(s);
  }

  lemma {:induction false} VisibleStart(s: string)
    requires s != "" && !IsSpace(s[0])
    ensures TrimRight(s) != ""
  {
    if IsSpace(s[|s| - 1]) {
      VisibleStart(s[..|s| - 1]);
    }
  }

  lemma {:induction false} BlankMeansAllSpace(s: string)
    ensures TrimLeft(s) == "" <==> forall c :: c in s ==> IsSpace(c)
    ensures Blank(s) <==> TrimLeft(s) == ""
  {
    if TrimLeft(s) != "" {
      VisibleStart(TrimLeft(s));
    }
    if s != "" && IsSpace(s[0]) {
      BlankMeansAllSpace(s[1..]);
      assert s == [s[0]] + s[1..];
    } else if s != "" {
      assert s[0] in s;
    }
  }

  // ---- white-space separated fields

  function WordLength(s: string): (n: nat)
    ensures n <= |s|
    ensures forall i :: 0 <= i < n ==> !IsSpace(s[i])
    ensures n < |s| ==> IsSpace(s[n])
  {
    if s == "" || IsSpace(s[0]) then 0 else 1 + WordLength(s[1..])
  }

  ghost predicate Words(words: seq<string>) {
    forall i :: 0 <= i < |words| ==> Word(words[i])
  }

  /** `strings.Fields`. */
  function Fields(s: string): (words: seq<string>)
    ensures Words(words)
    decreases |s|
  {
    var t := TrimLeft(s);
    if t == "" then []
    else
      var n := WordLength(t);
      [t[..n]] + Fields(t[n..])
  }

  lemma {:induction false} WordLengthIs(s: string, n: nat)
    requires n <= |s| && !HasSpace(s[..n])
    requires n == |s| || IsSpace(s[n])
    ensures WordLength(s) == n
  {
    if n > 0 {
      assert s[..n][0] == s[0];
      assert s[1..][..n - 1] == s[..n][1..];
      WordLengthIs(s[1..], n - 1);
    }
  }

  lemma {:induction false} TrimLeftSkips(spaces: string, s: string)
    requires forall i :: 0 <= i < |spaces| ==> IsSpace(spaces[i])
    ensures TrimLeft(spaces + s) == TrimLeft(s)
  {
    if spaces == "" {
      assert spaces + s == s;
    } else {
      assert (spaces + s)[1..] == spaces[1..] + s;
      TrimLeftSkips(spaces[1..], s);
    }
  }

  lemma {:induction false} FieldsCons(spaces: string, word: string, rest: string)
    requires forall i :: 0 <= i < |spaces| ==> IsSpace(spaces[i])
    requires Word(word) && (rest == "" || IsSpace(rest[0]))
    ensures Fields(spaces + word + rest) == [word] + Fields(rest)
  {
    var t := word + rest;
    Assoc(spaces, word, rest);
    TrimLeftSkips(spaces, t);
    assert t[0] == word[0];
    assert TrimLeft(t) == t;
    assert t[..|word|] == word && t[|word|..] == rest;
    WordLengthIs(t, |word|);
  }

  lemma {:induction false} FieldsOfJoin(words: seq<string>)
    requires Words(words)
    ensures Fields(Join(words, " ")) == words
    ensures Fields(" " + Join(words, " ")) == words
  {
    if words == [] {
      assert TrimLeft(" " + "") == "";
    } else if |words| == 1 {
      FieldsOfJoinStep(words[0], "");
      assert words[0] + "" == words[0];
    } else {
      FieldsOfJoin(words[1..]);
      FieldsOfJoinStep(words[0], " " + Join(words[1..], " "));
      Assoc(words[0], " ", Join(words[1..], " "));
    }
  }

  lemma {:induction false} FieldsOfJoinStep(word: string, rest: string)
    requires Word(word) && (rest == "" || IsSpace(rest[0]))
    ensures Fields(word + rest) == [word] + Fields(rest)
    ensures Fields(" " + (word + rest)) == [word] + Fields(rest)
  {
    FieldsCons("", word, rest);
    FieldsCons(" ", word, rest);
    assert "" + word == word;
    Assoc(" ", word, rest);
  }

  // ---- splitting and joining

  /** No part contains the character. */
  ghost predicate Free(parts: seq<string>, c: char) {
    forall i :: 0 <= i < |parts| ==> c !in parts[i]
  }

  /** `strings.Split` with a one-character separator. */
  function Split(s: string, sep: char): (parts: seq<string>)
    ensures |parts| >= 1
  {
    if s == "" then [""]
    else if s[0] == sep then [""] + Split(s[1..], sep)
    else
      var rest := Split(s[1..], sep);
      [[s[0]] + rest[0]] + rest[1..]
  }

  /** `strings.Join`. */
  function Join(parts: seq<string>, sep: string): string {
    if |parts| == 0 then ""
    else if |parts| == 1 then parts[0]
    else parts[0] + sep + Join(parts[1..], sep)
  }

  /** Every part followed by a newline: the shape of all text the renderers build. */
  function Unlines(lines: seq<string>): string {
    if lines == [] then "" else lines[0] + "\n" + Unlines(lines[1..])
  }

  lemma {:induction false} SplitOne(s: string, sep: char)
    requires sep !in s
    ensures Split(s, sep) == [s]
  {
    if s != "" {
      SplitOne(s[1..], sep);
      assert s == [s[0]] + s[1..];
    }
  }

  lemma {:induction false} SplitCons(a: string, sep: char, rest: string)
    requires sep !in a
    ensures Split(a + [sep] + rest, sep) == [a] + Split(rest, sep)
  {
    var s := a + [sep] + rest;
    if a == "" {
      assert s[1..] == rest;
    } else {
      assert s[1..] == a[1..] + [sep] + rest;
      SplitCons(a[1..], sep, rest);
      assert a == [a[0]] + a[1..];
    }
  }

  lemma {:induction false} SplitJoin(parts: seq<string>, sep: char)
    requires parts != []
    requires Free(parts, sep)
    ensures Split(Join(parts, [sep]), sep) == parts
  {
    if |parts| == 1 {
      SplitOne(parts[0], sep);
    } else {
      SplitJoin(parts[1..], sep);
      SplitCons(parts[0], sep, Join(parts[1..], [sep]));
    }
  }

  lemma {:induction false} JoinSplit(s: string, sep: char)
    ensures Join(Split(s, sep), [sep]) == s
    ensures Free(Split(s, sep), sep)
  {
    if s != "" {
      JoinSplit(s[1..], sep);
      var rest := Split(s[1..], sep);
      if s[0] == sep {
        assert Split(s, sep)[1..] == rest;
      } else {
        var parts := Split(s, sep);
        assert parts[1..] == rest[1..];
        if |parts| > 1 {
          assert parts[0] + [sep] + Join(parts[1..], [sep]) == [s[0]] + (rest[0] + [sep] + Join(rest[1..], [sep]));
        }
      }
    }
  }

  lemma {:induction false} SplitChars(s: string, sep: char, c: char)
    requires c !in s
    ensures Free(Split(s, sep), c)
  {
    if s != "" {
      assert s[0] in s;
      SplitChars(s[1..], sep, c);
    }
  }

  lemma {:induction false} SplitUnlines(lines: seq<string>)
    requires Free(lines, '\n')
    ensures Split(Unlines(lines), '\n') == lines + [""]
  {
    if lines != [] {
      SplitUnlines(lines[1..]);
      SplitCons(lines[0], '\n', Unlines(lines[1..]));
    }
  }

  lemma {:induction false} UnlinesAppend(a: seq<string>, b: seq<string>)
    ensures Unlines(a + b) == Unlines(a) + Unlines(b)
  {
    if a == [] {
      assert a + b == b;
    } else {
      assert (a + b)[1..] == a[1..] + b;
      UnlinesAppend(a[1..], b);
    }
  }

  lemma {:induction false} UnlinesSnoc(lines: seq<string>, i: nat)
    requires i < |lines|
    ensures Unlines(lines[..i + 1]) == Unlines(lines[..i]) + lines[i] + "\n"
  {
    assert lines[..i + 1] == lines[..i] + [lines[i]];
    UnlinesAppend(lines[..i], [lines[i]]);
    assert Unlines([lines[i]]) == lines[i] + "\n";
  }

  /** The values of `f` from `i` up to `n`. */
  function Tabulate<T>(f: nat -> T, i: nat, n: nat): (r: seq<T>)
    requires i <= n
    ensures |r| == n - i
    decreases n - i
  {
    if i == n then [] else [f(i)] + Tabulate(f, i + 1, n)
  }

  lemma {:induction false} TabulateAt<T>(f: nat -> T, i: nat, n: nat, j: nat)
    requires i <= j < n
    ensures Tabulate(f, i, n)[j - i] == f(j)
    decreases n - i
  {
    if i < j {
      TabulateAt(f, i + 1, n, j);
    }
  }

  lemma {:induction false} Assoc<T>(a: seq<T>, b: seq<T>, c: seq<T>)
    ensures a + b + c == a + (b + c)
  {}

  lemma {:induction false} TakeSnoc<T>(s: seq<T>, i: nat)
    requires i < |s|
    ensures s[..i + 1] == s[..i] + [s[i]]
  {}

  lemma {:induction false} ConsCons<T>(a: T, b: T, rest: seq<T>)
    ensures [a] + ([b] + rest) == [a, b] + rest
  {}

  lemma {:induction false} AppendEmpty<T>(s: seq<T>)
    ensures s + [] == s && [] + s == s
  {}

  /** Joining the first two lines by hand changes nothing. */
  lemma {:induction false} JoinMerge(a: string, b: string, rest: seq<string>)
    ensures Join([a, b] + rest, "\n") == Join([a + "\n" + b] + rest, "\n")
  {
    assert ([a, b] + rest)[1..] == [b] + rest;
    if rest == [] {
      assert [b] + rest == [b];
    } else {
      assert ([b] + rest)[1..] == rest && ([a + "\n" + b] + rest)[1..] == rest;
      Assoc(a + "\n", b, "\n" + Join(rest, "\n"));
      Assoc(b, "\n", Join(rest, "\n"));
      Assoc(a + "\n" + b, "\n", Join(rest, "\n"));
    }
  }

  lemma {:induction false} JoinAppendLine(parts: seq<string>, line: string)
    requires parts != []
    ensures Join(parts + [line], "\n") == Join(parts, "\n") + "\n" + line
  {
    if |parts| > 1 {
      assert (parts + [line])[1..] == parts[1..] + [line];
      JoinAppendLine(parts[1..], line);
    } else {
      assert (parts + [line])[1..] == [line];
    }
  }
}
