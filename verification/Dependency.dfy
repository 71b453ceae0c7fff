/** Package relationships (Debian Policy section 7.1): splitting a `Depends` value, normalising each entry, and when a
    rendered list reads back as itself. */
module Dependency {
  import opened Text
  import opened Numbers

  // ---- ParseDependencies

  function DropBlanks(s: string): (r: string)
    ensures r != "" ==> r[0] != ' '
  {
    if s != "" && s[0] == ' ' then DropBlanks(s[1..]) else s
  }

  function DropBlanksAll(parts: seq<string>): (r: seq<string>)
    ensures |r| == |parts|
    ensures forall i :: 0 <= i < |r| ==> r[i] == DropBlanks(parts[i])
  {
    if parts == [] then [] else [DropBlanks(parts[0])] + DropBlanksAll(parts[1..])
  }

  /** Splitting around a comma and the blanks that follow it. */
  function SplitCommas(value: string): (parts: seq<string>)
    ensures parts != []
  {
    var parts := Split(value, ',');
    [parts[0]] + DropBlanksAll(parts[1..])
  }

  function NameLength(s: string): (n: nat)
    ensures n <= |s|
    ensures forall i :: 0 <= i < n ==> s[i] != ' '
    ensures n < |s| ==> s[n] == ' '
  {
    if s == "" || s[0] == ' ' then 0 else 1 + NameLength(s[1..])
  }

  function OperatorLength(s: string): (n: nat)
    ensures n <= |s|
  {
    if s != "" && s[0] in "><=" then 1 + OperatorLength(s[1..]) else 0
  }

  datatype Entry = Plain(name: string) | Versioned(name: string, operator: string, version: string) | Unrecognised

  /** The language `^([^ ]+)(?: \(([>=<]+) ([^)]+)\))?$`. */
  function MatchEntry(s: string): Entry {
    var n := NameLength(s);
    if n == 0 then Unrecognised
    else if n == |s| then Plain(s)
    else if n + 5 > |s| || s[n + 1] != '(' then Unrecognised
    else
      var k := OperatorLength(s[n + 2..]);
      var open := n + 3 + k;
      if k == 0 || open + 2 > |s| || s[open - 1] != ' ' || s[|s| - 1] != ')'
          || ')' in s[open..|s| - 1] then Unrecognised
      else Versioned(s[..n], s[n + 2..open - 1], s[open..|s| - 1])
  }

  function Rebuilt(m: Entry): string
    requires !m.Unrecognised?
  {
    if m.Plain? then m.name else m.name + " (" + m.operator + " " + m.version + ")"
  }

  function ParseEntry(s: string): string {
    var m := MatchEntry(s);
    if m.Unrecognised? then s else TrimSpace(Rebuilt(m))
  }

  function ParseEntries(parts: seq<string>): (r: seq<string>)
    ensures |r| == |parts|
  {
    if parts == [] then [] else [ParseEntry(parts[0])] + ParseEntries(parts[1..])
  }

  function ParsedDependencies(value: string): seq<string> {
    if value == "" then [] else ParseEntries(SplitCommas(value))
  }

  method ReadEntry(part: string) returns (dependency: string)
    ensures dependency == ParseEntry(part)
  {
    var m := MatchEntry(part);
    if m.Unrecognised? {
      return part;
    }
    return TrimSpace(Rebuilt(m));
  }

  method ParseDependencies(value: string) returns (dependencies: seq<string>)
    ensures dependencies == ParsedDependencies(value)
  {
    if value == "" {
      return [];
    }
    var parts := SplitCommas(value);
    dependencies := [];
    for i := 0 to |parts|
      invariant dependencies + ParseEntries(parts[i..]) == ParseEntries(parts)
    {
      var dependency := ReadEntry(parts[i]);
      assert parts[i..][1..] == parts[i + 1..];
      Assoc(dependencies, [dependency], ParseEntries(parts[i + 1..]));
      dependencies := dependencies + [dependency];
    }
    AppendEmpty(dependencies);
  }

  lemma {:induction false} VersionedParts(s: string) returns (n: nat, open: nat)
    requires MatchEntry(s).Versioned?
    ensures n + 3 <= open && open + 1 <= |s|
    ensures s[n] == ' ' && s[n + 1] == '(' && s[open - 1] == ' ' && s[|s| - 1] == ')'
    ensures MatchEntry(s) == Versioned(s[..n], s[n + 2..open - 1], s[open..|s| - 1])
  {
    n := NameLength(s);
    open := n + 3 + OperatorLength(s[n + 2..]);
  }

  /** Matching takes an entry apart without losing a character. */
  lemma {:induction false} MatchRebuilds(s: string)
    ensures !MatchEntry(s).Unrecognised? ==> Rebuilt(MatchEntry(s)) == s
  {
    if MatchEntry(s).Versioned? {
      var n, open := VersionedParts(s);
      Reassemble(s, n, open);
    }
  }

  lemma {:induction false} Reassemble(s: string, n: nat, open: nat)
    requires n + 3 <= open && open + 1 <= |s|
    requires s[n] == ' ' && s[n + 1] == '(' && s[open - 1] == ' ' && s[|s| - 1] == ')'
    ensures s[..n] + " (" + s[n + 2..open - 1] + " " + s[open..|s| - 1] + ")" == s
  {}

  /** An entry without surrounding white space is kept as it stands, recognised or not. */
  lemma {:induction false} TrimmedEntryKept(s: string)
    requires Trimmed(s)
    ensures ParseEntry(s) == s
  {
    MatchRebuilds(s);
    TrimmedIsFixed(s);
  }

  // ---- normalizeDependency

  /** `strings.ContainsAny(s, "(,|")`. */
  predicate HasMark(s: string) {
    '(' in s || ',' in s || '|' in s
  }

  function FindSub(s: string, pattern: string): (p: nat)
    ensures p <= |s|
    ensures p < |s| ==> HasPrefix(s[p..], pattern)
  {
    if s == "" || HasPrefix(s, pattern) then 0 else 1 + FindSub(s[1..], pattern)
  }

  predicate HasSub(s: string, pattern: string) {
    FindSub(s, pattern) < |s|
  }

  function Debianize(operator: string): string {
    if operator == "<" then "<<" else if operator == ">" then ">>" else operator
  }

  function Lower(c: char): char {
    if 'A' <= c <= 'Z' then c - 'A' + 'a' else c
  }

  function Dashed(c: char): char {
    if c == '_' then '-' else c
  }

  function MapChars(f: char -> char, s: string): (r: string)
    ensures |r| == |s|
    ensures forall i :: 0 <= i < |s| ==> r[i] == f(s[i])
  {
    seq(|s|, i requires 0 <= i < |s| => f(s[i]))
  }

  predicate HasUpper(s: string) {
    exists i :: 0 <= i < |s| && 'A' <= s[i] <= 'Z'
  }

  /** Length of the match of `^[^ \(]+`. */
  function PrefixLength(s: string): (n: nat)
    ensures n <= |s|
    ensures forall i :: 0 <= i < n ==> s[i] != ' ' && s[i] != '('
    ensures n < |s| ==> s[n] == ' ' || s[n] == '('
  {
    if s == "" || s[0] == ' ' || s[0] == '(' then 0 else 1 + PrefixLength(s[1..])
  }

  function NamePrefix(s: string): string {
    s[..PrefixLength(s)]
  }

  function Without(s: string, set_: string): string {
    if s == "" then ""
    else if s[0] in set_ then Without(s[1..], set_)
    else [s[0]] + Without(s[1..], set_)
  }

  function TrimCut(s: string): (r: string)
    ensures |r| <= |s| && r == s[..|r|]
  {
    if s != "" && s[|s| - 1] in " \t\r\n" then TrimCut(s[..|s| - 1]) else s
  }

  /** `\s` of the regular expressions, which leaves out the vertical tab. */
  predicate PatternSpace(c: char) {
    c in " \t\n\r" || c == 12 as char
  }

  function VisibleLength(s: string): (n: nat)
    ensures n <= |s|
  {
    if s == "" || PatternSpace(s[0]) then 0 else 1 + VisibleLength(s[1..])
  }

  function SpaceLength(s: string): (n: nat)
    ensures n <= |s|
  {
    if s != "" && PatternSpace(s[0]) then 1 + SpaceLength(s[1..]) else 0
  }

  /** The language `^(\S+)\s+\(OP (.+)\)$` for a fixed operator: the name and the version. */
  function MatchRelation(s: string, operator: string): Option<(string, string)> {
    var n := VisibleLength(s);
    var k := SpaceLength(s[n..]);
    var rest := s[n + k..];
    var open := "(" + operator + " ";
    if n == 0 || k == 0 || !HasPrefix(rest, open) || |rest| < |open| + 2 || rest[|rest| - 1] != ')' then None
    else
      var inner := rest[|open|..|rest| - 1];
      if '\n' in inner then None else Some((s[..n], inner))
  }

  function ReplaceFirst(s: string, old_: string, new_: string): string
    requires old_ != ""
  {
    var p := FindSub(s, old_);
    if p < |s| then s[..p] + new_ + s[p + |old_|..] else s
  }

  function NumericVersion(version: string): (numbers: seq<int>)
    ensures numbers != []
  {
    Atois(Split(version, '.'))
  }

  function Atois(parts: seq<string>): (numbers: seq<int>)
    ensures |numbers| == |parts|
    ensures forall i :: 0 <= i < |parts| ==> numbers[i] == ParseInt(parts[i]).OrClamped()
  {
    if parts == [] then [] else [ParseInt(parts[0]).OrClamped()] + Atois(parts[1..])
  }

  method ReadNumericVersion(version: string) returns (numbers: seq<int>)
    ensures numbers == NumericVersion(version)
  {
    var parts := Split(version, '.');
    numbers := [];
    for position := 0 to |parts|
      invariant |numbers| == position
      invariant forall j :: 0 <= j < position ==> numbers[j] == ParseInt(parts[j]).OrClamped()
    {
      numbers := numbers + [ParseInt(parts[position]).OrClamped()];
    }
  }

  function Itoas(numbers: seq<int>): seq<string> {
    if numbers == [] then [] else [Itoa(numbers[0])] + Itoas(numbers[1..])
  }

  function JoinNumericVersion(numbers: seq<int>): string {
    Join(Itoas(numbers), ".")
  }

  /** The upper bound of `~>`: the last segment but one grows, the last becomes zero. */
  function PessimisticBound(numbers: seq<int>): (r: seq<int>)
    requires numbers != []
    ensures |r| == |numbers|
  {
    var at := if |numbers| >= 2 then |numbers| - 2 else 0;
    numbers[at := Increment64(numbers[at])][|numbers| - 1 := 0]
  }

  function IterationBound(numbers: seq<int>): seq<int>
    requires numbers != []
  {
    numbers[|numbers| - 1 := Increment64(numbers[|numbers| - 1])]
  }

  function Bound(name: string, operator: string, version: string): string {
    name + " (" + operator + " " + version + ")"
  }

  function Range(name: string, version: string, bound: seq<int>): seq<string> {
    [Bound(name, ">=", version), Bound(name, "<<", JoinNumericVersion(bound))]
  }

  /** An entry in parenthesised form, with a lower-case name and dashes for underscores. */
  function Canonicalised(dependency: string): string {
    var parts := Fields(dependency);
    var form :=
      if !HasMark(dependency) && |parts| >= 3
      then parts[0] + " (" + Debianize(parts[1]) + " " + parts[2] + ")"
      else dependency;
    var name := NamePrefix(form);
    var lowered := if HasUpper(name) then MapChars(Lower, name) + form[|name|..] else form;
    MapChars(Dashed, lowered)
  }

  function PessimisticParts(dependency: string): seq<string> {
    Fields(Without(dependency, "()~>"))
  }

  predicate IsPessimistic(dependency: string) {
    HasSub(dependency, "(~>") && |PessimisticParts(dependency)| >= 2
  }

  function Normalized(dependency: string, ignoreIteration: bool): (seq<string>, string) {
    var d := Canonicalised(dependency);
    if IsPessimistic(d) then
      var parts := PessimisticParts(d);
      (Range(parts[0], parts[1], PessimisticBound(NumericVersion(parts[1]))), "")
    else if MatchRelation(d, "!=").Some? then ([], ReplaceFirst(d, "!=", "="))
    else if ignoreIteration && MatchRelation(d, "=").Some? then
      var m := MatchRelation(d, "=").value;
      (Range(m.0, m.1, IterationBound(NumericVersion(m.1))), "")
    else ([TrimCut(d)], "")
  }

  /** The entries of `Depends` and the entries that move to `Conflicts`. */
  function NormalizedAll(dependencies: seq<string>, ignoreIteration: bool): (seq<string>, seq<string>) {
    if dependencies == [] then ([], [])
    else
      var first := Normalized(dependencies[0], ignoreIteration);
      var rest := NormalizedAll(dependencies[1..], ignoreIteration);
      (first.0 + rest.0, (if first.1 != "" then [first.1] else []) + rest.1)
  }

  method Canonicalise(dependency: string) returns (dep: string)
    ensures dep == Canonicalised(dependency)
  {
    dep := dependency;
    if !HasMark(dep) {
      var parts := Fields(dep);
      if |parts| >= 3 {
        dep := parts[0] + " (" + Debianize(parts[1]) + " " + parts[2] + ")";
      }
    }
    var name := NamePrefix(dep);
    if name != "" && HasUpper(name) {
      dep := MapChars(Lower, name) + dep[|name|..];
    }
    dep := MapChars(Dashed, dep);
  }

  method RaisePessimistic(version: string) returns (next: seq<int>)
    ensures next == PessimisticBound(NumericVersion(version))
  {
    next := ReadNumericVersion(version);
    var increment := |next| - 2;
    if increment < 0 {
      increment := 0;
    }
    next := next[increment := Increment64(next[increment])];
    next := next[|next| - 1 := 0];
  }

  method RaiseIteration(version: string) returns (next: seq<int>)
    ensures next == IterationBound(NumericVersion(version))
  {
    next := ReadNumericVersion(version);
    next := next[|next| - 1 := Increment64(next[|next| - 1])];
  }

  method NormalizeDependency(dependency: string, ignoreIteration: bool)
    returns (normalized: seq<string>, conflict: string)
    ensures (normalized, conflict) == Normalized(dependency, ignoreIteration)
  {
    var dep := Canonicalise(dependency);
    if HasSub(dep, "(~>") {
      var parts := Fields(Without(dep, "()~>"));
      if |parts| >= 2 {
        var next := RaisePessimistic(parts[1]);
        return Range(parts[0], parts[1], next), "";
      }
    }
    if MatchRelation(dep, "!=").Some? {
      return [], ReplaceFirst(dep, "!=", "=");
    }
    if ignoreIteration {
      var exact := MatchRelation(dep, "=");
      if exact.Some? {
        var next := RaiseIteration(exact.value.1);
        return Range(exact.value.0, exact.value.1, next), "";
      }
    }
    return [TrimCut(dep)], "";
  }

  // ---- a normalised entry is a fixed point

  predicate SameClass(c: char, d: char) {
    && IsSpace(c) == IsSpace(d)
    && (c == '(' <==> d == '(') && (c == ',' <==> d == ',') && (c == '|' <==> d == '|') && (c == ' ' <==> d == ' ')
  }

  /** Texts that differ only in letters and dashes: the scanners see the same structure. */
  ghost predicate SameShape(s: string, t: string) {
    |s| == |t| && forall i :: 0 <= i < |s| ==> SameClass(s[i], t[i])
  }

  lemma {:induction false} SameShapeTrimLeft(s: string, t: string)
    requires SameShape(s, t)
    ensures SameShape(TrimLeft(s), TrimLeft(t))
  {
    if s != "" && IsSpace(s[0]) {
      SameShapeTrimLeft(s[1..], t[1..]);
    }
  }

  lemma {:induction false} SameShapeFields(s: string, t: string)
    requires SameShape(s, t)
    ensures |Fields(s)| == |Fields(t)|
    decreases |s|
  {
    var s', t' := TrimLeft(s), TrimLeft(t);
    SameShapeTrimLeft(s, t);
    if s' != "" {
      var n := WordLength(s');
      forall i | 0 <= i < n ensures !IsSpace(t'[..n][i]) {
        assert SameClass(s'[i], t'[i]);
      }
      WordLengthIs(t', n);
      SameShapeFields(s'[n..], t'[n..]);
    }
  }

  lemma {:induction false} SameShapeMarks(s: string, t: string)
    requires SameShape(s, t)
    ensures HasMark(s) == HasMark(t) && Trimmed(s) == Trimmed(t) && (',' in s <==> ',' in t)
  {}

  lemma {:induction false} PrefixLengthIs(s: string, n: nat)
    requires n <= |s| && forall i :: 0 <= i < n ==> s[i] != ' ' && s[i] != '('
    requires n == |s| || s[n] == ' ' || s[n] == '('
    ensures PrefixLength(s) == n
  {
    if n > 0 {
      PrefixLengthIs(s[1..], n - 1);
    }
  }

  lemma {:induction false} SameShapePrefix(s: string, t: string)
    requires SameShape(s, t)
    ensures PrefixLength(s) == PrefixLength(t)
  {
    PrefixLengthIs(t, PrefixLength(s));
  }

  /** An entry that canonicalisation leaves alone. */
  ghost predicate Settled(s: string) {
    && (HasMark(s) || |Fields(s)| < 3)
    && !HasUpper(NamePrefix(s))
    && '_' !in s
  }

  lemma {:induction false} SettledIsFixed(s: string)
    requires Settled(s)
    ensures Canonicalised(s) == s
  {
    assert MapChars(Dashed, s) == s;
  }

  lemma {:induction false} ParenthesisedForm(a: string, b: string, c: string)
    requires Word(a)
    ensures var form := a + " (" + b + " " + c + ")";
            HasMark(form) && Trimmed(form) && form != ""
    ensures ',' !in a && ',' !in b && ',' !in c ==> ',' !in a + " (" + b + " " + c + ")"
  {
    var form := a + " (" + b + " " + c + ")";
    assert form[|a| + 1] == '(';
    assert form[0] == a[0];
  }

  function LoweredName(s: string): string {
    MapChars(Lower, NamePrefix(s)) + s[|NamePrefix(s)|..]
  }

  lemma {:induction false} LoweredNameShape(s: string)
    ensures SameShape(s, LoweredName(s))
    ensures !HasUpper(NamePrefix(s)) ==> LoweredName(s) == s
    ensures !HasUpper(NamePrefix(LoweredName(s)))
    ensures HasUpper(NamePrefix(s)) ==> LoweredName(s) != s
  {
    var name := NamePrefix(s);
    var t := LoweredName(s);
    SameShapePrefix(s, t);
    assert t[..|name|] == MapChars(Lower, name);
    if !HasUpper(name) {
      assert MapChars(Lower, name) == name;
    } else {
      var i :| 0 <= i < |name| && 'A' <= name[i] <= 'Z';
      assert t[i] != s[i];
    }
  }

  lemma {:induction false} DashedShape(s: string)
    ensures SameShape(s, MapChars(Dashed, s))
    ensures !HasUpper(NamePrefix(s)) ==> !HasUpper(NamePrefix(MapChars(Dashed, s)))
    ensures '_' !in MapChars(Dashed, s)
  {
    var t := MapChars(Dashed, s);
    SameShapePrefix(s, t);
    assert forall i :: 0 <= i < PrefixLength(s) ==> NamePrefix(t)[i] == Dashed(NamePrefix(s)[i]);
  }

  function FormOf(dependency: string): string {
    var parts := Fields(dependency);
    if !HasMark(dependency) && |parts| >= 3
    then parts[0] + " (" + Debianize(parts[1]) + " " + parts[2] + ")"
    else dependency
  }

  lemma {:induction false} CanonicalisedInSteps(dependency: string)
    ensures Canonicalised(dependency) == MapChars(Dashed, LoweredName(FormOf(dependency)))
  {
    LoweredNameShape(FormOf(dependency));
  }

  lemma {:induction false} FieldsChars(s: string, c: char)
    requires c !in s
    ensures Free(Fields(s), c)
    decreases |s|
  {
    var t := TrimLeft(s);
    TrimLeftChars(s, c);
    if t != "" {
      FieldsChars(t[WordLength(t)..], c);
    }
  }

  lemma {:induction false} FormSettles(dependency: string)
    requires dependency != "" && Trimmed(dependency)
    ensures var form := FormOf(dependency);
            form != "" && Trimmed(form) && (HasMark(form) || |Fields(form)| < 3)
            && (',' !in dependency ==> ',' !in form)
  {
    var parts := Fields(dependency);
    if !HasMark(dependency) && |parts| >= 3 {
      assert Word(parts[0]);
      FieldsChars(dependency, ',');
      ParenthesisedForm(parts[0], Debianize(parts[1]), parts[2]);
    }
  }

  lemma {:induction false} CanonicalisedSettles(dependency: string)
    requires dependency != "" && Trimmed(dependency)
    ensures var d := Canonicalised(dependency);
            Settled(d) && d != "" && Trimmed(d) && (',' !in dependency ==> ',' !in d)
  {
    var form := FormOf(dependency);
    var lowered := LoweredName(form);
    CanonicalisedInSteps(dependency);
    FormSettles(dependency);
    LoweredNameShape(form);
    DashedShape(lowered);
    SameShapeMarks(form, lowered);
    SameShapeMarks(lowered, MapChars(Dashed, lowered));
    SameShapeFields(form, lowered);
    SameShapeFields(lowered, MapChars(Dashed, lowered));
  }

  lemma {:induction false} TrimCutFixed(s: string)
    requires Trimmed(s)
    ensures TrimCut(s) == s
  {}

  /** Entries that are neither a `~>` range nor an inequality settle after one normalisation. */
  lemma {:induction false} OrdinaryEntryStable(dependency: string)
    requires dependency != "" && Trimmed(dependency)
    requires !IsPessimistic(Canonicalised(dependency))
    requires MatchRelation(Canonicalised(dependency), "!=").None?
    ensures var d := Canonicalised(dependency);
            Normalized(dependency, false) == ([d], "") && Normalized(d, false) == ([d], "")
  {
    var d := Canonicalised(dependency);
    CanonicalisedSettles(dependency);
    SettledIsFixed(d);
    TrimCutFixed(d);
  }

  lemma {:induction false} WithoutChars(s: string, set_: string)
    ensures forall c :: c in Without(s, set_) ==> c in s && c !in set_
  {
    if s != "" {
      WithoutChars(s[1..], set_);
    }
  }

  lemma {:induction false} PrefixChars(s: string, prefix: string)
    requires HasPrefix(s, prefix)
    ensures forall c :: c in prefix ==> c in s
  {}

  lemma {:induction false} FindSubAbsent(s: string, pattern: string, c: char)
    requires c in pattern && c !in s
    ensures !HasSub(s, pattern)
  {
    if s != "" {
      if HasPrefix(s, pattern) {
        PrefixChars(s, pattern);
      }
      FindSubAbsent(s[1..], pattern, c);
    }
  }

  lemma {:induction false} VisibleLengthIs(s: string, n: nat)
    requires n < |s| && !HasSpace(s[..n]) && PatternSpace(s[n])
    ensures VisibleLength(s) == n
  {
    if n > 0 {
      assert s[..n][0] == s[0];
      assert s[1..][..n - 1] == s[..n][1..];
      VisibleLengthIs(s[1..], n - 1);
    }
  }

  predicate BoundOperator(operator: string) {
    operator == ">=" || operator == "<<"
  }

  predicate BoundWord(w: string) {
    Word(w) && '(' !in w && ')' !in w && '~' !in w && '>' !in w && '_' !in w
  }

  lemma {:induction false} BoundShape(name: string, operator: string, version: string)
    requires BoundWord(name) && BoundWord(version) && BoundOperator(operator)
    ensures var n := Bound(name, operator, version);
            && n != "" && Trimmed(n) && HasMark(n) && '_' !in n && '~' !in n
            && n[|name|..] == " (" + operator + " " + version + ")"
            && PrefixLength(n) == |name| && NamePrefix(n) == name
  {
    var n := Bound(name, operator, version);
    ParenthesisedForm(name, operator, version);
    assert n == name + (" (" + operator + " " + version + ")");
    PrefixLengthIs(n, |name|);
  }

  lemma {:induction false} NoRelation(s: string, n: nat, operator: string)
    requires VisibleLength(s) == n && n + 2 < |s| && s[n] == ' ' && s[n + 1] == '(' && operator != ""
    requires s[n + 2] != operator[0]
    ensures MatchRelation(s, operator) == None
  {
    assert s[n..][0] == ' ' && s[n..][1] == '(';
    assert SpaceLength(s[n..]) == 1 by {
      assert s[n..][1..][0] == '(';
    }
    assert s[n + 1..][1] == s[n + 2];
  }

  lemma {:induction false} BoundIsNoInequality(name: string, operator: string, version: string)
    requires BoundWord(name) && BoundWord(version) && BoundOperator(operator)
    ensures MatchRelation(Bound(name, operator, version), "!=") == None
  {
    var n := Bound(name, operator, version);
    assert n[..|name|] == name;
    VisibleLengthIs(n, |name|);
    NoRelation(n, |name|, "!=");
  }

  lemma {:induction false} LowerBoundNameStable(name: string, operator: string, version: string)
    requires BoundWord(name) && BoundWord(version) && BoundOperator(operator) && !HasUpper(name)
    ensures var n := Bound(name, operator, version); Normalized(n, false) == ([n], "")
  {
    var n := Bound(name, operator, version);
    BoundShape(name, operator, version);
    SettledIsFixed(n);
    FindSubAbsent(n, "(~>", '~');
    BoundIsNoInequality(name, operator, version);
    TrimCutFixed(n);
  }

  lemma {:induction false} UpperNameChanges(n: string)
    requires HasMark(n) && '_' !in n && HasUpper(NamePrefix(n))
    ensures Canonicalised(n) != n && |Canonicalised(n)| == |n|
  {
    CanonicalisedInSteps(n);
    LoweredNameShape(n);
    var i :| 0 <= i < |n| && LoweredName(n)[i] != n[i];
    assert n[i] in n;
    assert Canonicalised(n)[i] == Dashed(LoweredName(n)[i]);
  }

  lemma {:induction false} ChangedIsNotFixed(n: string)
    requires Canonicalised(n) != n && |Canonicalised(n)| == |n|
    ensures Normalized(n, false) != ([n], "")
  {}

  /** A bound reads as itself exactly when its package name has no upper-case letter. */
  lemma {:induction false} BoundStable(name: string, operator: string, version: string)
    requires BoundWord(name) && BoundWord(version) && BoundOperator(operator)
    ensures var n := Bound(name, operator, version);
            Normalized(n, false) == ([n], "") <==> !HasUpper(NamePrefix(n))
  {
    var n := Bound(name, operator, version);
    BoundShape(name, operator, version);
    if HasUpper(name) {
      UpperNameChanges(n);
      ChangedIsNotFixed(n);
    } else {
      LowerBoundNameStable(name, operator, version);
    }
  }

  lemma {:induction false} LowerBoundWord(name: string)
    requires BoundWord(name)
    ensures var lowered := MapChars(Lower, name); BoundWord(lowered) && !HasUpper(lowered)
  {}

  lemma {:induction false} DashedAlready(s: string)
    requires '_' !in s
    ensures MapChars(Dashed, s) == s
  {
    assert forall i :: 0 <= i < |s| ==> s[i] in s;
  }

  lemma {:induction false} NormalizedOrdinary(e: string, d: string)
    requires Canonicalised(e) == d && !IsPessimistic(d) && MatchRelation(d, "!=").None? && TrimCut(d) == d
    ensures Normalized(e, false) == ([d], "")
  {}

  lemma {:induction false} NormalizedRange(e: string, d: string, name: string, version: string)
    requires Canonicalised(e) == d && HasSub(d, "(~>") && PessimisticParts(d) == [name, version]
    ensures Normalized(e, false) == (Range(name, version, PessimisticBound(NumericVersion(version))), "")
  {}

  /** Debian's operator for one of an entry of three words. */
  predicate Debian(operator: string, debian: string) {
    || (operator == "<" && debian == "<<")
    || (operator == ">" && debian == ">>")
    || (operator in ["<<", "<=", "=", ">=", ">>", "!="] && debian == operator)
  }

  /** A word in which nothing marks a relation. */
  predicate PlainWord(w: string) {
    Word(w) && !HasMark(w) && '_' !in w && !HasUpper(w)
  }

  lemma {:induction false} OperatorPlain(operator: string, debian: string)
    requires Debian(operator, debian)
    ensures Word(operator) && !HasMark(operator) && Debianize(operator) == debian && '_' !in debian
  {}

  lemma {:induction false} MarkFree(a: string, b: string, c: string)
    requires !HasMark(a) && !HasMark(b) && !HasMark(c)
    ensures !HasMark(a + " " + b + " " + c)
  {}

  lemma {:induction false} ThreeFields(a: string, b: string, c: string)
    requires Word(a) && Word(b) && Word(c)
    ensures Fields(a + " " + b + " " + c) == [a, b, c]
  {
    FieldsCons(" ", c, "");
    AppendEmpty(" " + c);
    FieldsCons(" ", b, " " + c);
    FieldsCons("", a, " " + b + (" " + c));
    ThreeApart(a, b, c);
  }

  lemma {:induction false} ThreeApart(a: string, b: string, c: string)
    ensures a + " " + b + " " + c == "" + a + (" " + b + (" " + c))
  {}

  lemma {:induction false} BoundNamePrefix(name: string, operator: string, version: string)
    requires Word(name) && '(' !in name
    ensures NamePrefix(Bound(name, operator, version)) == name
  {
    var n := Bound(name, operator, version);
    assert forall i :: 0 <= i < |name| ==> name[i] in name;
    PrefixLengthIs(n, |name|);
    assert n[..|name|] == name;
  }

  lemma {:induction false} FormIsBound(entry: string, name: string, operator: string, version: string)
    requires !HasMark(entry) && Fields(entry) == [name, operator, version]
    ensures FormOf(entry) == Bound(name, Debianize(operator), version)
  {}

  lemma {:induction false} PlainForm(entry: string, form: string)
    requires FormOf(entry) == form && !HasUpper(NamePrefix(form)) && '_' !in form
    ensures Canonicalised(entry) == form
  {
    CanonicalisedInSteps(entry);
    LoweredNameShape(form);
    DashedAlready(form);
  }

  /** An entry of three words is a relation in parentheses, in which `<` and `>` are strict. */
  lemma {:induction false} ThreeWordsRelate(name: string, operator: string, debian: string, version: string)
    requires PlainWord(name) && PlainWord(version) && Debian(operator, debian)
    ensures Canonicalised(name + " " + operator + " " + version) == name + " (" + debian + " " + version + ")"
  {
    var entry, form := name + " " + operator + " " + version, Bound(name, debian, version);
    OperatorPlain(operator, debian);
    MarkFree(name, operator, version);
    ThreeFields(name, operator, version);
    FormIsBound(entry, name, operator, version);
    BoundNamePrefix(name, debian, version);
    PlainForm(entry, form);
  }

  lemma {:induction false} FindSubFirst(s: string, i: nat, pattern: string)
    requires i < |s| && pattern != "" && HasPrefix(s[i..], pattern)
    requires forall j :: 0 <= j < i ==> s[j] != pattern[0]
    ensures FindSub(s, pattern) == i
  {
    if i > 0 {
      assert s[..|pattern|][0] == s[0] || |s| < |pattern|;
      assert s[1..][i - 1..] == s[i..];
      FindSubFirst(s[1..], i - 1, pattern);
    }
  }

  lemma {:induction false} MatchAt(s: string, n: nat, operator: string, inner: string)
    requires 0 < n < |s| && VisibleLength(s) == n && SpaceLength(s[n..]) == 1 && n + 1 <= |s|
    requires s[n + 1..] == "(" + operator + " " + (inner + ")") && inner != "" && '\n' !in inner
    ensures MatchRelation(s, operator) == Some((s[..n], inner))
  {
    var rest, open := s[n + 1..], "(" + operator + " ";
    assert rest[..|open|] == open && rest[|rest| - 1] == ')';
    assert rest[|open|..|rest| - 1] == inner;
  }

  lemma {:induction false} OneSpace(s: string)
    requires |s| >= 2 && s[0] == ' ' && s[1] == '('
    ensures SpaceLength(s) == 1
  {
    assert s[1..][0] == '(';
  }

  lemma {:induction false} RelationIs(name: string, operator: string, version: string)
    requires Word(name) && Word(version)
    ensures MatchRelation(Bound(name, operator, version), operator) == Some((name, version))
  {
    var d, n := Bound(name, operator, version), |name|;
    assert d[..n] == name;
    VisibleLengthIs(d, n);
    assert d[n..] == " (" + operator + " " + version + ")";
    OneSpace(d[n..]);
    assert d[n + 1..] == "(" + operator + " " + (version + ")");
    MatchAt(d, n, operator, version);
  }

  lemma {:induction false} InequalityReplaced(name: string, version: string)
    requires '!' !in name
    ensures ReplaceFirst(Bound(name, "!=", version), "!=", "=") == Bound(name, "=", version)
  {
    var d, i := Bound(name, "!=", version), |name| + 2;
    assert d == name + " (" + ("!=" + (" " + version + ")"));
    assert d[i..] == "!=" + (" " + version + ")");
    assert d[i..][..2] == "!=";
    forall j | 0 <= j < i ensures d[j] != '!' {
      if j < |name| {
        assert d[j] == name[j];
      }
    }
    FindSubFirst(d, i, "!=");
    assert d[..i] == name + " (" && d[i + 2..] == " " + version + ")";
  }

  lemma {:induction false} NormalizedInequality(e: string, d: string)
    requires Canonicalised(e) == d && !HasSub(d, "(~>") && MatchRelation(d, "!=").Some?
    ensures Normalized(e, false) == ([], ReplaceFirst(d, "!=", "="))
  {}

  lemma {:induction false} BoundHasNoRange(name: string, version: string)
    requires '>' !in name && '>' !in version
    ensures !HasSub(Bound(name, "!=", version), "(~>")
  {
    FindSubAbsent(Bound(name, "!=", version), "(~>", '>');
  }

  lemma {:induction false} InequalityMoves(e: string, d: string, name: string, version: string)
    requires Word(name) && Word(version) && '!' !in name && '>' !in name && '>' !in version
    requires Canonicalised(e) == d && d == Bound(name, "!=", version)
    ensures Normalized(e, false) == ([], Bound(name, "=", version))
  {
    BoundHasNoRange(name, version);
    RelationIs(name, "!=", version);
    InequalityReplaced(name, version);
    NormalizedInequality(e, d);
  }

  /** An entry `name != version` leaves the list of dependencies and becomes a conflict with that version. */
  lemma {:induction false} InequalityConflicts(name: string, version: string)
    requires PlainWord(name) && PlainWord(version) && '!' !in name && '>' !in name && '>' !in version
    ensures Normalized(name + " " + "!=" + " " + version, false) == ([], name + " (" + "=" + " " + version + ")")
  {
    ThreeWordsRelate(name, "!=", "!=", version);
    InequalityMoves(name + " " + "!=" + " " + version, Bound(name, "!=", version), name, version);
  }

  lemma {:induction false} LoweredBound(name: string, operator: string, version: string)
    requires BoundWord(name) && BoundWord(version) && BoundOperator(operator)
    ensures Canonicalised(Bound(name, operator, version)) == Bound(MapChars(Lower, name), operator, version)
  {
    var n, lowered := Bound(name, operator, version), MapChars(Lower, name);
    BoundShape(name, operator, version);
    LowerBoundWord(name);
    BoundShape(lowered, operator, version);
    CanonicalisedInSteps(n);
    FormOfMarked(n);
    BoundInTwo(lowered, operator, version);
    DashedAlready(Bound(lowered, operator, version));
  }

  lemma {:induction false} FormOfMarked(s: string)
    requires HasMark(s)
    ensures FormOf(s) == s
  {}

  lemma {:induction false} BoundInTwo(name: string, operator: string, version: string)
    ensures Bound(name, operator, version) == name + (" (" + operator + " " + version + ")")
  {}

  /** A bound normalises to the same bound with the name in lower case. */
  lemma {:induction false} BoundLowered(name: string, operator: string, version: string)
    requires BoundWord(name) && BoundWord(version) && BoundOperator(operator)
    ensures Normalized(Bound(name, operator, version), false) == ([Bound(MapChars(Lower, name), operator, version)], "")
  {
    var lowered := MapChars(Lower, name);
    var m := Bound(lowered, operator, version);
    LoweredBound(name, operator, version);
    LowerBoundWord(name);
    BoundShape(lowered, operator, version);
    FindSubAbsent(m, "(~>", '~');
    BoundIsNoInequality(lowered, operator, version);
    TrimCutFixed(m);
    NormalizedOrdinary(Bound(name, operator, version), m);
  }

  lemma {:induction false} PessimisticWords(d: string)
    requires '_' !in d && IsPessimistic(d)
    ensures var parts := PessimisticParts(d); BoundWord(parts[0]) && BoundWord(parts[1])
    ensures ',' !in d ==> var parts := PessimisticParts(d); ',' !in parts[0] && ',' !in parts[1]
  {
    var cleaned := Without(d, "()~>");
    var parts := PessimisticParts(d);
    WithoutChars(d, "()~>");
    FieldsChars(cleaned, '(');
    FieldsChars(cleaned, ')');
    FieldsChars(cleaned, '~');
    FieldsChars(cleaned, '>');
    FieldsChars(cleaned, '_');
    if ',' !in d {
      FieldsChars(cleaned, ',');
    }
  }

  ghost predicate StableAt(n: string) {
    Normalized(n, false) == ([n], "") <==> !HasUpper(NamePrefix(n))
  }

  /** What is true of an entry that came out of one normalisation. */
  ghost predicate Entryish(n: string) {
    n != "" && Trimmed(n) && StableAt(n)
  }

  lemma {:induction false} BoundEntryish(name: string, operator: string, version: string)
    requires BoundWord(name) && BoundWord(version) && BoundOperator(operator)
    ensures Entryish(Bound(name, operator, version))
  {
    BoundShape(name, operator, version);
    BoundStable(name, operator, version);
  }

  lemma {:induction false} RangeEntryish(name: string, version: string, bound: seq<int>)
    requires BoundWord(name) && BoundWord(version) && bound != []
    ensures var r := Range(name, version, bound); Entryish(r[0]) && Entryish(r[1])
  {
    NumericIsBoundWord(bound);
    BoundEntryish(name, ">=", version);
    BoundEntryish(name, "<<", JoinNumericVersion(bound));
  }

  lemma {:induction false} PessimisticOnce(d: string)
    requires '_' !in d && IsPessimistic(d)
    ensures var parts := PessimisticParts(d);
            var r := Range(parts[0], parts[1], PessimisticBound(NumericVersion(parts[1])));
            Entryish(r[0]) && Entryish(r[1])
  {
    var parts := PessimisticParts(d);
    PessimisticWords(d);
    RangeEntryish(parts[0], parts[1], PessimisticBound(NumericVersion(parts[1])));
  }

  lemma {:induction false} OrdinaryOnce(dependency: string)
    requires dependency != "" && Trimmed(dependency)
    requires !IsPessimistic(Canonicalised(dependency))
    requires MatchRelation(Canonicalised(dependency), "!=").None?
    ensures Entryish(Canonicalised(dependency))
  {
    CanonicalisedSettles(dependency);
    OrdinaryEntryStable(dependency);
  }

  /** Every entry one normalisation leaves is again an entry, and normalising it once more changes nothing exactly
      when its name has no upper-case letter. */
  lemma {:induction false} NormalizedOnce(dependency: string)
    requires dependency != "" && Trimmed(dependency)
    ensures var kept := Normalized(dependency, false).0; forall i :: 0 <= i < |kept| ==> Entryish(kept[i])
  {
    var d := Canonicalised(dependency);
    if IsPessimistic(d) {
      CanonicalisedSettles(dependency);
      PessimisticOnce(d);
    } else if MatchRelation(d, "!=").None? {
      OrdinaryEntryStable(dependency);
      OrdinaryOnce(dependency);
    }
  }

  /** Only the bounds of a `~>` range whose name starts with a stripped character can keep an upper-case name. */
  lemma {:induction false} OnlyRangesKeepUpperCase(dependency: string)
    requires dependency != "" && Trimmed(dependency)
    requires !IsPessimistic(Canonicalised(dependency))
    ensures var kept := Normalized(dependency, false).0; forall i :: 0 <= i < |kept| ==> !HasUpper(NamePrefix(kept[i]))
  {
    CanonicalisedSettles(dependency);
    if MatchRelation(Canonicalised(dependency), "!=").None? {
      OrdinaryEntryStable(dependency);
    }
  }

  predicate VersionChar(c: char) {
    IsDigit(c) || c == '-' || c == '.'
  }

  lemma {:induction false} ItoaChars(n: int)
    ensures Itoa(n) != "" && forall i :: 0 <= i < |Itoa(n)| ==> IsDigit(Itoa(n)[i]) || Itoa(n)[i] == '-'
  {}

  predicate DottedText(s: string) {
    s != "" && forall i :: 0 <= i < |s| ==> VersionChar(s[i])
  }

  lemma {:induction false} DottedTextJoin(a: string, b: string)
    requires DottedText(a) && DottedText(b)
    ensures DottedText(a + "." + b)
  {}

  lemma {:induction false} JoinNumericChars(numbers: seq<int>)
    requires numbers != []
    ensures DottedText(JoinNumericVersion(numbers))
  {
    ItoaChars(numbers[0]);
    if |numbers| > 1 {
      JoinNumericChars(numbers[1..]);
      assert Itoas(numbers)[1..] == Itoas(numbers[1..]);
      DottedTextJoin(Itoa(numbers[0]), JoinNumericVersion(numbers[1..]));
    } else {
      assert Itoas(numbers[1..]) == [];
    }
  }

  lemma {:induction false} NumericIsBoundWord(numbers: seq<int>)
    requires numbers != []
    ensures BoundWord(JoinNumericVersion(numbers)) && ',' !in JoinNumericVersion(numbers)
  {
    JoinNumericChars(numbers);
  }

  // ---- a whole Depends value

  /** An entry of a `Depends` list whose normal form settles: no surrounding white space, no comma, and a lower-case
      package name in the bounds of a `~>` range. */
  predicate SteadyEntry(e: string) {
    && e != "" && Trimmed(e) && ',' !in e
    && var d := Canonicalised(e); IsPessimistic(d) ==> !HasUpper(PessimisticParts(d)[0])
  }

  /** An entry that rendering prints as it stands. */
  predicate SettledEntry(e: string) {
    e != "" && Trimmed(e) && ',' !in e && Normalized(e, false) == ([e], "")
  }

  /** An entry that prints as itself is no `~>` range any more. */
  lemma {:induction false} SettledIsSteady(e: string)
    requires SettledEntry(e)
    ensures SteadyEntry(e)
  {
    assert !IsPessimistic(Canonicalised(e));
  }

  ghost predicate AllSettled(entries: seq<string>) {
    forall i :: 0 <= i < |entries| ==> SettledEntry(entries[i])
  }

  lemma {:induction false} BoundSettled(name: string, operator: string, version: string)
    requires BoundWord(name) && BoundWord(version) && BoundOperator(operator) && !HasUpper(name)
    requires ',' !in name && ',' !in version
    ensures SettledEntry(Bound(name, operator, version))
  {
    BoundShape(name, operator, version);
    BoundStable(name, operator, version);
    ParenthesisedForm(name, operator, version);
  }

  lemma {:induction false} RangeSettled(name: string, version: string, bound: seq<int>)
    requires BoundWord(name) && BoundWord(version) && bound != [] && !HasUpper(name)
    requires ',' !in name && ',' !in version
    ensures var r := Range(name, version, bound); SettledEntry(r[0]) && SettledEntry(r[1])
  {
    NumericIsBoundWord(bound);
    BoundSettled(name, ">=", version);
    BoundSettled(name, "<<", JoinNumericVersion(bound));
  }

  /** What a parsed list is made of: a trimmed entry without a comma. */
  predicate ListEntry(e: string) {
    e != "" && Trimmed(e) && ',' !in e
  }

  lemma {:induction false} UpperRangeUnsettled(name: string, version: string, bound: seq<int>)
    requires BoundWord(name) && BoundWord(version) && bound != [] && HasUpper(name)
    ensures !SettledEntry(Range(name, version, bound)[0])
  {
    BoundShape(name, ">=", version);
    BoundStable(name, ">=", version);
  }

  /** One normalisation settles an entry if and only if it is no `~>` range with an upper-case name. */
  lemma {:induction false} SteadyEntrySettles(e: string)
    requires ListEntry(e)
    ensures AllSettled(Normalized(e, false).0) <==> SteadyEntry(e)
  {
    var d := Canonicalised(e);
    CanonicalisedSettles(e);
    if IsPessimistic(d) {
      var parts := PessimisticParts(d);
      var bound := PessimisticBound(NumericVersion(parts[1]));
      PessimisticWords(d);
      if HasUpper(parts[0]) {
        UpperRangeUnsettled(parts[0], parts[1], bound);
      } else {
        RangeSettled(parts[0], parts[1], bound);
      }
    } else if MatchRelation(d, "!=").None? {
      OrdinaryEntryStable(e);
    }
  }

  lemma {:induction false} AllSettledAppend(a: seq<string>, b: seq<string>)
    ensures AllSettled(a + b) <==> AllSettled(a) && AllSettled(b)
  {
    if AllSettled(a + b) {
      assert forall i :: 0 <= i < |a| ==> (a + b)[i] == a[i];
      assert forall i :: 0 <= i < |b| ==> (a + b)[|a| + i] == b[i];
    }
  }

  ghost predicate ListEntries(entries: seq<string>) {
    forall i :: 0 <= i < |entries| ==> ListEntry(entries[i])
  }

  ghost predicate AllSteady(entries: seq<string>) {
    forall i :: 0 <= i < |entries| ==> SteadyEntry(entries[i])
  }

  lemma {:induction false} SteadyListSettles(dependencies: seq<string>)
    requires ListEntries(dependencies)
    ensures AllSettled(NormalizedAll(dependencies, false).0) <==> AllSteady(dependencies)
  {
    if dependencies != [] {
      var first, rest := dependencies[0], dependencies[1..];
      SteadyEntrySettles(first);
      SteadyListSettles(rest);
      AllSettledAppend(Normalized(first, false).0, NormalizedAll(rest, false).0);
      EveryStep(dependencies, SteadyEntry);
    }
  }

  lemma {:induction false} EveryStep(entries: seq<string>, f: string -> bool)
    requires entries != []
    ensures (forall i :: 0 <= i < |entries| ==> f(entries[i]))
            <==> f(entries[0]) && forall i :: 0 <= i < |entries[1..]| ==> f(entries[1..][i])
  {
    assert forall i :: 1 <= i < |entries| ==> entries[i] == entries[1..][i - 1];
    assert forall i :: 0 <= i < |entries[1..]| ==> entries[1..][i] == entries[i + 1];
  }

  /** An entry that one more normalisation keeps as one entry. */
  predicate KeptEntry(e: string) {
    ListEntry(e) && |Normalized(e, false).0| == 1 && Normalized(e, false).1 == ""
  }

  ghost predicate AllKept(entries: seq<string>) {
    forall i :: 0 <= i < |entries| ==> KeptEntry(entries[i])
  }

  lemma {:induction false} BoundKept(name: string, operator: string, version: string)
    requires BoundWord(name) && BoundWord(version) && BoundOperator(operator) && ',' !in name && ',' !in version
    ensures KeptEntry(Bound(name, operator, version))
  {
    BoundShape(name, operator, version);
    BoundLowered(name, operator, version);
    ParenthesisedForm(name, operator, version);
  }

  lemma {:induction false} RangeKept(name: string, version: string, bound: seq<int>)
    requires BoundWord(name) && BoundWord(version) && bound != [] && ',' !in name && ',' !in version
    ensures AllKept(Range(name, version, bound))
  {
    NumericIsBoundWord(bound);
    BoundKept(name, ">=", version);
    BoundKept(name, "<<", JoinNumericVersion(bound));
  }

  lemma {:induction false} OrdinaryKept(e: string)
    requires ListEntry(e) && !IsPessimistic(Canonicalised(e)) && MatchRelation(Canonicalised(e), "!=").None?
    ensures AllKept(Normalized(e, false).0)
  {
    CanonicalisedSettles(e);
    OrdinaryEntryStable(e);
  }

  lemma {:induction false} NormalizedKept(e: string)
    requires ListEntry(e)
    ensures AllKept(Normalized(e, false).0)
  {
    var d := Canonicalised(e);
    if IsPessimistic(d) {
      var parts := PessimisticParts(d);
      CanonicalisedSettles(e);
      PessimisticWords(d);
      RangeKept(parts[0], parts[1], PessimisticBound(NumericVersion(parts[1])));
    } else if MatchRelation(d, "!=").None? {
      OrdinaryKept(e);
    }
  }

  lemma {:induction false} KeptAreEntries(entries: seq<string>)
    requires AllKept(entries)
    ensures ListEntries(entries)
  {
    forall i | 0 <= i < |entries| ensures ListEntry(entries[i]) {
      assert KeptEntry(entries[i]);
    }
  }

  lemma {:induction false} NormalizedAllKept(dependencies: seq<string>)
    requires ListEntries(dependencies)
    ensures AllKept(NormalizedAll(dependencies, false).0)
  {
    if dependencies != [] {
      NormalizedKept(dependencies[0]);
      NormalizedAllKept(dependencies[1..]);
    }
  }

  /** Entries that stay single stay as they are only if each of them does. */
  lemma {:induction false} FixedMeansSettled(entries: seq<string>)
    requires AllKept(entries) && NormalizedAll(entries, false).0 == entries
    ensures AllSettled(entries)
  {
    if entries != [] {
      var first, rest := Normalized(entries[0], false), NormalizedAll(entries[1..], false);
      assert first.0 == [first.0[0]];
      assert first.0 + rest.0 == entries;
      assert (first.0 + rest.0)[0] == first.0[0] == entries[0];
      assert (first.0 + rest.0)[1..] == rest.0;
      assert first == ([entries[0]], "");
      FixedMeansSettled(entries[1..]);
      forall i | 0 <= i < |entries| ensures SettledEntry(entries[i]) {
        if i > 0 {
          assert entries[i] == entries[1..][i - 1];
        }
      }
    }
  }

  lemma {:induction false} NormalizedAllCons(e: string, rest: seq<string>)
    ensures var first := Normalized(e, false);
            NormalizedAll([e] + rest, false)
            == (first.0 + NormalizedAll(rest, false).0,
                (if first.1 != "" then [first.1] else []) + NormalizedAll(rest, false).1)
  {
    assert ([e] + rest)[1..] == rest;
  }

  lemma {:induction false} SettledHead(e: string, rest: seq<string>)
    requires SettledEntry(e) && NormalizedAll(rest, false) == (rest, [])
    ensures NormalizedAll([e] + rest, false) == ([e] + rest, [])
  {
    var first := Normalized(e, false);
    assert first == ([e], "");
    var r := NormalizedAll(rest, false);
    assert r == (rest, []);
    var all := NormalizedAll([e] + rest, false);
    assert all.0 == first.0 + r.0 && all.1 == (if first.1 != "" then [first.1] else []) + r.1
    by { NormalizedAllCons(e, rest); }
    assert all.0 == [e] + rest;
    assert all.1 == [];
    assert all == (all.0, all.1);
  }

  lemma {:induction false} SettledListIsFixed(entries: seq<string>)
    requires AllSettled(entries)
    ensures NormalizedAll(entries, false) == (entries, [])
  {
    if entries != [] {
      SettledListIsFixed(entries[1..]);
      SettledHead(entries[0], entries[1..]);
      assert [entries[0]] + entries[1..] == entries;
    }
  }

  function Indented(entries: seq<string>): (r: seq<string>)
    ensures |r| == |entries|
    ensures forall i :: 0 <= i < |r| ==> r[i] == " " + entries[i]
  {
    if entries == [] then [] else [" " + entries[0]] + Indented(entries[1..])
  }

  lemma {:induction false} JoinCommaBlank(first: string, rest: seq<string>)
    ensures Join([first] + rest, ", ") == Join([first] + Indented(rest), ",")
    decreases |rest|
  {
    if rest == [] {
      assert [first] + rest == [first] == [first] + Indented(rest);
    } else {
      assert ([first] + rest)[1..] == rest == [rest[0]] + rest[1..];
      assert ([first] + Indented(rest))[1..] == Indented(rest) == [" " + rest[0]] + Indented(rest[1..]);
      JoinCommaBlank(" " + rest[0], rest[1..]);
      JoinHead(" ", rest[0], rest[1..], ", ");
      Assoc(first, ",", " " + Join(rest, ", "));
      Assoc(first + ",", " ", Join(rest, ", "));
      assert first + ", " == first + "," + " ";
    }
  }

  lemma {:induction false} JoinHead(a: string, b: string, rest: seq<string>, sep: string)
    ensures Join([a + b] + rest, sep) == a + Join([b] + rest, sep)
  {
    if rest == [] {
      assert [a + b] + rest == [a + b] && [b] + rest == [b];
    } else {
      assert ([a + b] + rest)[1..] == rest && ([b] + rest)[1..] == rest;
      Assoc(a, b, sep);
      Assoc(a, b + sep, Join(rest, sep));
    }
  }

  lemma {:induction false} DropIndents(entries: seq<string>)
    requires forall i :: 0 <= i < |entries| ==> entries[i] != "" && Trimmed(entries[i])
    ensures DropBlanksAll(Indented(entries)) == entries
  {
    if entries != [] {
      assert (" " + entries[0])[1..] == entries[0];
      assert DropBlanks(entries[0]) == entries[0];
        DropIndents(entries[1..]);
      assert Indented(entries)[1..] == Indented(entries[1..]);
    }
  }

  lemma {:induction false} SplitJoined(entries: seq<string>)
    requires entries != []
    requires forall i :: 0 <= i < |entries| ==> entries[i] != "" && Trimmed(entries[i]) && ',' !in entries[i]
    ensures SplitCommas(Join(entries, ", ")) == entries
  {
    var parts := [entries[0]] + Indented(entries[1..]);
    assert entries == [entries[0]] + entries[1..];
    JoinCommaBlank(entries[0], entries[1..]);
    forall i | 0 <= i < |parts| ensures ',' !in parts[i] {
      if i > 0 {
        assert parts[i] == " " + entries[1..][i - 1] == " " + entries[i];
      }
    }
    SplitJoin(parts, ',');
    DropIndents(entries[1..]);
    assert parts[1..] == Indented(entries[1..]);
  }

  lemma {:induction false} TrimmedEntriesKept(entries: seq<string>)
    requires forall i :: 0 <= i < |entries| ==> Trimmed(entries[i])
    ensures ParseEntries(entries) == entries
  {
    if entries != [] {
      TrimmedEntryKept(entries[0]);
      TrimmedEntriesKept(entries[1..]);
    }
  }

  lemma {:induction false} JoinNonempty(entries: seq<string>, sep: string)
    requires entries != [] && entries[0] != ""
    ensures Join(entries, sep) != "" && Join(entries, sep)[0] == entries[0][0]
  {}

  lemma {:induction false} JoinLast(entries: seq<string>, sep: string)
    requires entries != [] && entries[|entries| - 1] != ""
    ensures var s := Join(entries, sep); s != "" && s[|s| - 1] == entries[|entries| - 1][|entries[|entries| - 1]| - 1]
  {
    if |entries| > 1 {
      JoinLast(entries[1..], sep);
    }
  }

  /** After one normalisation, printing the list and parsing it back returns it. Normalising it again changes nothing
      if and only if no entry was a `~>` range with an upper-case name. */
  lemma {:induction false} DependsFixpoint(dependencies: seq<string>)
    requires ListEntries(dependencies)
    ensures var kept := NormalizedAll(dependencies, false).0;
            var value := Join(kept, ", ");
            && ParsedDependencies(value) == kept
            && Trimmed(value)
            && (value == "" <==> kept == [])
            && (NormalizedAll(kept, false) == (kept, []) <==> AllSteady(dependencies))
  {
    var kept := NormalizedAll(dependencies, false).0;
    NormalizedAllKept(dependencies);
    SteadyListSettles(dependencies);
    if AllSettled(kept) {
      SettledListIsFixed(kept);
    }
    if NormalizedAll(kept, false) == (kept, []) {
      FixedMeansSettled(kept);
    }
    KeptAreEntries(kept);
    KeptReread(kept);
  }

  lemma {:induction false} KeptReread(kept: seq<string>)
    requires ListEntries(kept)
    ensures var value := Join(kept, ", ");
            ParsedDependencies(value) == kept && Trimmed(value) && (value == "" <==> kept == [])
  {
    if kept != [] {
      SplitJoined(kept);
      TrimmedEntriesKept(kept);
      JoinNonempty(kept, ", ");
      JoinLast(kept, ", ");
    }
  }

  // ---- the meaning of ~>

  /** Segment-wise numeric order, as Debian compares dotted numbers (Debian Policy section 5.6.12). */
  predicate Below(a: seq<int>, b: seq<int>)
    requires |a| == |b|
  {
    a != [] && (a[0] < b[0] || (a[0] == b[0] && Below(a[1..], b[1..])))
  }

  ghost predicate SegmentsOf(v: seq<int>) {
    forall i :: 0 <= i < |v| ==> 0 <= v[i] <= MAX_INT64
  }

  lemma {:induction false} BelowStep(a: seq<int>, b: seq<int>)
    requires |a| == |b| > 0
    ensures Below(a, b) <==> a[0] < b[0] || (a[0] == b[0] && Below(a[1..], b[1..]))
  {}

  lemma {:induction false} PrefixStep(a: seq<int>, b: seq<int>, n: nat)
    requires 0 < n <= |a| == |b|
    ensures a[..n] == b[..n] <==> a[0] == b[0] && a[1..][..n - 1] == b[1..][..n - 1]
  {
    assert a[..n] == [a[0]] + a[1..][..n - 1];
    assert b[..n] == [b[0]] + b[1..][..n - 1];
  }

  lemma {:induction false} BelowPair(a: int, b: int, c: int, d: int)
    ensures Below([a, b], [c, d]) <==> a < c || (a == c && b < d)
  {
    assert [a, b][1..] == [b] && [c, d][1..] == [d];
    assert Below([b], [d]) <==> b < d by {
      assert [b][1..] == [] && [d][1..] == [];
    }
  }

  /** Among versions with the same number of segments the two bounds of `~>` admit exactly those that agree up to the
      last segment and are no smaller there. */
  lemma {:induction false} PessimisticAdmits(v: seq<int>, w: seq<int>)
    requires |v| == |w| >= 2 && SegmentsOf(v) && SegmentsOf(w)
    requires v[|v| - 2] < MAX_INT64
    ensures !Below(w, v) && Below(w, PessimisticBound(v))
            <==> w[..|w| - 1] == v[..|v| - 1] && v[|v| - 1] <= w[|w| - 1]
  {
    var n := |v|;
    if n == 2 {
      assert w == [w[0], w[1]] && v == [v[0], v[1]];
      assert PessimisticBound(v) == [v[0] + 1, 0];
      BelowPair(w[0], w[1], v[0], v[1]);
      BelowPair(w[0], w[1], v[0] + 1, 0);
      assert w[..1] == [w[0]] && v[..1] == [v[0]];
    } else {
      var u := PessimisticBound(v);
      assert u[0] == v[0] && u[1..] == PessimisticBound(v[1..]);
      PessimisticAdmits(v[1..], w[1..]);
      BelowStep(w, v);
      BelowStep(w, u);
      PrefixStep(w, v, n - 1);
    }
  }

  /** With a single segment the upper bound is zero and nothing is admitted. */
  lemma {:induction false} PessimisticSingleAdmitsNothing(v: seq<int>, w: seq<int>)
    requires |v| == |w| == 1 && SegmentsOf(v) && SegmentsOf(w)
    ensures !Below(w, PessimisticBound(v))
  {
    assert PessimisticBound(v) == [0];
  }

  lemma {:induction false} NumericVersionOfJoin(v: seq<int>)
    requires v != [] && SegmentsOf(v)
    ensures NumericVersion(JoinNumericVersion(v)) == v
  {
    var parts := Itoas(v);
    ItoasShape(v);
    SplitJoin(parts, '.');
    forall i | 0 <= i < |v| ensures Atois(parts)[i] == v[i] {
      ParseDecimal(v[i]);
    }
  }

  lemma {:induction false} ItoasShape(v: seq<int>)
    requires SegmentsOf(v)
    ensures |Itoas(v)| == |v| && forall i :: 0 <= i < |v| ==> Itoas(v)[i] == Decimal(v[i])
    ensures Free(Itoas(v), '.')
  {
    if v != [] {
      ItoasShape(v[1..]);
    }
  }

  // ---- `~>` as it is written

  lemma {:induction false} WithoutConcat(a: string, b: string, set_: string)
    ensures Without(a + b, set_) == Without(a, set_) + Without(b, set_)
  {
    if a == "" {
      assert a + b == b;
    } else {
      assert (a + b)[0] == a[0] && (a + b)[1..] == a[1..] + b;
      WithoutConcat(a[1..], b, set_);
    }
  }

  lemma {:induction false} WithoutFixed(s: string, set_: string)
    requires forall c :: c in s ==> c !in set_
    ensures Without(s, set_) == s
  {
    if s != "" {
      assert s[0] in s;
      WithoutFixed(s[1..], set_);
    }
  }

  lemma {:induction false} FindSubAt(s: string, i: nat, pattern: string)
    requires i < |s| && HasPrefix(s[i..], pattern)
    ensures HasSub(s, pattern)
  {
    if i > 0 && !HasPrefix(s, pattern) {
      assert s[1..][i - 1..] == s[i..];
      FindSubAt(s[1..], i - 1, pattern);
    }
  }

  const STRIPPED := "()~>"

  lemma {:induction false} BoundWordKept(w: string)
    requires BoundWord(w)
    ensures Without(w, STRIPPED) == w
  {
    WithoutFixed(w, STRIPPED);
  }

  /** Two words around the stripped characters are what is left of a range. */
  lemma {:induction false} WordsOfRange(before: string, name: string, between: string, version: string)
    requires BoundWord(name) && BoundWord(version)
    requires (forall c :: c in before ==> c in STRIPPED || IsSpace(c))
    requires (forall c :: c in between ==> c in STRIPPED || IsSpace(c))
    requires Without(between, STRIPPED) != ""
    ensures PessimisticParts(before + name + between + version + ")") == [name, version]
  {
    var left, middle := Without(before, STRIPPED), Without(between, STRIPPED);
    WithoutConcat(before + name + between + version, ")", STRIPPED);
    WithoutConcat(before + name + between, version, STRIPPED);
    WithoutConcat(before + name, between, STRIPPED);
    WithoutConcat(before, name, STRIPPED);
    BoundWordKept(name);
    BoundWordKept(version);
    WithoutChars(before, STRIPPED);
    WithoutChars(between, STRIPPED);
    assert Without(")", STRIPPED) == "";
    TwoWords(left, name, middle, version);
  }

  lemma {:induction false} TwoWords(left: string, name: string, middle: string, version: string)
    requires Word(name) && Word(version) && middle != ""
    requires forall c :: c in left ==> IsSpace(c)
    requires forall c :: c in middle ==> IsSpace(c)
    ensures Fields(left + name + middle + version + "") == [name, version]
  {
    var rest := middle + version;
    FieldsCons(middle, version, "");
    assert middle + version + "" == rest;
    assert rest[0] == middle[0] && middle[0] in middle;
    assert forall i :: 0 <= i < |left| ==> left[i] in left;
    assert forall i :: 0 <= i < |middle| ==> middle[i] in middle;
    FieldsCons(left, name, rest);
    assert left + name + middle + version + "" == left + name + rest;
    assert Fields("") == [];
  }

  /** An entry written as `name (~> version)`. */
  function Pessimistic(name: string, version: string): string {
    name + " (~> " + version + ")"
  }

  /** A word without the characters that a range is stripped of. */
  predicate RangeWord(w: string) {
    Word(w) && '(' !in w && ')' !in w && '~' !in w && '>' !in w
  }

  /** The name and the version as the bounds print them. */
  function NameInBound(name: string): string {
    MapChars(Dashed, MapChars(Lower, name))
  }

  function VersionInBound(version: string): string {
    MapChars(Dashed, version)
  }

  lemma {:induction false} PessimisticShape(name: string, version: string)
    requires BoundWord(name) && BoundWord(version)
    ensures var e := Pessimistic(name, version);
            HasMark(e) && '_' !in e && PrefixLength(e) == |name| && NamePrefix(e) == name && HasSub(e, "(~>")
  {
    var e := Pessimistic(name, version);
    assert e == name + (" (~> " + version + ")");
    assert e[|name| + 1] == '(';
    PrefixLengthIs(e, |name|);
    assert e[|name| + 1..][..3] == "(~>";
    FindSubAt(e, |name| + 1, "(~>");
  }

  lemma {:induction false} PessimisticWordsOf(name: string, version: string)
    requires BoundWord(name) && BoundWord(version)
    ensures PessimisticParts(Pessimistic(name, version)) == [name, version]
  {
    assert "" + name + " (~> " + version + ")" == Pessimistic(name, version);
    GapIsBlanks();
    WordsOfRange("", name, " (~> ", version);
  }

  lemma {:induction false} GapIsBlanks()
    ensures Without(" (~> ", STRIPPED) != ""
  {
    assert " (~> " == [' '] + "(~> ";
  }

  lemma {:induction false} DashedIsBoundWord(w: string)
    requires RangeWord(w)
    ensures BoundWord(MapChars(Dashed, w)) && RangeWord(MapChars(Lower, w))
  {
    var d, l := MapChars(Dashed, w), MapChars(Lower, w);
    forall i | 0 <= i < |w| ensures !IsSpace(d[i]) && d[i] !in "()~>_" && !IsSpace(l[i]) && l[i] !in "()~>" {
      assert w[i] in w && !IsSpace(w[i]);
    }
  }

  lemma {:induction false} RangeName(name: string, version: string)
    requires RangeWord(name)
    ensures HasMark(Pessimistic(name, version)) && NamePrefix(Pessimistic(name, version)) == name
  {
    var e := Pessimistic(name, version);
    assert e == name + (" (~> " + version + ")");
    assert e[|name| + 1] == '(';
    forall i | 0 <= i < |name| ensures e[i] != ' ' && e[i] != '(' {
      assert name[i] in name && !IsSpace(name[i]);
    }
    PrefixLengthIs(e, |name|);
  }

  lemma {:induction false} MapConcat(f: char -> char, a: string, b: string)
    ensures MapChars(f, a + b) == MapChars(f, a) + MapChars(f, b)
  {}

  lemma {:induction false} GapIsFixed()
    ensures MapChars(Dashed, " (~> ") == " (~> " && MapChars(Dashed, ")") == ")"
  {
    NothingDashed(" (~> ");
    NothingDashed(")");
  }

  lemma {:induction false} DashedRange(name: string, version: string)
    ensures MapChars(Dashed, Pessimistic(name, version)) == Pessimistic(MapChars(Dashed, name), VersionInBound(version))
  {
    MapConcat(Dashed, name + " (~> " + version, ")");
    MapConcat(Dashed, name + " (~> ", version);
    MapConcat(Dashed, name, " (~> ");
    GapIsFixed();
  }

  lemma {:induction false} LoweredIs(e: string, name: string, rest: string)
    requires e == name + rest && NamePrefix(e) == name
    ensures LoweredName(e) == MapChars(Lower, name) + rest
  {}

  lemma {:induction false} PessimisticIs(name: string, version: string)
    ensures Pessimistic(name, version) == name + (" (~> " + version + ")")
  {
    Assoc(name, " (~> " + version, ")");
    Assoc(name, " (~> ", version);
  }

  lemma {:induction false} MarkedForm(e: string)
    requires HasMark(e)
    ensures Canonicalised(e) == MapChars(Dashed, LoweredName(e))
  {
    CanonicalisedInSteps(e);
  }

  lemma {:induction false} LoweredRange(name: string, version: string)
    requires RangeWord(name) && RangeWord(version)
    ensures Canonicalised(Pessimistic(name, version)) == Pessimistic(NameInBound(name), VersionInBound(version))
  {
    RangeName(name, version);
    MarkedForm(Pessimistic(name, version));
    PessimisticIs(name, version);
    LoweredIs(Pessimistic(name, version), name, " (~> " + version + ")");
    PessimisticIs(MapChars(Lower, name), version);
    DashedRange(MapChars(Lower, name), version);
  }

  /** What `name (~> version)` is printed as: at least the version, and less than the raised one. */
  lemma {:induction false} PessimisticPrinted(name: string, version: string)
    requires RangeWord(name) && RangeWord(version)
    ensures Normalized(Pessimistic(name, version), false)
            == (Range(NameInBound(name), VersionInBound(version),
            PessimisticBound(NumericVersion(VersionInBound(version)))), "")
  {
    var lower, dashed := NameInBound(name), VersionInBound(version);
    DashedIsBoundWord(name);
    DashedIsBoundWord(MapChars(Lower, name));
    DashedIsBoundWord(version);
    LoweredRange(name, version);
    PessimisticShape(lower, dashed);
    PessimisticWordsOf(lower, dashed);
    NormalizedRange(Pessimistic(name, version), Pessimistic(lower, dashed), lower, dashed);
  }

  lemma {:induction false} BoundsRead(v: seq<int>)
    requires |v| >= 2 && SegmentsOf(v) && v[|v| - 2] < MAX_INT64
    ensures NumericVersion(JoinNumericVersion(v)) == v
    ensures NumericVersion(JoinNumericVersion(PessimisticBound(v))) == PessimisticBound(v)
  {
    assert SegmentsOf(PessimisticBound(v));
    NumericVersionOfJoin(v);
    NumericVersionOfJoin(PessimisticBound(v));
  }

  lemma {:induction false} NothingDashed(s: string)
    requires '_' !in s
    ensures MapChars(Dashed, s) == s
  {
    assert forall i :: 0 <= i < |s| ==> s[i] in s;
  }

  lemma {:induction false} PrintedBounds(name: string, v: seq<int>)
    requires RangeWord(name) && |v| >= 2 && SegmentsOf(v) && v[|v| - 2] < MAX_INT64
    ensures Normalized(Pessimistic(name, JoinNumericVersion(v)), false)
            == ([Bound(NameInBound(name), ">=", JoinNumericVersion(v)),
                 Bound(NameInBound(name), "<<", JoinNumericVersion(PessimisticBound(v)))], "")
  {
    NumericIsBoundWord(v);
    BoundsRead(v);
    NothingDashed(JoinNumericVersion(v));
    PessimisticPrinted(name, JoinNumericVersion(v));
  }

  /** `name (~> v)` is printed as two bounds that admit, among versions of as many segments, exactly those that agree
      with `v` up to the last segment and are no smaller in it. */
  lemma {:induction false} PessimisticEntryAdmits(name: string, v: seq<int>, w: seq<int>)
    returns (lower: string, upper: string)
    requires RangeWord(name) && |v| == |w| >= 2 && SegmentsOf(v) && SegmentsOf(w)
    requires v[|v| - 2] < MAX_INT64
    ensures Normalized(Pessimistic(name, JoinNumericVersion(v)), false)
            == ([Bound(NameInBound(name), ">=", lower), Bound(NameInBound(name), "<<", upper)], "")
    ensures |NumericVersion(lower)| == |w| == |NumericVersion(upper)|
    ensures !Below(w, NumericVersion(lower)) && Below(w, NumericVersion(upper))
            <==> w[..|w| - 1] == v[..|v| - 1] && v[|v| - 1] <= w[|w| - 1]
  {
    lower, upper := JoinNumericVersion(v), JoinNumericVersion(PessimisticBound(v));
    PrintedBounds(name, v);
    BoundsRead(v);
    PessimisticAdmits(v, w);
  }

  /** A range whose operator comes before the name. */
  function OperatorFirst(name: string, version: string): string {
    "(~> " + name + " " + version + ")"
  }

  lemma {:induction false} OperatorFirstShape(name: string, version: string)
    requires BoundWord(name) && BoundWord(version) && ',' !in name && ',' !in version
    ensures var e := OperatorFirst(name, version);
            ListEntry(e) && HasMark(e) && '_' !in e && NamePrefix(e) == "" && HasSub(e, "(~>")
  {
    var e := OperatorFirst(name, version);
    assert e == "(~> " + (name + " " + version + ")");
    PrefixLengthIs(e, 0);
    assert e[0..][..3] == "(~>";
    FindSubAt(e, 0, "(~>");
    assert e[|e| - 1] == ')';
  }

  lemma {:induction false} OperatorFirstWords(name: string, version: string)
    requires BoundWord(name) && BoundWord(version)
    ensures PessimisticParts(OperatorFirst(name, version)) == [name, version]
  {
    assert Without(" ", STRIPPED) != "";
    WordsOfRange("(~> ", name, " ", version);
  }

  /** A range whose operator comes first hides its name from the lower-casing, so it does not settle. */
  lemma {:induction false} UpperCaseRange(name: string, version: string)
    requires BoundWord(name) && BoundWord(version) && HasUpper(name) && ',' !in name && ',' !in version
    ensures var e := OperatorFirst(name, version);
            ListEntry(e) && !SteadyEntry(e) && !AllSettled(Normalized(e, false).0)
  {
    var e := OperatorFirst(name, version);
    OperatorFirstShape(name, version);
    SettledIsFixed(e);
    OperatorFirstWords(name, version);
    SteadyEntrySettles(e);
  }

  lemma {:induction false} FooText() returns (e: string, name: string, version: string)
    ensures e == "(~> Foo 1.2)" && e == OperatorFirst(name, version)
    ensures BoundWord(name) && BoundWord(version) && HasUpper(name) && ',' !in name && ',' !in version
  {
    e, name, version := "(~> Foo 1.2)", "Foo", "1.2";
    assert name[0] == 'F';
  }

  /** For example `(~> Foo 1.2)`. */
  lemma {:induction false} FooDoesNotSettle() returns (e: string)
    ensures e == "(~> Foo 1.2)"
    ensures ListEntry(e) && !SteadyEntry(e) && !AllSettled(Normalized(e, false).0)
  {
    var name, version;
    e, name, version := FooText();
    UpperCaseRange(name, version);
  }

  /** Raising the last segment admits, among versions of as many segments, only the version itself. */
  lemma {:induction false} IterationAdmits(v: seq<int>, w: seq<int>)
    requires |v| == |w| >= 1 && SegmentsOf(v) && SegmentsOf(w) && v[|v| - 1] < MAX_INT64
    ensures !Below(w, v) && Below(w, IterationBound(v)) <==> w == v
  {
    var n := |v|;
    if n == 1 {
      assert w == [w[0]] && v == [v[0]] && IterationBound(v) == [v[0] + 1];
    } else {
      var u := IterationBound(v);
      assert u[0] == v[0] && u[1..] == IterationBound(v[1..]);
      IterationAdmits(v[1..], w[1..]);
      BelowStep(w, v);
      BelowStep(w, u);
      assert w == [w[0]] + w[1..] && v == [v[0]] + v[1..];
    }
  }

  // ---- characters that normalisation never brings in

  /** A character that is no part of what normalisation writes itself. */
  predicate Foreign(c: char) {
    c == '\r' || c == '\n'
  }

  lemma {:induction false} MapCharsFree(f: char -> char, s: string, c: char)
    requires c !in s && (f == Lower || f == Dashed) && Foreign(c)
    ensures c !in MapChars(f, s)
  {
    assert forall i :: 0 <= i < |s| ==> s[i] in s && s[i] != c;
  }

  lemma {:induction false} FormFree(s: string, c: char)
    requires c !in s && Foreign(c)
    ensures c !in FormOf(s)
  {
    FieldsChars(s, c);
  }

  lemma {:induction false} CanonicalisedFree(s: string, c: char)
    requires c !in s && Foreign(c)
    ensures c !in Canonicalised(s)
  {
    var form := FormOf(s);
    CanonicalisedInSteps(s);
    FormFree(s, c);
    MapCharsFree(Lower, NamePrefix(form), c);
    MapCharsFree(Dashed, LoweredName(form), c);
  }

  lemma {:induction false} NumericFree(numbers: seq<int>, c: char)
    requires numbers != [] && Foreign(c)
    ensures c !in JoinNumericVersion(numbers)
  {
    JoinNumericChars(numbers);
  }

  lemma {:induction false} PartsFree(d: string, c: char)
    requires c !in d
    ensures Free(PessimisticParts(d), c)
  {
    WithoutChars(d, "()~>");
    FieldsChars(Without(d, "()~>"), c);
  }

  lemma {:induction false} RangeFree(name: string, version: string, bound: seq<int>, c: char)
    requires c !in name && c !in version && bound != [] && Foreign(c)
    ensures Free(Range(name, version, bound), c)
  {
    NumericFree(bound, c);
  }

  lemma {:induction false} ReplaceFree(s: string, c: char)
    requires c !in s && Foreign(c)
    ensures c !in ReplaceFirst(s, "!=", "=")
  {}

  lemma {:induction false} NormalizedFree(e: string, c: char)
    requires c !in e && Foreign(c)
    ensures Free(Normalized(e, false).0, c) && c !in Normalized(e, false).1
  {
    var d := Canonicalised(e);
    CanonicalisedFree(e, c);
    if IsPessimistic(d) {
      var parts := PessimisticParts(d);
      PartsFree(d, c);
      RangeFree(parts[0], parts[1], PessimisticBound(NumericVersion(parts[1])), c);
    } else if MatchRelation(d, "!=").Some? {
      ReplaceFree(d, c);
    }
  }

  lemma {:induction false} FreeAppend(a: seq<string>, b: seq<string>, c: char)
    requires Free(a, c) && Free(b, c)
    ensures Free(a + b, c)
  {}

  lemma {:induction false} NormalizedAllFree(entries: seq<string>, c: char)
    requires Free(entries, c) && Foreign(c)
    ensures Free(NormalizedAll(entries, false).0, c) && Free(NormalizedAll(entries, false).1, c)
  {
    if entries != [] {
      var first, rest := Normalized(entries[0], false), NormalizedAll(entries[1..], false);
      NormalizedFree(entries[0], c);
      NormalizedAllFree(entries[1..], c);
      FreeAppend(first.0, rest.0, c);
      FreeAppend(if first.1 != "" then [first.1] else [], rest.1, c);
    }
  }

  lemma {:induction false} DropBlanksFree(s: string, c: char)
    requires c !in s
    ensures c !in DropBlanks(s)
  {
    if s != "" && s[0] == ' ' {
      DropBlanksFree(s[1..], c);
    }
  }

  lemma {:induction false} SplitCommasFree(value: string, c: char)
    requires c !in value
    ensures Free(SplitCommas(value), c)
  {
    var parts := Split(value, ',');
    SplitChars(value, ',', c);
    forall i | 0 <= i < |parts[1..]| ensures c !in DropBlanksAll(parts[1..])[i] {
      DropBlanksFree(parts[1..][i], c);
    }
  }

  lemma {:induction false} ParseEntryFree(s: string, c: char)
    requires c !in s
    ensures c !in ParseEntry(s)
  {
    if !MatchEntry(s).Unrecognised? {
      MatchRebuilds(s);
      TrimSpaceChars(s, c);
    }
  }

  lemma {:induction false} ParseEntriesFree(parts: seq<string>, c: char)
    requires Free(parts, c)
    ensures Free(ParseEntries(parts), c)
  {
    if parts != [] {
      ParseEntryFree(parts[0], c);
      ParseEntriesFree(parts[1..], c);
    }
  }

  /** Parsing keeps such characters out. */
  lemma {:induction false} ParsedFree(value: string, c: char)
    requires c !in value
    ensures Free(ParsedDependencies(value), c)
  {
    if value != "" {
      SplitCommasFree(value, c);
      ParseEntriesFree(SplitCommas(value), c);
    }
  }

  lemma {:induction false} JoinedFree(parts: seq<string>, sep: string, c: char)
    requires Free(parts, c) && c !in sep
    ensures c !in Join(parts, sep)
  {
    if |parts| > 1 {
      JoinedFree(parts[1..], sep, c);
    }
  }
}
