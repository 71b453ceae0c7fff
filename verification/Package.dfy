/** One record of a Packages index: the version split, the template fields, parsing and rendering, and the byte
    stability of a rendered record. */
module Package {
  import opened Text
  import opened Control
  import opened Dependency
  import opened Paths

  // ---- versions (Debian Policy section 5.6.12)

  datatype Version = Version(epoch: string, upstream: string, iteration: string, iterationPresent: bool)

  function DigitRun(s: string): (n: nat)
    ensures n <= |s|
    ensures forall i :: 0 <= i < n ==> IsDigit(s[i])
    ensures n < |s| ==> !IsDigit(s[n])
  {
    if s == "" || !IsDigit(s[0]) then 0 else 1 + DigitRun(s[1..])
  }

  /** Length of the epoch in front of a colon; zero without one or when nothing follows it. */
  function EpochLength(full: string): (n: nat)
    ensures n > 0 ==> n + 1 < |full| && full[n] == ':'
  {
    var n := DigitRun(full);
    if n > 0 && n + 1 < |full| && full[n] == ':' then n else 0
  }

  function AfterEpoch(full: string): string {
    var n := EpochLength(full);
    if n > 0 then full[n + 1..] else full
  }

  /** Position of the first dash that is not the first character, or the length. */
  function DashAt(s: string): (k: nat)
    requires s != ""
    ensures 1 <= k <= |s|
    ensures k < |s| ==> s[k] == '-'
    ensures forall i :: 1 <= i < k ==> s[i] != '-'
  {
    1 + IndexOf(s[1..], '-')
  }

  /** The split by `^(?:([0-9]+):)?(.+?)(?:-(.*))?$`; `.` never matches a newline. */
  function ParsedVersion(full: string): Option<Version> {
    if full == "" || '\n' in full then None
    else
      var rest := AfterEpoch(full);
      var k := DashAt(rest);
      Some(Version(full[..EpochLength(full)], rest[..k], if k < |rest| then rest[k + 1..] else "", '-' in rest))
  }

  function VersionText(v: Version): string {
    if v.epoch == "" && v.upstream == "" && v.iteration == "" && !v.iterationPresent then ""
    else
      (if v.epoch != "" then v.epoch + ":" + v.upstream else v.upstream)
      + (if v.iterationPresent || v.iteration != "" then "-" + v.iteration else "")
  }

  /** The part after the epoch starts with its only dash. */
  predicate DashOnlyInFront(s: string) {
    s != "" && s[0] == '-' && '-' !in s[1..]
  }

  lemma {:induction false} DashMembership(s: string)
    requires s != ""
    ensures '-' in s <==> s[0] == '-' || DashAt(s) < |s|
    ensures '-' in s[1..] <==> DashAt(s) < |s|
  {
    var k := DashAt(s);
    assert forall i :: 1 <= i < |s| ==> s[1..][i - 1] == s[i];
    if k < |s| {
      assert s[1..][k - 1] == '-';
    }
  }

  lemma {:induction false} EpochPrefix(full: string)
    ensures var rest := AfterEpoch(full);
            |rest| <= |full| && full == full[..|full| - |rest|] + rest
  {}

  /** What is printed for the part after the epoch. */
  function Reprinted(rest: string): string
    requires rest != ""
  {
    var k := DashAt(rest);
    rest[..k] + (if '-' in rest then "-" + rest[if k < |rest| then k + 1 else k..] else "")
  }

  lemma {:induction false} IterationText(v: Version, rest: string)
    requires rest != "" && v.upstream == rest[..DashAt(rest)] && v.iterationPresent == ('-' in rest)
    requires v.iteration == if DashAt(rest) < |rest| then rest[DashAt(rest) + 1..] else ""
    ensures v.upstream + (if v.iterationPresent || v.iteration != "" then "-" + v.iteration else "") == Reprinted(rest)
  {
    DashMembership(rest);
    assert rest[|rest|..] == "";
  }

  lemma {:induction false} EpochText(full: string)
    ensures full[..|full| - |AfterEpoch(full)|]
            == if EpochLength(full) > 0 then full[..EpochLength(full)] + ":" else ""
  {
    var n := EpochLength(full);
    if n > 0 {
      assert full[..n + 1] == full[..n] + ":";
    }
  }

  lemma {:induction false} SplitVersionText(full: string)
    requires full != "" && '\n' !in full
    ensures var rest := AfterEpoch(full);
            VersionText(ParsedVersion(full).value) == full[..|full| - |rest|] + Reprinted(rest)
  {
    var v := ParsedVersion(full).value;
    IterationText(v, AfterEpoch(full));
    EpochText(full);
    var tail := if v.iterationPresent || v.iteration != "" then "-" + v.iteration else "";
    Assoc(v.epoch + ":", v.upstream, tail);
    AppendEmpty(v.upstream + tail);
  }

  lemma {:induction false} ReprintedIffDash(rest: string)
    requires rest != ""
    ensures Reprinted(rest) == rest <==> !DashOnlyInFront(rest)
  {
    var k := DashAt(rest);
    DashMembership(rest);
    if k < |rest| {
      assert rest == rest[..k] + ("-" + rest[k + 1..]);
    } else {
      assert rest[..k] == rest && rest[k..] == "";
      AppendEmpty(rest);
      assert |rest + ("-" + "")| == |rest| + 1;
    }
  }

  lemma {:induction false} PrefixCancels(before: string, a: string, b: string)
    ensures before + a == before + b <==> a == b
  {
    assert (before + a)[|before|..] == a && (before + b)[|before|..] == b;
  }

  lemma {:induction false} ReprintedDash(rest: string)
    requires rest != "" && DashOnlyInFront(rest)
    ensures Reprinted(rest) == rest + "-"
  {
    DashMembership(rest);
  }

  /** What `FullVersion` prints for the parts of a version text: the text, or the text and a dash. */
  lemma {:induction false} PrintedVersion(full: string)
    requires full != "" && '\n' !in full
    ensures var printed := VersionText(ParsedVersion(full).value);
            printed == if DashOnlyInFront(AfterEpoch(full)) then full + "-" else full
  {
    SplitVersionText(full);
    var rest := AfterEpoch(full);
    EpochPrefix(full);
    if rest != "" {
      ReprintedIffDash(rest);
      if DashOnlyInFront(rest) {
        ReprintedDash(rest);
        assert full[..|full| - |rest|] + (rest + "-") == full + "-";
      }
    }
  }

  lemma {:induction false} DigitRunAppend(s: string)
    ensures DigitRun(s + "-") == DigitRun(s)
  {
    if s != "" && IsDigit(s[0]) {
      DigitRunAppend(s[1..]);
      assert (s + "-")[1..] == s[1..] + "-";
    }
  }

  lemma {:induction false} EpochAppend(full: string)
    requires full != "" && DashOnlyInFront(AfterEpoch(full))
    ensures EpochLength(full + "-") == EpochLength(full) && AfterEpoch(full + "-") == AfterEpoch(full) + "-"
  {
    DigitRunAppend(full);
  }

  lemma {:induction false} DashAppended(rest: string)
    requires DashOnlyInFront(rest)
    ensures DashAt(rest) == |rest| == DashAt(rest + "-")
  {
    DashMembership(rest);
    var k := DashAt(rest + "-");
    assert forall i :: 0 <= i < |rest| ==> (rest + "-")[i] == rest[i];
    assert (rest + "-")[|rest|] == '-';
  }

  lemma {:induction false} DashAdded(full: string)
    requires full != "" && '\n' !in full && DashOnlyInFront(AfterEpoch(full))
    ensures ParsedVersion(full + "-") == ParsedVersion(full)
  {
    var rest := AfterEpoch(full);
    EpochAppend(full);
    DashAppended(rest);
    assert (full + "-")[..EpochLength(full)] == full[..EpochLength(full)];
    assert (rest + "-")[..|rest|] == rest[..|rest|] && (rest + "-")[|rest| + 1..] == "";
  }

  /** The parts a version text splits into are those that their printed form splits into. */
  lemma {:induction false} SplitOnce(full: string)
    requires ParsedVersion(full).Some?
    ensures ParsedVersion(VersionText(ParsedVersion(full).value)) == ParsedVersion(full)
  {
    PrintedVersion(full);
    if DashOnlyInFront(AfterEpoch(full)) {
      DashAdded(full);
    }
  }

  /** Printing undoes the split exactly when the part after the epoch does not start with its only dash. */
  lemma {:induction false} VersionRoundTrip(full: string)
    requires ParsedVersion(full).Some?
    ensures VersionText(ParsedVersion(full).value) == full <==> !DashOnlyInFront(AfterEpoch(full))
  {
    var rest := AfterEpoch(full);
    var before := full[..|full| - |rest|];
    SplitVersionText(full);
    EpochPrefix(full);
    ReprintedIffDash(rest);
    PrefixCancels(before, Reprinted(rest), rest);
  }

  /** An epoch of digits or none, an upstream version without a dash, and without a colon where it could end an
      epoch. */
  ghost predicate PlainVersion(v: Version) {
    && v.upstream != "" && '-' !in v.upstream && '\n' !in v.epoch && '\n' !in v.upstream && '\n' !in v.iteration
    && (forall i :: 0 <= i < |v.epoch| ==> IsDigit(v.epoch[i])) && (v.epoch == "" ==> ':' !in v.upstream)
    && (!v.iterationPresent ==> v.iteration == "")
  }

  lemma {:induction false} DigitRunOf(digits: string, rest: string)
    requires (forall i :: 0 <= i < |digits| ==> IsDigit(digits[i])) && rest != "" && !IsDigit(rest[0])
    ensures DigitRun(digits + rest) == |digits|
  {
    if digits == "" {
      AppendEmpty(rest);
    } else {
      assert (digits + rest)[0] == digits[0] && (digits + rest)[1..] == digits[1..] + rest;
      DigitRunOf(digits[1..], rest);
    }
  }

  lemma {:induction false} EpochIs(epoch: string, rest: string)
    requires epoch != "" && (forall i :: 0 <= i < |epoch| ==> IsDigit(epoch[i])) && rest != ""
    ensures EpochLength(epoch + ":" + rest) == |epoch| && AfterEpoch(epoch + ":" + rest) == rest
  {
    assert epoch + ":" + rest == epoch + (":" + rest);
    DigitRunOf(epoch, ":" + rest);
  }

  lemma {:induction false} NoEpoch(upstream: string, rest: string)
    requires upstream != "" && ':' !in upstream && (rest == "" || rest[0] == '-')
    ensures EpochLength(upstream + rest) == 0 && AfterEpoch(upstream + rest) == upstream + rest
  {
    var full := upstream + rest;
    var n := DigitRun(full);
    assert forall i :: 0 <= i < |upstream| ==> full[i] == upstream[i];
    assert rest != "" ==> full[|upstream|] == '-';
  }

  lemma {:induction false} DashBehind(upstream: string, iteration: string)
    requires upstream != "" && '-' !in upstream
    ensures DashAt(upstream) == |upstream| && DashAt(upstream + "-" + iteration) == |upstream|
  {
    var s := upstream + "-" + iteration;
    assert s[|upstream|] == '-' && forall i :: 0 <= i < |upstream| ==> s[i] == upstream[i];
  }

  lemma {:induction false} RestSplits(upstream: string, iteration: string, present: bool)
    requires upstream != "" && '-' !in upstream && (!present ==> iteration == "")
    ensures var rest := upstream + (if present then "-" + iteration else "");
            var k := DashAt(rest);
            && rest[..k] == upstream && (if k < |rest| then rest[k + 1..] else "") == iteration
            && ('-' in rest <==> present)
  {
    DashBehind(upstream, iteration);
    if present {
      var s := upstream + "-" + iteration;
      assert upstream + ("-" + iteration) == s && s[|upstream|] == '-' && s[|upstream| + 1..] == iteration;
    } else {
      AppendEmpty(upstream);
    }
  }

  lemma {:induction false} ParsedFrom(v: Version, full: string, rest: string)
    requires full != "" && '\n' !in full && AfterEpoch(full) == rest && rest != ""
    requires EpochLength(full) == |v.epoch| && full[..|v.epoch|] == v.epoch
    requires var k := DashAt(rest);
             && rest[..k] == v.upstream && (if k < |rest| then rest[k + 1..] else "") == v.iteration
             && ('-' in rest <==> v.iterationPresent)
    ensures ParsedVersion(full) == Some(v)
  {}

  lemma {:induction false} ReadsWithEpoch(v: Version, rest: string)
    requires PlainVersion(v) && v.epoch != "" && rest != "" && '\n' !in rest
    requires var k := DashAt(rest);
             && rest[..k] == v.upstream && (if k < |rest| then rest[k + 1..] else "") == v.iteration
             && ('-' in rest <==> v.iterationPresent)
    ensures ParsedVersion(v.epoch + ":" + rest) == Some(v)
  {
    EpochIs(v.epoch, rest);
    assert (v.epoch + ":" + rest)[..|v.epoch|] == v.epoch;
    ParsedFrom(v, v.epoch + ":" + rest, rest);
  }

  lemma {:induction false} ReadsWithoutEpoch(v: Version, last: string)
    requires PlainVersion(v) && v.epoch == "" && '\n' !in last && (last == "" || last[0] == '-')
    requires var rest := v.upstream + last;
             var k := DashAt(rest);
             && rest[..k] == v.upstream && (if k < |rest| then rest[k + 1..] else "") == v.iteration
             && ('-' in rest <==> v.iterationPresent)
    ensures ParsedVersion(v.upstream + last) == Some(v)
  {
    NoEpoch(v.upstream, last);
    ParsedFrom(v, v.upstream + last, v.upstream + last);
  }

  lemma {:induction false} TextOfVersion(v: Version, last: string)
    requires PlainVersion(v) && last == if v.iterationPresent then "-" + v.iteration else ""
    ensures VersionText(v) == if v.epoch != "" then v.epoch + ":" + (v.upstream + last) else v.upstream + last
  {
    Assoc(v.epoch + ":", v.upstream, last);
  }

  /** A version that is printed and read again has the same epoch, upstream version and iteration. */
  lemma {:induction false} VersionReadsBack(v: Version)
    requires PlainVersion(v)
    ensures ParsedVersion(VersionText(v)) == Some(v)
  {
    var last := if v.iterationPresent then "-" + v.iteration else "";
    RestSplits(v.upstream, v.iteration, v.iterationPresent);
    TextOfVersion(v, last);
    if v.epoch != "" {
      ReadsWithEpoch(v, v.upstream + last);
    } else {
      ReadsWithoutEpoch(v, last);
    }
  }

  // ---- packages

  datatype Package = Package(
    name: string, version: Version, architecture: string, maintainer: string, category: string,
    license: string, vendor: string, homepage: Option<string>, origin: Option<string>,
    priority: Option<string>, installedSize: Option<string>, description: Option<string>,
    indexFilename: Option<string>, size: Option<string>, sha1: Option<string>, sha256: Option<string>,
    md5: Option<string>, dependencies: seq<string>, preDepends: Option<string>, recommends: Option<string>,
    suggests: Option<string>, enhances: Option<string>, breaks: Option<string>, conflicts: Option<string>,
    providing: Option<string>, replacing: Option<string>, extraFields: seq<Field>,
    filename: string, noDepends: bool, ignoreIteration: bool) {

    function FullVersion(): string {
      VersionText(version)
    }
  }

  /** The last element of a local file name (`filepath.Base`). */
  function FileBase(filename: string): string {
    Base(filename)
  }

  /** The object key of a package body, from the index or derived from name and source file. */
  function RepositoryFilename(p: Package, codename: string): Result<string> {
    if p.indexFilename.Some? then Ok(p.indexFilename.value)
    else if p.name == "" then Err("cannot derive package path without a package name")
    else if p.filename == "" then Err("cannot derive package path without a source filename")
    else
      var prefix := if |p.name| > 2 then p.name[..2] else p.name;
      var derived := "pool/" + codename + "/" + p.name[..1] + "/" + prefix + "/" + FileBase(p.filename);
      if derived != Clean(derived) then Err("package does not map to a pool path") else Ok(derived)
  }

  // ---- the record template

  /** The template fields, in the order they are written. */
  datatype Key =
    FPackage | FVersion | FLicense | FVendor | FArchitecture | FMaintainer | FInstalledSize | FDepends | FConflicts
    | FBreaks | FPreDepends | FProvides | FReplaces | FRecommends | FSuggests | FEnhances | FSection | FOrigin
    | FPriority | FHomepage | FFilename | FSize | FSHA1 | FSHA256 | FMD5sum | FDescription

  function NameOf(k: Key): string {
    match k
    case FPackage => "Package"
    case FVersion => "Version"
    case FLicense => "License"
    case FVendor => "Vendor"
    case FArchitecture => "Architecture"
    case FMaintainer => "Maintainer"
    case FInstalledSize => "Installed-Size"
    case FDepends => "Depends"
    case FConflicts => "Conflicts"
    case FBreaks => "Breaks"
    case FPreDepends => "Pre-Depends"
    case FProvides => "Provides"
    case FReplaces => "Replaces"
    case FRecommends => "Recommends"
    case FSuggests => "Suggests"
    case FEnhances => "Enhances"
    case FSection => "Section"
    case FOrigin => "Origin"
    case FPriority => "Priority"
    case FHomepage => "Homepage"
    case FFilename => "Filename"
    case FSize => "Size"
    case FSHA1 => "SHA1"
    case FSHA256 => "SHA256"
    case FMD5sum => "MD5sum"
    case FDescription => "Description"
  }

  const KEY_COUNT: nat := 26

  function Ordinal(k: Key): (n: nat)
    ensures n < KEY_COUNT
  {
    match k
    case FPackage => 0
    case FVersion => 1
    case FLicense => 2
    case FVendor => 3
    case FArchitecture => 4
    case FMaintainer => 5
    case FInstalledSize => 6
    case FDepends => 7
    case FConflicts => 8
    case FBreaks => 9
    case FPreDepends => 10
    case FProvides => 11
    case FReplaces => 12
    case FRecommends => 13
    case FSuggests => 14
    case FEnhances => 15
    case FSection => 16
    case FOrigin => 17
    case FPriority => 18
    case FHomepage => 19
    case FFilename => 20
    case FSize => 21
    case FSHA1 => 22
    case FSHA256 => 23
    case FMD5sum => 24
    case FDescription => 25
  }

  function KeyAt(i: nat): Key {
    if i == 0 then FPackage
    else if i == 1 then FVersion
    else if i == 2 then FLicense
    else if i == 3 then FVendor
    else if i == 4 then FArchitecture
    else if i == 5 then FMaintainer
    else if i == 6 then FInstalledSize
    else if i == 7 then FDepends
    else if i == 8 then FConflicts
    else if i == 9 then FBreaks
    else if i == 10 then FPreDepends
    else if i == 11 then FProvides
    else if i == 12 then FReplaces
    else if i == 13 then FRecommends
    else if i == 14 then FSuggests
    else if i == 15 then FEnhances
    else if i == 16 then FSection
    else if i == 17 then FOrigin
    else if i == 18 then FPriority
    else if i == 19 then FHomepage
    else if i == 20 then FFilename
    else if i == 21 then FSize
    else if i == 22 then FSHA1
    else if i == 23 then FSHA256
    else if i == 24 then FMD5sum
    else FDescription
  }

  lemma {:induction false} KeyAtOrdinal(k: Key)
    ensures KeyAt(Ordinal(k)) == k
  {}

  lemma {:induction false} OrdinalKeyAt(i: nat)
    requires i < KEY_COUNT
    ensures Ordinal(KeyAt(i)) == i
  {}

  /** Length, first and third character tell the template names apart. */
  function Tag(name: string): nat {
    if |name| < 3 then 0 else (|name| * 256 + name[0] as nat) * 256 + name[2] as nat
  }

  function KeyOfTag(tag: nat): Key {
    if tag == 479331 then FPackage
    else if tag == 480882 then FVersion
    else if tag == 478307 then FLicense
    else if tag == 415342 then FVendor
    else if tag == 803171 then FArchitecture
    else if tag == 675177 then FMaintainer
    else if tag == 936307 then FInstalledSize
    else if tag == 476272 then FDepends
    else if tag == 607086 then FConflicts
    else if tag == 410213 then FBreaks
    else if tag == 741477 then FPreDepends
    else if tag == 544879 then FProvides
    else if tag == 545392 then FReplaces
    else if tag == 676451 then FRecommends
    else if tag == 545639 then FSuggests
    else if tag == 542056 then FEnhances
    else if tag == 480099 then FSection
    else if tag == 413545 then FOrigin
    else if tag == 544873 then FPriority
    else if tag == 542829 then FHomepage
    else if tag == 542316 then FFilename
    else if tag == 283514 then FSize
    else if tag == 283457 then FSHA1
    else if tag == 414529 then FSHA256
    else if tag == 412981 then FMD5sum
    else FDescription
  }

  lemma {:induction false} NamesAreTagged1(k: Key)
    requires Ordinal(k) < 9
    ensures KeyOfTag(Tag(NameOf(k))) == k
  {}

  lemma {:induction false} NamesAreTagged2(k: Key)
    requires 9 <= Ordinal(k) < 18
    ensures KeyOfTag(Tag(NameOf(k))) == k
  {}

  lemma {:induction false} NamesAreTagged3(k: Key)
    requires 18 <= Ordinal(k)
    ensures KeyOfTag(Tag(NameOf(k))) == k
  {}

  lemma {:induction false} NamesAreTagged(k: Key)
    ensures KeyOfTag(Tag(NameOf(k))) == k
  {
    if Ordinal(k) < 9 {
      NamesAreTagged1(k);
    } else if Ordinal(k) < 18 {
      NamesAreTagged2(k);
    } else {
      NamesAreTagged3(k);
    }
  }

  lemma {:induction false} NamesDistinct(k: Key, l: Key)
    requires NameOf(k) == NameOf(l)
    ensures k == l
  {
    NamesAreTagged(k);
    NamesAreTagged(l);
  }

  lemma {:induction false} NamesValid1(k: Key)
    requires Ordinal(k) < 7
    ensures FieldName(NameOf(k))
  {}

  lemma {:induction false} NamesValid2(k: Key)
    requires 7 <= Ordinal(k) < 14
    ensures FieldName(NameOf(k))
  {}

  lemma {:induction false} NamesValid3(k: Key)
    requires 14 <= Ordinal(k) < 20
    ensures FieldName(NameOf(k))
  {}

  lemma {:induction false} NamesValid4(k: Key)
    requires 20 <= Ordinal(k)
    ensures FieldName(NameOf(k))
  {}

  lemma {:induction false} TemplateNamesValid(k: Key)
    ensures FieldName(NameOf(k))
  {
    if Ordinal(k) < 7 {
      NamesValid1(k);
    } else if Ordinal(k) < 14 {
      NamesValid2(k);
    } else if Ordinal(k) < 20 {
      NamesValid3(k);
    } else {
      NamesValid4(k);
    }
  }

  const DEFAULT_HOMEPAGE := "http://nourlgiven.example.com/"
  const DEFAULT_DESCRIPTION := "no description given"

  /** The value of `Depends`: what is left of the dependencies after normalising them. */
  function DependsValue(dependencies: seq<string>, ignoreIteration: bool, noDepends: bool): Option<string> {
    if dependencies != [] && !noDepends then Some(Join(NormalizedAll(dependencies, ignoreIteration).0, ", ")) else None
  }

  /** The value of `Conflicts`: the package's own, then one for every dependency that is an inequality. */
  function ConflictsValue(dependencies: seq<string>, ignoreIteration: bool, own: Option<string>): Option<string> {
    var conflicts := (if own.Some? then [own.value] else []) + NormalizedAll(dependencies, ignoreIteration).1;
    if own.Some? || conflicts != [] then Some(Join(conflicts, ", ")) else None
  }

  function DependsOf(p: Package): Option<string> {
    DependsValue(p.dependencies, p.ignoreIteration, p.noDepends)
  }

  function ConflictsOf(p: Package): Option<string> {
    ConflictsValue(p.dependencies, p.ignoreIteration, p.conflicts)
  }

  /** What the template writes for a field; `None` leaves the field out. */
  function TemplateValue(
      p: Package, path: string, depends: Option<string>, conflicts: Option<string>, k: Key): Option<string> {
    match k
    case FPackage => Some(p.name)
    case FVersion => Some(p.FullVersion())
    case FLicense => Some(p.license)
    case FVendor => Some(p.vendor)
    case FArchitecture => Some(p.architecture)
    case FMaintainer => Some(p.maintainer)
    case FInstalledSize => Some(p.installedSize.GetOr(""))
    case FDepends => depends
    case FConflicts => conflicts
    case FBreaks => p.breaks
    case FPreDepends => p.preDepends
    case FProvides => p.providing
    case FReplaces => p.replacing
    case FRecommends => p.recommends
    case FSuggests => p.suggests
    case FEnhances => p.enhances
    case FSection => Some(p.category)
    case FOrigin => p.origin
    case FPriority => Some(p.priority.GetOr(""))
    case FHomepage => Some(p.homepage.GetOr(DEFAULT_HOMEPAGE))
    case FFilename => Some(path)
    case FSize => p.size
    case FSHA1 => p.sha1
    case FSHA256 => p.sha256
    case FMD5sum => p.md5
    case FDescription => Some(p.description.GetOr(DEFAULT_DESCRIPTION))
  }

  function ValueOf(p: Package, path: string, k: Key): Option<string> {
    TemplateValue(p, path, DependsOf(p), ConflictsOf(p), k)
  }

  function RowValue(p: Package, path: string): nat -> Option<string> {
    (i: nat) => ValueOf(p, path, KeyAt(i))
  }

  /** The template values in the order they are written. */
  function Row(p: Package, path: string): (row: seq<Option<string>>)
    ensures |row| == KEY_COUNT
  {
    Tabulate(RowValue(p, path), 0, KEY_COUNT)
  }

  lemma {:induction false} TabulatedIs<T>(f: nat -> T, n: nat, j: nat, k: Key, value: Key -> T)
    requires j < n && f(j) == value(k)
    ensures Tabulate(f, 0, n)[j] == value(k)
  {
    TabulateAt(f, 0, n, j);
  }

  lemma {:induction false} RowAt(p: Package, path: string, j: nat)
    requires j < KEY_COUNT
    ensures Row(p, path)[j] == ValueOf(p, path, KeyAt(j))
  {
    TabulatedIs(RowValue(p, path), KEY_COUNT, j, KeyAt(j), (k: Key) => ValueOf(p, path, k));
  }

  /** The fields of a row from position `i` on. */
  function RowFields(row: seq<Option<string>>, i: nat): seq<Field>
    requires i <= KEY_COUNT == |row|
    decreases KEY_COUNT - i
  {
    if i == KEY_COUNT then []
    else if row[i].None? then RowFields(row, i + 1)
    else [Field(NameOf(KeyAt(i)), row[i].value)] + RowFields(row, i + 1)
  }

  function RecordFields(p: Package, path: string): seq<Field> {
    RowFields(Row(p, path), 0) + p.extraFields
  }

  function Rendered(p: Package, codename: string): Result<string> {
    match RepositoryFilename(p, codename)
    case Err(reason) => Err(reason)
    case Ok(path) => Ok(WrittenAll(RecordFields(p, path)))
  }

  // ---- parsing

  function NormalizeExtraFieldName(name: string): string {
    if !HasPrefix(name, "X") then name
    else
      var rest := name[1..];
      var dash := IndexOf(rest, '-');
      if dash == |rest| || dash > 3 || (exists i :: 0 <= i < dash && rest[i] !in "BCS") then name
      else rest[dash + 1..]
  }

  /** Fields left over by the template, renamed, later ones replacing earlier ones of the same name. */
  function ExtraFields(fields: seq<Field>, extra: seq<Field>): seq<Field>
    decreases |fields|
  {
    if fields == [] then extra
    else ExtraFields(fields[1..], SetField(extra, NormalizeExtraFieldName(fields[0].name), fields[0].value))
  }

  /** The position at which parsing takes a template field out of the paragraph. */
  function TakeRank(k: Key): (n: nat)
    ensures n < KEY_COUNT
  {
    match k
    case FVersion => 0
    case FArchitecture => 1
    case FSection => 2
    case FLicense => 3
    case FMaintainer => 4
    case FPackage => 5
    case FHomepage => 6
    case FVendor => 7
    case FPriority => 8
    case FOrigin => 9
    case FInstalledSize => 10
    case FFilename => 11
    case FSHA1 => 12
    case FSHA256 => 13
    case FMD5sum => 14
    case FSize => 15
    case FDescription => 16
    case FDepends => 17
    case FRecommends => 18
    case FSuggests => 19
    case FEnhances => 20
    case FPreDepends => 21
    case FBreaks => 22
    case FConflicts => 23
    case FProvides => 24
    case FReplaces => 25
  }

  function TakenAt(i: nat): Key {
    if i == 0 then FVersion
    else if i == 1 then FArchitecture
    else if i == 2 then FSection
    else if i == 3 then FLicense
    else if i == 4 then FMaintainer
    else if i == 5 then FPackage
    else if i == 6 then FHomepage
    else if i == 7 then FVendor
    else if i == 8 then FPriority
    else if i == 9 then FOrigin
    else if i == 10 then FInstalledSize
    else if i == 11 then FFilename
    else if i == 12 then FSHA1
    else if i == 13 then FSHA256
    else if i == 14 then FMD5sum
    else if i == 15 then FSize
    else if i == 16 then FDescription
    else if i == 17 then FDepends
    else if i == 18 then FRecommends
    else if i == 19 then FSuggests
    else if i == 20 then FEnhances
    else if i == 21 then FPreDepends
    else if i == 22 then FBreaks
    else if i == 23 then FConflicts
    else if i == 24 then FProvides
    else FReplaces
  }

  lemma {:induction false} TakeRankInjective(k: Key)
    ensures TakenAt(TakeRank(k)) == k
  {}

  lemma {:induction false} TakenAtRank(i: nat)
    requires i < KEY_COUNT
    ensures TakeRank(TakenAt(i)) == i
  {}

  lemma {:induction false} TakeRankUnique(k: Key, l: Key)
    requires TakeRank(k) == TakeRank(l)
    ensures k == l
  {
    TakeRankInjective(k);
    TakeRankInjective(l);
  }

  ghost predicate TakenName(taken: nat, name: string) {
    exists k :: TakeRank(k) < taken && NameOf(k) == name
  }

  /** The fields left when the first `taken` template fields are gone. */
  ghost function Untaken(fields: seq<Field>, taken: nat): seq<Field> {
    if fields == [] then []
    else if TakenName(taken, fields[0].name) then Untaken(fields[1..], taken)
    else [fields[0]] + Untaken(fields[1..], taken)
  }

  function FieldValue(fields: seq<Field>, k: Key): Option<string> {
    Lookup(fields, NameOf(k))
  }

  function TakenValue(fields: seq<Field>): nat -> Option<string> {
    (i: nat) => FieldValue(fields, TakenAt(i))
  }

  /** The values of the template fields in the order they are taken. */
  function TakenValues(fields: seq<Field>): (values: seq<Option<string>>)
    ensures |values| == KEY_COUNT
  {
    Tabulate(TakenValue(fields), 0, KEY_COUNT)
  }

  lemma {:induction false} TakenValuesAt(fields: seq<Field>, j: nat)
    requires j < KEY_COUNT
    ensures TakenValues(fields)[j] == TakenValue(fields)(j)
  {
    TabulateAt(TakenValue(fields), 0, KEY_COUNT, j);
  }

  lemma {:induction false} TakenValueOf(fields: seq<Field>, j: nat, k: Key)
    requires TakenAt(j) == k
    ensures TakenValue(fields)(j) == FieldValue(fields, k)
  {}

  /** The package built from the values in the order they are taken. */
  function FromValues(
      values: seq<Option<string>>, dependencies: seq<string>, version: Version, extra: seq<Field>): Package
    requires |values| == KEY_COUNT
  {
    Package(
      values[5].GetOr(""), version, values[1].GetOr(""),
      values[4].GetOr(""), values[2].GetOr(""),
      values[3].GetOr("unknown"), values[7].GetOr("none"),
      values[6], values[9], values[8],
      values[10], values[16], values[11],
      values[15], values[12], values[13], values[14],
      dependencies, values[21],
      values[18], values[19], values[20],
      values[22], values[23], values[24],
      values[25], extra, "", false, false)
  }

  ghost function ParsedPackage(input: string): Result<Package> {
    PackageOf(ParseFields(input))
  }

  ghost function PackageOf(fields: seq<Field>): Result<Package> {
    PackageFrom(TakenValues(fields), Untaken(fields, KEY_COUNT))
  }

  /** The package built from the values taken and the fields left over. */
  function PackageFrom(values: seq<Option<string>>, left: seq<Field>): Result<Package>
    requires |values| == KEY_COUNT
  {
    var version := ParsedVersion(values[0].GetOr(""));
    if version.None? then Err("unsupported version string")
    else Ok(FromValues(values, ParsedDependencies(values[17].GetOr("")), version.value, ExtraFields(left, [])))
  }

  /** The version of a parsed package is the one its printed form splits into. */
  lemma {:induction false} VersionIsSplit(input: string)
    requires ParsedPackage(input).Ok?
    ensures var p := ParsedPackage(input).value; ParsedVersion(p.FullVersion()) == Some(p.version)
  {
    SplitOnce(TakenValues(ParseFields(input))[0].GetOr(""));
  }

  // ---- taking the template fields

  lemma {:induction false} UntakenNothing(fields: seq<Field>)
    ensures Untaken(fields, 0) == fields
  {
    if fields != [] {
      UntakenNothing(fields[1..]);
    }
  }

  lemma {:induction false} NotYetTaken(k: Key, taken: nat)
    requires taken <= TakeRank(k)
    ensures !TakenName(taken, NameOf(k))
  {
    forall l | TakeRank(l) < taken ensures NameOf(l) != NameOf(k) {
      if NameOf(l) == NameOf(k) {
        NamesDistinct(l, k);
      }
    }
  }

  lemma {:induction false} TakenNext(k: Key, name: string)
    ensures TakenName(TakeRank(k) + 1, name) <==> TakenName(TakeRank(k), name) || name == NameOf(k)
  {
    if TakenName(TakeRank(k) + 1, name) {
      var l :| TakeRank(l) < TakeRank(k) + 1 && NameOf(l) == name;
      if TakeRank(l) == TakeRank(k) {
        TakeRankUnique(l, k);
      }
    }
    if TakenName(TakeRank(k), name) {
      var l :| TakeRank(l) < TakeRank(k) && NameOf(l) == name;
      assert TakeRank(l) < TakeRank(k) + 1;
    }
  }

  lemma {:induction false} LookupUntaken(fields: seq<Field>, taken: nat, k: Key)
    requires taken <= TakeRank(k)
    ensures Lookup(Untaken(fields, taken), NameOf(k)) == Lookup(fields, NameOf(k))
  {
    NotYetTaken(k, taken);
    if fields != [] {
      LookupUntaken(fields[1..], taken, k);
      if fields[0].name != NameOf(k) {
        LookupTail(fields, NameOf(k));
        if !TakenName(taken, fields[0].name) {
          var kept := Untaken(fields, taken);
          assert kept[1..] == Untaken(fields[1..], taken);
          LookupTail(kept, NameOf(k));
        }
      }
    }
  }

  lemma {:induction false} UntakenAbsent(fields: seq<Field>, k: Key)
    requires forall i :: 0 <= i < |fields| ==> fields[i].name != NameOf(k)
    ensures Untaken(fields, TakeRank(k) + 1) == Untaken(fields, TakeRank(k))
  {
    if fields != [] {
      UntakenAbsent(fields[1..], k);
      TakenNext(k, fields[0].name);
    }
  }

  lemma {:induction false} DistinctTail(fields: seq<Field>)
    requires DistinctNames(fields) && fields != []
    ensures DistinctNames(fields[1..])
    ensures forall i :: 0 <= i < |fields[1..]| ==> fields[1..][i].name != fields[0].name
  {}

  lemma {:induction false} RemoveFirst(head: Field, rest: seq<Field>)
    ensures RemoveField([head] + rest, head.name) == rest
  {
    assert ([head] + rest)[1..] == rest;
    assert ([head] + rest)[..0] == [];
    assert Position([head] + rest, head.name) == 0;
  }

  lemma {:induction false} TakeOne(fields: seq<Field>, k: Key)
    requires DistinctNames(fields)
    ensures RemoveField(Untaken(fields, TakeRank(k)), NameOf(k)) == Untaken(fields, TakeRank(k) + 1)
  {
    if fields != [] {
      var head, rest := fields[0], fields[1..];
      DistinctTail(fields);
      NotYetTaken(k, TakeRank(k));
      TakenNext(k, head.name);
      if head.name == NameOf(k) {
        UntakenAbsent(rest, k);
        RemoveFirst(head, Untaken(rest, TakeRank(k)));
      } else {
        TakeOne(rest, k);
        if !TakenName(TakeRank(k), head.name) {
          var kept := [head] + Untaken(rest, TakeRank(k));
          assert kept[1..] == Untaken(rest, TakeRank(k));
          LookupTail(kept, NameOf(k));
        }
      }
    }
  }

  /** Takes one template field from the paragraph. */
  method TakeKey(paragraph: Paragraph, k: Key, ghost all: seq<Field>) returns (value: Option<string>)
    requires paragraph.Valid() && DistinctNames(all)
    requires paragraph.fields == Untaken(all, TakeRank(k))
    modifies paragraph
    ensures paragraph.Valid() && paragraph.fields == Untaken(all, TakeRank(k) + 1)
    ensures value == FieldValue(all, k)
  {
    LookupUntaken(all, TakeRank(k), k);
    TakeOne(all, k);
    value := paragraph.Take(NameOf(k));
  }

  method CollectExtraFields(fields: seq<Field>) returns (extra: seq<Field>)
    ensures extra == ExtraFields(fields, [])
  {
    extra := [];
    for i := 0 to |fields|
      invariant ExtraFields(fields[i..], extra) == ExtraFields(fields, [])
    {
      var name := NormalizeExtraFieldName(fields[i].name);
      assert fields[i..][1..] == fields[i + 1..];
      var p := Position(extra, name);
      if p < |extra| {
        extra := extra[p := Field(name, fields[i].value)];
      } else {
        extra := extra + [Field(name, fields[i].value)];
      }
    }
    assert fields[|fields|..] == [];
  }

  method TakeAt(paragraph: Paragraph, i: nat, ghost all: seq<Field>) returns (value: Option<string>)
    requires i < KEY_COUNT
    requires paragraph.Valid() && DistinctNames(all) && paragraph.fields == Untaken(all, i)
    modifies paragraph
    ensures paragraph.Valid() && paragraph.fields == Untaken(all, i + 1)
    ensures value == TakenValues(all)[i]
  {
    TakenAtRank(i);
    TakenValuesAt(all, i);
    TakenValueOf(all, i, TakenAt(i));
    value := TakeKey(paragraph, TakenAt(i), all);
  }

  /** Takes the next template field, in the order of the parser. */
  method TakeNext(paragraph: Paragraph, values: seq<Option<string>>, ghost all: seq<Field>)
    returns (more: seq<Option<string>>)
    requires |values| < KEY_COUNT && values == TakenValues(all)[..|values|]
    requires paragraph.Valid() && DistinctNames(all) && paragraph.fields == Untaken(all, |values|)
    modifies paragraph
    ensures |more| == |values| + 1 && more == TakenValues(all)[..|more|]
    ensures paragraph.Valid() && paragraph.fields == Untaken(all, |more|)
  {
    var value := TakeAt(paragraph, |values|, all);
    TakeSnoc(TakenValues(all), |values|);
    more := values + [value];
  }

  method TakeAll(paragraph: Paragraph, ghost all: seq<Field>) returns (values: seq<Option<string>>)
    requires paragraph.Valid() && DistinctNames(all) && paragraph.fields == all
    modifies paragraph
    ensures paragraph.Valid() && paragraph.fields == Untaken(all, KEY_COUNT)
    ensures values == TakenValues(all)
  {
    UntakenNothing(all);
    values := [];
    while |values| < KEY_COUNT
      invariant |values| <= KEY_COUNT && values == TakenValues(all)[..|values|]
      invariant paragraph.Valid() && paragraph.fields == Untaken(all, |values|)
    {
      values := TakeNext(paragraph, values, all);
    }
  }

  method ParsePackage(input: string) returns (r: Result<Package>)
    ensures r == ParsedPackage(input)
  {
    var paragraph := ParseParagraph(input);
    ghost var all := paragraph.fields;
    var values := TakeAll(paragraph, all);
    var version := ParsedVersion(values[0].GetOr(""));
    if version.None? {
      return Err("unsupported version string");
    }
    var extra := CollectExtraFields(paragraph.fields);
    var dependencies := ParseDependencies(values[17].GetOr(""));
    return Ok(FromValues(values, dependencies, version.value, extra));
  }

  // ---- a rendered record reads back

  ghost predicate NoneNamed(fields: seq<Field>, name: string) {
    forall i :: 0 <= i < |fields| ==> fields[i].name != name
  }

  lemma {:induction false} LookupNone(fields: seq<Field>, name: string)
    requires NoneNamed(fields, name)
    ensures Lookup(fields, name) == None
  {}

  lemma {:induction false} KeyAtIs(i: nat, k: Key)
    requires i < KEY_COUNT
    ensures NameOf(KeyAt(i)) == NameOf(k) <==> i == Ordinal(k)
  {
    OrdinalKeyAt(i);
    KeyAtOrdinal(k);
    if NameOf(KeyAt(i)) == NameOf(k) {
      NamesDistinct(KeyAt(i), k);
    }
  }

  lemma {:induction false} LookupRow(row: seq<Option<string>>, extra: seq<Field>, i: nat, k: Key)
    requires i <= KEY_COUNT == |row| && NoneNamed(extra, NameOf(k))
    ensures Lookup(RowFields(row, i) + extra, NameOf(k)) == if i <= Ordinal(k) then row[Ordinal(k)] else None
    decreases KEY_COUNT - i
  {
    if i == KEY_COUNT {
      AppendEmpty(extra);
      LookupNone(extra, NameOf(k));
    } else {
      LookupRow(row, extra, i + 1, k);
      KeyAtIs(i, k);
      if row[i].Some? {
        var head, rest := Field(NameOf(KeyAt(i)), row[i].value), RowFields(row, i + 1);
        Assoc([head], rest, extra);
        LookupHead(head, rest + extra, NameOf(k));
      }
    }
  }

  ghost predicate NoneTemplate(fields: seq<Field>) {
    forall i, k: Key :: 0 <= i < |fields| ==> fields[i].name != NameOf(k)
  }

  lemma {:induction false} TakenNameOfKey(k: Key)
    ensures TakenName(KEY_COUNT, NameOf(k))
  {
    assert TakeRank(k) < KEY_COUNT;
  }

  lemma {:induction false} UntakenExtra(extra: seq<Field>)
    requires NoneTemplate(extra)
    ensures Untaken(extra, KEY_COUNT) == extra
  {
    if extra != [] {
      assert extra[0].name == extra[0].name;
      UntakenExtra(extra[1..]);
    }
  }

  lemma {:induction false} UntakenRow(row: seq<Option<string>>, extra: seq<Field>, i: nat)
    requires i <= KEY_COUNT == |row| && NoneTemplate(extra)
    ensures Untaken(RowFields(row, i) + extra, KEY_COUNT) == extra
    decreases KEY_COUNT - i
  {
    if i == KEY_COUNT {
      AppendEmpty(extra);
      UntakenExtra(extra);
    } else {
      UntakenRow(row, extra, i + 1);
      if row[i].Some? {
        var head, rest := Field(NameOf(KeyAt(i)), row[i].value), RowFields(row, i + 1);
        Assoc([head], rest, extra);
        assert ([head] + (rest + extra))[1..] == rest + extra;
        TakenNameOfKey(KeyAt(i));
      }
    }
  }

  /** Names that `normalizeExtraFieldName` leaves alone and that do not repeat. */
  ghost predicate PlainExtras(fields: seq<Field>) {
    DistinctNames(fields) && forall i :: 0 <= i < |fields| ==> NormalizeExtraFieldName(fields[i].name) == fields[i].name
  }

  lemma {:induction false} ExtrasKept(done: seq<Field>, fields: seq<Field>)
    requires PlainExtras(done + fields)
    ensures ExtraFields(fields, done) == done + fields
    decreases |fields|
  {
    if fields == [] {
      AppendEmpty(done);
    } else {
      var head := fields[0];
      assert (done + fields)[|done|] == head;
      forall i | 0 <= i < |done| ensures done[i].name != head.name {
        assert (done + fields)[i] == done[i];
      }
      SetAppends(done, head.name, head.value);
      Assoc(done, [head], fields[1..]);
      assert [head] + fields[1..] == fields;
      ExtrasKept(done + [head], fields[1..]);
    }
  }

  /** Every field name valid, no field twice. */
  lemma {:induction false} RowNames(row: seq<Option<string>>, extra: seq<Field>, i: nat, j: nat)
    requires i <= KEY_COUNT == |row| && NoneTemplate(extra)
    requires j < |RowFields(row, i) + extra|
    ensures var fields := RowFields(row, i) + extra;
            if j < |RowFields(row, i)|
            then exists k :: i <= k < KEY_COUNT && row[k].Some? && fields[j] == Field(NameOf(KeyAt(k)), row[k].value)
            else fields[j] in extra
    decreases KEY_COUNT - i
  {
    if i < KEY_COUNT {
      var rest := RowFields(row, i + 1);
      if row[i].None? {
        RowNames(row, extra, i + 1, j);
      } else {
        var head := Field(NameOf(KeyAt(i)), row[i].value);
        Assoc([head], rest, extra);
        if j > 0 {
          RowNames(row, extra, i + 1, j - 1);
        }
      }
    }
  }

  ghost predicate SoundRow(row: seq<Option<string>>) {
    forall i :: 0 <= i < |row| ==> row[i].Some? ==> Canonical(row[i].value) && '\r' !in row[i].value
  }

  ghost predicate SoundExtras(extra: seq<Field>) {
    && PlainExtras(extra) && NoneTemplate(extra)
    && forall i :: 0 <= i < |extra| ==> FieldName(extra[i].name) && Canonical(extra[i].value) && '\r' !in extra[i].value
  }

  lemma {:induction false} RowDistinct(row: seq<Option<string>>, extra: seq<Field>, i: nat)
    requires i <= KEY_COUNT == |row| && NoneTemplate(extra) && DistinctNames(extra)
    ensures DistinctNames(RowFields(row, i) + extra)
    decreases KEY_COUNT - i
  {
    if i == KEY_COUNT {
      AppendEmpty(extra);
    } else {
      RowDistinct(row, extra, i + 1);
      if row[i].Some? {
        var head, rest := Field(NameOf(KeyAt(i)), row[i].value), RowFields(row, i + 1);
        Assoc([head], rest, extra);
        assert NoneNamed(extra, NameOf(KeyAt(i)));
        LookupRow(row, extra, i + 1, KeyAt(i));
        OrdinalKeyAt(i);
        DistinctCons(head, rest + extra);
      }
    }
  }

  lemma {:induction false} DistinctCons(head: Field, rest: seq<Field>)
    requires DistinctNames(rest) && Lookup(rest, head.name) == None
    ensures DistinctNames([head] + rest)
  {}

  lemma {:induction false} RecordWritable(row: seq<Option<string>>, extra: seq<Field>)
    requires |row| == KEY_COUNT && SoundRow(row) && SoundExtras(extra)
    ensures var fields := RowFields(row, 0) + extra;
            Writable(fields) && forall i :: 0 <= i < |fields| ==> Canonical(fields[i].value)
  {
    var fields := RowFields(row, 0) + extra;
    RowDistinct(row, extra, 0);
    forall j | 0 <= j < |fields|
      ensures FieldName(fields[j].name) && Canonical(fields[j].value) && '\r' !in fields[j].value
    {
      RowNames(row, extra, 0, j);
      if j < |RowFields(row, 0)| {
        var k :| 0 <= k < KEY_COUNT && row[k].Some? && fields[j] == Field(NameOf(KeyAt(k)), row[k].value);
        TemplateNamesValid(KeyAt(k));
      }
    }
  }

  // ---- byte stability

  /** A package whose record the parser can take apart: canonical values, extra fields apart from the template, a
      version and dependencies that survive their own codec. */
  ghost predicate Sound(p: Package, path: string) {
    && SoundRow(Row(p, path)) && SoundExtras(p.extraFields)
    && ParsedVersion(p.FullVersion()).Some? && !DashOnlyInFront(AfterEpoch(p.FullVersion()))
    && !p.ignoreIteration
    && forall i :: 0 <= i < |p.dependencies| ==> SteadyEntry(p.dependencies[i])
  }

  /** All dependencies were inequalities, so `Depends` is printed with nothing in it. */
  predicate DependsVanish(p: Package) {
    p.dependencies != [] && !p.noDepends && NormalizedAll(p.dependencies, p.ignoreIteration).0 == []
  }

  ghost predicate WellFormed(p: Package, path: string) {
    Sound(p, path) && !DependsVanish(p)
  }

  // ---- what a reread package has in common with the one printed

  /** What `q` must have for its template to print like that of `p`, relations apart. */
  ghost predicate SameTemplate(p: Package, q: Package, path: string) {
    && q.name == p.name && q.FullVersion() == p.FullVersion() && q.license == p.license && q.vendor == p.vendor
    && q.architecture == p.architecture && q.maintainer == p.maintainer && q.category == p.category
    && q.installedSize == Some(p.installedSize.GetOr("")) && q.priority == Some(p.priority.GetOr(""))
    && q.homepage == Some(p.homepage.GetOr(DEFAULT_HOMEPAGE))
    && q.description == Some(p.description.GetOr(DEFAULT_DESCRIPTION))
    && q.breaks == p.breaks && q.preDepends == p.preDepends && q.providing == p.providing
    && q.replacing == p.replacing && q.recommends == p.recommends && q.suggests == p.suggests
    && q.enhances == p.enhances && q.origin == p.origin
    && q.size == p.size && q.sha1 == p.sha1 && q.sha256 == p.sha256 && q.md5 == p.md5
    && q.indexFilename == Some(path) && q.extraFields == p.extraFields
  }

  /** The values taken say what package this is. */
  predicate CarriesIdentity(values: seq<Option<string>>, p: Package, path: string) {
    && |values| == KEY_COUNT
    && values[0] == Some(p.FullVersion()) && values[1] == Some(p.architecture) && values[2] == Some(p.category)
    && values[3] == Some(p.license) && values[4] == Some(p.maintainer) && values[5] == Some(p.name)
    && values[7] == Some(p.vendor) && values[11] == Some(path)
  }

  /** They carry the fields that the template fills in when they are missing. */
  ghost predicate CarriesDefaulted(values: seq<Option<string>>, p: Package) {
    && |values| == KEY_COUNT
    && values[6] == Some(p.homepage.GetOr(DEFAULT_HOMEPAGE)) && values[8] == Some(p.priority.GetOr(""))
    && values[10] == Some(p.installedSize.GetOr("")) && values[16] == Some(p.description.GetOr(DEFAULT_DESCRIPTION))
  }

  /** They carry what is known of the package's file. */
  ghost predicate CarriesFile(values: seq<Option<string>>, p: Package) {
    && |values| == KEY_COUNT
    && values[9] == p.origin && values[12] == p.sha1 && values[13] == p.sha256
    && values[14] == p.md5 && values[15] == p.size
  }

  /** They carry the relations. */
  predicate CarriesRelations(values: seq<Option<string>>, p: Package, conflicts: Option<string>) {
    && |values| == KEY_COUNT
    && values[18] == p.recommends && values[19] == p.suggests && values[20] == p.enhances
    && values[21] == p.preDepends && values[22] == p.breaks && values[23] == conflicts
    && values[24] == p.providing && values[25] == p.replacing
  }

  lemma {:induction false} IdentityKept(
      values: seq<Option<string>>, p: Package, path: string, d: seq<string>, v: Version, extra: seq<Field>)
    requires CarriesIdentity(values, p, path)
    ensures var q := FromValues(values, d, v, extra);
            && q.name == p.name && q.license == p.license && q.vendor == p.vendor
            && q.architecture == p.architecture && q.maintainer == p.maintainer && q.category == p.category
            && q.version == v && q.extraFields == extra && q.indexFilename == Some(path)
            && q.dependencies == d && !q.noDepends && !q.ignoreIteration
  {}

  lemma {:induction false} DefaultedKept(
      values: seq<Option<string>>, p: Package, d: seq<string>, v: Version, extra: seq<Field>)
    requires CarriesDefaulted(values, p)
    ensures var q := FromValues(values, d, v, extra);
            && q.installedSize == Some(p.installedSize.GetOr("")) && q.priority == Some(p.priority.GetOr(""))
            && q.homepage == Some(p.homepage.GetOr(DEFAULT_HOMEPAGE))
            && q.description == Some(p.description.GetOr(DEFAULT_DESCRIPTION))
  {}

  lemma {:induction false} FileKept(
      values: seq<Option<string>>, p: Package, d: seq<string>, v: Version, extra: seq<Field>)
    requires CarriesFile(values, p)
    ensures var q := FromValues(values, d, v, extra);
            q.origin == p.origin && q.size == p.size && q.sha1 == p.sha1 && q.sha256 == p.sha256 && q.md5 == p.md5
  {}

  lemma {:induction false} RelationsKept(
      values: seq<Option<string>>, p: Package, conflicts: Option<string>, d: seq<string>, v: Version, extra: seq<Field>)
    requires CarriesRelations(values, p, conflicts)
    ensures var q := FromValues(values, d, v, extra);
            && q.breaks == p.breaks && q.preDepends == p.preDepends && q.providing == p.providing
            && q.replacing == p.replacing && q.recommends == p.recommends && q.suggests == p.suggests
            && q.enhances == p.enhances && q.conflicts == conflicts
  {}

  lemma {:induction false} SameTemplateValue(
      p: Package, q: Package, path: string, depends: Option<string>, conflicts: Option<string>, k: Key)
    requires SameTemplate(p, q, path)
    ensures TemplateValue(q, path, depends, conflicts, k) == TemplateValue(p, path, depends, conflicts, k)
  {}

  lemma {:induction false} RelationsApart(
      p: Package, path: string, depends: Option<string>, conflicts: Option<string>, depends': Option<string>, k: Key)
    requires k != FDepends
    ensures TemplateValue(p, path, depends, conflicts, k) == TemplateValue(p, path, depends', conflicts, k)
  {}

  // ---- the relations read back

  /** What is left of a list of dependencies after printing and parsing it. */
  lemma {:induction false} KeptDependencies(dependencies: seq<string>)
    requires forall i :: 0 <= i < |dependencies| ==> SteadyEntry(dependencies[i])
    ensures var kept := NormalizedAll(dependencies, false).0;
            && ParsedDependencies(Join(kept, ", ")) == kept
            && NormalizedAll(kept, false) == (kept, [])
            && (forall i :: 0 <= i < |kept| ==> SteadyEntry(kept[i]))
  {
    var kept := NormalizedAll(dependencies, false).0;
    DependsFixpoint(dependencies);
    SteadyListSettles(dependencies);
    forall i | 0 <= i < |kept| ensures SteadyEntry(kept[i]) {
      SettledIsSteady(kept[i]);
    }
  }

  /** The dependencies read back from the `Depends` a list of steady entries prints. */
  lemma {:induction false} DependenciesReread(dependencies: seq<string>, noDepends: bool)
    requires forall i :: 0 <= i < |dependencies| ==> SteadyEntry(dependencies[i])
    ensures var reread := ParsedDependencies(DependsValue(dependencies, false, noDepends).GetOr(""));
            && reread == (if dependencies != [] && !noDepends then NormalizedAll(dependencies, false).0 else [])
            && NormalizedAll(reread, false) == (reread, [])
            && (forall i :: 0 <= i < |reread| ==> SteadyEntry(reread[i]))
  {
    if dependencies != [] && !noDepends {
      KeptDependencies(dependencies);
    }
  }

  lemma {:induction false} SettledDepends(reread: seq<string>)
    requires NormalizedAll(reread, false) == (reread, [])
    ensures DependsValue(reread, false, false) == if reread == [] then None else Some(Join(reread, ", "))
  {}

  lemma {:induction false} SettledConflicts(reread: seq<string>, own: Option<string>)
    requires NormalizedAll(reread, false) == (reread, [])
    ensures ConflictsValue(reread, false, own) == own
  {
    if own.Some? {
      AppendEmpty([own.value]);
    }
  }

  /** `Depends` read back prints as before, or is dropped when every dependency became a conflict. */
  lemma {:induction false} DependsReread(dependencies: seq<string>, noDepends: bool)
    requires forall i :: 0 <= i < |dependencies| ==> SteadyEntry(dependencies[i])
    ensures var depends := DependsValue(dependencies, false, noDepends);
            var vanish := dependencies != [] && !noDepends && NormalizedAll(dependencies, false).0 == [];
            DependsValue(ParsedDependencies(depends.GetOr("")), false, false) == if vanish then None else depends
  {
    DependenciesReread(dependencies, noDepends);
    SettledDepends(ParsedDependencies(DependsValue(dependencies, false, noDepends).GetOr("")));
  }

  /** What a package read back from a record has for relations. */
  ghost predicate RelationsRead(p: Package, q: Package) {
    && q.conflicts == ConflictsOf(p) && !q.noDepends && !q.ignoreIteration
    && q.dependencies == ParsedDependencies(DependsOf(p).GetOr(""))
  }

  lemma {:induction false} RelationsReread(p: Package, q: Package)
    requires !p.ignoreIteration && RelationsRead(p, q)
    requires forall i :: 0 <= i < |p.dependencies| ==> SteadyEntry(p.dependencies[i])
    ensures forall i :: 0 <= i < |q.dependencies| ==> SteadyEntry(q.dependencies[i])
    ensures ConflictsOf(q) == ConflictsOf(p)
    ensures DependsOf(q) == if DependsVanish(p) then None else DependsOf(p)
    ensures !DependsVanish(q)
  {
    DependenciesReread(p.dependencies, p.noDepends);
    DependsReread(p.dependencies, p.noDepends);
    SettledConflicts(q.dependencies, q.conflicts);
  }

  // ---- the record read back

  /** A record parses back to its package as read. */
  lemma {:induction false} ParsesRecord(p: Package, path: string)
    requires Sound(p, path)
    ensures var fields := RecordFields(p, path);
            ParseFields(WrittenAll(fields)) == fields && Untaken(fields, KEY_COUNT) == p.extraFields
  {
    var row := Row(p, path);
    RecordWritable(row, p.extraFields);
    ParagraphRoundTrip(RecordFields(p, path));
    UntakenRow(row, p.extraFields, 0);
  }

  lemma {:induction false} TakenValueIs(p: Package, path: string, k: Key)
    requires NoneTemplate(p.extraFields)
    ensures TakenValues(RecordFields(p, path))[TakeRank(k)] == ValueOf(p, path, k)
  {
    TakeRankInjective(k);
    TakenValuesAt(RecordFields(p, path), TakeRank(k));
    TakenValueOf(RecordFields(p, path), TakeRank(k), k);
    KeyAtOrdinal(k);
    RowAt(p, path, Ordinal(k));
    WrittenAt(Row(p, path), p.extraFields, k);
  }

  /** The values taken from a paragraph are those of the template. */
  ghost predicate Carries(
      values: seq<Option<string>>, p: Package, path: string, depends: Option<string>, conflicts: Option<string>) {
    |values| == KEY_COUNT && forall k: Key :: values[TakeRank(k)] == TemplateValue(p, path, depends, conflicts, k)
  }

  lemma {:induction false} RecordCarries(p: Package, path: string)
    requires NoneTemplate(p.extraFields)
    ensures Carries(TakenValues(RecordFields(p, path)), p, path, DependsOf(p), ConflictsOf(p))
  {
    var values := TakenValues(RecordFields(p, path));
    forall k: Key ensures values[TakeRank(k)] == TemplateValue(p, path, DependsOf(p), ConflictsOf(p), k) {
      TakenValueIs(p, path, k);
    }
  }

  lemma {:induction false} CarriedAt(
      values: seq<Option<string>>, p: Package, path: string, depends: Option<string>, conflicts: Option<string>,
      k: Key, i: nat, value: Option<string>)
    requires Carries(values, p, path, depends, conflicts) && i == TakeRank(k)
    requires value == TemplateValue(p, path, depends, conflicts, k)
    ensures values[i] == value
  {}

  lemma {:induction false} CarriesIdentityRead(
      values: seq<Option<string>>, p: Package, path: string, depends: Option<string>, conflicts: Option<string>)
    requires Carries(values, p, path, depends, conflicts)
    ensures CarriesIdentity(values, p, path)
  {
    CarriedAt(values, p, path, depends, conflicts, FVersion, 0, Some(p.FullVersion()));
    CarriedAt(values, p, path, depends, conflicts, FArchitecture, 1, Some(p.architecture));
    CarriedAt(values, p, path, depends, conflicts, FSection, 2, Some(p.category));
    CarriedAt(values, p, path, depends, conflicts, FLicense, 3, Some(p.license));
    CarriedAt(values, p, path, depends, conflicts, FMaintainer, 4, Some(p.maintainer));
    CarriedAt(values, p, path, depends, conflicts, FPackage, 5, Some(p.name));
    CarriedAt(values, p, path, depends, conflicts, FVendor, 7, Some(p.vendor));
    CarriedAt(values, p, path, depends, conflicts, FFilename, 11, Some(path));
  }

  lemma {:induction false} CarriesDefaultedRead(
      values: seq<Option<string>>, p: Package, path: string, depends: Option<string>, conflicts: Option<string>)
    requires Carries(values, p, path, depends, conflicts)
    ensures CarriesDefaulted(values, p)
  {
    CarriedAt(values, p, path, depends, conflicts, FHomepage, 6, Some(p.homepage.GetOr(DEFAULT_HOMEPAGE)));
    CarriedAt(values, p, path, depends, conflicts, FPriority, 8, Some(p.priority.GetOr("")));
    CarriedAt(values, p, path, depends, conflicts, FInstalledSize, 10, Some(p.installedSize.GetOr("")));
    CarriedAt(values, p, path, depends, conflicts, FDescription, 16, Some(p.description.GetOr(DEFAULT_DESCRIPTION)));
  }

  lemma {:induction false} CarriesFileRead(
      values: seq<Option<string>>, p: Package, path: string, depends: Option<string>, conflicts: Option<string>)
    requires Carries(values, p, path, depends, conflicts)
    ensures CarriesFile(values, p)
  {
    CarriedAt(values, p, path, depends, conflicts, FOrigin, 9, p.origin);
    CarriedAt(values, p, path, depends, conflicts, FSHA1, 12, p.sha1);
    CarriedAt(values, p, path, depends, conflicts, FSHA256, 13, p.sha256);
    CarriedAt(values, p, path, depends, conflicts, FMD5sum, 14, p.md5);
    CarriedAt(values, p, path, depends, conflicts, FSize, 15, p.size);
  }

  lemma {:induction false} CarriesRelationsRead(
      values: seq<Option<string>>, p: Package, path: string, depends: Option<string>, conflicts: Option<string>)
    requires Carries(values, p, path, depends, conflicts)
    ensures CarriesRelations(values, p, conflicts)
  {
    CarriedAt(values, p, path, depends, conflicts, FRecommends, 18, p.recommends);
    CarriedAt(values, p, path, depends, conflicts, FSuggests, 19, p.suggests);
    CarriedAt(values, p, path, depends, conflicts, FEnhances, 20, p.enhances);
    CarriedAt(values, p, path, depends, conflicts, FPreDepends, 21, p.preDepends);
    CarriedAt(values, p, path, depends, conflicts, FBreaks, 22, p.breaks);
    CarriedAt(values, p, path, depends, conflicts, FConflicts, 23, conflicts);
    CarriedAt(values, p, path, depends, conflicts, FProvides, 24, p.providing);
    CarriedAt(values, p, path, depends, conflicts, FReplaces, 25, p.replacing);
  }

  lemma {:induction false} SameRow(p: Package, q: Package, path: string)
    requires SameTemplate(p, q, path) && ConflictsOf(q) == ConflictsOf(p) && DependsOf(q) == DependsOf(p)
    ensures RecordFields(q, path) == RecordFields(p, path)
  {
    forall i | 0 <= i < KEY_COUNT ensures Row(q, path)[i] == Row(p, path)[i] {
      RowAt(p, path, i);
      RowAt(q, path, i);
      SameTemplateValue(p, q, path, DependsOf(p), ConflictsOf(p), KeyAt(i));
    }
    assert Row(q, path) == Row(p, path);
  }

  lemma {:induction false} SoundRowWeaker(a: seq<Option<string>>, b: seq<Option<string>>)
    requires SoundRow(a) && |a| == |b| && forall i :: 0 <= i < |a| ==> b[i] == a[i] || b[i] == None
    ensures SoundRow(b)
  {}

  lemma {:induction false} RereadRowAt(p: Package, q: Package, path: string, i: nat)
    requires i < KEY_COUNT && SameTemplate(p, q, path) && ConflictsOf(q) == ConflictsOf(p)
    requires DependsOf(q) == DependsOf(p) || DependsOf(q) == None
    ensures Row(q, path)[i] == Row(p, path)[i] || Row(q, path)[i] == None
  {
    RowAt(p, path, i);
    RowAt(q, path, i);
    SameTemplateValue(p, q, path, DependsOf(q), ConflictsOf(p), KeyAt(i));
    if KeyAt(i) != FDepends {
      RelationsApart(p, path, DependsOf(q), ConflictsOf(p), DependsOf(p), KeyAt(i));
    } else {
      DependsOfTemplate(p, path, DependsOf(q), ConflictsOf(p));
      DependsOfTemplate(p, path, DependsOf(p), ConflictsOf(p));
    }
  }

  lemma {:induction false} RereadSoundRow(p: Package, q: Package, path: string)
    requires SoundRow(Row(p, path)) && SameTemplate(p, q, path) && ConflictsOf(q) == ConflictsOf(p)
    requires DependsOf(q) == DependsOf(p) || DependsOf(q) == None
    ensures SoundRow(Row(q, path))
  {
    forall i | 0 <= i < KEY_COUNT ensures Row(q, path)[i] == Row(p, path)[i] || Row(q, path)[i] == None {
      RereadRowAt(p, q, path, i);
    }
    SoundRowWeaker(Row(p, path), Row(q, path));
  }

  lemma {:induction false} WrittenAt(row: seq<Option<string>>, extra: seq<Field>, k: Key)
    requires |row| == KEY_COUNT && NoneTemplate(extra)
    ensures Lookup(RowFields(row, 0) + extra, NameOf(k)) == row[Ordinal(k)]
  {
    assert NoneNamed(extra, NameOf(k));
    LookupRow(row, extra, 0, k);
  }

  lemma {:induction false} DependsInRow(p: Package, path: string)
    ensures Row(p, path)[Ordinal(FDepends)] == DependsOf(p)
  {
    KeyAtOrdinal(FDepends);
    RowAt(p, path, Ordinal(FDepends));
    DependsOfTemplate(p, path, DependsOf(p), ConflictsOf(p));
  }

  lemma {:induction false} DependsOfTemplate(
      p: Package, path: string, depends: Option<string>, conflicts: Option<string>)
    ensures TemplateValue(p, path, depends, conflicts, FDepends) == depends
  {}

  lemma {:induction false} DependsWritten(p: Package, path: string)
    requires NoneTemplate(p.extraFields)
    ensures Lookup(RecordFields(p, path), NameOf(FDepends)) == DependsOf(p)
  {
    WrittenAt(Row(p, path), p.extraFields, FDepends);
    DependsInRow(p, path);
  }

  /** Two sound packages whose records differ in `Depends` print different text. */
  lemma {:induction false} DifferentText(p: Package, q: Package, path: string)
    requires Sound(p, path) && Sound(q, path) && DependsOf(q) != DependsOf(p)
    ensures WrittenAll(RecordFields(q, path)) != WrittenAll(RecordFields(p, path))
  {
    ParsesRecord(p, path);
    ParsesRecord(q, path);
    DependsWritten(p, path);
    DependsWritten(q, path);
  }

  /** The package `ParsePackage` returns for the record of `p`. */
  ghost function Reread(p: Package, path: string): Package
    requires ParsedVersion(p.FullVersion()).Some?
  {
    FromValues(TakenValues(RecordFields(p, path)), ParsedDependencies(DependsOf(p).GetOr("")),
      ParsedVersion(p.FullVersion()).value, p.extraFields)
  }

  lemma {:induction false} PackageFromValues(
      values: seq<Option<string>>, left: seq<Field>, full: string, depends: Option<string>)
    requires |values| == KEY_COUNT && values[0] == Some(full) && values[17] == depends
    requires ParsedVersion(full).Some? && ExtraFields(left, []) == left
    ensures PackageFrom(values, left)
            == Ok(FromValues(values, ParsedDependencies(depends.GetOr("")), ParsedVersion(full).value, left))
  {}

  lemma {:induction false} CarriedEnds(
      values: seq<Option<string>>, p: Package, path: string, depends: Option<string>, conflicts: Option<string>)
    requires Carries(values, p, path, depends, conflicts)
    ensures values[0] == Some(p.FullVersion()) && values[17] == depends
  {
    CarriedAt(values, p, path, depends, conflicts, FVersion, 0, Some(p.FullVersion()));
    CarriedAt(values, p, path, depends, conflicts, FDepends, 17, depends);
  }

  lemma {:induction false} PackageFromCarried(
      values: seq<Option<string>>, p: Package, path: string, depends: Option<string>, conflicts: Option<string>)
    requires Carries(values, p, path, depends, conflicts) && ParsedVersion(p.FullVersion()).Some?
    requires PlainExtras(p.extraFields)
    ensures PackageFrom(values, p.extraFields)
            == Ok(FromValues(values, ParsedDependencies(depends.GetOr("")), ParsedVersion(p.FullVersion()).value,
            p.extraFields))
  {
    CarriedEnds(values, p, path, depends, conflicts);
    AppendEmpty(p.extraFields);
    ExtrasKept([], p.extraFields);
    PackageFromValues(values, p.extraFields, p.FullVersion(), depends);
  }

  lemma {:induction false} PackageOfRecord(p: Package, path: string)
    requires Sound(p, path) && Untaken(RecordFields(p, path), KEY_COUNT) == p.extraFields
    ensures PackageOf(RecordFields(p, path)) == Ok(Reread(p, path))
  {
    RecordCarries(p, path);
    PackageFromCarried(TakenValues(RecordFields(p, path)), p, path, DependsOf(p), ConflictsOf(p));
  }

  lemma {:induction false} ParsedPackageIs(text: string, fields: seq<Field>)
    requires ParseFields(text) == fields
    ensures ParsedPackage(text) == PackageOf(fields)
  {}

  lemma {:induction false} ParsedRecord(p: Package, path: string)
    requires Sound(p, path)
    ensures ParsedPackage(WrittenAll(RecordFields(p, path))) == Ok(Reread(p, path))
  {
    ParsesRecord(p, path);
    PackageOfRecord(p, path);
    ParsedPackageIs(WrittenAll(RecordFields(p, path)), RecordFields(p, path));
  }

  lemma {:induction false} RereadKeeps(p: Package, path: string)
    requires Sound(p, path)
    ensures SameTemplate(p, Reread(p, path), path) && RelationsRead(p, Reread(p, path))
  {
    RecordCarries(p, path);
    VersionRoundTrip(p.FullVersion());
    ValuesKeep(TakenValues(RecordFields(p, path)), p, path, DependsOf(p), ConflictsOf(p),
        ParsedDependencies(DependsOf(p).GetOr("")),
      ParsedVersion(p.FullVersion()).value);
  }

  lemma {:induction false} ValuesKeep(
      values: seq<Option<string>>, p: Package, path: string, depends: Option<string>, conflicts: Option<string>,
      d: seq<string>, v: Version)
    requires Carries(values, p, path, depends, conflicts)
    requires VersionText(v) == p.FullVersion()
    ensures var q := FromValues(values, d, v, p.extraFields);
            && SameTemplate(p, q, path) && q.conflicts == conflicts
            && q.dependencies == d && !q.noDepends && !q.ignoreIteration
  {
    CarriesIdentityRead(values, p, path, depends, conflicts);
    CarriesDefaultedRead(values, p, path, depends, conflicts);
    CarriesFileRead(values, p, path, depends, conflicts);
    CarriesRelationsRead(values, p, path, depends, conflicts);
    GroupsKeep(values, p, path, depends, conflicts, d, v);
  }

  lemma {:induction false} GroupsKeep(
      values: seq<Option<string>>, p: Package, path: string, depends: Option<string>, conflicts: Option<string>,
      d: seq<string>, v: Version)
    requires CarriesIdentity(values, p, path) && CarriesDefaulted(values, p)
    requires CarriesFile(values, p) && CarriesRelations(values, p, conflicts)
    requires VersionText(v) == p.FullVersion()
    ensures var q := FromValues(values, d, v, p.extraFields);
            && SameTemplate(p, q, path) && q.conflicts == conflicts
            && q.dependencies == d && !q.noDepends && !q.ignoreIteration
  {
    IdentityKept(values, p, path, d, v, p.extraFields);
    DefaultedKept(values, p, d, v, p.extraFields);
    FileKept(values, p, d, v, p.extraFields);
    RelationsKept(values, p, conflicts, d, v, p.extraFields);
  }

  /** A package with the values read is well formed. */
  lemma {:induction false} RereadWellFormed(p: Package, q: Package, path: string)
    requires Sound(p, path) && SameTemplate(p, q, path) && RelationsRead(p, q)
    ensures WellFormed(q, path)
  {
    RelationsReread(p, q);
    RereadSoundRow(p, q, path);
  }

  /** It prints the same text exactly when `Depends` did not vanish. */
  lemma {:induction false} RereadText(p: Package, q: Package, path: string)
    requires Sound(p, path) && SameTemplate(p, q, path) && RelationsRead(p, q)
    ensures WrittenAll(RecordFields(q, path)) == WrittenAll(RecordFields(p, path)) <==> !DependsVanish(p)
  {
    RelationsReread(p, q);
    if DependsOf(q) == DependsOf(p) {
      SameRow(p, q, path);
    } else {
      RereadWellFormed(p, q, path);
      DifferentText(p, q, path);
    }
  }

  /** Reading back a rendered record gives a well-formed package with the same name, version and path, which prints
      the same bytes for any codename exactly when not every dependency became a conflict. */
  lemma {:induction false} RecordByteStable(p: Package, path: string, codename: string)
    requires Sound(p, path)
    ensures var text := WrittenAll(RecordFields(p, path));
            var q := Reread(p, path);
            && ParsedPackage(text) == Ok(q)
            && WellFormed(q, path)
            && q.name == p.name && q.FullVersion() == p.FullVersion()
            && RepositoryFilename(q, codename) == Ok(path)
            && (Rendered(q, codename) == Ok(text) <==> !DependsVanish(p))
  {
    ParsedRecord(p, path);
    RereadKeeps(p, path);
    RereadWellFormed(p, Reread(p, path), path);
    RereadText(p, Reread(p, path), path);
  }
}
