/** The names of a repository's objects, by kind, and their text. Components and architectures are single segments
    here; then no two names share a key, whatever the codenames. */
module Keys {
  import opened Text
  import opened Paths
  import opened Digests

  datatype Key =
    | Pool(path: string)
    | Index(codename: string, component: string, architecture: string, gz: bool)
    | ByHash(codename: string, component: string, architecture: string, sha256: string)
    | ReleaseFile(codename: string)
    | Detached(codename: string)
    | InRelease(codename: string)

  function Suffix(gz: bool): string {
    if gz then ".gz" else ""
  }

  function SuiteDir(codename: string): string {
    "dists/" + codename
  }

  /** `packagesPath` without its last element. */
  function IndexDir(codename: string, component: string, architecture: string): string {
    SuiteDir(codename) + "/" + component + "/" + ("binary-" + architecture)
  }

  /** The name by which a Release lists an index (`releasePackagesPath`). */
  function EntryName(component: string, architecture: string, gz: bool): string {
    component + "/binary-" + architecture + "/Packages" + Suffix(gz)
  }

  function KeyText(key: Key): string {
    match key
    case Pool(path) => path
    case Index(c, component, a, gz) => IndexDir(c, component, a) + "/" + ("Packages" + Suffix(gz))
    case ByHash(c, component, a, sha256) => IndexDir(c, component, a) + "/by-hash/SHA256" + "/" + sha256
    case ReleaseFile(c) => SuiteDir(c) + "/" + "Release"
    case Detached(c) => SuiteDir(c) + "/" + "Release.gpg"
    case InRelease(c) => SuiteDir(c) + "/" + "InRelease"
  }

  ghost predicate CleanSuite(codename: string, component: string, architecture: string) {
    CleanKey(codename) && CleanSegment(component) && '/' !in architecture
  }

  ghost predicate CleanName(key: Key) {
    match key
    case Pool(path) => CleanKey(path) && HasPrefix(path, "pool/")
    case Index(c, component, a, gz) => CleanSuite(c, component, a)
    case ByHash(c, component, a, sha256) => CleanSuite(c, component, a) && |sha256| == 64 && Hex(sha256)
    case ReleaseFile(c) => CleanKey(c)
    case Detached(c) => CleanKey(c)
    case InRelease(c) => CleanKey(c)
  }

  /** Where the indexes of a suite are stored. */
  lemma {:induction false} IndexLaidOut(c: string, component: string, a: string)
    ensures KeyText(Index(c, component, a, false)) == "dists/" + c + "/" + component + "/binary-" + a + "/Packages"
    ensures KeyText(Index(c, component, a, true)) == "dists/" + c + "/" + component + "/binary-" + a + "/Packages.gz"
  {}

  lemma {:induction false} ByHashLaidOut(c: string, component: string, a: string, sha256: string)
    ensures KeyText(ByHash(c, component, a, sha256))
            == "dists/" + c + "/" + component + "/binary-" + a + "/by-hash/SHA256/" + sha256
  {}

  /** How a Release names them. */
  lemma {:induction false} EntryLaidOut(component: string, a: string)
    ensures EntryName(component, a, false) == component + "/binary-" + a + "/Packages"
    ensures EntryName(component, a, true) == component + "/binary-" + a + "/Packages.gz"
  {}

  /** Where a Release and its signatures are stored. */
  lemma {:induction false} ReleaseLaidOut(c: string)
    ensures KeyText(ReleaseFile(c)) == "dists/" + c + "/Release"
    ensures KeyText(Detached(c)) == "dists/" + c + "/Release.gpg"
    ensures KeyText(InRelease(c)) == "dists/" + c + "/InRelease"
  {}

  // ---- the keys the program computes

  /** `path.Join` of any number of elements. */
  function JoinAll(elements: seq<string>): string {
    if elements == [] then ""
    else if elements[0] == "" then JoinAll(elements[1..])
    else Clean(Join(elements, "/"))
  }

  /** `Manifest.packagesPath`. */
  function PackagesPath(codename: string, component: string, architecture: string): string {
    JoinAll(["dists", codename, component, "binary-" + architecture, "Packages"])
  }

  /** `ManifestArtifact.ByHashPath`. */
  function ByHashPath(path: string, sha256: string): string {
    JoinAll([Dir(path), "by-hash", "SHA256", sha256])
  }

  lemma {:induction false} HexSegment(s: string)
    requires Hex(s) && s != ""
    ensures CleanSegment(s)
  {
    assert s[0] != '.';
    assert forall i :: 0 <= i < |s| ==> s[i] != '/';
  }

  lemma {:induction false} BinarySegment(architecture: string)
    requires '/' !in architecture
    ensures CleanSegment("binary-" + architecture)
  {}

  lemma {:induction false} CleanKeySegment(key: string, segment: string)
    requires CleanKey(key) && CleanSegment(segment)
    ensures CleanKey(key + "/" + segment)
  {
    OneSegmentKey(segment);
    CleanKeyAppend(key, segment);
  }

  lemma {:induction false} SuiteDirClean(codename: string)
    requires CleanKey(codename)
    ensures CleanKey(SuiteDir(codename))
  {
    OneSegmentKey("dists");
    CleanKeyAppend("dists", codename);
    assert "dists" + "/" + codename == SuiteDir(codename);
  }

  lemma {:induction false} IndexDirClean(codename: string, component: string, architecture: string)
    requires CleanSuite(codename, component, architecture)
    ensures CleanKey(SuiteDir(codename) + "/" + component) && CleanKey(IndexDir(codename, component, architecture))
  {
    SuiteDirClean(codename);
    CleanKeySegment(SuiteDir(codename), component);
    BinarySegment(architecture);
    CleanKeySegment(SuiteDir(codename) + "/" + component, "binary-" + architecture);
  }

  lemma {:induction false} JoinStep(a: string, b: string, rest: seq<string>)
    ensures Join([a, b] + rest, "/") == Join([a + "/" + b] + rest, "/")
  {
    assert ([a, b] + rest)[1..] == [b] + rest;
    if rest == [] {
      assert [b] + rest == [b];
    } else {
      assert ([b] + rest)[1..] == rest && ([a + "/" + b] + rest)[1..] == rest;
      Assoc(a + "/", b + "/", Join(rest, "/"));
      Assoc(a + "/", b, "/");
    }
  }

  lemma {:induction false} JoinFour(a: string, b: string, c: string, d: string)
    ensures Join([a, b, c, d], "/") == a + "/" + b + "/" + c + "/" + d
  {
    JoinStep(a, b, [c, d]);
    JoinStep(a + "/" + b, c, [d]);
    JoinStep(a + "/" + b + "/" + c, d, []);
    assert [a, b] + [c, d] == [a, b, c, d] && [a + "/" + b] + [c, d] == [a + "/" + b, c] + [d];
    assert [a + "/" + b + "/" + c] + [d] == [a + "/" + b + "/" + c, d] + [];
  }

  lemma {:induction false} JoinFive(a: string, b: string, c: string, d: string, e: string)
    ensures Join([a, b, c, d, e], "/") == a + "/" + b + "/" + c + "/" + d + "/" + e
  {
    JoinStep(a, b, [c, d, e]);
    assert [a, b] + [c, d, e] == [a, b, c, d, e] && [a + "/" + b] + [c, d, e] == [a + "/" + b, c, d, e];
    JoinFour(a + "/" + b, c, d, e);
  }

  /** `path.Join` of clean parts is the key's text. */
  lemma {:induction false} PackagesPathIs(codename: string, component: string, architecture: string)
    requires CleanSuite(codename, component, architecture)
    ensures PackagesPath(codename, component, architecture) == KeyText(Index(codename, component, architecture, false))
  {
    var dir := IndexDir(codename, component, architecture);
    IndexDirClean(codename, component, architecture);
    CleanKeySegment(dir, "Packages");
    CleanFixed(dir + "/" + "Packages");
    JoinFive("dists", codename, component, "binary-" + architecture, "Packages");
    AppendEmpty("Packages");
    assert "dists" + "/" + codename == SuiteDir(codename);
  }

  lemma {:induction false} ByHashDirClean(codename: string, component: string, architecture: string)
    requires CleanSuite(codename, component, architecture)
    ensures CleanKey(IndexDir(codename, component, architecture) + "/by-hash/SHA256")
  {
    var dir := IndexDir(codename, component, architecture);
    IndexDirClean(codename, component, architecture);
    CleanKeySegment(dir, "by-hash");
    CleanKeySegment(dir + "/" + "by-hash", "SHA256");
    Assoc(dir, "/", "by-hash");
    Assoc(dir, "/by-hash", "/SHA256");
    Assoc(dir + "/by-hash", "/", "SHA256");
    assert "/by-hash" + "/SHA256" == "/by-hash/SHA256" && "/" + "by-hash" == "/by-hash" && "/" + "SHA256" == "/SHA256";
  }

  /** The by-hash path of an artifact is the key's text. */
  lemma {:induction false} ByHashPathIs(
      codename: string, component: string, architecture: string, gz: bool, sha256: string)
    requires CleanSuite(codename, component, architecture) && |sha256| == 64 && Hex(sha256)
    ensures ByHashPath(KeyText(Index(codename, component, architecture, gz)), sha256)
            == KeyText(ByHash(codename, component, architecture, sha256))
  {
    var dir := IndexDir(codename, component, architecture);
    IndexDirClean(codename, component, architecture);
    DirOfJoin(dir, "Packages" + Suffix(gz));
    ByHashDirClean(codename, component, architecture);
    HexSegment(sha256);
    CleanKeySegment(dir + "/by-hash/SHA256", sha256);
    CleanFixed(dir + "/by-hash/SHA256" + "/" + sha256);
    CleanKeyStart(dir);
    JoinFour(dir, "by-hash", "SHA256", sha256);
    ByHashDirText(dir);
  }

  lemma {:induction false} ByHashDirText(dir: string)
    ensures dir + "/" + "by-hash" + "/" + "SHA256" == dir + "/by-hash/SHA256"
  {}

  // ---- kinds and identity from the text

  lemma {:induction false} KeyTextClean(key: Key)
    requires CleanName(key)
    ensures CleanKey(KeyText(key))
  {
    match key {
      case Pool(path) =>
      case Index(c, component, a, gz) =>
        IndexDirClean(c, component, a);
        CleanKeySegment(IndexDir(c, component, a), "Packages" + Suffix(gz));
      case ByHash(c, component, a, sha256) =>
        ByHashDirClean(c, component, a);
        HexSegment(sha256);
        CleanKeySegment(IndexDir(c, component, a) + "/by-hash/SHA256", sha256);
      case ReleaseFile(c) =>
        SuiteDirClean(c);
        CleanKeySegment(SuiteDir(c), "Release");
      case Detached(c) =>
        SuiteDirClean(c);
        CleanKeySegment(SuiteDir(c), "Release.gpg");
      case InRelease(c) =>
        SuiteDirClean(c);
        CleanKeySegment(SuiteDir(c), "InRelease");
    }
  }

  /** Directory and last segment of a key under `dists/`. */
  function Parts(key: Key): (string, string)
    requires !key.Pool?
  {
    match key
    case Index(c, component, a, gz) => (IndexDir(c, component, a), "Packages" + Suffix(gz))
    case ByHash(c, component, a, sha256) => (IndexDir(c, component, a) + "/by-hash/SHA256", sha256)
    case ReleaseFile(c) => (SuiteDir(c), "Release")
    case Detached(c) => (SuiteDir(c), "Release.gpg")
    case InRelease(c) => (SuiteDir(c), "InRelease")
  }

  lemma {:induction false} PartsOfText(key: Key)
    requires CleanName(key) && !key.Pool?
    ensures KeyText(key) == Parts(key).0 + "/" + Parts(key).1
    ensures CleanKey(Parts(key).0) && CleanSegment(Parts(key).1)
    ensures Base(KeyText(key)) == Parts(key).1 && Dir(KeyText(key)) == Parts(key).0
  {
    match key {
      case Index(c, component, a, gz) =>
        IndexDirClean(c, component, a);
      case ByHash(c, component, a, sha256) =>
        ByHashDirClean(c, component, a);
        HexSegment(sha256);
      case ReleaseFile(c) => SuiteDirClean(c);
      case Detached(c) => SuiteDirClean(c);
      case InRelease(c) => SuiteDirClean(c);
    }
    BaseOfJoin(Parts(key).0, Parts(key).1);
    DirOfJoin(Parts(key).0, Parts(key).1);
  }

  lemma {:induction false} JoinInjective(a: string, b: string, c: string, d: string)
    requires CleanKey(a) && CleanKey(c) && CleanSegment(b) && CleanSegment(d) && a + "/" + b == c + "/" + d
    ensures a == c && b == d
  {
    BaseOfJoin(a, b);
    BaseOfJoin(c, d);
    DirOfJoin(a, b);
    DirOfJoin(c, d);
  }

  lemma {:induction false} SuiteDirInjective(a: string, b: string)
    requires SuiteDir(a) == SuiteDir(b)
    ensures a == b
  {
    assert SuiteDir(a)[6..] == a && SuiteDir(b)[6..] == b;
  }

  lemma {:induction false} BinaryInjective(a: string, b: string)
    requires "binary-" + a == "binary-" + b
    ensures a == b
  {
    assert ("binary-" + a)[7..] == a && ("binary-" + b)[7..] == b;
  }

  lemma {:induction false} IndexDirInjective(
      c: string, component: string, a: string, c': string, component': string, a': string)
    requires CleanSuite(c, component, a) && CleanSuite(c', component', a')
    requires IndexDir(c, component, a) == IndexDir(c', component', a')
    ensures c == c' && component == component' && a == a'
  {
    IndexDirClean(c, component, a);
    IndexDirClean(c', component', a');
    BinarySegment(a);
    BinarySegment(a');
    SuiteDirClean(c);
    SuiteDirClean(c');
    JoinInjective(SuiteDir(c) + "/" + component, "binary-" + a, SuiteDir(c') + "/" + component', "binary-" + a');
    BinaryInjective(a, a');
    JoinInjective(SuiteDir(c), component, SuiteDir(c'), component');
    SuiteDirInjective(c, c');
  }

  lemma {:induction false} DistsIsNotPool(key: Key)
    requires !key.Pool?
    ensures HasPrefix(KeyText(key), "dists/") && !HasPrefix(KeyText(key), "pool/")
  {
    var text := KeyText(key);
    assert text[0] == 'd' && text[1] == 'i' && text[2] == 's' && text[3] == 't' && text[4] == 's' && text[5] == '/';
    assert text[..6] == "dists/";
    assert text[..5][0] == 'd' && "pool/"[0] == 'p';
  }

  lemma {:induction false} LastPartTells(a: Key, b: Key)
    requires CleanName(a) && CleanName(b) && !a.Pool? && !b.Pool? && Parts(a).1 == Parts(b).1
    ensures (a.Index? <==> b.Index?) && (a.ByHash? <==> b.ByHash?) && (a.ReleaseFile? <==> b.ReleaseFile?)
    ensures (a.Detached? <==> b.Detached?) && (a.InRelease? <==> b.InRelease?)
    ensures a.Index? ==> a.gz == b.gz
  {
    LastPartShape(a);
    LastPartShape(b);
  }

  /** Length and first letter of the last segment, by kind. */
  lemma {:induction false} LastPartShape(key: Key)
    requires CleanName(key) && !key.Pool?
    ensures var part := Parts(key).1;
            && part != ""
            && (key.Index? ==> |part| == (if key.gz then 11 else 8) && part[0] == 'P')
            && (key.ByHash? ==> |part| == 64)
            && (key.ReleaseFile? ==> |part| == 7)
            && (key.Detached? ==> |part| == 11 && part[0] == 'R')
            && (key.InRelease? ==> |part| == 9)
  {}

  /** Different names have different keys. */
  lemma {:induction false} KeyTextInjective(a: Key, b: Key)
    requires CleanName(a) && CleanName(b) && KeyText(a) == KeyText(b)
    ensures a == b
  {
    if !a.Pool? {
      DistsIsNotPool(a);
    }
    if !b.Pool? {
      DistsIsNotPool(b);
    }
    if !a.Pool? && !b.Pool? {
      SamePartsSameKey(a, b);
    }
  }

  lemma {:induction false} SamePartsSameKey(a: Key, b: Key)
    requires CleanName(a) && CleanName(b) && !a.Pool? && !b.Pool? && KeyText(a) == KeyText(b)
    ensures a == b
  {
    PartsOfText(a);
    PartsOfText(b);
    LastPartTells(a, b);
    if a.Index? {
      IndexDirInjective(a.codename, a.component, a.architecture, b.codename, b.component, b.architecture);
    } else if a.ByHash? {
      var d, d' := IndexDir(a.codename, a.component, a.architecture), IndexDir(b.codename, b.component, b.architecture);
      assert (d + "/by-hash/SHA256")[..|d + "/by-hash/SHA256"| - 15] == d;
      assert (d' + "/by-hash/SHA256")[..|d' + "/by-hash/SHA256"| - 15] == d';
      IndexDirInjective(a.codename, a.component, a.architecture, b.codename, b.component, b.architecture);
    } else {
      SuiteDirInjective(a.codename, b.codename);
    }
  }

  // ---- names of entries in a Release

  /** `Manifest.releasePackagesPath`. */
  function ReleasePackagesPath(component: string, architecture: string): string {
    JoinAll([component, "binary-" + architecture, "Packages"])
  }

  lemma {:induction false} JoinThree(a: string, b: string, c: string)
    ensures Join([a, b, c], "/") == a + "/" + b + "/" + c
  {
    JoinStep(a, b, [c]);
    JoinStep(a + "/" + b, c, []);
    assert [a, b] + [c] == [a, b, c] && [a + "/" + b] + [c] == [a + "/" + b, c] + [];
  }

  lemma {:induction false} EntryNameSplits(component: string, architecture: string, gz: bool)
    requires CleanSegment(component) && '/' !in architecture
    ensures Split(EntryName(component, architecture, gz), '/')
            == [component, "binary-" + architecture, "Packages" + Suffix(gz)]
  {
    var last := "Packages" + Suffix(gz);
    SplitOne(last, '/');
    SplitCons("binary-" + architecture, '/', last);
    SplitCons(component, '/', "binary-" + architecture + "/" + last);
    EntryNameParts(component, architecture, gz);
  }

  lemma {:induction false} EntryNameParts(component: string, architecture: string, gz: bool)
    ensures EntryName(component, architecture, gz)
            == component + "/" + ("binary-" + architecture + "/" + ("Packages" + Suffix(gz)))
  {}

  lemma {:induction false} EntryNameInjective(
      component: string, a: string, gz: bool, component': string, a': string, gz': bool)
    requires CleanSegment(component) && '/' !in a && CleanSegment(component') && '/' !in a'
    requires EntryName(component, a, gz) == EntryName(component', a', gz')
    ensures component == component' && a == a' && gz == gz'
  {
    var parts, parts' := Split(EntryName(component, a, gz), '/'), Split(EntryName(component', a', gz'), '/');
    EntryNameSplits(component, a, gz);
    EntryNameSplits(component', a', gz');
    assert parts[0] == parts'[0] && parts[1] == parts'[1] && |parts[2]| == |parts'[2]|;
    BinaryInjective(a, a');
  }

  lemma {:induction false} EntryText(component: string, architecture: string)
    ensures component + "/" + ("binary-" + architecture) + "/" + "Packages" == EntryName(component, architecture, false)
    ensures "Packages" + Suffix(false) == "Packages"
  {}

  /** `path.Join` and plain concatenation name the same entry for a single-segment component. */
  lemma {:induction false} ReleasePackagesPathIs(component: string, architecture: string)
    requires CleanSegment(component) && '/' !in architecture
    ensures ReleasePackagesPath(component, architecture) == EntryName(component, architecture, false)
  {
    EntryNameSplits(component, architecture, false);
    JoinThree(component, "binary-" + architecture, "Packages");
    BinarySegment(architecture);
    EntryText(component, architecture);
    CleanFixed(EntryName(component, architecture, false));
  }

  /** The key a client derives from a Release entry, `by-hash/SHA256/` beside the listed file, is the key's text. */
  lemma {:induction false} ClientPathIs(
      codename: string, component: string, architecture: string, gz: bool, sha256: string)
    requires CleanSuite(codename, component, architecture) && |sha256| == 64 && Hex(sha256)
    ensures ByHashPath(SuiteDir(codename) + "/" + EntryName(component, architecture, gz), sha256)
            == KeyText(ByHash(codename, component, architecture, sha256))
  {
    ByHashPathIs(codename, component, architecture, gz, sha256);
    EntryKey(codename, component, architecture, gz);
  }

  lemma {:induction false} EntryKey(codename: string, component: string, architecture: string, gz: bool)
    ensures SuiteDir(codename) + "/" + EntryName(component, architecture, gz)
            == KeyText(Index(codename, component, architecture, gz))
  {}
}
