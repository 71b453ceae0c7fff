/** Publishing metadata: which store calls a run makes, in which order, and what backfilling leaves. */
module Publication {
  import opened Text
  import opened Numbers
  import opened Digests
  import P = Package
  import opened R = Release
  import opened Keys
  import opened Calls
  import opened Paths
  import opened Worlds = World

  // ---- RetrieveRelease

  datatype ReleaseOptions = ReleaseOptions(
    codename: string, origin: Option<string>, suite: Option<string>, byHash: Option<bool>)

  /** The Release a run starts from: parsed from the store with the options on top, or a new one. */
  function Retrieved(w: World, objects: Objects, options: ReleaseOptions): ReleaseData {
    if ReleaseFile(options.codename) !in objects then
      ReleaseData(options.codename, options.origin, options.suite, [], [], options.byHash.GetOr(false), map[])
    else
      var r := w.parseRelease(objects[ReleaseFile(options.codename)]);
      r.(codename := options.codename,
         origin := if options.origin.Some? then options.origin else r.origin,
         suite := if options.suite.Some? then options.suite else r.suite,
         byHash := options.byHash.GetOr(r.byHash))
  }

  // ---- manifests in memory and their artifacts

  /** A manifest about to be published. */
  datatype Suite = Suite(component: string, architecture: string, byHash: bool, packages: seq<P.Package>)

  /** A manifest with its two artifacts built. */
  datatype Prepared = Prepared(component: string, architecture: string, byHash: bool, plain: string, gzip: string)

  /** `BuildArtifacts`. */
  function Build(w: World, codename: string, suite: Suite): Result<Prepared> {
    var text := w.printPackages(suite.packages, codename);
    if text.Err? then Err(text.reason)
    else Ok(Prepared(suite.component, suite.architecture, suite.byHash, text.value, w.hasher.gzip(text.value)))
  }

  function BuildAll(w: World, codename: string, suites: seq<Suite>): Result<seq<Prepared>> {
    if suites == [] then Ok([])
    else
      var first := Build(w, codename, suites[0]);
      if first.Err? then Err(first.reason)
      else
        var rest := BuildAll(w, codename, suites[1..]);
        if rest.Err? then rest else Ok([first.value] + rest.value)
  }

  /** The artifact's bytes. */
  function Body(p: Prepared, gz: bool): string {
    if gz then p.gzip else p.plain
  }

  /** `RecordArtifacts`: the entries a Release gets for the manifest. */
  function Entries(w: World, p: Prepared): map<string, FileHashes> {
    map[EntryName(p.component, p.architecture, false) := HashesOf(w.hasher, p.plain),
        EntryName(p.component, p.architecture, true) := HashesOf(w.hasher, p.gzip)]
  }

  function Record(w: World, r: ReleaseData, p: Prepared): ReleaseData {
    Updated(r, p.component, p.architecture, Entries(w, p))
  }

  function RecordAll(w: World, r: ReleaseData, prepared: seq<Prepared>): ReleaseData
    decreases |prepared|
  {
    if prepared == [] then r else RecordAll(w, Record(w, r, prepared[0]), prepared[1..])
  }

  /** What one artifact is to its readers: listed with its own size and digests, stored under its name, and, with
      by-hash on, under the digest its entry gives. */
  ghost predicate Advertised(w: World, codename: string, p: Prepared, gz: bool) {
    var name := EntryName(p.component, p.architecture, gz);
    && name in Entries(w, p) && Entries(w, p)[name] == HashesOf(w.hasher, Body(p, gz))
    && Put(Index(codename, p.component, p.architecture, gz), Body(p, gz), Overwrite) in CanonicalOps(codename, p)
    && (p.byHash ==>
          Put(ByHash(codename, p.component, p.architecture, Entries(w, p)[name].sha256), Body(p, gz), CreateOnly)
            in ByHashOps(w, codename, p))
  }

  lemma {:induction false} NamesApart(component: string, a: string)
    ensures EntryName(component, a, false) != EntryName(component, a, true)
  {
    assert |EntryName(component, a, false)| < |EntryName(component, a, true)|;
  }

  /** The artifacts of good packages: the plain one reads back as these packages, the other is its compressed form,
      and entries, canonical objects and by-hash objects agree on both. */
  lemma {:induction false} ArtifactsAgree(w: World, codename: string, suite: Suite, gz: bool)
    requires Lawful(w) && AllGood(w, suite.packages, codename)
    ensures Build(w, codename, suite).Ok?
    ensures var p := Build(w, codename, suite).value;
            && p.component == suite.component && p.architecture == suite.architecture && p.byHash == suite.byHash
            && w.parsePackages(p.plain).Ok?
            && ReadsBackAs(w, suite.packages, codename, w.parsePackages(p.plain).value)
            && Body(p, true) == w.hasher.gzip(Body(p, false)) && Advertised(w, codename, p, gz)
  {
    assert Printed(w, suite.packages, codename, w.printPackages(suite.packages, codename));
    var p := Build(w, codename, suite).value;
    NamesApart(p.component, p.architecture);
    var at, calls := if gz then 1 else 0, ByHashOps(w, codename, p);
    assert CanonicalOps(codename, p)[at]
        == Put(Index(codename, p.component, p.architecture, gz), Body(p, gz), Overwrite);
    if p.byHash {
      assert calls[at]
          == Put(ByHash(codename, p.component, p.architecture, w.hasher.sha256(Body(p, gz))), Body(p, gz), CreateOnly);
    }
  }

  // ---- manifests a Release needs but does not list

  const RELEASE_ARCHITECTURES := ["amd64", "i386", "armhf", "arm64"]

  function MissingFor(r: ReleaseData, component: string, architectures: seq<string>): seq<Suite> {
    if architectures == [] then []
    else
      var a, rest := architectures[0], MissingFor(r, component, architectures[1..]);
      if EntryName(component, a, false) in r.files || a !in r.architectures then rest
      else [Suite(component, a, r.byHash, [])] + rest
  }

  function MissingIn(r: ReleaseData, components: seq<string>): seq<Suite> {
    if components == [] then []
    else MissingFor(r, components[0], RELEASE_ARCHITECTURES) + MissingIn(r, components[1..])
  }

  /** `MissingManifests`. */
  function Missing(r: ReleaseData): seq<Suite> {
    MissingIn(r, r.components)
  }

  // ---- store calls

  function ByHashOps(w: World, codename: string, p: Prepared): seq<Op> {
    if !p.byHash then []
    else
      [Put(ByHash(codename, p.component, p.architecture, w.hasher.sha256(p.plain)), p.plain, CreateOnly),
       Put(ByHash(codename, p.component, p.architecture, w.hasher.sha256(p.gzip)), p.gzip, CreateOnly)]
  }

  function CanonicalOps(codename: string, p: Prepared): seq<Op> {
    [Put(Index(codename, p.component, p.architecture, false), p.plain, Overwrite),
     Put(Index(codename, p.component, p.architecture, true), p.gzip, Overwrite)]
  }

  function AllByHashOps(w: World, codename: string, prepared: seq<Prepared>): seq<Op> {
    if prepared == [] then [] else ByHashOps(w, codename, prepared[0]) + AllByHashOps(w, codename, prepared[1..])
  }

  function AllCanonicalOps(codename: string, prepared: seq<Prepared>): seq<Op> {
    if prepared == [] then [] else CanonicalOps(codename, prepared[0]) + AllCanonicalOps(codename, prepared[1..])
  }

  /** `Manifest.Publish` of each manifest in turn: its by-hash objects, then its canonical ones. */
  function EachOps(w: World, codename: string, prepared: seq<Prepared>): seq<Op> {
    if prepared == [] then []
    else ByHashOps(w, codename, prepared[0]) + CanonicalOps(codename, prepared[0]) + EachOps(w, codename, prepared[1..])
  }

  /** What the signer does with the Release text. */
  datatype Signing = Unsigned | SignFails | Signed(inRelease: string, detached: string)

  predicate Refused(signing: Signing) {
    signing.SignFails? || (signing.Signed? && (signing.inRelease == "" || signing.detached == ""))
  }

  function TripleOps(codename: string, text: string, signing: Signing): seq<Op> {
    if Refused(signing) then []
    else if signing.Unsigned? then
      [Delete(Detached(codename)), Delete(InRelease(codename)), Put(ReleaseFile(codename), text, Overwrite)]
    else
      [Put(ReleaseFile(codename), text, Overwrite), Put(Detached(codename), signing.detached, Overwrite),
       Put(InRelease(codename), signing.inRelease, Overwrite)]
  }

  /** The store calls of a run when nothing fails, and whether it gets to its end. */
  datatype Plan = Plan(ops: seq<Op>, completes: bool)

  /** `Release.Publish`. */
  function ReleasePlan(w: World, codename: string, r: ReleaseData, signing: Signing, date: string): Plan {
    var created := BuildAll(w, codename, Missing(r));
    if created.Err? then Plan([], false)
    else
      Plan(EachOps(w, codename, created.value)
           + TripleOps(codename, w.printRelease(RecordAll(w, r, created.value), date), signing),
           !Refused(signing))
  }

  /** The manifests `PublishMetadata` prepares: the changed ones, then those still missing. */
  function PreparedFor(w: World, codename: string, r: ReleaseData, suites: seq<Suite>): Result<seq<Prepared>> {
    var changed := BuildAll(w, codename, suites);
    if changed.Err? then changed
    else
      var more := BuildAll(w, codename, Missing(RecordAll(w, r, changed.value)));
      if more.Err? then more else Ok(changed.value + more.value)
  }

  /** `PublishMetadata`. */
  function MetadataPlan(
      w: World, codename: string, r: ReleaseData, suites: seq<Suite>, signing: Signing, date: string): Plan {
    var prepared := PreparedFor(w, codename, r, suites);
    if prepared.Err? then Plan([], false)
    else
      var last := ReleasePlan(w, codename, RecordAll(w, r, prepared.value), signing, date);
      Plan(AllByHashOps(w, codename, prepared.value) + AllCanonicalOps(codename, prepared.value) + last.ops,
          last.completes)
  }

  /** Calls that store package bodies. */
  ghost predicate Bodies(ops: seq<Op>) {
    forall i :: 0 <= i < |ops| ==> ops[i].Put? && ops[i].key.Pool?
  }

  /** The calls of an upload: all package bodies, then the metadata. */
  function UploadPlan(
      w: World, codename: string, r: ReleaseData, bodies: seq<Op>, suites: seq<Suite>, signing: Signing,
      date: string): Plan {
    var metadata := MetadataPlan(w, codename, r, suites, signing, date);
    if PreparedFor(w, codename, r, suites).Err? then metadata else Plan(bodies + metadata.ops, metadata.completes)
  }

  // ---- recording

  /** Publishing metadata is an upload without bodies. */
  lemma {:induction false} UploadOfNothing(
      w: World, codename: string, r: ReleaseData, suites: seq<Suite>, signing: Signing, date: string)
    ensures UploadPlan(w, codename, r, [], suites, signing, date) == MetadataPlan(w, codename, r, suites, signing, date)
  {
    AppendEmpty(MetadataPlan(w, codename, r, suites, signing, date).ops);
  }

  lemma {:induction false} RecordAllAppend(w: World, r: ReleaseData, a: seq<Prepared>, b: seq<Prepared>)
    ensures RecordAll(w, r, a + b) == RecordAll(w, RecordAll(w, r, a), b)
    decreases |a|
  {
    if a == [] {
      AppendEmpty(b);
    } else {
      assert (a + b)[0] == a[0] && (a + b)[1..] == a[1..] + b;
      RecordAllAppend(w, Record(w, r, a[0]), a[1..], b);
    }
  }

  lemma {:induction false} RecordGrows(w: World, r: ReleaseData, p: Prepared)
    ensures var s := Record(w, r, p);
            && r.files.Keys <= s.files.Keys
            && EntryName(p.component, p.architecture, false) in s.files
               && EntryName(p.component, p.architecture, true) in s.files
            && s.codename == r.codename && s.byHash == r.byHash && s.origin == r.origin && s.suite == r.suite
            && (p.component in r.components ==> s.components == r.components)
            && (p.architecture in r.architectures ==> s.architectures == r.architectures)
  {}

  ghost predicate ListedSuites(prepared: seq<Prepared>, r: ReleaseData) {
    forall i :: 0 <= i < |prepared| ==>
        prepared[i].component in r.components && prepared[i].architecture in r.architectures
  }

  /** Recording manifests the Release already lists adds entries only. */
  lemma {:induction false} RecordAllListed(w: World, r: ReleaseData, prepared: seq<Prepared>)
    requires ListedSuites(prepared, r)
    ensures var s := RecordAll(w, r, prepared);
            && r.files.Keys <= s.files.Keys
            && s.components == r.components && s.architectures == r.architectures && s.byHash == r.byHash
            && forall i :: 0 <= i < |prepared| ==>
               EntryName(prepared[i].component, prepared[i].architecture, false) in s.files
    decreases |prepared|
  {
    if prepared != [] {
      RecordGrows(w, r, prepared[0]);
      RecordAllListed(w, Record(w, r, prepared[0]), prepared[1..]);
      forall i | 0 <= i < |prepared|
        ensures EntryName(prepared[i].component, prepared[i].architecture, false) in RecordAll(w, r, prepared).files
      {
        if i > 0 {
          assert prepared[i] == prepared[1..][i - 1];
        }
      }
    }
  }

  // ---- backfill is a fixed point

  /** Every listed component has an index for every listed architecture that a Release provides for. */
  ghost predicate Complete(r: ReleaseData) {
    forall component, a :: component in r.components && a in RELEASE_ARCHITECTURES && a in r.architectures ==>
      EntryName(component, a, false) in r.files
  }

  lemma {:induction false} MissingForExactly(r: ReleaseData, component: string, architectures: seq<string>)
    ensures forall s :: s in MissingFor(r, component, architectures) <==>
              && s == Suite(component, s.architecture, r.byHash, [])
              && s.architecture in architectures && s.architecture in r.architectures
              && EntryName(component, s.architecture, false) !in r.files
  {
    if architectures != [] {
      MissingForExactly(r, component, architectures[1..]);
      assert architectures == [architectures[0]] + architectures[1..];
    }
  }

  lemma {:induction false} MissingInExactly(r: ReleaseData, components: seq<string>)
    ensures forall s :: s in MissingIn(r, components) <==>
              && s == Suite(s.component, s.architecture, r.byHash, [])
              && s.component in components && s.architecture in RELEASE_ARCHITECTURES
                 && s.architecture in r.architectures
              && EntryName(s.component, s.architecture, false) !in r.files
  {
    if components != [] {
      MissingForExactly(r, components[0], RELEASE_ARCHITECTURES);
      MissingInExactly(r, components[1..]);
      assert components == [components[0]] + components[1..];
    }
  }

  /** `MissingManifests` returns nothing exactly when the Release is complete. */
  lemma {:induction false} MissingNothing(r: ReleaseData)
    ensures Missing(r) == [] <==> Complete(r)
  {
    MissingInExactly(r, r.components);
    if Missing(r) == [] {
      forall component, a | component in r.components && a in RELEASE_ARCHITECTURES && a in r.architectures
        ensures EntryName(component, a, false) in r.files
      {
        assert Suite(component, a, r.byHash, []) !in Missing(r);
      }
    }
    if Missing(r) != [] {
      SomethingMissing(r);
    }
  }

  lemma {:induction false} SomethingMissing(r: ReleaseData)
    requires Missing(r) != []
    ensures !Complete(r)
  {
    MissingInExactly(r, r.components);
    assert Missing(r)[0] in Missing(r);
  }

  lemma {:induction false} BuildAllAt(w: World, codename: string, suites: seq<Suite>, i: nat)
    requires BuildAll(w, codename, suites).Ok? && i < |suites|
    ensures |BuildAll(w, codename, suites).value| == |suites|
    ensures Build(w, codename, suites[i]) == Ok(BuildAll(w, codename, suites).value[i])
  {
    if i > 0 {
      BuildAllAt(w, codename, suites[1..], i - 1);
    } else if |suites| > 1 {
      BuildAllAt(w, codename, suites[1..], 0);
    }
  }

  lemma {:induction false} BuildKeepsNames(w: World, codename: string, suites: seq<Suite>)
    requires BuildAll(w, codename, suites).Ok?
    ensures var prepared := BuildAll(w, codename, suites).value;
            && |prepared| == |suites|
            && forall i :: 0 <= i < |suites| ==>
                 && prepared[i].component == suites[i].component && prepared[i].architecture == suites[i].architecture
                 && prepared[i].byHash == suites[i].byHash
                 && w.printPackages(suites[i].packages, codename) == Ok(prepared[i].plain)
                 && prepared[i].gzip == w.hasher.gzip(prepared[i].plain)
  {
    var prepared := BuildAll(w, codename, suites).value;
    if suites != [] {
      BuildAllAt(w, codename, suites, 0);
    }
    forall i | 0 <= i < |suites|
      ensures prepared[i].component == suites[i].component && prepared[i].architecture == suites[i].architecture
      ensures prepared[i].byHash == suites[i].byHash
      ensures w.printPackages(suites[i].packages, codename) == Ok(prepared[i].plain)
      ensures prepared[i].gzip == w.hasher.gzip(prepared[i].plain)
    {
      BuildAllAt(w, codename, suites, i);
    }
  }

  /** After recording the missing manifests nothing is missing. */
  lemma {:induction false} BackfillCompletes(w: World, codename: string, r: ReleaseData)
    requires BuildAll(w, codename, Missing(r)).Ok?
    ensures var s := RecordAll(w, r, BuildAll(w, codename, Missing(r)).value);
            Complete(s) && s.components == r.components && s.architectures == r.architectures && s.byHash == r.byHash
  {
    var missing, prepared := Missing(r), BuildAll(w, codename, Missing(r)).value;
    var s := RecordAll(w, r, prepared);
    MissingInExactly(r, r.components);
    BuildKeepsNames(w, codename, missing);
    forall i | 0 <= i < |prepared|
      ensures prepared[i].component in r.components && prepared[i].architecture in r.architectures
    {
      assert missing[i] in missing;
    }
    RecordAllListed(w, r, prepared);
    forall component, a | component in r.components && a in RELEASE_ARCHITECTURES && a in r.architectures
      ensures EntryName(component, a, false) in s.files
    {
      if EntryName(component, a, false) !in r.files {
        var wanted := Suite(component, a, r.byHash, []);
        assert wanted in missing;
        var i :| 0 <= i < |missing| && missing[i] == wanted;
        assert prepared[i].component == component && prepared[i].architecture == a;
      }
    }
  }

  /** The Release `PublishMetadata` hands to `Publish`. */
  function FinalRelease(w: World, codename: string, r: ReleaseData, suites: seq<Suite>): ReleaseData
    requires PreparedFor(w, codename, r, suites).Ok?
  {
    RecordAll(w, r, PreparedFor(w, codename, r, suites).value)
  }

  /** After the prepare loops `Publish` finds nothing missing, so its own validation writes no index. */
  lemma {:induction false} BackfillIsFixedPoint(
      w: World, codename: string, r: ReleaseData, suites: seq<Suite>, signing: Signing, date: string)
    requires PreparedFor(w, codename, r, suites).Ok?
    ensures var s := FinalRelease(w, codename, r, suites);
            && Missing(s) == [] && Complete(s)
            && ReleasePlan(w, codename, s, signing, date)
               == Plan(TripleOps(codename, w.printRelease(s, date), signing), !Refused(signing))
  {
    var changed := BuildAll(w, codename, suites).value;
    var middle := RecordAll(w, r, changed);
    var more := BuildAll(w, codename, Missing(middle)).value;
    var s := FinalRelease(w, codename, r, suites);
    RecordAllAppend(w, r, changed, more);
    BackfillCompletes(w, codename, middle);
    MissingNothing(s);
    AppendEmpty(TripleOps(codename, w.printRelease(s, date), signing));
  }

  // ---- names and sizes that fit a Release

  /** A component and an architecture that name a suite: words, and single path segments. */
  ghost predicate SuiteName(component: string, architecture: string) {
    CleanSegment(component) && Word(component) && '/' !in architecture && Word(architecture)
  }

  ghost predicate CleanLists(r: ReleaseData) {
    && (forall component :: component in r.components ==> CleanSegment(component) && Word(component))
    && (forall a :: a in r.architectures ==> '/' !in a && Word(a))
  }

  /** The file is an index of a suite. */
  ghost predicate IsEntry(filename: string) {
    exists component, a, gz :: SuiteName(component, a) && filename == EntryName(component, a, gz)
  }

  ghost predicate OnlyIndexes(files: map<string, FileHashes>) {
    forall f :: f in files ==> IsEntry(f)
  }

  ghost predicate FitsRelease(p: Prepared) {
    SuiteName(p.component, p.architecture) && |p.plain| <= MAX_INT64 && |p.gzip| <= MAX_INT64
  }

  ghost predicate AllFit(prepared: seq<Prepared>) {
    forall i :: 0 <= i < |prepared| ==> FitsRelease(prepared[i])
  }

  /** A Release the program can have written: it fits its format and lists indexes of proper suites only. */
  ghost predicate Sane(r: ReleaseData, date: string) {
    Renderable(r, date) && CleanLists(r) && OnlyIndexes(r.files)
  }

  lemma {:induction false} WordAppend(a: string, b: string)
    requires Word(a) && !HasSpace(b)
    ensures Word(a + b)
  {}

  lemma {:induction false} EntryNameIsWord(component: string, a: string, gz: bool)
    requires Word(component) && Word(a)
    ensures Word(EntryName(component, a, gz))
  {
    WordAppend(component, "/binary-");
    WordAppend(component + "/binary-", a);
    WordAppend(component + "/binary-" + a, "/Packages");
    WordAppend(component + "/binary-" + a + "/Packages", Suffix(gz));
  }

  lemma {:induction false} EntriesFit(w: World, p: Prepared)
    requires Proper(w.hasher) && FitsRelease(p)
    ensures Listable(Entries(w, p)) && OnlyIndexes(Entries(w, p))
  {
    EntryNameIsWord(p.component, p.architecture, false);
    EntryNameIsWord(p.component, p.architecture, true);
    assert WellSized(HashesOf(w.hasher, p.plain)) && WellSized(HashesOf(w.hasher, p.gzip));
  }

  lemma {:induction false} RecordSane(w: World, r: ReleaseData, p: Prepared, date: string)
    requires Proper(w.hasher) && Sane(r, date) && FitsRelease(p)
    ensures Sane(Record(w, r, p), date)
  {
    EntriesFit(w, p);
    UpdateKeepsRenderable(r, date, p.component, p.architecture, Entries(w, p));
  }

  lemma {:induction false} RecordAllSane(w: World, r: ReleaseData, prepared: seq<Prepared>, date: string)
    requires Proper(w.hasher) && Sane(r, date) && AllFit(prepared)
    ensures Sane(RecordAll(w, r, prepared), date)
    decreases |prepared|
  {
    if prepared != [] {
      RecordSane(w, r, prepared[0], date);
      RecordAllSane(w, Record(w, r, prepared[0]), prepared[1..], date);
    }
  }

  /** An entry of the recorded Release is that of a recorded manifest or was there before. */
  lemma {:induction false} RecordedEntry(w: World, r: ReleaseData, prepared: seq<Prepared>, f: string)
    requires f in RecordAll(w, r, prepared).files
    ensures var hashes := RecordAll(w, r, prepared).files[f];
            || (f in r.files && r.files[f] == hashes && forall i :: 0 <= i < |prepared| ==>
            f !in Entries(w, prepared[i]))
            || (exists i :: 0 <= i < |prepared| && f in Entries(w, prepared[i]) && Entries(w, prepared[i])[f] == hashes
                 && forall j :: i < j < |prepared| ==> f !in Entries(w, prepared[j]))
    decreases |prepared|
  {
    if prepared != [] {
      var rest := prepared[1..];
      RecordedEntry(w, Record(w, r, prepared[0]), rest, f);
      var hashes := RecordAll(w, r, prepared).files[f];
      if exists i :: 0 <= i < |rest| && f in Entries(w, rest[i]) {
        var i :| 0 <= i < |rest| && f in Entries(w, rest[i]) && Entries(w, rest[i])[f] == hashes
                 && forall j :: i < j < |rest| ==> f !in Entries(w, rest[j]);
        assert prepared[i + 1] == rest[i];
        forall j | i + 1 < j < |prepared| ensures f !in Entries(w, prepared[j]) {
          assert prepared[j] == rest[j - 1];
        }
      } else {
        forall j | 0 < j < |prepared| ensures f !in Entries(w, prepared[j]) {
          assert prepared[j] == rest[j - 1];
        }
      }
    }
  }

  // ---- both artifacts are listed

  lemma {:induction false} EntryIn(w: World, p: Prepared, component: string, a: string, gz: bool)
    requires SuiteName(p.component, p.architecture) && SuiteName(component, a)
    requires EntryName(component, a, gz) in Entries(w, p)
    ensures component == p.component && a == p.architecture
    ensures Entries(w, p)[EntryName(component, a, gz)] == HashesOf(w.hasher, Body(p, gz))
  {
    if EntryName(component, a, gz) == EntryName(p.component, p.architecture, false) {
      EntryNameInjective(component, a, gz, p.component, p.architecture, false);
    } else {
      EntryNameInjective(component, a, gz, p.component, p.architecture, true);
    }
  }

  ghost predicate NamesSuite(prepared: seq<Prepared>, component: string, a: string) {
    exists i :: 0 <= i < |prepared| && prepared[i].component == component && prepared[i].architecture == a
  }

  lemma {:induction false} RecordExactly(w: World, r: ReleaseData, p: Prepared, component: string, a: string, gz: bool)
    requires FitsRelease(p) && SuiteName(component, a)
    ensures EntryName(component, a, gz) in Record(w, r, p).files
            <==> EntryName(component, a, gz) in r.files || (p.component == component && p.architecture == a)
  {
    if EntryName(component, a, gz) in Entries(w, p) {
      EntryIn(w, p, component, a, gz);
    }
  }

  /** After recording, an entry is there exactly when it was before or its suite was recorded. */
  lemma {:induction false} RecordedExactly(
      w: World, r: ReleaseData, prepared: seq<Prepared>, component: string, a: string, gz: bool)
    requires AllFit(prepared) && SuiteName(component, a)
    ensures EntryName(component, a, gz) in RecordAll(w, r, prepared).files
            <==> EntryName(component, a, gz) in r.files || NamesSuite(prepared, component, a)
    decreases |prepared|
  {
    if prepared != [] {
      var rest := prepared[1..];
      RecordExactly(w, r, prepared[0], component, a, gz);
      RecordedExactly(w, Record(w, r, prepared[0]), rest, component, a, gz);
      if NamesSuite(rest, component, a) {
        var i :| 0 <= i < |rest| && rest[i].component == component && rest[i].architecture == a;
        assert prepared[i + 1] == rest[i];
      }
      if NamesSuite(prepared, component, a) && !(prepared[0].component == component && prepared[0].architecture == a) {
        var i :| 0 <= i < |prepared| && prepared[i].component == component && prepared[i].architecture == a;
        assert rest[i - 1] == prepared[i];
      }
    }
  }

  /** The plain index is listed and its compressed form is not. */
  predicate Bare(r: ReleaseData, component: string, a: string) {
    EntryName(component, a, false) in r.files && EntryName(component, a, true) !in r.files
  }

  /** Recording leaves a suite bare exactly when it was bare and is not recorded. */
  lemma {:induction false} BareExactly(w: World, r: ReleaseData, prepared: seq<Prepared>, component: string, a: string)
    requires AllFit(prepared) && SuiteName(component, a)
    ensures Bare(RecordAll(w, r, prepared), component, a)
            <==> Bare(r, component, a) && !NamesSuite(prepared, component, a)
  {
    RecordedExactly(w, r, prepared, component, a, false);
    RecordedExactly(w, r, prepared, component, a, true);
  }

  ghost predicate PublishesSuite(suites: seq<Suite>, component: string, a: string) {
    exists i :: 0 <= i < |suites| && suites[i].component == component && suites[i].architecture == a
  }

  lemma {:induction false} NamesAppend(a: seq<Prepared>, b: seq<Prepared>, component: string, arch: string)
    ensures NamesSuite(a + b, component, arch) <==> NamesSuite(a, component, arch) || NamesSuite(b, component, arch)
  {
    var all := a + b;
    assert forall i :: 0 <= i < |a| ==> all[i] == a[i];
    assert forall i :: 0 <= i < |b| ==> all[|a| + i] == b[i];
    if NamesSuite(all, component, arch) {
      var i :| 0 <= i < |all| && all[i].component == component && all[i].architecture == arch;
      assert i >= |a| ==> b[i - |a|] == all[i];
    }
  }

  lemma {:induction false} BuiltNames(w: World, codename: string, suites: seq<Suite>, component: string, a: string)
    requires BuildAll(w, codename, suites).Ok?
    ensures NamesSuite(BuildAll(w, codename, suites).value, component, a) <==> PublishesSuite(suites, component, a)
  {
    BuildKeepsNames(w, codename, suites);
    var prepared := BuildAll(w, codename, suites).value;
    if PublishesSuite(suites, component, a) {
      var i :| 0 <= i < |suites| && suites[i].component == component && suites[i].architecture == a;
      assert prepared[i].component == component && prepared[i].architecture == a;
    }
  }

  lemma {:induction false} ListedIsNotMissing(r: ReleaseData, component: string, a: string)
    requires EntryName(component, a, false) in r.files
    ensures !PublishesSuite(Missing(r), component, a)
  {
    MissingInExactly(r, r.components);
    forall i | 0 <= i < |Missing(r)|
      ensures !(Missing(r)[i].component == component && Missing(r)[i].architecture == a)
    {
      assert Missing(r)[i] in Missing(r);
    }
  }

  /** The backfill builds no suite whose plain index is listed. */
  lemma {:induction false} BackfillLeavesListed(
      w: World, codename: string, r: ReleaseData, suites: seq<Suite>, component: string, a: string)
    requires PreparedFor(w, codename, r, suites).Ok? && EntryName(component, a, false) in r.files
    ensures NamesSuite(PreparedFor(w, codename, r, suites).value, component, a)
            <==> PublishesSuite(suites, component, a)
  {
    var changed := BuildAll(w, codename, suites).value;
    var middle := RecordAll(w, r, changed);
    var more := BuildAll(w, codename, Missing(middle)).value;
    NamesAppend(changed, more, component, a);
    BuiltNames(w, codename, suites, component, a);
    BuiltNames(w, codename, Missing(middle), component, a);
    RecordAllGrows(w, r, changed);
    ListedIsNotMissing(middle, component, a);
  }

  lemma {:induction false} RecordAllGrows(w: World, r: ReleaseData, prepared: seq<Prepared>)
    ensures r.files.Keys <= RecordAll(w, r, prepared).files.Keys
    decreases |prepared|
  {
    if prepared != [] {
      RecordGrows(w, r, prepared[0]);
      RecordAllGrows(w, Record(w, r, prepared[0]), prepared[1..]);
    }
  }

  /** After `PublishMetadata` every component lists, for every architecture that a Release provides for, its plain
      index; and the compressed one as well, except where the Release found listed the plain one alone and the run
      does not publish the suite. */
  lemma {:induction false} BothEntriesListed(
      w: World, codename: string, r: ReleaseData, suites: seq<Suite>, date: string, component: string, a: string)
    requires PreparedFor(w, codename, r, suites).Ok? && AllFit(PreparedFor(w, codename, r, suites).value)
    requires Proper(w.hasher) && Sane(r, date)
    requires var s := FinalRelease(w, codename, r, suites);
             component in s.components && a in s.architectures && a in RELEASE_ARCHITECTURES
    ensures var s := FinalRelease(w, codename, r, suites);
            && EntryName(component, a, false) in s.files
            && (EntryName(component, a, true) in s.files
               <==> !Bare(r, component, a) || PublishesSuite(suites, component, a))
  {
    var prepared := PreparedFor(w, codename, r, suites).value;
    BackfillIsFixedPoint(w, codename, r, suites, Unsigned, date);
    RecordAllSane(w, r, prepared, date);
    BareExactly(w, r, prepared, component, a);
    if Bare(r, component, a) {
      BackfillLeavesListed(w, codename, r, suites, component, a);
    }
  }
}
