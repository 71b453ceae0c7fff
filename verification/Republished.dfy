/** What a run that publishes manifests leaves under the names of the indexes: the printed manifests it was given, the
    listed indexes it was not given as they were, and bodies untouched. */
module Republished {
  import opened Text
  import opened Digests
  import opened R = Release
  import opened Keys
  import opened Calls
  import opened Worlds = World
  import opened Publication
  import opened Concurrent
  import opened History
  import opened Signatures
  import opened Consistency

  // ---- calls that store one text under a key

  /** Every call on the key stores the text. */
  ghost predicate OnlyPuts(ops: seq<Op>, key: Key, text: string) {
    forall j :: 0 <= j < |ops| && ops[j].key == key ==> ops[j].Put? && ops[j].data == text
  }

  ghost predicate Avoids(ops: seq<Op>, key: Key) {
    forall j :: 0 <= j < |ops| ==> ops[j].key != key
  }

  lemma {:induction false} Untouched(md5: string -> string, store: Store, ops: seq<Op>, key: Key)
    requires Avoids(ops, key)
    ensures SameAt(store.objects, Exec(md5, store, ops).store.objects, key)
    decreases |ops|
  {
    if ops != [] {
      var first := Step(md5, store, ops[0]);
      if first.ok {
        assert forall j :: 0 <= j < |ops[1..]| ==> ops[1..][j] == ops[j + 1];
        Untouched(md5, first.store, ops[1..], key);
      }
    }
  }

  lemma {:induction false} AvoidsAppend(a: seq<Op>, b: seq<Op>, key: Key)
    requires Avoids(a, key) && Avoids(b, key)
    ensures Avoids(a + b, key)
  {}

  /** No other text has the digest of the object under this key. */
  ghost predicate Unmistaken(md5: string -> string, objects: Objects, key: Key) {
    key in objects ==> forall text {:trigger md5(text)} :: md5(text) == md5(objects[key]) ==> text == objects[key]
  }

  /** No other text has the digest of any object of the store. */
  ghost predicate NoneMistaken(md5: string -> string, objects: Objects) {
    forall key :: key in objects ==> Unmistaken(md5, objects, key)
  }

  lemma {:induction false} PutLeaves(md5: string -> string, store: Store, ops: seq<Op>, key: Key, text: string)
    requires Exec(md5, store, ops).ok && OnlyPuts(ops, key, text) && !Avoids(ops, key)
    requires key in store.objects && md5(store.objects[key]) == md5(text) ==> store.objects[key] == text
    ensures var after := Exec(md5, store, ops).store.objects; key in after && after[key] == text
    decreases |ops|
  {
    var first, rest := Step(md5, store, ops[0]), ops[1..];
    assert forall j :: 0 <= j < |rest| ==> rest[j] == ops[j + 1];
    if Avoids(rest, key) {
      Untouched(md5, first.store, rest, key);
      assert forall j :: 0 < j < |ops| ==> ops[j] == rest[j - 1];
    } else {
      PutLeaves(md5, first.store, rest, key, text);
    }
  }

  /** Calls that must not replace an object and all get through find it as they would store it. */
  lemma {:induction false} NothingReplaced(md5: string -> string, store: Store, ops: seq<Op>, key: Key)
    requires Exec(md5, store, ops).ok && key in store.objects
    requires forall j :: 0 <= j < |ops| && ops[j].key == key ==> ops[j].Put? && ops[j].mode != Overwrite
    ensures SameAt(store.objects, Exec(md5, store, ops).store.objects, key)
    decreases |ops|
  {
    if ops != [] {
      assert forall j :: 0 <= j < |ops[1..]| ==> ops[1..][j] == ops[j + 1];
      NothingReplaced(md5, Step(md5, store, ops[0]).store, ops[1..], key);
    }
  }

  lemma {:induction false} OnlyPutsAppend(a: seq<Op>, b: seq<Op>, key: Key, text: string)
    requires OnlyPuts(a, key, text) && OnlyPuts(b, key, text)
    ensures OnlyPuts(a + b, key, text)
    ensures !Avoids(a, key) || !Avoids(b, key) ==> !Avoids(a + b, key)
  {
    var all := a + b;
    assert forall j :: 0 <= j < |a| ==> all[j] == a[j];
    assert forall j :: 0 <= j < |b| ==> all[|a| + j] == b[j];
  }

  // ---- the calls of a publish on an index

  /** The prepared manifests of this name have these artifacts. */
  ghost predicate PreparedAs(
      prepared: seq<Prepared>, component: string, a: string, text: string, gzip: string) {
    forall i :: 0 <= i < |prepared| && Names(prepared[i], component, a) ==>
      prepared[i].plain == text && prepared[i].gzip == gzip
  }

  lemma {:induction false} CanonicalOnePuts(c: string, p: Prepared, key: Key, text: string)
    requires key.Index? && key.codename == c
    requires Names(p, key.component, key.architecture) ==> Body(p, key.gz) == text
    ensures OnlyPuts(CanonicalOps(c, p), key, text)
    ensures Names(p, key.component, key.architecture) ==> !Avoids(CanonicalOps(c, p), key)
  {
    var at := if key.gz then 1 else 0;
    assert CanonicalOps(c, p)[at].key == Index(c, p.component, p.architecture, key.gz);
  }

  lemma {:induction false} CanonicalPuts(
      c: string, prepared: seq<Prepared>, key: Key, text: string, gzip: string)
    requires key.Index? && key.codename == c && PreparedAs(prepared, key.component, key.architecture, text, gzip)
    ensures OnlyPuts(AllCanonicalOps(c, prepared), key, if key.gz then gzip else text)
    ensures NamesSuite(prepared, key.component, key.architecture) ==> !Avoids(AllCanonicalOps(c, prepared), key)
  {
    if prepared != [] {
      var rest, data := prepared[1..], if key.gz then gzip else text;
      assert forall i :: 0 <= i < |rest| ==> rest[i] == prepared[i + 1];
      assert forall i :: 0 < i < |prepared| ==> prepared[i] == rest[i - 1];
      CanonicalOnePuts(c, prepared[0], key, data);
      CanonicalPuts(c, rest, key, text, gzip);
      OnlyPutsAppend(CanonicalOps(c, prepared[0]), AllCanonicalOps(c, rest), key, data);
    }
  }

  lemma {:induction false} CanonicalAvoids(c: string, prepared: seq<Prepared>, key: Key)
    requires key.Index? ==> key.codename != c || !NamesSuite(prepared, key.component, key.architecture)
    ensures Avoids(AllCanonicalOps(c, prepared), key)
  {
    if prepared != [] {
      var rest := prepared[1..];
      assert forall i :: 0 <= i < |rest| ==> rest[i] == prepared[i + 1];
      CanonicalAvoids(c, rest, key);
      AvoidsAppend(CanonicalOps(c, prepared[0]), AllCanonicalOps(c, rest), key);
    }
  }

  /** The calls apart from those that store indexes. */
  lemma {:induction false} OthersAvoid(
      w: World, c: string, prepared: seq<Prepared>, text: string, signing: Signing, key: Key)
    requires key.Index? || key.Pool?
    ensures Avoids(AllByHashOps(w, c, prepared), key) && Avoids(TripleOps(c, text, signing), key)
  {
    AllByHashFit(w, c, text, prepared);
  }

  lemma {:induction false} AvoidsPuts(ops: seq<Op>, key: Key, text: string)
    requires Avoids(ops, key)
    ensures OnlyPuts(ops, key, text)
  {}

  /** The calls of a publish on an index of the run's codename. */
  lemma {:induction false} PlanPuts(
      w: World, c: string, r: ReleaseData, bodies: seq<Op>, suites: seq<Suite>, signing: Signing, date: string,
      key: Key, text: string, gzip: string)
    requires Bodies(bodies) && PreparedFor(w, c, r, suites).Ok? && key.Index? && key.codename == c
    requires PreparedAs(PreparedFor(w, c, r, suites).value, key.component, key.architecture, text, gzip)
    requires NamesSuite(PreparedFor(w, c, r, suites).value, key.component, key.architecture)
    ensures var ops := UploadPlan(w, c, r, bodies, suites, signing, date).ops;
            OnlyPuts(ops, key, if key.gz then gzip else text) && !Avoids(ops, key)
  {
    var prepared, data := PreparedFor(w, c, r, suites).value, if key.gz then gzip else text;
    var last := w.printRelease(FinalRelease(w, c, r, suites), date);
    var hashed, canonical, triple :=
        AllByHashOps(w, c, prepared), AllCanonicalOps(c, prepared), TripleOps(c, last, signing);
    PublishInTwoParts(w, c, r, bodies, suites, signing, date);
    OthersAvoid(w, c, prepared, last, signing, key);
    CanonicalPuts(c, prepared, key, text, gzip);
    AvoidsPuts(hashed, key, data);
    AvoidsPuts(triple, key, data);
    OnlyPutsAppend(hashed, canonical, key, data);
    OnlyPutsAppend(bodies, hashed + canonical, key, data);
    OnlyPutsAppend(bodies + (hashed + canonical), triple, key, data);
  }

  /** The calls of a publish leave every other name of an index alone, and bodies unless it brings some. */
  lemma {:induction false} PlanAvoids(
      w: World, c: string, r: ReleaseData, bodies: seq<Op>, suites: seq<Suite>, signing: Signing, date: string,
      key: Key)
    requires Bodies(bodies) && (key.Index? || (key.Pool? && Avoids(bodies, key)))
    requires key.Index? && key.codename == c && PreparedFor(w, c, r, suites).Ok? ==>
               !NamesSuite(PreparedFor(w, c, r, suites).value, key.component, key.architecture)
    ensures Avoids(UploadPlan(w, c, r, bodies, suites, signing, date).ops, key)
  {
    PublishInTwoParts(w, c, r, bodies, suites, signing, date);
    if PreparedFor(w, c, r, suites).Ok? {
      var prepared := PreparedFor(w, c, r, suites).value;
      var last := w.printRelease(FinalRelease(w, c, r, suites), date);
      var hashed, canonical := AllByHashOps(w, c, prepared), AllCanonicalOps(c, prepared);
      OthersAvoid(w, c, prepared, last, signing, key);
      CanonicalAvoids(c, prepared, key);
      AvoidsAppend(hashed, canonical, key);
      AvoidsAppend(bodies, hashed + canonical, key);
      AvoidsAppend(bodies + (hashed + canonical), TripleOps(c, last, signing), key);
    }
  }

  // ---- which manifests are prepared

  lemma {:induction false} RecordedIsListed(
      w: World, r: ReleaseData, prepared: seq<Prepared>, component: string, a: string)
    requires NamesSuite(prepared, component, a)
    ensures EntryName(component, a, false) in RecordAll(w, r, prepared).files
    decreases |prepared|
  {
    var rest := prepared[1..];
    RecordGrows(w, r, prepared[0]);
    if Names(prepared[0], component, a) {
      RecordAllGrows(w, Record(w, r, prepared[0]), rest);
    } else {
      var i :| 0 <= i < |prepared| && prepared[i].component == component && prepared[i].architecture == a;
      assert rest[i - 1] == prepared[i];
      RecordedIsListed(w, Record(w, r, prepared[0]), rest, component, a);
    }
  }

  /** The suites of this name have packages that print as this text. */
  ghost predicate PrintAs(w: World, c: string, suites: seq<Suite>, component: string, a: string, text: string) {
    forall i :: 0 <= i < |suites| && suites[i].component == component && suites[i].architecture == a ==>
      w.printPackages(suites[i].packages, c) == Ok(text)
  }

  /** A suite that is published is prepared as it is given. */
  lemma {:induction false} GivenIsPrepared(
      w: World, c: string, r: ReleaseData, suites: seq<Suite>, component: string, a: string, text: string)
    requires PreparedFor(w, c, r, suites).Ok? && PublishesSuite(suites, component, a)
    requires PrintAs(w, c, suites, component, a, text)
    ensures var prepared := PreparedFor(w, c, r, suites).value;
            PreparedAs(prepared, component, a, text, w.hasher.gzip(text)) && NamesSuite(prepared, component, a)
  {
    var changed := BuildAll(w, c, suites).value;
    var middle := RecordAll(w, r, changed);
    var more := BuildAll(w, c, Missing(middle)).value;
    BuildKeepsNames(w, c, suites);
    BuiltNames(w, c, suites, component, a);
    BuiltNames(w, c, Missing(middle), component, a);
    RecordedIsListed(w, r, changed, component, a);
    ListedIsNotMissing(middle, component, a);
    NamesAppend(changed, more, component, a);
    PreparedAppend(changed, more, component, a, text, w.hasher.gzip(text));
  }

  lemma {:induction false} PreparedAppend(
      a: seq<Prepared>, b: seq<Prepared>, component: string, arch: string, text: string, gzip: string)
    requires PreparedAs(a, component, arch, text, gzip) && !NamesSuite(b, component, arch)
    ensures PreparedAs(a + b, component, arch, text, gzip)
  {
    var all := a + b;
    assert forall i :: |a| <= i < |all| ==> all[i] == b[i - |a|];
  }

  // ---- what is left

  lemma {:induction false} PreparedLeft(
      w: World, before: Store, options: ReleaseOptions, bodies: seq<Op>, suites: seq<Suite>, signing: Signing,
      date: string, component: string, a: string, text: string)
    requires var plan := UploadPlan(w, options.codename, Retrieved(w, before.objects, options), bodies, suites, signing,
             date); plan.completes && Exec(w.hasher.md5, before, plan.ops).ok
    requires Bodies(bodies) && NoneMistaken(w.hasher.md5, before.objects)
    requires var prepared := PreparedFor(w, options.codename, Retrieved(w, before.objects, options), suites);
             && prepared.Ok? && NamesSuite(prepared.value, component, a)
             && PreparedAs(prepared.value, component, a, text, w.hasher.gzip(text))
    ensures var plan := UploadPlan(w, options.codename, Retrieved(w, before.objects, options), bodies, suites, signing,
            date);
            HasIndexes(w, Exec(w.hasher.md5, before, plan.ops).store.objects, options.codename, component, a, text)
  {
    var c, r := options.codename, Retrieved(w, before.objects, options);
    var ops := UploadPlan(w, c, r, bodies, suites, signing, date).ops;
    forall gz ensures HasIndex(w, Exec(w.hasher.md5, before, ops).store.objects, c, component, a, text, gz) {
      PlanPuts(w, c, r, bodies, suites, signing, date, Index(c, component, a, gz), text, w.hasher.gzip(text));
      PutLeaves(w.hasher.md5, before, ops, Index(c, component, a, gz), if gz then w.hasher.gzip(text) else text);
    }
  }

  /** A run to its end leaves both indexes of a suite it was given: the packages printed, and that text compressed. */
  lemma {:induction false} IndexesLeft(
      w: World, before: Store, options: ReleaseOptions, bodies: seq<Op>, suites: seq<Suite>, signing: Signing,
      date: string, component: string, a: string, text: string)
    requires var plan := UploadPlan(w, options.codename, Retrieved(w, before.objects, options), bodies, suites, signing,
             date); plan.completes && Exec(w.hasher.md5, before, plan.ops).ok
    requires Bodies(bodies) && NoneMistaken(w.hasher.md5, before.objects)
    requires PublishesSuite(suites, component, a) && PrintAs(w, options.codename, suites, component, a, text)
    ensures var plan := UploadPlan(w, options.codename, Retrieved(w, before.objects, options), bodies, suites, signing,
            date);
            HasIndexes(w, Exec(w.hasher.md5, before, plan.ops).store.objects, options.codename, component, a, text)
  {
    GivenIsPrepared(w, options.codename, Retrieved(w, before.objects, options), suites, component, a, text);
    PreparedLeft(w, before, options, bodies, suites, signing, date, component, a, text);
  }

  ghost predicate HasIndex(
      w: World, objects: Objects, c: string, component: string, a: string, text: string, gz: bool) {
    var key := Index(c, component, a, gz);
    key in objects && objects[key] == if gz then w.hasher.gzip(text) else text
  }

  /** Both indexes of the suite are stored, with this text. */
  ghost predicate HasIndexes(w: World, objects: Objects, c: string, component: string, a: string, text: string) {
    HasIndex(w, objects, c, component, a, text, false) && HasIndex(w, objects, c, component, a, text, true)
  }

  /** Both indexes of the suite are as they were. */
  ghost predicate SameIndexes(o: Objects, o': Objects, c: string, component: string, a: string) {
    SameAt(o, o', Index(c, component, a, false)) && SameAt(o, o', Index(c, component, a, true))
  }

  /** The stored Release lists the plain index. */
  predicate ListsIndex(w: World, objects: Objects, c: string, component: string, a: string) {
    && ReleaseFile(c) in objects
    && EntryName(component, a, false) in w.parseRelease(objects[ReleaseFile(c)]).files
  }

  /** However far a run gets, the indexes of other codenames, and those that the Release lists and the run was not
      given, stay as they were. */
  lemma {:induction false} IndexesKept(
      w: World, before: Store, options: ReleaseOptions, bodies: seq<Op>, suites: seq<Suite>, signing: Signing,
      date: string, c: string, component: string, a: string)
    requires Bodies(bodies)
    requires c != options.codename
            || (ListsIndex(w, before.objects, c, component, a) && !PublishesSuite(suites, component, a))
    ensures var plan := UploadPlan(w, options.codename, Retrieved(w, before.objects, options), bodies, suites, signing,
            date);
            SameIndexes(before.objects, Exec(w.hasher.md5, before, plan.ops).store.objects, c, component, a)
  {
    var r := Retrieved(w, before.objects, options);
    var ops := UploadPlan(w, options.codename, r, bodies, suites, signing, date).ops;
    if PreparedFor(w, options.codename, r, suites).Ok? && c == options.codename {
      BackfillLeavesListed(w, c, r, suites, component, a);
    }
    PlanAvoids(w, options.codename, r, bodies, suites, signing, date, Index(c, component, a, false));
    PlanAvoids(w, options.codename, r, bodies, suites, signing, date, Index(c, component, a, true));
    Untouched(w.hasher.md5, before, ops, Index(c, component, a, false));
    Untouched(w.hasher.md5, before, ops, Index(c, component, a, true));
  }

  /** A run that brings no bodies leaves all bodies as they were. */
  lemma {:induction false} BodiesKept(
      w: World, before: Store, options: ReleaseOptions, suites: seq<Suite>, signing: Signing, date: string,
      path: string)
    ensures var plan := UploadPlan(w, options.codename, Retrieved(w, before.objects, options), [], suites, signing,
            date); SameAt(before.objects, Exec(w.hasher.md5, before, plan.ops).store.objects, Pool(path))
  {
    var r := Retrieved(w, before.objects, options);
    PlanAvoids(w, options.codename, r, [], suites, signing, date, Pool(path));
    Untouched(w.hasher.md5, before, UploadPlan(w, options.codename, r, [], suites, signing, date).ops, Pool(path));
  }

  // ---- by-hash objects

  lemma {:induction false} PutsStay(md5: string -> string, store: Store, ops: seq<Op>, key: Key)
    requires Exec(md5, store, ops).ok && (key in store.objects || !Avoids(ops, key))
    requires forall j :: 0 <= j < |ops| && ops[j].key == key ==> ops[j].Put?
    ensures key in Exec(md5, store, ops).store.objects
    decreases |ops|
  {
    if ops != [] {
      assert forall j :: 0 <= j < |ops[1..]| ==> ops[1..][j] == ops[j + 1];
      assert forall j :: 0 < j < |ops| ==> ops[j] == ops[1..][j - 1];
      PutsStay(md5, Step(md5, store, ops[0]).store, ops[1..], key);
    }
  }

  /** A suite of this name is given with by-hash on, and prints as this text. */
  ghost predicate GivenByHash(w: World, c: string, suites: seq<Suite>, component: string, a: string, text: string) {
    exists i :: 0 <= i < |suites| && suites[i].component == component && suites[i].architecture == a
      && suites[i].byHash && w.printPackages(suites[i].packages, c) == Ok(text)
  }

  lemma {:induction false} HashedCalls(
      w: World, c: string, r: ReleaseData, suites: seq<Suite>, component: string, a: string, text: string, gz: bool)
    requires PreparedFor(w, c, r, suites).Ok? && GivenByHash(w, c, suites, component, a, text)
    ensures var body := if gz then w.hasher.gzip(text) else text;
            !Avoids(AllByHashOps(w, c, PreparedFor(w, c, r, suites).value),
              ByHash(c, component, a, w.hasher.sha256(body)))
  {
    var i :| 0 <= i < |suites| && suites[i].component == component && suites[i].architecture == a
             && suites[i].byHash && w.printPackages(suites[i].packages, c) == Ok(text);
    var changed, prepared := BuildAll(w, c, suites).value, PreparedFor(w, c, r, suites).value;
    BuildKeepsNames(w, c, suites);
    assert prepared[i] == changed[i];
    ByHashCallOf(w, c, prepared, i, gz);
    var body := if gz then w.hasher.gzip(text) else text;
    assert Pending(w, AllByHashOps(w, c, prepared), c, component, a, HashesOf(w.hasher, body));
  }

  ghost predicate AllPuts(ops: seq<Op>) {
    forall j :: 0 <= j < |ops| ==> ops[j].Put?
  }

  lemma {:induction false} PreparedPuts(w: World, c: string, prepared: seq<Prepared>)
    ensures AllPuts(AllByHashOps(w, c, prepared)) && AllPuts(AllCanonicalOps(c, prepared))
  {
    if prepared != [] {
      PreparedPuts(w, c, prepared[1..]);
    }
  }

  lemma {:induction false} PlanParts(
      w: World, c: string, r: ReleaseData, bodies: seq<Op>, suites: seq<Suite>, signing: Signing, date: string,
      key: Key)
    returns (canonical: seq<Op>, triple: seq<Op>)
    requires Bodies(bodies) && PreparedFor(w, c, r, suites).Ok? && key.ByHash?
    ensures UploadPlan(w, c, r, bodies, suites, signing, date).ops
            == bodies + (AllByHashOps(w, c, PreparedFor(w, c, r, suites).value) + canonical) + triple
    ensures AllPuts(AllByHashOps(w, c, PreparedFor(w, c, r, suites).value)) && AllPuts(canonical)
    ensures Avoids(triple, key)
  {
    var prepared := PreparedFor(w, c, r, suites).value;
    canonical := AllCanonicalOps(c, prepared);
    triple := TripleOps(c, w.printRelease(FinalRelease(w, c, r, suites), date), signing);
    PublishInTwoParts(w, c, r, bodies, suites, signing, date);
    PreparedPuts(w, c, prepared);
  }

  lemma {:induction false} HashedStay(
      md5: string -> string, before: Store, bodies: seq<Op>, hashed: seq<Op>, canonical: seq<Op>, triple: seq<Op>,
      key: Key)
    requires Exec(md5, before, bodies + (hashed + canonical) + triple).ok && !Avoids(hashed, key)
    requires Bodies(bodies) && Avoids(triple, key) && !key.Pool?
    requires AllPuts(hashed) && AllPuts(canonical)
    ensures key in Exec(md5, before, bodies + (hashed + canonical) + triple).store.objects
  {
    var ops := bodies + (hashed + canonical) + triple;
    var at :| 0 <= at < |hashed| && hashed[at].key == key;
    assert ops[|bodies| + at] == hashed[at];
    PutsStay(md5, before, ops, key);
  }

  /** A run to its end leaves the by-hash objects of a suite it was given with by-hash on. */
  lemma {:induction false} HashesLeft(
      w: World, before: Store, options: ReleaseOptions, bodies: seq<Op>, suites: seq<Suite>, signing: Signing,
      date: string, component: string, a: string, text: string, gz: bool)
    requires var plan := UploadPlan(w, options.codename, Retrieved(w, before.objects, options), bodies, suites, signing,
             date); plan.completes && Exec(w.hasher.md5, before, plan.ops).ok
    requires Bodies(bodies) && GivenByHash(w, options.codename, suites, component, a, text)
    ensures var plan := UploadPlan(w, options.codename, Retrieved(w, before.objects, options), bodies, suites, signing,
            date);
            var body := if gz then w.hasher.gzip(text) else text;
            ByHash(options.codename, component, a, w.hasher.sha256(body))
            in Exec(w.hasher.md5, before, plan.ops).store.objects
  {
    var c, r := options.codename, Retrieved(w, before.objects, options);
    var key := ByHash(c, component, a, w.hasher.sha256(if gz then w.hasher.gzip(text) else text));
    HashedCalls(w, c, r, suites, component, a, text, gz);
    var canonical, triple := PlanParts(w, c, r, bodies, suites, signing, date, key);
    HashedStay(w.hasher.md5, before, bodies, AllByHashOps(w, c, PreparedFor(w, c, r, suites).value), canonical, triple,
        key);
  }

  // ---- the Release and its signatures

  lemma {:induction false} QuietAvoids(ops: seq<Op>, key: Key)
    requires Quiet(ops) && InTriple(key)
    ensures Avoids(ops, key)
  {}

  lemma {:induction false} DeletionLeaves(md5: string -> string, store: Store, ops: seq<Op>, key: Key)
    requires Exec(md5, store, ops).ok && !Avoids(ops, key)
    requires forall j :: 0 <= j < |ops| && ops[j].key == key ==> ops[j].Delete?
    ensures key !in Exec(md5, store, ops).store.objects
    decreases |ops|
  {
    var first, rest := Step(md5, store, ops[0]), ops[1..];
    assert forall j :: 0 <= j < |rest| ==> rest[j] == ops[j + 1];
    if Avoids(rest, key) {
      Untouched(md5, first.store, rest, key);
      assert forall j :: 0 < j < |ops| ==> ops[j] == rest[j - 1];
    } else {
      DeletionLeaves(md5, first.store, rest, key);
    }
  }

  /** The Release is the text, with the two artifacts of a signer that gave both beside it, or none. */
  ghost predicate HasTriple(objects: Objects, c: string, text: string, signing: Signing) {
    && ReleaseFile(c) in objects && objects[ReleaseFile(c)] == text && !signing.SignFails?
    && (signing.Signed? ==>
          && signing.detached != "" && signing.inRelease != ""
          && Detached(c) in objects && objects[Detached(c)] == signing.detached
          && InRelease(c) in objects && objects[InRelease(c)] == signing.inRelease)
    && (signing.Unsigned? ==> Detached(c) !in objects && InRelease(c) !in objects)
  }

  lemma {:induction false} TripleLeaves(
      md5: string -> string, before: Store, c: string, text: string, signing: Signing)
    requires Exec(md5, before, TripleOps(c, text, signing)).ok && !Refused(signing)
    requires Unmistaken(md5, before.objects, ReleaseFile(c))
    requires Unmistaken(md5, before.objects, Detached(c)) && Unmistaken(md5, before.objects, InRelease(c))
    ensures HasTriple(Exec(md5, before, TripleOps(c, text, signing)).store.objects, c, text, signing)
  {
    var ops := TripleOps(c, text, signing);
    if signing.Unsigned? {
      assert ops[0].key == Detached(c) && ops[1].key == InRelease(c) && ops[2].key == ReleaseFile(c);
      DeletionLeaves(md5, before, ops, Detached(c));
      DeletionLeaves(md5, before, ops, InRelease(c));
    } else {
      assert ops[0].key == ReleaseFile(c) && ops[1].key == Detached(c) && ops[2].key == InRelease(c);
      PutLeaves(md5, before, ops, Detached(c), signing.detached);
      PutLeaves(md5, before, ops, InRelease(c), signing.inRelease);
    }
    PutLeaves(md5, before, ops, ReleaseFile(c), text);
  }

  lemma {:induction false} TripleLast(
      md5: string -> string, before: Store, front: seq<Op>, c: string, text: string, signing: Signing)
    requires Quiet(front) && Exec(md5, before, front + TripleOps(c, text, signing)).ok && !Refused(signing)
    requires NoneMistaken(md5, before.objects)
    ensures HasTriple(Exec(md5, before, front + TripleOps(c, text, signing)).store.objects, c, text, signing)
  {
    var middle := Exec(md5, before, front).store;
    ExecAppend(md5, before, front, TripleOps(c, text, signing));
    forall key | InTriple(key) ensures Unmistaken(md5, middle.objects, key) {
      QuietAvoids(front, key);
      Untouched(md5, before, front, key);
      assert Unmistaken(md5, before.objects, key);
    }
    TripleLeaves(md5, middle, c, text, signing);
  }

  /** A run to its end leaves the Release it recorded, signed as it was told. */
  lemma {:induction false} ReleaseLeft(
      w: World, before: Store, options: ReleaseOptions, bodies: seq<Op>, suites: seq<Suite>, signing: Signing,
      date: string)
    requires var plan := UploadPlan(w, options.codename, Retrieved(w, before.objects, options), bodies, suites, signing,
             date); plan.completes && Exec(w.hasher.md5, before, plan.ops).ok
    requires Bodies(bodies) && NoneMistaken(w.hasher.md5, before.objects)
    ensures var c, r := options.codename, Retrieved(w, before.objects, options);
            && PreparedFor(w, c, r, suites).Ok?
            && HasTriple(
                 Exec(w.hasher.md5, before, UploadPlan(w, c, r, bodies, suites, signing, date).ops).store.objects, c,
                 w.printRelease(FinalRelease(w, c, r, suites), date), signing)
  {
    var c, r := options.codename, Retrieved(w, before.objects, options);
    var text := w.printRelease(FinalRelease(w, c, r, suites), date);
    var prepared := PreparedFor(w, c, r, suites).value;
    PublishInTwoParts(w, c, r, bodies, suites, signing, date);
    BackfillIsFixedPoint(w, c, r, suites, signing, date);
    TripleLast(w.hasher.md5, before, bodies + (AllByHashOps(w, c, prepared) + AllCanonicalOps(c, prepared)), c, text,
        signing);
  }

  /** So does `Release.Publish` alone. */
  lemma {:induction false} ResignLeft(
      w: World, before: Store, c: string, r: ReleaseData, signing: Signing, date: string)
    requires var plan := ReleasePlan(w, c, r, signing, date); plan.completes && Exec(w.hasher.md5, before, plan.ops).ok
    requires NoneMistaken(w.hasher.md5, before.objects)
    ensures BuildAll(w, c, Missing(r)).Ok?
    ensures HasTriple(Exec(w.hasher.md5, before, ReleasePlan(w, c, r, signing, date).ops).store.objects, c,
            w.printRelease(RecordAll(w, r, BuildAll(w, c, Missing(r)).value), date), signing)
  {
    var created := BuildAll(w, c, Missing(r)).value;
    EachQuiet(w, c, created);
    TripleLast(w.hasher.md5, before, EachOps(w, c, created), c, w.printRelease(RecordAll(w, r, created), date),
        signing);
  }

  // ---- the options of the caller

  /** The Release found, if any, fits its format, and so do the options. */
  ghost predicate FitOptions(w: World, objects: Objects, options: ReleaseOptions, date: string) {
    && Plain(options.codename) && Plain(date) && Plain(options.origin.GetOr("")) && Plain(options.suite.GetOr(""))
    && (ReleaseFile(options.codename) in objects ==>
          Sane(w.parseRelease(objects[ReleaseFile(options.codename)]), date))
  }

  function OldOrigin(w: World, objects: Objects, c: string): Option<string> {
    if ReleaseFile(c) in objects then w.parseRelease(objects[ReleaseFile(c)]).origin else None
  }

  function OldSuite(w: World, objects: Objects, c: string): Option<string> {
    if ReleaseFile(c) in objects then w.parseRelease(objects[ReleaseFile(c)]).suite else None
  }

  function OldByHash(w: World, objects: Objects, c: string): bool {
    ReleaseFile(c) in objects && w.parseRelease(objects[ReleaseFile(c)]).byHash
  }

  /** By-hash is on when the caller says so, or leaves it to a Release that says so. */
  function HashedBy(w: World, objects: Objects, options: ReleaseOptions): bool {
    if options.byHash.Some? then options.byHash.value else OldByHash(w, objects, options.codename)
  }

  /** What the caller gives is in the Release; what he leaves open is as it was before. */
  ghost predicate AsAsked(w: World, before: Objects, options: ReleaseOptions, r: ReleaseData) {
    var c := options.codename;
    && r.codename == c
    && r.origin == (if options.origin.Some? then options.origin else OldOrigin(w, before, c))
    && r.suite == Some(if options.suite.Some? then options.suite.value else OldSuite(w, before, c).GetOr(""))
    && r.byHash == HashedBy(w, before, options)
  }

  lemma {:induction false} RecordKeepsOptions(w: World, r: ReleaseData, prepared: seq<Prepared>)
    ensures var s := RecordAll(w, r, prepared);
            s.codename == r.codename && s.origin == r.origin && s.suite == r.suite && s.byHash == r.byHash
    decreases |prepared|
  {
    if prepared != [] {
      RecordGrows(w, r, prepared[0]);
      RecordKeepsOptions(w, Record(w, r, prepared[0]), prepared[1..]);
    }
  }

  lemma {:induction false} RetrievedAsAsked(w: World, objects: Objects, options: ReleaseOptions, date: string)
    requires FitOptions(w, objects, options, date)
    ensures var r := Retrieved(w, objects, options);
            Sane(r, date) && AsAsked(w, objects, options, r.(suite := Some(r.suite.GetOr(""))))
  {}

  /** A run to its end leaves a Release with the origin, the suite and the by-hash setting of the caller, and what it
      says where the caller says nothing. */
  lemma {:induction false} ReleaseAsAsked(
      w: World, before: Store, options: ReleaseOptions, bodies: seq<Op>, suites: seq<Suite>, signing: Signing,
      date: string)
    requires var plan := UploadPlan(w, options.codename, Retrieved(w, before.objects, options), bodies, suites, signing,
             date); plan.completes && Exec(w.hasher.md5, before, plan.ops).ok
    requires Lawful(w) && Bodies(bodies) && NoneMistaken(w.hasher.md5, before.objects)
    requires FitOptions(w, before.objects, options, date)
    requires var prepared := PreparedFor(w, options.codename, Retrieved(w, before.objects, options), suites);
             prepared.Ok? && AllFit(prepared.value)
    ensures var plan := UploadPlan(w, options.codename, Retrieved(w, before.objects, options), bodies, suites, signing,
            date);
            var after := Exec(w.hasher.md5, before, plan.ops).store.objects;
            && ReleaseFile(options.codename) in after
            && AsAsked(w, before.objects, options, w.parseRelease(after[ReleaseFile(options.codename)]))
  {
    var c, r := options.codename, Retrieved(w, before.objects, options);
    ReleaseLeft(w, before, options, bodies, suites, signing, date);
    RetrievedAsAsked(w, before.objects, options, date);
    var prepared, final := PreparedFor(w, c, r, suites).value, FinalRelease(w, c, r, suites);
    RecordAllSane(w, r, prepared, date);
    RecordKeepsOptions(w, r, prepared);
    assert w.parseRelease(w.printRelease(final, date)) == final.(suite := Some(final.suite.GetOr("")));
  }

  // ---- what the Release lists

  lemma {:induction false} RecordKeepsLists(w: World, r: ReleaseData, prepared: seq<Prepared>)
    ensures var s := RecordAll(w, r, prepared);
            && (forall component :: component in r.components ==> component in s.components)
            && (forall a :: a in r.architectures ==> a in s.architectures)
            && (forall i :: 0 <= i < |prepared| ==>
                  prepared[i].component in s.components && prepared[i].architecture in s.architectures)
    decreases |prepared|
  {
    if prepared != [] {
      RecordKeepsLists(w, Record(w, r, prepared[0]), prepared[1..]);
      assert forall i :: 0 < i < |prepared| ==> prepared[i] == prepared[1..][i - 1];
    }
  }

  /** The entry of a suite after recording: that of its artifacts, or the one from before. */
  lemma {:induction false} RecordedEntryIs(
      w: World, r: ReleaseData, prepared: seq<Prepared>, component: string, a: string, text: string, gzip: string,
      gz: bool)
    requires AllFit(prepared) && SuiteName(component, a) && PreparedAs(prepared, component, a, text, gzip)
    ensures var s, f := RecordAll(w, r, prepared), EntryName(component, a, gz);
            && (NamesSuite(prepared, component, a) ==>
                  f in s.files && s.files[f] == HashesOf(w.hasher, if gz then gzip else text))
            && (!NamesSuite(prepared, component, a) ==>
                  (f in s.files <==> f in r.files) && (f in s.files ==> s.files[f] == r.files[f]))
  {
    var f := EntryName(component, a, gz);
    RecordedExactly(w, r, prepared, component, a, gz);
    if f in RecordAll(w, r, prepared).files {
      RecordedEntry(w, r, prepared, f);
      forall i | 0 <= i < |prepared| && f in Entries(w, prepared[i])
        ensures Names(prepared[i], component, a)
        ensures Entries(w, prepared[i])[f] == HashesOf(w.hasher, if gz then gzip else text)
      {
        EntryIn(w, prepared[i], component, a, gz);
      }
      if NamesSuite(prepared, component, a) {
        var i :| 0 <= i < |prepared| && prepared[i].component == component && prepared[i].architecture == a;
        assert f in Entries(w, prepared[i]);
      }
    }
  }

  /** The Release names the component and the architecture, and lists both indexes with their sizes and digests. */
  ghost predicate ListsSuite(w: World, r: ReleaseData, component: string, a: string, text: string) {
    && component in r.components && a in r.architectures
    && EntryName(component, a, false) in r.files && EntryName(component, a, true) in r.files
    && r.files[EntryName(component, a, false)] == HashesOf(w.hasher, text)
    && r.files[EntryName(component, a, true)] == HashesOf(w.hasher, w.hasher.gzip(text))
  }

  /** A run to its end leaves a Release that lists the suites it was given. */
  lemma {:induction false} ReleaseLists(
      w: World, before: Store, options: ReleaseOptions, bodies: seq<Op>, suites: seq<Suite>, signing: Signing,
      date: string, component: string, a: string, text: string)
    requires var plan := UploadPlan(w, options.codename, Retrieved(w, before.objects, options), bodies, suites, signing,
             date); plan.completes && Exec(w.hasher.md5, before, plan.ops).ok
    requires Lawful(w) && Bodies(bodies) && NoneMistaken(w.hasher.md5, before.objects)
    requires FitOptions(w, before.objects, options, date) && SuiteName(component, a)
    requires var prepared := PreparedFor(w, options.codename, Retrieved(w, before.objects, options), suites);
             prepared.Ok? && AllFit(prepared.value)
    requires PublishesSuite(suites, component, a) && PrintAs(w, options.codename, suites, component, a, text)
    ensures var plan := UploadPlan(w, options.codename, Retrieved(w, before.objects, options), bodies, suites, signing,
            date);
            var after := Exec(w.hasher.md5, before, plan.ops).store.objects;
            && ReleaseFile(options.codename) in after
            && ListsSuite(w, w.parseRelease(after[ReleaseFile(options.codename)]), component, a, text)
  {
    var c, r := options.codename, Retrieved(w, before.objects, options);
    var prepared, final := PreparedFor(w, c, r, suites).value, FinalRelease(w, c, r, suites);
    ReleaseLeft(w, before, options, bodies, suites, signing, date);
    RetrievedAsAsked(w, before.objects, options, date);
    RecordAllSane(w, r, prepared, date);
    assert w.parseRelease(w.printRelease(final, date)) == final.(suite := Some(final.suite.GetOr("")));
    FinalLists(w, c, r, suites, component, a, text);
  }

  lemma {:induction false} FinalLists(
      w: World, c: string, r: ReleaseData, suites: seq<Suite>, component: string, a: string, text: string)
    requires PreparedFor(w, c, r, suites).Ok? && AllFit(PreparedFor(w, c, r, suites).value)
    requires SuiteName(component, a) && PublishesSuite(suites, component, a)
    requires PrintAs(w, c, suites, component, a, text)
    ensures ListsSuite(w, FinalRelease(w, c, r, suites), component, a, text)
  {
    var prepared := PreparedFor(w, c, r, suites).value;
    GivenIsPrepared(w, c, r, suites, component, a, text);
    RecordKeepsLists(w, r, prepared);
    var i :| 0 <= i < |prepared| && prepared[i].component == component && prepared[i].architecture == a;
    RecordedEntryIs(w, r, prepared, component, a, text, w.hasher.gzip(text), false);
    RecordedEntryIs(w, r, prepared, component, a, text, w.hasher.gzip(text), true);
  }

  // ---- an index that the Release does not list

  lemma {:induction false} UnlistedIsMissing(
      w: World, c: string, r: ReleaseData, suites: seq<Suite>, component: string, a: string)
    requires PreparedFor(w, c, r, suites).Ok? && AllFit(BuildAll(w, c, suites).value) && SuiteName(component, a)
    requires component in r.components && a in r.architectures && a in ["amd64", "i386", "armhf", "arm64"]
    requires EntryName(component, a, false) !in r.files && !PublishesSuite(suites, component, a)
    ensures PublishesSuite(Missing(RecordAll(w, r, BuildAll(w, c, suites).value)), component, a)
    ensures !NamesSuite(BuildAll(w, c, suites).value, component, a)
  {
    var changed := BuildAll(w, c, suites).value;
    var middle := RecordAll(w, r, changed);
    BuiltNames(w, c, suites, component, a);
    RecordedExactly(w, r, changed, component, a, false);
    RecordKeepsLists(w, r, changed);
    MissingInExactly(middle, middle.components);
    assert Suite(component, a, middle.byHash, []) in Missing(middle);
  }

  lemma {:induction false} MissingPrintsNothing(w: World, c: string, r: ReleaseData, component: string, a: string)
    requires BuildAll(w, c, Missing(r)).Ok? && w.printPackages([], c).Ok?
    ensures var text := w.printPackages([], c).value;
            PreparedAs(BuildAll(w, c, Missing(r)).value, component, a, text, w.hasher.gzip(text))
  {
    BuildKeepsNames(w, c, Missing(r));
    MissingInExactly(r, r.components);
    forall i | 0 <= i < |Missing(r)| ensures Missing(r)[i].packages == [] {
      assert Missing(r)[i] in Missing(r);
    }
  }

  lemma {:induction false} PreparedBehind(
      a: seq<Prepared>, b: seq<Prepared>, component: string, arch: string, text: string, gzip: string)
    requires !NamesSuite(a, component, arch) && PreparedAs(b, component, arch, text, gzip)
    ensures PreparedAs(a + b, component, arch, text, gzip)
  {
    var all := a + b;
    assert forall i :: 0 <= i < |a| ==> all[i] == a[i];
    assert forall i :: |a| <= i < |all| ==> all[i] == b[i - |a|];
  }

  lemma {:induction false} UnlistedPrepared(
      w: World, c: string, r: ReleaseData, suites: seq<Suite>, component: string, a: string)
    requires PreparedFor(w, c, r, suites).Ok? && AllFit(BuildAll(w, c, suites).value) && SuiteName(component, a)
    requires component in r.components && a in r.architectures && a in ["amd64", "i386", "armhf", "arm64"]
    requires EntryName(component, a, false) !in r.files && !PublishesSuite(suites, component, a)
    requires w.printPackages([], c).Ok?
    ensures var prepared, text := PreparedFor(w, c, r, suites).value, w.printPackages([], c).value;
            PreparedAs(prepared, component, a, text, w.hasher.gzip(text)) && NamesSuite(prepared, component, a)
  {
    var changed, text := BuildAll(w, c, suites).value, w.printPackages([], c).value;
    var middle := RecordAll(w, r, changed);
    var more := BuildAll(w, c, Missing(middle)).value;
    UnlistedIsMissing(w, c, r, suites, component, a);
    MissingPrintsNothing(w, c, middle, component, a);
    BuiltNames(w, c, Missing(middle), component, a);
    NamesAppend(changed, more, component, a);
    PreparedBehind(changed, more, component, a, text, w.hasher.gzip(text));
  }

  /** Whatever is stored under its name, the index of a suite that the Release provides for and does not list is
      replaced by an empty one in any run that publishes something else. */
  lemma {:induction false} UnlistedIsEmptied(
      w: World, before: Store, options: ReleaseOptions, bodies: seq<Op>, suites: seq<Suite>, signing: Signing,
      date: string, component: string, a: string)
    requires var plan := UploadPlan(w, options.codename, Retrieved(w, before.objects, options), bodies, suites, signing,
             date); plan.completes && Exec(w.hasher.md5, before, plan.ops).ok
    requires Bodies(bodies) && NoneMistaken(w.hasher.md5, before.objects) && SuiteName(component, a)
    requires var r := Retrieved(w, before.objects, options);
             && component in r.components && a in r.architectures && a in ["amd64", "i386", "armhf", "arm64"]
             && EntryName(component, a, false) !in r.files
    requires !PublishesSuite(suites, component, a) && w.printPackages([], options.codename).Ok?
    requires BuildAll(w, options.codename, suites).Ok? && AllFit(BuildAll(w, options.codename, suites).value)
    ensures var plan := UploadPlan(w, options.codename, Retrieved(w, before.objects, options), bodies, suites, signing,
            date);
            HasIndexes(w, Exec(w.hasher.md5, before, plan.ops).store.objects, options.codename, component, a,
                w.printPackages([], options.codename).value)
  {
    var c, r := options.codename, Retrieved(w, before.objects, options);
    UnlistedPrepared(w, c, r, suites, component, a);
    PreparedLeft(w, before, options, bodies, suites, signing, date, component, a, w.printPackages([], c).value);
  }

  // ---- when a publish touches nothing

  /** The packages of one of the suites cannot be printed. */
  ghost predicate Unprintable(w: World, c: string, suites: seq<Suite>) {
    exists i :: 0 <= i < |suites| && w.printPackages(suites[i].packages, c).Err?
  }

  lemma {:induction false} BuildFails(w: World, c: string, suites: seq<Suite>)
    ensures BuildAll(w, c, suites).Err? <==> Unprintable(w, c, suites)
  {
    if suites != [] {
      var rest := suites[1..];
      BuildFails(w, c, rest);
      assert forall i :: 0 <= i < |rest| ==> rest[i] == suites[i + 1];
      if i :| 0 <= i < |suites| && w.printPackages(suites[i].packages, c).Err? {
        assert i > 0 ==> suites[i] == rest[i - 1];
      }
      if i :| 0 <= i < |rest| && w.printPackages(rest[i].packages, c).Err? {
        assert suites[i + 1] == rest[i];
      }
    }
  }

  /** Preparing fails exactly when one of the given manifests cannot be printed. */
  lemma {:induction false} PreparingFails(w: World, c: string, r: ReleaseData, suites: seq<Suite>)
    requires PackagesLaw(w)
    ensures PreparedFor(w, c, r, suites).Err? <==> Unprintable(w, c, suites)
  {
    BuildFails(w, c, suites);
    if BuildAll(w, c, suites).Ok? {
      var middle := RecordAll(w, r, BuildAll(w, c, suites).value);
      BuildFails(w, c, Missing(middle));
      MissingInExactly(middle, middle.components);
      forall i | 0 <= i < |Missing(middle)| ensures w.printPackages(Missing(middle)[i].packages, c).Ok? {
        assert Missing(middle)[i] in Missing(middle);
        assert Printed(w, [], c, w.printPackages([], c));
      }
    }
  }

  lemma {:induction false} ExecSpends(md5: string -> string, store: Store, ops: seq<Op>)
    ensures Exec(md5, store, ops).store.budget <= store.budget
    ensures ops != [] && store.budget > 0 ==> Exec(md5, store, ops).store.budget < store.budget
    ensures ops != [] && store.budget == 0 ==> Exec(md5, store, ops) == Attempt(store, false)
    decreases |ops|
  {
    if ops != [] && Step(md5, store, ops[0]).ok {
      ExecSpends(md5, Step(md5, store, ops[0]).store, ops[1..]);
    }
  }

  lemma {:induction false} GivenMakesCalls(
      w: World, c: string, r: ReleaseData, bodies: seq<Op>, suites: seq<Suite>, signing: Signing, date: string)
    requires Bodies(bodies) && PreparedFor(w, c, r, suites).Ok? && suites != []
    ensures UploadPlan(w, c, r, bodies, suites, signing, date).ops != []
  {
    var prepared := PreparedFor(w, c, r, suites).value;
    BuildKeepsNames(w, c, suites);
    PublishInTwoParts(w, c, r, bodies, suites, signing, date);
    assert AllCanonicalOps(c, prepared) == CanonicalOps(c, prepared[0]) + AllCanonicalOps(c, prepared[1..]);
  }

  /** A run with manifests to publish makes no call exactly when one of them cannot be printed or it has no calls
      left. */
  lemma {:induction false} NoCallsExactly(
      w: World, before: Store, options: ReleaseOptions, bodies: seq<Op>, suites: seq<Suite>, signing: Signing,
      date: string)
    requires PackagesLaw(w) && Bodies(bodies) && suites != []
    ensures var plan := UploadPlan(w, options.codename, Retrieved(w, before.objects, options), bodies, suites, signing,
            date);
            var run := Exec(w.hasher.md5, before, plan.ops);
            !(run.ok && plan.completes) && run.store == before
            <==> before.budget == 0 || Unprintable(w, options.codename, suites)
  {
    var c, r := options.codename, Retrieved(w, before.objects, options);
    var plan := UploadPlan(w, c, r, bodies, suites, signing, date);
    PreparingFails(w, c, r, suites);
    if PreparedFor(w, c, r, suites).Ok? {
      GivenMakesCalls(w, c, r, bodies, suites, signing, date);
    }
    ExecSpends(w.hasher.md5, before, plan.ops);
  }
}
