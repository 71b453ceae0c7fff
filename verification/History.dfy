/** Runs one after another on one store, each free to stop after any call: every package that any stored index names
    has its body in the pool, at every step. */
module History {
  import opened Text
  import P = Package
  import opened R = Release
  import opened Keys
  import opened Calls
  import opened Worlds = World
  import opened Publication
  import opened Concurrent

  // ---- what an index refers to

  /** The packages of an index are in the pool, and stay good wherever their index is read. */
  ghost predicate Backed(w: World, packages: seq<P.Package>, pool: set<Key>) {
    forall i :: 0 <= i < |packages| ==> BackedPackage(w, packages[i], pool)
  }

  ghost predicate BackedPackage(w: World, p: P.Package, pool: set<Key>) {
    && w.pathOf(p, "").Ok? && Pool(w.pathOf(p, "").value) in pool
    && forall d {:trigger w.good(p, d)} {:trigger w.pathOf(p, d)} :: w.good(p, d) && w.pathOf(p, d) == w.pathOf(p, "")
  }

  ghost predicate BackedText(w: World, text: string, pool: set<Key>) {
    w.parsePackages(text).Ok? && Backed(w, w.parsePackages(text).value, pool)
  }

  /** Referential integrity: every stored index parses and refers to bodies that are there. */
  ghost predicate Integrity(w: World, objects: Objects) {
    forall key :: key in objects && key.Index? && !key.gz ==> BackedText(w, objects[key], objects.Keys)
  }

  lemma {:induction false} BackedGrows(w: World, text: string, pool: set<Key>, pool': set<Key>)
    requires BackedText(w, text, pool) && forall key :: key in pool && key.Pool? ==> key in pool'
    ensures BackedText(w, text, pool')
  {
    var packages := w.parsePackages(text).value;
    forall i | 0 <= i < |packages| ensures BackedPackage(w, packages[i], pool') {
      assert BackedPackage(w, packages[i], pool);
    }
  }

  // ---- calls that keep it

  /** Calls that never lose a body and write an index only when the bodies it names are in the pool, where `pool` is
      what is known to be stored before them. */
  ghost predicate SafeOps(w: World, pool: set<Key>, ops: seq<Op>)
    decreases |ops|
  {
    ops != [] ==>
      match ops[0]
      case Delete(key) => !key.Pool? && SafeOps(w, pool, ops[1..])
      case Put(key, data, mode) =>
        && (key.Index? && !key.gz ==> BackedText(w, data, pool))
        && SafeOps(w, if key.Pool? then pool + {key} else pool, ops[1..])
  }

  lemma {:induction false} StoredKeepsIntegrity(w: World, objects: Objects, key: Key, data: string)
    requires Integrity(w, objects) && (key.Index? && !key.gz ==> BackedText(w, data, objects.Keys))
    ensures Integrity(w, objects[key := data])
  {
    var after := objects[key := data];
    forall k | k in after && k.Index? && !k.gz ensures BackedText(w, after[k], after.Keys) {
      BackedGrows(w, after[k], objects.Keys, after.Keys);
    }
  }

  lemma {:induction false} DeletedKeepsIntegrity(w: World, objects: Objects, key: Key)
    requires Integrity(w, objects) && !key.Pool?
    ensures Integrity(w, objects - {key})
  {
    var after := objects - {key};
    forall k | k in after && k.Index? && !k.gz ensures BackedText(w, after[k], after.Keys) {
      BackedGrows(w, after[k], objects.Keys, after.Keys);
    }
  }

  /** Bodies of `pool` that are stored. */
  ghost predicate Holds(objects: Objects, pool: set<Key>) {
    forall key :: key in pool && key.Pool? ==> key in objects
  }

  /** Safe calls keep integrity however far they get. */
  lemma {:induction false} SafeExec(w: World, store: Store, pool: set<Key>, ops: seq<Op>)
    requires Integrity(w, store.objects) && Holds(store.objects, pool) && SafeOps(w, pool, ops)
    ensures Integrity(w, Exec(w.hasher.md5, store, ops).store.objects)
    decreases |ops|
  {
    if ops != [] {
      var first := Step(w.hasher.md5, store, ops[0]);
      SafeStep(w, store, pool, ops[0]);
      if first.ok {
        match ops[0] {
          case Delete(key) => SafeExec(w, first.store, pool, ops[1..]);
          case Put(key, data, mode) => SafeExec(w, first.store, if key.Pool? then pool + {key} else pool, ops[1..]);
        }
      }
    }
  }

  lemma {:induction false} SafeStep(w: World, store: Store, pool: set<Key>, op: Op)
    requires Integrity(w, store.objects) && Holds(store.objects, pool)
    requires op.Delete? ==> !op.key.Pool?
    requires op.Put? && op.key.Index? && !op.key.gz ==> BackedText(w, op.data, pool)
    ensures var after := Step(w.hasher.md5, store, op);
            && Integrity(w, after.store.objects) && Holds(after.store.objects, pool)
            && (after.ok && op.Put? ==> op.key in after.store.objects)
  {
    match op {
      case Delete(key) => DeletedKeepsIntegrity(w, store.objects, key);
      case Put(key, data, mode) =>
        if key.Index? && !key.gz {
          BackedGrows(w, data, pool, store.objects.Keys);
        }
        StoredKeepsIntegrity(w, store.objects, key, data);
    }
  }

  // ---- the calls of a publishing run are safe

  /** Every package of the manifests is good and has its body stored, or brought by the run. */
  ghost predicate Supplied(w: World, codename: string, suites: seq<Suite>, pool: set<Key>) {
    forall i :: 0 <= i < |suites| ==> SuppliedPackages(w, codename, suites[i].packages, pool)
  }

  ghost predicate SuppliedPackages(w: World, codename: string, packages: seq<P.Package>, pool: set<Key>) {
    forall k :: 0 <= k < |packages| ==>
      w.good(packages[k], codename) && w.pathOf(packages[k], codename).Ok?
          && Pool(w.pathOf(packages[k], codename).value) in pool
  }

  /** What the body calls store. */
  function BodyKeys(bodies: seq<Op>): set<Key> {
    set i | 0 <= i < |bodies| :: bodies[i].key
  }

  /** A printed manifest of supplied packages is backed. */
  lemma {:induction false} PrintedBacked(w: World, codename: string, packages: seq<P.Package>, pool: set<Key>)
    requires Lawful(w) && SuppliedPackages(w, codename, packages, pool)
    ensures w.printPackages(packages, codename).Ok?
    ensures BackedText(w, w.printPackages(packages, codename).value, pool)
  {
    var text := w.printPackages(packages, codename);
    assert AllGood(w, packages, codename);
    assert Printed(w, packages, codename, text);
    var again := w.parsePackages(text.value).value;
    forall i | 0 <= i < |again| ensures BackedPackage(w, again[i], pool) {
      assert SamePackage(w, packages[i], codename, again[i]);
      assert w.pathOf(again[i], "") == w.pathOf(packages[i], codename);
    }
  }

  ghost predicate BackedPrepared(w: World, prepared: seq<Prepared>, pool: set<Key>) {
    forall i :: 0 <= i < |prepared| ==> BackedText(w, prepared[i].plain, pool)
  }

  lemma {:induction false} BuiltBacked(w: World, codename: string, suites: seq<Suite>, pool: set<Key>)
    requires Lawful(w) && Supplied(w, codename, suites, pool) && BuildAll(w, codename, suites).Ok?
    ensures BackedPrepared(w, BuildAll(w, codename, suites).value, pool)
  {
    var prepared := BuildAll(w, codename, suites).value;
    BuildKeepsNames(w, codename, suites);
    forall i | 0 <= i < |prepared| ensures BackedText(w, prepared[i].plain, pool) {
      PrintedBacked(w, codename, suites[i].packages, pool);
    }
  }

  lemma {:induction false} MissingSupplied(w: World, codename: string, r: ReleaseData, pool: set<Key>)
    ensures Supplied(w, codename, Missing(r), pool)
  {
    MissingInExactly(r, r.components);
    forall i | 0 <= i < |Missing(r)| ensures Missing(r)[i].packages == [] {
      assert Missing(r)[i] in Missing(r);
    }
  }

  lemma {:induction false} PreparedBacked(
      w: World, codename: string, r: ReleaseData, suites: seq<Suite>, pool: set<Key>)
    requires Lawful(w) && Supplied(w, codename, suites, pool) && PreparedFor(w, codename, r, suites).Ok?
    ensures BackedPrepared(w, PreparedFor(w, codename, r, suites).value, pool)
  {
    var middle := RecordAll(w, r, BuildAll(w, codename, suites).value);
    BuiltBacked(w, codename, suites, pool);
    MissingSupplied(w, codename, middle, pool);
    BuiltBacked(w, codename, Missing(middle), pool);
  }

  lemma {:induction false} SafeAppend(w: World, pool: set<Key>, a: seq<Op>, b: seq<Op>, pool': set<Key>)
    requires SafeOps(w, pool, a) && SafeOps(w, pool', b)
    requires pool' <= pool
    ensures SafeOps(w, pool, a + b)
    decreases |a|
  {
    if a == [] {
      AppendEmpty(b);
      SafeMonotone(w, pool', pool, b);
    } else {
      assert (a + b)[0] == a[0] && (a + b)[1..] == a[1..] + b;
      match a[0] {
        case Delete(key) => SafeAppend(w, pool, a[1..], b, pool');
        case Put(key, data, mode) => SafeAppend(w, if key.Pool? then pool + {key} else pool, a[1..], b, pool');
      }
    }
  }

  lemma {:induction false} SafeMonotone(w: World, pool: set<Key>, pool': set<Key>, ops: seq<Op>)
    requires SafeOps(w, pool, ops) && pool <= pool'
    ensures SafeOps(w, pool', ops)
    decreases |ops|
  {
    if ops != [] {
      match ops[0] {
        case Delete(key) => SafeMonotone(w, pool, pool', ops[1..]);
        case Put(key, data, mode) =>
          if key.Index? && !key.gz {
            BackedGrows(w, data, pool, pool');
          }
          SafeMonotone(w, if key.Pool? then pool + {key} else pool,
            if key.Pool? then pool' + {key} else pool', ops[1..]);
      }
    }
  }

  /** Calls that concern neither bodies nor plain indexes. */
  ghost predicate Harmless(ops: seq<Op>) {
    forall j :: 0 <= j < |ops| ==> !ops[j].key.Pool? && (ops[j].Put? && ops[j].key.Index? ==> ops[j].key.gz)
  }

  lemma {:induction false} HarmlessIsSafe(w: World, pool: set<Key>, ops: seq<Op>)
    requires Harmless(ops)
    ensures SafeOps(w, pool, ops)
    decreases |ops|
  {
    if ops != [] {
      forall j | 0 <= j < |ops[1..]| ensures ops[1..][j] == ops[j + 1] {}
      HarmlessIsSafe(w, pool, ops[1..]);
    }
  }

  lemma {:induction false} ByHashHarmless(w: World, codename: string, prepared: seq<Prepared>)
    ensures Harmless(AllByHashOps(w, codename, prepared))
  {
    AllByHashFit(w, codename, "", prepared);
  }

  lemma {:induction false} TripleHarmless(codename: string, text: string, signing: Signing)
    ensures Harmless(TripleOps(codename, text, signing))
  {}

  lemma {:induction false} CanonicalSafe(w: World, codename: string, p: Prepared, pool: set<Key>)
    requires BackedText(w, p.plain, pool)
    ensures SafeOps(w, pool, CanonicalOps(codename, p))
  {
    var ops := CanonicalOps(codename, p);
    assert ops[1..] == [ops[1]] && ops[1..][1..] == [];
    HarmlessIsSafe(w, pool, ops[1..]);
  }

  lemma {:induction false} AllCanonicalSafe(w: World, codename: string, prepared: seq<Prepared>, pool: set<Key>)
    requires BackedPrepared(w, prepared, pool)
    ensures SafeOps(w, pool, AllCanonicalOps(codename, prepared))
  {
    if prepared != [] {
      CanonicalSafe(w, codename, prepared[0], pool);
      AllCanonicalSafe(w, codename, prepared[1..], pool);
      SafeAppend(w, pool, CanonicalOps(codename, prepared[0]), AllCanonicalOps(codename, prepared[1..]), pool);
    }
  }

  lemma {:induction false} EachSafe(w: World, codename: string, prepared: seq<Prepared>, pool: set<Key>)
    requires BackedPrepared(w, prepared, pool)
    ensures SafeOps(w, pool, EachOps(w, codename, prepared))
  {
    if prepared != [] {
      var p, rest := prepared[0], EachOps(w, codename, prepared[1..]);
      OpsFit(w, codename, "", p);
      HarmlessIsSafe(w, pool, ByHashOps(w, codename, p));
      CanonicalSafe(w, codename, p, pool);
      EachSafe(w, codename, prepared[1..], pool);
      SafeAppend(w, pool, ByHashOps(w, codename, p), CanonicalOps(codename, p), pool);
      SafeAppend(w, pool, ByHashOps(w, codename, p) + CanonicalOps(codename, p), rest, pool);
    }
  }

  lemma {:induction false} BodiesSafe(w: World, pool: set<Key>, bodies: seq<Op>, rest: seq<Op>)
    requires Bodies(bodies) && SafeOps(w, pool + BodyKeys(bodies), rest)
    ensures SafeOps(w, pool, bodies + rest)
    decreases |bodies|
  {
    if bodies == [] {
      AppendEmpty(rest);
      assert pool + BodyKeys(bodies) == pool;
    } else {
      var key := bodies[0].key;
      assert (bodies + rest)[0] == bodies[0] && (bodies + rest)[1..] == bodies[1..] + rest;
      assert bodies == [bodies[0]] + bodies[1..];
      assert pool + BodyKeys(bodies) == pool + {key} + BodyKeys(bodies[1..]);
      BodiesSafe(w, pool + {key}, bodies[1..], rest);
    }
  }

  /** `Release.Publish` is safe: its own validation writes empty indexes only. */
  lemma {:induction false} ReleasePlanSafe(
      w: World, codename: string, r: ReleaseData, signing: Signing, date: string, pool: set<Key>)
    requires Lawful(w)
    ensures SafeOps(w, pool, ReleasePlan(w, codename, r, signing, date).ops)
  {
    var created := BuildAll(w, codename, Missing(r));
    if created.Ok? {
      var text := w.printRelease(RecordAll(w, r, created.value), date);
      MissingSupplied(w, codename, r, pool);
      BuiltBacked(w, codename, Missing(r), pool);
      EachSafe(w, codename, created.value, pool);
      TripleHarmless(codename, text, signing);
      HarmlessIsSafe(w, pool, TripleOps(codename, text, signing));
      SafeAppend(w, pool, EachOps(w, codename, created.value), TripleOps(codename, text, signing), pool);
    }
  }

  /** `Upload` and `PublishMetadata` are safe: bodies come before the indexes that name them. */
  lemma {:induction false} UploadPlanSafe(
      w: World, codename: string, r: ReleaseData, bodies: seq<Op>, suites: seq<Suite>, signing: Signing, date: string,
      pool: set<Key>)
    requires Lawful(w) && Bodies(bodies) && Supplied(w, codename, suites, pool + BodyKeys(bodies))
    ensures SafeOps(w, pool, UploadPlan(w, codename, r, bodies, suites, signing, date).ops)
  {
    if PreparedFor(w, codename, r, suites).Ok? {
      var all := pool + BodyKeys(bodies);
      var prepared := PreparedFor(w, codename, r, suites).value;
      var hashed, canonical := AllByHashOps(w, codename, prepared), AllCanonicalOps(codename, prepared);
      var last := ReleasePlan(w, codename, RecordAll(w, r, prepared), signing, date).ops;
      PreparedBacked(w, codename, r, suites, all);
      ByHashHarmless(w, codename, prepared);
      HarmlessIsSafe(w, all, hashed);
      AllCanonicalSafe(w, codename, prepared, all);
      ReleasePlanSafe(w, codename, RecordAll(w, r, prepared), signing, date, all);
      SafeAppend(w, all, hashed, canonical, all);
      SafeAppend(w, all, hashed + canonical, last, all);
      BodiesSafe(w, pool, bodies, hashed + canonical + last);
    }
  }

  // ---- collecting garbage

  /** No stored index names the body. */
  ghost predicate Unreferenced(w: World, objects: Objects, path: string) {
    forall key :: key in objects && key.Index? && !key.gz ==>
      && w.parsePackages(objects[key]).Ok?
      && forall i :: 0 <= i < |w.parsePackages(objects[key]).value| ==>
           w.pathOf(w.parsePackages(objects[key]).value[i], "") != Ok(path)
  }

  /** Deletions of bodies that nothing refers to. */
  ghost predicate Collects(w: World, objects: Objects, ops: seq<Op>) {
    forall j :: 0 <= j < |ops| ==> ops[j].Delete? && ops[j].key.Pool? && Unreferenced(w, objects, ops[j].key.path)
  }

  lemma {:induction false} UnreferencedDeleted(w: World, objects: Objects, path: string)
    requires Integrity(w, objects) && Unreferenced(w, objects, path)
    ensures Integrity(w, objects - {Pool(path)})
  {
    var after := objects - {Pool(path)};
    forall key | key in after && key.Index? && !key.gz ensures BackedText(w, after[key], after.Keys) {
      var packages := w.parsePackages(objects[key]).value;
      assert BackedText(w, objects[key], objects.Keys);
      forall i | 0 <= i < |packages| ensures BackedPackage(w, packages[i], after.Keys) {
        assert BackedPackage(w, packages[i], objects.Keys);
      }
    }
  }

  lemma {:induction false} CollectStep(w: World, objects: Objects, ops: seq<Op>)
    requires ops != [] && Collects(w, objects, ops)
    ensures Collects(w, objects - {ops[0].key}, ops[1..])
  {
    var after := objects - {ops[0].key};
    forall j | 0 <= j < |ops[1..]|
      ensures ops[1..][j].Delete? && ops[1..][j].key.Pool? && Unreferenced(w, after, ops[1..][j].key.path)
    {
      assert ops[1..][j] == ops[j + 1];
    }
  }

  lemma {:induction false} CollectExec(w: World, store: Store, ops: seq<Op>)
    requires Integrity(w, store.objects) && Collects(w, store.objects, ops)
    ensures Integrity(w, Exec(w.hasher.md5, store, ops).store.objects)
    decreases |ops|
  {
    if ops != [] {
      var first := Step(w.hasher.md5, store, ops[0]);
      if first.ok {
        UnreferencedDeleted(w, store.objects, ops[0].key.path);
        CollectStep(w, store.objects, ops);
        CollectExec(w, first.store, ops[1..]);
      }
    }
  }

  // ---- histories

  /** Uploads, copies, deletions and repairs publish changed manifests; a verification may only sign anew; a clean
      only deletes bodies. */
  datatype Run =
    | Publish(options: ReleaseOptions, bodies: seq<Op>, suites: seq<Suite>, signing: Signing, date: string)
    | Resign(options: ReleaseOptions, signing: Signing, date: string)
    | Collect(deletions: seq<Op>)

  function PlanOf(w: World, objects: Objects, run: Run): Plan {
    match run
    case Publish(options, bodies, suites, signing, date) =>
      UploadPlan(w, options.codename, Retrieved(w, objects, options), bodies, suites, signing, date)
    case Resign(options, signing, date) =>
      ReleasePlan(w, options.codename, Retrieved(w, objects, options), signing, date)
    case Collect(deletions) => Plan(deletions, true)
  }

  /** What every run looks like: an upload stores its bodies first, and a clean only deletes bodies. */
  ghost predicate Shaped(run: Run) {
    match run
    case Publish(options, bodies, suites, signing, date) => Bodies(bodies)
    case Resign(options, signing, date) => true
    case Collect(deletions) => forall j :: 0 <= j < |deletions| ==> deletions[j].Delete? && deletions[j].key.Pool?
  }

  /** The manifests a run publishes name stored bodies or bodies it brings; a clean deletes unreferenced ones. */
  ghost predicate Admissible(w: World, objects: Objects, run: Run) {
    match run
    case Publish(options, bodies, suites, signing, date) =>
      Bodies(bodies) && Supplied(w, options.codename, suites, objects.Keys + BodyKeys(bodies))
    case Resign(options, signing, date) => true
    case Collect(deletions) => Collects(w, objects, deletions)
  }

  /** The store after a run that stops after at most `calls` calls. */
  function After(w: World, objects: Objects, run: Run, calls: nat): Objects {
    Exec(w.hasher.md5, Store(objects, calls), PlanOf(w, objects, run).ops).store.objects
  }

  lemma {:induction false} RunKeepsIntegrity(w: World, objects: Objects, run: Run, calls: nat)
    requires Lawful(w) && Integrity(w, objects) && Admissible(w, objects, run)
    ensures Integrity(w, After(w, objects, run, calls))
  {
    var store := Store(objects, calls);
    match run {
      case Publish(options, bodies, suites, signing, date) =>
        var r := Retrieved(w, objects, options);
        UploadPlanSafe(w, options.codename, r, bodies, suites, signing, date, objects.Keys);
        SafeExec(w, store, objects.Keys, UploadPlan(w, options.codename, r, bodies, suites, signing, date).ops);
      case Resign(options, signing, date) =>
        var r := Retrieved(w, objects, options);
        ReleasePlanSafe(w, options.codename, r, signing, date, objects.Keys);
        SafeExec(w, store, objects.Keys, ReleasePlan(w, options.codename, r, signing, date).ops);
      case Collect(deletions) => CollectExec(w, store, deletions);
    }
  }
}
