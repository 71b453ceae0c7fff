/** A clean as a run in a history: what it deletes is unreferenced, so referential integrity survives it. */
module Collection {
  import opened Text
  import opened Lists
  import opened Paths
  import opened Storage
  import opened Keys
  import opened Calls
  import P = Package
  import opened Worlds = World
  import opened Publication
  import opened Commands
  import opened History
  import M = Maintenance

  /** The calls that delete the keys. */
  function DeleteOps(keys: seq<string>): (ops: seq<Op>)
    ensures |ops| == |keys|
    ensures forall i :: 0 <= i < |ops| ==> ops[i] == Delete(Pool(keys[i]))
  {
    if keys == [] then [] else [Delete(Pool(keys[0]))] + DeleteOps(keys[1..])
  }

  /** The text of an index name is a manifest key to a clean. */
  lemma {:induction false} IndexTextIsIndexKey(key: Key)
    requires key.Index? && !key.gz && CleanName(key)
    ensures HasPrefix(KeyText(key), "dists/") && M.IsIndexKey()(KeyText(key))
  {
    DistsIsNotPool(key);
    PartsOfText(key);
    AppendEmpty("Packages");
    BinarySegment(key.architecture);
    BaseOfJoin(SuiteDir(key.codename) + "/" + key.component, "binary-" + key.architecture);
    var directory := "binary-" + key.architecture;
    assert directory[..7] == "binary-";
  }

  lemma {:induction false} CleanReference(w: World, objects: Objects, key: Key, i: nat, path: string)
    requires CleanNames(objects) && key in objects && key.Index? && !key.gz && CleanKey(path)
    requires M.Resolves(w, objects[key]) && i < |w.parsePackages(objects[key]).value|
    requires w.pathOf(w.parsePackages(objects[key]).value[i], "") == Ok(path)
    ensures M.IsReferenced(w, Image(objects), path)
  {
    var p := w.parsePackages(objects[key]).value[i];
    CleanKeyStart(path);
    CleanFixed(path);
    CleanKeyInside(path);
    assert M.Reference(w, p).Ok?;
    JoinKeyCleans("", path);
    IndexTextIsIndexKey(key);
    ImageAt(objects, key);
    assert M.Names(w, objects[key], path);
  }

  lemma {:induction false} DeletedIsNotNamed(w: World, objects: Objects, codename: string, path: string, key: Key)
    requires CleanNames(objects) && M.Deletions(w, Image(objects), codename).Ok?
    requires path in M.Deletions(w, Image(objects), codename).value && CleanKey(path)
    requires key in objects && key.Index? && !key.gz
    ensures w.parsePackages(objects[key]).Ok?
    ensures forall i :: 0 <= i < |w.parsePackages(objects[key]).value| ==>
            w.pathOf(w.parsePackages(objects[key]).value[i], "") != Ok(path)
  {
    M.DeletesExactly(w, Image(objects), codename, path);
    M.DeletionsExist(w, Image(objects), codename);
    IndexTextIsIndexKey(key);
    ImageAt(objects, key);
    assert M.Resolves(w, Image(objects)[KeyText(key)]);
    forall i | 0 <= i < |w.parsePackages(objects[key]).value|
      ensures w.pathOf(w.parsePackages(objects[key]).value[i], "") != Ok(path)
    {
      if w.pathOf(w.parsePackages(objects[key]).value[i], "") == Ok(path) {
        CleanReference(w, objects, key, i, path);
      }
    }
  }

  lemma {:induction false} DeletedIsStored(w: World, objects: Objects, codename: string, path: string)
    requires CleanNames(objects) && M.Deletions(w, Image(objects), codename).Ok?
    requires path in M.Deletions(w, Image(objects), codename).value
    ensures Pool(path) in objects
  {
    M.DeletesExactly(w, Image(objects), codename, path);
    M.PoolPrefixIs(codename);
    var name := NameFor(objects, path);
    var pool := M.ScopedPrefix("pool", codename).value;
    assert path[..5] == path[..|pool|][..5] == pool[..5] == "pool/";
    if !name.Pool? {
      DistsIsNotPool(name);
    }
  }

  lemma {:induction false} DeletedIsPool(w: World, objects: Objects, codename: string, path: string)
    requires CleanNames(objects) && M.Deletions(w, Image(objects), codename).Ok?
    requires path in M.Deletions(w, Image(objects), codename).value
    ensures Pool(path) in objects && Unreferenced(w, objects, path)
  {
    DeletedIsStored(w, objects, codename, path);
    forall key | key in objects && key.Index? && !key.gz
      ensures w.parsePackages(objects[key]).Ok?
      ensures forall i :: 0 <= i < |w.parsePackages(objects[key]).value| ==>
              w.pathOf(w.parsePackages(objects[key]).value[i], "") != Ok(path)
    {
      DeletedIsNotNamed(w, objects, codename, path, key);
    }
  }

  /** What a clean deletes from a store may be deleted in any history. */
  lemma {:induction false} CleanAdmissible(w: World, objects: Objects, codename: string)
    requires CleanNames(objects) && M.Deletions(w, Image(objects), codename).Ok?
    ensures Admissible(w, objects, Collect(DeleteOps(M.Deletions(w, Image(objects), codename).value)))
  {
    var keys := M.Deletions(w, Image(objects), codename).value;
    var ops := DeleteOps(keys);
    forall j | 0 <= j < |ops| ensures ops[j].Delete? && ops[j].key.Pool? && Unreferenced(w, objects, ops[j].key.path) {
      assert keys[j] in keys;
      DeletedIsPool(w, objects, codename, keys[j]);
    }
  }

  // ---- a clean as calls on the store

  /** What a clean does: it fails before any call, or deletes the keys in order. */
  ghost predicate Cleaned(w: World, before: Store, after: Store, ok: bool, codename: string) {
    CleanNames(before.objects) ==>
      var deletions := M.Deletions(w, Image(before.objects), codename);
      if deletions.Err? then !ok && after == before
      else Attempt(after, ok) == Exec(w.hasher.md5, before, DeleteOps(deletions.value))
  }

  ghost predicate PoolKeys(keys: seq<string>) {
    forall i :: 0 <= i < |keys| ==> CleanName(Pool(keys[i]))
  }

  lemma {:induction false} DeletionsArePoolKeys(w: World, objects: Objects, codename: string)
    requires CleanNames(objects) && M.Deletions(w, Image(objects), codename).Ok?
    ensures PoolKeys(M.Deletions(w, Image(objects), codename).value)
  {
    var keys := M.Deletions(w, Image(objects), codename).value;
    forall i | 0 <= i < |keys| ensures CleanName(Pool(keys[i])) {
      assert keys[i] in keys;
      DeletedIsPool(w, objects, codename, keys[i]);
    }
  }

  function Least(a: nat, b: nat): nat {
    if a < b then a else b
  }

  lemma {:induction false} RemainingFront(view: M.Shelf, key: string, deleted: seq<string>)
    ensures M.Remaining(view - {key}, deleted) == M.Remaining(view, [key] + deleted)
  {}

  lemma {:induction false} RemainingNothing(view: M.Shelf)
    ensures M.Remaining(view, []) == view
  {}

  lemma {:induction false} RemainingStep(view: M.Shelf, keys: seq<string>, count: nat)
    requires 0 < count <= |keys|
    ensures M.Remaining(view - {keys[0]}, keys[1..][..count - 1]) == M.Remaining(view, keys[..count])
  {
    RemainingFront(view, keys[0], keys[1..][..count - 1]);
    assert [keys[0]] + keys[1..][..count - 1] == keys[..count];
  }

  lemma {:induction false} StepDeletes(md5: string -> string, store: Store, keys: seq<string>)
    requires keys != [] && store.budget > 0
    ensures Exec(md5, store, DeleteOps(keys))
            == Exec(md5, Store(store.objects - {Pool(keys[0])}, store.budget - 1), DeleteOps(keys[1..]))
  {
    DeleteOpsTail(keys);
  }

  lemma {:induction false} NoStepDeletes(md5: string -> string, store: Store, keys: seq<string>)
    requires keys == [] || store.budget == 0
    ensures Exec(md5, store, DeleteOps(keys)).store.objects == store.objects
  {}

  lemma {:induction false} PoolKeysTail(keys: seq<string>)
    requires PoolKeys(keys) && keys != []
    ensures PoolKeys(keys[1..])
  {
    assert forall i :: 0 <= i < |keys[1..]| ==> keys[1..][i] == keys[i + 1];
  }

  /** Deleting one key after the other on the store is removing them from its image, however far it gets. */
  lemma {:induction false} CollectedImage(md5: string -> string, store: Store, keys: seq<string>)
    requires CleanNames(store.objects) && PoolKeys(keys)
    ensures var after := Exec(md5, store, DeleteOps(keys)).store.objects;
            CleanNames(after) && Image(after) == M.Remaining(Image(store.objects), keys[..Least(store.budget, |keys|)])
    decreases |keys|
  {
    if keys == [] || store.budget == 0 {
      NoStepDeletes(md5, store, keys);
      assert keys[..0] == [];
      RemainingNothing(Image(store.objects));
    } else {
      var objects := store.objects - {Pool(keys[0])};
      StepDeletes(md5, store, keys);
      ImageOfDelete(store.objects, Pool(keys[0]));
      PoolKeysTail(keys);
      CollectedImage(md5, Store(objects, store.budget - 1), keys[1..]);
      RemainingStep(Image(store.objects), keys, Least(store.budget, |keys|));
    }
  }

  lemma {:induction false} DeleteOpsTail(keys: seq<string>)
    requires keys != []
    ensures DeleteOps(keys)[0] == Delete(Pool(keys[0])) && DeleteOps(keys)[1..] == DeleteOps(keys[1..])
  {}

  /** A clean on named objects, stopped after any number of calls, leaves what `CleanPool` leaves of their keys when
      it is stopped after as many deletions. */
  lemma {:induction false} CleanIsRun(w: World, objects: Objects, codename: string, calls: nat)
    requires CleanNames(objects) && M.Deletions(w, Image(objects), codename).Ok?
    ensures var keys := M.Deletions(w, Image(objects), codename).value;
            var after := After(w, objects, Collect(DeleteOps(keys)), calls);
            CleanNames(after) && Image(after) == M.Remaining(Image(objects), keys[..Least(calls, |keys|)])
  {
    DeletionsArePoolKeys(w, objects, codename);
    CollectedImage(w.hasher.md5, Store(objects, calls), M.Deletions(w, Image(objects), codename).value);
  }

  /** The image of a store without backslashes is one that `CleanPool` works on. */
  lemma {:induction false} ImageIsShelf(objects: Objects)
    requires CleanNames(objects) && forall key :: key in objects ==> '\\' !in KeyText(key)
    ensures M.CleanShelf(Image(objects))
  {
    forall text | text in Image(objects) ensures CleanKey(text) && '\\' !in text {
      KeyTextClean(NameFor(objects, text));
    }
  }

  // ---- a clean and a verification

  lemma {:induction false} CollectOnly(md5: string -> string, store: Store, keys: seq<string>, key: Key)
    requires key in store.objects
    ensures var after := Exec(md5, store, DeleteOps(keys)).store.objects;
            && (key !in after ==> key.Pool? && key.path in keys)
            && (key in after ==> after[key] == store.objects[key])
    decreases |keys|
  {
    if keys != [] && store.budget > 0 {
      StepDeletes(md5, store, keys);
      if key != Pool(keys[0]) {
        CollectOnly(md5, Store(store.objects - {Pool(keys[0])}, store.budget - 1), keys[1..], key);
      } else {
        CollectNothingNew(md5, Store(store.objects - {key}, store.budget - 1), keys[1..], key);
      }
    } else {
      NoStepDeletes(md5, store, keys);
    }
  }

  lemma {:induction false} CollectNothingNew(md5: string -> string, store: Store, keys: seq<string>, key: Key)
    requires key !in store.objects
    ensures key !in Exec(md5, store, DeleteOps(keys)).store.objects
    decreases |keys|
  {
    if keys != [] && store.budget > 0 {
      StepDeletes(md5, store, keys);
      CollectNothingNew(md5, Store(store.objects - {Pool(keys[0])}, store.budget - 1), keys[1..], key);
    } else {
      NoStepDeletes(md5, store, keys);
    }
  }

  ghost predicate Cleanable(w: World, objects: Objects, codename: string) {
    CleanNames(objects) && M.Deletions(w, Image(objects), codename).Ok?
  }

  /** The keys a clean deletes from a store. */
  ghost function KeysOf(w: World, objects: Objects, codename: string): seq<string>
    requires Cleanable(w, objects, codename)
  {
    M.Deletions(w, Image(objects), codename).value
  }

  /** The store after that many of its calls. */
  ghost function AfterClean(w: World, objects: Objects, codename: string, calls: nat): Objects
    requires Cleanable(w, objects, codename)
  {
    After(w, objects, Collect(DeleteOps(KeysOf(w, objects, codename))), calls)
  }

  /** A clean takes bodies only. */
  lemma {:induction false} OthersStay(w: World, objects: Objects, codename: string, calls: nat, key: Key)
    requires Cleanable(w, objects, codename) && !key.Pool?
    ensures var after := AfterClean(w, objects, codename, calls);
            (key in after <==> key in objects) && (key in after ==> after[key] == objects[key])
  {
    var keys := KeysOf(w, objects, codename);
    if key in objects {
      CollectOnly(w.hasher.md5, Store(objects, calls), keys, key);
    } else {
      CollectNothingNew(w.hasher.md5, Store(objects, calls), keys, key);
    }
  }

  lemma {:induction false} FoundIsImage(objects: Objects, text: string)
    requires CleanNames(objects)
    ensures Found(objects, text) <==> text in Image(objects)
  {}

  /** What is found after a clean is what was found and not taken. */
  lemma {:induction false} FoundAfter(w: World, objects: Objects, codename: string, calls: nat, text: string)
    requires Cleanable(w, objects, codename)
    ensures var keys := KeysOf(w, objects, codename);
            Found(AfterClean(w, objects, codename, calls), text)
            <==> Found(objects, text) && text !in keys[..Least(calls, |keys|)]
  {
    CleanIsRun(w, objects, codename, calls);
    FoundIsImage(objects, text);
    FoundIsImage(AfterClean(w, objects, codename, calls), text);
  }

  // ---- paths that a clean and a verification read differently

  /** On a store with a prefix `Head` takes a second leading slash off the path, and a clean does not: the body is
      looked for, stored in the cleaned pool, and protected by no index. */
  ghost predicate Exposed(w: World, objects: Objects, codename: string, prefix: Prefix, path: string)
    requires CleanNames(objects) && M.ScopedPrefix("pool", codename).Ok?
  {
    && prefix != "" && Rooted(TrimOneSlash(path)) && Relative(path) in Image(objects)
    && HasPrefix(Relative(path), M.ScopedPrefix("pool", codename).value)
    && !M.IsReferenced(w, Image(objects), Relative(path))
  }

  /** A path that an index refers to is looked up under a deleted key exactly when it is exposed. */
  lemma {:induction false} TakenIsExposed(w: World, objects: Objects, codename: string, prefix: Prefix, path: string)
    requires Cleanable(w, objects, codename)
    requires JoinKey("", path).Ok? && M.IsReferenced(w, Image(objects), JoinKey("", path).value)
    ensures Looked(prefix, Ok(path)).Ok?
    ensures var target := Looked(prefix, Ok(path)).value;
            Exposed(w, objects, codename, prefix, path)
            <==> target.Some? && target.value in KeysOf(w, objects, codename)
  {
    LogicalCases(prefix, path);
    if prefix == "" || (Relative(path) != "" && !Rooted(TrimOneSlash(path))) {
      M.DeletesExactly(w, Image(objects), codename, JoinKey("", path).value);
      if prefix != "" {
        assert Relative(path) == JoinKey("", path).value;
      }
    } else if Relative(path) != "" {
      M.DeletesExactly(w, Image(objects), codename, Relative(path));
    } else {
      M.PoolPrefixIs(codename);
    }
  }

  /** The path of the package is exposed. */
  ghost predicate ExposedPackage(w: World, objects: Objects, codename: string, prefix: Prefix, p: P.Package)
    requires CleanNames(objects) && M.ScopedPrefix("pool", codename).Ok?
  {
    w.pathOf(p, "").Ok? && Exposed(w, objects, codename, prefix, w.pathOf(p, "").value)
  }

  /** The package has one path, and some index refers to it. */
  ghost predicate Listed(w: World, objects: Objects, p: P.Package)
    requires CleanNames(objects)
  {
    && M.Reference(w, p).Ok? && M.IsReferenced(w, Image(objects), M.Reference(w, p).value)
    && forall d {:trigger w.pathOf(p, d)} :: w.pathOf(p, d) == w.pathOf(p, "")
  }

  ghost predicate Hit(w: World, objects: Objects, codename: string, target: Option<string>)
    requires Cleanable(w, objects, codename)
  {
    target.Some? && target.value in KeysOf(w, objects, codename)
  }

  /** What is looked for is there after a clean unless it was not before, or is hit. */
  lemma {:induction false} PresentAfter(
      w: World, objects: Objects, codename: string, calls: nat, target: Option<string>)
    requires Cleanable(w, objects, codename)
    ensures var after, hit := AfterClean(w, objects, codename, calls), Hit(w, objects, codename, target);
            && (Present(after, target) ==> Present(objects, target))
            && (!hit ==> Present(after, target) == Present(objects, target))
            && (hit ==> Present(objects, target))
            && (hit && calls >= |KeysOf(w, objects, codename)| ==> !Present(after, target))
  {
    var keys := KeysOf(w, objects, codename);
    if target.Some? {
      FoundAfter(w, objects, codename, calls, target.value);
      M.DeletesExactly(w, Image(objects), codename, target.value);
      FoundIsImage(objects, target.value);
      assert calls >= |keys| ==> keys[..Least(calls, |keys|)] == keys;
    }
  }

  /** What a check finds of a listed package after a clean. */
  lemma {:induction false} BodyAfter(
      w: World, objects: Objects, codename: string, calls: nat, prefix: Prefix, c: string, p: P.Package)
    requires Cleanable(w, objects, codename) && Listed(w, objects, p)
    ensures Looked(prefix, w.pathOf(p, c)).Ok?
    ensures var after := AfterClean(w, objects, codename, calls);
            var was, now := BodyFound(w, objects, prefix, c)(p), BodyFound(w, after, prefix, c)(p);
            && (now ==> was)
            && (!ExposedPackage(w, objects, codename, prefix, p) ==> now == was)
            && (ExposedPackage(w, objects, codename, prefix, p) && calls >= |KeysOf(w, objects, codename)| ==>
               was && !now)
  {
    var path := w.pathOf(p, "").value;
    assert w.pathOf(p, c) == Ok(path);
    TakenIsExposed(w, objects, codename, prefix, path);
    PresentAfter(w, objects, codename, calls, Looked(prefix, Ok(path)).value);
  }

  // ---- reports

  lemma {:induction false} SurvivingOk(
      w: World, objects: Objects, prefix: Prefix, codename: string, packages: seq<P.Package>)
    requires forall i :: 0 <= i < |packages| ==> Looked(prefix, w.pathOf(packages[i], codename)).Ok?
    ensures Surviving(w, objects, prefix, codename, packages).Ok?
  {
    if packages != [] {
      var rest := packages[1..];
      assert forall i :: 0 <= i < |rest| ==> rest[i] == packages[i + 1];
      SurvivingOk(w, objects, prefix, codename, rest);
    }
  }

  ghost predicate AllListed(w: World, objects: Objects, packages: seq<P.Package>)
    requires CleanNames(objects)
  {
    forall i :: 0 <= i < |packages| ==> Listed(w, objects, packages[i])
  }

  /** Where a clean gets to deleting, every index can be read and refers to what it lists. */
  lemma {:induction false} RetrievedListed(
      w: World, objects: Objects, codename: string, c: string, component: string, a: string)
    requires PlaceLaw(w) && Cleanable(w, objects, codename)
    ensures RetrievedPackages(w, objects, c, component, a).Ok?
    ensures AllListed(w, objects, RetrievedPackages(w, objects, c, component, a).value)
  {
    var key := Index(c, component, a, false);
    if key in objects {
      M.DeletionsExist(w, Image(objects), codename);
      IndexTextIsIndexKey(key);
      ImageAt(objects, key);
      assert M.Resolves(w, Image(objects)[KeyText(key)]);
      var packages := w.parsePackages(objects[key]).value;
      forall i | 0 <= i < |packages| ensures Listed(w, objects, packages[i]) {
        assert M.Names(w, Image(objects)[KeyText(key)], M.Reference(w, packages[i]).value);
        forall d ensures w.pathOf(packages[i], d) == w.pathOf(packages[i], "") {}
      }
    }
  }

  ghost predicate NoneExposed(
      w: World, objects: Objects, codename: string, prefix: Prefix, packages: seq<P.Package>)
    requires CleanNames(objects) && M.ScopedPrefix("pool", codename).Ok?
  {
    forall i :: 0 <= i < |packages| ==> !ExposedPackage(w, objects, codename, prefix, packages[i])
  }

  /** Of a list of packages a check after a clean finds no more than before, the same when none is exposed, and fewer
      when one is and the clean got to its end. */
  lemma {:induction false} SurvivingAfter(
      w: World, objects: Objects, codename: string, calls: nat, prefix: Prefix, c: string, packages: seq<P.Package>)
    requires Cleanable(w, objects, codename) && AllListed(w, objects, packages)
    ensures var after := AfterClean(w, objects, codename, calls);
            var was, now := Surviving(w, objects, prefix, c, packages), Surviving(w, after, prefix, c, packages);
            && was.Ok? && now.Ok? && |now.value| <= |was.value| <= |packages|
            && (NoneExposed(w, objects, codename, prefix, packages) ==> now == was)
            && (!NoneExposed(w, objects, codename, prefix, packages) && calls >= |KeysOf(w, objects, codename)| ==>
                  |now.value| < |was.value|)
  {
    var after := AfterClean(w, objects, codename, calls);
    var f, g := BodyFound(w, objects, prefix, c), BodyFound(w, after, prefix, c);
    forall i | 0 <= i < |packages|
      ensures Looked(prefix, w.pathOf(packages[i], c)).Ok? && (g(packages[i]) ==> f(packages[i]))
      ensures !ExposedPackage(w, objects, codename, prefix, packages[i]) ==> g(packages[i]) == f(packages[i])
      ensures ExposedPackage(w, objects, codename, prefix, packages[i]) && calls >= |KeysOf(w, objects, codename)| ==>
                f(packages[i]) && !g(packages[i])
    {
      BodyAfter(w, objects, codename, calls, prefix, c, packages[i]);
    }
    SurvivingOk(w, objects, prefix, c, packages);
    SurvivingOk(w, after, prefix, c, packages);
    SurvivingIsFilter(w, objects, prefix, c, packages);
    SurvivingIsFilter(w, after, prefix, c, packages);
    FilterShrinks(packages, f, g);
  }

  ghost function PackagesOf(w: World, objects: Objects, o: VerifyOptions, a: string): seq<P.Package>
    requires RetrievedPackages(w, objects, o.release.codename, o.component, a).Ok?
  {
    RetrievedPackages(w, objects, o.release.codename, o.component, a).value
  }

  /** No path that the verification reads in these architectures is exposed to the clean. */
  ghost predicate SafeFor(
      w: World, objects: Objects, codename: string, o: VerifyOptions, architectures: seq<string>)
    requires CleanNames(objects) && M.ScopedPrefix("pool", codename).Ok?
  {
    forall a :: a in architectures && RetrievedPackages(w, objects, o.release.codename, o.component, a).Ok? ==>
      NoneExposed(w, objects, codename, o.prefix, PackagesOf(w, objects, o, a))
  }

  lemma {:induction false} RetrievedAfter(
      w: World, objects: Objects, codename: string, calls: nat, c: string, component: string, a: string)
    requires Cleanable(w, objects, codename)
    ensures RetrievedPackages(w, AfterClean(w, objects, codename, calls), c, component, a)
            == RetrievedPackages(w, objects, c, component, a)
  {
    OthersStay(w, objects, codename, calls, Index(c, component, a, false));
  }

  /** The check of one architecture after a clean. */
  lemma {:induction false} HereAfter(
      w: World, objects: Objects, codename: string, calls: nat, o: VerifyOptions, byHash: bool, a: string)
    requires PlaceLaw(w) && Cleanable(w, objects, codename)
    ensures RetrievedPackages(w, objects, o.release.codename, o.component, a).Ok?
    ensures var safe := NoneExposed(w, objects, codename, o.prefix, PackagesOf(w, objects, o, a));
            var was := VerifyHere(w, objects, o, byHash, a);
            var now := VerifyHere(w, AfterClean(w, objects, codename, calls), o, byHash, a);
            && was.Ok? && now.Ok? && was.value.missing <= now.value.missing
            && (safe ==> now == was)
            && (!safe && calls >= |KeysOf(w, objects, codename)| ==> was.value.missing < now.value.missing)
  {
    RetrievedListed(w, objects, codename, o.release.codename, o.component, a);
    RetrievedAfter(w, objects, codename, calls, o.release.codename, o.component, a);
    SurvivingAfter(w, objects, codename, calls, o.prefix, o.release.codename, PackagesOf(w, objects, o, a));
  }

  lemma {:induction false} SafeCons(
      w: World, objects: Objects, codename: string, o: VerifyOptions, architectures: seq<string>)
    requires CleanNames(objects) && M.ScopedPrefix("pool", codename).Ok? && architectures != []
    requires RetrievedPackages(w, objects, o.release.codename, o.component, architectures[0]).Ok?
    ensures SafeFor(w, objects, codename, o, architectures)
            <==> NoneExposed(w, objects, codename, o.prefix, PackagesOf(w, objects, o, architectures[0]))
                 && SafeFor(w, objects, codename, o, architectures[1..])
  {
    assert architectures == [architectures[0]] + architectures[1..];
  }

  lemma {:induction false} FromAfter(
      w: World, objects: Objects, codename: string, calls: nat, o: VerifyOptions, byHash: bool,
      architectures: seq<string>)
    requires PlaceLaw(w) && Cleanable(w, objects, codename)
    ensures var safe := SafeFor(w, objects, codename, o, architectures);
            var was := VerifyFrom(w, objects, o, byHash, architectures);
            var now := VerifyFrom(w, AfterClean(w, objects, codename, calls), o, byHash, architectures);
            && was.Ok? && now.Ok? && was.value.missing <= now.value.missing
            && (safe ==> now == was)
            && (!safe && calls >= |KeysOf(w, objects, codename)| ==> was.value.missing < now.value.missing)
  {
    if architectures != [] {
      HereAfter(w, objects, codename, calls, o, byHash, architectures[0]);
      FromAfter(w, objects, codename, calls, o, byHash, architectures[1..]);
      SafeCons(w, objects, codename, o, architectures);
    }
  }

  /** A clean that got to its end makes a verification miss more when an exposed package is verified. */
  lemma {:induction false} ReportGrows(
      w: World, objects: Objects, codename: string, calls: nat, o: VerifyOptions, a: string, p: P.Package)
    requires PlaceLaw(w) && Cleanable(w, objects, codename) && calls >= |KeysOf(w, objects, codename)|
    requires a in Retrieved(w, objects, o.release).architectures
    requires RetrievedPackages(w, objects, o.release.codename, o.component, a).Ok? && p in PackagesOf(w, objects, o, a)
    requires ExposedPackage(w, objects, codename, o.prefix, p)
    ensures var was := VerifyPlan(w, objects, o);
            var now := VerifyPlan(w, AfterClean(w, objects, codename, calls), o);
            was.Ok? && now.Ok? && was.value.missing < now.value.missing
  {
    var r := Retrieved(w, objects, o.release);
    OthersStay(w, objects, codename, calls, ReleaseFile(o.release.codename));
    assert Retrieved(w, AfterClean(w, objects, codename, calls), o.release) == r;
    FromAfter(w, objects, codename, calls, o, r.byHash, r.architectures);
  }

  /** A clean, wherever it stops, keeps the report of a verification on the same store when no path that is verified
      is exposed to it; and at its end it has kept the report only then. */
  lemma {:induction false} ReportsKeptExactly(
      w: World, objects: Objects, codename: string, calls: nat, o: VerifyOptions)
    requires PlaceLaw(w) && Cleanable(w, objects, codename)
    ensures var safe := SafeFor(w, objects, codename, o, Retrieved(w, objects, o.release).architectures);
            var kept := VerifyPlan(w, AfterClean(w, objects, codename, calls), o) == VerifyPlan(w, objects, o);
            (safe ==> kept) && (calls >= |KeysOf(w, objects, codename)| ==> (kept <==> safe))
  {
    var r := Retrieved(w, objects, o.release);
    OthersStay(w, objects, codename, calls, ReleaseFile(o.release.codename));
    assert Retrieved(w, AfterClean(w, objects, codename, calls), o.release) == r;
    FromAfter(w, objects, codename, calls, o, r.byHash, r.architectures);
  }

  /** No path of any stored index keeps a leading slash once one is taken off. */
  ghost predicate UnrootedPaths(w: World, objects: Objects) {
    forall key :: key in objects && key.Index? && !key.gz && w.parsePackages(objects[key]).Ok? ==>
      Unrooted(w, w.parsePackages(objects[key]).value)
  }

  ghost predicate Unrooted(w: World, packages: seq<P.Package>) {
    forall i :: 0 <= i < |packages| && w.pathOf(packages[i], "").Ok? ==>
      !Rooted(TrimOneSlash(w.pathOf(packages[i], "").value))
  }

  /** So on a store without a prefix, or without such paths, a clean changes no report of any verification, wherever
      it stops and whatever bodies are missing. */
  lemma {:induction false} CleanKeepsReports(
      w: World, objects: Objects, codename: string, calls: nat, o: VerifyOptions)
    requires PlaceLaw(w) && Cleanable(w, objects, codename) && (o.prefix == "" || UnrootedPaths(w, objects))
    ensures VerifyPlan(w, AfterClean(w, objects, codename, calls), o) == VerifyPlan(w, objects, o)
  {
    var architectures := Retrieved(w, objects, o.release).architectures;
    forall a | a in architectures && RetrievedPackages(w, objects, o.release.codename, o.component, a).Ok?
      ensures NoneExposed(w, objects, codename, o.prefix, PackagesOf(w, objects, o, a))
    {
      var key := Index(o.release.codename, o.component, a, false);
      assert key in objects && o.prefix != "" ==> Unrooted(w, w.parsePackages(objects[key]).value);
    }
    ReportsKeptExactly(w, objects, codename, calls, o);
  }
}
