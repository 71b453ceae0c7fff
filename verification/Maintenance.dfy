/** Collecting unreferenced package bodies: which keys a clean deletes, and what that changes for no one. */
module Maintenance {
  import opened Text
  import opened Lists
  import opened Order
  import opened Paths
  import opened Storage
  import P = Package
  import opened Worlds = World

  type Shelf = map<string, string>

  const UNSAFE_CODENAME := "unsafe repository codename"

  function ScopedPrefix(root: string, value: string): Result<string> {
    var cleaned := Clean(value);
    if cleaned == "." || HasPrefix(cleaned, "/") || Escapes(cleaned) then Err(UNSAFE_CODENAME)
    else Ok(JoinPath(root, cleaned) + "/")
  }

  /** What listing by a prefix yields. */
  function KeysUnder(view: Shelf, prefix: string): seq<string> {
    SortedSet(set key | key in view && HasPrefix(key, prefix))
  }

  /** A key whose last segment is `Packages` in a directory named after an architecture. */
  function IsIndexKey(): string -> bool {
    (key: string) => Base(key) == "Packages" && HasPrefix(Base(Dir(key)), "binary-")
  }

  function IndexKeys(view: Shelf): seq<string> {
    Filter(KeysUnder(view, "dists/"), IsIndexKey())
  }

  /** The object a package refers to. */
  function Reference(w: World, p: P.Package): Result<string> {
    var filename := w.pathOf(p, "");
    if filename.Err? then filename else JoinKey("", filename.value)
  }

  function References(w: World, packages: seq<P.Package>): Result<set<string>> {
    if packages == [] then Ok({})
    else
      var first, rest := Reference(w, packages[0]), References(w, packages[1..]);
      if first.Err? then Err(first.reason)
      else if rest.Err? then rest
      else Ok({first.value} + rest.value)
  }

  /** Everything the manifests under the keys refer to, or the first failure to parse or resolve. */
  function Referenced(w: World, view: Shelf, keys: seq<string>): Result<set<string>> {
    if keys == [] then Ok({})
    else
      var packages := if keys[0] in view then w.parsePackages(view[keys[0]]) else Err(NOT_FOUND);
      if packages.Err? then Err(packages.reason)
      else
        var first, rest := References(w, packages.value), Referenced(w, view, keys[1..]);
        if first.Err? then first
        else if rest.Err? then rest
        else Ok(first.value + rest.value)
  }

  function Unused(referenced: set<string>): string -> bool {
    (key: string) => key !in referenced
  }

  /** The keys a clean deletes, in order. */
  function Deletions(w: World, view: Shelf, codename: string): Result<seq<string>> {
    var pool := ScopedPrefix("pool", codename);
    if pool.Err? then Err(pool.reason)
    else
      var referenced := Referenced(w, view, IndexKeys(view));
      if referenced.Err? then Err(referenced.reason)
      else if '\\' in pool.value then Err(BACKSLASH)
      else Ok(Filter(KeysUnder(view, pool.value), Unused(referenced.value)))
  }

  function Remaining(view: Shelf, deleted: seq<string>): Shelf {
    map key | key in view && key !in deleted :: view[key]
  }

  // ---- what is referenced

  /** Some stored index names the object. */
  ghost predicate Names(w: World, text: string, key: string) {
    w.parsePackages(text).Ok?
    && exists i :: 0 <= i < |w.parsePackages(text).value| && Reference(w, w.parsePackages(text).value[i]) == Ok(key)
  }

  ghost predicate IsReferenced(w: World, view: Shelf, key: string) {
    exists index ::
      && index in view && HasPrefix(index, "dists/") && Base(index) == "Packages"
      && HasPrefix(Base(Dir(index)), "binary-") && Names(w, view[index], key)
  }

  lemma {:induction false} ReferencesExactly(w: World, packages: seq<P.Package>, key: string)
    requires References(w, packages).Ok?
    ensures key in References(w, packages).value
            <==> exists i :: 0 <= i < |packages| && Reference(w, packages[i]) == Ok(key)
  {
    if packages != [] {
      ReferencesExactly(w, packages[1..], key);
      if i :| 0 <= i < |packages[1..]| && Reference(w, packages[1..][i]) == Ok(key) {
        assert packages[i + 1] == packages[1..][i];
      }
      if i :| 0 <= i < |packages| && Reference(w, packages[i]) == Ok(key) {
        if i > 0 {
          assert packages[1..][i - 1] == packages[i];
        }
      }
    }
  }

  lemma {:induction false} ReferencedExactly(w: World, view: Shelf, keys: seq<string>, key: string)
    requires Referenced(w, view, keys).Ok?
    ensures key in Referenced(w, view, keys).value
            <==> exists i :: 0 <= i < |keys| && keys[i] in view && Names(w, view[keys[i]], key)
  {
    if keys != [] {
      ReferencesExactly(w, w.parsePackages(view[keys[0]]).value, key);
      ReferencedExactly(w, view, keys[1..], key);
      if i :| 0 <= i < |keys[1..]| && keys[1..][i] in view && Names(w, view[keys[1..][i]], key) {
        assert keys[i + 1] == keys[1..][i];
      }
      if i :| 0 <= i < |keys| && keys[i] in view && Names(w, view[keys[i]], key) {
        if i > 0 {
          assert keys[1..][i - 1] == keys[i];
        }
      }
    }
  }

  lemma {:induction false} IndexKeysExactly(view: Shelf, key: string)
    ensures key in IndexKeys(view) <==> key in view && HasPrefix(key, "dists/") && IsIndexKey()(key)
  {
    FilterHas(KeysUnder(view, "dists/"), IsIndexKey(), key);
  }

  lemma {:induction false} AllReferences(w: World, view: Shelf, key: string)
    requires Referenced(w, view, IndexKeys(view)).Ok?
    ensures key in Referenced(w, view, IndexKeys(view)).value <==> IsReferenced(w, view, key)
  {
    var keys := IndexKeys(view);
    ReferencedExactly(w, view, keys, key);
    if i :| 0 <= i < |keys| && keys[i] in view && Names(w, view[keys[i]], key) {
      IndexKeysExactly(view, keys[i]);
    }
    if index :| index in view && HasPrefix(index, "dists/") && IsIndexKey()(index) && Names(w, view[index], key) {
      IndexKeysExactly(view, index);
      var i :| 0 <= i < |keys| && keys[i] == index;
    }
  }

  /** A clean deletes exactly the keys of the codename's pool that no manifest of any codename refers to. */
  lemma {:induction false} DeletesExactly(w: World, view: Shelf, codename: string, key: string)
    requires Deletions(w, view, codename).Ok?
    ensures key in Deletions(w, view, codename).value
            <==> key in view && HasPrefix(key, ScopedPrefix("pool", codename).value) && !IsReferenced(w, view, key)
  {
    var pool := ScopedPrefix("pool", codename).value;
    AllReferences(w, view, key);
    FilterHas(KeysUnder(view, pool), Unused(Referenced(w, view, IndexKeys(view)).value), key);
  }

  // ---- what stays

  lemma {:induction false} PoolPrefixIs(codename: string)
    requires ScopedPrefix("pool", codename).Ok?
    ensures ScopedPrefix("pool", codename).value == "pool/" + Clean(codename) + "/"
  {
    var cleaned := Clean(codename);
    if Rooted(codename) {
      RootStays(codename);
    }
    CleanGivesCleanKey(codename);
    OneSegmentKey("pool");
    CleanKeyStart(cleaned);
    CleanKeyAppend("pool", cleaned);
    CleanFixed("pool" + "/" + cleaned);
    assert "pool" + "/" + cleaned == "pool/" + cleaned;
  }

  lemma {:induction false} DeletedIsNoIndex(w: World, view: Shelf, codename: string, key: string)
    requires Deletions(w, view, codename).Ok? && HasPrefix(key, "dists/")
    ensures key !in Deletions(w, view, codename).value
  {
    DeletesExactly(w, view, codename, key);
    PoolPrefixIs(codename);
    var pool := ScopedPrefix("pool", codename).value;
    assert pool[0] == 'p' && key[..6][0] == 'd';
    assert HasPrefix(key, pool) ==> key[..|pool|][0] == 'p';
  }

  lemma {:induction false} SameListing(view: Shelf, after: Shelf, prefix: string)
    requires forall key :: HasPrefix(key, prefix) ==> (key in view <==> key in after)
    ensures KeysUnder(view, prefix) == KeysUnder(after, prefix)
  {
    assert (set key | key in view && HasPrefix(key, prefix)) == (set key | key in after && HasPrefix(key, prefix));
  }

  lemma {:induction false} SameReferences(w: World, view: Shelf, after: Shelf, keys: seq<string>)
    requires forall i :: 0 <= i < |keys| ==>
            (keys[i] in view <==> keys[i] in after) && (keys[i] in view ==> after[keys[i]] == view[keys[i]])
    ensures Referenced(w, view, keys) == Referenced(w, after, keys)
  {
    if keys != [] {
      forall i | 0 <= i < |keys[1..]|
        ensures (keys[1..][i] in view <==> keys[1..][i] in after)
        ensures (keys[1..][i] in view ==> after[keys[1..][i]] == view[keys[1..][i]])
      {
        assert keys[1..][i] == keys[i + 1];
      }
      SameReferences(w, view, after, keys[1..]);
    }
  }

  lemma {:induction false} IndexesStay(w: World, view: Shelf, codename: string)
    requires Deletions(w, view, codename).Ok?
    ensures var after := Remaining(view, Deletions(w, view, codename).value);
            && IndexKeys(after) == IndexKeys(view)
            && Referenced(w, after, IndexKeys(after)) == Referenced(w, view, IndexKeys(view))
  {
    var after := Remaining(view, Deletions(w, view, codename).value);
    forall key | HasPrefix(key, "dists/") ensures key in view <==> key in after {
      DeletedIsNoIndex(w, view, codename, key);
    }
    SameListing(view, after, "dists/");
    var keys := IndexKeys(view);
    forall i | 0 <= i < |keys| ensures keys[i] in view && keys[i] in after && after[keys[i]] == view[keys[i]] {
      IndexKeysExactly(view, keys[i]);
      assert keys[i] in keys;
    }
    SameReferences(w, view, after, keys);
  }

  /** A second clean finds nothing to delete. */
  lemma {:induction false} CleanTwice(w: World, view: Shelf, codename: string)
    requires Deletions(w, view, codename).Ok?
    ensures Deletions(w, Remaining(view, Deletions(w, view, codename).value), codename) == Ok([])
  {
    var deleted := Deletions(w, view, codename).value;
    var after := Remaining(view, deleted);
    var pool, referenced := ScopedPrefix("pool", codename).value, Referenced(w, view, IndexKeys(view)).value;
    var keys := KeysUnder(after, pool);
    IndexesStay(w, view, codename);
    forall i | 0 <= i < |keys| ensures !Unused(referenced)(keys[i]) {
      assert keys[i] in keys;
      assert keys[i] in view && keys[i] !in deleted;
      FilterHas(KeysUnder(view, pool), Unused(referenced), keys[i]);
    }
    FilterNothing(keys, Unused(referenced));
  }

  // ---- when nothing is deleted at all

  ghost predicate Resolves(w: World, text: string) {
    w.parsePackages(text).Ok?
    && forall i :: 0 <= i < |w.parsePackages(text).value| ==> Reference(w, w.parsePackages(text).value[i]).Ok?
  }

  lemma {:induction false} ReferencesResolve(w: World, packages: seq<P.Package>)
    ensures References(w, packages).Ok? <==> forall i :: 0 <= i < |packages| ==> Reference(w, packages[i]).Ok?
  {
    if packages != [] {
      ReferencesResolve(w, packages[1..]);
      if References(w, packages[1..]).Err? {
        var i :| 0 <= i < |packages[1..]| && Reference(w, packages[1..][i]).Err?;
        assert packages[i + 1] == packages[1..][i];
      } else {
        forall i | 1 <= i < |packages| ensures Reference(w, packages[i]).Ok? {
          assert packages[1..][i - 1] == packages[i];
        }
      }
    }
  }

  lemma {:induction false} ReferencedResolve(w: World, view: Shelf, keys: seq<string>)
    requires forall i :: 0 <= i < |keys| ==> keys[i] in view
    ensures Referenced(w, view, keys).Ok? <==> forall i :: 0 <= i < |keys| ==> Resolves(w, view[keys[i]])
  {
    if keys != [] {
      if w.parsePackages(view[keys[0]]).Ok? {
        ReferencesResolve(w, w.parsePackages(view[keys[0]]).value);
      }
      forall i | 0 <= i < |keys[1..]| ensures keys[1..][i] in view && keys[1..][i] == keys[i + 1] {}
      ReferencedResolve(w, view, keys[1..]);
      if Referenced(w, view, keys[1..]).Err? {
        var i :| 0 <= i < |keys[1..]| && !Resolves(w, view[keys[1..][i]]);
        assert !Resolves(w, view[keys[i + 1]]);
      } else {
        forall i | 1 <= i < |keys| ensures Resolves(w, view[keys[i]]) {
          assert keys[1..][i - 1] == keys[i];
        }
      }
    }
  }

  lemma {:induction false} AllIndexesResolve(w: World, view: Shelf)
    ensures Referenced(w, view, IndexKeys(view)).Ok?
            <==> forall index :: index in view && HasPrefix(index, "dists/") && IsIndexKey()(index) ==>
            Resolves(w, view[index])
  {
    var keys := IndexKeys(view);
    forall i | 0 <= i < |keys| ensures keys[i] in view && HasPrefix(keys[i], "dists/") && IsIndexKey()(keys[i]) {
      assert keys[i] in keys;
      IndexKeysExactly(view, keys[i]);
    }
    ReferencedResolve(w, view, keys);
    if Referenced(w, view, keys).Ok? {
      forall index | index in view && HasPrefix(index, "dists/")
          && IsIndexKey()(index) ensures Resolves(w, view[index]) {
        IndexKeysExactly(view, index);
        var i :| 0 <= i < |keys| && keys[i] == index;
      }
    }
  }

  /** A clean has a list of deletions exactly when the codename is acceptable and every manifest of every codename
      parses and resolves. */
  lemma {:induction false} DeletionsExist(w: World, view: Shelf, codename: string)
    ensures Deletions(w, view, codename).Ok?
            <==> (ScopedPrefix("pool", codename).Ok? && '\\' !in ScopedPrefix("pool", codename).value
                  && forall index :: index in view && HasPrefix(index, "dists/") && IsIndexKey()(index) ==>
                     Resolves(w, view[index]))
  {
    AllIndexesResolve(w, view);
  }

  // ---- Clean

  /** Keys as `JoinKey` leaves them. */
  ghost predicate CleanShelf(view: Shelf) {
    forall key :: key in view ==> CleanKey(key) && '\\' !in key
  }

  ghost predicate CleanKeys(keys: seq<string>) {
    forall i :: 0 <= i < |keys| ==> CleanKey(keys[i]) && '\\' !in keys[i]
  }

  method CollectReferences(w: World, packages: seq<P.Package>) returns (r: Result<set<string>>)
    ensures r == References(w, packages)
  {
    var found: set<string> := {};
    ghost var all := References(w, packages);
    assert packages[0..] == packages;
    if all.Ok? {
      assert found + all.value == all.value;
    }
    for i := 0 to |packages|
      invariant Together(found, References(w, packages[i..])) == all
    {
      assert packages[i..][0] == packages[i] && packages[i..][1..] == packages[i + 1..];
      var filename := w.pathOf(packages[i], "");
      if filename.Err? {
        return Err(filename.reason);
      }
      var normalized := JoinKey("", filename.value);
      if normalized.Err? {
        return Err(normalized.reason);
      }
      ReferenceStep(found, normalized.value, References(w, packages[i + 1..]));
      found := found + {normalized.value};
    }
    return Ok(found);
  }

  lemma {:induction false} ReferenceStep(found: set<string>, key: string, rest: Result<set<string>>)
    ensures Together(found, if rest.Err? then rest else Ok({key} + rest.value)) == Together(found + {key}, rest)
  {
    if rest.Ok? {
      assert found + ({key} + rest.value) == found + {key} + rest.value;
    }
  }

  /** What is found already, together with the outcome for the rest. */
  function Together(found: set<string>, rest: Result<set<string>>): Result<set<string>> {
    if rest.Err? then rest else Ok(found + rest.value)
  }

  method GetClean(store: MemoryStore, key: string) returns (data: Result<string>)
    requires store.Valid() && GoodPrefix(store.prefix) && CleanKey(key) && '\\' !in key
    ensures var view := View(store.objects, store.prefix); data == if key in view then Ok(view[key]) else Err(NOT_FOUND)
  {
    LogicalUndoesJoin(store.prefix, key);
    ViewAt(store.objects, store.prefix, key);
    data := store.Get(key);
  }

  method ListClean(store: MemoryStore, x: string) returns (keys: Result<seq<string>>)
    requires store.Valid() && GoodPrefix(store.prefix) && CleanKey(x) && '\\' !in x
    ensures keys == Ok(KeysUnder(View(store.objects, store.prefix), x + "/"))
  {
    ListIsExact(store.objects, store.prefix, x);
    GoodPrefixFixed(store.prefix);
    keys := store.List(x + "/");
  }

  method DeleteClean(store: MemoryStore, key: string)
    requires store.Valid() && GoodPrefix(store.prefix) && CleanKey(key) && '\\' !in key
    modifies store
    ensures store.Valid() && View(store.objects, store.prefix) == View(old(store.objects), store.prefix) - {key}
  {
    LogicalUndoesJoin(store.prefix, key);
    ViewAfterDelete(store.objects, store.prefix, key);
    var _ := store.Delete(key);
  }

  method SelectIndexes(keys: seq<string>) returns (selected: seq<string>)
    ensures selected == Filter(keys, IsIndexKey())
  {
    selected := [];
    for i := 0 to |keys|
      invariant selected == Filter(keys[..i], IsIndexKey())
    {
      FilterSnoc(keys, i, IsIndexKey());
      if Base(keys[i]) != "Packages" || !HasPrefix(Base(Dir(keys[i])), "binary-") {
        continue;
      }
      selected := selected + [keys[i]];
    }
    assert keys[..|keys|] == keys;
  }

  lemma {:induction false} ReferencedStep(w: World, view: Shelf, keys: seq<string>, i: nat, found: set<string>)
    requires i < |keys|
    ensures var packages := if keys[i] in view then w.parsePackages(view[keys[i]]) else Err(NOT_FOUND);
            Together(found, Referenced(w, view, keys[i..]))
            == if packages.Err? then Err(packages.reason)
               else
                 var first := References(w, packages.value);
                 if first.Err? then first else Together(found + first.value, Referenced(w, view, keys[i + 1..]))
  {
    assert keys[i..][0] == keys[i] && keys[i..][1..] == keys[i + 1..];
    var rest := Referenced(w, view, keys[i + 1..]);
    if rest.Ok? {
      var packages := if keys[i] in view then w.parsePackages(view[keys[i]]) else Err(NOT_FOUND);
      if packages.Ok? && References(w, packages.value).Ok? {
        assert found + (References(w, packages.value).value + rest.value)
            == found + References(w, packages.value).value + rest.value;
      }
    }
  }

  method ReadReferences(store: MemoryStore, w: World, keys: seq<string>) returns (r: Result<set<string>>)
    requires store.Valid() && GoodPrefix(store.prefix)
    requires CleanKeys(keys)
    ensures r == Referenced(w, View(store.objects, store.prefix), keys)
  {
    var found: set<string> := {};
    ghost var view := View(store.objects, store.prefix);
    ghost var all := Referenced(w, view, keys);
    assert keys[0..] == keys;
    if all.Ok? {
      assert found + all.value == all.value;
    }
    for i := 0 to |keys|
      invariant Together(found, Referenced(w, view, keys[i..])) == all
    {
      ReferencedStep(w, view, keys, i, found);
      var data := GetClean(store, keys[i]);
      if data.Err? {
        return Err(data.reason);
      }
      var packages := w.parsePackages(data.value);
      if packages.Err? {
        return Err(packages.reason);
      }
      var first := CollectReferences(w, packages.value);
      if first.Err? {
        return first;
      }
      found := found + first.value;
    }
    return Ok(found);
  }

  lemma {:induction false} RemainingStep(view: Shelf, deleted: seq<string>, key: string)
    ensures Remaining(view, deleted) - {key} == Remaining(view, deleted + [key])
  {}

  method DeleteUnused(store: MemoryStore, keys: seq<string>, referenced: set<string>) returns (deleted: seq<string>)
    requires store.Valid() && GoodPrefix(store.prefix)
    requires CleanKeys(keys)
    modifies store
    ensures store.Valid() && deleted == Filter(keys, Unused(referenced))
    ensures View(store.objects, store.prefix) == Remaining(View(old(store.objects), store.prefix), deleted)
  {
    deleted := [];
    ghost var view := View(store.objects, store.prefix);
    assert Remaining(view, []) == view;
    for i := 0 to |keys|
      invariant store.Valid() && deleted == Filter(keys[..i], Unused(referenced))
      invariant View(store.objects, store.prefix) == Remaining(view, deleted)
    {
      FilterSnoc(keys, i, Unused(referenced));
      if keys[i] in referenced {
        continue;
      }
      DeleteClean(store, keys[i]);
      RemainingStep(view, deleted, keys[i]);
      deleted := deleted + [keys[i]];
    }
    assert keys[..|keys|] == keys;
  }

  lemma {:induction false} ListedAreClean(view: Shelf, prefix: string)
    requires CleanShelf(view)
    ensures CleanKeys(KeysUnder(view, prefix)) && CleanKeys(IndexKeys(view))
  {
    forall i | 0 <= i < |KeysUnder(view, prefix)| ensures KeysUnder(view, prefix)[i] in view {
      assert KeysUnder(view, prefix)[i] in KeysUnder(view, prefix);
    }
    forall i | 0 <= i < |IndexKeys(view)| ensures IndexKeys(view)[i] in view {
      assert IndexKeys(view)[i] in IndexKeys(view);
      IndexKeysExactly(view, IndexKeys(view)[i]);
    }
  }

  method ListDists(store: MemoryStore) returns (keys: Result<seq<string>>)
    requires store.Valid() && GoodPrefix(store.prefix)
    ensures keys == Ok(KeysUnder(View(store.objects, store.prefix), "dists/"))
  {
    OneSegmentKey("dists");
    assert "dists" + "/" == "dists/";
    keys := ListClean(store, "dists");
  }

  /** What the manifests of every codename refer to. */
  method FindReferences(store: MemoryStore, w: World) returns (r: Result<set<string>>)
    requires store.Valid() && GoodPrefix(store.prefix) && CleanShelf(View(store.objects, store.prefix))
    ensures var view := View(store.objects, store.prefix); r == Referenced(w, view, IndexKeys(view))
  {
    ghost var view := View(store.objects, store.prefix);
    var listed := ListDists(store);
    ListedAreClean(view, "dists/");
    var manifestKeys := SelectIndexes(listed.value);
    r := ReadReferences(store, w, manifestKeys);
  }

  /** Deletes what is listed below a clean key and not referenced. */
  method DeleteBelow(store: MemoryStore, pool: string, referenced: set<string>) returns (deleted: seq<string>)
    requires store.Valid() && GoodPrefix(store.prefix) && CleanShelf(View(store.objects, store.prefix))
    requires CleanKey(pool) && '\\' !in pool
    modifies store
    ensures store.Valid()
    ensures var view := View(old(store.objects), store.prefix);
            && deleted == Filter(KeysUnder(view, pool + "/"), Unused(referenced))
            && View(store.objects, store.prefix) == Remaining(view, deleted)
  {
    ListedAreClean(View(store.objects, store.prefix), pool + "/");
    var listed := ListClean(store, pool);
    deleted := DeleteUnused(store, listed.value, referenced);
  }

  lemma {:induction false} BelowPool(key: string)
    requires CleanKey(key)
    ensures CleanKey("pool/" + key)
  {
    OneSegmentKey("pool");
    CleanKeyAppend("pool", key);
    assert "pool" + "/" + key == "pool/" + key;
  }

  /** `Clean`: reads every manifest of every codename before the first deletion. */
  method CleanPool(store: MemoryStore, w: World, codename: string) returns (r: Result<seq<string>>)
    requires store.Valid() && GoodPrefix(store.prefix) && CleanShelf(View(store.objects, store.prefix))
    modifies store
    ensures store.Valid()
    ensures var view := View(old(store.objects), store.prefix);
            var deletions := Deletions(w, view, codename);
            if deletions.Err? then r.Err? && store.objects == old(store.objects)
            else r == deletions && View(store.objects, store.prefix) == Remaining(view, deletions.value)
  {
    var poolPrefix := ScopedPrefix("pool", codename);
    if poolPrefix.Err? {
      return Err(poolPrefix.reason);
    }
    var referenced := FindReferences(store, w);
    if referenced.Err? {
      return Err(referenced.reason);
    }
    if '\\' in poolPrefix.value {
      return Err(BACKSLASH);
    }
    PoolIsClean(codename);
    var deleted := DeleteBelow(store, "pool/" + Clean(codename), referenced.value);
    return Ok(deleted);
  }

  lemma {:induction false} PoolIsClean(codename: string)
    requires ScopedPrefix("pool", codename).Ok?
    ensures CleanKey("pool/" + Clean(codename))
    ensures "pool/" + Clean(codename) + "/" == ScopedPrefix("pool", codename).value
  {
    PoolPrefixIs(codename);
    if Rooted(codename) {
      RootStays(codename);
    }
    CleanGivesCleanKey(codename);
    BelowPool(Clean(codename));
  }
}
