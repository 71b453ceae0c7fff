/** What a verification counts and repairs, said of the packages in the listed indexes and of the objects stored under
    the store's prefix. */
module VerifyResults {
  import opened Text
  import opened Lists
  import P = Package
  import S = Storage
  import opened Keys
  import opened Calls
  import opened Worlds = World
  import opened R = Release
  import opened Publication
  import opened Signatures
  import opened Commands
  import opened Commander
  import opened Republished
  import opened CommandResults

  // ---- a package and its body

  /** Below the prefix of the store there is an object at the place that the path of the package names. */
  predicate HasBody(w: World, objects: Objects, prefix: S.Prefix, c: string, p: P.Package) {
    && w.pathOf(p, c).Ok? && S.JoinKey(prefix, w.pathOf(p, c).value).Ok?
    && exists key :: key in objects && S.JoinKey(prefix, w.pathOf(p, c).value).value == S.Under(prefix, KeyText(key))
  }

  lemma {:induction false} LogicalIsBelow(prefix: S.Prefix, physical: string, text: string)
    ensures S.LogicalKey(prefix, physical) == Some(text) <==> physical == S.Under(prefix, text)
  {
    S.GoodPrefixFixed(prefix);
    if prefix != "" {
      if S.LogicalKey(prefix, physical) == Some(text) {
        assert physical == physical[..|prefix| + 1] + text;
      }
      if physical == S.Under(prefix, text) {
        assert physical[..|prefix| + 1] == prefix + "/" && physical[|prefix| + 1..] == text;
      }
    }
  }

  /** It is what a check looks for. */
  lemma {:induction false} LookedIsThere(w: World, objects: Objects, prefix: S.Prefix, c: string, p: P.Package)
    ensures BodyFound(w, objects, prefix, c)(p) <==> HasBody(w, objects, prefix, c, p)
  {
    var path := w.pathOf(p, c);
    if path.Ok? && S.JoinKey(prefix, path.value).Ok? {
      var physical := S.JoinKey(prefix, path.value).value;
      forall key ensures S.LogicalKey(prefix, physical) == Some(KeyText(key)) <==>
                physical == S.Under(prefix, KeyText(key)) {
        LogicalIsBelow(prefix, physical, KeyText(key));
      }
    }
  }

  /** The packages whose body is there, in order. */
  function Backed(
      w: World, objects: Objects, prefix: S.Prefix, c: string, packages: seq<P.Package>): seq<P.Package> {
    Filter(packages, (p: P.Package) => HasBody(w, objects, prefix, c, p))
  }

  /** The packages whose body is not there, in order. */
  function Lacking(
      w: World, objects: Objects, prefix: S.Prefix, c: string, packages: seq<P.Package>): seq<P.Package> {
    Filter(packages, (p: P.Package) => !HasBody(w, objects, prefix, c, p))
  }

  lemma {:induction false} BackedOrLacking(
      w: World, objects: Objects, prefix: S.Prefix, c: string, packages: seq<P.Package>)
    ensures |Backed(w, objects, prefix, c, packages)| + |Lacking(w, objects, prefix, c, packages)| == |packages|
  {
    if packages != [] {
      BackedOrLacking(w, objects, prefix, c, packages[1..]);
    }
  }

  /** Every package has a path that the store accepts. */
  predicate Resolvable(w: World, prefix: S.Prefix, c: string, packages: seq<P.Package>) {
    forall i :: 0 <= i < |packages| ==>
      w.pathOf(packages[i], c).Ok? && S.JoinKey(prefix, w.pathOf(packages[i], c).value).Ok?
  }

  lemma {:induction false} ResolvableCons(w: World, prefix: S.Prefix, c: string, packages: seq<P.Package>)
    requires packages != []
    ensures Resolvable(w, prefix, c, packages)
            <==> Looked(prefix, w.pathOf(packages[0], c)).Ok? && Resolvable(w, prefix, c, packages[1..])
  {
    var rest := packages[1..];
    assert forall i :: 0 <= i < |rest| ==> rest[i] == packages[i + 1];
    assert forall i :: 0 < i < |packages| ==> packages[i] == rest[i - 1];
  }

  lemma {:induction false} SurvivingIsBacked(
      w: World, objects: Objects, prefix: S.Prefix, c: string, packages: seq<P.Package>)
    ensures Surviving(w, objects, prefix, c, packages).Ok? <==> Resolvable(w, prefix, c, packages)
    ensures Surviving(w, objects, prefix, c, packages).Ok? ==>
              Surviving(w, objects, prefix, c, packages).value == Backed(w, objects, prefix, c, packages)
  {
    if packages != [] {
      SurvivingIsBacked(w, objects, prefix, c, packages[1..]);
      ResolvableCons(w, prefix, c, packages);
      LookedIsThere(w, objects, prefix, c, packages[0]);
    }
  }

  // ---- one architecture

  /** The packages of a suite's index; of one that is missing or cannot be read, none. */
  function PackagesIn(w: World, objects: Objects, c: string, component: string, a: string): seq<P.Package> {
    var key := Index(c, component, a, false);
    if key in objects && w.parsePackages(objects[key]).Ok? then w.parsePackages(objects[key]).value else []
  }

  /** The index can be read and its packages looked for. */
  predicate Checkable(w: World, objects: Objects, o: VerifyOptions, a: string) {
    && !Unreadable(w, objects, o.release.codename, o.component, a)
    && Resolvable(w, o.prefix, o.release.codename, PackagesIn(w, objects, o.release.codename, o.component, a))
  }

  function BackedIn(w: World, objects: Objects, o: VerifyOptions, a: string): seq<P.Package> {
    var c := o.release.codename;
    Backed(w, objects, o.prefix, c, PackagesIn(w, objects, c, o.component, a))
  }

  function LackingIn(w: World, objects: Objects, o: VerifyOptions, a: string): seq<P.Package> {
    var c := o.release.codename;
    Lacking(w, objects, o.prefix, c, PackagesIn(w, objects, c, o.component, a))
  }

  lemma {:induction false} HereIs(w: World, objects: Objects, o: VerifyOptions, byHash: bool, a: string)
    ensures VerifyHere(w, objects, o, byHash, a).Ok? <==> Checkable(w, objects, o, a)
    ensures VerifyHere(w, objects, o, byHash, a).Ok? ==>
              var r, lacking := VerifyHere(w, objects, o, byHash, a).value, |LackingIn(w, objects, o, a)|;
              && r.checked == |PackagesIn(w, objects, o.release.codename, o.component, a)|
              && r.missing == lacking && r.repaired == (if o.fix then lacking else 0)
              && r.changed == (if o.fix && lacking > 0 then
                                 [Suite(o.component, a, byHash, BackedIn(w, objects, o, a))] else [])
  {
    var c, packages :=
        o.release.codename, PackagesIn(w, objects, o.release.codename, o.component, a);
    SurvivingIsBacked(w, objects, o.prefix, c, packages);
    BackedOrLacking(w, objects, o.prefix, c, packages);
  }

  // ---- all of them

  /** The packages of all these indexes, one index after the other. */
  function AllPackages(
      w: World, objects: Objects, c: string, component: string, architectures: seq<string>): seq<P.Package> {
    if architectures == [] then []
    else
      var rest := AllPackages(w, objects, c, component, architectures[1..]);
      PackagesIn(w, objects, c, component, architectures[0]) + rest
  }

  /** The architectures whose index lists a package without its body, in order. */
  function Damaged(w: World, objects: Objects, o: VerifyOptions, architectures: seq<string>): seq<string> {
    Filter(architectures, (a: string) => LackingIn(w, objects, o, a) != [])
  }

  /** Exactly one manifest for each of these architectures, with the packages whose body is there. */
  ghost predicate Repairs(
      w: World, objects: Objects, o: VerifyOptions, byHash: bool, damaged: seq<string>, changed: seq<Suite>) {
    && |changed| == |damaged|
    && forall k :: 0 <= k < |changed| ==>
         changed[k] == Suite(o.component, damaged[k], byHash, BackedIn(w, objects, o, damaged[k]))
  }

  /** The report counts the packages of the indexes and those whose body is missing, and repairs if it is told to. */
  ghost predicate Accounts(
      w: World, objects: Objects, o: VerifyOptions, byHash: bool, architectures: seq<string>, r: Report) {
    var c, all := o.release.codename, AllPackages(w, objects, o.release.codename, o.component, architectures);
    var damaged := Damaged(w, objects, o, architectures);
    && r.checked == |all| && r.missing == |Lacking(w, objects, o.prefix, c, all)|
    && r.repaired == (if o.fix then r.missing else 0)
    && Repairs(w, objects, o, byHash, if o.fix then damaged else [], r.changed)
  }

  lemma {:induction false} RepairsCons(
      w: World, objects: Objects, o: VerifyOptions, byHash: bool, a: string, damaged: seq<string>, changed: seq<Suite>)
    requires Repairs(w, objects, o, byHash, damaged, changed)
    ensures Repairs(w, objects, o, byHash, [a] + damaged,
            [Suite(o.component, a, byHash, BackedIn(w, objects, o, a))] + changed)
  {}

  lemma {:induction false} AccountsCons(
      w: World, objects: Objects, o: VerifyOptions, byHash: bool, architectures: seq<string>, rest: Report)
    requires architectures != [] && VerifyHere(w, objects, o, byHash, architectures[0]).Ok?
    requires Accounts(w, objects, o, byHash, architectures[1..], rest)
    ensures Accounts(w, objects, o, byHash, architectures,
            Plus(VerifyHere(w, objects, o, byHash, architectures[0]).value, rest))
  {
    var a, c := architectures[0], o.release.codename;
    var packages, others :=
        PackagesIn(w, objects, c, o.component, a), AllPackages(w, objects, c, o.component, architectures[1..]);
    HereIs(w, objects, o, byHash, a);
    FilterAppend(packages, others, (p: P.Package) => !HasBody(w, objects, o.prefix, c, p));
    if o.fix && LackingIn(w, objects, o, a) != [] {
      RepairsCons(w, objects, o, byHash, a, Damaged(w, objects, o, architectures[1..]), rest.changed);
    } else {
      AppendEmpty(rest.changed);
    }
  }

  /** A verification gets through exactly when every index can be read and every path resolved, and then accounts for
      all their packages. */
  lemma {:induction false} FromAccounts(
      w: World, objects: Objects, o: VerifyOptions, byHash: bool, architectures: seq<string>)
    ensures VerifyFrom(w, objects, o, byHash, architectures).Ok?
            <==> forall i :: 0 <= i < |architectures| ==> Checkable(w, objects, o, architectures[i])
    ensures VerifyFrom(w, objects, o, byHash, architectures).Ok? ==>
              Accounts(w, objects, o, byHash, architectures, VerifyFrom(w, objects, o, byHash, architectures).value)
  {
    if architectures != [] {
      var rest := architectures[1..];
      FromAccounts(w, objects, o, byHash, rest);
      HereIs(w, objects, o, byHash, architectures[0]);
      assert forall i :: 0 <= i < |rest| ==> rest[i] == architectures[i + 1];
      assert forall i :: 0 < i < |architectures| ==> architectures[i] == rest[i - 1];
      if VerifyFrom(w, objects, o, byHash, architectures).Ok? {
        AccountsCons(w, objects, o, byHash, architectures, VerifyFrom(w, objects, o, byHash, rest).value);
      }
    }
  }

  /** The report of a verification: it exists exactly when every listed index can be read and every path resolved; it
      counts the packages of these indexes and those without a body; and, when told to repair, has one manifest for
      each index that lists such a package, without them. */
  lemma {:induction false} ReportAccounts(w: World, objects: Objects, o: VerifyOptions)
    ensures var architectures := ReleaseArchitectures(w, objects, o.release.codename);
            && (VerifyPlan(w, objects, o).Ok?
                <==> forall i :: 0 <= i < |architectures| ==> Checkable(w, objects, o, architectures[i]))
            && (VerifyPlan(w, objects, o).Ok? ==>
                  Accounts(w, objects, o, HashedBy(w, objects, o.release), architectures,
                      VerifyPlan(w, objects, o).value))
  {
    FromAccounts(w, objects, o, HashedBy(w, objects, o.release),
        ReleaseArchitectures(w, objects, o.release.codename));
  }

  // ---- the store

  /** The verification has nothing to repair, or is not told to. */
  ghost predicate OnlyLooks(w: World, objects: Objects, o: VerifyOptions) {
    !o.fix || Damaged(w, objects, o, ReleaseArchitectures(w, objects, o.release.codename)) == []
  }

  /** Without a signer it then leaves the store alone, and succeeds exactly when it could check everything. */
  lemma {:induction false} LookingChangesNothing(
      w: World, before: Store, after: Store, ok: bool, o: VerifyOptions, date: string)
    requires OnlyLooks(w, before.objects, o) && Verified(w, before, after, ok, o, Unsigned, date)
    ensures after == before
    ensures var architectures := ReleaseArchitectures(w, before.objects, o.release.codename);
            ok <==> forall i :: 0 <= i < |architectures| ==> Checkable(w, before.objects, o, architectures[i])
  {
    ReportAccounts(w, before.objects, o);
  }

  /** With a signer it leaves a Release with the signer's artifacts. */
  lemma {:induction false} LookingSigns(
      w: World, before: Store, after: Store, o: VerifyOptions, signing: Signing, date: string)
    requires OnlyLooks(w, before.objects, o) && Verified(w, before, after, true, o, signing, date)
    requires !signing.Unsigned? && NoneMistaken(w.hasher.md5, before.objects)
    ensures exists text :: HasTriple(after.objects, o.release.codename, text, signing)
    ensures SameBodies(before.objects, after.objects)
  {
    var c, r := o.release.codename, Retrieved(w, before.objects, o.release);
    ReportAccounts(w, before.objects, o);
    ResignLeft(w, before, c, r, signing, date);
    ResignKeepsBodies(w, before, c, r, signing, date);
  }

  lemma {:induction false} ResignKeepsBodies(
      w: World, before: Store, c: string, r: ReleaseData, signing: Signing, date: string)
    requires BuildAll(w, c, Missing(r)).Ok?
    ensures SameBodies(before.objects,
            Exec(w.hasher.md5, before, ReleasePlan(w, c, r, signing, date).ops).store.objects)
  {
    var created := BuildAll(w, c, Missing(r)).value;
    var text := w.printRelease(RecordAll(w, r, created), date);
    forall path
      ensures SameAt(before.objects,
              Exec(w.hasher.md5, before, ReleasePlan(w, c, r, signing, date).ops).store.objects, Pool(path))
    {
      EachAvoidsBodies(w, c, created, path);
      AvoidsAppend(EachOps(w, c, created), TripleOps(c, text, signing), Pool(path));
      Untouched(w.hasher.md5, before, ReleasePlan(w, c, r, signing, date).ops, Pool(path));
    }
  }

  lemma {:induction false} EachAvoidsBodies(w: World, c: string, prepared: seq<Prepared>, path: string)
    ensures Avoids(EachOps(w, c, prepared), Pool(path))
  {
    if prepared != [] {
      var p := prepared[0];
      EachAvoidsBodies(w, c, prepared[1..], path);
      AvoidsAppend(ByHashOps(w, c, p), CanonicalOps(c, p), Pool(path));
      AvoidsAppend(ByHashOps(w, c, p) + CanonicalOps(c, p), EachOps(w, c, prepared[1..]), Pool(path));
    }
  }

  lemma {:induction false} RepairsNames(
      w: World, objects: Objects, o: VerifyOptions, byHash: bool, damaged: seq<string>, changed: seq<Suite>, a: string)
    requires Repairs(w, objects, o, byHash, damaged, changed)
    ensures PublishesSuite(changed, o.component, a) <==> a in damaged
  {
    if a in damaged {
      var k :| 0 <= k < |damaged| && damaged[k] == a;
      assert changed[k].architecture == a;
    }
  }

  /** A repair that succeeds leaves, in every index that lists a package without its body, the packages whose body is
      there; other listed indexes and all bodies stay as they were. */
  lemma {:induction false} RepairLeaves(
      w: World, before: Store, after: Store, o: VerifyOptions, signing: Signing, date: string)
    requires o.fix && Verified(w, before, after, true, o, signing, date)
    requires NoneMistaken(w.hasher.md5, before.objects)
    requires var damaged :=
             Damaged(w, before.objects, o, ReleaseArchitectures(w, before.objects, o.release.codename)); damaged != []
    ensures var damaged :=
            Damaged(w, before.objects, o, ReleaseArchitectures(w, before.objects, o.release.codename));
            && (forall a :: a in damaged ==>
                  Shows(w, after.objects, o.release.codename, o.component, a, BackedIn(w, before.objects, o, a),
                      HashedBy(w, before.objects, o.release)))
            && ChangesOnly(w, before.objects, after.objects, o.release.codename, o.component, iset a | a in damaged)
            && SameBodies(before.objects, after.objects)
  {
    var damaged := Damaged(w, before.objects, o, ReleaseArchitectures(w, before.objects, o.release.codename));
    var byHash, changed := HashedBy(w, before.objects, o.release), VerifyPlan(w, before.objects, o).value.changed;
    ReportAccounts(w, before.objects, o);
    assert Repairs(w, before.objects, o, byHash, damaged, changed);
    assert Published(w, before, after, true, o.release, changed, signing, date);
    RepairsLeave(w, before, after, o, signing, date, byHash, damaged, changed);
  }

  lemma {:induction false} RepairsLeave(
      w: World, before: Store, after: Store, o: VerifyOptions, signing: Signing, date: string, byHash: bool,
      damaged: seq<string>, changed: seq<Suite>)
    requires Repairs(w, before.objects, o, byHash, damaged, changed)
    requires Published(w, before, after, true, o.release, changed, signing, date)
    requires NoneMistaken(w.hasher.md5, before.objects)
    ensures forall a :: a in damaged ==>
              Shows(w, after.objects, o.release.codename, o.component, a, BackedIn(w, before.objects, o, a), byHash)
    ensures ChangesOnly(w, before.objects, after.objects, o.release.codename, o.component, iset a | a in damaged)
    ensures SameBodies(before.objects, after.objects)
  {
    forall a | a in damaged
      ensures Shows(w, after.objects, o.release.codename, o.component, a, BackedIn(w, before.objects, o, a), byHash)
    {
      RepairsNames(w, before.objects, o, byHash, damaged, changed, a);
      PublishedShows(w, before, after, o.release, changed, signing, date, o.component, a,
          BackedIn(w, before.objects, o, a), byHash);
    }
    PublishedChangesOnly(w, before, after, true, o.release, changed, signing, date, o.component,
        iset a | a in damaged);
    PublishedKeepsBodies(w, before, after, true, o.release, changed, signing, date);
  }
}
