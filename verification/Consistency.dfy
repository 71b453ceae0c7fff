/** Over histories of completed runs, every entry of a stored Release describes the index stored under its name. */
module Consistency {
  import opened Text
  import opened Digests
  import opened Lists
  import opened R = Release
  import opened Keys
  import opened Calls
  import opened Worlds = World
  import opened Publication
  import opened Concurrent
  import opened History
  import opened Signatures

  // ---- what a completed sequence of calls leaves under a key

  /** The digest tells all bodies that occur apart. */
  ghost predicate NoCollisions(md5: string -> string, bodies: iset<string>) {
    forall a, b :: a in bodies && b in bodies && md5(a) == md5(b) ==> a == b
  }

  ghost predicate Occur(objects: Objects, ops: seq<Op>, bodies: iset<string>) {
    && (forall key :: key in objects ==> objects[key] in bodies)
    && (forall j :: 0 <= j < |ops| && ops[j].Put? ==> ops[j].data in bodies)
  }

  datatype Effect = Untouched | Gone | Now(data: string)

  /** The last call on the key. */
  function LastEffect(ops: seq<Op>, key: Key): Effect {
    if ops == [] then Untouched
    else
      var rest := LastEffect(ops[1..], key);
      if rest != Untouched then rest
      else if ops[0].key != key then Untouched
      else if ops[0].Put? then Now(ops[0].data) else Gone
  }

  predicate HasEffect(o: Objects, o': Objects, key: Key, effect: Effect) {
    match effect
    case Untouched => SameAt(o, o', key)
    case Gone => key !in o'
    case Now(data) => key in o' && o'[key] == data
  }

  lemma {:induction false} StepEffect(md5: string -> string, store: Store, op: Op, bodies: iset<string>, key: Key)
    requires NoCollisions(md5, bodies) && Occur(store.objects, [op], bodies) && Step(md5, store, op).ok
    ensures var o' := Step(md5, store, op).store.objects;
            && Occur(o', [], bodies)
            && (op.key != key ==> SameAt(store.objects, o', key))
            && (op.key == key ==> HasEffect(store.objects, o', key, if op.Put? then Now(op.data) else Gone))
  {
    assert [op][0] == op;
  }

  /** Calls that all got through leave under each key what the last of them says. */
  lemma {:induction false} ExecEffect(md5: string -> string, store: Store, ops: seq<Op>, bodies: iset<string>, key: Key)
    requires NoCollisions(md5, bodies) && Occur(store.objects, ops, bodies) && Exec(md5, store, ops).ok
    ensures var o' := Exec(md5, store, ops).store.objects;
            HasEffect(store.objects, o', key, LastEffect(ops, key)) && Occur(o', [], bodies)
    decreases |ops|
  {
    if ops != [] {
      var first := Step(md5, store, ops[0]);
      assert [ops[0]][0] == ops[0];
      StepEffect(md5, store, ops[0], bodies, key);
      forall j | 0 <= j < |ops[1..]| && ops[1..][j].Put? ensures ops[1..][j].data in bodies {
        assert ops[1..][j] == ops[j + 1];
      }
      ExecEffect(md5, first.store, ops[1..], bodies, key);
    }
  }

  lemma {:induction false} EffectAppend(a: seq<Op>, b: seq<Op>, key: Key)
    ensures LastEffect(a + b, key) == if LastEffect(b, key) != Untouched then LastEffect(b, key) else LastEffect(a, key)
  {
    if a == [] {
      AppendEmpty(b);
    } else {
      assert (a + b)[0] == a[0] && (a + b)[1..] == a[1..] + b;
      EffectAppend(a[1..], b, key);
    }
  }

  lemma {:induction false} EffectNone(ops: seq<Op>, key: Key)
    requires forall j :: 0 <= j < |ops| ==> ops[j].key != key
    ensures LastEffect(ops, key) == Untouched
  {
    if ops != [] {
      forall j | 0 <= j < |ops[1..]| ensures ops[1..][j].key != key {
        assert ops[1..][j] == ops[j + 1];
      }
      EffectNone(ops[1..], key);
    }
  }

  // ---- effects of publishing on index names

  predicate Names(p: Prepared, component: string, a: string) {
    p.component == component && p.architecture == a
  }

  lemma {:induction false} CanonicalOne(c: string, p: Prepared, key: Key)
    requires key.Index?
    ensures LastEffect(CanonicalOps(c, p), key)
            == if key.codename == c
            && Names(p, key.component, key.architecture) then Now(Body(p, key.gz)) else Untouched
  {
    var ops := CanonicalOps(c, p);
    assert ops[1..] == [ops[1]] && ops[1..][1..] == [];
    assert LastEffect(ops[1..], key) == if ops[1].key == key then Now(p.gzip) else Untouched;
    assert key == Index(key.codename, key.component, key.architecture, key.gz);
  }

  lemma {:induction false} CanonicalUntouched(c: string, prepared: seq<Prepared>, key: Key)
    requires key.Index?
    requires key.codename != c || forall i :: 0 <= i < |prepared| ==>
            !Names(prepared[i], key.component, key.architecture)
    ensures LastEffect(AllCanonicalOps(c, prepared), key) == Untouched
  {
    if prepared != [] {
      CanonicalOne(c, prepared[0], key);
      CanonicalUntouched(c, prepared[1..], key);
      EffectAppend(CanonicalOps(c, prepared[0]), AllCanonicalOps(c, prepared[1..]), key);
    }
  }

  lemma {:induction false} CanonicalLast(c: string, prepared: seq<Prepared>, i: nat, gz: bool)
    requires i < |prepared|
    requires forall j :: i < j < |prepared| ==> !Names(prepared[j], prepared[i].component, prepared[i].architecture)
    ensures LastEffect(AllCanonicalOps(c, prepared), Index(c, prepared[i].component, prepared[i].architecture, gz))
            == Now(Body(prepared[i], gz))
  {
    var key := Index(c, prepared[i].component, prepared[i].architecture, gz);
    CanonicalOne(c, prepared[0], key);
    EffectAppend(CanonicalOps(c, prepared[0]), AllCanonicalOps(c, prepared[1..]), key);
    if i > 0 {
      forall j | i - 1 < j < |prepared[1..]|
        ensures !Names(prepared[1..][j], prepared[1..][i - 1].component, prepared[1..][i - 1].architecture)
      {
        assert prepared[1..][j] == prepared[j + 1];
      }
      CanonicalLast(c, prepared[1..], i - 1, gz);
    } else {
      CanonicalUntouched(c, prepared[1..], key);
    }
  }

  /** By-hash calls in between make no difference to the indexes. */
  lemma {:induction false} EachLikeCanonical(w: World, c: string, prepared: seq<Prepared>, key: Key)
    requires key.Index?
    ensures LastEffect(EachOps(w, c, prepared), key) == LastEffect(AllCanonicalOps(c, prepared), key)
  {
    if prepared != [] {
      var hashed, canonical, rest :=
          ByHashOps(w, c, prepared[0]), CanonicalOps(c, prepared[0]), EachOps(w, c, prepared[1..]);
      EachLikeCanonical(w, c, prepared[1..], key);
      EffectAppend(hashed + canonical, rest, key);
      EffectAppend(hashed, canonical, key);
      OpsFit(w, c, "", prepared[0]);
      EffectNone(hashed, key);
      EffectAppend(canonical, AllCanonicalOps(c, prepared[1..]), key);
    }
  }

  lemma {:induction false} TripleEffect(c: string, text: string, signing: Signing, key: Key)
    requires !Refused(signing)
    ensures key.Index? ==> LastEffect(TripleOps(c, text, signing), key) == Untouched
    ensures key.ReleaseFile? ==>
              LastEffect(TripleOps(c, text, signing), key) == if key.codename == c then Now(text) else Untouched
  {
    var ops := TripleOps(c, text, signing);
    assert ops[1..] == [ops[1], ops[2]] && ops[1..][1..] == [ops[2]] && ops[1..][1..][1..] == [];
    assert LastEffect([ops[2]], key) == if ops[2].key != key then Untouched else Now(ops[2].data);
  }

  /** What a run prepares, for runs that publish. */
  function PreparedBy(w: World, objects: Objects, run: Run): Result<seq<Prepared>>
    requires !run.Collect?
  {
    var r, c := Retrieved(w, objects, run.options), run.options.codename;
    match run
    case Publish(options, bodies, suites, signing, date) => PreparedFor(w, c, r, suites)
    case Resign(options, signing, date) => BuildAll(w, c, Missing(r))
  }

  lemma {:induction false} FrontEffect(w: World, objects: Objects, run: Run, key: Key)
    requires !run.Collect? && Shaped(run) && PreparedBy(w, objects, run).Ok? && key.Index?
    ensures LastEffect(Front(w, objects, run), key)
            == LastEffect(AllCanonicalOps(run.options.codename, PreparedBy(w, objects, run).value), key)
  {
    var c, prepared := run.options.codename, PreparedBy(w, objects, run).value;
    match run {
      case Publish(options, bodies, suites, signing, date) =>
        var hashed, canonical := AllByHashOps(w, c, prepared), AllCanonicalOps(c, prepared);
        EffectAppend(bodies, hashed + canonical, key);
        EffectAppend(hashed, canonical, key);
        EffectNone(bodies, key);
        AllByHashFit(w, c, "", prepared);
        EffectNone(hashed, key);
      case Resign(options, signing, date) => EachLikeCanonical(w, c, prepared, key);
    }
  }

  lemma {:induction false} QuietEffect(ops: seq<Op>, key: Key)
    requires Quiet(ops) && InTriple(key)
    ensures LastEffect(ops, key) == Untouched
  {
    EffectNone(ops, key);
  }

  /** A publishing run leaves the indexes it prepared and its Release, and touches no other index or Release. */
  lemma {:induction false} RunEffect(w: World, objects: Objects, run: Run, key: Key)
    requires !run.Collect? && Shaped(run) && PreparedBy(w, objects, run).Ok? && !Refused(run.signing)
    ensures key.Index? ==> LastEffect(PlanOf(w, objects, run).ops, key)
                           == LastEffect(AllCanonicalOps(run.options.codename, PreparedBy(w, objects, run).value), key)
    ensures key.ReleaseFile? ==> LastEffect(PlanOf(w, objects, run).ops, key)
                                 == if key.codename == run.options.codename then Now(NewRelease(w, objects, run).value)
                                 else Untouched
  {
    var front, text, c := Front(w, objects, run), NewRelease(w, objects, run).value, run.options.codename;
    RunInTwoParts(w, objects, run);
    EffectAppend(front, TripleOps(c, text, run.signing), key);
    TripleEffect(c, text, run.signing, key);
    if key.Index? {
      FrontEffect(w, objects, run, key);
    }
    if key.ReleaseFile? {
      QuietEffect(front, key);
    }
  }

  // ---- consistency

  /** Every stored Release fits its format, and its entries have the size and digests of the stored indexes. */
  ghost predicate Consistent(w: World, objects: Objects) {
    forall c :: ReleaseFile(c) in objects ==> ConsistentSuite(w, objects, c, w.parseRelease(objects[ReleaseFile(c)]))
  }

  ghost predicate ConsistentSuite(w: World, objects: Objects, c: string, r: ReleaseData) {
    Sane(r, "") && Describes(w, objects, c, r.files)
  }

  ghost predicate Describes(w: World, objects: Objects, c: string, files: map<string, FileHashes>) {
    forall component, a, gz :: SuiteName(component, a) && EntryName(component, a, gz) in files ==>
      DescribesIndex(w, objects, Index(c, component, a, gz), files[EntryName(component, a, gz)])
  }

  ghost predicate DescribesIndex(w: World, objects: Objects, key: Key, hashes: FileHashes) {
    key in objects && HashesOf(w.hasher, objects[key]) == hashes
  }

  /** Options, dates and sizes that fit a Release. */
  ghost predicate FitsFormat(w: World, objects: Objects, run: Run) {
    !run.Collect? ==>
      && Plain(run.options.codename) && Plain(run.options.origin.GetOr("")) && Plain(run.options.suite.GetOr(""))
      && Plain(run.date) && PreparedBy(w, objects, run).Ok? && AllFit(PreparedBy(w, objects, run).value)
  }

  /** A run that made all its calls and signed successfully. */
  ghost predicate Completed(w: World, objects: Objects, run: Run, calls: nat) {
    PlanOf(w, objects, run).completes && Exec(w.hasher.md5, Store(objects, calls), PlanOf(w, objects, run).ops).ok
  }

  lemma {:induction false} RetrievedConsistent(w: World, objects: Objects, options: ReleaseOptions, date: string)
    requires Consistent(w, objects) && Plain(options.codename) && Plain(date)
    requires Plain(options.origin.GetOr("")) && Plain(options.suite.GetOr(""))
    ensures var r := Retrieved(w, objects, options);
            Sane(r, date) && Describes(w, objects, options.codename, r.files)
  {
    if ReleaseFile(options.codename) in objects {
      assert ConsistentSuite(w, objects, options.codename, w.parseRelease(objects[ReleaseFile(options.codename)]));
    }
  }

  lemma {:induction false} EntryDescribes(
      w: World, o: Objects, o': Objects, c: string, r: ReleaseData, prepared: seq<Prepared>, component: string,
      a: string, gz: bool)
    requires AllFit(prepared) && Describes(w, o, c, r.files) && SuiteName(component, a)
    requires var key := Index(c, component, a, gz); HasEffect(o, o', key, LastEffect(AllCanonicalOps(c, prepared), key))
    requires EntryName(component, a, gz) in RecordAll(w, r, prepared).files
    ensures DescribesIndex(w, o', Index(c, component, a, gz),
            RecordAll(w, r, prepared).files[EntryName(component, a, gz)])
  {
    var files, f := RecordAll(w, r, prepared).files, EntryName(component, a, gz);
    RecordedEntry(w, r, prepared, f);
    if i :| 0 <= i < |prepared| && f in Entries(w, prepared[i]) && Entries(w, prepared[i])[f] == files[f]
            && forall j :: i < j < |prepared| ==> f !in Entries(w, prepared[j]) {
      EntryIn(w, prepared[i], component, a, gz);
      CanonicalLast(c, prepared, i, gz);
    } else {
      CanonicalUntouched(c, prepared, Index(c, component, a, gz));
      assert DescribesIndex(w, o, Index(c, component, a, gz), r.files[f]);
    }
  }

  /** The entries recorded describe the indexes the calls leave. */
  lemma {:induction false} RecordedDescribe(
      w: World, o: Objects, o': Objects, c: string, r: ReleaseData, prepared: seq<Prepared>)
    requires AllFit(prepared) && Describes(w, o, c, r.files)
    requires forall key: Key :: key.Index? ==> HasEffect(o, o', key, LastEffect(AllCanonicalOps(c, prepared), key))
    ensures Describes(w, o', c, RecordAll(w, r, prepared).files)
  {
    var files := RecordAll(w, r, prepared).files;
    forall component, a, gz | SuiteName(component, a) && EntryName(component, a, gz) in files
      ensures DescribesIndex(w, o', Index(c, component, a, gz), files[EntryName(component, a, gz)])
    {
      EntryDescribes(w, o, o', c, r, prepared, component, a, gz);
    }
  }

  lemma {:induction false} PublishedSuite(w: World, o: Objects, o': Objects, run: Run)
    requires Lawful(w) && Consistent(w, o) && FitsFormat(w, o, run) && !run.Collect?
    requires forall key: Key :: key.Index? ==>
               HasEffect(o, o', key,
                   LastEffect(AllCanonicalOps(run.options.codename, PreparedBy(w, o, run).value), key))
    ensures ConsistentSuite(w, o', run.options.codename, w.parseRelease(NewRelease(w, o, run).value))
  {
    var c, r, prepared := run.options.codename, Retrieved(w, o, run.options), PreparedBy(w, o, run).value;
    var final := RecordAll(w, r, prepared);
    RetrievedConsistent(w, o, run.options, run.date);
    RecordAllSane(w, r, prepared, run.date);
    RecordedDescribe(w, o, o', c, r, prepared);
    SaneAnyDate(final, run.date);
    assert w.parseRelease(w.printRelease(final, run.date)) == final.(suite := Some(final.suite.GetOr("")));
  }

  lemma {:induction false} OtherSuite(w: World, o: Objects, o': Objects, c: string, r: ReleaseData)
    requires ConsistentSuite(w, o, c, r)
    requires forall key: Key :: key.Index? && key.codename == c ==> SameAt(o, o', key)
    ensures ConsistentSuite(w, o', c, r)
  {
    forall component, a, gz | SuiteName(component, a) && EntryName(component, a, gz) in r.files
      ensures DescribesIndex(w, o', Index(c, component, a, gz), r.files[EntryName(component, a, gz)])
    {
      assert DescribesIndex(w, o, Index(c, component, a, gz), r.files[EntryName(component, a, gz)]);
    }
  }

  /** What a completed publishing run leaves under the names that matter here. */
  lemma {:induction false} CompletedEffect(w: World, o: Objects, run: Run, calls: nat, bodies: iset<string>, key: Key)
    requires !run.Collect? && Shaped(run) && FitsFormat(w, o, run) && Completed(w, o, run, calls)
    requires NoCollisions(w.hasher.md5, bodies) && Occur(o, PlanOf(w, o, run).ops, bodies)
    ensures !Refused(run.signing)
    ensures var o' := After(w, o, run, calls);
            && (key.Index? ==>
               HasEffect(o, o', key,
               LastEffect(AllCanonicalOps(run.options.codename, PreparedBy(w, o, run).value), key)))
            && (key.ReleaseFile? ==>
                  if key.codename == run.options.codename then HasEffect(o, o', key, Now(NewRelease(w, o, run).value))
                  else SameAt(o, o', key))
  {
    CompletesMeansSigned(w, o, run);
    RunEffect(w, o, run, key);
    ExecEffect(w.hasher.md5, Store(o, calls), PlanOf(w, o, run).ops, bodies, key);
  }

  lemma {:induction false} CompletesMeansSigned(w: World, o: Objects, run: Run)
    requires !run.Collect? && PreparedBy(w, o, run).Ok? && PlanOf(w, o, run).completes
    ensures !Refused(run.signing)
  {}

  lemma {:induction false} PublishKeepsConsistent(w: World, o: Objects, run: Run, calls: nat, bodies: iset<string>)
    requires Lawful(w) && Consistent(w, o) && !run.Collect?
    requires Shaped(run) && FitsFormat(w, o, run) && Completed(w, o, run, calls)
    requires NoCollisions(w.hasher.md5, bodies) && Occur(o, PlanOf(w, o, run).ops, bodies)
    ensures Consistent(w, After(w, o, run, calls))
  {
    var o' := After(w, o, run, calls);
    forall key: Key
      ensures key.Index? ==>
              HasEffect(o, o', key, LastEffect(AllCanonicalOps(run.options.codename, PreparedBy(w, o, run).value), key))
      ensures key.ReleaseFile? ==>
                if key.codename == run.options.codename then HasEffect(o, o', key, Now(NewRelease(w, o, run).value))
                    else SameAt(o, o', key)
    {
      CompletedEffect(w, o, run, calls, bodies, key);
    }
    forall c | ReleaseFile(c) in o' ensures ConsistentSuite(w, o', c, w.parseRelease(o'[ReleaseFile(c)])) {
      SuiteStaysConsistent(w, o, o', run, c);
    }
  }

  lemma {:induction false} SuiteStaysConsistent(w: World, o: Objects, o': Objects, run: Run, c: string)
    requires Lawful(w) && Consistent(w, o) && !run.Collect? && FitsFormat(w, o, run) && ReleaseFile(c) in o'
    requires forall key: Key :: key.Index? ==>
               HasEffect(o, o', key,
                   LastEffect(AllCanonicalOps(run.options.codename, PreparedBy(w, o, run).value), key))
    requires forall key: Key :: key.ReleaseFile? ==>
               if key.codename == run.options.codename then HasEffect(o, o', key, Now(NewRelease(w, o, run).value))
                   else SameAt(o, o', key)
    ensures ConsistentSuite(w, o', c, w.parseRelease(o'[ReleaseFile(c)]))
  {
    if c == run.options.codename {
      PublishedSuite(w, o, o', run);
      assert HasEffect(o, o', ReleaseFile(c), Now(NewRelease(w, o, run).value));
    } else {
      assert SameAt(o, o', ReleaseFile(c));
      forall key: Key | key.Index? && key.codename == c ensures SameAt(o, o', key) {
        CanonicalUntouched(run.options.codename, PreparedBy(w, o, run).value, key);
      }
      OtherSuite(w, o, o', c, w.parseRelease(o[ReleaseFile(c)]));
    }
  }

  lemma {:induction false} CollectKeepsConsistent(w: World, o: Objects, run: Run, calls: nat)
    requires Consistent(w, o) && run.Collect? && Shaped(run)
    ensures Consistent(w, After(w, o, run, calls))
  {
    var o' := After(w, o, run, calls);
    DeletionsKeepOthers(w.hasher.md5, Store(o, calls), run.deletions);
    forall c | ReleaseFile(c) in o' ensures ConsistentSuite(w, o', c, w.parseRelease(o'[ReleaseFile(c)])) {
      assert SameAt(o, o', ReleaseFile(c));
      OtherSuite(w, o, o', c, w.parseRelease(o[ReleaseFile(c)]));
    }
  }

  lemma {:induction false} DeletionsKeepOthers(md5: string -> string, store: Store, ops: seq<Op>)
    requires forall j :: 0 <= j < |ops| ==> ops[j].key.Pool?
    ensures forall key: Key :: !key.Pool? ==> SameAt(store.objects, Exec(md5, store, ops).store.objects, key)
    decreases |ops|
  {
    if ops != [] {
      var first := Step(md5, store, ops[0]);
      if first.ok {
        DeletionsKeepOthers(md5, first.store, ops[1..]);
      }
    }
  }

  // ---- histories of completed runs

  ghost predicate RanToEnd(w: World, o: Objects, o': Objects, bodies: iset<string>) {
    exists run, calls ::
      && Shaped(run) && FitsFormat(w, o, run) && Completed(w, o, run, calls)
      && Occur(o, PlanOf(w, o, run).ops, bodies) && o' == After(w, o, run, calls)
  }

  ghost predicate CompletedHistory(w: World, trace: seq<Objects>, bodies: iset<string>) {
    && trace != [] && Consistent(w, trace[0])
    && forall n :: 0 <= n < |trace| - 1 ==> RanToEnd(w, trace[n], trace[n + 1], bodies)
  }

  lemma {:induction false} RanToEndKeepsConsistent(w: World, o: Objects, o': Objects, bodies: iset<string>)
    requires Lawful(w) && Consistent(w, o) && NoCollisions(w.hasher.md5, bodies) && RanToEnd(w, o, o', bodies)
    ensures Consistent(w, o')
  {
    var run, calls :|
      && Shaped(run) && FitsFormat(w, o, run) && Completed(w, o, run, calls)
      && Occur(o, PlanOf(w, o, run).ops, bodies) && o' == After(w, o, run, calls);
    if run.Collect? {
      CollectKeepsConsistent(w, o, run, calls);
    } else {
      PublishKeepsConsistent(w, o, run, calls, bodies);
    }
  }

  /** After any history of completed runs every entry of every stored Release has the size and the digests of the
      index now stored under its name. */
  lemma {:induction false} ReleaseDescribesIndexes(w: World, trace: seq<Objects>, bodies: iset<string>, n: nat)
    requires Lawful(w) && CompletedHistory(w, trace, bodies) && NoCollisions(w.hasher.md5, bodies) && n < |trace|
    ensures Consistent(w, trace[n])
  {
    ghost var holds := seq(|trace|, i requires 0 <= i < |trace| => Consistent(w, trace[i]));
    forall k | 0 <= k < |trace| - 1 && Consistent(w, trace[k]) ensures Consistent(w, trace[k + 1]) {
      RanToEndKeepsConsistent(w, trace[k], trace[k + 1], bodies);
    }
    ChainHolds(holds, n);
  }
}
