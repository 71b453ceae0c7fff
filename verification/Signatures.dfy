/** The Release and its two signatures over histories of runs that may stop after any call. */
module Signatures {
  import opened Text
  import opened R = Release
  import opened Keys
  import opened Calls
  import opened Worlds = World
  import opened Publication
  import opened Concurrent
  import opened History

  // ---- who wrote the Release last

  /** Codenames whose Release was last stored by an unsigned publish. */
  function Marks(signing: Signing, unsigned: set<string>, op: Op): set<string> {
    if op.Put? && op.key.ReleaseFile? then
      if signing.Unsigned? then unsigned + {op.key.codename} else unsigned - {op.key.codename}
    else unsigned
  }

  /** The marks after the calls that get through. */
  function MarksAfter(
      md5: string -> string, store: Store, ops: seq<Op>, signing: Signing, unsigned: set<string>): set<string>
    decreases |ops|
  {
    if ops == [] then unsigned
    else
      var first := Step(md5, store, ops[0]);
      if first.ok then MarksAfter(md5, first.store, ops[1..], signing, Marks(signing, unsigned, ops[0])) else unsigned
  }

  /** No signature stands beside a Release that was last stored unsigned. */
  ghost predicate Honest(objects: Objects, unsigned: set<string>) {
    forall c :: c in unsigned ==> Detached(c) !in objects && InRelease(c) !in objects
  }

  // ---- calls in an order that keeps it

  predicate IsSignature(key: Key) {
    key.Detached? || key.InRelease?
  }

  /** An unsigned Release is stored only when its signatures are known to be absent, a signature only after a signed
      Release of the same run. */
  ghost predicate Orderly(signing: Signing, codename: string, absent: set<Key>, freed: bool, ops: seq<Op>)
    decreases |ops|
  {
    ops != [] ==>
      match ops[0]
      case Delete(key) => Orderly(signing, codename, absent + {key}, freed, ops[1..])
      case Put(key, data, mode) =>
        if key.ReleaseFile? then
          && key.codename == codename && (signing.Unsigned? ==> {Detached(codename), InRelease(codename)} <= absent)
          && Orderly(signing, codename, absent - {key}, !signing.Unsigned?, ops[1..])
        else
          && (IsSignature(key) ==> freed && key.codename == codename)
          && Orderly(signing, codename, absent - {key}, freed, ops[1..])
  }

  lemma {:induction false} OrderlyKeepsHonest(
      md5: string -> string, store: Store, ops: seq<Op>, signing: Signing, codename: string, absent: set<Key>,
          freed: bool, unsigned: set<string>)
    requires Honest(store.objects, unsigned) && Orderly(signing, codename, absent, freed, ops)
    requires absent !! store.objects.Keys && (freed ==> codename !in unsigned)
    ensures Honest(Exec(md5, store, ops).store.objects, MarksAfter(md5, store, ops, signing, unsigned))
    decreases |ops|
  {
    if ops != [] {
      var first, marks := Step(md5, store, ops[0]), Marks(signing, unsigned, ops[0]);
      if first.ok {
        match ops[0] {
          case Delete(key) => OrderlyKeepsHonest(md5, first.store, ops[1..], signing, codename, absent + {key}, freed,
              marks);
          case Put(key, data, mode) =>
            var freed' := if key.ReleaseFile? then !signing.Unsigned? else freed;
            OrderlyKeepsHonest(md5, first.store, ops[1..], signing, codename, absent - {key}, freed', marks);
        }
      }
    }
  }

  // ---- the calls of a run are in that order

  predicate InTriple(key: Key) {
    key.ReleaseFile? || key.Detached? || key.InRelease?
  }

  /** Calls that leave Release files and signatures alone. */
  ghost predicate Quiet(ops: seq<Op>) {
    forall j :: 0 <= j < |ops| ==> !InTriple(ops[j].key)
  }

  lemma {:induction false} QuietAppend(a: seq<Op>, b: seq<Op>)
    requires Quiet(a) && Quiet(b)
    ensures Quiet(a + b)
  {}

  lemma {:induction false} QuietOrderly(
      signing: Signing, codename: string, front: seq<Op>, rest: seq<Op>, absent: set<Key>)
    requires Quiet(front) && Orderly(signing, codename, {}, false, rest)
    ensures Orderly(signing, codename, absent, false, front + rest)
    decreases |front|
  {
    if front == [] {
      AppendEmpty(rest);
      OrderlyMonotone(signing, codename, {}, absent, rest, false);
    } else {
      assert (front + rest)[0] == front[0] && (front + rest)[1..] == front[1..] + rest;
      forall j | 0 <= j < |front[1..]| ensures !InTriple(front[1..][j].key) {
        assert front[1..][j] == front[j + 1];
      }
      match front[0] {
        case Delete(key) => QuietOrderly(signing, codename, front[1..], rest, absent + {key});
        case Put(key, data, mode) => QuietOrderly(signing, codename, front[1..], rest, absent - {key});
      }
    }
  }

  lemma {:induction false} OrderlyMonotone(
      signing: Signing, codename: string, absent: set<Key>, absent': set<Key>, ops: seq<Op>, freed: bool)
    requires Orderly(signing, codename, absent, freed, ops) && absent <= absent'
    ensures Orderly(signing, codename, absent', freed, ops)
    decreases |ops|
  {
    if ops != [] {
      match ops[0] {
        case Delete(key) => OrderlyMonotone(signing, codename, absent + {key}, absent' + {key}, ops[1..], freed);
        case Put(key, data, mode) =>
          OrderlyMonotone(signing, codename, absent - {key}, absent' - {key}, ops[1..],
            if key.ReleaseFile? then !signing.Unsigned? else freed);
      }
    }
  }

  lemma {:induction false} TripleOrderly(codename: string, text: string, signing: Signing)
    ensures Orderly(signing, codename, {}, false, TripleOps(codename, text, signing))
  {
    var ops := TripleOps(codename, text, signing);
    if !Refused(signing) {
      assert ops[1..] == [ops[1], ops[2]] && ops[1..][1..] == [ops[2]] && ops[1..][1..][1..] == [];
      if signing.Unsigned? {
        assert Orderly(signing, codename, {Detached(codename), InRelease(codename)}, false, [ops[2]]);
        assert Orderly(signing, codename, {Detached(codename)}, false, [ops[1], ops[2]]) by {
          assert {Detached(codename)} + {InRelease(codename)} == {Detached(codename), InRelease(codename)};
          assert [ops[1], ops[2]][1..] == [ops[2]];
        }
        assert {} + {Detached(codename)} == {Detached(codename)};
      } else {
        var none: set<Key> := {};
        assert none - {ReleaseFile(codename)} == none && none - {Detached(codename)} == none;
        assert Orderly(signing, codename, none, true, [ops[2]]);
        assert Orderly(signing, codename, {}, true, [ops[1], ops[2]]) by {
          assert [ops[1], ops[2]][1..] == [ops[2]];
        }
      }
    }
  }

  lemma {:induction false} CanonicalQuiet(codename: string, prepared: seq<Prepared>)
    ensures Quiet(AllCanonicalOps(codename, prepared))
  {
    if prepared != [] {
      CanonicalQuiet(codename, prepared[1..]);
      QuietAppend(CanonicalOps(codename, prepared[0]), AllCanonicalOps(codename, prepared[1..]));
    }
  }

  lemma {:induction false} EachQuiet(w: World, codename: string, prepared: seq<Prepared>)
    ensures Quiet(EachOps(w, codename, prepared))
  {
    if prepared != [] {
      EachQuiet(w, codename, prepared[1..]);
      OpsFit(w, codename, "", prepared[0]);
      QuietAppend(ByHashOps(w, codename, prepared[0]), CanonicalOps(codename, prepared[0]));
      QuietAppend(ByHashOps(w, codename, prepared[0]) + CanonicalOps(codename, prepared[0]),
          EachOps(w, codename, prepared[1..]));
    }
  }

  /** What a run stores before it turns to the Release. */
  function Front(w: World, objects: Objects, run: Run): seq<Op> {
    match run
    case Publish(options, bodies, suites, signing, date) =>
      var r, c := Retrieved(w, objects, options), options.codename;
      var prepared := PreparedFor(w, c, r, suites);
      if prepared.Err? then [] else bodies + (AllByHashOps(w, c, prepared.value) + AllCanonicalOps(c, prepared.value))
    case Resign(options, signing, date) =>
      var created := BuildAll(w, options.codename, Missing(Retrieved(w, objects, options)));
      if created.Err? then [] else EachOps(w, options.codename, created.value)
    case Collect(deletions) => deletions
  }

  /** The text of the Release a run is about to store, when it gets that far. */
  function NewRelease(w: World, objects: Objects, run: Run): Option<string> {
    match run
    case Publish(options, bodies, suites, signing, date) =>
      var r, c := Retrieved(w, objects, options), options.codename;
      if PreparedFor(w, c, r, suites).Err? then None else Some(w.printRelease(FinalRelease(w, c, r, suites), date))
    case Resign(options, signing, date) =>
      var r := Retrieved(w, objects, options);
      var created := BuildAll(w, options.codename, Missing(r));
      if created.Err? then None else Some(w.printRelease(RecordAll(w, r, created.value), date))
    case Collect(deletions) => None
  }

  function SigningOf(run: Run): Signing {
    if run.Collect? then SignFails else run.signing
  }

  function CodenameOf(run: Run): string {
    if run.Collect? then "" else run.options.codename
  }

  /** Every run makes its quiet calls first and then turns to the Release and its signatures. */
  lemma {:induction false} RunInTwoParts(w: World, objects: Objects, run: Run)
    requires Shaped(run)
    ensures Quiet(Front(w, objects, run))
    ensures var text := NewRelease(w, objects, run);
            PlanOf(w, objects, run).ops
            == Front(w, objects, run)
            + (if text.Some? then TripleOps(CodenameOf(run), text.value, SigningOf(run)) else [])
  {
    match run {
      case Publish(options, bodies, suites, signing, date) =>
        PublishInTwoParts(w, options.codename, Retrieved(w, objects, options), bodies, suites, signing, date);
      case Resign(options, signing, date) =>
        var r := Retrieved(w, objects, options);
        var created := BuildAll(w, options.codename, Missing(r));
        if created.Ok? {
          EachQuiet(w, options.codename, created.value);
        }
      case Collect(deletions) => AppendEmpty(deletions);
    }
  }

  lemma {:induction false} PublishInTwoParts(
      w: World, c: string, r: ReleaseData, bodies: seq<Op>, suites: seq<Suite>, signing: Signing, date: string)
    requires Bodies(bodies)
    ensures var prepared, ops := PreparedFor(w, c, r, suites), UploadPlan(w, c, r, bodies, suites, signing, date).ops;
            if prepared.Err? then ops == []
            else
              var front := bodies + (AllByHashOps(w, c, prepared.value) + AllCanonicalOps(c, prepared.value));
              && Quiet(front)
              && ops == front + TripleOps(c, w.printRelease(FinalRelease(w, c, r, suites), date), signing)
  {
    var prepared := PreparedFor(w, c, r, suites);
    if prepared.Ok? {
      var hashed, canonical := AllByHashOps(w, c, prepared.value), AllCanonicalOps(c, prepared.value);
      var triple := TripleOps(c, w.printRelease(FinalRelease(w, c, r, suites), date), signing);
      BackfillIsFixedPoint(w, c, r, suites, signing, date);
      AllByHashFit(w, c, "", prepared.value);
      CanonicalQuiet(c, prepared.value);
      QuietAppend(hashed, canonical);
      QuietAppend(bodies, hashed + canonical);
      Assoc(bodies, hashed + canonical, triple);
    }
  }

  // ---- histories with marks

  datatype Marked = Marked(objects: Objects, unsigned: set<string>)

  ghost predicate RanMarked(w: World, before: Marked, after: Marked) {
    exists run, calls :: Shaped(run) && after == AfterMarked(w, before, run, calls)
  }

  function AfterMarked(w: World, before: Marked, run: Run, calls: nat): Marked {
    Marked(After(w, before.objects, run, calls),
           MarksAfter(w.hasher.md5, Store(before.objects, calls), PlanOf(w, before.objects, run).ops, SigningOf(run),
               before.unsigned))
  }

  lemma {:induction false} RunKeepsHonest(w: World, before: Marked, run: Run, calls: nat)
    requires Honest(before.objects, before.unsigned) && Shaped(run)
    ensures var after := AfterMarked(w, before, run, calls); Honest(after.objects, after.unsigned)
  {
    var front, text := Front(w, before.objects, run), NewRelease(w, before.objects, run);
    var c, signing := CodenameOf(run), SigningOf(run);
    var triple := if text.Some? then TripleOps(c, text.value, signing) else [];
    RunInTwoParts(w, before.objects, run);
    if text.Some? {
      TripleOrderly(c, text.value, signing);
    }
    QuietOrderly(signing, c, front, triple, {});
    OrderlyKeepsHonest(w.hasher.md5, Store(before.objects, calls), front + triple, signing, c, {}, false,
        before.unsigned);
  }

  ghost predicate SequentialMarked(w: World, trace: seq<Marked>) {
    && trace != [] && trace[0].unsigned == {}
    && forall n :: 0 <= n < |trace| - 1 ==> RanMarked(w, trace[n], trace[n + 1])
  }

  /** In every history a Release last stored by an unsigned publish stands without signatures, after every call. */
  lemma {:induction false} UnsignedStandsAlone(w: World, trace: seq<Marked>, n: nat)
    requires SequentialMarked(w, trace) && n < |trace|
    ensures Honest(trace[n].objects, trace[n].unsigned)
  {
    if n > 0 {
      UnsignedStandsAlone(w, trace, n - 1);
      assert RanMarked(w, trace[n - 1], trace[n - 1 + 1]);
      var run, calls :| Shaped(run) && trace[n] == AfterMarked(w, trace[n - 1], run, calls);
      RunKeepsHonest(w, trace[n - 1], run, calls);
    }
  }

  // ---- a failed signing, and the order of the signed triple

  ghost predicate SameTriple(o: Objects, o': Objects) {
    forall key :: InTriple(key) ==> (key in o <==> key in o') && (key in o ==> o'[key] == o[key])
  }

  lemma {:induction false} QuietKeepsTriple(md5: string -> string, store: Store, ops: seq<Op>)
    requires Quiet(ops)
    ensures SameTriple(store.objects, Exec(md5, store, ops).store.objects)
    decreases |ops|
  {
    if ops != [] {
      var first := Step(md5, store, ops[0]);
      forall j | 0 <= j < |ops[1..]| ensures !InTriple(ops[1..][j].key) {
        assert ops[1..][j] == ops[j + 1];
      }
      if first.ok {
        QuietKeepsTriple(md5, first.store, ops[1..]);
      }
    }
  }

  /** When signing fails or returns an empty artifact, no Release and no signature changes, though indexes may have
      been written before. */
  lemma {:induction false} FailedSigningLeavesTriple(w: World, objects: Objects, run: Run, calls: nat)
    requires Shaped(run) && Refused(SigningOf(run))
    ensures SameTriple(objects, After(w, objects, run, calls)) && !(run.Publish? && PlanOf(w, objects, run).completes)
  {
    RunInTwoParts(w, objects, run);
    AppendEmpty(Front(w, objects, run));
    QuietKeepsTriple(w.hasher.md5, Store(objects, calls), PlanOf(w, objects, run).ops);
  }

  // ---- what a refused signing has stored before

  /** Nothing the calls store is new: each finds its bytes there by digest, up to one that is denied. */
  predicate StoresNothing(md5: string -> string, objects: Objects, ops: seq<Op>)
    decreases |ops|
  {
    ops != [] ==>
      match ops[0]
      case Delete(key) => key !in objects && StoresNothing(md5, objects, ops[1..])
      case Put(key, data, mode) =>
        && key in objects
        && if md5(objects[key]) == md5(data) then StoresNothing(md5, objects, ops[1..]) else mode != Overwrite
  }

  lemma {:induction false} NothingStored(md5: string -> string, store: Store, ops: seq<Op>)
    requires StoresNothing(md5, store.objects, ops)
    ensures Exec(md5, store, ops).store.objects == store.objects
    decreases |ops|
  {
    if ops != [] && Step(md5, store, ops[0]).ok {
      assert ops[0].Delete? ==> store.objects - {ops[0].key} == store.objects;
      NothingStored(md5, Step(md5, store, ops[0]).store, ops[1..]);
    }
  }

  /** The number of calls after which the store differs. */
  lemma {:induction false} SomethingStored(md5: string -> string, objects: Objects, ops: seq<Op>) returns (calls: nat)
    requires !StoresNothing(md5, objects, ops)
    ensures Exec(md5, Store(objects, calls), ops).store.objects != objects
    decreases |ops|
  {
    var op := ops[0];
    if (if op.Delete? then op.key !in objects else op.key in objects && md5(objects[op.key]) == md5(op.data)) {
      assert op.Delete? ==> objects - {op.key} == objects;
      var rest := SomethingStored(md5, objects, ops[1..]);
      calls := rest + 1;
      assert Step(md5, Store(objects, calls), op) == Attempt(Store(objects, rest), true);
    } else {
      calls := 1;
      FirstCallStores(md5, objects, ops);
    }
  }

  lemma {:induction false} FirstCallStores(md5: string -> string, objects: Objects, ops: seq<Op>)
    requires ops != []
    requires match ops[0]
             case Delete(key) => key in objects
             case Put(key, data, mode) => key !in objects || (md5(objects[key]) != md5(data) && mode == Overwrite)
    ensures Exec(md5, Store(objects, 1), ops).store.objects != objects
  {
    var first := Step(md5, Store(objects, 1), ops[0]);
    assert first.ok && first.store.budget == 0;
    if ops[0].Delete? {
      assert ops[0].key !in first.store.objects;
    } else {
      assert first.store.objects[ops[0].key] == ops[0].data;
    }
    NoBudget(md5, first.store, ops[1..]);
  }

  lemma {:induction false} NoBudget(md5: string -> string, store: Store, ops: seq<Op>)
    requires store.budget == 0
    ensures Exec(md5, store, ops).store == store
  {}

  lemma {:induction false} RefusedCalls(w: World, objects: Objects, run: Run)
    requires Shaped(run) && Refused(SigningOf(run))
    ensures PlanOf(w, objects, run).ops == Front(w, objects, run)
  {
    RunInTwoParts(w, objects, run);
    AppendEmpty(Front(w, objects, run));
  }

  /** A run whose signing is refused leaves the store alone, wherever it stops, exactly when its indexes and bodies
      are there already: up to a call that is denied, each finds its key with the digest of what it would store. */
  lemma {:induction false} FailedSigningPublishesNothing(w: World, objects: Objects, run: Run)
    requires Shaped(run) && Refused(SigningOf(run))
    ensures (forall calls: nat :: After(w, objects, run, calls) == objects)
            <==> StoresNothing(w.hasher.md5, objects, Front(w, objects, run))
  {
    RefusedCalls(w, objects, run);
    var ops := PlanOf(w, objects, run).ops;
    if StoresNothing(w.hasher.md5, objects, ops) {
      forall calls: nat ensures After(w, objects, run, calls) == objects {
        NothingStored(w.hasher.md5, Store(objects, calls), ops);
      }
    } else {
      var calls := SomethingStored(w.hasher.md5, objects, ops);
      assert After(w, objects, run, calls) != objects;
    }
  }

  /** Signing anew with nothing to backfill never stores anything when the signing is refused. */
  lemma {:induction false} FailedResignPublishesNothing(w: World, objects: Objects, run: Run, calls: nat)
    requires run.Resign? && Refused(run.signing) && Missing(Retrieved(w, objects, run.options)) == []
    ensures After(w, objects, run, calls) == objects
  {
    FailedSigningPublishesNothing(w, objects, run);
  }

  lemma {:induction false} FirstSuitePrepared(w: World, codename: string, r: ReleaseData, suite: Suite, p: Prepared)
    requires r.components == [] && r.architectures == [] && Build(w, codename, suite) == Ok(p)
    ensures PreparedFor(w, codename, r, [suite]) == Ok([p])
  {
    var recorded := Record(w, r, p);
    assert [suite][1..] == [] && [p][1..] == [];
    assert BuildAll(w, codename, []) == Ok([]);
    AppendEmpty([p]);
    assert BuildAll(w, codename, [suite]) == Ok([p]);
    assert RecordAll(w, r, [p]) == recorded;
    RecordGrows(w, r, p);
    assert recorded.components == [p.component] && recorded.architectures == [p.architecture];
    MissingNothing(recorded);
  }

  lemma {:induction false} FirstSuiteCalls(w: World, codename: string, p: Prepared)
    requires !p.byHash
    ensures var ops := [] + (AllByHashOps(w, codename, [p]) + AllCanonicalOps(codename, [p]));
            ops != [] && ops[0] == Put(Index(codename, p.component, p.architecture, false), p.plain, Overwrite)
  {
    assert [p][1..] == [];
  }

  /** The first publish of a suite stores its index although the signing is refused. */
  lemma {:induction false} FailedSigningCanPublish(w: World, codename: string, signing: Signing, date: string)
    requires Lawful(w) && Refused(signing)
    ensures var options := ReleaseOptions(codename, None, None, None);
            var run := Publish(options, [], [Suite("main", "amd64", false, [])], signing, date);
            var index := Index(codename, "main", "amd64", false);
            Shaped(run) && index in After(w, map[], run, 1)
  {
    var options := ReleaseOptions(codename, None, None, None);
    var suite := Suite("main", "amd64", false, []);
    var run := Publish(options, [], [suite], signing, date);
    assert AllGood(w, [], codename);
    var p := Build(w, codename, suite).value;
    FirstSuitePrepared(w, codename, Retrieved(w, map[], options), suite, p);
    RefusedCalls(w, map[], run);
    var ops := Front(w, map[], run);
    FirstSuiteCalls(w, codename, p);
    NoBudget(w.hasher.md5, Step(w.hasher.md5, Store(map[], 1), ops[0]).store, ops[1..]);
  }

  /** The object has the digest of the data. */
  predicate Carries(md5: string -> string, objects: Objects, key: Key, data: string) {
    key in objects && md5(objects[key]) == md5(data)
  }

  lemma {:induction false} SignedTripleInOrder(
      md5: string -> string, store: Store, c: string, text: string, signing: Signing)
    requires signing.Signed? && !Refused(signing)
    ensures var o, o' := store.objects, Exec(md5, store, TripleOps(c, text, signing)).store.objects;
            !SameAt(o, o', InRelease(c)) ==>
              && Carries(md5, o', ReleaseFile(c), text) && Carries(md5, o', Detached(c), signing.detached)
              && InRelease(c) in o' && o'[InRelease(c)] == signing.inRelease
  {
    var ops := TripleOps(c, text, signing);
    var first := Step(md5, store, ops[0]);
    ExecThree(md5, store, ops[0], ops[1], ops[2]);
    ExecTwo(md5, first.store, ops[1], ops[2]);
  }

  predicate SameAt(o: Objects, o': Objects, key: Key) {
    (key in o <==> key in o') && (key in o ==> o'[key] == o[key])
  }

  /** InRelease changes only when the run's own Release and detached signature are stored already. */
  lemma {:induction false} InReleaseComesLast(w: World, objects: Objects, run: Run, calls: nat)
    requires Shaped(run) && SigningOf(run).Signed? && !Refused(SigningOf(run))
    ensures var o', text, c := After(w, objects, run, calls), NewRelease(w, objects, run), CodenameOf(run);
            !SameAt(objects, o', InRelease(c)) ==>
              && text.Some?
              && Carries(w.hasher.md5, o', ReleaseFile(c), text.value)
              && Carries(w.hasher.md5, o', Detached(c), SigningOf(run).detached)
              && InRelease(c) in o' && o'[InRelease(c)] == SigningOf(run).inRelease
  {
    var front, text, c := Front(w, objects, run), NewRelease(w, objects, run), CodenameOf(run);
    var store := Store(objects, calls);
    var middle := Exec(w.hasher.md5, store, front);
    RunInTwoParts(w, objects, run);
    QuietKeepsTriple(w.hasher.md5, store, front);
    AppendEmpty(front);
    if text.Some? {
      ExecAppend(w.hasher.md5, store, front, TripleOps(c, text.value, SigningOf(run)));
      SignedTripleInOrder(w.hasher.md5, middle.store, c, text.value, SigningOf(run));
    }
  }
}
