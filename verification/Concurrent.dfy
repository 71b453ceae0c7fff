/** Any number of publishers without a lock, interleaved call by call on a store whose `Put` is a Head followed by a
    conditional write, each free to stop anywhere; cleans that remove bodies meanwhile; and clients that hold an old
    Release. */
module Concurrent {
  import opened Text
  import opened Digests
  import opened R = Release
  import opened Keys
  import opened Calls
  import opened Worlds = World
  import opened Publication

  // ---- the transition system

  /** What a Head saw: nothing yet, no object, or an object. */
  datatype Seen = Unseen | Absent | Present(body: string)

  datatype Publisher = Idle | Busy(codename: string, text: string, todo: seq<Op>, seen: Seen)

  /** `served` remembers every text a client may have read: each Release ever stored, and the payload of each
      InRelease ever stored, with its codename. */
  datatype State = State(objects: Objects, publishers: seq<Publisher>, served: set<(string, string)>)

  /** What a client learns when an object is stored. */
  function Announced(w: World, key: Key, data: string): set<(string, string)> {
    match key
    case ReleaseFile(c) => {(c, data)}
    case InRelease(c) => {(c, w.payload(data))}
    case _ => {}
  }

  /** What a publisher is asked to do: publish manifests, of which only an upload has bodies to store, or to publish
      just the Release, as `verify` does to sign it anew. */
  datatype Job = Job(
    options: ReleaseOptions, bodies: seq<Op>, suites: seq<Suite>, signing: Signing, date: string, releaseOnly: bool)

  /** The calls the job comes to. */
  function CallsOf(w: World, objects: Objects, job: Job): seq<Op> {
    var r, c := Retrieved(w, objects, job.options), job.options.codename;
    if job.releaseOnly then ReleasePlan(w, c, r, job.signing, job.date).ops
    else UploadPlan(w, c, r, job.bodies, job.suites, job.signing, job.date).ops
  }

  /** A job the by-hash guarantee is about: by-hash on, proper suite names, sizes within 64 bits, one-line fields, and
      a signer whose InRelease carries the text it was given. */
  ghost predicate Sound(w: World, objects: Objects, job: Job) {
    var r := Retrieved(w, objects, job.options);
    var c := job.options.codename;
    var prepared := PreparedFor(w, c, r, job.suites);
    && Plain(c) && Plain(job.date) && Plain(job.options.origin.GetOr("")) && Plain(job.options.suite.GetOr(""))
    && Bodies(job.bodies) && r.byHash && (forall i :: 0 <= i < |job.suites| ==> job.suites[i].byHash)
    && prepared.Ok? && AllFit(prepared.value)
    && (job.releaseOnly ==> job.bodies == [] && job.suites == [])
    && (job.signing.Signed? ==>
          w.payload(job.signing.inRelease) == w.printRelease(FinalRelease(w, c, r, job.suites), job.date))
  }

  /** A publisher reads the Release, prepares everything in memory and is about to make its first call. */
  ghost predicate Start(w: World, s: State, s': State, i: nat, job: Job) {
    var r := Retrieved(w, s.objects, job.options);
    var c := job.options.codename;
    && i < |s.publishers| && s.publishers[i].Idle? && Sound(w, s.objects, job)
    && s' == s.(publishers := s.publishers[i := Busy(
         c, w.printRelease(FinalRelease(w, c, r, job.suites), job.date), CallsOf(w, s.objects, job), Unseen)])
  }

  /** The Head of a `Put`. */
  ghost predicate Look(s: State, s': State, i: nat) {
    && i < |s.publishers| && s.publishers[i].Busy? && s.publishers[i].todo != [] && s.publishers[i].todo[0].Put?
    && var key := s.publishers[i].todo[0].key;
    s' == s.(publishers := s.publishers[i := s.publishers[i].(
       seen := if key in s.objects then Present(s.objects[key]) else Absent)])
  }

  /** The write of a `Put` after its Head: skipped on equal digests, refused, or conditional on absence. */
  datatype Written = Skipped | Denied | Stored

  function WriteOutcome(md5: string -> string, objects: Objects, op: Op, seen: Seen): Written
    requires op.Put? && !seen.Unseen?
  {
    if seen.Present? && md5(seen.body) == md5(op.data) then Skipped
    else if seen.Present? && op.mode != Overwrite then Denied
    else if (op.mode.CreateOnly? || (op.mode.FailIfExists? && seen.Absent?)) && op.key in objects then Denied
    else Stored
  }

  function Popped(p: Publisher): Publisher
    requires p.Busy? && p.todo != []
  {
    Busy(p.codename, p.text, p.todo[1..], Unseen)
  }

  ghost predicate Write(w: World, s: State, s': State, i: nat) {
    && i < |s.publishers| && s.publishers[i].Busy? && s.publishers[i].todo != [] && s.publishers[i].todo[0].Put?
    && !s.publishers[i].seen.Unseen?
    && var p := s.publishers[i];
    var op := p.todo[0];
    match WriteOutcome(w.hasher.md5, s.objects, op, p.seen)
    case Skipped => s' == s.(publishers := s.publishers[i := Popped(p)])
    case Denied => s' == s.(publishers := s.publishers[i := Idle])
    case Stored => s' == State(s.objects[op.key := op.data], s.publishers[i := Popped(p)],
                               s.served + Announced(w, op.key, op.data))
  }

  ghost predicate Remove(s: State, s': State, i: nat) {
    && i < |s.publishers| && s.publishers[i].Busy? && s.publishers[i].todo != [] && s.publishers[i].todo[0].Delete?
    && s' == s.(objects := s.objects - {s.publishers[i].todo[0].key},
                publishers := s.publishers[i := Popped(s.publishers[i])])
  }

  /** A publisher ends, fails or is killed, at any point. */
  ghost predicate Stop(s: State, s': State, i: nat) {
    i < |s.publishers| && s' == s.(publishers := s.publishers[i := Idle])
  }

  /** One step of publisher `i`. */
  ghost predicate StepBy(w: World, s: State, s': State, i: nat) {
    (exists job :: Start(w, s, s', i, job)) || Look(s, s', i) || Write(w, s, s', i) || Remove(s, s', i)
        || Stop(s, s', i)
  }

  /** A clean removes a package body. */
  ghost predicate Lost(s: State, s': State, path: string) {
    s' == s.(objects := s.objects - {Pool(path)})
  }

  ghost predicate Next(w: World, s: State, s': State) {
    (exists i: nat :: StepBy(w, s, s', i)) || (exists path :: Lost(s, s', path))
  }

  // ---- the invariant

  /** The by-hash object of an entry is there with the bytes its digest names. */
  ghost predicate Fetchable(
      w: World, objects: Objects, codename: string, component: string, a: string, hashes: FileHashes) {
    var key := ByHash(codename, component, a, hashes.sha256);
    key in objects && w.hasher.sha256(objects[key]) == hashes.sha256
  }

  ghost predicate Covered(w: World, objects: Objects, codename: string, files: map<string, FileHashes>) {
    forall component, a, gz :: SuiteName(component, a) && EntryName(component, a, gz) in files ==>
      Fetchable(w, objects, codename, component, a, files[EntryName(component, a, gz)])
  }

  /** A call that will store the entry's by-hash object. */
  ghost predicate Pending(w: World, todo: seq<Op>, codename: string, component: string, a: string, hashes: FileHashes) {
    exists j :: 0 <= j < |todo| && todo[j].Put? && todo[j].key == ByHash(codename, component, a, hashes.sha256)
  }

  ghost predicate CoveredOrPending(
      w: World, objects: Objects, todo: seq<Op>, codename: string, files: map<string, FileHashes>) {
    forall component, a, gz :: SuiteName(component, a) && EntryName(component, a, gz) in files ==>
      var hashes := files[EntryName(component, a, gz)];
      Fetchable(w, objects, codename, component, a, hashes) || Pending(w, todo, codename, component, a, hashes)
  }

  /** By-hash objects are created only, under the digest of their bytes; nothing deletes them; the Release and
      InRelease stored are those of the publisher's text. */
  ghost predicate FitsPublisher(w: World, codename: string, text: string, op: Op) {
    match op
    case Delete(key) => !key.ByHash?
    case Put(key, data, mode) =>
      && (key.ByHash? ==> mode.CreateOnly? && key.sha256 == w.hasher.sha256(data))
      && (forall served :: served in Announced(w, key, data) ==> served == (codename, text))
  }

  /** The objects clients start from. */
  predicate Serves(key: Key) {
    key.ReleaseFile? || key.InRelease?
  }

  /** No by-hash call comes after one that serves a new text. */
  predicate HashedFirst(todo: seq<Op>) {
    forall i, j :: 0 <= i < j < |todo| && todo[j].key.ByHash? ==> !Serves(todo[i].key)
  }

  ghost predicate PublisherOk(w: World, objects: Objects, p: Publisher) {
    p.Busy? ==>
      && Sane(w.parseRelease(p.text), "")
      && (forall j :: 0 <= j < |p.todo| ==> FitsPublisher(w, p.codename, p.text, p.todo[j]))
      && HashedFirst(p.todo)
      && CoveredOrPending(w, objects, p.todo, p.codename, w.parseRelease(p.text).files)
      && (p.seen.Present? && p.todo != [] && p.todo[0].key.ByHash? ==> p.todo[0].key in objects)
  }

  ghost predicate DigestsMatch(w: World, objects: Objects) {
    forall key :: key in objects && key.ByHash? ==> w.hasher.sha256(objects[key]) == key.sha256
  }

  ghost predicate Inv(w: World, s: State) {
    && DigestsMatch(w, s.objects)
    && (forall c, text :: (c, text) in s.served ==>
          Sane(w.parseRelease(text), "") && Covered(w, s.objects, c, w.parseRelease(text).files))
    && (forall key :: key in s.objects ==> Announced(w, key, s.objects[key]) <= s.served)
    && (forall i :: 0 <= i < |s.publishers| ==> PublisherOk(w, s.objects, s.publishers[i]))
  }

  /** By-hash objects stay, unchanged. */
  ghost predicate Grows(o: Objects, o': Objects) {
    forall key :: key in o && key.ByHash? ==> key in o' && o'[key] == o[key]
  }

  lemma {:induction false} GrowsKeepsCovered(
      w: World, o: Objects, o': Objects, codename: string, files: map<string, FileHashes>)
    requires Grows(o, o') && Covered(w, o, codename, files)
    ensures Covered(w, o', codename, files)
  {
    forall component, a, gz | SuiteName(component, a) && EntryName(component, a, gz) in files
      ensures Fetchable(w, o', codename, component, a, files[EntryName(component, a, gz)])
    {
      assert Fetchable(w, o, codename, component, a, files[EntryName(component, a, gz)]);
    }
  }

  lemma {:induction false} GrowsKeepsPublisher(w: World, o: Objects, o': Objects, p: Publisher)
    requires Grows(o, o') && PublisherOk(w, o, p)
    ensures PublisherOk(w, o', p)
  {
    if p.Busy? {
      var files := w.parseRelease(p.text).files;
      forall component, a, gz | SuiteName(component, a) && EntryName(component, a, gz) in files
        ensures var hashes := files[EntryName(component, a, gz)];
                Fetchable(w, o', p.codename, component, a, hashes)
                    || Pending(w, p.todo, p.codename, component, a, hashes)
      {
        var hashes := files[EntryName(component, a, gz)];
        assert Fetchable(w, o, p.codename, component, a, hashes)
            || Pending(w, p.todo, p.codename, component, a, hashes);
      }
    }
  }

  lemma {:induction false} GrowsKeepsInv(w: World, s: State, o': Objects)
    requires Inv(w, s) && Grows(s.objects, o')
    ensures forall c, text :: (c, text) in s.served ==>
              Sane(w.parseRelease(text), "") && Covered(w, o', c, w.parseRelease(text).files)
    ensures forall i :: 0 <= i < |s.publishers| ==> PublisherOk(w, o', s.publishers[i])
  {
    forall c, text | (c, text) in s.served ensures Covered(w, o', c, w.parseRelease(text).files) {
      GrowsKeepsCovered(w, s.objects, o', c, w.parseRelease(text).files);
    }
    forall i | 0 <= i < |s.publishers| ensures PublisherOk(w, o', s.publishers[i]) {
      GrowsKeepsPublisher(w, s.objects, o', s.publishers[i]);
    }
  }

  // ---- every step keeps it

  /** After its first call a publisher is still in order, when the by-hash object of that call is there. */
  lemma {:induction false} PoppedOk(w: World, objects: Objects, p: Publisher)
    requires p.Busy? && p.todo != [] && PublisherOk(w, objects, p) && DigestsMatch(w, objects)
    requires p.todo[0].Put? && p.todo[0].key.ByHash? ==> p.todo[0].key in objects
    ensures PublisherOk(w, objects, Popped(p))
  {
    var files, rest := w.parseRelease(p.text).files, p.todo[1..];
    forall component, a, gz | SuiteName(component, a) && EntryName(component, a, gz) in files
      ensures var hashes := files[EntryName(component, a, gz)];
              Fetchable(w, objects, p.codename, component, a, hashes)
                  || Pending(w, rest, p.codename, component, a, hashes)
    {
      var hashes := files[EntryName(component, a, gz)];
      if !Fetchable(w, objects, p.codename, component, a, hashes) {
        assert Pending(w, p.todo, p.codename, component, a, hashes);
        var j :| 0 <= j < |p.todo| && p.todo[j].Put?
            && p.todo[j].key == ByHash(p.codename, component, a, hashes.sha256);
        assert j > 0;
        assert rest[j - 1] == p.todo[j];
      }
    }
    forall j | 0 <= j < |rest| ensures FitsPublisher(w, p.codename, p.text, rest[j]) {
      assert rest[j] == p.todo[j + 1];
    }
    forall i, j | 0 <= i < j < |rest| && rest[j].key.ByHash? ensures !Serves(rest[i].key) {
      assert rest[i] == p.todo[i + 1] && rest[j] == p.todo[j + 1];
    }
  }

  lemma {:induction false} NothingPending(
      w: World, todo: seq<Op>, codename: string, component: string, a: string, hashes: FileHashes)
    requires todo != [] && Serves(todo[0].key) && HashedFirst(todo)
    ensures !Pending(w, todo, codename, component, a, hashes)
  {
    assert forall j :: 0 <= j < |todo| ==> !todo[j].key.ByHash?;
  }

  /** When a call that serves the text is next, everything listed is covered. */
  lemma {:induction false} CoveredWhenAnnouncing(w: World, objects: Objects, p: Publisher)
    requires p.Busy? && p.todo != [] && PublisherOk(w, objects, p) && Serves(p.todo[0].key)
    ensures Covered(w, objects, p.codename, w.parseRelease(p.text).files)
  {
    var files := w.parseRelease(p.text).files;
    forall component, a, gz | SuiteName(component, a) && EntryName(component, a, gz) in files
      ensures Fetchable(w, objects, p.codename, component, a, files[EntryName(component, a, gz)])
    {
      NothingPending(w, p.todo, p.codename, component, a, files[EntryName(component, a, gz)]);
    }
  }

  lemma {:induction false} LookKeepsInv(w: World, s: State, s': State, i: nat)
    requires Inv(w, s) && Look(s, s', i)
    ensures Inv(w, s')
  {}

  lemma {:induction false} StopKeepsInv(w: World, s: State, s': State, i: nat)
    requires Inv(w, s) && Stop(s, s', i)
    ensures Inv(w, s')
  {}

  lemma {:induction false} RemoveKeepsInv(w: World, s: State, s': State, i: nat)
    requires Inv(w, s) && Remove(s, s', i)
    ensures Inv(w, s') && Grows(s.objects, s'.objects)
  {
    var p := s.publishers[i];
    assert FitsPublisher(w, p.codename, p.text, p.todo[0]);
    GrowsKeepsInv(w, s, s'.objects);
    PoppedOk(w, s'.objects, p);
  }

  /** What a stored call does to the objects. */
  lemma {:induction false} StoredGrows(w: World, s: State, i: nat)
    requires Inv(w, s) && i < |s.publishers| && s.publishers[i].Busy? && s.publishers[i].todo != []
    requires s.publishers[i].todo[0].Put? && !s.publishers[i].seen.Unseen?
    requires WriteOutcome(w.hasher.md5, s.objects, s.publishers[i].todo[0], s.publishers[i].seen).Stored?
    ensures var op := s.publishers[i].todo[0]; var o' := s.objects[op.key := op.data];
            Grows(s.objects, o') && DigestsMatch(w, o')
  {
    var p := s.publishers[i];
    assert FitsPublisher(w, p.codename, p.text, p.todo[0]);
  }

  /** A text is served only when everything it lists is covered. */
  lemma {:induction false} AnnouncedCovered(w: World, objects: Objects, p: Publisher, c: string, text: string)
    requires p.Busy? && p.todo != [] && p.todo[0].Put? && PublisherOk(w, objects, p)
    requires (c, text) in Announced(w, p.todo[0].key, p.todo[0].data)
    ensures Sane(w.parseRelease(text), "") && Covered(w, objects, c, w.parseRelease(text).files)
  {
    assert FitsPublisher(w, p.codename, p.text, p.todo[0]);
    CoveredWhenAnnouncing(w, objects, p);
  }

  lemma {:induction false} StoredKeepsInv(w: World, s: State, s': State, i: nat)
    requires Inv(w, s) && Write(w, s, s', i)
    requires WriteOutcome(w.hasher.md5, s.objects, s.publishers[i].todo[0], s.publishers[i].seen).Stored?
    ensures Inv(w, s') && Grows(s.objects, s'.objects)
  {
    var p := s.publishers[i];
    var op := p.todo[0];
    StoredGrows(w, s, i);
    GrowsKeepsInv(w, s, s'.objects);
    PoppedOk(w, s'.objects, p);
    forall c, text | (c, text) in s'.served
      ensures Sane(w.parseRelease(text), "") && Covered(w, s'.objects, c, w.parseRelease(text).files)
    {
      if (c, text) !in s.served {
        AnnouncedCovered(w, s'.objects, p, c, text);
      }
    }
  }

  lemma {:induction false} WriteKeepsInv(w: World, s: State, s': State, i: nat)
    requires Inv(w, s) && Write(w, s, s', i)
    ensures Inv(w, s') && Grows(s.objects, s'.objects)
  {
    var p := s.publishers[i];
    match WriteOutcome(w.hasher.md5, s.objects, p.todo[0], p.seen) {
      case Skipped => PoppedOk(w, s.objects, p);
      case Denied =>
      case Stored => StoredKeepsInv(w, s, s', i);
    }
  }

  // ---- a publisher that starts is in order

  lemma {:induction false} OpsFit(w: World, codename: string, text: string, p: Prepared)
    ensures forall j :: 0 <= j < |ByHashOps(w, codename, p)| ==>
              FitsPublisher(w, codename, text, ByHashOps(w, codename, p)[j]) && ByHashOps(w, codename, p)[j].key.ByHash?
    ensures forall j :: 0 <= j < |CanonicalOps(codename, p)| ==>
              FitsPublisher(w, codename, text, CanonicalOps(codename, p)[j]) && CanonicalOps(codename, p)[j].key.Index?
  {}

  lemma {:induction false} AllByHashFit(w: World, codename: string, text: string, prepared: seq<Prepared>)
    ensures forall j :: 0 <= j < |AllByHashOps(w, codename, prepared)| ==>
              FitsPublisher(w, codename, text, AllByHashOps(w, codename, prepared)[j])
              && AllByHashOps(w, codename, prepared)[j].key.ByHash?
  {
    if prepared != [] {
      OpsFit(w, codename, text, prepared[0]);
      AllByHashFit(w, codename, text, prepared[1..]);
    }
  }

  lemma {:induction false} AllCanonicalFit(w: World, codename: string, text: string, prepared: seq<Prepared>)
    ensures forall j :: 0 <= j < |AllCanonicalOps(codename, prepared)| ==>
              FitsPublisher(w, codename, text, AllCanonicalOps(codename, prepared)[j])
              && AllCanonicalOps(codename, prepared)[j].key.Index?
  {
    if prepared != [] {
      OpsFit(w, codename, text, prepared[0]);
      AllCanonicalFit(w, codename, text, prepared[1..]);
    }
  }

  lemma {:induction false} TripleFits(w: World, codename: string, text: string, signing: Signing)
    requires signing.Signed? ==> w.payload(signing.inRelease) == text
    ensures forall j :: 0 <= j < |TripleOps(codename, text, signing)| ==>
              FitsPublisher(w, codename, text, TripleOps(codename, text, signing)[j])
              && !TripleOps(codename, text, signing)[j].key.ByHash?
  {}

  /** The calls of an upload in their three parts, each of them fitting, by-hash objects before the Release. */
  lemma {:induction false} PlanFits(
      w: World, codename: string, r: ReleaseData, bodies: seq<Op>, suites: seq<Suite>, signing: Signing, date: string)
    requires PreparedFor(w, codename, r, suites).Ok? && Bodies(bodies)
    requires var text := w.printRelease(FinalRelease(w, codename, r, suites), date);
             signing.Signed? ==> w.payload(signing.inRelease) == text
    ensures var text := w.printRelease(FinalRelease(w, codename, r, suites), date);
            var todo := UploadPlan(w, codename, r, bodies, suites, signing, date).ops;
            && (forall j :: 0 <= j < |todo| ==> FitsPublisher(w, codename, text, todo[j]))
            && HashedFirst(todo)
            && todo == bodies + (AllByHashOps(w, codename, PreparedFor(w, codename, r, suites).value)
                       + (AllCanonicalOps(codename, PreparedFor(w, codename, r, suites).value)
                           + TripleOps(codename, text, signing)))
  {
    var text := w.printRelease(FinalRelease(w, codename, r, suites), date);
    var prepared := PreparedFor(w, codename, r, suites).value;
    var hashed, canonical, triple :=
        AllByHashOps(w, codename, prepared), AllCanonicalOps(codename, prepared), TripleOps(codename, text, signing);
    BackfillIsFixedPoint(w, codename, r, suites, signing, date);
    AllByHashFit(w, codename, text, prepared);
    AllCanonicalFit(w, codename, text, prepared);
    TripleFits(w, codename, text, signing);
    Assoc(hashed, canonical, triple);
    PartsFit(w, codename, text, bodies, hashed, canonical, triple);
  }

  lemma {:induction false} PartsFit(
      w: World, codename: string, text: string, bodies: seq<Op>, hashed: seq<Op>, canonical: seq<Op>, triple: seq<Op>)
    requires Bodies(bodies)
    requires forall j :: 0 <= j < |hashed| ==> FitsPublisher(w, codename, text, hashed[j]) && hashed[j].key.ByHash?
    requires forall j :: 0 <= j < |canonical| ==>
            FitsPublisher(w, codename, text, canonical[j]) && canonical[j].key.Index?
    requires forall j :: 0 <= j < |triple| ==> FitsPublisher(w, codename, text, triple[j]) && !triple[j].key.ByHash?
    ensures var todo := bodies + (hashed + (canonical + triple));
            (forall j :: 0 <= j < |todo| ==> FitsPublisher(w, codename, text, todo[j])) && HashedFirst(todo)
  {
    var todo := bodies + (hashed + (canonical + triple));
    var a, b, c := |bodies|, |bodies| + |hashed|, |bodies| + |hashed| + |canonical|;
    forall j | 0 <= j < |todo|
      ensures FitsPublisher(w, codename, text, todo[j]) && (j < c ==> !Serves(todo[j].key))
      ensures (b <= j ==> !todo[j].key.ByHash?)
    {
      if j < a {
        assert todo[j] == bodies[j];
      } else if j < b {
        assert todo[j] == hashed[j - a];
      } else if j < c {
        assert todo[j] == canonical[j - b];
      } else {
        assert todo[j] == triple[j - c];
      }
    }
  }

  /** Every recorded artifact has its by-hash call. */
  ghost predicate AllPending(w: World, todo: seq<Op>, codename: string, prepared: seq<Prepared>) {
    forall i, gz :: 0 <= i < |prepared| ==>
      Pending(w, todo, codename, prepared[i].component, prepared[i].architecture,
          HashesOf(w.hasher, Body(prepared[i], gz)))
  }

  lemma {:induction false} OwnCall(w: World, codename: string, p: Prepared, gz: bool)
    requires p.byHash
    ensures Pending(w, ByHashOps(w, codename, p), codename, p.component, p.architecture,
            HashesOf(w.hasher, Body(p, gz)))
  {
    var todo, k := ByHashOps(w, codename, p), if gz then 1 else 0;
    assert todo[k].Put?
        && todo[k].key == ByHash(codename, p.component, p.architecture, HashesOf(w.hasher, Body(p, gz)).sha256);
  }

  lemma {:induction false} ByHashCallOf(w: World, codename: string, prepared: seq<Prepared>, i: nat, gz: bool)
    requires i < |prepared| && prepared[i].byHash
    ensures Pending(w, AllByHashOps(w, codename, prepared), codename, prepared[i].component, prepared[i].architecture,
                    HashesOf(w.hasher, Body(prepared[i], gz)))
  {
    var p, hashes := prepared[i], HashesOf(w.hasher, Body(prepared[i], gz));
    var first, rest := ByHashOps(w, codename, prepared[0]), AllByHashOps(w, codename, prepared[1..]);
    if i == 0 {
      OwnCall(w, codename, p, gz);
      PendingInFront(w, first, rest, codename, p.component, p.architecture, hashes);
    } else {
      ByHashCallOf(w, codename, prepared[1..], i - 1, gz);
      PendingBehind(w, first, rest, codename, p.component, p.architecture, hashes);
    }
  }

  lemma {:induction false} EachCallOf(w: World, codename: string, prepared: seq<Prepared>, i: nat, gz: bool)
    requires i < |prepared| && prepared[i].byHash
    ensures Pending(w, EachOps(w, codename, prepared), codename, prepared[i].component, prepared[i].architecture,
                    HashesOf(w.hasher, Body(prepared[i], gz)))
  {
    var p, hashes := prepared[i], HashesOf(w.hasher, Body(prepared[i], gz));
    var hashed, canonical, rest :=
        ByHashOps(w, codename, prepared[0]), CanonicalOps(codename, prepared[0]), EachOps(w, codename, prepared[1..]);
    if i == 0 {
      OwnCall(w, codename, p, gz);
      PendingInFront(w, hashed, canonical, codename, p.component, p.architecture, hashes);
      PendingInFront(w, hashed + canonical, rest, codename, p.component, p.architecture, hashes);
    } else {
      EachCallOf(w, codename, prepared[1..], i - 1, gz);
      PendingBehind(w, hashed + canonical, rest, codename, p.component, p.architecture, hashes);
    }
  }

  lemma {:induction false} UploadPending(
      w: World, codename: string, prepared: seq<Prepared>, bodies: seq<Op>, rest: seq<Op>)
    requires forall i :: 0 <= i < |prepared| ==> prepared[i].byHash
    ensures AllPending(w, bodies + (AllByHashOps(w, codename, prepared) + rest), codename, prepared)
  {
    var hashed := AllByHashOps(w, codename, prepared);
    forall i, gz | 0 <= i < |prepared|
      ensures Pending(w, bodies + (hashed + rest), codename, prepared[i].component, prepared[i].architecture,
                      HashesOf(w.hasher, Body(prepared[i], gz)))
    {
      var p, hashes := prepared[i], HashesOf(w.hasher, Body(prepared[i], gz));
      ByHashCallOf(w, codename, prepared, i, gz);
      PendingInFront(w, hashed, rest, codename, p.component, p.architecture, hashes);
      PendingBehind(w, bodies, hashed + rest, codename, p.component, p.architecture, hashes);
    }
  }

  lemma {:induction false} EachPending(w: World, codename: string, prepared: seq<Prepared>, rest: seq<Op>)
    requires forall i :: 0 <= i < |prepared| ==> prepared[i].byHash
    ensures AllPending(w, EachOps(w, codename, prepared) + rest, codename, prepared)
  {
    forall i, gz | 0 <= i < |prepared|
      ensures Pending(w, EachOps(w, codename, prepared) + rest, codename, prepared[i].component,
              prepared[i].architecture,
                      HashesOf(w.hasher, Body(prepared[i], gz)))
    {
      var p, hashes := prepared[i], HashesOf(w.hasher, Body(prepared[i], gz));
      EachCallOf(w, codename, prepared, i, gz);
      PendingInFront(w, EachOps(w, codename, prepared), rest, codename, p.component, p.architecture, hashes);
    }
  }

  lemma {:induction false} EachFit(w: World, codename: string, text: string, prepared: seq<Prepared>)
    ensures forall j :: 0 <= j < |EachOps(w, codename, prepared)| ==>
              FitsPublisher(w, codename, text, EachOps(w, codename, prepared)[j])
              && !Serves(EachOps(w, codename, prepared)[j].key)
  {
    if prepared != [] {
      OpsFit(w, codename, text, prepared[0]);
      EachFit(w, codename, text, prepared[1..]);
    }
  }

  lemma {:induction false} TwoPartsFit(w: World, codename: string, text: string, front: seq<Op>, triple: seq<Op>)
    requires forall j :: 0 <= j < |front| ==> FitsPublisher(w, codename, text, front[j]) && !Serves(front[j].key)
    requires forall j :: 0 <= j < |triple| ==> FitsPublisher(w, codename, text, triple[j]) && !triple[j].key.ByHash?
    ensures (forall j :: 0 <= j < |front + triple| ==> FitsPublisher(w, codename, text, (front + triple)[j]))
    ensures HashedFirst(front + triple)
  {}

  /** A publish without manifests prepares just what is missing. */
  lemma {:induction false} PreparedMissing(w: World, codename: string, r: ReleaseData)
    requires PreparedFor(w, codename, r, []).Ok?
    ensures BuildAll(w, codename, Missing(r)) == PreparedFor(w, codename, r, [])
  {
    var more := BuildAll(w, codename, Missing(r));
    assert RecordAll(w, r, []) == r;
    AppendEmpty(more.value);
  }

  /** The same for the calls of `Release.Publish` alone. */
  lemma {:induction false} ReleasePlanFits(w: World, codename: string, r: ReleaseData, signing: Signing, date: string)
    requires PreparedFor(w, codename, r, []).Ok?
    requires var text := w.printRelease(FinalRelease(w, codename, r, []), date);
             signing.Signed? ==> w.payload(signing.inRelease) == text
    ensures var text := w.printRelease(FinalRelease(w, codename, r, []), date);
            var todo := ReleasePlan(w, codename, r, signing, date).ops;
            && (forall j :: 0 <= j < |todo| ==> FitsPublisher(w, codename, text, todo[j]))
            && HashedFirst(todo)
            && todo == EachOps(w, codename, PreparedFor(w, codename, r, []).value) + TripleOps(codename, text, signing)
  {
    PreparedMissing(w, codename, r);
    var prepared, text := PreparedFor(w, codename, r, []).value, w.printRelease(FinalRelease(w, codename, r, []), date);
    EachFit(w, codename, text, prepared);
    TripleFits(w, codename, text, signing);
    TwoPartsFit(w, codename, text, EachOps(w, codename, prepared), TripleOps(codename, text, signing));
  }

  lemma {:induction false} PendingBehind(
      w: World, a: seq<Op>, b: seq<Op>, codename: string, component: string, arch: string, hashes: FileHashes)
    requires Pending(w, b, codename, component, arch, hashes)
    ensures Pending(w, a + b, codename, component, arch, hashes)
  {
    var j :| 0 <= j < |b| && b[j].Put? && b[j].key == ByHash(codename, component, arch, hashes.sha256);
    assert (a + b)[|a| + j] == b[j];
  }

  lemma {:induction false} PendingInFront(
      w: World, a: seq<Op>, b: seq<Op>, codename: string, component: string, arch: string, hashes: FileHashes)
    requires Pending(w, a, codename, component, arch, hashes)
    ensures Pending(w, a + b, codename, component, arch, hashes)
  {
    var j :| 0 <= j < |a| && a[j].Put? && a[j].key == ByHash(codename, component, arch, hashes.sha256);
    assert (a + b)[j] == a[j];
  }

  lemma {:induction false} RecordKeepsFlag(w: World, r: ReleaseData, prepared: seq<Prepared>)
    ensures RecordAll(w, r, prepared).byHash == r.byHash
    decreases |prepared|
  {
    if prepared != [] {
      RecordKeepsFlag(w, Record(w, r, prepared[0]), prepared[1..]);
    }
  }

  lemma {:induction false} PreparedByHash(w: World, codename: string, r: ReleaseData, suites: seq<Suite>)
    requires PreparedFor(w, codename, r, suites).Ok? && r.byHash && forall i :: 0 <= i < |suites| ==> suites[i].byHash
    ensures var prepared := PreparedFor(w, codename, r, suites).value; forall i :: 0 <= i < |prepared| ==>
            prepared[i].byHash
  {
    var changed := BuildAll(w, codename, suites).value;
    var middle := RecordAll(w, r, changed);
    BuildKeepsNames(w, codename, suites);
    RecordKeepsFlag(w, r, changed);
    MissingInExactly(middle, middle.components);
    BuildKeepsNames(w, codename, Missing(middle));
    forall i | 0 <= i < |Missing(middle)| ensures Missing(middle)[i].byHash {
      assert Missing(middle)[i] in Missing(middle);
    }
  }

  lemma {:induction false} RetrievedSane(w: World, s: State, options: ReleaseOptions, date: string)
    requires Inv(w, s) && Plain(options.codename) && Plain(date) && Plain(options.origin.GetOr(""))
    requires Plain(options.suite.GetOr(""))
    ensures var r := Retrieved(w, s.objects, options);
            Sane(r, date) && Covered(w, s.objects, options.codename, r.files)
  {
    var c := options.codename;
    if ReleaseFile(c) in s.objects {
      var text := s.objects[ReleaseFile(c)];
      assert (c, text) in Announced(w, ReleaseFile(c), text);
      assert (c, text) in s.served;
    }
  }

  lemma {:induction false} EntriesCoveredOrPending(
      w: World, objects: Objects, codename: string, r: ReleaseData, prepared: seq<Prepared>, todo: seq<Op>)
    requires AllFit(prepared) && AllPending(w, todo, codename, prepared)
    requires Covered(w, objects, codename, r.files)
    ensures CoveredOrPending(w, objects, todo, codename, RecordAll(w, r, prepared).files)
  {
    var files := RecordAll(w, r, prepared).files;
    forall component, a, gz | SuiteName(component, a) && EntryName(component, a, gz) in files
      ensures var hashes := files[EntryName(component, a, gz)];
              Fetchable(w, objects, codename, component, a, hashes) || Pending(w, todo, codename, component, a, hashes)
    {
      var f := EntryName(component, a, gz);
      RecordedEntry(w, r, prepared, f);
      if !(f in r.files && r.files[f] == files[f]) {
        var i :| 0 <= i < |prepared| && f in Entries(w, prepared[i]) && Entries(w, prepared[i])[f] == files[f];
        EntryIn(w, prepared[i], component, a, gz);
        assert Pending(w, todo, codename, prepared[i].component, prepared[i].architecture,
            HashesOf(w.hasher, Body(prepared[i], gz)));
      }
    }
  }

  lemma {:induction false} SaneAnyDate(r: ReleaseData, date: string)
    requires Sane(r, date)
    ensures Sane(r.(suite := Some(r.suite.GetOr(""))), "")
  {}

  lemma {:induction false} CallsFit(w: World, objects: Objects, job: Job)
    requires Sound(w, objects, job)
    ensures var r, c := Retrieved(w, objects, job.options), job.options.codename;
            var text, todo := w.printRelease(FinalRelease(w, c, r, job.suites), job.date), CallsOf(w, objects, job);
            && (forall j :: 0 <= j < |todo| ==> FitsPublisher(w, c, text, todo[j]))
            && HashedFirst(todo)
            && AllPending(w, todo, c, PreparedFor(w, c, r, job.suites).value)
  {
    var r, c := Retrieved(w, objects, job.options), job.options.codename;
    var prepared, text :=
        PreparedFor(w, c, r, job.suites).value, w.printRelease(FinalRelease(w, c, r, job.suites), job.date);
    PreparedByHash(w, c, r, job.suites);
    if job.releaseOnly {
      ReleasePlanFits(w, c, r, job.signing, job.date);
      EachPending(w, c, prepared, TripleOps(c, text, job.signing));
    } else {
      PlanFits(w, c, r, job.bodies, job.suites, job.signing, job.date);
      UploadPending(w, c, prepared, job.bodies, AllCanonicalOps(c, prepared) + TripleOps(c, text, job.signing));
    }
  }

  lemma {:induction false} StarterOk(w: World, s: State, job: Job)
    requires Lawful(w) && Inv(w, s) && Sound(w, s.objects, job)
    ensures var r, c := Retrieved(w, s.objects, job.options), job.options.codename;
            PublisherOk(w, s.objects, Busy(c, w.printRelease(FinalRelease(w, c, r, job.suites), job.date),
                                           CallsOf(w, s.objects, job), Unseen))
  {
    var r, c := Retrieved(w, s.objects, job.options), job.options.codename;
    var prepared, final := PreparedFor(w, c, r, job.suites).value, FinalRelease(w, c, r, job.suites);
    var text := w.printRelease(final, job.date);
    RetrievedSane(w, s, job.options, job.date);
    RecordAllSane(w, r, prepared, job.date);
    SaneAnyDate(final, job.date);
    assert w.parseRelease(text) == final.(suite := Some(final.suite.GetOr("")));
    CallsFit(w, s.objects, job);
    EntriesCoveredOrPending(w, s.objects, c, r, prepared, CallsOf(w, s.objects, job));
  }

  lemma {:induction false} StartKeepsInv(w: World, s: State, s': State, i: nat, job: Job)
    requires Lawful(w) && Inv(w, s) && Start(w, s, s', i, job)
    ensures Inv(w, s')
  {
    StarterOk(w, s, job);
  }

  lemma {:induction false} LostKeepsInv(w: World, s: State, s': State, path: string)
    requires Inv(w, s) && Lost(s, s', path)
    ensures Inv(w, s') && Grows(s.objects, s'.objects)
  {
    GrowsKeepsInv(w, s, s'.objects);
  }

  lemma {:induction false} StepKeepsInv(w: World, s: State, s': State, i: nat)
    requires Lawful(w) && Inv(w, s) && StepBy(w, s, s', i)
    ensures Inv(w, s') && Grows(s.objects, s'.objects) && s.served <= s'.served
  {
    if exists job :: Start(w, s, s', i, job) {
      var job :| Start(w, s, s', i, job);
      StartKeepsInv(w, s, s', i, job);
    } else if Look(s, s', i) {
      LookKeepsInv(w, s, s', i);
    } else if Write(w, s, s', i) {
      WriteKeepsInv(w, s, s', i);
    } else if Remove(s, s', i) {
      RemoveKeepsInv(w, s, s', i);
    } else {
      StopKeepsInv(w, s, s', i);
    }
  }

  lemma {:induction false} NextKeepsInv(w: World, s: State, s': State)
    requires Lawful(w) && Inv(w, s) && Next(w, s, s')
    ensures Inv(w, s') && Grows(s.objects, s'.objects) && s.served <= s'.served
  {
    if exists i: nat :: StepBy(w, s, s', i) {
      var i: nat :| StepBy(w, s, s', i);
      StepKeepsInv(w, s, s', i);
    } else {
      var path :| Lost(s, s', path);
      LostKeepsInv(w, s, s', path);
    }
  }

  // ---- whole executions

  /** A store on which publishing can start: by-hash objects have the bytes their names say, and everything that a
      Release or InRelease lists is there by its hash. */
  ghost predicate Stocked(w: World, s: State) {
    && DigestsMatch(w, s.objects)
    && (forall key :: key in s.objects ==> Announced(w, key, s.objects[key]) <= s.served)
    && (forall c, text :: (c, text) in s.served ==>
          Sane(w.parseRelease(text), "") && Covered(w, s.objects, c, w.parseRelease(text).files))
  }

  /** A store without any Release, InRelease or by-hash object is one. */
  lemma {:induction false} EmptyIsStocked(w: World, s: State)
    requires s.served == {} && forall key :: key in s.objects ==> !key.ReleaseFile? && !key.InRelease? && !key.ByHash?
    ensures Stocked(w, s)
  {}

  /** Publishers at work on such a store. */
  ghost predicate Execution(w: World, trace: seq<State>) {
    && trace != [] && Stocked(w, trace[0])
    && (forall i :: 0 <= i < |trace[0].publishers| ==> trace[0].publishers[i].Idle?)
    && forall n :: 0 <= n < |trace| - 1 ==> Next(w, trace[n], trace[n + 1])
  }

  lemma {:induction false} ExecutionStep(w: World, trace: seq<State>, n: nat)
    requires Lawful(w) && Execution(w, trace) && n + 1 < |trace| && Inv(w, trace[n])
    ensures Inv(w, trace[n + 1]) && Grows(trace[n].objects, trace[n + 1].objects)
    ensures trace[n].served <= trace[n + 1].served
  {
    NextKeepsInv(w, trace[n], trace[n + 1]);
  }

  lemma {:induction false} ExecutionKeepsInv(w: World, trace: seq<State>, n: nat)
    requires Lawful(w) && Execution(w, trace) && n < |trace|
    ensures Inv(w, trace[n])
  {
    if n > 0 {
      ExecutionKeepsInv(w, trace, n - 1);
      ExecutionStep(w, trace, n - 1);
    }
  }

  lemma {:induction false} GrowsTransitive(a: Objects, b: Objects, c: Objects)
    requires Grows(a, b) && Grows(b, c)
    ensures Grows(a, c)
  {}

  ghost predicate Growing(trace: seq<State>) {
    forall k :: 0 <= k < |trace| - 1 ==> Grows(trace[k].objects, trace[k + 1].objects)
  }

  lemma {:induction false} GrowingSpan(trace: seq<State>, m: nat, n: nat)
    requires Growing(trace) && m <= n < |trace|
    ensures Grows(trace[m].objects, trace[n].objects)
    decreases n
  {
    if m < n {
      GrowingSpan(trace, m, n - 1);
      assert Grows(trace[n - 1].objects, trace[n - 1 + 1].objects);
      GrowsTransitive(trace[m].objects, trace[n - 1].objects, trace[n].objects);
    }
  }

  lemma {:induction false} ExecutionGrows(w: World, trace: seq<State>)
    requires Lawful(w) && Execution(w, trace)
    ensures Growing(trace)
  {
    forall k | 0 <= k < |trace| - 1 ensures Grows(trace[k].objects, trace[k + 1].objects) {
      ExecutionKeepsInv(w, trace, k);
      ExecutionStep(w, trace, k);
    }
  }

  // ---- every text was printed by the program

  /** The text is a printed Release that fits its format. */
  ghost predicate ByProgram(w: World, text: string) {
    exists r, date :: Renderable(r, date) && text == w.printRelease(r, date)
  }

  ghost predicate AllServed(w: World, s: State) {
    forall c, text :: (c, text) in s.served ==> ByProgram(w, text)
  }

  ghost predicate AllPrinted(w: World, s: State) {
    && AllServed(w, s)
    && forall i :: 0 <= i < |s.publishers| && s.publishers[i].Busy? ==> ByProgram(w, s.publishers[i].text)
  }

  lemma {:induction false} StarterPrints(w: World, s: State, job: Job)
    requires Lawful(w) && Inv(w, s) && Sound(w, s.objects, job)
    ensures var r, c := Retrieved(w, s.objects, job.options), job.options.codename;
            ByProgram(w, w.printRelease(FinalRelease(w, c, r, job.suites), job.date))
  {
    var r, c := Retrieved(w, s.objects, job.options), job.options.codename;
    RetrievedSane(w, s, job.options, job.date);
    RecordAllSane(w, r, PreparedFor(w, c, r, job.suites).value, job.date);
  }

  lemma {:induction false} WritePrints(w: World, s: State, s': State, i: nat)
    requires Inv(w, s) && AllPrinted(w, s) && Write(w, s, s', i)
    ensures AllPrinted(w, s')
  {
    var p := s.publishers[i];
    assert FitsPublisher(w, p.codename, p.text, p.todo[0]);
    forall c, text | (c, text) in s'.served ensures ByProgram(w, text) {
      if (c, text) !in s.served {
        assert (c, text) in Announced(w, p.todo[0].key, p.todo[0].data);
      }
    }
  }

  lemma {:induction false} NextPrints(w: World, s: State, s': State)
    requires Lawful(w) && Inv(w, s) && AllPrinted(w, s) && Next(w, s, s')
    ensures AllPrinted(w, s')
  {
    if i: nat :| StepBy(w, s, s', i) {
      if job :| Start(w, s, s', i, job) {
        StarterPrints(w, s, job);
      } else if Write(w, s, s', i) {
        WritePrints(w, s, s', i);
      }
    }
  }

  /** When every text served at the start was printed by the program, so is every text that is ever served. */
  lemma {:induction false} ExecutionPrints(w: World, trace: seq<State>, n: nat)
    requires Lawful(w) && Execution(w, trace) && n < |trace| && AllServed(w, trace[0])
    ensures AllPrinted(w, trace[n])
  {
    if n > 0 {
      ExecutionPrints(w, trace, n - 1);
      ExecutionKeepsInv(w, trace, n - 1);
      NextPrints(w, trace[n - 1], trace[n]);
    }
  }

  /** The text of a Release, or of the payload of an InRelease, that a client reads for a codename. */
  ghost predicate Reads(w: World, objects: Objects, codename: string, text: string) {
    || (ReleaseFile(codename) in objects && objects[ReleaseFile(codename)] == text)
    || (InRelease(codename) in objects && w.payload(objects[InRelease(codename)]) == text)
  }

  lemma {:induction false} ReadIsServed(w: World, s: State, codename: string, text: string)
    requires Inv(w, s) && Reads(w, s.objects, codename, text)
    ensures (codename, text) in s.served
  {
    var o := s.objects;
    var stored := ReleaseFile(codename) in o && o[ReleaseFile(codename)] == text;
    var key := if stored then ReleaseFile(codename) else InRelease(codename);
    assert (codename, text) in Announced(w, key, o[key]);
  }

  /** Whoever read a Release or InRelease at some moment can fetch each index it lists, then and at any later moment,
      by its hash: the object is there, it never changes, and its bytes have the listed digest. */
  lemma {:induction false} OldGenerationsStayFetchable(
      w: World, trace: seq<State>, m: nat, n: nat, codename: string, text: string, filename: string)
    requires Lawful(w) && Execution(w, trace) && m <= n < |trace|
    requires Reads(w, trace[m].objects, codename, text) && filename in w.parseRelease(text).files
    ensures exists component, a, gz ::
              && SuiteName(component, a) && filename == EntryName(component, a, gz)
              && var hashes := w.parseRelease(text).files[filename];
              var key := ByHash(codename, component, a, hashes.sha256);
              && key in trace[m].objects && key in trace[n].objects
              && trace[m].objects[key] == trace[n].objects[key]
              && w.hasher.sha256(trace[n].objects[key]) == hashes.sha256
  {
    var o := trace[m].objects;
    ExecutionKeepsInv(w, trace, m);
    ExecutionGrows(w, trace);
    GrowingSpan(trace, m, n);
    ReadIsServed(w, trace[m], codename, text);
    assert IsEntry(filename);
    var component, a, gz :| SuiteName(component, a) && filename == EntryName(component, a, gz);
    assert Fetchable(w, o, codename, component, a, w.parseRelease(text).files[filename]);
  }

  // ---- a publisher that nobody disturbs

  /** The states follow one another from this one to one with these objects. */
  ghost predicate Leads(w: World, path: seq<State>, s: State, objects: Objects) {
    && path != [] && path[0] == s && path[|path| - 1].objects == objects
    && forall n :: 0 <= n < |path| - 1 ==> Next(w, path[n], path[n + 1])
  }

  lemma {:induction false} LeadsFrom(w: World, s: State, s': State, i: nat, path: seq<State>, objects: Objects)
    requires StepBy(w, s, s', i) && Leads(w, path, s', objects)
    ensures Leads(w, [s] + path, s, objects)
  {
    var longer := [s] + path;
    forall n | 0 <= n < |longer| - 1 ensures Next(w, longer[n], longer[n + 1]) {
      if n > 0 {
        assert longer[n] == path[n - 1] && longer[n + 1] == path[n];
      }
    }
  }

  function Looking(s: State, i: nat): State
    requires i < |s.publishers| && s.publishers[i].Busy? && s.publishers[i].todo != []
  {
    var key := s.publishers[i].todo[0].key;
    s.(publishers := s.publishers[i := s.publishers[i].(
       seen := if key in s.objects then Present(s.objects[key]) else Absent)])
  }

  /** The state after a call that got through. */
  function Passed(s: State, i: nat, objects: Objects, served: set<(string, string)>): State
    requires i < |s.publishers| && s.publishers[i].Busy? && s.publishers[i].todo != []
  {
    State(objects, s.publishers[i := Popped(s.publishers[i])], served)
  }

  /** A `Put` by itself: Head and write come to what one call does. */
  lemma {:induction false} PutAlone(w: World, s: State, i: nat, budget: nat) returns (s': State)
    requires i < |s.publishers| && s.publishers[i].Busy? && s.publishers[i].seen.Unseen? && budget > 0
    requires s.publishers[i].todo != [] && s.publishers[i].todo[0].Put?
    ensures Look(s, Looking(s, i), i) && Write(w, Looking(s, i), s', i)
    ensures var call := Step(w.hasher.md5, Store(s.objects, budget), s.publishers[i].todo[0]);
            && s'.objects == call.store.objects && |s'.publishers| == |s.publishers|
            && (call.ok ==> s'.publishers[i] == Popped(s.publishers[i]))
  {
    var op, looking := s.publishers[i].todo[0], Looking(s, i);
    match WriteOutcome(w.hasher.md5, s.objects, op, looking.publishers[i].seen) {
      case Skipped => s' := Passed(looking, i, s.objects, s.served);
      case Denied => s' := looking.(publishers := looking.publishers[i := Idle]);
      case Stored => s' := Passed(looking, i, s.objects[op.key := op.data], s.served + Announced(w, op.key, op.data));
    }
  }

  /** Left alone, a publisher can make its calls as a run does, and leaves what the run leaves. */
  lemma {:induction false} Undisturbed(w: World, s: State, i: nat, budget: nat) returns (path: seq<State>)
    requires i < |s.publishers| && s.publishers[i].Busy? && s.publishers[i].seen.Unseen?
    ensures Leads(w, path, s, Exec(w.hasher.md5, Store(s.objects, budget), s.publishers[i].todo).store.objects)
    decreases |s.publishers[i].todo|
  {
    var todo := s.publishers[i].todo;
    path := [s];
    if todo != [] && budget > 0 {
      var call := Step(w.hasher.md5, Store(s.objects, budget), todo[0]);
      if todo[0].Put? {
        var s' := PutAlone(w, s, i, budget);
        var rest := [s'];
        if call.ok {
          rest := Undisturbed(w, s', i, budget - 1);
        }
        var left := rest[|rest| - 1].objects;
        LeadsFrom(w, Looking(s, i), s', i, rest, left);
        LeadsFrom(w, s, Looking(s, i), i, [Looking(s, i)] + rest, left);
        path := [s] + ([Looking(s, i)] + rest);
      } else {
        var s' := Passed(s, i, s.objects - {todo[0].key}, s.served);
        var rest := Undisturbed(w, s', i, budget - 1);
        LeadsFrom(w, s, s', i, rest, rest[|rest| - 1].objects);
        path := [s] + rest;
      }
    }
  }

  /** Every execution can go on with a job that an idle publisher does undisturbed, cut off anywhere: it then leaves
      what the sequential run of the job leaves. */
  lemma {:induction false} RunIsExecution(w: World, trace: seq<State>, i: nat, job: Job, budget: nat)
    returns (longer: seq<State>)
    requires Execution(w, trace)
    requires var s := trace[|trace| - 1];
             i < |s.publishers| && s.publishers[i].Idle? && Sound(w, s.objects, job)
    ensures Execution(w, longer) && trace <= longer
    ensures var s := trace[|trace| - 1];
            longer[|longer| - 1].objects
            == Exec(w.hasher.md5, Store(s.objects, budget), CallsOf(w, s.objects, job)).store.objects
  {
    var s := trace[|trace| - 1];
    var r, c := Retrieved(w, s.objects, job.options), job.options.codename;
    var started := s.(publishers := s.publishers[i := Busy(
        c, w.printRelease(FinalRelease(w, c, r, job.suites), job.date), CallsOf(w, s.objects, job), Unseen)]);
    assert Start(w, s, started, i, job);
    var path := Undisturbed(w, started, i, budget);
    longer := trace + path;
    forall n | 0 <= n < |longer| - 1 ensures Next(w, longer[n], longer[n + 1]) {
      if n < |trace| - 1 {
        assert longer[n] == trace[n] && longer[n + 1] == trace[n + 1];
      } else if n == |trace| - 1 {
        assert longer[n] == s && longer[n + 1] == started;
        assert StepBy(w, s, started, i);
      } else {
        assert longer[n] == path[n - |trace|] && longer[n + 1] == path[n + 1 - |trace|];
      }
    }
  }
}
