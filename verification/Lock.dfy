/** The repository lock: conditional create, Head, Get and conditional delete, with any number of contenders and an
    operator who may delete the lock object at any moment. */
module Lock {
  import opened Text
  import opened Numbers
  import opened Lists
  import opened Paths
  import opened Keys

  // ---- the protocol, one store call at a time

  /** Where a contender stands. Contender `i` writes a body of its own; `Stuck` is a handle whose Release failed. */
  datatype Phase =
    | Waiting
    | Trying(attempt: nat)
    | Looked(attempt: nat, seen: Option<nat>)
    | Contended(attempt: nat)
    | Created
    | Holding(etag: string)
    | Releasing(etag: string)
    | Stuck(etag: string)
    | Over

  /** A contender and the number of creations it has attempted. */
  datatype Contender = Contender(phase: Phase, puts: nat)

  /** `owner` is whose body the lock object holds; `created` remembers whose bodies were ever stored, `deletes` how
      often the operator deleted the object. */
  datatype State = State(owner: Option<nat>, contenders: seq<Contender>, created: set<nat>, deletes: nat)

  /** Bodies with different tokens have different ETags. */
  ghost predicate DistinctTags(etag: nat -> string) {
    forall i, j :: etag(i) == etag(j) ==> i == j
  }

  function At(s: State, i: nat, phase: Phase): State
    requires i < |s.contenders|
  {
    s.(contenders := s.contenders[i := s.contenders[i].(phase := phase)])
  }

  predicate Is(s: State, i: nat) {
    i < |s.contenders|
  }

  /** Acquire begins its first attempt. */
  ghost predicate Begin(s: State, s': State, i: nat) {
    Is(s, i) && s.contenders[i].phase.Waiting? && s' == At(s, i, Trying(1))
  }

  /** The Head with which `Put` starts. */
  ghost predicate Look(s: State, s': State, i: nat) {
    && Is(s, i) && s.contenders[i].phase.Trying?
    && s' == s.(contenders :=
       s.contenders[i := Contender(Looked(s.contenders[i].phase.attempt, s.owner), s.contenders[i].puts + 1)])
  }

  /** The conditional write: it succeeds, is refused, or is applied although the caller sees an error. */
  ghost predicate Create(s: State, s': State, i: nat) {
    && Is(s, i) && s.contenders[i].phase.Looked?
    && var n := s.contenders[i].phase.attempt;
    match s.contenders[i].phase.seen
    case Some(t) => s' == At(s, i, if t == i then Created else Contended(n))
    case None =>
      if s.owner.Some? then s' == At(s, i, Contended(n))
      else
        var stored := s.(owner := Some(i), created := s.created + {i});
        s' == At(stored, i, Created) || s' == At(stored, i, Over)
  }

  /** The Head that gives a new handle its ETag. */
  ghost predicate Tag(etag: nat -> string, s: State, s': State, i: nat) {
    && Is(s, i) && s.contenders[i].phase.Created?
    && s' == At(s, i, if s.owner.Some? then Holding(etag(s.owner.value)) else Over)
  }

  /** After a refusal the next attempt, unless this was the last. */
  ghost predicate Retry(maxAttempts: int, s: State, s': State, i: nat) {
    && Is(s, i) && s.contenders[i].phase.Contended?
    && var n := s.contenders[i].phase.attempt;
    s' == At(s, i, if n == maxAttempts then Over else Trying(n + 1))
  }

  /** Release reads the lock object. */
  ghost predicate Inspect(s: State, s': State, i: nat) {
    && Is(s, i) && (s.contenders[i].phase.Holding? || s.contenders[i].phase.Stuck?)
    && var tag := s.contenders[i].phase.etag;
    s' == At(s, i, if s.owner.None? then Over else if s.owner.value == i then Releasing(tag) else Stuck(tag))
  }

  /** The conditional delete of Release; its answer may be lost. */
  ghost predicate Delete(etag: nat -> string, s: State, s': State, i: nat) {
    && Is(s, i) && s.contenders[i].phase.Releasing?
    && var tag := s.contenders[i].phase.etag;
    if s.owner.None? then s' == At(s, i, Over)
    else if etag(s.owner.value) == tag then s' == At(s.(owner := None), i, Over)
        || s' == At(s.(owner := None), i, Stuck(tag))
    else s' == At(s, i, Stuck(tag))
  }

  /** A timeout, a cancellation or a failed call ends an Acquire before it returns a handle, or a Release. */
  ghost predicate Abort(s: State, s': State, i: nat) {
    && Is(s, i)
    && match s.contenders[i].phase
       case Releasing(tag) => s' == At(s, i, Stuck(tag))
       case Holding(tag) => s' == At(s, i, Stuck(tag))
       case Stuck(tag) => s' == s
       case _ => s' == At(s, i, Over)
  }

  /** The operator removes the lock object by hand. */
  ghost predicate Operator(s: State, s': State) {
    s.owner.Some? && s' == s.(owner := None, deletes := s.deletes + 1)
  }

  ghost predicate StepBy(etag: nat -> string, maxAttempts: int, s: State, s': State, i: nat) {
    || Begin(s, s', i) || Look(s, s', i) || Create(s, s', i) || Tag(etag, s, s', i) || Retry(maxAttempts, s, s', i)
    || Inspect(s, s', i) || Delete(etag, s, s', i) || Abort(s, s', i)
  }

  ghost predicate Next(etag: nat -> string, maxAttempts: int, s: State, s': State) {
    (exists i: nat :: StepBy(etag, maxAttempts, s, s', i)) || Operator(s, s')
  }

  // ---- the invariant

  predicate BeforeCreation(phase: Phase) {
    phase.Waiting? || phase.Trying? || phase.Looked? || phase.Contended?
  }

  /** A handle in use: the lock was created for it and no Release has failed or succeeded. */
  predicate Live(phase: Phase) {
    phase.Created? || phase.Holding? || phase.Releasing?
  }

  ghost predicate ContenderOk(etag: nat -> string, maxAttempts: int, s: State, i: nat)
    requires Is(s, i)
  {
    var c := s.contenders[i];
    && (BeforeCreation(c.phase) <==> i !in s.created && BeforeCreation(c.phase))
    && (Live(c.phase) || c.phase.Stuck? ==> i in s.created)
    && (c.phase.Looked? && c.phase.seen.Some? ==> c.phase.seen.value != i)
    && (c.phase.Holding? || c.phase.Stuck? ==> c.phase.etag == etag(i) || s.owner != Some(i))
    && (c.phase.Releasing? ==> c.phase.etag == etag(i))
    && Counted(maxAttempts, c)
  }

  /** One creation per attempt, and no more attempts than allowed. */
  predicate Counted(maxAttempts: int, c: Contender) {
    match c.phase
    case Waiting => c.puts == 0
    case Trying(n) => c.puts + 1 == n && (maxAttempts >= 1 ==> n <= maxAttempts)
    case Looked(n, seen) => c.puts == n && (maxAttempts >= 1 ==> n <= maxAttempts)
    case Contended(n) => c.puts == n && (maxAttempts >= 1 ==> n <= maxAttempts)
    case _ => maxAttempts >= 1 ==> c.puts <= maxAttempts
  }

  /** Live handles whose body is no longer in the lock object. */
  function Orphans(s: State): set<nat> {
    set i: nat | i < |s.contenders| && Live(s.contenders[i].phase) && s.owner != Some(i)
  }

  function LiveHandles(s: State): set<nat> {
    set i: nat | i < |s.contenders| && Live(s.contenders[i].phase)
  }

  ghost predicate Inv(etag: nat -> string, maxAttempts: int, s: State) {
    && (forall i :: 0 <= i < |s.contenders| ==> ContenderOk(etag, maxAttempts, s, i))
    && (s.owner.Some? ==> s.owner.value in s.created)
    && |Orphans(s)| <= s.deletes
  }

  /** No contender has begun. The lock object is not there, or holds the body of someone else, as after an Acquire
      that failed although its write was applied. */
  ghost predicate Start(s: State) {
    && s.deletes == 0
    && (s.owner.Some? ==> s.owner.value >= |s.contenders|)
    && s.created == (if s.owner.Some? then {s.owner.value} else {})
    && forall i :: 0 <= i < |s.contenders| ==> s.contenders[i] == Contender(Waiting, 0)
  }

  lemma {:induction false} StartHasInv(etag: nat -> string, maxAttempts: int, s: State)
    requires Start(s)
    ensures Inv(etag, maxAttempts, s)
  {
    assert Orphans(s) == {};
  }

  /** Fewer live contenders, or more owned ones, leave no more orphans. */
  lemma {:induction false} OrphansShrink(s: State, s': State)
    requires |s'.contenders| == |s.contenders|
    requires forall i: nat :: i < |s.contenders| && Live(s'.contenders[i].phase) && s'.owner != Some(i) ==>
               Live(s.contenders[i].phase) && s.owner != Some(i)
    ensures |Orphans(s')| <= |Orphans(s)|
  {
    SubsetSize(Orphans(s'), Orphans(s));
  }

  lemma {:induction false} SubsetSize(a: set<nat>, b: set<nat>)
    requires a <= b
    ensures |a| <= |b|
    decreases |b|
  {
    if b != {} && a != b {
      var x :| x in b && x !in a;
      SubsetSize(a, b - {x});
    }
  }

  lemma {:induction false} StepKeepsContenders(etag: nat -> string, maxAttempts: int, s: State, s': State, i: nat)
    requires DistinctTags(etag) && Inv(etag, maxAttempts, s) && StepBy(etag, maxAttempts, s, s', i)
    ensures |s'.contenders| == |s.contenders|
    ensures forall j :: 0 <= j < |s.contenders| ==> ContenderOk(etag, maxAttempts, s', j)
    ensures s'.owner.Some? ==> s'.owner.value in s'.created
  {
    forall j | 0 <= j < |s.contenders| ensures ContenderOk(etag, maxAttempts, s', j) {
      assert ContenderOk(etag, maxAttempts, s, j) && ContenderOk(etag, maxAttempts, s, i);
    }
  }

  lemma {:induction false} StepKeepsOrphans(etag: nat -> string, maxAttempts: int, s: State, s': State, i: nat)
    requires DistinctTags(etag) && Inv(etag, maxAttempts, s) && StepBy(etag, maxAttempts, s, s', i)
    ensures |Orphans(s')| <= s'.deletes
  {
    assert ContenderOk(etag, maxAttempts, s, i);
    forall j: nat | j < |s.contenders| && Live(s'.contenders[j].phase) && s'.owner != Some(j)
      ensures Live(s.contenders[j].phase) && s.owner != Some(j)
    {
      assert ContenderOk(etag, maxAttempts, s, j);
    }
    OrphansShrink(s, s');
  }

  /** The operator orphans at most the one handle whose body was there. */
  lemma {:induction false} OperatorKeepsInv(etag: nat -> string, maxAttempts: int, s: State, s': State)
    requires Inv(etag, maxAttempts, s) && Operator(s, s')
    ensures Inv(etag, maxAttempts, s')
  {
    forall j | 0 <= j < |s.contenders| ensures ContenderOk(etag, maxAttempts, s', j) {
      assert ContenderOk(etag, maxAttempts, s, j);
    }
    assert Orphans(s') <= Orphans(s) + {s.owner.value};
    SubsetSize(Orphans(s'), Orphans(s) + {s.owner.value});
  }

  lemma {:induction false} NextKeepsInv(etag: nat -> string, maxAttempts: int, s: State, s': State)
    requires DistinctTags(etag) && Inv(etag, maxAttempts, s) && Next(etag, maxAttempts, s, s')
    ensures Inv(etag, maxAttempts, s')
  {
    if Operator(s, s') {
      OperatorKeepsInv(etag, maxAttempts, s, s');
    } else {
      var i: nat :| StepBy(etag, maxAttempts, s, s', i);
      StepKeepsContenders(etag, maxAttempts, s, s', i);
      StepKeepsOrphans(etag, maxAttempts, s, s', i);
    }
  }

  // ---- all schedules

  ghost predicate Schedule(etag: nat -> string, maxAttempts: int, trace: seq<State>) {
    trace != [] && Start(trace[0]) && forall n :: 0 <= n < |trace| - 1 ==>
        Next(etag, maxAttempts, trace[n], trace[n + 1])
  }

  lemma {:induction false} ScheduleKeepsInv(etag: nat -> string, maxAttempts: int, trace: seq<State>, n: nat)
    requires DistinctTags(etag) && Schedule(etag, maxAttempts, trace) && n < |trace|
    ensures Inv(etag, maxAttempts, trace[n])
  {
    ghost var holds := seq(|trace|, i requires 0 <= i < |trace| => Inv(etag, maxAttempts, trace[i]));
    StartHasInv(etag, maxAttempts, trace[0]);
    forall k | 0 <= k < |trace| - 1 && Inv(etag, maxAttempts, trace[k]) ensures Inv(etag, maxAttempts, trace[k + 1]) {
      NextKeepsInv(etag, maxAttempts, trace[k], trace[k + 1]);
    }
    ChainHolds(holds, n);
  }

  lemma {:induction false} LiveBound(s: State)
    ensures |LiveHandles(s)| <= |Orphans(s)| + 1
  {
    if s.owner.Some? {
      assert LiveHandles(s) <= Orphans(s) + {s.owner.value};
      SubsetSize(LiveHandles(s), Orphans(s) + {s.owner.value});
    } else {
      assert LiveHandles(s) == Orphans(s);
    }
  }

  /** In every schedule there is at most one live handle more than the operator made deletions. */
  lemma {:induction false} LiveHandlesBounded(etag: nat -> string, maxAttempts: int, trace: seq<State>, n: nat)
    requires DistinctTags(etag) && Schedule(etag, maxAttempts, trace) && n < |trace|
    ensures |LiveHandles(trace[n])| <= 1 + trace[n].deletes
  {
    ScheduleKeepsInv(etag, maxAttempts, trace, n);
    LiveBound(trace[n]);
  }

  /** Without an operator no two handles are live together, and the live one's body is in the lock object. */
  lemma {:induction false} MutualExclusion(
      etag: nat -> string, maxAttempts: int, trace: seq<State>, n: nat, i: nat, j: nat)
    requires DistinctTags(etag) && Schedule(etag, maxAttempts, trace) && n < |trace| && trace[n].deletes == 0
    requires i < |trace[n].contenders| && Live(trace[n].contenders[i].phase)
    requires j < |trace[n].contenders| && Live(trace[n].contenders[j].phase)
    ensures i == j && trace[n].owner == Some(i)
  {
    ScheduleKeepsInv(etag, maxAttempts, trace, n);
    assert Orphans(trace[n]) == {};
    assert i !in Orphans(trace[n]) && j !in Orphans(trace[n]);
  }

  /** Whatever the operator does, Release only deletes the body of its own owner. */
  lemma {:induction false} ReleaseDeletesOwnBody(
      etag: nat -> string, maxAttempts: int, trace: seq<State>, n: nat, s': State, i: nat)
    requires DistinctTags(etag) && Schedule(etag, maxAttempts, trace) && n < |trace|
    requires Delete(etag, trace[n], s', i) && trace[n].owner.Some? && s'.owner.None?
    ensures trace[n].owner == Some(i)
  {
    ScheduleKeepsInv(etag, maxAttempts, trace, n);
    assert ContenderOk(etag, maxAttempts, trace[n], i);
  }

  /** With a bound of at least one, no schedule lets a contender attempt more creations than the bound. */
  lemma {:induction false} AttemptsBounded(etag: nat -> string, maxAttempts: int, trace: seq<State>, n: nat, i: nat)
    requires DistinctTags(etag) && Schedule(etag, maxAttempts, trace) && n < |trace| && i < |trace[n].contenders|
    requires maxAttempts >= 1
    ensures trace[n].contenders[i].puts <= maxAttempts
  {
    ScheduleKeepsInv(etag, maxAttempts, trace, n);
    assert ContenderOk(etag, maxAttempts, trace[n], i);
  }

  /** One deletion by the operator is enough for two live handles. */
  lemma {:induction false} OperatorAllowsTwo(etag: nat -> string) returns (trace: seq<State>)
    ensures Schedule(etag, 60, trace) && |LiveHandles(trace[|trace| - 1])| == 2 && trace[|trace| - 1].deletes == 1
  {
    var w, t, c := Contender(Waiting, 0), Contender(Trying(1), 0), Contender(Looked(1, None), 1);
    var a, h := Contender(Created, 1), Contender(Holding(etag(0)), 1);
    var s0, s1 := State(None, [w, w], {}, 0), State(None, [t, w], {}, 0);
    var s2, s3 := State(None, [c, w], {}, 0), State(Some(0), [a, w], {0}, 0);
    var s4, s5 := State(Some(0), [h, w], {0}, 0), State(None, [h, w], {0}, 1);
    var s6, s7 := State(None, [h, t], {0}, 1), State(None, [h, c], {0}, 1);
    var s8 := State(Some(1), [h, a], {0, 1}, 1);
    trace := [s0, s1, s2, s3, s4, s5, s6, s7, s8];
    assert StepBy(etag, 60, s0, s1, 0) by { assert Begin(s0, s1, 0); }
    assert StepBy(etag, 60, s1, s2, 0) by { assert Look(s1, s2, 0); }
    assert StepBy(etag, 60, s2, s3, 0) by { assert {} + {0} == {0}; assert Create(s2, s3, 0); }
    assert StepBy(etag, 60, s3, s4, 0) by { assert Tag(etag, s3, s4, 0); }
    assert Operator(s4, s5);
    assert StepBy(etag, 60, s5, s6, 1) by { assert Begin(s5, s6, 1); }
    assert StepBy(etag, 60, s6, s7, 1) by { assert Look(s6, s7, 1); }
    assert StepBy(etag, 60, s7, s8, 1) by { assert {0} + {1} == {0, 1}; assert Create(s7, s8, 1); }
    assert LiveHandles(s8) == {0, 1};
  }

  // ---- the attempt loop

  datatype PutAnswer = Stored | Conflict | Failed

  datatype ReadAnswer = Found | Missing | Unreadable

  /** How the store and the clock answer one attempt. */
  datatype Round = Round(expired: bool, put: PutAnswer, head: Option<string>, current: ReadAnswer, interrupted: bool)

  /** The attempt ends the loop whatever the bound. */
  predicate Final(r: Round) {
    r.expired || r.put != Conflict || r.current == Unreadable || (r.current == Found && r.interrupted)
  }

  /** The attempt loop of `Acquire`. It returns at the first attempt that is final or reaches the bound; `horizon` is
      an attempt that is final when there is no bound. */
  method Acquire(maxAttempts: int, rounds: nat -> Round, ghost horizon: nat)
    returns (handle: Option<string>, puts: nat, last: nat)
    requires maxAttempts < 1 ==> horizon >= 1 && Final(rounds(horizon))
    ensures last >= 1
    ensures last == maxAttempts || rounds(last).expired || rounds(last).put != Conflict
            || rounds(last).current == Unreadable || (rounds(last).current == Found && rounds(last).interrupted)
    ensures forall k :: 1 <= k < last ==>
              && k != maxAttempts && !rounds(k).expired && rounds(k).put == Conflict
              && (rounds(k).current == Missing || (rounds(k).current == Found && !rounds(k).interrupted))
    ensures handle == if rounds(last).expired || rounds(last).put != Stored then None else rounds(last).head
    ensures puts == if rounds(last).expired then last - 1 else last
    ensures maxAttempts >= 1 ==> puts <= maxAttempts
  {
    handle, puts, last := None, 0, 1;
    var attempt := 1;
    while maxAttempts < 1 || attempt <= maxAttempts
      invariant attempt >= 1 && puts == attempt - 1 && handle == None && (attempt > 1 ==> last == attempt - 1)
      invariant maxAttempts >= 1 ==> attempt <= maxAttempts + 1
      invariant forall k :: 1 <= k < attempt ==> !Final(rounds(k))
      decreases (if maxAttempts < 1 then horizon else maxAttempts) - attempt
    {
      last := attempt;
      var round := rounds(attempt);
      if round.expired {
        return;
      }
      puts := puts + 1;
      if round.put == Stored {
        handle := round.head;
        return;
      }
      if round.put == Failed || round.current == Unreadable {
        return;
      }
      if attempt == maxAttempts {
        break;
      }
      if round.current == Found && round.interrupted {
        return;
      }
      attempt := attempt + 1;
    }
  }

  // ---- backoff

  function Pow2(n: nat): nat {
    if n == 0 then 1 else 2 * Pow2(n - 1)
  }

  const TWO_TO_62: int := 0x4000_0000_0000_0000

  /** `delay *= 2` on a 64-bit duration. */
  function Double64(d: int): int {
    if 2 * d > MAX_INT64 then 2 * d - 0x1_0000_0000_0000_0000
    else if 2 * d < MIN_INT64 then 2 * d + 0x1_0000_0000_0000_0000
    else 2 * d
  }

  function Min(a: int, b: int): int {
    if a <= b then a else b
  }

  /** The loop of `retryDelay` with `steps` doublings to go. */
  function Doubled(delay: int, maximum: int, steps: nat): int
    decreases steps
  {
    if steps == 0 || delay >= maximum then delay else Doubled(Double64(delay), maximum, steps - 1)
  }

  function Delay(initial: int, maximum: int, attempt: nat): int {
    Min(Doubled(initial, maximum, if attempt == 0 then 0 else attempt - 1), maximum)
  }

  method RetryDelay(initial: int, maximum: int, attempt: nat) returns (delay: int)
    ensures delay == Delay(initial, maximum, attempt)
  {
    delay := initial;
    var step := 1;
    while step < attempt && delay < maximum
      invariant 1 <= step && (step <= attempt || attempt == 0)
      invariant Doubled(delay, maximum, if attempt == 0 then 0 else attempt - step)
                == Doubled(initial, maximum, if attempt == 0 then 0 else attempt - 1)
      decreases attempt - step
    {
      delay := Double64(delay);
      step := step + 1;
    }
    delay := Min(delay, maximum);
  }

  /** The initial delay doubled `n` times, without bound. */
  function Scaled(initial: nat, n: nat): (d: nat)
    ensures initial >= 1 ==> d >= 1
  {
    if n == 0 then initial else 2 * Scaled(initial, n - 1)
  }

  lemma {:induction false} ScaledIsPower(initial: nat, n: nat)
    ensures Scaled(initial, n) == initial * Pow2(n)
  {
    if n > 0 {
      ScaledIsPower(initial, n - 1);
    }
  }

  /** No power-of-two multiple of the initial delay lies between half the 64-bit range and the maximum. */
  ghost predicate NoOverflow(initial: nat, maximum: int) {
    forall n: nat :: Scaled(initial, n) < maximum ==> Scaled(initial, n) < TWO_TO_62
  }

  lemma {:induction false} ScaledGrows(initial: nat, n: nat, m: nat)
    requires n <= m
    ensures Scaled(initial, n) <= Scaled(initial, m)
    decreases m
  {
    if n < m {
      ScaledGrows(initial, n, m - 1);
    }
  }

  /** After `n` exact doublings the rest of the loop ends at the minimum. */
  lemma {:induction false} DoubledExactly(initial: nat, maximum: int, n: nat, steps: nat)
    requires initial >= 1 && NoOverflow(initial, maximum)
    ensures Min(Doubled(Scaled(initial, n), maximum, steps), maximum) == Min(Scaled(initial, n + steps), maximum)
    decreases steps
  {
    if steps > 0 {
      if Scaled(initial, n) < maximum {
        assert Scaled(initial, n + 1) == 2 * Scaled(initial, n) == Double64(Scaled(initial, n));
        DoubledExactly(initial, maximum, n + 1, steps - 1);
      } else {
        ScaledGrows(initial, n, n + steps);
      }
    }
  }

  /** Where a doubling overflows, the delay is negative instead of the maximum. */
  lemma {:induction false} DoubledOverflows(initial: nat, maximum: int, k: nat, n: nat)
    requires initial >= 1 && k <= n && maximum <= MAX_INT64
    requires TWO_TO_62 <= Scaled(initial, n) < maximum && forall j :: k <= j < n ==> Scaled(initial, j) < TWO_TO_62
    ensures Doubled(Scaled(initial, k), maximum, n + 1 - k) < 0
    decreases n - k
  {
    ScaledGrows(initial, k, n);
    if k < n {
      assert Scaled(initial, k + 1) == 2 * Scaled(initial, k) == Double64(Scaled(initial, k));
      DoubledOverflows(initial, maximum, k + 1, n);
    } else {
      assert Doubled(Scaled(initial, n), maximum, 1) == Doubled(Double64(Scaled(initial, n)), maximum, 0);
    }
  }

  lemma {:induction false} FirstOverflow(initial: nat, maximum: int, n: nat) returns (first: nat)
    requires TWO_TO_62 <= Scaled(initial, n) < maximum
    ensures first <= n && TWO_TO_62 <= Scaled(initial, first) < maximum
    ensures forall j :: 0 <= j < first ==> Scaled(initial, j) < TWO_TO_62
  {
    first := n;
    if j :| 0 <= j < n && TWO_TO_62 <= Scaled(initial, j) {
      ScaledGrows(initial, j, n);
      first := FirstOverflow(initial, maximum, j);
    }
  }

  /** The delay after `n` refusals is the initial one doubled `n` times and capped. */
  predicate DelayIsExact(initial: nat, maximum: int, n: nat) {
    Delay(initial, maximum, n + 1) == Min(Scaled(initial, n), maximum)
  }

  /** For every attempt the delay is the initial one doubled once per earlier attempt and capped, exactly when no
      doubling before the cap leaves the 64-bit range. */
  lemma {:induction false} DelayExactly(initial: nat, maximum: int)
    requires 1 <= initial <= maximum <= MAX_INT64
    ensures (forall n: nat :: DelayIsExact(initial, maximum, n)) <==> NoOverflow(initial, maximum)
  {
    if NoOverflow(initial, maximum) {
      forall n: nat ensures DelayIsExact(initial, maximum, n) {
        DoubledExactly(initial, maximum, 0, n);
      }
    } else {
      var n: nat :| Scaled(initial, n) < maximum && Scaled(initial, n) >= TWO_TO_62;
      var first := FirstOverflow(initial, maximum, n);
      DoubledOverflows(initial, maximum, 0, first);
      var m := first + 1;
      assert Delay(initial, maximum, m + 1) < 0 <= Min(Scaled(initial, m), maximum);
      assert !DelayIsExact(initial, maximum, m);
    }
  }

  /** A maximum of at most two to the 62nd, a century and a half of nanoseconds, is always safe. */
  lemma {:induction false} ModestMaximumIsSafe(initial: nat, maximum: int)
    requires maximum <= TWO_TO_62
    ensures NoOverflow(initial, maximum)
  {}

  /** The delay never shrinks from one attempt to the next. */
  lemma {:induction false} DelayNondecreasing(initial: nat, maximum: int, n: nat, m: nat)
    requires 1 <= initial <= maximum <= MAX_INT64 && NoOverflow(initial, maximum) && 1 <= n <= m
    ensures initial <= Delay(initial, maximum, n) <= Delay(initial, maximum, m) <= maximum
  {
    DoubledExactly(initial, maximum, 0, n - 1);
    DoubledExactly(initial, maximum, 0, m - 1);
    ScaledGrows(initial, 0, n - 1);
    ScaledGrows(initial, n - 1, m - 1);
  }

  /** With the largest maximum, an initial delay above a quarter of the range turns negative at the second attempt. */
  lemma {:induction false} LargeMaximumOverflows()
    ensures Delay(TWO_TO_62, MAX_INT64, 2) == MIN_INT64
  {
    assert Doubled(TWO_TO_62, MAX_INT64, 1) == Doubled(Double64(TWO_TO_62), MAX_INT64, 0);
  }

  // ---- options

  datatype Options = Options(maxAttempts: int, timeout: int, initialBackoff: int, maxBackoff: int)

  const MILLISECOND: int := 1_000_000
  const SECOND: int := 1_000_000_000

  function WithDefaults(o: Options): Options {
    var initial := if o.initialBackoff <= 0 then 100 * MILLISECOND else o.initialBackoff;
    var maximum := if o.maxBackoff <= 0 then 10 * SECOND else o.maxBackoff;
    Options(
      if o.maxAttempts == 0 && o.timeout <= 0 then 60 else o.maxAttempts,
      o.timeout, initial, if maximum < initial then initial else maximum)
  }

  /** Defaults give a usable backoff, and a bound on attempts or time unless the caller asked for none. */
  lemma {:induction false} DefaultsUsable(o: Options)
    ensures var d := WithDefaults(o);
            && 1 <= d.initialBackoff <= d.maxBackoff
            && (d.maxAttempts < 1 && d.timeout <= 0 ==> o.maxAttempts < 0)
            && WithDefaults(d) == d
            && (o.maxAttempts != 0 ==> d.maxAttempts == o.maxAttempts) && d.timeout == o.timeout
            && (o.initialBackoff > 0 ==> d.initialBackoff == o.initialBackoff)
            && (o.maxBackoff >= d.initialBackoff ==> d.maxBackoff == o.maxBackoff)
    ensures WithDefaults(Options(0, 0, 0, 0)) == Options(60, 0, 100_000_000, 10_000_000_000)
  {}

  // ---- where the lock is

  /** The key of a codename's lock object, unless the codename would leave `dists/`. */
  function CheckedLockPath(codename: string): Result<string> {
    var cleaned := Clean(codename);
    if cleaned == "." || HasPrefix(cleaned, "/") || cleaned == ".."
        || HasPrefix(cleaned, "../") then Err("unsafe repository codename")
    else Ok(JoinAll(["dists", cleaned, "lockfile"]))
  }

  lemma {:induction false} LockPathIs(codename: string)
    requires CheckedLockPath(codename).Ok?
    ensures CleanKey(Clean(codename)) && CheckedLockPath(codename) == Ok(SuiteDir(Clean(codename)) + "/" + "lockfile")
  {
    var cleaned := Clean(codename);
    if Rooted(codename) {
      RootStays(codename);
    }
    CleanGivesCleanKey(codename);
    SuiteDirClean(cleaned);
    CleanKeySegment(SuiteDir(cleaned), "lockfile");
    CleanFixed(SuiteDir(cleaned) + "/" + "lockfile");
    JoinThree("dists", cleaned, "lockfile");
    assert "dists" + "/" + cleaned == SuiteDir(cleaned);
  }

  /** Two codenames share a lock exactly when they clean to the same suite. */
  lemma {:induction false} OneLockPerSuite(a: string, b: string)
    requires CheckedLockPath(a).Ok? && CheckedLockPath(b).Ok?
    ensures CheckedLockPath(a) == CheckedLockPath(b) <==> Clean(a) == Clean(b)
  {
    LockPathIs(a);
    LockPathIs(b);
    SuiteDirClean(Clean(a));
    SuiteDirClean(Clean(b));
    if CheckedLockPath(a) == CheckedLockPath(b) {
      JoinInjective(SuiteDir(Clean(a)), "lockfile", SuiteDir(Clean(b)), "lockfile");
      SuiteDirInjective(Clean(a), Clean(b));
    }
  }
}
