/** Stable selection from a list. */
module Lists {

  /** The elements that satisfy `f`, in order. */
  function Filter<T>(s: seq<T>, f: T -> bool): (r: seq<T>)
    ensures |r| <= |s|
  {
    if s == [] then []
    else if f(s[0]) then [s[0]] + Filter(s[1..], f)
    else Filter(s[1..], f)
  }

  function Not<T>(f: T -> bool): T -> bool {
    (x: T) => !f(x)
  }

  lemma {:induction false} FilterAppend<T>(a: seq<T>, b: seq<T>, f: T -> bool)
    ensures Filter(a + b, f) == Filter(a, f) + Filter(b, f)
  {
    if a == [] {
      assert a + b == b;
    } else {
      assert (a + b)[1..] == a[1..] + b;
      FilterAppend(a[1..], b, f);
    }
  }

  lemma {:induction false} FilterSnoc<T>(s: seq<T>, i: nat, f: T -> bool)
    requires i < |s|
    ensures Filter(s[..i + 1], f) == Filter(s[..i], f) + (if f(s[i]) then [s[i]] else [])
  {
    assert s[..i + 1] == s[..i] + [s[i]];
    FilterAppend(s[..i], [s[i]], f);
  }

  /** Where the selected elements stood. */
  function Where<T>(s: seq<T>, f: T -> bool, from: nat): (r: seq<nat>)
    requires from <= |s|
    ensures forall i :: 0 <= i < |r| ==> from <= r[i] < |s|
    decreases |s| - from
  {
    if from == |s| then []
    else if f(s[from]) then [from] + Where(s, f, from + 1)
    else Where(s, f, from + 1)
  }

  lemma {:induction false} WhereIncreases<T>(s: seq<T>, f: T -> bool, from: nat, i: nat, j: nat)
    requires from <= |s| && i < j < |Where(s, f, from)|
    ensures Where(s, f, from)[i] < Where(s, f, from)[j]
    decreases |s| - from
  {
    var rest := Where(s, f, from + 1);
    if !f(s[from]) {
      WhereIncreases(s, f, from + 1, i, j);
    } else if i > 0 {
      WhereIncreases(s, f, from + 1, i - 1, j - 1);
    } else {
      assert Where(s, f, from)[j] == rest[j - 1];
    }
  }

  lemma {:induction false} WhereSelects<T>(s: seq<T>, f: T -> bool, from: nat, k: nat)
    requires from <= |s|
    ensures k in Where(s, f, from) <==> from <= k < |s| && f(s[k])
    decreases |s| - from
  {
    if from < |s| {
      WhereSelects(s, f, from + 1, k);
    }
  }

  lemma {:induction false} WhereFilters<T>(s: seq<T>, f: T -> bool, from: nat)
    requires from <= |s|
    ensures var w, r := Where(s, f, from), Filter(s[from..], f);
            |w| == |r| && forall i :: 0 <= i < |r| ==> r[i] == s[w[i]]
    decreases |s| - from
  {
    if from < |s| {
      WhereFilters(s, f, from + 1);
      assert s[from..][1..] == s[from + 1..];
    }
  }

  /** Selection is stable and exact: the result consists of the elements at increasing positions, and these are all
      the positions that satisfy `f`. */
  lemma {:induction false} FilterIsStable<T>(s: seq<T>, f: T -> bool)
    ensures var w, r := Where(s, f, 0), Filter(s, f);
            && |w| == |r|
            && (forall i, j :: 0 <= i < j < |w| ==> w[i] < w[j])
            && (forall i :: 0 <= i < |r| ==> r[i] == s[w[i]])
            && (forall k :: k in w <==> 0 <= k < |s| && f(s[k]))
  {
    forall i, j | 0 <= i < j < |Where(s, f, 0)| ensures Where(s, f, 0)[i] < Where(s, f, 0)[j] {
      WhereIncreases(s, f, 0, i, j);
    }
    WhereFilters(s, f, 0);
    assert s[0..] == s;
    forall k ensures k in Where(s, f, 0) <==> 0 <= k < |s| && f(s[k]) {
      if k >= 0 {
        WhereSelects(s, f, 0, k);
      }
    }
  }

  lemma {:induction false} FilterAt<T>(s: seq<T>, f: T -> bool, i: nat)
    requires i < |Filter(s, f)|
    ensures f(Filter(s, f)[i]) && Filter(s, f)[i] in s
  {
    if f(s[0]) {
      if i > 0 {
        FilterAt(s[1..], f, i - 1);
      }
    } else {
      FilterAt(s[1..], f, i);
    }
  }

  lemma {:induction false} FilterHas<T>(s: seq<T>, f: T -> bool, x: T)
    ensures x in Filter(s, f) <==> x in s && f(x)
  {
    if s != [] {
      FilterHas(s[1..], f, x);
      assert s == [s[0]] + s[1..];
    }
  }

  /** Selected and rejected elements together are the list. */
  lemma {:induction false} FilterConserves<T>(s: seq<T>, f: T -> bool)
    ensures multiset(Filter(s, f)) + multiset(Filter(s, Not(f))) == multiset(s)
  {
    if s != [] {
      FilterConserves(s[1..], f);
      assert s == [s[0]] + s[1..];
    }
  }

  lemma {:induction false} FilterEverything<T>(s: seq<T>, f: T -> bool)
    requires forall i :: 0 <= i < |s| ==> f(s[i])
    ensures Filter(s, f) == s
  {
    if s != [] {
      FilterEverything(s[1..], f);
    }
  }

  lemma {:induction false} FilterNothing<T>(s: seq<T>, f: T -> bool)
    requires forall i :: 0 <= i < |s| ==> !f(s[i])
    ensures Filter(s, f) == []
  {
    if s != [] {
      FilterNothing(s[1..], f);
    }
  }

  /** What holds at the start of a chain and passes from each link to the next holds everywhere. */
  lemma {:induction false} ChainHolds(holds: seq<bool>, n: nat)
    requires n < |holds| && holds[0] && forall k :: 0 <= k < |holds| - 1 && holds[k] ==> holds[k + 1]
    ensures holds[n]
  {
    if n > 0 {
      ChainHolds(holds, n - 1);
      assert holds[n - 1 + 1];
    }
  }

  /** A stronger condition keeps fewer elements, and as many only when it keeps the same ones. */
  lemma {:induction false} FilterShrinks<T>(s: seq<T>, f: T -> bool, g: T -> bool)
    requires forall i :: 0 <= i < |s| && g(s[i]) ==> f(s[i])
    ensures |Filter(s, g)| <= |Filter(s, f)|
    ensures |Filter(s, g)| == |Filter(s, f)| <==> forall i :: 0 <= i < |s| ==> f(s[i]) == g(s[i])
    ensures (forall i :: 0 <= i < |s| ==> f(s[i]) == g(s[i])) ==> Filter(s, g) == Filter(s, f)
  {
    if s != [] {
      var rest := s[1..];
      assert forall i :: 0 <= i < |rest| ==> rest[i] == s[i + 1];
      assert forall i :: 0 < i < |s| ==> s[i] == rest[i - 1];
      FilterShrinks(rest, f, g);
    }
  }
}
