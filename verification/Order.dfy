/** Byte order on strings and the sorted list of a set, as `sort.Strings` returns it. */
module Order {

  predicate Leq(a: string, b: string) {
    a == "" || (b != "" && (a[0] < b[0] || (a[0] == b[0] && Leq(a[1..], b[1..]))))
  }

  lemma {:induction false} LeqReflexive(a: string)
    ensures Leq(a, a)
  {
    if a != "" {
      LeqReflexive(a[1..]);
    }
  }

  lemma {:induction false} LeqTotal(a: string, b: string)
    ensures Leq(a, b) || Leq(b, a)
  {
    if a != "" && b != "" && a[0] == b[0] {
      LeqTotal(a[1..], b[1..]);
    }
  }

  lemma {:induction false} LeqAntisymmetric(a: string, b: string)
    requires Leq(a, b) && Leq(b, a)
    ensures a == b
  {
    if a != "" && b != "" {
      LeqAntisymmetric(a[1..], b[1..]);
      assert a == [a[0]] + a[1..] && b == [b[0]] + b[1..];
    }
  }

  lemma {:induction false} LeqTransitive(a: string, b: string, c: string)
    requires Leq(a, b) && Leq(b, c)
    ensures Leq(a, c)
  {
    if a != "" && a[0] == b[0] == c[0] {
      LeqTransitive(a[1..], b[1..], c[1..]);
    }
  }

  predicate Least(x: string, s: set<string>) {
    x in s && forall y :: y in s ==> Leq(x, y)
  }

  lemma {:induction false} LeastExists(s: set<string>) returns (least: string)
    requires s != {}
    ensures Least(least, s)
    decreases |s|
  {
    var x :| x in s;
    least := x;
    LeqReflexive(x);
    if s != {x} {
      var y := LeastExists(s - {x});
      LeqTotal(x, y);
      if !Leq(x, y) {
        least := y;
      }
      forall z | z in s ensures Leq(least, z) {
        if z != x {
          assert Leq(y, z);
          if least == x {
            LeqTransitive(x, y, z);
          }
        }
      }
    }
  }

  lemma {:induction false} LeastUnique(x: string, y: string, s: set<string>)
    requires Least(x, s) && Least(y, s)
    ensures x == y
  {
    LeqAntisymmetric(x, y);
  }

  lemma {:induction false} SomeLeast(s: set<string>)
    requires s != {}
    ensures exists x :: Least(x, s)
  {
    var x := LeastExists(s);
  }

  function Minimum(s: set<string>): (x: string)
    requires s != {}
    ensures Least(x, s)
  {
    SomeLeast(s);
    LeastIsUnique(s);
    var x :| Least(x, s);
    x
  }

  lemma {:induction false} LeastIsUnique(s: set<string>)
    ensures forall x, y :: Least(x, s) && Least(y, s) ==> x == y
  {
    forall x, y | Least(x, s) && Least(y, s) ensures x == y {
      LeastUnique(x, y, s);
    }
  }

  ghost predicate Ascending(names: seq<string>) {
    forall i, j :: 0 <= i < j < |names| ==> Leq(names[i], names[j]) && names[i] != names[j]
  }

  /** The elements of a set in ascending order. */
  function SortedSet(s: set<string>): (names: seq<string>)
    ensures forall x :: x in names <==> x in s
    ensures Ascending(names)
    decreases |s|
  {
    if s == {} then []
    else
      var x := Minimum(s);
      [x] + SortedSet(s - {x})
  }

  ghost predicate Lists(names: seq<string>, s: set<string>) {
    forall x :: x in names <==> x in s
  }

  lemma {:induction false} HeadIsLeast(names: seq<string>, s: set<string>)
    requires names != [] && Ascending(names) && Lists(names, s)
    ensures Least(names[0], s)
  {
    forall y | y in s ensures Leq(names[0], y) {
      var i :| 0 <= i < |names| && names[i] == y;
      LeqReflexive(y);
    }
    assert names[0] in names;
  }

  lemma {:induction false} TailLists(names: seq<string>, s: set<string>)
    requires names != [] && Ascending(names) && Lists(names, s)
    ensures Ascending(names[1..]) && Lists(names[1..], s - {names[0]})
  {
    var rest := names[1..];
    forall i, j | 0 <= i < j < |rest| ensures Leq(rest[i], rest[j]) && rest[i] != rest[j] {
      assert rest[i] == names[i + 1] && rest[j] == names[j + 1];
    }
    forall y ensures y in rest <==> y in s - {names[0]} {
      if y in rest {
        var i :| 0 <= i < |rest| && rest[i] == y;
        assert names[i + 1] == y && y in names;
      }
      if y in s && y != names[0] {
        var i :| 0 <= i < |names| && names[i] == y;
        assert rest[i - 1] == y;
      }
    }
  }

  /** A set has one ascending list. */
  lemma {:induction false} SortedUnique(names: seq<string>, s: set<string>)
    requires Ascending(names) && Lists(names, s)
    ensures names == SortedSet(s)
    decreases |names|
  {
    if names == [] {
      assert s == {};
    } else {
      HeadIsLeast(names, s);
      LeastUnique(names[0], Minimum(s), s);
      TailLists(names, s);
      SortedUnique(names[1..], s - {names[0]});
      assert names == [names[0]] + names[1..];
    }
  }
}
