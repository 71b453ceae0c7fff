/** Store calls on named objects: what one call does, and runs that may stop after any call. */
module Calls {
  import opened Text
  import opened Keys

  datatype Mode = Overwrite | CreateOnly | FailIfExists

  datatype Op = Put(key: Key, data: string, mode: Mode) | Delete(key: Key)

  type Objects = map<Key, string>

  const CONFLICT := "object conflicts"

  /** One call: a `Put` of bytes already there (by digest) does nothing; other bytes are replaced or refused. */
  function Apply(md5: string -> string, objects: Objects, op: Op): Result<Objects> {
    match op
    case Delete(key) => Ok(objects - {key})
    case Put(key, data, mode) =>
      if key in objects && md5(objects[key]) == md5(data) then Ok(objects)
      else if key in objects && mode != Overwrite then Err(CONFLICT)
      else Ok(objects[key := data])
  }

  /** A store and the number of calls before the run is cut off. */
  datatype Store = Store(objects: Objects, budget: nat)

  datatype Attempt = Attempt(store: Store, ok: bool)

  function Step(md5: string -> string, store: Store, op: Op): Attempt {
    if store.budget == 0 then Attempt(store, false)
    else
      var r := Apply(md5, store.objects, op);
      if r.Err? then Attempt(Store(store.objects, store.budget - 1), false)
      else Attempt(Store(r.value, store.budget - 1), true)
  }

  /** The calls in order, up to the first that fails or the end of the budget. */
  function Exec(md5: string -> string, store: Store, ops: seq<Op>): Attempt
    decreases |ops|
  {
    if ops == [] then Attempt(store, true)
    else
      var first := Step(md5, store, ops[0]);
      if first.ok then Exec(md5, first.store, ops[1..]) else first
  }

  lemma {:induction false} ExecAppend(md5: string -> string, store: Store, a: seq<Op>, b: seq<Op>)
    ensures var first := Exec(md5, store, a);
            Exec(md5, store, a + b) == if first.ok then Exec(md5, first.store, b) else first
    decreases |a|
  {
    if a == [] {
      AppendEmpty(b);
    } else {
      var first := Step(md5, store, a[0]);
      assert (a + b)[0] == a[0] && (a + b)[1..] == a[1..] + b;
      if first.ok {
        ExecAppend(md5, first.store, a[1..], b);
      }
    }
  }

  lemma {:induction false} ExecOne(md5: string -> string, store: Store, op: Op)
    ensures Exec(md5, store, [op]) == Step(md5, store, op)
  {
    assert [op][1..] == [];
  }

  lemma {:induction false} ExecTwo(md5: string -> string, store: Store, a: Op, b: Op)
    ensures var first := Step(md5, store, a);
            Exec(md5, store, [a, b]) == if first.ok then Step(md5, first.store, b) else first
  {
    var first := Step(md5, store, a);
    assert [a, b][1..] == [b];
    ExecOne(md5, first.store, b);
  }

  lemma {:induction false} ExecThree(md5: string -> string, store: Store, a: Op, b: Op, c: Op)
    ensures var first := Step(md5, store, a);
            Exec(md5, store, [a, b, c]) == if first.ok then Exec(md5, first.store, [b, c]) else first
  {
    assert [a, b, c][1..] == [b, c];
  }

  /** The store a program works on. */
  class Bucket {
    const md5: string -> string
    var objects: Objects
    var budget: nat

    function View(): Store
      reads this
    {
      Store(objects, budget)
    }

    constructor (md5: string -> string, objects: Objects, budget: nat)
      ensures this.md5 == md5 && View() == Store(objects, budget)
    {
      this.md5, this.objects, this.budget := md5, objects, budget;
    }

    method Put(key: Key, data: string, mode: Mode) returns (ok: bool)
      modifies this
      ensures Attempt(View(), ok) == Step(md5, old(View()), Op.Put(key, data, mode))
    {
      if budget == 0 {
        return false;
      }
      budget := budget - 1;
      if key in objects {
        if md5(objects[key]) == md5(data) {
          return true;
        }
        if mode != Overwrite {
          return false;
        }
      }
      objects := objects[key := data];
      return true;
    }

    method Delete(key: Key) returns (ok: bool)
      modifies this
      ensures Attempt(View(), ok) == Step(md5, old(View()), Op.Delete(key))
    {
      if budget == 0 {
        return false;
      }
      budget := budget - 1;
      objects := objects - {key};
      return true;
    }

    method Get(key: Key) returns (data: Option<string>)
      ensures data == if key in objects then Some(objects[key]) else None
    {
      if key in objects {
        return Some(objects[key]);
      }
      return None;
    }

    /** `Head` by the text of a key. */
    method Head(text: string) returns (found: bool)
      ensures found == Found(objects, text)
    {
      return exists key :: key in objects && KeyText(key) == text;
    }
  }

  // ---- the same calls on keys as text

  /** A store whose names are all clean. */
  ghost predicate CleanNames(objects: Objects) {
    forall key :: key in objects ==> CleanName(key)
  }

  /** The objects under the text of their names. */
  ghost function Image(objects: Objects): map<string, string>
    requires CleanNames(objects)
  {
    map text | text in Texts(objects) :: objects[NameFor(objects, text)]
  }

  /** An object is stored under this key text. */
  predicate Found(objects: Objects, text: string) {
    exists key :: key in objects && KeyText(key) == text
  }

  /** A text below `pool/` can only be the name of a body. */
  lemma {:induction false} FoundBody(objects: Objects, path: string)
    requires HasPrefix(path, "pool/")
    ensures Found(objects, path) <==> Pool(path) in objects
  {
    assert KeyText(Pool(path)) == path;
    forall key | key in objects && KeyText(key) == path ensures key == Pool(path) {
      if !key.Pool? {
        DistsIsNotPool(key);
      }
    }
  }

  ghost function Texts(objects: Objects): set<string> {
    set key | key in objects :: KeyText(key)
  }

  ghost function NameFor(objects: Objects, text: string): (key: Key)
    requires text in Texts(objects)
    ensures key in objects && KeyText(key) == text
  {
    var key :| key in objects && KeyText(key) == text;
    key
  }

  lemma {:induction false} ImageAt(objects: Objects, key: Key)
    requires CleanNames(objects) && CleanName(key)
    ensures KeyText(key) in Image(objects) <==> key in objects
    ensures key in objects ==> Image(objects)[KeyText(key)] == objects[key]
  {
    if KeyText(key) in Texts(objects) {
      KeyTextInjective(NameFor(objects, KeyText(key)), key);
    }
  }

  /** A call on a name is the same call on its key: no other object changes. */
  lemma {:induction false} ImageOfPut(objects: Objects, key: Key, data: string)
    requires CleanNames(objects) && CleanName(key)
    ensures CleanNames(objects[key := data])
    ensures Image(objects[key := data]) == Image(objects)[KeyText(key) := data]
  {
    var after := objects[key := data];
    assert Texts(after) == Texts(objects) + {KeyText(key)} by {
      assert key in after;
      forall k | k in objects ensures KeyText(k) in Texts(after) {
        assert k in after;
      }
    }
    forall text | text in Texts(after)
      ensures Image(after)[text] == Image(objects)[KeyText(key) := data][text]
    {
      var k := NameFor(after, text);
      if k == key {
        assert text == KeyText(key);
      } else {
        if text == KeyText(key) {
          KeyTextInjective(k, key);
        }
        ImageAt(objects, k);
      }
    }
  }

  lemma {:induction false} ImageOfDelete(objects: Objects, key: Key)
    requires CleanNames(objects) && CleanName(key)
    ensures CleanNames(objects - {key})
    ensures Image(objects - {key}) == Image(objects) - {KeyText(key)}
  {
    var after := objects - {key};
    forall text
      ensures text in Image(after) <==> text in Image(objects) - {KeyText(key)}
      ensures text in Image(after) ==> Image(after)[text] == Image(objects)[text]
    {
      if text in Texts(after) {
        var k := NameFor(after, text);
        ImageAt(objects, k);
        if text == KeyText(key) {
          KeyTextInjective(k, key);
        }
      }
      if text in Texts(objects) && text != KeyText(key) {
        var k := NameFor(objects, text);
        assert k in after;
      }
    }
  }
}
