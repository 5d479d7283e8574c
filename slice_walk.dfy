/** The tree flattener of src/slice.ts (`getInitial`, src/slice.ts:150-183):
    slices are embedded as the slice objects themselves; the callback gets the
    bare field name, or `${parent}/0` for an array whose first element is a slice. */
module SliceWalk {
  import opened Base
  import opened Text
  import opened Tree

  /** What the flattener needs of an embedded slice: its name, its action
      names in order (`$$actions`) and its flattened initial state (`$$state`). */
  datatype SliceRef = SliceRef(name: string, actions: seq<string>, state: Value)

  /** A declared initial state of the older variant: plain data, arrays and
      objects of declared states, and slice instances. */
  datatype Part =
    | Data(value: Value)
    | List(elems: seq<Part>)
    | Record(fields: seq<(string, Part)>)
    | Instance(slice: SliceRef)

  /** One call of the callback: the path it was given and the slice. */
  datatype Found = Found(path: string, slice: SliceRef)

  /** The callbacks fired, in order, and the flattened state; `None` when the
      walk threw "The whole state cannot be a slice instance". */
  datatype Scan = Scan(found: seq<Found>, result: Option<Value>)

  /** `getInitial(state, cb, parent)`; an empty `parent` stands for none. */
  function Initial(p: Part, parent: string): Scan
    decreases p, 1
  {
    match p
    case Instance(sl) =>
      if parent == "" then Scan([], None) else Scan([Found(parent, sl)], Some(sl.state))
    case Data(v) => Scan([], Some(v))
    case List(elems) =>
      if |elems| > 0 && elems[0].Instance? then
        Scan([Found(if parent != "" then parent + "/0" else "0", elems[0].slice)], Some(Arr([])))
      else ListScan(elems, |elems|)
    case Record(fields) => RecordScan(fields, |fields|)
  }

  /** The first `n` steps of `state.map((s, index) => getInitial(s, cb, `${index}`))`. */
  function ListScan(elems: seq<Part>, n: nat): (w: Scan)
    requires n <= |elems|
    ensures w.result.Some? ==> w.result.value.Arr? && |w.result.value.items| == n
    decreases List(elems), 0, n
  {
    if n == 0 then Scan([], Some(Arr([])))
    else
      var prev := ListScan(elems, n - 1);
      if prev.result.None? then prev
      else
        var w := Initial(elems[n - 1], NatToString(n - 1));
        Scan(prev.found + w.found,
             if w.result.None? then None else Some(Arr(prev.result.value.items + [w.result.value])))
  }

  /** The first `n` rounds of `for (const k of keys) obj[k] = getInitial(state[k], cb, k)`;
      with no keys the object `{}` is returned as it is. */
  function RecordScan(fields: seq<(string, Part)>, n: nat): (w: Scan)
    requires n <= |fields|
    ensures w.result.Some? ==> w.result.value.Obj? && |w.result.value.fields| == n
    decreases Record(fields), 0, n
  {
    if n == 0 then Scan([], Some(Obj([])))
    else
      var prev := RecordScan(fields, n - 1);
      if prev.result.None? then prev
      else
        var (k, child) := fields[n - 1];
        var w := Initial(child, k);
        Scan(prev.found + w.found,
             if w.result.None? then None else Some(Obj(prev.result.value.fields + [(k, w.result.value)])))
  }

  /** Stands for the callback `cb`: it records every call, in order. */
  class Finder {
    var found: seq<Found>

    constructor ()
      ensures found == []
    {
      found := [];
    }

    method Report(f: Found)
      modifies this
      ensures found == old(found) + [f]
    {
      found := found + [f];
    }
  }

  lemma {:induction false} ListThrowPersists(elems: seq<Part>, j: nat, n: nat)
    requires j <= n <= |elems| && ListScan(elems, j).result.None?
    ensures ListScan(elems, n) == ListScan(elems, j)
    decreases n
  {
    if n > j {
      ListThrowPersists(elems, j, n - 1);
    }
  }

  lemma {:induction false} RecordThrowPersists(fields: seq<(string, Part)>, j: nat, n: nat)
    requires j <= n <= |fields| && RecordScan(fields, j).result.None?
    ensures RecordScan(fields, n) == RecordScan(fields, j)
    decreases n
  {
    if n > j {
      RecordThrowPersists(fields, j, n - 1);
    }
  }

  lemma ListStep(elems: seq<Part>, i: nat)
    requires i < |elems| && ListScan(elems, i).result.Some?
    ensures var prev := ListScan(elems, i);
            var w := Initial(elems[i], NatToString(i));
            ListScan(elems, i + 1)
            == Scan(prev.found + w.found,
                    if w.result.None? then None else Some(Arr(prev.result.value.items + [w.result.value])))
  {
  }

  lemma RecordStep(fields: seq<(string, Part)>, i: nat)
    requires i < |fields| && RecordScan(fields, i).result.Some?
    ensures var prev := RecordScan(fields, i);
            var w := Initial(fields[i].1, fields[i].0);
            RecordScan(fields, i + 1)
            == Scan(prev.found + w.found,
                    if w.result.None? then None else Some(Obj(prev.result.value.fields + [(fields[i].0, w.result.value)])))
  {
  }

  /** `getInitial` of src/slice.ts:150-183; `None` is the thrown error. */
  method GetInitial(p: Part, cb: Finder, parent: string) returns (r: Option<Value>)
    modifies cb
    ensures cb.found == old(cb.found) + Initial(p, parent).found
    ensures r == Initial(p, parent).result
    decreases p, 1
  {
    match p
    case Instance(sl) =>
      if parent == "" {
        return None;
      }
      cb.Report(Found(parent, sl));
      r := Some(sl.state);
    case Data(v) =>
      r := Some(v);
    case List(elems) =>
      if |elems| > 0 && elems[0].Instance? {
        cb.Report(Found(if parent != "" then parent + "/0" else "0", elems[0].slice));
        r := Some(Arr([]));
      } else {
        r := GetItems(elems, cb);
      }
    case Record(fields) =>
      r := GetFields(fields, cb);
  }

  /** The `state.map(...)` branch: element `i` is walked with parent `${i}`. */
  method GetItems(elems: seq<Part>, cb: Finder) returns (r: Option<Value>)
    modifies cb
    ensures cb.found == old(cb.found) + ListScan(elems, |elems|).found
    ensures r == ListScan(elems, |elems|).result
    decreases List(elems), 0
  {
    var items: seq<Value> := [];
    var i := 0;
    while i < |elems|
      invariant 0 <= i <= |elems|
      invariant ListScan(elems, i).result == Some(Arr(items))
      invariant cb.found == old(cb.found) + ListScan(elems, i).found
    {
      var path := NatToString(i);
      var x := GetInitial(elems[i], cb, path);
      ListStep(elems, i);
      assert cb.found == old(cb.found) + ListScan(elems, i + 1).found by {
        AppendAssoc(old(cb.found), ListScan(elems, i).found, Initial(elems[i], path).found);
      }
      if x.None? {
        ListThrowPersists(elems, i + 1, |elems|);
        return None;
      }
      items := items + [x.value];
      i := i + 1;
    }
    r := Some(Arr(items));
  }

  /** The `for (const k of keys)` loop: each child is walked with parent `k`. */
  method GetFields(fields: seq<(string, Part)>, cb: Finder) returns (r: Option<Value>)
    modifies cb
    ensures cb.found == old(cb.found) + RecordScan(fields, |fields|).found
    ensures r == RecordScan(fields, |fields|).result
    decreases Record(fields), 0
  {
    var obj: seq<(string, Value)> := [];
    var i := 0;
    while i < |fields|
      invariant 0 <= i <= |fields|
      invariant RecordScan(fields, i).result == Some(Obj(obj))
      invariant cb.found == old(cb.found) + RecordScan(fields, i).found
    {
      var (k, child) := fields[i];
      var x := GetInitial(child, cb, k);
      RecordStep(fields, i);
      assert cb.found == old(cb.found) + RecordScan(fields, i + 1).found by {
        AppendAssoc(old(cb.found), RecordScan(fields, i).found, Initial(child, k).found);
      }
      if x.None? {
        RecordThrowPersists(fields, i + 1, |fields|);
        return None;
      }
      obj := obj + [(k, x.value)];
      i := i + 1;
    }
    r := Some(Obj(obj));
  }

  /** A slice instance as the whole state throws before any callback fires;
      under a parent it fires the callback once and stands for its own
      flattened state, which is not walked again. */
  lemma InstanceFlattening(sl: SliceRef, parent: string)
    ensures Initial(Instance(sl), "") == Scan([], None)
    ensures parent != "" ==> Initial(Instance(sl), parent) == Scan([Found(parent, sl)], Some(sl.state))
  {
  }

  /** An array led by a slice registers that one slice at `${parent}/0` and
      flattens to `[]`; the other elements are not looked at. */
  lemma LeadingInstanceList(sl: SliceRef, rest: seq<Part>, parent: string)
    ensures Initial(List([Instance(sl)] + rest), parent)
         == Scan([Found(if parent != "" then parent + "/0" else "0", sl)], Some(Arr([])))
  {
  }

  /** A record's children are walked with their bare names, whatever the
      record's own path: a slice two records deep is registered under its own
      field name only, where src/model.ts would register `a/b`. */
  lemma BareKeyPaths(a: string, b: string, sl: SliceRef)
    requires b != ""
    ensures Initial(Record([(a, Record([(b, Instance(sl))]))]), "").found == [Found(b, sl)]
    ensures Initial(Record([(a, Record([(b, Instance(sl))]))]), "").result
         == Some(Obj([(a, Obj([(b, sl.state)]))]))
  {
    var innerFields := [(b, Instance(sl))];
    var outerFields := [(a, Record(innerFields))];
    assert Initial(Instance(sl), b) == Scan([Found(b, sl)], Some(sl.state));
    assert RecordScan(innerFields, 0) == Scan([], Some(Obj([])));
    assert [] + [Found(b, sl)] == [Found(b, sl)];
    assert [] + [(b, sl.state)] == [(b, sl.state)];
    assert RecordScan(innerFields, 1) == Scan([Found(b, sl)], Some(Obj([(b, sl.state)])));
    assert Initial(Record(innerFields), a) == RecordScan(innerFields, 1);
    assert RecordScan(outerFields, 0) == Scan([], Some(Obj([])));
    assert [] + [(a, Obj([(b, sl.state)]))] == [(a, Obj([(b, sl.state)]))];
    assert RecordScan(outerFields, 1) == Scan([Found(b, sl)], Some(Obj([(a, Obj([(b, sl.state)]))])));
  }
}
