/** The tree flattener of src/model.ts (`getInitial` / `extractInitial`): it
    replaces embedding markers by their flattened default state and reports
    every embedding through a callback, with the path it was found at. */
module Flatten {
  import opened Base
  import opened Text
  import opened Tree
  import opened Models

  /** A declared initial state: plain data, arrays and objects of declared
      states, and the markers `asModel(m, d)` (single) and `asModelList(m, d)`
      (list). A marker built without a default has `Leaf(Undefined)`. */
  datatype Shape =
    | Leaf(value: Value)
    | Items(elems: seq<Shape>)
    | Fields(entries: seq<(string, Shape)>)
    | Embed(model: ModelRef, isList: bool, default: Shape)

  /** No marker's default is itself directly a marker (the source would walk
      such a default as an object with keys `$$model` and `$$state`). */
  predicate WellFormed(s: Shape)
  {
    match s
    case Leaf(_) => true
    case Items(elems) => forall i :: 0 <= i < |elems| ==> WellFormed(elems[i])
    case Fields(entries) => forall i :: 0 <= i < |entries| ==> WellFormed(entries[i].1)
    case Embed(_, _, d) => !d.Embed? && WellFormed(d)
  }

  /** One call of the callback: the embedding path and the embedded model. */
  datatype Event = Event(path: string, model: ModelRef)

  /** The callbacks fired, in order, and the flattened state; `None` when the
      walk threw "The whole state cannot be a slice instance". */
  datatype Walk = Walk(events: seq<Event>, result: Option<Value>)

  /** The path a field `k` is walked with: `parent ? ${parent}/${k} : k`. */
  function ChildPath(parent: string, k: string): string
  {
    if parent != "" then parent + "/" + k else k
  }

  /** `getInitial(state, cb, parent)`; an empty `parent` stands for none. */
  function InitialWalk(s: Shape, parent: string): Walk
    requires WellFormed(s)
    decreases s, 2
  {
    match s
    case Embed(m, isList, d) =>
      if parent == "" then Walk([], None)
      else
        var w := ExtractWalk(d, parent);
        Walk([Event(if isList then parent + "/[]" else parent, m)] + w.events, w.result)
    case _ => ExtractWalk(s, parent)
  }

  /** `extractInitial(state, cb, parent)`. */
  function ExtractWalk(s: Shape, parent: string): Walk
    requires WellFormed(s) && !s.Embed?
    decreases s, 1
  {
    match s
    case Leaf(v) => Walk([], Some(v))
    case Items(elems) => ItemsWalk(elems, |elems|)
    case Fields(entries) => FieldsWalk(entries, |entries|, parent)
  }

  /** The first `n` steps of `state.map((s, index) => getInitial(s, cb, `${index}`))`. */
  function ItemsWalk(elems: seq<Shape>, n: nat): (w: Walk)
    requires n <= |elems| && forall i :: 0 <= i < |elems| ==> WellFormed(elems[i])
    ensures w.result.Some? ==> w.result.value.Arr? && |w.result.value.items| == n
    decreases Items(elems), 0, n
  {
    if n == 0 then Walk([], Some(Arr([])))
    else
      var prev := ItemsWalk(elems, n - 1);
      if prev.result.None? then prev
      else
        var w := InitialWalk(elems[n - 1], NatToString(n - 1));
        Walk(prev.events + w.events,
             if w.result.None? then None else Some(Arr(prev.result.value.items + [w.result.value])))
  }

  /** The first `n` rounds of the `for (const k of keys)` loop; with no keys the
      object `{}` is returned as it is. */
  function FieldsWalk(entries: seq<(string, Shape)>, n: nat, parent: string): (w: Walk)
    requires n <= |entries| && forall i :: 0 <= i < |entries| ==> WellFormed(entries[i].1)
    ensures w.result.Some? ==> w.result.value.Obj? && |w.result.value.fields| == n
    decreases Fields(entries), 0, n
  {
    if n == 0 then Walk([], Some(Obj([])))
    else
      var prev := FieldsWalk(entries, n - 1, parent);
      if prev.result.None? then prev
      else
        var (k, child) := entries[n - 1];
        var w := InitialWalk(child, ChildPath(parent, k));
        Walk(prev.events + w.events,
             if w.result.None? then None else Some(Obj(prev.result.value.fields + [(k, w.result.value)])))
  }

  /** Stands for the callback `cb`: it records every call, in order. */
  class Recorder {
    var calls: seq<Event>

    constructor ()
      ensures calls == []
    {
      calls := [];
    }

    method Fire(e: Event)
      modifies this
      ensures calls == old(calls) + [e]
    {
      calls := calls + [e];
    }
  }

  lemma {:induction false} ItemsThrowPersists(elems: seq<Shape>, j: nat, n: nat)
    requires j <= n <= |elems| && forall i :: 0 <= i < |elems| ==> WellFormed(elems[i])
    requires ItemsWalk(elems, j).result.None?
    ensures ItemsWalk(elems, n) == ItemsWalk(elems, j)
    decreases n
  {
    if n > j {
      ItemsThrowPersists(elems, j, n - 1);
    }
  }

  lemma {:induction false} FieldsThrowPersists(entries: seq<(string, Shape)>, j: nat, n: nat, parent: string)
    requires j <= n <= |entries| && forall i :: 0 <= i < |entries| ==> WellFormed(entries[i].1)
    requires FieldsWalk(entries, j, parent).result.None?
    ensures FieldsWalk(entries, n, parent) == FieldsWalk(entries, j, parent)
    decreases n
  {
    if n > j {
      FieldsThrowPersists(entries, j, n - 1, parent);
    }
  }

  lemma ItemsStep(elems: seq<Shape>, i: nat)
    requires i < |elems| && forall j :: 0 <= j < |elems| ==> WellFormed(elems[j])
    requires ItemsWalk(elems, i).result.Some?
    ensures var prev := ItemsWalk(elems, i);
            var w := InitialWalk(elems[i], NatToString(i));
            ItemsWalk(elems, i + 1)
            == Walk(prev.events + w.events,
                    if w.result.None? then None else Some(Arr(prev.result.value.items + [w.result.value])))
  {
  }

  lemma FieldsStep(entries: seq<(string, Shape)>, i: nat, parent: string)
    requires i < |entries| && forall j :: 0 <= j < |entries| ==> WellFormed(entries[j].1)
    requires FieldsWalk(entries, i, parent).result.Some?
    ensures var prev := FieldsWalk(entries, i, parent);
            var w := InitialWalk(entries[i].1, ChildPath(parent, entries[i].0));
            FieldsWalk(entries, i + 1, parent)
            == Walk(prev.events + w.events,
                    if w.result.None? then None
                    else Some(Obj(prev.result.value.fields + [(entries[i].0, w.result.value)])))
  {
  }

  /** `getInitial` of src/model.ts:306-326; `None` is the thrown error. */
  method GetInitial(s: Shape, cb: Recorder, parent: string) returns (r: Option<Value>)
    requires WellFormed(s)
    modifies cb
    ensures cb.calls == old(cb.calls) + InitialWalk(s, parent).events
    ensures r == InitialWalk(s, parent).result
    decreases s, 2
  {
    if s.Embed? {
      if parent == "" {
        return None;
      }
      cb.Fire(Event(if s.isList then parent + "/[]" else parent, s.model));
      r := ExtractInitial(s.default, cb, parent);
    } else {
      r := ExtractInitial(s, cb, parent);
    }
  }

  /** `extractInitial` of src/model.ts:281-304. */
  method ExtractInitial(s: Shape, cb: Recorder, parent: string) returns (r: Option<Value>)
    requires WellFormed(s) && !s.Embed?
    modifies cb
    ensures cb.calls == old(cb.calls) + ExtractWalk(s, parent).events
    ensures r == ExtractWalk(s, parent).result
    decreases s, 1
  {
    match s
    case Leaf(v) => r := Some(v);
    case Items(elems) => r := ExtractItems(elems, cb);
    case Fields(entries) => r := ExtractFields(entries, cb, parent);
  }

  /** The `state.map(...)` branch: each element is walked with path `${index}`. */
  method ExtractItems(elems: seq<Shape>, cb: Recorder) returns (r: Option<Value>)
    requires forall i :: 0 <= i < |elems| ==> WellFormed(elems[i])
    modifies cb
    ensures cb.calls == old(cb.calls) + ItemsWalk(elems, |elems|).events
    ensures r == ItemsWalk(elems, |elems|).result
    decreases Items(elems), 0
  {
    var items: seq<Value> := [];
    var i := 0;
    while i < |elems|
      invariant 0 <= i <= |elems|
      invariant ItemsWalk(elems, i).result == Some(Arr(items))
      invariant cb.calls == old(cb.calls) + ItemsWalk(elems, i).events
    {
      var path := NatToString(i);
      var x := GetInitial(elems[i], cb, path);
      ItemsStep(elems, i);
      assert cb.calls == old(cb.calls) + ItemsWalk(elems, i + 1).events by {
        AppendAssoc(old(cb.calls), ItemsWalk(elems, i).events, InitialWalk(elems[i], path).events);
      }
      if x.None? {
        ItemsThrowPersists(elems, i + 1, |elems|);
        return None;
      }
      items := items + [x.value];
      i := i + 1;
    }
    r := Some(Arr(items));
  }

  /** The `for (const k of keys)` loop that builds the flattened object. */
  method ExtractFields(entries: seq<(string, Shape)>, cb: Recorder, parent: string) returns (r: Option<Value>)
    requires forall i :: 0 <= i < |entries| ==> WellFormed(entries[i].1)
    modifies cb
    ensures cb.calls == old(cb.calls) + FieldsWalk(entries, |entries|, parent).events
    ensures r == FieldsWalk(entries, |entries|, parent).result
    decreases Fields(entries), 0
  {
    var fields: seq<(string, Value)> := [];
    var i := 0;
    while i < |entries|
      invariant 0 <= i <= |entries|
      invariant FieldsWalk(entries, i, parent).result == Some(Obj(fields))
      invariant cb.calls == old(cb.calls) + FieldsWalk(entries, i, parent).events
    {
      var (k, child) := entries[i];
      ghost var before := cb.calls;
      var x := GetInitial(child, cb, ChildPath(parent, k));
      FieldsStep(entries, i, parent);
      assert cb.calls == old(cb.calls) + FieldsWalk(entries, i + 1, parent).events by {
        AppendAssoc(old(cb.calls), FieldsWalk(entries, i, parent).events, InitialWalk(child, ChildPath(parent, k)).events);
      }
      if x.None? {
        FieldsThrowPersists(entries, i + 1, |entries|, parent);
        return None;
      }
      fields := fields + [(k, x.value)];
      i := i + 1;
    }
    r := Some(Obj(fields));
  }

  /** A marker at the root has no path to register under: the walk throws and
      no callback has fired. */
  lemma RootInstanceRejected(s: Shape)
    requires WellFormed(s) && s.Embed?
    ensures InitialWalk(s, "").result.None? && InitialWalk(s, "").events == []
  {
  }

  /** A marker under a path fires the callback once, first, with the path (a
      list marker with `${parent}/[]`), and is replaced by its flattened default,
      which is walked under the same path. */
  lemma MarkerWalk(s: Shape, parent: string)
    requires WellFormed(s) && s.Embed? && parent != ""
    ensures var w := InitialWalk(s, parent);
            var d := ExtractWalk(s.default, parent);
            && |w.events| >= 1
            && w.events[0] == Event(if s.isList then parent + "/[]" else parent, s.model)
            && w.events[1..] == d.events
            && w.result == d.result
  {
  }

  /** A non-empty object keeps exactly its keys, in order; the child under `k` is
      walked with path `${parent}/${k}`, or `k` at the top. */
  lemma {:induction false} FieldsKeepKeys(entries: seq<(string, Shape)>, n: nat, parent: string)
    requires n <= |entries| && forall i :: 0 <= i < |entries| ==> WellFormed(entries[i].1)
    requires FieldsWalk(entries, n, parent).result.Some?
    ensures var fields := FieldsWalk(entries, n, parent).result.value.fields;
            forall i :: 0 <= i < n ==>
              && fields[i].0 == entries[i].0
              && InitialWalk(entries[i].1, ChildPath(parent, entries[i].0)).result == Some(fields[i].1)
    decreases n
  {
    if n > 0 {
      FieldsKeepKeys(entries, n - 1, parent);
    }
  }

  /** An array keeps its length; element `i` is walked with path `${i}`. */
  lemma {:induction false} ItemsKeepLength(elems: seq<Shape>, n: nat)
    requires n <= |elems| && forall i :: 0 <= i < |elems| ==> WellFormed(elems[i])
    requires ItemsWalk(elems, n).result.Some?
    ensures var items := ItemsWalk(elems, n).result.value.items;
            forall i :: 0 <= i < n ==> InitialWalk(elems[i], NatToString(i)).result == Some(items[i])
    decreases n
  {
    if n > 0 {
      ItemsKeepLength(elems, n - 1);
    }
  }

  /** Plain data written as a declared state. */
  function Lift(v: Value): (s: Shape)
    ensures WellFormed(s) && !s.Embed?
  {
    match v
    case Arr(items) => Items(seq(|items|, i requires 0 <= i < |items| => Lift(items[i])))
    case Obj(fields) => Fields(seq(|fields|, i requires 0 <= i < |fields| => (fields[i].0, Lift(fields[i].1))))
    case _ => Leaf(v)
  }

  /** Plain data (scalars, `null`, `{}`, and arrays and objects of plain data)
      comes out of the walk as it went in, and no callback fires. */
  lemma {:induction false} PlainDataUnchanged(v: Value, parent: string)
    ensures InitialWalk(Lift(v), parent) == Walk([], Some(v))
    decreases v, 1
  {
    match v
    case Arr(items) =>
      LiftItems(items, |items|);
      assert items[..|items|] == items;
    case Obj(fields) =>
      LiftFields(fields, |fields|, parent);
      assert fields[..|fields|] == fields;
    case _ =>
  }

  lemma {:induction false} LiftItems(items: seq<Value>, n: nat)
    requires n <= |items|
    ensures var elems := Lift(Arr(items)).elems;
            ItemsWalk(elems, n) == Walk([], Some(Arr(items[..n])))
    decreases Arr(items), 0, n
  {
    if n > 0 {
      LiftItems(items, n - 1);
      PlainDataUnchanged(items[n - 1], NatToString(n - 1));
      assert items[..n] == items[..n - 1] + [items[n - 1]];
    }
  }

  lemma {:induction false} LiftFields(fields: seq<(string, Value)>, n: nat, parent: string)
    requires n <= |fields|
    ensures var entries := Lift(Obj(fields)).entries;
            FieldsWalk(entries, n, parent) == Walk([], Some(Obj(fields[..n])))
    decreases Obj(fields), 0, n
  {
    if n > 0 {
      LiftFields(fields, n - 1, parent);
      var (k, x) := fields[n - 1];
      assert x < Obj(fields);
      PlainDataUnchanged(x, ChildPath(parent, k));
      assert fields[..n] == fields[..n - 1] + [(k, x)];
    }
  }
}
