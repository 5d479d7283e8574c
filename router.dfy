/** The path router `applyNested`, in its two variants: src/model.ts applies the
    embedded reducer to the addressed node in place, src/slice.ts assigns the
    reducer's return value back into the parent. Both consume the key array
    they are given, one `shift()` per level. */
module Router {
  import opened Base
  import opened Text
  import opened Tree

  /** The payload of an action: a plain value, or the `{ $$data, $$keys }`
      envelope the action decorator builds. */
  datatype Payload = Plain(v: Value) | Envelope(data: Value, keys: seq<string>)

  /** What an async thunk's phase actions carry in `meta`; `arg` is the argument
      the thunk was dispatched with. */
  datatype Meta = Meta(arg: Payload, requestId: string)

  datatype Action = Action(actionType: string, payload: Payload, meta: Option<Meta>)

  /** What a reducer does to a node: the node after its in-place mutations, and
      the value it returned, if it returned one. */
  datatype Effect = Effect(mutated: Value, replacement: Option<Value>)

  /** An embedded model's reducer or phase handler; it comes from outside the core. */
  type Reducer = (Value, Action) -> Effect

  /** A JavaScript array of strings that the router shifts in place. */
  class KeyArray {
    var items: seq<string>

    constructor (items: seq<string>)
      ensures this.items == items
    {
      this.items := items;
    }

    /** `keys.shift()`. */
    method Shift() returns (first: Option<string>)
      modifies this
      ensures old(items) == [] ==> first == None && items == []
      ensures old(items) != [] ==> first == Some(old(items)[0]) && items == old(items)[1..]
    {
      if items == [] {
        first := None;
      } else {
        first := Some(items[0]);
        items := items[1..];
      }
    }
  }

  /** The key one segment selects: `parseInt` succeeds, so an index; otherwise a field name. */
  function ToKey(segment: string): Key
  {
    var n := ParseInt(segment);
    if n.Some? then Idx(n.value) else Prop(segment)
  }

  /** The path `applyNested` reaches with `keys`, or `None` when it meets an
      empty key (or no key) before the reducer is called. */
  function Route(keys: seq<string>): Option<seq<Key>>
  {
    if keys == [] || keys[0] == "" then None
    else if |keys| == 1 then Some([ToKey(keys[0])])
    else
      match Route(keys[1..])
      case None => None
      case Some(p) => Some([ToKey(keys[0])] + p)
  }

  /** What is left of the key array afterwards: everything up to and including
      the first empty key has been shifted off. */
  function Remaining(keys: seq<string>): seq<string>
  {
    if keys == [] then []
    else if keys[0] == "" then keys[1..]
    else Remaining(keys[1..])
  }

  function Prepend(prefix: seq<Key>, r: Option<seq<Key>>): Option<seq<Key>>
  {
    match r
    case None => None
    case Some(p) => Some(prefix + p)
  }

  lemma PrependNil(r: Option<seq<Key>>)
    ensures Prepend([], r) == r
  {
    if r.Some? {
      assert [] + r.value == r.value;
    }
  }

  lemma PrependTwice(a: seq<Key>, b: seq<Key>, r: Option<seq<Key>>)
    ensures Prepend(a, Prepend(b, r)) == Prepend(a + b, r)
  {
    if r.Some? {
      assert a + (b + r.value) == (a + b) + r.value;
    }
  }

  /** The tree after `leaf` rewrote the node that `keys` route to. */
  function Applied(state: Value, keys: seq<string>, leaf: Value -> Value): Value
  {
    match Route(keys)
    case None => state
    case Some(path) => UpdatePath(state, path, leaf)
  }

  /** src/model.ts keeps the node as the reducer left it; a returned value is dropped. */
  function InPlace(reducer: Reducer, action: Action): Value -> Value
  {
    x => reducer(x, action).mutated
  }

  /** src/slice.ts stores what the reducer returned; when it returned nothing the
      reducer library hands back the mutated draft. */
  function Assigned(reducer: Reducer, action: Action): Value -> Value
  {
    x => var e := reducer(x, action); if e.replacement.Some? then e.replacement.value else e.mutated
  }

  /** The key-consuming descent common to both variants. */
  method Descend(keys: KeyArray) returns (path: Option<seq<Key>>)
    modifies keys
    ensures path == Route(old(keys.items))
    ensures keys.items == Remaining(old(keys.items))
  {
    ghost var start := keys.items;
    var resolved: seq<Key> := [];
    PrependNil(Route(keys.items));
    while true
      invariant resolved != [] ==> keys.items != []
      invariant Route(start) == Prepend(resolved, Route(keys.items))
      invariant Remaining(start) == Remaining(keys.items)
      decreases |keys.items|
    {
      ghost var before := keys.items;
      var fkey := keys.Shift();
      if fkey.None? || fkey.value == "" {
        return None;
      }
      resolved := resolved + [ToKey(fkey.value)];
      if keys.items == [] {
        return Some(resolved);
      }
      assert Route(before) == Prepend([ToKey(fkey.value)], Route(keys.items));
      PrependTwice(resolved[..|resolved| - 1], [ToKey(fkey.value)], Route(keys.items));
      assert resolved[..|resolved| - 1] + [ToKey(fkey.value)] == resolved;
    }
  }

  /** `applyNested` of src/model.ts:328-339. */
  method ApplyNestedInPlace(state: Value, keys: KeyArray, action: Action, reducer: Reducer) returns (next: Value)
    modifies keys
    ensures keys.items == Remaining(old(keys.items))
    ensures next == Applied(state, old(keys.items), InPlace(reducer, action))
  {
    var path := Descend(keys);
    next := if path.Some? then UpdatePath(state, path.value, InPlace(reducer, action)) else state;
  }

  /** `applyNested` of src/slice.ts:185-196. */
  method ApplyNestedAssign(state: Value, keys: KeyArray, action: Action, reducer: Reducer) returns (next: Value)
    modifies keys
    ensures keys.items == Remaining(old(keys.items))
    ensures next == Applied(state, old(keys.items), Assigned(reducer, action))
  {
    var path := Descend(keys);
    next := if path.Some? then UpdatePath(state, path.value, Assigned(reducer, action)) else state;
  }

  /** `applyNested` reaches a node exactly when the key list is non-empty and has
      no empty key; it then follows one key per segment, in order. */
  lemma {:induction false} RouteShape(keys: seq<string>)
    ensures Route(keys).Some? <==> keys != [] && forall i :: 0 <= i < |keys| ==> keys[i] != ""
    ensures Route(keys).Some? ==>
      |Route(keys).value| == |keys| && forall i :: 0 <= i < |keys| ==> Route(keys).value[i] == ToKey(keys[i])
  {
    if keys != [] && keys[0] != "" && |keys| > 1 {
      RouteShape(keys[1..]);
      if Route(keys[1..]).None? {
        var j :| 0 <= j < |keys[1..]| && keys[1..][j] == "";
        assert keys[j + 1] == "";
      }
    }
  }

  /** Whenever the reducer is reached, the caller's key array has been emptied. */
  lemma {:induction false} RoutedConsumesAll(keys: seq<string>)
    requires Route(keys).Some?
    ensures Remaining(keys) == []
  {
    if |keys| > 1 {
      RoutedConsumesAll(keys[1..]);
    }
  }

  /** A segment rendered from an index, as `${i}`, selects that array element. */
  lemma IndexSegment(i: nat)
    ensures ToKey(NatToString(i)) == Idx(i)
  {
    ParseIntOfNat(i);
  }

  /** The reducer is applied to exactly `state[k1]...[kn]`. */
  lemma AppliedAddresses(state: Value, keys: seq<string>, leaf: Value -> Value)
    requires Route(keys).Some? && GetPath(state, Route(keys).value).Some?
    ensures GetPath(Applied(state, keys, leaf), Route(keys).value)
         == Some(leaf(GetPath(state, Route(keys).value).value))
  {
    UpdateAddressed(state, Route(keys).value, leaf);
  }

  /** No node off the routed path is touched. */
  lemma AppliedElsewhere(state: Value, keys: seq<string>, leaf: Value -> Value, q: seq<Key>)
    requires Route(keys).Some? && Diverge(Route(keys).value, q)
    requires GetPath(state, q).Some?
    ensures GetPath(Applied(state, keys, leaf), q) == GetPath(state, q)
  {
    UpdateElsewhere(state, Route(keys).value, leaf, q);
  }

  lemma {:induction false} UpdateCongruent(v: Value, path: seq<Key>, f: Value -> Value, g: Value -> Value)
    requires forall x :: f(x) == g(x)
    ensures UpdatePath(v, path, f) == UpdatePath(v, path, g)
    decreases |path|
  {
    if path != [] {
      match Child(v, path[0])
      case None =>
      case Some(c) => UpdateCongruent(c, path[1..], f, g);
    }
  }

  /** The two variants agree for a reducer that only mutates its node and
      returns nothing, which is how embedded reducers are written. */
  lemma VariantsAgree(state: Value, keys: seq<string>, reducer: Reducer, action: Action)
    requires forall x :: reducer(x, action).replacement.None?
    ensures Applied(state, keys, InPlace(reducer, action)) == Applied(state, keys, Assigned(reducer, action))
  {
    if Route(keys).Some? {
      UpdateCongruent(state, Route(keys).value, InPlace(reducer, action), Assigned(reducer, action));
    }
  }
}
