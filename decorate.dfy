/** The action decorator `withActionProxy` of src/model.ts:194-227: it copies a
    selected state value and attaches, to every object node, the actions
    registered for that node, each bound to the node's key path. */
module ActionProxy {
  import opened Base
  import opened Text
  import opened Tree
  import opened Router

  /** An action bound by the decorator: calling it with `payload` dispatches
      `slice.actions[actionKey]({ $$data: payload, $$keys: [...keys] })`. */
  datatype Bound = Bound(actionKey: string, keys: seq<string>)

  /** The action a bound entry dispatches when called with `payload`: the
      decorating model's action creator `actionKey` gives it the type
      `${name}/${actionKey}`, and the envelope carries a copy of the keys. */
  function Dispatched(name: string, b: Bound, payload: Value): Action
  {
    Action(name + "/" + b.actionKey, Envelope(payload, b.keys), None)
  }

  /** A value as the decorator returns it. */
  datatype Decorated =
    | Same(v: Value)                               // not an object: returned as it is
    | Each(items: seq<Decorated>)                  // an array, element by element
    | Entries(fields: seq<(string, Decorated)>)    // an object (or `null`), with its actions
    | Call(bound: Bound)                           // an action entry

  /** `{ ...res, ...extra }`: the entries of `extra` assigned over `res`, in order. */
  function Spread<T>(res: seq<(string, T)>, extra: seq<(string, T)>): seq<(string, T)>
    decreases |extra|
  {
    if extra == [] then res else Spread(Assign(res, extra[0].0, extra[0].1), extra[1..])
  }

  /** `actKey`: the last key, or `'[]'` when there is none, it is empty, or
      `parseInt` reads a number from it (an element of an embedded list). */
  function ActKey(keys: seq<string>): string
  {
    if keys == [] then "[]"
    else
      var last := keys[|keys| - 1];
      if last != "" && ParseInt(last).None? then last else "[]"
  }

  /** `fnKey`: the keys before the last one, joined by `/`. */
  function FnKey(keys: seq<string>): string
  {
    if keys == [] then "" else Join(keys[..|keys| - 1], '/')
  }

  /** `sliceKey`: where the registry lists the actions of the node at `keys`. */
  function RegistryKey(name: string, keys: seq<string>): string
  {
    Join(NonEmpty([name, FnKey(keys), ActKey(keys)]), '/')
  }

  /** `actionKey`: the reducer of the decorating model an action is sent to. */
  function ActionKey(keys: seq<string>, act: string): string
  {
    Join(NonEmpty([FnKey(keys), ActKey(keys), act]), '/')
  }

  /** The action names listed for the node at `keys` (none when the key is absent). */
  function Listed(name: string, keys: seq<string>, slices: map<string, seq<string>>): seq<string>
  {
    var key := RegistryKey(name, keys);
    if key in slices then slices[key] else []
  }

  /** The `actions` object built by the `for (const act of acts)` loop, first `n` rounds. */
  function ActionsObject(acts: seq<string>, n: nat, keys: seq<string>): seq<(string, Decorated)>
    requires n <= |acts|
  {
    if n == 0 then [] else Assign(ActionsObject(acts, n - 1, keys), acts[n - 1], Call(Bound(ActionKey(keys, acts[n - 1]), keys)))
  }

  /** `withActionProxy(v, keys, dispatch, slice)` for the model `name`. */
  function Decorate(v: Value, keys: seq<string>, name: string, slices: map<string, seq<string>>): Decorated
    decreases v, 1
  {
    match v
    case Arr(items) =>
      Each(seq(|items|, i requires 0 <= i < |items| => Decorate(items[i], keys + [NatToString(i)], name, slices)))
    case Obj(fields) =>
      var acts := Listed(name, keys, slices);
      Entries(Spread(DecorateFields(fields, |fields|, keys, name, slices), ActionsObject(acts, |acts|, keys)))
    case Null =>
      var acts := Listed(name, keys, slices);
      Entries(Spread([], ActionsObject(acts, |acts|, keys)))
    case _ => Same(v)
  }

  /** The first `n` rounds of `for (const key in data) res[key] = ...`. */
  function DecorateFields(fields: seq<(string, Value)>, n: nat, keys: seq<string>, name: string,
                          slices: map<string, seq<string>>): seq<(string, Decorated)>
    requires n <= |fields|
    decreases Obj(fields), 0, n
  {
    if n == 0 then []
    else
      var (k, x) := fields[n - 1];
      Assign(DecorateFields(fields, n - 1, keys, name, slices), k, Decorate(x, keys + [k], name, slices))
  }

  /** `withActionProxy` as the source runs it, with its loops. */
  method WithActionProxy(v: Value, keys: seq<string>, name: string, slices: map<string, seq<string>>)
    returns (r: Decorated)
    ensures r == Decorate(v, keys, name, slices)
    decreases v, 1
  {
    if !(v.Arr? || v.Obj? || v.Null?) {
      return Same(v);
    }
    if v.Arr? {
      var items := DecorateItems(v.items, keys, name, slices);
      return Each(items);
    }
    var acts := Listed(name, keys, slices);
    var actions := BuildActions(acts, keys);
    var res: seq<(string, Decorated)> := [];
    if v.Obj? {
      res := DecorateEntries(v.fields, keys, name, slices);
    }
    res := SpreadInto(res, actions);
    r := Entries(res);
  }

  /** `data.map((d, i) => withActionProxy(d, [...keys, `${i}`], ...))`. */
  method DecorateItems(items: seq<Value>, keys: seq<string>, name: string, slices: map<string, seq<string>>)
    returns (r: seq<Decorated>)
    ensures |r| == |items|
    ensures forall j :: 0 <= j < |items| ==> r[j] == Decorate(items[j], keys + [NatToString(j)], name, slices)
    decreases Arr(items), 0
  {
    r := [];
    var i := 0;
    while i < |items|
      invariant 0 <= i <= |items|
      invariant |r| == i
      invariant forall j :: 0 <= j < i ==> r[j] == Decorate(items[j], keys + [NatToString(j)], name, slices)
    {
      var d := WithActionProxy(items[i], keys + [NatToString(i)], name, slices);
      r := r + [d];
      i := i + 1;
    }
  }

  /** The `for (const act of acts)` loop. */
  method BuildActions(acts: seq<string>, keys: seq<string>) returns (actions: seq<(string, Decorated)>)
    ensures actions == ActionsObject(acts, |acts|, keys)
  {
    actions := [];
    var n := 0;
    while n < |acts|
      invariant 0 <= n <= |acts|
      invariant actions == ActionsObject(acts, n, keys)
    {
      actions := Assign(actions, acts[n], Call(Bound(ActionKey(keys, acts[n]), keys)));
      n := n + 1;
    }
  }

  /** The `for (const key in data)` loop. */
  method DecorateEntries(fields: seq<(string, Value)>, keys: seq<string>, name: string, slices: map<string, seq<string>>)
    returns (res: seq<(string, Decorated)>)
    ensures res == DecorateFields(fields, |fields|, keys, name, slices)
    decreases Obj(fields), 0
  {
    res := [];
    var i := 0;
    while i < |fields|
      invariant 0 <= i <= |fields|
      invariant res == DecorateFields(fields, i, keys, name, slices)
    {
      var (k, x) := fields[i];
      assert x < Obj(fields);
      var d := WithActionProxy(x, keys + [k], name, slices);
      res := Assign(res, k, d);
      i := i + 1;
    }
  }

  /** `{ ...res, ...actions }`. */
  method SpreadInto<T>(res0: seq<(string, T)>, extra: seq<(string, T)>) returns (res: seq<(string, T)>)
    ensures res == Spread(res0, extra)
  {
    res := res0;
    var j := 0;
    while j < |extra|
      invariant 0 <= j <= |extra|
      invariant Spread(res, extra[j..]) == Spread(res0, extra)
    {
      assert extra[j..][1..] == extra[j + 1..];
      res := Assign(res, extra[j].0, extra[j].1);
      j := j + 1;
    }
    assert extra[j..] == [];
  }

  /** The `actions` object names each listed action once. */
  lemma {:induction false} ActionsObjectNames(acts: seq<string>, n: nat, keys: seq<string>)
    requires n <= |acts|
    ensures Distinct(KeysOf(ActionsObject(acts, n, keys)))
    ensures forall m :: m in KeysOf(ActionsObject(acts, n, keys)) <==> m in acts[..n]
  {
    if n > 0 {
      var act := acts[n - 1];
      ActionsObjectNames(acts, n - 1, keys);
      assert acts[..n] == acts[..n - 1] + [act];
      AssignNames(ActionsObject(acts, n - 1, keys), act, Call(Bound(ActionKey(keys, act), keys)));
      AssignDistinct(ActionsObject(acts, n - 1, keys), act, Call(Bound(ActionKey(keys, act), keys)));
    }
  }

  /** The `actions` object binds each listed action to its reducer type and the node's keys. */
  lemma {:induction false} ActionsObjectBinds(acts: seq<string>, n: nat, keys: seq<string>, i: nat)
    requires i < n <= |acts|
    ensures Find(ActionsObject(acts, n, keys), acts[i]) == Some(Call(Bound(ActionKey(keys, acts[i]), keys)))
    decreases n
  {
    var prev := ActionsObject(acts, n - 1, keys);
    var act := acts[n - 1];
    if acts[i] == act {
      AssignSame(prev, act, Call(Bound(ActionKey(keys, act), keys)));
    } else {
      ActionsObjectBinds(acts, n - 1, keys, i);
      AssignOther(prev, act, Call(Bound(ActionKey(keys, act), keys)), acts[i]);
    }
  }

  /** Spreading entries with distinct names: those names take the spread values,
      every other name keeps what it had. */
  lemma {:induction false} SpreadFind<T>(res: seq<(string, T)>, extra: seq<(string, T)>, m: string)
    requires Distinct(KeysOf(extra))
    ensures Find(Spread(res, extra), m) == if m in KeysOf(extra) then Find(extra, m) else Find(res, m)
    decreases |extra|
  {
    if extra != [] {
      assert KeysOf(extra) == [extra[0].0] + KeysOf(extra[1..]);
      assert Distinct(KeysOf(extra[1..]));
      SpreadFind(Assign(res, extra[0].0, extra[0].1), extra[1..], m);
      AssignFind(res, extra[0].0, extra[0].1, m);
      if m == extra[0].0 {
        assert m !in KeysOf(extra[1..]);
      }
    }
  }

  /** Every action listed for an object node is attached to it, bound to the
      node's own keys and to the reducer `ActionKey(keys, act)`; an action entry
      overrides a data field of the same name. */
  lemma DecorateBindsActions(v: Value, keys: seq<string>, name: string, slices: map<string, seq<string>>, act: string)
    requires v.Obj? || v.Null?
    requires act in Listed(name, keys, slices)
    ensures Decorate(v, keys, name, slices).Entries?
    ensures Find(Decorate(v, keys, name, slices).fields, act) == Some(Call(Bound(ActionKey(keys, act), keys)))
  {
    var acts := Listed(name, keys, slices);
    ActionsObjectNames(acts, |acts|, keys);
    var i :| 0 <= i < |acts| && acts[i] == act;
    ActionsObjectBinds(acts, |acts|, keys, i);
    assert acts[..|acts|] == acts;
    var res := if v.Obj? then DecorateFields(v.fields, |v.fields|, keys, name, slices) else [];
    SpreadFind(res, ActionsObject(acts, |acts|, keys), act);
  }

  lemma {:induction false} DecorateFieldsFind(fields: seq<(string, Value)>, n: nat, keys: seq<string>, name: string,
                                              slices: map<string, seq<string>>, i: nat)
    requires i < n <= |fields| && Distinct(KeysOf(fields))
    ensures Find(DecorateFields(fields, n, keys, name, slices), fields[i].0)
         == Some(Decorate(fields[i].1, keys + [fields[i].0], name, slices))
    decreases n
  {
    var (k, x) := fields[n - 1];
    var prev := DecorateFields(fields, n - 1, keys, name, slices);
    var d := Decorate(x, keys + [k], name, slices);
    assert DecorateFields(fields, n, keys, name, slices) == Assign(prev, k, d);
    if i == n - 1 {
      AssignSame(prev, k, d);
    } else {
      assert KeysOf(fields)[n - 1] != KeysOf(fields)[i];
      DecorateFieldsFind(fields, n - 1, keys, name, slices, i);
      AssignOther(prev, k, d, fields[i].0);
    }
  }

  /** A data field that no listed action shadows is decorated in its turn, with
      its own name appended to the key path. */
  lemma DecorateKeepsField(fields: seq<(string, Value)>, keys: seq<string>, name: string,
                           slices: map<string, seq<string>>, i: nat)
    requires i < |fields| && Distinct(KeysOf(fields))
    requires fields[i].0 !in Listed(name, keys, slices)
    ensures Decorate(Obj(fields), keys, name, slices).Entries?
    ensures Find(Decorate(Obj(fields), keys, name, slices).fields, fields[i].0)
         == Some(Decorate(fields[i].1, keys + [fields[i].0], name, slices))
  {
    var acts := Listed(name, keys, slices);
    ActionsObjectNames(acts, |acts|, keys);
    assert acts[..|acts|] == acts;
    DecorateFieldsFind(fields, |fields|, keys, name, slices, i);
    SpreadFind(DecorateFields(fields, |fields|, keys, name, slices), ActionsObject(acts, |acts|, keys), fields[i].0);
  }
}
