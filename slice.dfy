/** The older composition engine of src/slice.ts, after flattening: the
    registration callback and nested reducers of `slice` (src/slice.ts:209-227),
    the action decorator (src/slice.ts:91-118), the field proxy and its selector
    cache (src/slice.ts:120-148, 267-273) and the duplicate-name check
    (src/slice.ts:236). */
module LegacySlice {
  import opened Base
  import opened Text
  import opened Tree
  import opened Router
  import opened ActionProxy
  import opened Selectors
  import opened Registry
  import opened SliceWalk

  /** A case reducer of the slice: one of the caller's own, or the nested
      reducer that re-dispatches `act` to the embedded slice `target`. */
  datatype Rule = UserRule(id: nat) | NestedRule(target: string, act: string)

  /** The process-wide `nestedSlices` and the slice's own `nestedActions`. */
  datatype SliceTables = SliceTables(slices: map<string, seq<string>>, nested: seq<(string, Rule)>)

  /** `${prefix}/${name}`: a name scoped under a path or a type. */
  function Scoped(prefix: string, name: string): string
  {
    prefix + "/" + name
  }

  /** The first `n` rounds of `for (const act in d.$$actions)` for the slice
      found at `k`. */
  function NestActions(t: SliceTables, name: string, k: string, d: SliceRef, n: nat): SliceTables
    requires n <= |d.actions|
  {
    SliceTables(ListActions(t.slices, Scoped(name, k), d.actions, n), NestRules(t.nested, k, d, n))
  }

  /** `nestedSlices[key].push(act)` for the first `n` actions. */
  function ListActions(slices: map<string, seq<string>>, key: string, acts: seq<string>, n: nat): map<string, seq<string>>
    requires n <= |acts|
  {
    if n == 0 then slices
    else
      var prev := ListActions(slices, key, acts, n - 1);
      var listed := if key in prev then prev[key] else [];
      prev[key := listed + [acts[n - 1]]]
  }

  /** `nestedActions[`${k}/${act}`] = ...` for the first `n` actions. */
  function NestRules(nested: seq<(string, Rule)>, k: string, d: SliceRef, n: nat): seq<(string, Rule)>
    requires n <= |d.actions|
  {
    if n == 0 then nested
    else Assign(NestRules(nested, k, d, n - 1), Scoped(k, d.actions[n - 1]), NestedRule(d.name, d.actions[n - 1]))
  }

  /** The callback `(k, d) => ...`, refusing when the registry already holds `guard`. */
  function RegisterWith(t: SliceTables, name: string, f: Found, guard: string): Result<SliceTables>
  {
    if guard in t.slices then Err(DuplicateName(name))
    else Ok(NestActions(t.(slices := t.slices[Scoped(name, f.path) := []]), name, f.path, f.slice, |f.slice.actions|))
  }

  /** As written, the callback looks for the bare path `k`, a key it never writes. */
  function RegisterAsWritten(t: SliceTables, name: string, f: Found): Result<SliceTables>
  {
    RegisterWith(t, name, f, f.path)
  }

  /** The intended callback: it refuses a path whose entry `${name}/${k}` exists. */
  function Register(t: SliceTables, name: string, f: Found): Result<SliceTables>
  {
    RegisterWith(t, name, f, Scoped(name, f.path))
  }

  /** The callback fired for each slice found, in order, up to the first refusal. */
  function RegisterScan(t: SliceTables, name: string, found: seq<Found>): Result<SliceTables>
    decreases |found|
  {
    if found == [] then Ok(t)
    else match Register(t, name, found[0])
      case Err(e) => Err(e)
      case Ok(t') => RegisterScan(t', name, found[1..])
  }

  /** The loop lists the slice's actions, in order, after what `${name}/${k}`
      held, and touches no other registry entry. */
  lemma {:induction false} NestActionsSlices(slices: map<string, seq<string>>, key: string, acts: seq<string>, n: nat)
    requires n <= |acts| && key in slices
    ensures var r := ListActions(slices, key, acts, n);
            && r.Keys == slices.Keys
            && r[key] == slices[key] + acts[..n]
            && (forall other :: other in slices && other != key ==> r[other] == slices[other])
    decreases n
  {
    if n > 0 {
      NestActionsSlices(slices, key, acts, n - 1);
      assert acts[..n] == acts[..n - 1] + [acts[n - 1]];
    }
  }

  /** The loop points every `k/act` at the nested reducer for `act`. */
  lemma {:induction false} NestActionsRules(nested: seq<(string, Rule)>, k: string, d: SliceRef, n: nat, i: nat)
    requires i < n <= |d.actions|
    ensures Find(NestRules(nested, k, d, n), Scoped(k, d.actions[i])) == Some(NestedRule(d.name, d.actions[i]))
    decreases n
  {
    var prev := NestRules(nested, k, d, n - 1);
    var act := d.actions[n - 1];
    if d.actions[i] == act {
      AssignSame(prev, Scoped(k, act), NestedRule(d.name, act));
    } else {
      ChildKeysDiffer(k, d.actions[i], act);
      NestActionsRules(nested, k, d, n - 1, i);
      AssignOther(prev, Scoped(k, act), NestedRule(d.name, act), Scoped(k, d.actions[i]));
    }
  }

  /** The loop keeps the case names of the slice distinct. */
  lemma {:induction false} NestActionsDistinct(nested: seq<(string, Rule)>, k: string, d: SliceRef, n: nat)
    requires n <= |d.actions| && Distinct(KeysOf(nested))
    ensures Distinct(KeysOf(NestRules(nested, k, d, n)))
    decreases n
  {
    if n > 0 {
      NestActionsDistinct(nested, k, d, n - 1);
      AssignDistinct(NestRules(nested, k, d, n - 1), Scoped(k, d.actions[n - 1]), NestedRule(d.name, d.actions[n - 1]));
    }
  }

  /** `k/a` and `k/b` are distinct case names for distinct actions. */
  lemma ChildKeysDiffer(k: string, a: string, b: string)
    requires a != b
    ensures Scoped(k, a) != Scoped(k, b)
  {
    assert (k + "/" + a)[|k| + 1..] == a;
    assert (k + "/" + b)[|k| + 1..] == b;
  }

  /** A slice found at `k` is registered exactly when `${name}/${k}` is free;
      then `${name}/${k}` lists exactly its actions, in order, each `k/act`
      names the nested reducer for `act`, and every other entry stays as it was. */
  lemma RegisterFound(t: SliceTables, name: string, f: Found)
    requires Distinct(KeysOf(t.nested))
    ensures Register(t, name, f).Err? <==> Scoped(name, f.path) in t.slices
    ensures Register(t, name, f).Err? ==> Register(t, name, f).error == DuplicateName(name)
    ensures var r := Register(t, name, f);
            r.Ok? ==>
              && r.value.slices.Keys == t.slices.Keys + {Scoped(name, f.path)}
              && r.value.slices[Scoped(name, f.path)] == f.slice.actions
              && (forall key :: key in t.slices ==> r.value.slices[key] == t.slices[key])
              && (forall act :: act in f.slice.actions ==> Find(r.value.nested, Scoped(f.path, act)) == Some(NestedRule(f.slice.name, act)))
              && Distinct(KeysOf(r.value.nested))
  {
    var key := Scoped(name, f.path);
    if key !in t.slices {
      var t0 := t.(slices := t.slices[key := []]);
      assert Register(t, name, f).value == NestActions(t0, name, f.path, f.slice, |f.slice.actions|);
      RegisteredTables(t, name, f);
    }
  }

  /** What a successful registration leaves in both tables. */
  lemma RegisteredTables(t: SliceTables, name: string, f: Found)
    requires Distinct(KeysOf(t.nested)) && Scoped(name, f.path) !in t.slices
    ensures var key := Scoped(name, f.path);
            var r := NestActions(t.(slices := t.slices[key := []]), name, f.path, f.slice, |f.slice.actions|);
            && r.slices.Keys == t.slices.Keys + {key}
            && r.slices[key] == f.slice.actions
            && (forall other :: other in t.slices ==> r.slices[other] == t.slices[other])
            && (forall act :: act in f.slice.actions ==> Find(r.nested, Scoped(f.path, act)) == Some(NestedRule(f.slice.name, act)))
            && Distinct(KeysOf(r.nested))
  {
    var key := Scoped(name, f.path);
    var n := |f.slice.actions|;
    NestActionsSlices(t.slices[key := []], key, f.slice.actions, n);
    NestActionsDistinct(t.nested, f.path, f.slice, n);
    assert f.slice.actions[..n] == f.slice.actions;
    forall act | act in f.slice.actions
      ensures Find(NestRules(t.nested, f.path, f.slice, n), Scoped(f.path, act)) == Some(NestedRule(f.slice.name, act))
    {
      var i :| 0 <= i < n && f.slice.actions[i] == act;
      NestActionsRules(t.nested, f.path, f.slice, n, i);
    }
  }

  /** As written, the check never sees an earlier registration of the same
      path: a second slice found at `a` by a slice `app` replaces the actions
      listed under `app/a` instead of being refused. */
  lemma RegisterAsWrittenOverwrites()
    ensures var t := SliceTables(map["app/a" := ["x"]], []);
            var r := RegisterAsWritten(t, "app", Found("a", SliceRef("other", ["y"], Null)));
            r.Ok? && "app/a" in r.value.slices && r.value.slices["app/a"] == ["y"]
    ensures Register(SliceTables(map["app/a" := ["x"]], []), "app", Found("a", SliceRef("other", ["y"], Null)))
         == Err(DuplicateName("app"))
  {
    var t := SliceTables(map["app/a" := ["x"]], []);
    var d := SliceRef("other", ["y"], Null);
    var t0 := t.(slices := t.slices["app/a" := []]);
    assert Scoped("app", "a") == "app/a";
    assert "a" !in t.slices;
    NestActionsSlices(t0.slices, "app/a", d.actions, 1);
  }

  /** As written, the callback refuses exactly when the bare path `k` is a
      registry key. Otherwise `${name}/${k}` ends up listing the found slice's
      actions alone, whatever it held before, and no other key is added. */
  lemma RegisterAsWrittenGuard(t: SliceTables, name: string, f: Found)
    ensures RegisterAsWritten(t, name, f).Err? <==> f.path in t.slices
    ensures RegisterAsWritten(t, name, f).Err? ==> RegisterAsWritten(t, name, f).error == DuplicateName(name)
    ensures var r := RegisterAsWritten(t, name, f);
            r.Ok? ==>
              && r.value.slices.Keys == t.slices.Keys + {Scoped(name, f.path)}
              && r.value.slices[Scoped(name, f.path)] == f.slice.actions
  {
    if f.path !in t.slices {
      var key := Scoped(name, f.path);
      var t0 := t.(slices := t.slices[key := []]);
      NestActionsSlices(t0.slices, key, f.slice.actions, |f.slice.actions|);
      assert f.slice.actions[..|f.slice.actions|] == f.slice.actions;
    }
  }

  /** Two slices found under the same field name in different records: the
      walk reports the bare key `a` twice. As written, both registrations go
      through and the second replaces the first's actions under `app/a`; the
      guard on `${name}/${k}` refuses the second one. */
  lemma BareKeyCollision(s1: SliceRef, s2: SliceRef)
    ensures var p := Record([("x", Record([("a", Instance(s1))])), ("y", Record([("a", Instance(s2))]))]);
            Initial(p, "").found == [Found("a", s1), Found("a", s2)]
    ensures var r1 := RegisterAsWritten(SliceTables(map[], []), "app", Found("a", s1));
            && r1.Ok?
            && RegisterAsWritten(r1.value, "app", Found("a", s2)).Ok?
            && RegisterAsWritten(r1.value, "app", Found("a", s2)).value.slices == map["app/a" := s2.actions]
    ensures RegisterScan(SliceTables(map[], []), "app", [Found("a", s1), Found("a", s2)]) == Err(DuplicateName("app"))
  {
    var x := [("a", Instance(s1))];
    var y := [("a", Instance(s2))];
    var outer := [("x", Record(x)), ("y", Record(y))];
    InstanceFlattening(s1, "a");
    InstanceFlattening(s2, "a");
    assert RecordScan(x, 0) == Scan([], Some(Obj([])));
    assert RecordScan(y, 0) == Scan([], Some(Obj([])));
    assert [] + [Found("a", s1)] == [Found("a", s1)];
    assert [] + [Found("a", s2)] == [Found("a", s2)];
    assert RecordScan(x, 1).found == [Found("a", s1)];
    assert RecordScan(y, 1).found == [Found("a", s2)];
    assert RecordScan(outer, 1).found == [Found("a", s1)];
    assert RecordScan(outer, 2).found == [Found("a", s1)] + [Found("a", s2)];
    var t := SliceTables(map[], []);
    RegisterAsWrittenGuard(t, "app", Found("a", s1));
    var r1 := RegisterAsWritten(t, "app", Found("a", s1)).value;
    assert Scoped("app", "a") == "app/a";
    assert "a" !in r1.slices;
    RegisterAsWrittenGuard(r1, "app", Found("a", s2));
    RegisterFound(t, "app", Found("a", s1));
    var c1 := Register(t, "app", Found("a", s1)).value;
    assert c1.slices.Keys == {"app/a"};
    assert [Found("a", s1), Found("a", s2)][1..] == [Found("a", s2)];
  }

  /** `{ ...actions, ...nestedActions }`: a nested reducer wins over a
      caller's reducer of the same name; the caller's others stay. */
  lemma NestedReducersOverride(user: seq<(string, Rule)>, nested: seq<(string, Rule)>, key: string)
    requires Distinct(KeysOf(nested))
    ensures Find(Spread(user, nested), key) == if key in KeysOf(nested) then Find(nested, key) else Find(user, key)
  {
    SpreadFind(user, nested, key);
  }

  /** The nested reducer `k/act` run with the payload `{ data, keys }`: it
      shifts the slice name off `keys`, then routes the rest, assigning what
      the embedded reducer returns. The second component is what is left of
      the caller's array. */
  function NestedReduce(rule: Rule, state: Value, data: Value, keys: seq<string>, reducerOf: string -> Reducer): (Value, seq<string>)
    requires rule.NestedRule?
  {
    var rest := if keys == [] then [] else keys[1..];
    var action := Action(Scoped(rule.target, rule.act), Plain(data), None);
    (Applied(state, rest, Assigned(reducerOf(rule.target), action)), Remaining(rest))
  }

  /** The nested reducer of src/slice.ts:214-218, working on the array the
      payload carries. */
  method RunNested(rule: Rule, state: Value, data: Value, keys: KeyArray, reducerOf: string -> Reducer)
    returns (next: Value)
    requires rule.NestedRule?
    modifies keys
    ensures (next, keys.items) == NestedReduce(rule, state, data, old(keys.items), reducerOf)
  {
    var _ := keys.Shift();
    var action := Action(Scoped(rule.target, rule.act), Plain(data), None);
    next := ApplyNestedAssign(state, keys, action, reducerOf(rule.target));
  }

  /** An action the decorator attached to a node: it dispatches `actionType`
      with its own `keys` array in the payload. */
  class Binding {
    const actionType: string
    const keys: KeyArray

    constructor (actionType: string, keys: KeyArray)
      ensures this.actionType == actionType && this.keys == keys
    {
      this.actionType := actionType;
      this.keys := keys;
    }

    /** Calling the bound action as written: the payload carries the binding's
        own array, and the nested reducer consumes it. */
    method Call(rule: Rule, state: Value, data: Value, reducerOf: string -> Reducer) returns (next: Value)
      requires rule.NestedRule?
      modifies keys
      ensures (next, keys.items) == NestedReduce(rule, state, data, old(keys.items), reducerOf)
    {
      next := RunNested(rule, state, data, keys, reducerOf);
    }

    /** Calling the bound action with a copy of the keys, as src/model.ts does. */
    method CallWithCopy(rule: Rule, state: Value, data: Value, reducerOf: string -> Reducer) returns (next: Value)
      requires rule.NestedRule?
      ensures next == NestedReduce(rule, state, data, keys.items, reducerOf).0
    {
      ghost var before := keys.items;
      var copy := new KeyArray(keys.items);
      next := RunNested(rule, state, data, copy, reducerOf);
      assert next == NestedReduce(rule, state, data, before, reducerOf).0;
      assert keys.items == before;
    }
  }

  /** As written, a bound action works once: its first call routes to the
      node and leaves the shared array empty, so a second call before the next
      render, with any payload, changes nothing. */
  lemma BindingWorksOnce(rule: Rule, state: Value, d1: Value, d2: Value, name: string, k: string, reducerOf: string -> Reducer)
    requires rule.NestedRule? && k != ""
    ensures var first := NestedReduce(rule, state, d1, [name, k], reducerOf);
            && first.0 == Applied(state, [k], Assigned(reducerOf(rule.target), Action(Scoped(rule.target, rule.act), Plain(d1), None)))
            && first.1 == []
            && NestedReduce(rule, first.0, d2, first.1, reducerOf).0 == first.0
  {
    assert [name, k][1..] == [k];
    assert [k][1..] == [];
    assert Remaining([k]) == [];
    var first := NestedReduce(rule, state, d1, [name, k], reducerOf);
    assert first.1 == [];
    assert Applied(first.0, [], Assigned(reducerOf(rule.target), Action(Scoped(rule.target, rule.act), Plain(d2), None))) == first.0;
  }

  /** With the keys copied, every call reaches the node again: the second call
      applies the embedded reducer to the node the first call produced. */
  lemma CopiedBindingRepeats(rule: Rule, state: Value, d1: Value, d2: Value, name: string, k: string, reducerOf: string -> Reducer)
    requires rule.NestedRule? && k != ""
    requires GetPath(state, [ToKey(k)]).Some?
    ensures var s1 := NestedReduce(rule, state, d1, [name, k], reducerOf).0;
            var s2 := NestedReduce(rule, s1, d2, [name, k], reducerOf).0;
            var leaf2 := Assigned(reducerOf(rule.target), Action(Scoped(rule.target, rule.act), Plain(d2), None));
            && GetPath(s1, [ToKey(k)]).Some?
            && GetPath(s2, [ToKey(k)]) == Some(leaf2(GetPath(s1, [ToKey(k)]).value))
  {
    assert [name, k][1..] == [k];
    var leaf1 := Assigned(reducerOf(rule.target), Action(Scoped(rule.target, rule.act), Plain(d1), None));
    var leaf2 := Assigned(reducerOf(rule.target), Action(Scoped(rule.target, rule.act), Plain(d2), None));
    assert Route([k]) == Some([ToKey(k)]);
    AppliedAddresses(state, [k], leaf1);
    var s1 := Applied(state, [k], leaf1);
    AppliedAddresses(s1, [k], leaf2);
  }

  /** The actions listed for the node at `keys`: under `keys.join('/')`. */
  function SliceListed(keys: seq<string>, slices: map<string, seq<string>>): seq<string>
  {
    var fnKey := Join(keys, '/');
    if fnKey in slices then slices[fnKey] else []
  }

  /** The `actions` object, first `n` rounds: each dispatches `${fnKey}/${act}`. */
  function SliceActions(acts: seq<string>, n: nat, fnKey: string, keys: seq<string>): seq<(string, Decorated)>
    requires n <= |acts|
  {
    if n == 0 then []
    else Assign(SliceActions(acts, n - 1, fnKey, keys), acts[n - 1], Call(Bound(Scoped(fnKey, acts[n - 1]), keys)))
  }

  /** `withActionProxy(data, keys, dispatch)` of src/slice.ts:91-118. */
  function SliceDecorate(v: Value, keys: seq<string>, slices: map<string, seq<string>>): Decorated
    decreases v, 1
  {
    match v
    case Arr(items) =>
      Each(seq(|items|, i requires 0 <= i < |items| => SliceDecorate(items[i], keys + [NatToString(i)], slices)))
    case Obj(fields) =>
      var acts := SliceListed(keys, slices);
      Entries(Spread(SliceFields(fields, |fields|, keys, slices), SliceActions(acts, |acts|, Join(keys, '/'), keys)))
    case Null =>
      var acts := SliceListed(keys, slices);
      Entries(Spread([], SliceActions(acts, |acts|, Join(keys, '/'), keys)))
    case _ => Same(v)
  }

  /** The first `n` rounds of `for (const key in data)`. */
  function SliceFields(fields: seq<(string, Value)>, n: nat, keys: seq<string>, slices: map<string, seq<string>>): seq<(string, Decorated)>
    requires n <= |fields|
    decreases Obj(fields), 0, n
  {
    if n == 0 then []
    else
      var (k, x) := fields[n - 1];
      Assign(SliceFields(fields, n - 1, keys, slices), k, SliceDecorate(x, keys + [k], slices))
  }

  /** The `actions` object names each listed action once. */
  lemma {:induction false} SliceActionsNames(acts: seq<string>, n: nat, fnKey: string, keys: seq<string>)
    requires n <= |acts|
    ensures Distinct(KeysOf(SliceActions(acts, n, fnKey, keys)))
    ensures forall m :: m in KeysOf(SliceActions(acts, n, fnKey, keys)) <==> m in acts[..n]
  {
    if n > 0 {
      var prev := SliceActions(acts, n - 1, fnKey, keys);
      var act := acts[n - 1];
      SliceActionsNames(acts, n - 1, fnKey, keys);
      assert acts[..n] == acts[..n - 1] + [act];
      AssignNames(prev, act, Call(Bound(Scoped(fnKey, act), keys)));
      AssignDistinct(prev, act, Call(Bound(Scoped(fnKey, act), keys)));
    }
  }

  /** The `actions` object binds each listed action `act` to the type `${fnKey}/${act}`. */
  lemma {:induction false} SliceActionsBind(acts: seq<string>, n: nat, fnKey: string, keys: seq<string>, i: nat)
    requires i < n <= |acts|
    ensures Find(SliceActions(acts, n, fnKey, keys), acts[i]) == Some(Call(Bound(Scoped(fnKey, acts[i]), keys)))
    decreases n
  {
    var prev := SliceActions(acts, n - 1, fnKey, keys);
    var act := acts[n - 1];
    var entry := Call(Bound(Scoped(fnKey, act), keys));
    if acts[i] == act {
      AssignSame(prev, act, entry);
    } else {
      SliceActionsBind(acts, n - 1, fnKey, keys, i);
      AssignOther(prev, act, entry, acts[i]);
    }
  }

  /** Every action listed under `keys.join('/')` is attached to an object (or
      `null`) node, dispatching `${keys.join('/')}/${act}` with the node's keys. */
  lemma SliceDecorateBinds(v: Value, keys: seq<string>, slices: map<string, seq<string>>, act: string)
    requires v.Obj? || v.Null?
    requires act in SliceListed(keys, slices)
    ensures SliceDecorate(v, keys, slices).Entries?
    ensures Find(SliceDecorate(v, keys, slices).fields, act) == Some(Call(Bound(Scoped(Join(keys, '/'), act), keys)))
  {
    var acts := SliceListed(keys, slices);
    SliceActionsNames(acts, |acts|, Join(keys, '/'), keys);
    var i :| 0 <= i < |acts| && acts[i] == act;
    SliceActionsBind(acts, |acts|, Join(keys, '/'), keys, i);
    assert acts[..|acts|] == acts;
    var res := if v.Obj? then SliceFields(v.fields, |v.fields|, keys, slices) else [];
    SpreadFind(res, SliceActions(acts, |acts|, Join(keys, '/'), keys), act);
  }

  /** After `n` rounds of the `for…in` loop, field `i < n` holds its value
      decorated one level down, at `[...keys, key]`. */
  lemma {:induction false} SliceFieldsFind(fields: seq<(string, Value)>, n: nat, keys: seq<string>,
                                           slices: map<string, seq<string>>, i: nat)
    requires i < n <= |fields| && Distinct(KeysOf(fields))
    ensures Find(SliceFields(fields, n, keys, slices), fields[i].0)
         == Some(SliceDecorate(fields[i].1, keys + [fields[i].0], slices))
    decreases n
  {
    var (k, x) := fields[n - 1];
    var prev := SliceFields(fields, n - 1, keys, slices);
    var d := SliceDecorate(x, keys + [k], slices);
    assert SliceFields(fields, n, keys, slices) == Assign(prev, k, d);
    if i == n - 1 {
      AssignSame(prev, k, d);
    } else {
      assert KeysOf(fields)[n - 1] != KeysOf(fields)[i];
      SliceFieldsFind(fields, n - 1, keys, slices, i);
      AssignOther(prev, k, d, fields[i].0);
    }
  }

  /** A data field that no action listed under `keys.join('/')` shadows
      survives the spread, decorated with its own name appended to the keys. */
  lemma SliceDecorateKeepsField(fields: seq<(string, Value)>, keys: seq<string>,
                                slices: map<string, seq<string>>, i: nat)
    requires i < |fields| && Distinct(KeysOf(fields))
    requires fields[i].0 !in SliceListed(keys, slices)
    ensures SliceDecorate(Obj(fields), keys, slices).Entries?
    ensures Find(SliceDecorate(Obj(fields), keys, slices).fields, fields[i].0)
         == Some(SliceDecorate(fields[i].1, keys + [fields[i].0], slices))
  {
    var acts := SliceListed(keys, slices);
    SliceActionsNames(acts, |acts|, Join(keys, '/'), keys);
    assert acts[..|acts|] == acts;
    SliceFieldsFind(fields, |fields|, keys, slices, i);
    SpreadFind(SliceFields(fields, |fields|, keys, slices), SliceActions(acts, |acts|, Join(keys, '/'), keys), fields[i].0);
  }

  /** The naming theorem of the older variant. Let the slice `name` register a
      slice found at path `k`, and let a node be decorated at keys
      `[name, ...segs]` with `segs.join('/') == k` (a direct field, or `L/0`
      for a list led by a slice). Then every action `act` of the embedded
      slice is attached to the node and dispatches `${name}/${k}/${act}`, the
      type of the slice's case reducer `k/act`, which is the nested reducer for
      `act`; and that reducer, given the node's keys, applies the embedded
      slice's reducer to exactly the node at `segs` and empties the array. */
  lemma SliceBindingReachesNode(t: SliceTables, name: string, f: Found, segs: seq<string>, v: Value, act: string,
                                state: Value, data: Value, reducerOf: string -> Reducer)
    requires Distinct(KeysOf(t.nested)) && Register(t, name, f).Ok?
    requires segs != [] && (forall i :: 0 <= i < |segs| ==> segs[i] != "") && Join(segs, '/') == f.path
    requires v.Obj? || v.Null?
    requires act in f.slice.actions
    ensures var r := Register(t, name, f).value;
            var keys := [name] + segs;
            var rule := NestedRule(f.slice.name, act);
            && Join(keys, '/') == Scoped(name, f.path)
            && Find(SliceDecorate(v, keys, r.slices).fields, act) == Some(Call(Bound(Scoped(Scoped(name, f.path), act), keys)))
            && Scoped(Scoped(name, f.path), act) == Scoped(name, Scoped(f.path, act))
            && Find(r.nested, Scoped(f.path, act)) == Some(rule)
            && NestedReduce(rule, state, data, keys, reducerOf)
               == (Applied(state, segs, Assigned(reducerOf(f.slice.name), Action(Scoped(f.slice.name, act), Plain(data), None))), [])
  {
    var r := Register(t, name, f).value;
    var keys := [name] + segs;
    RegisterFound(t, name, f);
    SliceKeyJoin(name, segs, f.path);
    SliceDecorateBinds(v, keys, r.slices, act);
    NestedReachesSegs(NestedRule(f.slice.name, act), state, data, name, segs, reducerOf);
    ScopedAssoc(name, f.path, act);
  }

  /** A case type `${k}/${act}` of the slice `name` is dispatched as `${name}/${k}/${act}`. */
  lemma ScopedAssoc(a: string, b: string, c: string)
    ensures Scoped(Scoped(a, b), c) == Scoped(a, Scoped(b, c))
  {
  }

  /** The node keys `[name, ...segs]` join to the registered key. */
  lemma SliceKeyJoin(name: string, segs: seq<string>, k: string)
    requires segs != [] && Join(segs, '/') == k
    ensures Join([name] + segs, '/') == Scoped(name, k)
  {
    JoinCons(name, segs, '/');
  }

  /** Given `[name, ...segs]`, a nested reducer routes along `segs` and uses up the array. */
  lemma NestedReachesSegs(rule: Rule, state: Value, data: Value, name: string, segs: seq<string>, reducerOf: string -> Reducer)
    requires rule.NestedRule?
    requires segs != [] && forall i :: 0 <= i < |segs| ==> segs[i] != ""
    ensures NestedReduce(rule, state, data, [name] + segs, reducerOf)
         == (Applied(state, segs, Assigned(reducerOf(rule.target), Action(Scoped(rule.target, rule.act), Plain(data), None))), [])
  {
    assert ([name] + segs)[1..] == segs;
    RouteShape(segs);
    RoutedConsumesAll(segs);
  }

  /** A field proxy of the older variant; `keys` is the array the proxy was
      built with, shared with every proxy derived from it. */
  class SliceProxy {
    const data: Value
    const keys: KeyArray
    const sel: Sel

    constructor (data: Value, keys: KeyArray, sel: Sel)
      ensures this.data == data && this.keys == keys && this.sel == sel
    {
      this.data := data;
      this.keys := keys;
      this.sel := sel;
    }
  }

  /** Reading a field `k` through the proxy as written (`$$` names and `use`
      are answered by the proxy itself: `None`): the field is pushed onto the
      proxy's own array, the cache is consulted under the extended path, and
      the child proxy shares the array. */
  method ProxyGet(p: SliceProxy, k: string, table: SelectorTable) returns (q: Option<SliceProxy>)
    modifies p.keys, table
    ensures StartsWith(k, "$$") || k == "use" ==>
              q.None? && p.keys.items == old(p.keys.items) && table.entries == old(table.entries)
    ensures !StartsWith(k, "$$") && k != "use" ==>
              && q.Some? && fresh(q.value)
              && p.keys.items == old(p.keys.items) + [k]
              && (table.entries, q.value.sel) == Added(old(table.entries), k, old(p.keys.items), p.sel)
              && q.value.keys == p.keys && q.value.data == Get(p.data, k)
  {
    if StartsWith(k, "$$") || k == "use" {
      return None;
    }
    p.keys.items := p.keys.items + [k];
    var selectKey := Join(p.keys.items, '|');
    if selectKey !in table.entries {
      table.entries := table.entries[selectKey := Project(p.sel, k)];
    }
    var child := new SliceProxy(Get(p.data, k), p.keys, table.entries[selectKey]);
    q := Some(child);
  }

  /** Reading a field through the proxy with the path copied, as
      src/model.ts:275 does: the parent's array is left alone. */
  method ProxyGetCopied(p: SliceProxy, k: string, table: SelectorTable) returns (q: Option<SliceProxy>)
    modifies table
    ensures StartsWith(k, "$$") || k == "use" ==> q.None? && table.entries == old(table.entries)
    ensures !StartsWith(k, "$$") && k != "use" ==>
              && q.Some? && fresh(q.value) && fresh(q.value.keys)
              && q.value.keys.items == p.keys.items + [k]
              && (table.entries, q.value.sel) == Added(old(table.entries), k, p.keys.items, p.sel)
              && q.value.data == Get(p.data, k)
  {
    if StartsWith(k, "$$") || k == "use" {
      return None;
    }
    var path := new KeyArray(p.keys.items + [k]);
    var selectKey := Join(path.items, '|');
    if selectKey !in table.entries {
      table.entries := table.entries[selectKey := Project(p.sel, k)];
    }
    var child := new SliceProxy(Get(p.data, k), path, table.entries[selectKey]);
    q := Some(child);
  }

  /** As written, reading two fields of one proxy files the second field's
      selector under the first field's path: after `car.a` and then `car.b`,
      the entry `n|car|a|b` reads `n.car.b`, so the cache no longer matches
      its keys. */
  lemma SharedKeysCorruptCache()
    ensures var sel := Project(Root("n"), "car");
            var (e1, _) := Added(map[], "a", ["n", "car"], sel);
            var (e2, _) := Added(e1, "b", ["n", "car"] + ["a"], sel);
            && "n|car|a|b" in e2
            && Path(e2["n|car|a|b"]) == ["n", "car", "b"]
            && !Coherent(e2)
  {
    var sel := Project(Root("n"), "car");
    JoinFour();
    var (e1, _) := Added(map[], "a", ["n", "car"], sel);
    assert ["n", "car"] + ["a"] + ["b"] == ["n", "car", "a", "b"];
    assert ["n", "car"] + ["a"] == ["n", "car", "a"];
    var e2 := Added(e1, "b", ["n", "car"] + ["a"], sel).0;
    assert e2["n|car|a|b"] == Project(sel, "b");
    assert Path(e2["n|car|a|b"]) == ["n", "car", "b"];
  }

  lemma JoinFour()
    ensures Join(["n", "car", "a"], '|') == "n|car|a"
    ensures Join(["n", "car", "a", "b"], '|') == "n|car|a|b"
    ensures Join(["n", "car", "b"], '|') == "n|car|b"
  {
    assert ["n", "car", "a"][..2] == ["n", "car"];
    assert ["n", "car", "b"][..2] == ["n", "car"];
    assert ["n", "car"][..1] == ["n"];
    assert ["n", "car", "a", "b"][..3] == ["n", "car", "a"];
  }

  /** With the path copied, a proxy keeps its own keys: any number of field
      reads on it leave the cache coherent, and each child reads exactly its
      own path. */
  lemma CopiedKeysKeepCache(entries: map<string, Sel>, keys: seq<string>, sel: Sel, k1: string, k2: string)
    requires Coherent(entries) && Path(sel) == keys && NoBar(keys + [k1]) && NoBar(keys + [k2])
    ensures var (e1, s1) := Added(entries, k1, keys, sel);
            var (e2, s2) := Added(e1, k2, keys, sel);
            && Coherent(e2)
            && Path(s1) == keys + [k1] && Path(s2) == keys + [k2]
  {
    AddedCoherent(entries, k1, keys, sel);
    var e1 := Added(entries, k1, keys, sel).0;
    AddedCoherent(e1, k2, keys, sel);
  }

  /** The members the slice's proxy answers before anything else. */
  const SliceInternal: set<string> := {"$$reducer", "$$selector", "$$name", "$$state", "$$actions"}

  /** Reading `k` from the slice's proxy (src/slice.ts:242-274): `use` decorates
      the whole slice at keys `[name]`; a field gives a proxy keyed `[name, k]`
      whose selector is cached under `${name}|${k}`. `state` is the state
      declared to `slice`, not the flattened `initialState`: src/slice.ts:273
      reads `state[k]` from the declared argument, whose embedded slices are
      still slice instances. A declared field that is a slice instance is not a
      `Value`, so for such a field the proxy's data here is whatever plain value
      the caller puts in its place. */
  function SliceRead(name: string, state: Value, actions: seq<string>, k: string, entries: map<string, Sel>)
    : (Access, map<string, Sel>)
  {
    if k in SliceInternal then (Member(k), entries)
    else if k == "use" then (WholeSlice(Root(name), [name]), entries)
    else if k in actions then (Creator(k), entries)
    else
      var (entries', sel) := Added(entries, k, [name], Root(name));
      (Field(Get(state, k), [name, k], sel), entries')
  }

  datatype Access =
    | Member(member: string)
    | WholeSlice(sel: Sel, keys: seq<string>)
    | Creator(action: string)
    | Field(data: Value, keys: seq<string>, sel: Sel)

  /** What a selector of the older variant's cache returns on the store
      (`None` when it throws). The slice's own field selectors, filed under
      `${name}|${k}` (src/slice.ts:270), read `state[k]` without a guard: a
      null or undefined slice state throws a TypeError, and a slice state with
      no field `k` (`0`, `false`, `""` among them) gives `undefined`. Every
      deeper entry is built by a field proxy (src/slice.ts:141) and keeps the
      `state && state[k]` guard that `Read` models. */
  function SliceSelect(sel: Sel, store: Value): Option<Value>
  {
    match sel
    case Root(name) => Some(Get(store, name))
    case Project(parent, key) =>
      if parent.Root? then
        var s := Get(store, parent.name);
        if s.Null? || s.Undefined? then None else Some(Get(s, key))
      else
        match SliceSelect(parent, store)
        case None => None
        case Some(s) => Some(if Truthy(s) then Get(s, key) else s)
  }

  /** Where the slice's state is truthy, the unguarded first step and the
      guarded model selectors agree: every entry of the cache reads what
      `Read` reads. */
  lemma {:induction false} SliceSelectAgrees(sel: Sel, store: Value)
    requires Truthy(Get(store, RootName(sel)))
    ensures SliceSelect(sel, store) == Some(Read(sel, store))
  {
    match sel
    case Root(name) =>
    case Project(parent, key) =>
      if !parent.Root? {
        SliceSelectAgrees(parent, store);
        var s := Read(parent, store);
        assert SliceSelect(sel, store) == Some(if Truthy(s) then Get(s, key) else s);
      } else {
        assert RootName(sel) == parent.name;
      }
  }

  /** On a falsy slice state the two differ: the slice's field selector gives
      `undefined` for `0` and throws for `null`, where the guarded projection
      would hand back the state itself. */
  lemma SliceFieldOfFalsyState(name: string, k: string)
    ensures SliceSelect(Project(Root(name), k), Obj([(name, Num(0))])) == Some(Undefined)
    ensures Read(Project(Root(name), k), Obj([(name, Num(0))])) == Num(0)
    ensures SliceSelect(Project(Root(name), k), Obj([(name, Null)])).None?
    ensures Read(Project(Root(name), k), Obj([(name, Null)])) == Null
  {
    assert Get(Obj([(name, Num(0))]), name) == Num(0);
    assert Get(Obj([(name, Null)]), name) == Null;
  }

  /** A field of the slice gives a proxy over `state[k]` keyed `[name, k]`,
      whose selector reads `store[name][k]` with no guard (it throws on a null
      or undefined slice state), and the cache stays coherent; the decorator
      then looks up the key `${name}/${k}` the callback wrote. */
  lemma SliceFieldProxy(name: string, state: Value, actions: seq<string>, k: string, entries: map<string, Sel>)
    requires k !in SliceInternal && k != "use" && k !in actions
    requires Coherent(entries) && NoBar([name, k])
    ensures var (a, entries') := SliceRead(name, state, actions, k, entries);
            && a == Field(Get(state, k), [name, k], Project(Root(name), k))
            && Path(a.sel) == [name, k]
            && Coherent(entries')
            && Join(a.keys, '/') == Scoped(name, k)
            && (forall store :: Get(store, name).Null? || Get(store, name).Undefined? ==> SliceSelect(a.sel, store).None?)
            && (forall store :: !Get(store, name).Null? && !Get(store, name).Undefined? ==>
                  SliceSelect(a.sel, store) == Some(Get(Get(store, name), k)))
  {
    assert [name] + [k] == [name, k];
    AddedCoherent(entries, k, [name], Root(name));
    assert [name, k][..1] == [name];
  }

  /** `slice(name, state, actions)` on the process-wide tables: flatten while
      registering each slice found, merge the reducers, then refuse a name
      already taken and install the slice's root selector. */
  method DefineSlice(name: string, p: Part, user: seq<(string, Rule)>, registry: SliceTable, selectors: SelectorTable)
    returns (r: Result<seq<(string, Rule)>>)
    modifies registry, selectors
    ensures var reg := RegisterScan(SliceTables(old(registry.entries), []), name, Initial(p, "").found);
            && (reg.Err? ==> r == Err(reg.error) && selectors.entries == old(selectors.entries))
            && (reg.Ok? ==> registry.entries == reg.value.slices)
            && (reg.Ok? && Initial(p, "").result.None? ==> r == Err(RootIsInstance) && selectors.entries == old(selectors.entries))
            && (reg.Ok? && Initial(p, "").result.Some? && name in old(selectors.entries) ==>
                  r == Err(DuplicateName(name)) && selectors.entries == old(selectors.entries))
            && (reg.Ok? && Initial(p, "").result.Some? && name !in old(selectors.entries) ==>
                  r == Ok(Spread(user, reg.value.nested)) && selectors.entries == old(selectors.entries)[name := Root(name)])
  {
    var cb := new Finder();
    var state := GetInitial(p, cb, "");
    var found := cb.found;
    assert found == Initial(p, "").found;
    var res := RegisterAll(registry, name, found);
    ghost var reg := RegisterScan(SliceTables(old(registry.entries), []), name, Initial(p, "").found);
    if res.Err? {
      return Err(res.error);
    }
    if state.None? {
      return Err(RootIsInstance);
    }
    var reducers := Spread(user, res.value);
    if name in selectors.entries {
      return Err(DuplicateName(name));
    }
    selectors.entries := selectors.entries[name := Root(name)];
    r := Ok(reducers);
  }

  /** The callback fired for each slice found, in order, stopping at the
      first refusal; on success, the nested reducers gathered. */
  method RegisterAll(registry: SliceTable, name: string, found: seq<Found>)
    returns (r: Result<seq<(string, Rule)>>)
    modifies registry
    ensures var reg := RegisterScan(SliceTables(old(registry.entries), []), name, found);
            && (reg.Err? ==> r == Err(reg.error))
            && (reg.Ok? ==> r == Ok(reg.value.nested) && registry.entries == reg.value.slices)
  {
    var nested: seq<(string, Rule)> := [];
    ghost var reg := RegisterScan(SliceTables(registry.entries, nested), name, found);
    var i := 0;
    while i < |found|
      invariant 0 <= i <= |found|
      invariant reg == RegisterScan(SliceTables(registry.entries, nested), name, found[i..])
    {
      var f := found[i];
      ScanStep(SliceTables(registry.entries, nested), name, found, i);
      var res := OnFound(registry, nested, name, f);
      if res.Err? {
        return Err(res.error);
      }
      nested := res.value;
      i := i + 1;
    }
    assert found[i..] == [];
    r := Ok(nested);
  }

  /** One more slice found: register it, then go on with the rest. */
  lemma ScanStep(t: SliceTables, name: string, found: seq<Found>, i: nat)
    requires i < |found|
    ensures RegisterScan(t, name, found[i..])
         == match Register(t, name, found[i])
            case Err(e) => Err(e)
            case Ok(t') => RegisterScan(t', name, found[i + 1..])
  {
    assert found[i..][1..] == found[i + 1..];
  }

  /** The callback body: the guard on `${name}/${k}`, the reset, and the loop
      over the embedded slice's actions. */
  method OnFound(registry: SliceTable, nested0: seq<(string, Rule)>, name: string, f: Found)
    returns (r: Result<seq<(string, Rule)>>)
    modifies registry
    ensures var reg := Register(SliceTables(old(registry.entries), nested0), name, f);
            && (reg.Err? ==> r == Err(reg.error) && registry.entries == old(registry.entries))
            && (reg.Ok? ==> r == Ok(reg.value.nested) && registry.entries == reg.value.slices)
  {
    var key := Scoped(name, f.path);
    if key in registry.entries {
      return Err(DuplicateName(name));
    }
    registry.entries := registry.entries[key := []];
    ghost var t0 := SliceTables(registry.entries, nested0);
    var nested := nested0;
    var i := 0;
    while i < |f.slice.actions|
      invariant 0 <= i <= |f.slice.actions|
      invariant SliceTables(registry.entries, nested) == NestActions(t0, name, f.path, f.slice, i)
    {
      var act := f.slice.actions[i];
      nested := Assign(nested, Scoped(f.path, act), NestedRule(f.slice.name, act));
      var listed := if key in registry.entries then registry.entries[key] else [];
      registry.entries := registry.entries[key := listed + [act]];
      i := i + 1;
    }
    r := Ok(nested);
  }
}
