/** Selectors over the composed store: the field-projection cache of
    src/model.ts:229-239 (`addSelector`), derived selectors (`select`, `arg`
    and the default cache key, src/model.ts:140-192) and `combineModels`
    (src/model.ts:341-349). */
module Selectors {
  import opened Base
  import opened Text
  import opened Tree
  import opened Models
  import opened ActionProxy

  /** A field-access selector: the model's own `state => state[name]`, or
      `createSelector([parent], state => state && state[key])`. */
  datatype Sel = Root(name: string) | Project(parent: Sel, key: string)

  /** The property names a selector reads, from the store down. */
  function Path(sel: Sel): (r: seq<string>)
    ensures |r| >= 1 && r[0] == RootName(sel)
    ensures |r| == 1 <==> sel.Root?
  {
    match sel
    case Root(name) => [name]
    case Project(parent, key) => Path(parent) + [key]
  }

  function RootName(sel: Sel): string
  {
    match sel
    case Root(name) => name
    case Project(parent, _) => RootName(parent)
  }

  /** A selector is determined by the path it reads. */
  lemma {:induction false} PathInjective(a: Sel, b: Sel)
    requires Path(a) == Path(b)
    ensures a == b
  {
    if a.Project? {
      var pa, pb := a.parent, b.parent;
      assert Path(pa) == Path(a)[..|Path(a)| - 1] == Path(pb);
      PathInjective(pa, pb);
    }
  }

  /** `obj[k]` in JavaScript: the property, or `undefined`. */
  function Get(v: Value, k: string): Value
  {
    match Field(v, k)
    case Some(x) => x
    case None => Undefined
  }

  /** What a selector returns on the store `state`. */
  function Read(sel: Sel, state: Value): Value
  {
    match sel
    case Root(name) => Get(state, name)
    case Project(parent, key) =>
      var s := Read(parent, state);
      if Truthy(s) then Get(s, key) else s
  }

  /** Following property names one by one, failing where one is missing. */
  function FieldPath(v: Value, path: seq<string>): Option<Value>
    decreases |path|
  {
    if path == [] then Some(v)
    else match Field(v, path[0])
      case None => None
      case Some(x) => FieldPath(x, path[1..])
  }

  lemma {:induction false} FieldPathAppend(v: Value, path: seq<string>, k: string)
    ensures FieldPath(v, path + [k]) == match FieldPath(v, path) case None => None case Some(x) => Field(x, k)
    decreases |path|
  {
    if path != [] {
      assert (path + [k])[1..] == path[1..] + [k];
      if Field(v, path[0]).Some? {
        FieldPathAppend(Field(v, path[0]).value, path[1..], k);
      }
    }
  }

  /** A field selector reads the value at the end of its path whenever that
      path exists in the store. */
  lemma {:induction false} ReadFollowsPath(sel: Sel, state: Value)
    requires FieldPath(state, Path(sel)).Some?
    ensures Read(sel, state) == FieldPath(state, Path(sel)).value
  {
    match sel
    case Root(name) =>
    case Project(parent, key) =>
      FieldPathAppend(state, Path(parent), key);
      ReadFollowsPath(parent, state);
      var s := FieldPath(state, Path(parent)).value;
      assert Field(s, key).Some?;
      assert s.Obj? || s.Arr?;
  }

  predicate NoBar(keys: seq<string>)
  {
    forall i :: 0 <= i < |keys| ==> '|' !in keys[i]
  }

  /** Every cached selector is filed under its own path joined by `|`. */
  predicate Coherent(entries: map<string, Sel>)
  {
    forall key :: key in entries ==> NoBar(Path(entries[key])) && Join(Path(entries[key]), '|') == key
  }

  /** `addSelector(key, keys, selector)` on the cache `entries`: the new cache
      and the selector returned. */
  function Added(entries: map<string, Sel>, key: string, keys: seq<string>, selector: Sel): (map<string, Sel>, Sel)
  {
    var selectKey := Join(keys + [key], '|');
    if selectKey in entries then (entries, entries[selectKey])
    else (entries[selectKey := Project(selector, key)], Project(selector, key))
  }

  /** The cache stays coherent, and the selector handed out for `key` below a
      selector reading `keys` reads exactly `keys + [key]`, whether it was just
      created or found; asking again creates nothing. */
  lemma AddedCoherent(entries: map<string, Sel>, key: string, keys: seq<string>, selector: Sel)
    requires Coherent(entries) && Path(selector) == keys && NoBar(keys + [key])
    ensures var (entries', s) := Added(entries, key, keys, selector);
            && Coherent(entries')
            && s == Project(selector, key)
            && Path(s) == keys + [key]
            && Added(entries', key, keys, selector) == (entries', s)
  {
    var selectKey := Join(keys + [key], '|');
    if selectKey in entries {
      var found := entries[selectKey];
      SplitJoin(Path(found), '|');
      SplitJoin(keys + [key], '|');
      assert Path(found) == Path(Project(selector, key));
      PathInjective(found, Project(selector, key));
    }
  }

  /** The process-wide cache `$$GENRATE_REDUX.nestedSelectors`. */
  class SelectorTable {
    var entries: map<string, Sel>

    constructor ()
      ensures entries == map[]
    {
      entries := map[];
    }

    /** `addSelector`: creates the projection selector the first time its
        joined path is asked for, and hands out the cached one after that. */
    method AddSelector(key: string, keys: seq<string>, selector: Sel) returns (s: Sel)
      modifies this
      ensures (entries, s) == Added(old(entries), key, keys, selector)
      ensures Join(keys + [key], '|') in old(entries) ==> entries == old(entries) && s == old(entries)[Join(keys + [key], '|')]
    {
      var selectKey := Join(keys + [key], '|');
      if selectKey !in entries {
        entries := entries[selectKey := Project(selector, key)];
      }
      s := entries[selectKey];
    }
  }

  /** An upstream dependency as `select` receives it: a model (whose
      `$$selector` is its root selector), a field accessor (whose `$$selector`
      is its projection) or a derived selector (used as it is). */
  datatype Upstream = ModelDep(model: string) | FieldDep(sel: Sel) | DerivedDep(id: nat)

  /** An argument extractor: `arg(position)` or a function of the caller's. */
  datatype ArgSel = Position(position: int) | CustomArg(id: nat)

  /** What reselect is handed, dependency by dependency. */
  datatype Dep = Reads(sel: Sel) | Uses(id: nat) | FromArgs(arg: ArgSel)

  /** The second argument of `select`: an array of argument extractors, or
      the combiner itself. */
  datatype SecondArg = ArgList(args: seq<ArgSel>) | CombinerArg(combiner: nat)

  datatype KeyFn = DefaultKey | CustomKey(id: nat)

  /** A derived selector: memoised on its inputs (`createSelector`), or
      additionally cached per key of its extra arguments (`createCachedSelector`). */
  datatype Derived =
    | Memoised(deps: seq<Dep>, combiner: nat)
    | Cached(deps: seq<Dep>, combiner: nat, keyFn: KeyFn)

  function Resolve(u: Upstream): Dep
  {
    match u
    case ModelDep(name) => Reads(Root(name))
    case FieldDep(sel) => Reads(sel)
    case DerivedDep(id) => Uses(id)
  }

  function ResolveAll(us: seq<Upstream>): (r: seq<Dep>)
    ensures |r| == |us| && forall i :: 0 <= i < |us| ==> r[i] == Resolve(us[i])
  {
    if us == [] then [] else [Resolve(us[0])] + ResolveAll(us[1..])
  }

  function FromArgsAll(args: seq<ArgSel>): (r: seq<Dep>)
    ensures |r| == |args| && forall i :: 0 <= i < |args| ==> r[i] == FromArgs(args[i])
  {
    if args == [] then [] else [FromArgs(args[0])] + FromArgsAll(args[1..])
  }

  /** `selectFn`: upstream selectors first, then the argument extractors; a
      per-key cache only when there are argument extractors. */
  function SelectFn(selectors: seq<Upstream>, args: seq<ArgSel>, combiner: nat, keySelector: Option<nat>): (d: Derived)
    ensures d.deps == ResolveAll(selectors) + FromArgsAll(args) && d.combiner == combiner
    ensures d.Cached? <==> |args| > 0
    ensures d.Cached? ==> d.keyFn == (if keySelector.Some? then CustomKey(keySelector.value) else DefaultKey)
  {
    var deps := ResolveAll(selectors) + FromArgsAll(args);
    if |args| > 0 then Cached(deps, combiner, if keySelector.Some? then CustomKey(keySelector.value) else DefaultKey)
    else Memoised(deps, combiner)
  }

  /** `select(selectors, args, combiner?, keySelector?)`. */
  function Select(selectors: seq<Upstream>, second: SecondArg, combiner: Option<nat>, keySelector: Option<nat>): (r: Result<Derived>)
    ensures r.Err? <==> second.ArgList? && combiner.None?
    ensures r.Err? ==> r.error == MissingCombiner
    ensures r.Ok? ==> (r.value.Cached? <==> second.ArgList? && |second.args| > 0)
    ensures r.Ok? && second.CombinerArg? ==> r.value == Memoised(ResolveAll(selectors), second.combiner)
    ensures r.Ok? && second.ArgList? ==> r.value.combiner == combiner.value
  {
    match second
    case ArgList(args) =>
      if combiner.Some? then Ok(SelectFn(selectors, args, combiner.value, keySelector))
      else Err(MissingCombiner)
    case CombinerArg(c) =>
      assert FromArgsAll([]) == [];
      Ok(SelectFn(selectors, [], c, None))
  }

  /** `arg(position)` applied to the caller's extra arguments. */
  function Arg(position: int, params: seq<Value>): Value
  {
    if 1 <= position <= |params| then params[position - 1] else Undefined
  }

  /** `arg(1)`, `arg(2)`, … pick the caller's arguments in order. */
  lemma ArgPositions(params: seq<Value>)
    ensures seq(|params|, i requires 0 <= i < |params| => Arg(i + 1, params)) == params
    ensures forall p :: p < 1 || p > |params| ==> Arg(p, params) == Undefined
  {
  }

  /** The default cache key: every extra argument encoded (by
      `JSON.stringify`, here `encode`) and the codes joined by `|`. */
  function DefaultCacheKey(params: seq<Value>, encode: Value -> string): string
  {
    Join(seq(|params|, i requires 0 <= i < |params| => encode(params[i])), '|')
  }

  /** Two calls share a cache entry exactly when they pass the same
      arguments, provided the encoding is injective and never contains `|`. */
  lemma DefaultCacheKeyInjective(p1: seq<Value>, p2: seq<Value>, encode: Value -> string)
    requires |p1| >= 1 && |p2| >= 1
    requires forall x, y :: encode(x) == encode(y) ==> x == y
    requires forall i :: 0 <= i < |p1| ==> '|' !in encode(p1[i])
    requires forall i :: 0 <= i < |p2| ==> '|' !in encode(p2[i])
    ensures DefaultCacheKey(p1, encode) == DefaultCacheKey(p2, encode) <==> p1 == p2
  {
    var c1 := seq(|p1|, i requires 0 <= i < |p1| => encode(p1[i]));
    var c2 := seq(|p2|, i requires 0 <= i < |p2| => encode(p2[i]));
    if Join(c1, '|') == Join(c2, '|') {
      SplitJoin(c1, '|');
      SplitJoin(c2, '|');
      assert c1 == c2;
      forall i | 0 <= i < |p1| ensures p1[i] == p2[i] {
        assert c1[i] == c2[i];
      }
    }
  }

  /** `combineModels(...models)`: the reducer map `{ [name]: reducer }` spread
      model after model; a model stands for its reducer here. */
  function Combined(models: seq<ModelRef>): seq<(string, ModelRef)>
  {
    if models == [] then []
    else
      var last := models[|models| - 1];
      Assign(Combined(models[..|models| - 1]), last.name, last)
  }

  /** The last model of the list with a given name. */
  function LastNamed(models: seq<ModelRef>, name: string): (r: Option<ModelRef>)
    ensures r.Some? ==> r.value in models && r.value.name == name
    ensures r.None? <==> forall m :: m in models ==> m.name != name
  {
    if models == [] then None
    else if models[|models| - 1].name == name then Some(models[|models| - 1])
    else LastNamed(models[..|models| - 1], name)
  }

  /** The combined map has one entry per model name, and that entry holds the
      reducer of the last model passed under the name. */
  lemma {:induction false} CombinedShape(models: seq<ModelRef>)
    ensures Distinct(KeysOf(Combined(models)))
    ensures forall name :: Find(Combined(models), name) == LastNamed(models, name)
  {
    if models != [] {
      var init := models[..|models| - 1];
      var last := models[|models| - 1];
      CombinedShape(init);
      forall name ensures Find(Combined(models), name) == LastNamed(models, name) {
        AssignFind(Combined(init), last.name, last, name);
      }
      AssignFind(Combined(init), last.name, last, last.name);
    }
  }

  /** The loop of `combineModels`. */
  method CombineModels(models: seq<ModelRef>) returns (result: seq<(string, ModelRef)>)
    ensures result == Combined(models)
  {
    result := [];
    var n := 0;
    while n < |models|
      invariant 0 <= n <= |models|
      invariant result == Combined(models[..n])
    {
      assert models[..n + 1][..n] == models[..n];
      result := Assign(result, models[n].name, models[n]);
      n := n + 1;
    }
    assert models[..n] == models;
  }
}
