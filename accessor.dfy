/** The reflective accessor of a model (src/model.ts:517-585) and of the field
    proxies it hands out (`selectProxy`, src/model.ts:241-278): what reading a
    property `k` gives, and which selector and key path each hook works with. */
module Accessor {
  import opened Base
  import opened Text
  import opened Tree
  import opened ActionProxy
  import opened Selectors
  import opened Naming

  /** What the accessor of a model sees: its name, its flattened initial
      state, the names of its slice's actions and of its selectors. */
  datatype ModelView = ModelView(name: string, state: Value, actions: seq<string>, selectors: seq<string>)

  /** What reading a property gives. The hooks are described by the selector
      they subscribe with and the key path they decorate the selected value with. */
  datatype Accessed =
    | Internal(member: string)                            // `$$reducer`, `$$keys`, … and `reducer`
    | UseAll(sel: Sel, keys: seq<string>)                 // a hook selecting `sel`, decorated at `keys`
    | UseAction(action: string)                           // a hook returning a dispatcher of `action`
    | UseSelector(selector: string)                       // a hook running one of the model's selectors
    | UseField(key: string, sel: Sel, keys: seq<string>)  // a hook selecting one field
    | ActionCreator(action: string)                       // the action creator itself
    | SelectorMember(selector: string)                    // the selector itself
    | FieldProxy(data: Value, keys: seq<string>, sel: Sel) // a `selectProxy` over a field

  /** The members the model's proxy answers before anything else. */
  const InternalNames: set<string> :=
    {"$$reducer", "$$asyncReducers", "$$selector", "$$name", "$$state", "$$actions", "$$selectors", "reducer"}

  /** `useKey` and `usekey`: the name after `use`, as written and with its
      first letter lowered. */
  function UseNames(k: string): (string, string)
    requires StartsWith(k, "use")
  {
    (k[3..], LowerFirst(k[3..]))
  }

  /** `use${Key}` on a model other than `useAll`: an action first, then a
      selector (each under `useKey`, then `usekey`), and otherwise the field,
      spelled as written when the initial state holds a truthy value under that
      spelling. The field hook's selector comes from the cache. */
  function ModelHook(v: ModelView, k: string, entries: map<string, Sel>): (Accessed, map<string, Sel>)
    requires StartsWith(k, "use")
  {
    var (useKey, usekey) := UseNames(k);
    if useKey in v.actions then (UseAction(useKey), entries)
    else if usekey in v.actions then (UseAction(usekey), entries)
    else if useKey in v.selectors then (UseSelector(useKey), entries)
    else if usekey in v.selectors then (UseSelector(usekey), entries)
    else
      var key := if Truthy(Get(v.state, useKey)) then useKey else usekey;
      var (entries', sel) := Added(entries, key, [v.name], Root(v.name));
      (UseField(key, sel, [key]), entries')
  }

  /** Reading `k` from a model's proxy. `selectorFirst` says whether a selector
      name gives the selector: as written it only gains `useSelect` and the
      read goes on to the action and field cases. */
  function ModelRead(v: ModelView, k: string, entries: map<string, Sel>, selectorFirst: bool): (Accessed, map<string, Sel>)
  {
    if k in InternalNames then (Internal(k), entries)
    else if StartsWith(k, "use") then
      if k == "useAll" then (UseAll(Root(v.name), []), entries)
      else ModelHook(v, k, entries)
    else if selectorFirst && k in v.selectors then (SelectorMember(k), entries)
    else if k in v.actions then (ActionCreator(k), entries)
    else
      var (entries', sel) := Added(entries, k, [v.name], Root(v.name));
      (FieldProxy(Get(v.state, k), [v.name, k], sel), entries')
  }

  /** The model's `get` trap as written. */
  function ModelAccessAsWritten(v: ModelView, k: string, entries: map<string, Sel>): (Accessed, map<string, Sel>)
  {
    ModelRead(v, k, entries, false)
  }

  /** The model's `get` trap with the selector returned, as the action case next to it does. */
  function ModelAccess(v: ModelView, k: string, entries: map<string, Sel>): (Accessed, map<string, Sel>)
  {
    ModelRead(v, k, entries, true)
  }

  /** As written, reading a selector by its name gives a field proxy over
      whatever the state holds under that name (usually `undefined`), never
      the selector. */
  lemma SelectorReadFallsThrough(v: ModelView, k: string, entries: map<string, Sel>)
    requires k in v.selectors && k !in v.actions && k !in InternalNames && !StartsWith(k, "use")
    ensures var a := ModelAccessAsWritten(v, k, entries).0;
            a.FieldProxy? && a.data == Get(v.state, k) && a.keys == [v.name, k]
    ensures ModelAccess(v, k, entries) == (SelectorMember(k), entries)
  {
  }

  /** The intended reading: every selector of the model is reachable under its own name. */
  lemma SelectorReadable(v: ModelView, k: string, entries: map<string, Sel>)
    requires k in v.selectors && k !in InternalNames && !StartsWith(k, "use")
    ensures ModelAccess(v, k, entries) == (SelectorMember(k), entries)
  {
  }

  /** Lowering the first letter undoes capitalising it, unless it was a capital. */
  lemma LowerCapitalize(x: string)
    requires x != [] && !('A' <= x[0] <= 'Z')
    ensures LowerFirst(Capitalize(x)) == x
  {
    assert LowerFirst(Capitalize(x))[1..] == x[1..];
  }

  /** The binding name `use${Capitalize<x>}` is a hook name other than
      `useAll`, and its two spellings are `Capitalize<x>` and `x` itself. */
  lemma UseNamesOf(x: string)
    requires x != [] && !('A' <= x[0] <= 'Z') && x != "all"
    ensures StartsWith("use" + Capitalize(x), "use")
    ensures "use" + Capitalize(x) != "useAll" && "use" + Capitalize(x) !in InternalNames
    ensures UseNames("use" + Capitalize(x)) == (Capitalize(x), x)
  {
    var k := "use" + Capitalize(x);
    assert k[..3] == "use";
    assert k[3..] == Capitalize(x);
    LowerCapitalize(x);
  }

  /** `use${Capitalize<act>}` reaches the action `act`: the binding name a
      component writes resolves back to the action it was spelled from. */
  lemma UseActionRoundTrip(v: ModelView, act: string, entries: map<string, Sel>)
    requires act != [] && !('A' <= act[0] <= 'Z') && act != "all"
    requires act in v.actions && Capitalize(act) !in v.actions
    ensures ModelAccess(v, "use" + Capitalize(act), entries) == (UseAction(act), entries)
  {
    UseNamesOf(act);
  }

  /** `use${Capitalize<f>}` for a field `f` that no action or selector claims
      gives a hook on that field: it selects through the cached projection
      `[name, f]` (which reads `store[name][f]`), decorates with the keys `[f]`,
      and leaves the cache coherent. */
  lemma UseFieldRoundTrip(v: ModelView, f: string, entries: map<string, Sel>, store: Value)
    requires f != [] && !('A' <= f[0] <= 'Z') && f != "all"
    requires Coherent(entries) && NoBar([v.name, f])
    requires f !in v.actions && Capitalize(f) !in v.actions
    requires f !in v.selectors && Capitalize(f) !in v.selectors
    requires !Truthy(Get(v.state, Capitalize(f)))
    ensures var a := ModelAccess(v, "use" + Capitalize(f), entries).0;
            && a.UseField? && a.key == f && a.keys == [f]
            && Path(a.sel) == [v.name, f]
            && (FieldPath(store, [v.name, f]).Some? ==> Read(a.sel, store) == FieldPath(store, [v.name, f]).value)
    ensures Coherent(ModelAccess(v, "use" + Capitalize(f), entries).1)
  {
    UseNamesOf(f);
    assert [v.name] + [f] == [v.name, f];
    AddedCoherent(entries, f, [v.name], Root(v.name));
    var a := ModelAccess(v, "use" + Capitalize(f), entries).0;
    assert a.sel == Project(Root(v.name), f);
    if FieldPath(store, [v.name, f]).Some? {
      ReadFollowsPath(a.sel, store);
    }
  }

  /** A property name that reaches a field on the model and on every proxy
      below it: no internal name, no hook, no action or selector, no `|`. */
  predicate Plain(v: ModelView, k: string)
  {
    k !in InternalNames && !StartsWith(k, "use") && !StartsWith(k, "$$")
    && k !in v.actions && k !in v.selectors && '|' !in k
  }

  /** `selectProxy`'s `get` trap on the proxy `p`; `decoration` is the key
      path its hooks decorate with. */
  function ProxyRead(p: Accessed, k: string, entries: map<string, Sel>, decoration: seq<string>): (Accessed, map<string, Sel>)
    requires p.FieldProxy?
  {
    if StartsWith(k, "$$") then (Internal(k), entries)
    else if StartsWith(k, "use") then
      if k == "useAll" then (UseAll(p.sel, decoration), entries)
      else
        var (useKey, usekey) := UseNames(k);
        var key := if Truthy(Get(p.data, useKey)) then useKey else usekey;
        var (entries', sel) := Added(entries, key, p.keys, p.sel);
        (UseField(key, sel, decoration + [key]), entries')
    else
      var (entries', sel) := Added(entries, k, p.keys, p.sel);
      (FieldProxy(Get(p.data, k), p.keys + [k], sel), entries')
  }

  /** A proxy's `useAll` selects with the proxy's own selector and decorates at `decoration`. */
  lemma ProxyUseAll(p: Accessed, entries: map<string, Sel>, decoration: seq<string>)
    requires p.FieldProxy?
    ensures ProxyRead(p, "useAll", entries, decoration) == (UseAll(p.sel, decoration), entries)
  {
    assert !StartsWith("useAll", "$$") by {
      assert "useAll"[0] == 'u';
    }
    assert StartsWith("useAll", "use") by {
      assert "useAll"[..3] == "use";
    }
  }

  /** As written the hooks decorate with the proxy's `$$keys`, which start with
      the model's name. */
  function ProxyAccessAsWritten(p: Accessed, k: string, entries: map<string, Sel>): (Accessed, map<string, Sel>)
    requires p.FieldProxy?
  {
    ProxyRead(p, k, entries, p.keys)
  }

  /** The intended trap: the hooks decorate with the field path below the
      model, as the model's own `use${Field}` hooks do; the cache keys keep the name. */
  function ProxyAccess(p: Accessed, k: string, entries: map<string, Sel>): (Accessed, map<string, Sel>)
    requires p.FieldProxy?
  {
    ProxyRead(p, k, entries, if p.keys == [] then [] else p.keys[1..])
  }

  /** `model.f0.f1…fn`: the proxy reached by reading the fields `fs` in turn. */
  function Reach(v: ModelView, fs: seq<string>, entries: map<string, Sel>): (Accessed, map<string, Sel>)
    requires fs != []
    decreases |fs|
  {
    if |fs| == 1 then ModelAccess(v, fs[0], entries)
    else
      var (p, entries') := Reach(v, fs[..|fs| - 1], entries);
      if p.FieldProxy? then ProxyAccess(p, fs[|fs| - 1], entries') else (p, entries')
  }

  /** `obj[f0][f1]…` in JavaScript. */
  function Lookups(v: Value, fs: seq<string>): Value
    decreases |fs|
  {
    if fs == [] then v else Get(Lookups(v, fs[..|fs| - 1]), fs[|fs| - 1])
  }

  /** A chain of plain field reads gives a proxy over the value under those
      fields, keyed `[name, ...fs]`, whose selector reads exactly that path
      from the store; the selector cache stays coherent on the way. */
  lemma {:induction false} ReachedProxy(v: ModelView, fs: seq<string>, entries: map<string, Sel>)
    requires fs != [] && Coherent(entries) && '|' !in v.name
    requires forall i :: 0 <= i < |fs| ==> Plain(v, fs[i])
    ensures var (p, entries') := Reach(v, fs, entries);
            && p.FieldProxy?
            && p.keys == [v.name] + fs
            && Path(p.sel) == p.keys
            && p.data == Lookups(v.state, fs)
            && Coherent(entries')
    decreases |fs|
  {
    FieldsNoBar(v, fs);
    if |fs| == 1 {
      ReachOne(v, fs[0], entries);
      assert Lookups(v.state, fs) == Get(Lookups(v.state, []), fs[0]);
    } else {
      ReachedProxy(v, fs[..|fs| - 1], entries);
      ReachStep(v, fs, entries);
    }
  }

  /** The first plain field read on the model. */
  lemma ReachOne(v: ModelView, f: string, entries: map<string, Sel>)
    requires Coherent(entries) && Plain(v, f) && NoBar([v.name] + [f])
    ensures var (q, entries') := ModelAccess(v, f, entries);
            && q.FieldProxy?
            && q.keys == [v.name] + [f]
            && Path(q.sel) == q.keys
            && q.data == Get(v.state, f)
            && Coherent(entries')
  {
    AddedCoherent(entries, f, [v.name], Root(v.name));
  }

  /** One more plain field read on a proxy reached through `fs` without its last field. */
  lemma ReachStep(v: ModelView, fs: seq<string>, entries: map<string, Sel>)
    requires |fs| > 1 && Plain(v, fs[|fs| - 1]) && NoBar([v.name] + fs)
    requires var (p, entries') := Reach(v, fs[..|fs| - 1], entries);
             && p.FieldProxy?
             && p.keys == [v.name] + fs[..|fs| - 1]
             && Path(p.sel) == p.keys
             && p.data == Lookups(v.state, fs[..|fs| - 1])
             && Coherent(entries')
    ensures var (q, entries') := Reach(v, fs, entries);
            && q.FieldProxy?
            && q.keys == [v.name] + fs
            && Path(q.sel) == q.keys
            && q.data == Lookups(v.state, fs)
            && Coherent(entries')
  {
    var init := fs[..|fs| - 1];
    var last := fs[|fs| - 1];
    var p := Reach(v, init, entries).0;
    var e := Reach(v, init, entries).1;
    assert Reach(v, fs, entries) == ProxyAccess(p, last, e);
    ProxyPlainRead(p, last, e);
    InitLast(fs);
    assert p.keys + [last] == [v.name] + fs;
    AddedCoherent(e, last, p.keys, p.sel);
    assert Lookups(v.state, fs) == Get(Lookups(v.state, init), last);
  }

  /** A plain field read on a field proxy extends its keys and files the selector. */
  lemma ProxyPlainRead(p: Accessed, k: string, entries: map<string, Sel>)
    requires p.FieldProxy? && !StartsWith(k, "$$") && !StartsWith(k, "use")
    ensures var (entries', sel) := Added(entries, k, p.keys, p.sel);
            ProxyAccess(p, k, entries) == (FieldProxy(Get(p.data, k), p.keys + [k], sel), entries')
  {
  }

  lemma FieldsNoBar(v: ModelView, fs: seq<string>)
    requires '|' !in v.name && forall i :: 0 <= i < |fs| ==> Plain(v, fs[i])
    ensures NoBar([v.name] + fs)
  {
    var keys := [v.name] + fs;
    forall i | 0 <= i < |keys| ensures '|' !in keys[i] {
      if i > 0 { assert keys[i] == fs[i - 1]; }
    }
  }

  /** As written, a proxy's `useAll` decorates at a key path that starts with
      the model's name again, so the registry key it looks under is
      `${name}/${name}/…`, never the `${name}/${path}` that the flattener's
      callback wrote for an embedding under those fields. */
  lemma ProxyHookMissesRegistry(v: ModelView, fs: seq<string>, entries: map<string, Sel>)
    requires fs != [] && Coherent(entries) && PlainName(v.name) && '|' !in v.name
    requires forall i :: 0 <= i < |fs| ==> Plain(v, fs[i])
    requires PlainNames(fs)
    ensures Reach(v, fs, entries).0.FieldProxy?
    ensures ProxyAccessAsWritten(Reach(v, fs, entries).0, "useAll", Reach(v, fs, entries).1).0
            == UseAll(Reach(v, fs, entries).0.sel, [v.name] + fs)
    ensures RegistryKey(v.name, [v.name] + fs) == v.name + "/" + (v.name + "/" + Join(fs, '/'))
    ensures RegistryKey(v.name, [v.name] + fs) != v.name + "/" + Join(fs, '/')
  {
    ReachedProxy(v, fs, entries);
    var p := Reach(v, fs, entries).0;
    assert p.keys == [v.name] + fs;
    ProxyUseAll(p, Reach(v, fs, entries).1, p.keys);
    NameKey(v.name, fs);
  }

  lemma NameKey(name: string, fs: seq<string>)
    requires fs != [] && PlainName(name) && PlainNames(fs)
    ensures RegistryKey(name, [name] + fs) == name + "/" + (name + "/" + Join(fs, '/'))
    ensures RegistryKey(name, [name] + fs) != name + "/" + Join(fs, '/')
  {
    var j := Join(fs, '/');
    PlainNamesCons(name, fs);
    SingleRegistryKey(name, [name] + fs);
    JoinCons(name, fs, '/');
    KeyLonger(name, j);
  }

  lemma KeyLonger(name: string, j: string)
    requires name != ""
    ensures name + "/" + (name + "/" + j) != name + "/" + j
  {
    assert |name + "/" + (name + "/" + j)| > |name + "/" + j|;
  }

  lemma PlainNamesCons(name: string, fs: seq<string>)
    requires PlainName(name) && PlainNames(fs)
    ensures PlainNames([name] + fs)
  {
    var keys := [name] + fs;
    forall i | 0 <= i < |keys| ensures PlainName(keys[i]) {
      if i > 0 { assert keys[i] == fs[i - 1]; }
    }
  }

  /** With the name dropped, a proxy's `useAll` decorates at the field path
      itself, so it looks under `${name}/${fs.join('/')}`: the key the
      flattener's callback writes for an embedding reached through `fs`. */
  lemma ProxyHookFindsRegistry(v: ModelView, fs: seq<string>, entries: map<string, Sel>)
    requires fs != [] && Coherent(entries) && v.name != "" && '|' !in v.name
    requires forall i :: 0 <= i < |fs| ==> Plain(v, fs[i])
    requires PlainNames(fs)
    ensures Reach(v, fs, entries).0.FieldProxy?
    ensures ProxyAccess(Reach(v, fs, entries).0, "useAll", Reach(v, fs, entries).1).0
            == UseAll(Reach(v, fs, entries).0.sel, fs)
    ensures RegistryKey(v.name, fs) == v.name + "/" + Join(fs, '/')
  {
    ReachedProxy(v, fs, entries);
    var p := Reach(v, fs, entries).0;
    assert p.keys[1..] == fs;
    ProxyUseAll(p, Reach(v, fs, entries).1, fs);
    SingleRegistryKey(v.name, fs);
  }
}
