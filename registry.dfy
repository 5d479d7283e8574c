/** The registration callback that `model` passes to the tree flattener
    (src/model.ts:383-432). For an embedding found at path `k` it resets
    `nestedSlices[${name}/${k}]`, lists each action of the embedded model under
    the registry key of the node that owns it, and builds the rewritten reducer
    `k/act` (or, for an async thunk, the entry the phase wrapper works from). */
module Registry {
  import opened Base
  import opened Text
  import opened Tree
  import opened Models
  import opened Flatten
  import opened Router

  /** `nestedReducers[k/modelAct]`: re-dispatches to the model named `target`
      with type `${target}/${modelAct}`. `prefixed` when the embedded action was
      itself registered by a model nested deeper (`p/act`). */
  datatype Rewrite = Rewrite(target: string, modelAct: string, prefixed: bool)

  /** `nestedAsyncReducers[k/modelAct]`: the embedded thunk `owner`'s `thunk`,
      the phases its config declares, and the type its phase actions get. */
  datatype AsyncEntry = AsyncEntry(owner: string, thunk: string, phases: set<Phase>, actionType: string)

  /** The three tables the callback writes: the process-wide `nestedSlices` and
      the defining model's own `nestedReducers` and `nestedAsyncReducers`. */
  datatype Tables = Tables(
    slices: map<string, seq<string>>,
    reducers: map<string, Rewrite>,
    asyncs: map<string, AsyncEntry>)

  /** `act.split('/')` with the last part popped: the prefix path (empty when
      `act` has no `/`) and the bare action name. */
  function SplitAct(act: string): (r: (seq<string>, string))
    ensures '/' !in act ==> r == ([], act)
    ensures '/' in act ==> r.0 != [] && forall i :: 0 <= i < |r.0| ==> '/' !in r.0[i]
    ensures '/' !in r.1
  {
    if '/' in act then
      var parts := Split(act, '/');
      SplitAtSeparator(act, '/');
      (parts[..|parts| - 1], parts[|parts| - 1])
    else ([], act)
  }

  /** `modelAct`: the prefix joined back in front of the bare name. */
  function ModelAct(act: string): string
  {
    var (parent, last) := SplitAct(act);
    if parent != [] then Join(parent, '/') + "/" + last else last
  }

  /** `sliceKey`: `${name}/${k}`, extended by the prefix path when there is one. */
  function SliceKeyOf(name: string, k: string, act: string): string
  {
    var (parent, _) := SplitAct(act);
    if parent != [] then name + "/" + k + "/" + Join(parent, '/') else name + "/" + k
  }

  /** One round of the `for (let act in d.$$actions)` loop. */
  function RegisterAction(t: Tables, name: string, k: string, d: ModelRef, act: string): Tables
  {
    var (parent, last) := SplitAct(act);
    var modelAct := ModelAct(act);
    var sliceKey := SliceKeyOf(name, k, act);
    var t1 :=
      if modelAct in d.asyncActions then
        t.(asyncs := t.asyncs[k + "/" + modelAct :=
             AsyncEntry(d.name, modelAct, d.asyncActions[modelAct], d.name + "/" + modelAct)])
      else
        t.(reducers := t.reducers[k + "/" + modelAct := Rewrite(d.name, modelAct, parent != [])]);
    var listed := if sliceKey in t1.slices then t1.slices[sliceKey] else [];
    t1.(slices := t1.slices[sliceKey := listed + [last]])
  }

  /** The loop's rounds over `acts`, in order. */
  function RegisterActions(t: Tables, name: string, k: string, d: ModelRef, acts: seq<string>): Tables
    decreases |acts|
  {
    if acts == [] then t
    else RegisterAction(RegisterActions(t, name, k, d, acts[..|acts| - 1]), name, k, d, acts[|acts| - 1])
  }

  /** One call of the callback `(k, d) => ...`. */
  function RegisterEmbedding(t: Tables, name: string, e: Event): Tables
  {
    RegisterActions(t.(slices := t.slices[name + "/" + e.path := []]), name, e.path, e.model, e.model.actions)
  }

  /** The callback fired for each event in turn. */
  function RegisterAll(t: Tables, name: string, events: seq<Event>): Tables
    decreases |events|
  {
    if events == [] then t
    else RegisterAll(RegisterEmbedding(t, name, events[0]), name, events[1..])
  }

  /** Joining the split action name back gives the action name itself. */
  lemma ModelActIsAct(act: string)
    ensures ModelAct(act) == act
  {
    if '/' in act {
      var parts := Split(act, '/');
      SplitAtSeparator(act, '/');
      assert parts == parts[..|parts| - 1] + [parts[|parts| - 1]];
      JoinSplit(act, '/');
    }
  }

  /** The process-wide table `nestedSlices`. */
  class SliceTable {
    var entries: map<string, seq<string>>

    constructor ()
      ensures entries == map[]
    {
      entries := map[];
    }
  }

  /** The state of one call of `model(name, ...)` while its initial state is
      walked: the shared `nestedSlices` and its own reducer tables. */
  class Definition {
    const name: string
    const slices: SliceTable
    var reducers: map<string, Rewrite>
    var asyncs: map<string, AsyncEntry>

    constructor (name: string, slices: SliceTable)
      ensures this.name == name && this.slices == slices
      ensures reducers == map[] && asyncs == map[]
    {
      this.name := name;
      this.slices := slices;
      reducers := map[];
      asyncs := map[];
    }

    function Snapshot(): Tables
      reads this, slices
    {
      Tables(slices.entries, reducers, asyncs)
    }

    /** The callback body of src/model.ts:390-432. */
    method OnEmbed(k: string, d: ModelRef)
      modifies this, slices
      ensures Snapshot() == RegisterEmbedding(old(Snapshot()), name, Event(k, d))
    {
      slices.entries := slices.entries[name + "/" + k := []];
      ghost var start := Snapshot();
      var i := 0;
      while i < |d.actions|
        invariant 0 <= i <= |d.actions|
        invariant Snapshot() == RegisterActions(start, name, k, d, d.actions[..i])
      {
        OnAction(k, d, d.actions[i]);
        assert d.actions[..i + 1][..i] == d.actions[..i];
        i := i + 1;
      }
      assert d.actions[..i] == d.actions;
    }

    /** One round of the loop: split off the prefix, store the rewrite or the
        async entry, and list the bare name under its registry key. */
    method OnAction(k: string, d: ModelRef, act0: string)
      modifies this, slices
      ensures Snapshot() == RegisterAction(old(Snapshot()), name, k, d, act0)
    {
      var act := act0;
      var parent: seq<string> := [];
      if '/' in act {
        var keys := Split(act, '/');
        SplitAtSeparator(act, '/');
        act := keys[|keys| - 1];
        parent := keys[..|keys| - 1];
      }
      var modelAct := act;
      var sliceKey := name + "/" + k;
      if |parent| > 0 {
        modelAct := Join(parent, '/') + "/" + act;
        sliceKey := name + "/" + k + "/" + Join(parent, '/');
      }
      assert modelAct == ModelAct(act0) && sliceKey == SliceKeyOf(name, k, act0);
      if modelAct in d.asyncActions {
        asyncs := asyncs[k + "/" + modelAct :=
          AsyncEntry(d.name, modelAct, d.asyncActions[modelAct], d.name + "/" + modelAct)];
      } else {
        reducers := reducers[k + "/" + modelAct := Rewrite(d.name, modelAct, |parent| > 0)];
      }
      if sliceKey !in slices.entries {
        slices.entries := slices.entries[sliceKey := []];
      }
      slices.entries := slices.entries[sliceKey := slices.entries[sliceKey] + [act]];
    }
  }

  /** The actions of `acts` that carry no prefix, in order. */
  function Unprefixed(acts: seq<string>): (r: seq<string>)
    decreases |acts|
  {
    if acts == [] then []
    else Unprefixed(acts[..|acts| - 1]) + (if '/' in acts[|acts| - 1] then [] else [acts[|acts| - 1]])
  }

  /** A prefixed action is listed under a longer key than `${name}/${k}`. */
  lemma PrefixedKeyDiffers(name: string, k: string, act: string)
    requires '/' in act
    ensures SliceKeyOf(name, k, act) != name + "/" + k
  {
    var (parent, _) := SplitAct(act);
    assert |SliceKeyOf(name, k, act)| > |name + "/" + k|;
  }

  lemma {:induction false} UnprefixedListed(t: Tables, name: string, k: string, d: ModelRef, acts: seq<string>)
    requires name + "/" + k in t.slices
    ensures var r := RegisterActions(t, name, k, d, acts);
            name + "/" + k in r.slices && r.slices[name + "/" + k] == t.slices[name + "/" + k] + Unprefixed(acts)
    decreases |acts|
  {
    if acts != [] {
      var act := acts[|acts| - 1];
      UnprefixedListed(t, name, k, d, acts[..|acts| - 1]);
      if '/' in act {
        PrefixedKeyDiffers(name, k, act);
      }
    }
  }

  /** After the callback for an embedding at `k`, `nestedSlices[${name}/${k}]`
      lists exactly the embedded model's unprefixed actions, in order: the reset
      to `[]` discards whatever an earlier embedding left there. */
  lemma EmbeddingListsActions(t: Tables, name: string, e: Event)
    ensures var r := RegisterEmbedding(t, name, e);
            name + "/" + e.path in r.slices && r.slices[name + "/" + e.path] == Unprefixed(e.model.actions)
  {
    var t0 := t.(slices := t.slices[name + "/" + e.path := []]);
    UnprefixedListed(t0, name, e.path, e.model, e.model.actions);
  }

  /** What the callback leaves for one embedded action `act`. */
  predicate Registers(r: Tables, name: string, k: string, d: ModelRef, act: string)
  {
    && SliceKeyOf(name, k, act) in r.slices
    && SplitAct(act).1 in r.slices[SliceKeyOf(name, k, act)]
    && (act in d.asyncActions ==>
          k + "/" + act in r.asyncs
          && r.asyncs[k + "/" + act] == AsyncEntry(d.name, act, d.asyncActions[act], d.name + "/" + act))
    && (act !in d.asyncActions ==>
          k + "/" + act in r.reducers && r.reducers[k + "/" + act] == Rewrite(d.name, act, '/' in act))
  }

  lemma RegisterActionKeeps(t: Tables, name: string, k: string, d: ModelRef, act: string, other: string)
    requires Registers(t, name, k, d, other)
    ensures Registers(RegisterAction(t, name, k, d, act), name, k, d, other)
  {
    ModelActIsAct(act);
    var r := RegisterAction(t, name, k, d, act);
    var key := SliceKeyOf(name, k, other);
    if key == SliceKeyOf(name, k, act) {
      assert SplitAct(other).1 in r.slices[key];
    }
    if k + "/" + act == k + "/" + other {
      assert act == other by {
        assert act == (k + "/" + act)[|k| + 1..];
      }
    }
  }

  lemma {:induction false} RegisterActionsKeeps(t: Tables, name: string, k: string, d: ModelRef, acts: seq<string>, other: string)
    requires Registers(t, name, k, d, other)
    ensures Registers(RegisterActions(t, name, k, d, acts), name, k, d, other)
    decreases |acts|
  {
    if acts != [] {
      RegisterActionsKeeps(t, name, k, d, acts[..|acts| - 1], other);
      RegisterActionKeeps(RegisterActions(t, name, k, d, acts[..|acts| - 1]), name, k, d, acts[|acts| - 1], other);
    }
  }

  lemma {:induction false} RegisterActionsAll(t: Tables, name: string, k: string, d: ModelRef, acts: seq<string>)
    ensures forall i :: 0 <= i < |acts| ==> Registers(RegisterActions(t, name, k, d, acts), name, k, d, acts[i])
    decreases |acts|
  {
    if acts != [] {
      var init := acts[..|acts| - 1];
      var last := acts[|acts| - 1];
      var mid := RegisterActions(t, name, k, d, init);
      RegisterActionsAll(t, name, k, d, init);
      forall i | 0 <= i < |init|
        ensures Registers(RegisterActions(t, name, k, d, acts), name, k, d, acts[i])
      {
        assert acts[i] == init[i];
        RegisterActionKeeps(mid, name, k, d, last, init[i]);
      }
      ModelActIsAct(last);
    }
  }

  /** Every action `act` of the embedded model gets a reducer (or, for a thunk, an
      async entry) named `${k}/${act}` that re-dispatches as `${d.name}/${act}`,
      and its bare name is listed under the registry key of the node owning it. */
  lemma EmbeddingRegistersEveryAction(t: Tables, name: string, e: Event, act: string)
    requires act in e.model.actions
    ensures Registers(RegisterEmbedding(t, name, e), name, e.path, e.model, act)
  {
    var t0 := t.(slices := t.slices[name + "/" + e.path := []]);
    RegisterActionsAll(t0, name, e.path, e.model, e.model.actions);
  }

  /** An embedding event that leaves action `act` of the embedding at `k` alone:
      it does not reset the registry key `act` is listed under, and none of its
      own reducers or async entries is named `${k}/${act}`. */
  predicate Untouched(e: Event, name: string, k: string, act: string)
  {
    && name + "/" + e.path != SliceKeyOf(name, k, act)
    && forall a :: a in e.model.actions ==> e.path + "/" + a != k + "/" + act
  }

  /** A round for another action name keeps what was registered for `act`:
      list entries are only ever appended to. */
  lemma OtherActionKeeps(t: Tables, name: string, k': string, d': ModelRef, a: string,
                         k: string, d: ModelRef, act: string)
    requires Registers(t, name, k, d, act)
    requires k' + "/" + a != k + "/" + act
    ensures Registers(RegisterAction(t, name, k', d', a), name, k, d, act)
  {
    ModelActIsAct(a);
    var r := RegisterAction(t, name, k', d', a);
    var key := SliceKeyOf(name, k, act);
    if key == SliceKeyOf(name, k', a) {
      assert SplitAct(act).1 in r.slices[key];
    }
  }

  lemma {:induction false} OtherActionsKeep(t: Tables, name: string, e: Event, acts: seq<string>,
                                            k: string, d: ModelRef, act: string)
    requires Registers(t, name, k, d, act)
    requires forall a :: a in acts ==> e.path + "/" + a != k + "/" + act
    ensures Registers(RegisterActions(t, name, e.path, e.model, acts), name, k, d, act)
    decreases |acts|
  {
    if acts != [] {
      var init := acts[..|acts| - 1];
      var last := acts[|acts| - 1];
      assert forall a :: a in init ==> a in acts;
      OtherActionsKeep(t, name, e, init, k, d, act);
      OtherActionKeeps(RegisterActions(t, name, e.path, e.model, init), name, e.path, e.model, last, k, d, act);
    }
  }

  /** An untouching callback keeps what was registered for `act`. */
  lemma UntouchedKeeps(t: Tables, name: string, e: Event, k: string, d: ModelRef, act: string)
    requires Registers(t, name, k, d, act) && Untouched(e, name, k, act)
    ensures Registers(RegisterEmbedding(t, name, e), name, k, d, act)
  {
    var t0 := t.(slices := t.slices[name + "/" + e.path := []]);
    assert Registers(t0, name, k, d, act);
    OtherActionsKeep(t0, name, e, e.model.actions, k, d, act);
  }

  /** After all the callbacks, every action of the embedding `Event(k, d)` is
      still registered, provided every other event leaves it alone. */
  lemma {:induction false} RegisterAllRegisters(t: Tables, name: string, events: seq<Event>,
                                                k: string, d: ModelRef, act: string)
    requires Event(k, d) in events && act in d.actions
    requires forall e :: e in events ==> e == Event(k, d) || Untouched(e, name, k, act)
    ensures Registers(RegisterAll(t, name, events), name, k, d, act)
    decreases |events|
  {
    var rest := events[1..];
    assert forall e :: e in rest ==> e in events;
    var t1 := RegisterEmbedding(t, name, events[0]);
    if events[0] == Event(k, d) {
      EmbeddingRegistersEveryAction(t, name, Event(k, d), act);
      RegisterAllKeeps(t1, name, rest, k, d, act);
    } else {
      assert Event(k, d) in rest;
      RegisterAllRegisters(t1, name, rest, k, d, act);
    }
  }

  /** Once `act` is registered, later callbacks that are the same embedding
      again or leave it alone keep it registered. */
  lemma {:induction false} RegisterAllKeeps(t: Tables, name: string, events: seq<Event>,
                                            k: string, d: ModelRef, act: string)
    requires Registers(t, name, k, d, act) && act in d.actions
    requires forall e :: e in events ==> e == Event(k, d) || Untouched(e, name, k, act)
    ensures Registers(RegisterAll(t, name, events), name, k, d, act)
    decreases |events|
  {
    if events != [] {
      var rest := events[1..];
      assert forall e :: e in rest ==> e in events;
      if events[0] == Event(k, d) {
        EmbeddingRegistersEveryAction(t, name, Event(k, d), act);
      } else {
        UntouchedKeeps(t, name, events[0], k, d, act);
      }
      RegisterAllKeeps(RegisterEmbedding(t, name, events[0]), name, rest, k, d, act);
    }
  }

  /** What the rewritten reducer does to the composed state (src/model.ts:410-423).
      The envelope handed on to a prefixed action shares its key array with the
      router, which has emptied it by the time the embedded reducer runs. A
      payload that is not an envelope has no `$$keys` to read. */
  function Rewritten(rw: Rewrite, state: Value, action: Action, reducerOf: string -> Reducer): Result<Value>
  {
    match action.payload
    case Plain(_) => Err(TypeError)
    case Envelope(data, keys) =>
      var nested := Action(rw.target + "/" + rw.modelAct, if rw.prefixed then Envelope(data, []) else Plain(data), None);
      if keys == [] then Ok(reducerOf(rw.target)(state, nested).mutated)
      else Ok(Applied(state, keys, InPlace(reducerOf(rw.target), nested)))
  }

  /** The rewritten reducer as the source runs it: the key array is shifted by
      `applyNested` while the nested action already holds it. */
  method RunRewrite(rw: Rewrite, state: Value, action: Action, reducerOf: string -> Reducer) returns (r: Result<Value>)
    ensures r == Rewritten(rw, state, action, reducerOf)
  {
    if action.payload.Plain? {
      return Err(TypeError);
    }
    var data, keys := action.payload.data, action.payload.keys;
    var reducer := reducerOf(rw.target);
    var shared := new KeyArray(keys);
    if |shared.items| == 0 {
      var nested := Action(rw.target + "/" + rw.modelAct, if rw.prefixed then Envelope(data, shared.items) else Plain(data), None);
      r := Ok(reducer(state, nested).mutated);
    } else {
      var path := Descend(shared);
      if path.None? {
        return Ok(state);
      }
      RoutedConsumesAll(keys);
      var nested := Action(rw.target + "/" + rw.modelAct, if rw.prefixed then Envelope(data, shared.items) else Plain(data), None);
      r := Ok(UpdatePath(state, path.value, InPlace(reducer, nested)));
    }
  }

  /** The rewritten reducer applies the embedded model's reducer, with the
      embedded model's own action type and the envelope's data, to exactly the
      node its `$$keys` address, and leaves every node off that path as it was. */
  lemma RewriteScoped(rw: Rewrite, state: Value, data: Value, keys: seq<string>, actionType: string,
                      reducerOf: string -> Reducer, q: seq<Key>)
    requires !rw.prefixed
    requires Route(keys).Some? && GetPath(state, Route(keys).value).Some?
    requires GetPath(state, q).Some? && Diverge(Route(keys).value, q)
    ensures var r := Rewritten(rw, state, Action(actionType, Envelope(data, keys), None), reducerOf);
            var nested := Action(rw.target + "/" + rw.modelAct, Plain(data), None);
            && r.Ok?
            && GetPath(r.value, Route(keys).value)
               == Some(reducerOf(rw.target)(GetPath(state, Route(keys).value).value, nested).mutated)
            && GetPath(r.value, q) == GetPath(state, q)
  {
    var nested := Action(rw.target + "/" + rw.modelAct, Plain(data), None);
    AppliedAddresses(state, keys, InPlace(reducerOf(rw.target), nested));
    AppliedElsewhere(state, keys, InPlace(reducerOf(rw.target), nested), q);
  }
}
