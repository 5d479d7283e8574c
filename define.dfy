/** The steps `model(name, initialState, ...)` takes on the process-wide
    registries (src/model.ts:383-432 and 509-515): flatten the declared state
    while registering every embedding, then refuse a name already taken and
    install the model's root selector. */
module Define {
  import opened Base
  import opened Text
  import opened Flatten
  import opened Registry
  import opened Selectors

  /** Registering the events one after another is registering all but the
      last and then the last. */
  lemma {:induction false} RegisterAllSnoc(t: Tables, name: string, events: seq<Event>, e: Event)
    ensures RegisterAll(t, name, events + [e]) == RegisterEmbedding(RegisterAll(t, name, events), name, e)
    decreases |events|
  {
    if events == [] {
      assert ([] + [e])[1..] == [];
    } else {
      assert (events + [e])[1..] == events[1..] + [e];
      RegisterAllSnoc(RegisterEmbedding(t, name, events[0]), name, events[1..], e);
    }
  }

  /** Replays the callbacks the walk fired, in order. */
  method RegisterEvents(d: Definition, events: seq<Event>)
    modifies d, d.slices
    ensures d.Snapshot() == RegisterAll(old(d.Snapshot()), d.name, events)
  {
    ghost var start := d.Snapshot();
    var i := 0;
    while i < |events|
      invariant 0 <= i <= |events|
      invariant d.Snapshot() == RegisterAll(start, d.name, events[..i])
    {
      RegisterAllSnoc(start, d.name, events[..i], events[i]);
      d.OnEmbed(events[i].path, events[i].model);
      assert events[..i + 1] == events[..i] + [events[i]];
      i := i + 1;
    }
    assert events[..i] == events;
  }

  /** The registration part of `model(name, initialState, ...)`. The
      callbacks the walk fires change `nestedSlices` even when the walk or the
      name check then throws. */
  method DefineModel(name: string, s: Shape, slices: SliceTable, selectors: SelectorTable)
    returns (r: Result<Definition>)
    requires WellFormed(s)
    modifies slices, selectors
    ensures var t := RegisterAll(Tables(old(slices.entries), map[], map[]), name, InitialWalk(s, "").events);
            slices.entries == t.slices
            && (r.Ok? ==> r.value.name == name && r.value.slices == slices
                          && r.value.reducers == t.reducers && r.value.asyncs == t.asyncs)
    ensures InitialWalk(s, "").result.None? ==> r == Err(RootIsInstance) && selectors.entries == old(selectors.entries)
    ensures InitialWalk(s, "").result.Some? && name in old(selectors.entries) ==>
              r == Err(DuplicateName(name)) && selectors.entries == old(selectors.entries)
    ensures InitialWalk(s, "").result.Some? && name !in old(selectors.entries) ==>
              r.Ok? && fresh(r.value) && selectors.entries == old(selectors.entries)[name := Root(name)]
    ensures Coherent(old(selectors.entries)) && '|' !in name ==> Coherent(selectors.entries)
  {
    var calls := new Recorder();
    var state := GetInitial(s, calls, "");
    assert calls.calls == InitialWalk(s, "").events;
    var d := new Definition(name, slices);
    assert d.Snapshot() == Tables(old(slices.entries), map[], map[]);
    RegisterEvents(d, calls.calls);
    assert slices.entries == RegisterAll(Tables(old(slices.entries), map[], map[]), name, InitialWalk(s, "").events).slices;
    assert selectors.entries == old(selectors.entries);
    if state.None? {
      return Err(RootIsInstance);
    }
    if name in selectors.entries {
      return Err(DuplicateName(name));
    }
    assert Join(Path(Root(name)), '|') == name;
    selectors.entries := selectors.entries[name := Root(name)];
    r := Ok(d);
  }
}
