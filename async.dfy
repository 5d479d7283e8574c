/** The async phase wrapper of src/model.ts:473-496: every phase handler
    (pending, fulfilled, rejected, settled) that an embedded thunk declares is
    wrapped so that it runs on the node the dispatching envelope addressed. */
module AsyncPhases {
  import opened Base
  import opened Tree
  import opened Models
  import opened Router
  import opened Registry
  import opened ActionProxy

  /** The handler `config[ctype]` of the thunk `thunk` of model `owner`. */
  type HandlerOf = (string, string, Phase) -> Reducer

  /** What the wrapped handler `asyncConfig[ctype]` does to the composed state.
      It reads `action.meta.arg.$$keys` and `$$data`; an action without an
      envelope there fails as the source does, on reading a missing field. */
  function WrappedPhase(entry: AsyncEntry, phase: Phase, state: Value, action: Action, handlerOf: HandlerOf): Result<Value>
  {
    match action.meta
    case None => Err(TypeError)
    case Some(meta) =>
      match meta.arg
      case Plain(_) => Err(TypeError)
      case Envelope(data, keys) =>
        var nested := action.(actionType := entry.actionType + "/" + PhaseName(phase), payload := Plain(data));
        var handler := handlerOf(entry.owner, entry.thunk, phase);
        if keys == [] then Ok(handler(state, nested).mutated)
        else Ok(Applied(state, keys, InPlace(handler, nested)))
  }

  /** The wrapped handler as the source runs it: the router consumes a copy of
      the keys, so the action's own envelope is left as it was. */
  method RunPhase(entry: AsyncEntry, phase: Phase, state: Value, action: Action, handlerOf: HandlerOf)
    returns (r: Result<Value>)
    ensures r == WrappedPhase(entry, phase, state, action, handlerOf)
  {
    if action.meta.None? || action.meta.value.arg.Plain? {
      return Err(TypeError);
    }
    var keys := action.meta.value.arg.keys;
    var data := action.meta.value.arg.data;
    var nested := action.(actionType := entry.actionType + "/" + PhaseName(phase), payload := Plain(data));
    var handler := handlerOf(entry.owner, entry.thunk, phase);
    if |keys| == 0 {
      r := Ok(handler(state, nested).mutated);
    } else {
      var copy := new KeyArray(keys);
      var next := ApplyNestedInPlace(state, copy, nested, handler);
      r := Ok(next);
    }
  }

  /** Position of a phase in `configTypes`. */
  function PhaseIndex(p: Phase): nat
  {
    match p
    case Pending => 0
    case Fulfilled => 1
    case Rejected => 2
    case Settled => 3
  }

  /** The `for (const ctype of configTypes)` loop: the phases that get a
      wrapped handler are exactly the declared ones, in `configTypes` order. */
  method WrapPhases(declared: set<Phase>) returns (wrapped: seq<Phase>)
    ensures forall p :: p in wrapped <==> p in declared
    ensures forall i, j :: 0 <= i < j < |wrapped| ==> PhaseIndex(wrapped[i]) < PhaseIndex(wrapped[j])
  {
    wrapped := [];
    var n := 0;
    while n < |PhaseOrder|
      invariant 0 <= n <= |PhaseOrder|
      invariant forall p :: p in wrapped <==> p in declared && PhaseIndex(p) < n
      invariant forall i, j :: 0 <= i < j < |wrapped| ==> PhaseIndex(wrapped[i]) < PhaseIndex(wrapped[j])
      invariant forall i :: 0 <= i < |wrapped| ==> PhaseIndex(wrapped[i]) < n
    {
      var ctype := PhaseOrder[n];
      assert PhaseIndex(ctype) == n;
      if ctype in declared {
        wrapped := wrapped + [ctype];
      }
      n := n + 1;
    }
  }

  /** A phase action patches exactly the node its request was dispatched
      against: the declared handler runs there with type `${type}/${phase}`,
      the request's data as payload and the rest of the action copied, and a
      node off that path (a sibling instance with its own request in flight,
      say) is left as it was. */
  lemma PhaseScoped(entry: AsyncEntry, phase: Phase, state: Value, action: Action, handlerOf: HandlerOf, q: seq<Key>)
    requires action.meta.Some? && action.meta.value.arg.Envelope?
    requires var keys := action.meta.value.arg.keys;
             Route(keys).Some? && GetPath(state, Route(keys).value).Some?
             && GetPath(state, q).Some? && Diverge(Route(keys).value, q)
    ensures var arg := action.meta.value.arg;
            var path := Route(arg.keys).value;
            var nested := action.(actionType := entry.actionType + "/" + PhaseName(phase), payload := Plain(arg.data));
            var r := WrappedPhase(entry, phase, state, action, handlerOf);
            && r.Ok?
            && nested.meta == action.meta
            && GetPath(r.value, path)
               == Some(handlerOf(entry.owner, entry.thunk, phase)(GetPath(state, path).value, nested).mutated)
            && GetPath(r.value, q) == GetPath(state, q)
  {
    var arg := action.meta.value.arg;
    var nested := action.(actionType := entry.actionType + "/" + PhaseName(phase), payload := Plain(arg.data));
    var handler := handlerOf(entry.owner, entry.thunk, phase);
    AppliedAddresses(state, arg.keys, InPlace(handler, nested));
    AppliedElsewhere(state, arg.keys, InPlace(handler, nested), q);
  }

  /** What `({ data }, api) => payload(data, api)` hands the payload creator, as
      written: the field `data` of the thunk's argument. Destructuring `null` or
      `undefined` throws. */
  function ThunkInputAsWritten(arg: Payload): Result<Value>
  {
    match arg
    case Envelope(_, _) => Ok(Undefined)
    case Plain(v) =>
      match v
      case Undefined => Err(TypeError)
      case Null => Err(TypeError)
      case Obj(fields) => Ok(match Find(fields, "data") case Some(x) => x case None => Undefined)
      case _ => Ok(Undefined)
  }

  /** As written, a thunk dispatched through a decorated action never sees its
      payload: the envelope names the field `$$data`, not `data`. */
  lemma ThunkLosesPayload(name: string, b: Bound, payload: Value)
    ensures ThunkInputAsWritten(Dispatched(name, b, payload).payload) == Ok(Undefined)
  {
  }

  /** The payload creator's argument as intended: the envelope's `$$data`. */
  function ThunkInput(arg: Payload): Result<Value>
  {
    match arg
    case Envelope(data, _) => Ok(data)
    case Plain(v) => ThunkInputAsWritten(arg)
  }

  /** With `$$data` read, the payload creator receives exactly what the caller
      passed to the decorated action, wherever the node sits. */
  lemma ThunkReceivesPayload(name: string, b: Bound, payload: Value)
    ensures ThunkInput(Dispatched(name, b, payload).payload) == Ok(payload)
    ensures Dispatched(name, b, payload).payload.keys == b.keys
  {
  }
}
