/** What the engine needs to know about a model it embeds. */
module Models {

  /** The four phases an async thunk's handlers may be declared for. */
  datatype Phase = Pending | Fulfilled | Rejected | Settled

  /** The phase names, in the order the wrapper visits them. */
  const PhaseOrder: seq<Phase> := [Pending, Fulfilled, Rejected, Settled]

  function PhaseName(p: Phase): string
  {
    match p
    case Pending => "pending"
    case Fulfilled => "fulfilled"
    case Rejected => "rejected"
    case Settled => "settled"
  }

  /** An embedded model as the engine sees it: its name (`$$name`), the names of
      its actions in declaration order (`$$actions`, including the `k/act`
      actions of models nested in it), and for each of its async thunks the
      phases whose handlers it declares (`$$asyncReducers[...].config`).
      Its reducer is looked up by name, names being unique. */
  datatype ModelRef = ModelRef(name: string, actions: seq<string>, asyncActions: map<string, set<Phase>>)
}
