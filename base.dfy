/** Shared result and error types of the composition engine. */
module Base {

  /** An optional value; `None` plays the part of JavaScript's `undefined`. */
  datatype Option<+T> = None | Some(value: T)

  /** The errors the engine throws at definition time. `TypeError` stands for the
      run-time failure of reading a field of something that is not an object. */
  datatype Error =
    | RootIsInstance
    | DuplicateName(name: string)
    | MissingCombiner
    | TypeError

  /** Outcome of an operation that may throw one of the errors above. */
  datatype Result<+T> = Ok(value: T) | Err(error: Error)

  /** The message text the source attaches to each error. */
  function Message(e: Error): string
  {
    match e
    case RootIsInstance => "The whole state cannot be a slice instance"
    case DuplicateName(n) => "Duplicate slice name: " + n
    case MissingCombiner => "Missing Combiner Function"
    case TypeError => "TypeError"
  }

  /** Regrouping a concatenation of three sequences. */
  lemma AppendAssoc<T>(a: seq<T>, b: seq<T>, c: seq<T>)
    ensures a + b + c == a + (b + c)
  {
  }

  /** A non-empty sequence is its prefix followed by its last element. */
  lemma InitLast<T>(s: seq<T>)
    requires |s| > 0
    ensures s[..|s| - 1] + [s[|s| - 1]] == s
  {
  }
}
