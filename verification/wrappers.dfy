/** Option and Result, and the Python exceptions the modelled code raises. */
module Wrappers {

  datatype Option<+T> = None | Some(value: T)

  /** What a `KeyError` carries: a variable name or a node id. */
  datatype Key = Name(name: string) | NodeId(id: nat)

  /** The exceptions raised by the modelled code. */
  datatype Exception =
    | KeyError(key: Key)    // unknown variable, or `set.remove` of an absent node id
    | AttributeError        // `None.connection`: no proxy yet
    | StopIteration         // `next` on an empty iterator
    | IndexError            // list index out of range
    | TypeError             // indexing an `int`

  /** A value, or the exception raised instead of returning it. */
  datatype Result<+T> = Ok(value: T) | Raise(exc: Exception)
}
