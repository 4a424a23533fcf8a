/** Optional values and the Python exceptions the task descriptor can raise. */
module Wrappers {

  /** A value that may be absent; `None` stands for Python's `None` or for a failed lookup. */
  datatype Option<+T> = None | Some(value: T)

  /** The exceptions raised by the removal operations of a task descriptor. */
  datatype PyError =
    | KeyError    // `del d[k]` on a key that is not in the dict
    | ValueError  // `list.remove(x)` on a value that is not in the list

  /** The outcome of an operation that either returns normally or raises. */
  datatype Status = Done | Raised(error: PyError)
}
