/** Option and Result values shared by every module of the model, and the
    Python exceptions the modelled code can raise. */
module Wrappers {

  datatype Option<+T> = None | Some(value: T)

  /** The exceptions of the modelled code that the model keeps as values. */
  datatype Error =
    | AssertionError   // a failed `assert`
    | ValueError       // `raise ValueError`, a bad `int(...)`, a failed tuple unpack
    | KeyError         // a missing dictionary key
    | IndexError       // a list index past the end
    | TypeError        // hashing an unhashable value
    | ZeroDivisionError
    | UnboundLocalError // a loop variable read after a loop that never ran
    | StopIteration    // `next` on an exhausted iterator

  datatype Result<+T> = Ok(value: T) | Err(error: Error)
}
