/** Failure-carrying results shared by every module of the model.
    The source signals failure by raising Python exceptions; the model
    returns them as values instead. */
module Wrappers {

  datatype Option<+T> = None | Some(value: T)

  /** The exceptions the modelled code raises. */
  datatype Error =
    | UnsupportedNode(message: string)   // UnsupportedNodeException
    | ValueError(message: string)
    | AssertionError(message: string)
    | KeyError                           // missing key in a dict lookup
    | StopIteration                      // next() on an empty iterator
    | TypeError                          // unexpected keyword argument

  datatype Result<+T> = Ok(value: T) | Err(error: Error)
  {
    /** The value, or None for an error. */
    function ToOption(): Option<T>
    {
      match this
      case Ok(v) => Some(v)
      case Err(_) => None
    }
  }

  /** What every walker raises on a quantifier. */
  const QuantifierMessage: string := "Quantifiers are yet to be supported"
}
