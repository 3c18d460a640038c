/** Option and Result values, and the Python exception kinds the modelled code
    raises or catches. */
module Wrappers {

  /** A value that may be absent (Python's `None`). */
  datatype Option<T> = None | Some(value: T)
  {
    function GetOr(default: T): T
    {
      if Some? then value else default
    }
  }

  /** Python truthiness of an optional string: present and non-empty. */
  predicate Truthy(s: Option<string>)
  {
    s.Some? && s.value != ""
  }

  /** The outcome of an operation that can raise. */
  datatype Result<T, E> = Ok(value: T) | Err(error: E)

  /** The Python exceptions that the modelled code raises or lets propagate. */
  datatype PyError =
    | ValueError(message: string)
    | IndexError
    | KeyError(key: string)
    | AttributeError(name: string)
    | TypeError
    | FileNotFoundError(path: string)
    | ParseError(message: string)
    | RecursionError
    | XPathEvalError
    | Exception(message: string)
}
