/** Optional values and results with an error, used wherever the JSON may lack a field
    or an operation may throw. */
module Wrappers {

  /** `None` stands for a JavaScript value that is `null` or `undefined`. */
  datatype Option<+T> = None | Some(value: T)

  /** `Err` stands for an exception thrown by the operation. */
  datatype Result<+T, +E> = Ok(value: T) | Err(error: E)

  /** JavaScript's nullish coalescing `a ?? b`. */
  function Coalesce<T>(a: Option<T>, b: Option<T>): Option<T>
  {
    if a.Some? then a else b
  }
}
