/** Optional values, results, and the Python exceptions that the result
    persistence layer lets escape to its callers. */
module Outcomes {

  datatype Option<+T> = None | Some(value: T)

  /** One constructor per exception class the persistence functions raise. */
  datatype Error =
    /** `next(iter(d))` on an empty input or result mapping. */
    | StopIteration
    /** No input/result pair carries the requested id. */
    | IndexError(id: int)
    /** The pair's bundle reference is `None`, so `None.scalars` fails. */
    | AttributeError
    /** `type_conversion` was handed a tag outside the closed set. */
    | TypeError(tag: string)
    /** `int(...)` of a string that is not a decimal integer. */
    | ValueError(text: string)

  datatype Result<+T> = Ok(value: T) | Err(error: Error)
}
