/** Optional values and the success/failure result that replaces Python's
    `None` default and raised exceptions in the tokenizer model. */
module Wrappers {

  /** A value that may be absent; `Token.value` defaults to `None`. */
  datatype Option<+T> = None | Some(value: T)

  /** Either a computed value or the error the source would raise. */
  datatype Result<+T, +E> = Ok(value: T) | Err(error: E)
}
