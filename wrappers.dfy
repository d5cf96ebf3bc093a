/** Optional values and results shared by every other module. */
module Wrappers {

  /** A dictionary key that may be absent. */
  datatype Option<T> = None | Some(value: T) {
    /** The value, or a default when the key is absent (Python's `d.get(k, default)`). */
    function GetOr(default: T): T {
      if Some? then value else default
    }
  }

  /** The outcome of an operation that can raise. */
  datatype Result<T, E> = Ok(value: T) | Err(error: E)
}

/** The ways a translation can fail. */
module Errors {
  /** `TranslationException` is the engine's own error; `KeyError` and `IndexError` are the
      lookup failures that unresolved references and missing keys raise. */
  datatype TranslationError =
    | TranslationException(message: string)
    | KeyError(key: string)
    | IndexError
}
