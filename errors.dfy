/** Optional values, results and the error kinds of the SDK (sdks/python/src/synheart_emotion/error.py). */
module Errors {

  datatype Option<T> = None | Some(value: T)

  /** The exceptions the modelled code raises, as kinds carrying their data (messages are
      left out): BadInputError, ModelIncompatibleError, and ValueError for an exception
      raised by numpy or a Python builtin. */
  datatype EmotionError =
    | BadInput
    | ModelIncompatible(expectedFeats: int, actualFeats: int)
    | ValueError

  /** The outcome of an operation that may raise. */
  datatype Result<T> = Ok(value: T) | Err(error: EmotionError)
}
