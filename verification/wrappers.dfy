/** Optional values, results with an error, and the errors the modelled
    operations report. */
module Wrappers {

  datatype Option<+T> = None | Some(value: T) {
    /** A missing value becomes a failure carrying `error`. */
    function OrFail<E>(error: E): Result<T, E> {
      if Some? then Success(value) else Failure(error)
    }
  }

  /** The outcome of an operation that may raise; `:-` propagates the error. */
  datatype Result<+T, +E> = Success(value: T) | Failure(error: E) {
    predicate IsFailure() { Failure? }

    function PropagateFailure<U>(): Result<U, E>
      requires Failure?
    { Failure(error) }

    function Extract(): T
      requires Success?
    { value }
  }

  /** The exceptions raised by the modelled operations. */
  datatype Error =
    | Unencodable(typeName: string)    // a value with no stored representation
    | MalformedHex                     // binary payload text that is not hex
    | MalformedStructured              // structured payload text the parser rejects
    | MissingCheckpointId              // checkpoint["id"] is absent or not a string
    | EmptyConversationId              // history append with an empty conversation id
    | InvalidMessage                   // no context branch applies to the message
    | EmptyHistory                     // messages[-1] on an empty list (IndexError)
    | NoToolCalls                      // .tool_calls read on a non-AI message (AttributeError)
}
