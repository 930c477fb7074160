/** The errors an event bus operation can report, and the result type that carries them. */
module Errors {

  /** One constructor per variant of the bus's error enumeration. */
  datatype BasuError =
    | MutexPoisoned              // a lock's previous holder panicked while holding it
    | EventTypeNotFound          // the event type was never subscribed to (or was cleared)
    | HandlerError(cause: string) // a handler failed; `cause` stands for the wrapped error

  /** `Ok(value)` or `Err(error)`, with the bus's error type fixed. */
  datatype Result<R> = Ok(value: R) | Err(error: BasuError)
}
