/** The Java exceptions that can leave the reservation path, identified by
    their class and the message or status they carry. */
module Exceptions {

  /** HTTP status code 400, carried by the seat-taken rejection. */
  const BAD_REQUEST: int := 400

  datatype Exception =
    /** Spring's `ResponseStatusException(status, reason)`. */
    | ResponseStatus(status: int, reason: string)
    /** A plain `java.lang.RuntimeException(message)`. */
    | Runtime(message: string)
    /** `java.lang.InterruptedException`: the thread was interrupted while blocked. */
    | InterruptedException
    /** What Redisson's `unlock` throws when the calling thread does not hold the lock. */
    | IllegalMonitorState
    /** Any exception raised by code outside this model, given by a short description. */
    | Raised(description: string)
}
