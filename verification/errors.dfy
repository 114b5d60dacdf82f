/** The Go `error` values that the modelled code creates, returns or inspects. */
module Errors {

  datatype Error =
      /** The sentinel `errNotFound` ("no matching job found") of the transfer reconciler. */
    | NoMatchingJob
      /** A `*googleapi.Error` returned by a Google API call, with its HTTP status code. */
    | ApiError(code: int, message: string)
      /** Any other error value, such as one built with `fmt.Errorf`. */
    | Message(text: string)
      /** A Go runtime panic (a nil pointer dereference): the process aborts
          instead of returning. It is listed here so that a method can report it. */
    | RuntimePanic(reason: string)

  /** HTTP 409 Conflict. */
  const StatusConflict := 409
  /** HTTP 404 Not Found, what a Google API answers for an unknown resource name. */
  const StatusNotFound := 404
}
