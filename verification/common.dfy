/** Failure-carrying values shared by the frontend controllers and the backend routes. */
module Common {

  /** A value that may be absent: JavaScript's `null`/`undefined`, Python's `None`. */
  datatype Option<+T> = None | Some(value: T)

  /** The settled result of a call into a collaborator: a value, or the message of the
      exception it raised (a rejected promise on the frontend). */
  datatype Outcome<+T> = Ok(value: T) | Failed(message: string)

  /** A side effect the frontend triggers but does not implement. */
  datatype Effect = NoEffect | Alert(message: string)

  /** What a FastAPI route answers: the response body, or the status code and `detail`
      of the `HTTPException` it raised. */
  datatype Response<+T> = Success(body: T) | HttpError(status: int, detail: string)
}
