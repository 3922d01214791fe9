/** A route's JSON answer: an error body `{ error }` with its status, or a success body. */
module Http {
  datatype Response<+T> = Fail(status: int, error: string) | Success(status: int, body: T)
}
