/** Outcome types shared by the routers: an optional value, the HTTP error a
    handler raises, and the result of a handler that either answers or raises. */
module Http {

  /** Python's `Optional[T]`: `None` or a value. */
  datatype Option<+T> = None | Some(value: T)

  /** An `HTTPException` (or an unhandled exception, which the framework answers with 500). */
  datatype HttpError = HttpError(status: int, detail: string)

  /** What a route handler produces: the response body, or the error it raised. */
  datatype Result<+T> = Ok(value: T) | Err(error: HttpError)

  /** The body the framework sends for an exception no handler caught. */
  const InternalError := HttpError(500, "Internal Server Error")

  /** Python truthiness of an optional integer id: `None` and `0` are both falsy. */
  predicate TruthyId(x: Option<int>)
  {
    x.Some? && x.value != 0
  }

  /** Python truthiness of an optional string: `None` and `""` are both falsy. */
  predicate TruthyText(x: Option<string>)
  {
    x.Some? && x.value != ""
  }
}
