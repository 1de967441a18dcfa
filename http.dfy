/** What an Express handler sends back: a success status with a body, or an error status. */
module Http {

  datatype Reply<T> = Ok(status: int, body: T) | Fail(status: int)

  const BadRequest := 400
  const Forbidden := 403
  const NotFound := 404
  const ServerError := 500
}
