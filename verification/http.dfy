/** Status codes the controllers answer with, and a reply carrying the state after the request. */
module Http {

  const Ok: int := 200
  const Created: int := 201
  const BadRequest: int := 400
  const Unauthorized: int := 401
  const NotFound: int := 404
  /** Laravel answers a failed `$request->validate(...)` with 422. */
  const Unprocessable: int := 422
  const ServerError: int := 500

  /** A response code together with the persistent state the request leaves behind. */
  datatype Reply<S> = Reply(code: int, state: S)
}
