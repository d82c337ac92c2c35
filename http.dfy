/** What an Express middleware does with a request. */
module Http {

  /** Either `next()` is called, or the request is answered with a status and a message; never both. */
  datatype Outcome = Next | Respond(status: int, message: string)
}
