/**
 * What the backend exchanges with the outside world: the HTTP requests it
 * sends to the knowledge-base service and what comes back, the JSON
 * responses of its own endpoints.
 */
module Http {
  import opened PyValue

  /** A request the backend sends: method, URL, headers and JSON payload. */
  datatype Request = Request(verb: string, url: string, headers: seq<Entry>, payload: Value)

  /**
   * How a request to the service ended: with a decoded JSON body, or with a
   * `requests` exception, already rendered to its error text.
   */
  datatype HttpOutcome = Answered(json: Value) | RequestFailed(error: string)

  /** An endpoint's reply: a JSON body with a status, or the framework's own error page. */
  datatype Response = Json(status: nat, body: Value) | UnhandledError

  /** `{"success": False, "error": error}`. */
  function Failure(error: string): (v: Value)
    ensures v.Dict? && Get(v.entries, "success") == Some(Bool(false)) && Get(v.entries, "error") == Some(Str(error))
    ensures !Truthy(GetOr(v.entries, "success", Null))
  {
    Dict([Entry("success", Bool(false)), Entry("error", Str(error))])
  }

  /** The reply the endpoints give when an exception reaches their `except Exception`. */
  function InternalError(message: string): Response
  {
    Json(500, Failure("Internal server error: " + message))
  }
}
