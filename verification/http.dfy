/** What the idempotency layer sees of the web framework: argument values,
    responses, the current request and the result of running the protected
    operation. */
module Http {
  import opened Wrappers

  /** An argument or response body, an arbitrary object seen through its JSON
      shape: the interceptor never looks inside it. */
  datatype Value = Null | Text(text: string) | Number(n: int) | Object(fields: seq<(string, Value)>)

  /** Header name to its ordered list of values. */
  type Headers = map<string, seq<string>>

  datatype Response = Response(status: int, headers: Headers, body: Value)

  const OK_STATUS: int := 200

  /** `ResponseEntity.ok(body)`: status 200 and no headers. */
  function Ok(body: Value): Response {
    Response(OK_STATUS, map[], body)
  }

  /** The current servlet request as the aspect reads it: verb, request URI,
      the `Idempotency-Key` header (absent when null) and the arguments of the
      intercepted call. */
  datatype Request = Request(verb: string, path: string, token: Option<string>, args: seq<Value>)

  /** What `proceed()` produces when the protected operation is run: a
      `ResponseEntity`, some other object, or a thrown exception. */
  datatype Invocation = Returned(response: Response) | ReturnedOther(value: Value) | Raised(cause: string)
}
