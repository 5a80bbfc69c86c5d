/** The cached record of one response and its rebuilding into a response. */
module IdempotencyModel {
  import opened Http

  /** One cache entry: the fingerprint of the request that produced it and
      that response's body, status and headers. */
  datatype Entry = Entry(requestHash: string, response: Value, status: int, headers: Headers)

  /** Rebuilds the response, copying every stored header into a fresh header set. */
  function ToResponseEntity(e: Entry): (r: Response)
    ensures r.status == e.status
    ensures r.body == e.response
    ensures r.headers.Keys == e.headers.Keys
    ensures forall name :: name in r.headers ==> r.headers[name] == e.headers[name]
  {
    var copy := map name | name in e.headers :: e.headers[name];
    Response(e.status, copy, e.response)
  }

  /** The copy is the stored header map itself, so a replay is indistinguishable
      from the original response, and rebuilding twice gives equal responses. */
  lemma ResponseReplaysExactly(e: Entry)
    ensures ToResponseEntity(e) == Response(e.status, e.headers, e.response)
  {
  }
}
