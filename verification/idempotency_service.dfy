/** The in-memory response cache: cache key to entry, written once per key. */
module IdempotencyService {
  import opened Wrappers
  import opened Http
  import opened IdempotencyModel

  type Store = map<string, Entry>

  /** The entry for `key`, or nothing (Java null) when none was ever put. */
  function GetCachedResponse(s: Store, key: string): (r: Option<Entry>)
    ensures r.Some? <==> key in s
    ensures r.Some? ==> r.value == s[key]
  {
    if key in s then Some(s[key]) else None
  }

  /** Records `resp` under `key` together with the request fingerprint. */
  function PutResponse(s: Store, key: string, resp: Response, requestHash: string): (s': Store)
    ensures s'.Keys == s.Keys + {key}
    ensures s'[key].requestHash == requestHash
    ensures s'[key].response == resp.body && s'[key].status == resp.status && s'[key].headers == resp.headers
    ensures forall k :: k in s && k != key ==> s'[k] == s[k]
  {
    s[key := Entry(requestHash, resp.body, resp.status, resp.headers)]
  }

  /** Reading back what was just put and rebuilding it yields the very
      response that was put. */
  lemma PutThenReplay(s: Store, key: string, resp: Response, requestHash: string)
    ensures GetCachedResponse(PutResponse(s, key, resp, requestHash), key).Some?
    ensures ToResponseEntity(GetCachedResponse(PutResponse(s, key, resp, requestHash), key).value) == resp
  {
  }
}
