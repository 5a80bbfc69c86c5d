/** The interceptor around every `@Idempotent` operation: it classifies the
    request, derives the cache key and the request fingerprint, and then runs,
    replays or refuses the operation. One call is a pure step from the current
    store, the request and what the operation would produce if run, to the
    outcome, the new store and whether the operation was run at all. */
module IdempotencyAspect {
  import opened Wrappers
  import opened Http
  import opened IdempotencyModel
  import opened IdempotencyService

  const IDEMPOTENCY_HEADER_KEY: string := "Idempotency-Key"

  // ---------------------------------------------------------------------
  // Request classification and key derivation

  /** Only POST and PATCH are subject to idempotency (exact, case-sensitive
      match against the verb name). */
  predicate IsEligible(verb: string) {
    verb == "POST" || verb == "PATCH"
  }

  /** `String.trim`: drops every leading and trailing character at or below U+0020. */
  function Trim(s: string): string {
    TrimEnd(TrimStart(s))
  }

  function TrimStart(s: string): string
    decreases |s|
  {
    if |s| > 0 && s[0] <= ' ' then TrimStart(s[1..]) else s
  }

  function TrimEnd(s: string): string
    decreases |s|
  {
    if |s| > 0 && s[|s| - 1] <= ' ' then TrimEnd(s[..|s| - 1]) else s
  }

  /** Every character is a space or a control character. */
  predicate IsBlank(s: string) {
    forall i :: 0 <= i < |s| ==> s[i] <= ' '
  }

  /** `TrimStart` leaves nothing exactly for a blank string, and otherwise
      keeps a first character above U+0020. */
  lemma {:induction false} TrimStartOfBlank(s: string)
    ensures TrimStart(s) == "" <==> IsBlank(s)
    ensures TrimStart(s) != "" ==> TrimStart(s)[0] > ' '
    decreases |s|
  {
    if |s| > 0 && s[0] <= ' ' {
      TrimStartOfBlank(s[1..]);
      if IsBlank(s[1..]) {
        forall i | 0 <= i < |s|
          ensures s[i] <= ' '
        {
          if i > 0 {
            assert s[i] == s[1..][i - 1];
          }
        }
      } else {
        var i :| 0 <= i < |s[1..]| && s[1..][i] > ' ';
        assert s[i + 1] > ' ';
      }
    }
  }

  /** `TrimEnd` never empties a string whose first character is above U+0020. */
  lemma {:induction false} TrimEndKeepsFirst(s: string)
    requires |s| > 0 && s[0] > ' '
    ensures TrimEnd(s) != ""
    decreases |s|
  {
    if s[|s| - 1] <= ' ' {
      TrimEndKeepsFirst(s[..|s| - 1]);
    }
  }

  /** A string trims to the empty string exactly when it is blank. */
  lemma TrimEmptyIffBlank(s: string)
    ensures Trim(s) == "" <==> IsBlank(s)
  {
    TrimStartOfBlank(s);
    if TrimStart(s) != "" {
      TrimEndKeepsFirst(TrimStart(s));
    }
  }

  /** A token that is null, or empty once trimmed, counts as missing. */
  predicate IsMissing(token: Option<string>)
    ensures IsMissing(token) <==> token.None? || IsBlank(token.value)
  {
    match token
    case None => true
    case Some(t) =>
      TrimEmptyIffBlank(t);
      Trim(t) == ""
  }

  function BuildCacheKey(verb: string, path: string, token: string): string {
    verb + ":" + path + ":" + token
  }

  /** How the interceptor treats a call before looking at the store. */
  datatype Admission = Bypass | NoToken | Keyed(key: string)

  function Classify(ctx: Option<Request>): (a: Admission)
    ensures a.Bypass? <==> ctx.None? || !IsEligible(ctx.value.verb)
    ensures a.NoToken? <==> ctx.Some? && IsEligible(ctx.value.verb) && IsMissing(ctx.value.token)
    ensures a.NoToken? <==> ctx.Some? && IsEligible(ctx.value.verb)
                            && (ctx.value.token.None? || IsBlank(ctx.value.token.value))
    ensures a.Keyed? ==> ctx.Some? && ctx.value.token.Some? && ':' !in ctx.value.verb
    ensures a.Keyed? ==> a.key == BuildCacheKey(ctx.value.verb, ctx.value.path, ctx.value.token.value)
  {
    if ctx.None? || !IsEligible(ctx.value.verb) then Bypass
    else if IsMissing(ctx.value.token) then NoToken
    else Keyed(BuildCacheKey(ctx.value.verb, ctx.value.path, ctx.value.token.value))
  }

  /** The cache key of a call, when it reaches the store at all. */
  function CacheKeyOf(ctx: Option<Request>): Option<string> {
    match Classify(ctx)
    case Keyed(key) => Some(key)
    case _ => None
  }

  // ---------------------------------------------------------------------
  // Request fingerprint

  /** JSON serialization of the argument array and SHA-256 digest rendered in
      Base64, each a deterministic function that may fail with a cause. */
  datatype Fingerprinter = Fingerprinter(
    serialize: seq<Value> -> Result<string, string>,
    digest: string -> Result<string, string>)

  datatype HashFailure = SerializationFailed(cause: string) | DigestFailed(cause: string)

  function RequestHash(fp: Fingerprinter, args: seq<Value>): (r: Result<string, HashFailure>)
    ensures fp.serialize(args).Failure? ==> r == Failure(SerializationFailed(fp.serialize(args).error))
    ensures fp.serialize(args).Success? ==>
              var text := fp.serialize(args).value;
              && (fp.digest(text).Failure? ==> r == Failure(DigestFailed(fp.digest(text).error)))
              && (fp.digest(text).Success? ==> r == Success(fp.digest(text).value))
  {
    match fp.serialize(args)
    case Failure(cause) => Failure(SerializationFailed(cause))
    case Success(text) =>
      match fp.digest(text)
      case Failure(cause) => Failure(DigestFailed(cause))
      case Success(h) => Success(h)
  }

  // ---------------------------------------------------------------------
  // Outcomes

  /** The failures the interceptor itself raises, all as `IdempotancyException`. */
  datatype IdempotencyError = MissingToken | KeyConflict | HashGenerationFailed(cause: string)

  function Message(e: IdempotencyError): string {
    match e
    case MissingToken => "No idempotency header found"
    case KeyConflict => "Idempotency key conflict: request data does not match previous request with the same key"
    case HashGenerationFailed(_) => "Request Hash generation failed"
  }

  datatype Outcome =
    | Proceeded(result: Invocation)          // the live result of the operation, handed back as is
    | Responded(response: Response)          // a response rebuilt from a cache entry
    | Rejected(error: IdempotencyError)      // an exception of the interceptor
    | Propagated(cause: string)              // a serialization exception, not wrapped
    | NullDereference                        // a cache entry read back as null and dereferenced

  datatype Step = Step(outcome: Outcome, store: Store, invoked: bool)

  function HashFailureOutcome(f: HashFailure): Outcome {
    match f
    case SerializationFailed(cause) => Propagated(cause)
    case DigestFailed(cause) => Rejected(HashGenerationFailed(cause))
  }

  // ---------------------------------------------------------------------
  // The decision protocol

  /** One intercepted call. `op` is what the protected operation would produce
      if run; `r.invoked` says whether it was. When the key is absent and the
      operation yields something other than a response, the live result is
      handed back uncached instead of reading back an entry that was never
      written (see ApplyIdempotencyAsWritten for the code as it stands). */
  function ApplyIdempotency(s: Store, ctx: Option<Request>, fp: Fingerprinter, op: Invocation): (r: Step)
    // no request context, or a verb other than POST/PATCH: straight through
    ensures Classify(ctx).Bypass? ==> r == Step(Proceeded(op), s, true)
    // missing token: refused before anything else
    ensures Classify(ctx).NoToken? ==> r == Step(Rejected(MissingToken), s, false)
    // the fingerprint cannot be computed: refused before the operation runs
    ensures Classify(ctx).Keyed? && RequestHash(fp, ctx.value.args).Failure? ==>
              r == Step(HashFailureOutcome(RequestHash(fp, ctx.value.args).error), s, false)
    ensures Classify(ctx).Keyed? && RequestHash(fp, ctx.value.args).Success? ==>
              var key, h := Classify(ctx).key, RequestHash(fp, ctx.value.args).value;
              // first attempt: run once; record a response with its fingerprint
              && (key !in s ==> r.invoked)
              && (key !in s && op.Returned? ==>
                    r.outcome == Responded(op.response) && r.store == PutResponse(s, key, op.response, h))
              && (key !in s && !op.Returned? ==> r.outcome == Proceeded(op) && r.store == s)
              // exact replay: the stored response, nothing run, nothing written
              && (key in s && s[key].requestHash == h ==>
                    r == Step(Responded(Response(s[key].status, s[key].headers, s[key].response)), s, false))
              // reuse with other data: conflict, nothing run, nothing written
              && (key in s && s[key].requestHash != h ==> r == Step(Rejected(KeyConflict), s, false))
    // a recorded entry is never touched, and nothing is ever read back as null
    ensures forall k :: k in s ==> k in r.store && r.store[k] == s[k]
    ensures r.outcome != NullDereference
  {
    match Classify(ctx)
    case Bypass => Step(Proceeded(op), s, true)
    case NoToken => Step(Rejected(MissingToken), s, false)
    case Keyed(key) =>
      var cached := GetCachedResponse(s, key);
      match RequestHash(fp, ctx.value.args)
      case Failure(f) => Step(HashFailureOutcome(f), s, false)
      case Success(h) =>
        if cached.None? then
          match op
          case Returned(resp) =>
            var s' := PutResponse(s, key, resp, h);
            Step(Responded(ToResponseEntity(s'[key])), s', true)
          case _ => Step(Proceeded(op), s, true)
        else if cached.value.requestHash != h then
          Step(Rejected(KeyConflict), s, false)
        else
          ResponseReplaysExactly(cached.value);
          Step(Responded(ToResponseEntity(cached.value)), s, false)
  }

  /** The interceptor as the code stands: on a first attempt it stores only a
      `ResponseEntity`, then reads the entry back and rebuilds the response from
      it, so an operation result of any other kind is read back as null. An
      exception thrown by the operation propagates before the read-back. */
  function ApplyIdempotencyAsWritten(s: Store, ctx: Option<Request>, fp: Fingerprinter, op: Invocation): (r: Step)
    ensures forall k :: k in s ==> k in r.store && r.store[k] == s[k]
  {
    match Classify(ctx)
    case Bypass => Step(Proceeded(op), s, true)
    case NoToken => Step(Rejected(MissingToken), s, false)
    case Keyed(key) =>
      var cached := GetCachedResponse(s, key);
      match RequestHash(fp, ctx.value.args)
      case Failure(f) => Step(HashFailureOutcome(f), s, false)
      case Success(h) =>
        if cached.None? then
          if op.Raised? then Step(Proceeded(op), s, true)
          else
            var s' := if op.Returned? then PutResponse(s, key, op.response, h) else s;
            match GetCachedResponse(s', key)
            case None => Step(NullDereference, s', true)
            case Some(e) => Step(Responded(ToResponseEntity(e)), s', true)
        else if cached.value.requestHash != h then
          Step(Rejected(KeyConflict), s, false)
        else
          Step(Responded(ToResponseEntity(cached.value)), s, false)
  }

  /** The code as it stands dereferences null exactly when a first attempt's
      operation returns something other than a response, and otherwise behaves
      as the corrected interceptor. */
  lemma AsWrittenFailsOnlyOnUncacheableResult(s: Store, ctx: Option<Request>, fp: Fingerprinter, op: Invocation)
    ensures var uncacheable := Classify(ctx).Keyed? && Classify(ctx).key !in s
                               && RequestHash(fp, ctx.value.args).Success? && op.ReturnedOther?;
            && (ApplyIdempotencyAsWritten(s, ctx, fp, op).outcome == NullDereference <==> uncacheable)
            && (uncacheable ==> ApplyIdempotency(s, ctx, fp, op) == Step(Proceeded(op), s, true))
            && (!uncacheable ==> ApplyIdempotencyAsWritten(s, ctx, fp, op) == ApplyIdempotency(s, ctx, fp, op))
  {
  }

  /** A concrete first POST whose operation returns a plain string: the code as
      written crashes, the corrected interceptor hands the string back. */
  lemma UncacheableResultCounterexample()
    ensures var ctx := Some(Request("POST", "/api/payments", Some("unique-key-1"), []));
            var fp := Fingerprinter(args => Success("[]"), text => Success("T1vHbw=="));
            var op := ReturnedOther(Text("result"));
            && ApplyIdempotencyAsWritten(map[], ctx, fp, op).outcome == NullDereference
            && ApplyIdempotency(map[], ctx, fp, op).outcome == Proceeded(op)
  {
  }

  // ---------------------------------------------------------------------
  // Cache keys

  /** Where each character of `a + ":" + x` comes from. */
  lemma CharOfJoin(a: string, x: string, i: int)
    ensures 0 <= i < |a| ==> (a + ":" + x)[i] == a[i] && a[i] in a
    ensures i == |a| ==> (a + ":" + x)[i] == ':'
    ensures |a| < i < |a| + 1 + |x| ==> (a + ":" + x)[i] == x[i - |a| - 1] && x[i - |a| - 1] in x
  {
  }

  /** `a` is recovered from `a + ":" + x` when it holds no colon. */
  lemma {:induction false} SplitAtFirstColon(a: string, x: string, b: string, y: string)
    requires ':' !in a && ':' !in b
    requires a + ":" + x == b + ":" + y
    ensures a == b && x == y
  {
    var w := a + ":" + x;
    if |a| < |b| {
      CharOfJoin(a, x, |a|);
      CharOfJoin(b, y, |a|);
      assert false;
    } else if |b| < |a| {
      CharOfJoin(a, x, |b|);
      CharOfJoin(b, y, |b|);
      assert false;
    }
    assert a == w[..|a|];
    assert x == w[|a| + 1..];
  }

  /** `t` is recovered from `p + ":" + t` when it holds no colon. */
  lemma {:induction false} SplitAtLastColon(p: string, t: string, q: string, u: string)
    requires ':' !in t && ':' !in u
    requires p + ":" + t == q + ":" + u
    ensures p == q && t == u
  {
    var w := p + ":" + t;
    if |t| < |u| {
      CharOfJoin(p, t, |p|);
      CharOfJoin(q, u, |q| + 1 + |u| - 1 - |t|);
      assert false;
    } else if |u| < |t| {
      CharOfJoin(q, u, |q|);
      CharOfJoin(p, t, |p| + 1 + |t| - 1 - |u|);
      assert false;
    }
    assert p == w[..|p|];
    assert t == w[|p| + 1..];
  }

  /** For eligible verbs and colon-free tokens the cache key determines verb,
      path and token, so different tokens never share an entry. */
  lemma CacheKeyInjective(v1: string, p1: string, t1: string, v2: string, p2: string, t2: string)
    requires IsEligible(v1) && IsEligible(v2)
    requires ':' !in t1 && ':' !in t2
    requires BuildCacheKey(v1, p1, t1) == BuildCacheKey(v2, p2, t2)
    ensures v1 == v2 && p1 == p2 && t1 == t2
  {
    assert BuildCacheKey(v1, p1, t1) == v1 + ":" + (p1 + ":" + t1);
    assert BuildCacheKey(v2, p2, t2) == v2 + ":" + (p2 + ":" + t2);
    SplitAtFirstColon(v1, p1 + ":" + t1, v2, p2 + ":" + t2);
    SplitAtLastColon(p1, t1, p2, t2);
  }

  /** On one verb and path, the cache key determines the token, whatever
      characters it holds. */
  lemma SamePathTokensInjective(verb: string, path: string, t1: string, t2: string)
    requires BuildCacheKey(verb, path, t1) == BuildCacheKey(verb, path, t2)
    ensures t1 == t2
  {
    var prefix := verb + ":" + path + ":";
    assert BuildCacheKey(verb, path, t1) == prefix + t1;
    assert BuildCacheKey(verb, path, t2) == prefix + t2;
    assert t1 == (prefix + t1)[|prefix|..];
    assert t2 == (prefix + t2)[|prefix|..];
  }

  /** A colon in the token defeats injectivity: these two requests share a key. */
  lemma ColonTokensCollide()
    ensures BuildCacheKey("POST", "/api/payments", "a:b") == BuildCacheKey("POST", "/api/payments:a", "b")
  {
  }

  // ---------------------------------------------------------------------
  // Sequences of calls against one store

  datatype Call = Call(ctx: Option<Request>, op: Invocation)

  datatype Trace = Trace(store: Store, outcomes: seq<Outcome>, invoked: seq<bool>)

  /** Runs the calls one after another against one store. */
  function Run(s: Store, fp: Fingerprinter, calls: seq<Call>): (t: Trace)
    ensures |t.outcomes| == |calls| && |t.invoked| == |calls|
    ensures forall k :: k in s ==> k in t.store && t.store[k] == s[k]
    decreases |calls|
  {
    if calls == [] then Trace(s, [], [])
    else
      var st := ApplyIdempotency(s, calls[0].ctx, fp, calls[0].op);
      var rest := Run(st.store, fp, calls[1..]);
      Trace(rest.store, [st.outcome] + rest.outcomes, [st.invoked] + rest.invoked)
  }

  /** Once a key is recorded, every later call with that key leaves the
      operation alone, and is answered from the recorded entry or refused. */
  lemma {:induction false} RecordedKeyGovernsLaterCalls(s: Store, fp: Fingerprinter, calls: seq<Call>, k: string)
    requires k in s
    ensures forall j :: 0 <= j < |calls| && CacheKeyOf(calls[j].ctx) == Some(k) ==>
              var t := Run(s, fp, calls);
              var h := RequestHash(fp, calls[j].ctx.value.args);
              && !t.invoked[j]
              && (h == Success(s[k].requestHash) ==>
                    t.outcomes[j] == Responded(Response(s[k].status, s[k].headers, s[k].response)))
              && (h.Success? && h.value != s[k].requestHash ==> t.outcomes[j] == Rejected(KeyConflict))
    decreases |calls|
  {
    if calls != [] {
      var st := ApplyIdempotency(s, calls[0].ctx, fp, calls[0].op);
      var rest := Run(st.store, fp, calls[1..]);
      RecordedKeyGovernsLaterCalls(st.store, fp, calls[1..], k);
      forall j | 0 <= j < |calls| && CacheKeyOf(calls[j].ctx) == Some(k)
        ensures !Run(s, fp, calls).invoked[j]
      {
        if j > 0 {
          assert calls[1..][j - 1] == calls[j];
        }
      }
      forall j | 0 <= j < |calls| && CacheKeyOf(calls[j].ctx) == Some(k)
        ensures var h := RequestHash(fp, calls[j].ctx.value.args);
                && (h == Success(s[k].requestHash) ==>
                      Run(s, fp, calls).outcomes[j] == Responded(Response(s[k].status, s[k].headers, s[k].response)))
                && (h.Success? && h.value != s[k].requestHash ==> Run(s, fp, calls).outcomes[j] == Rejected(KeyConflict))
      {
        if j > 0 {
          assert calls[1..][j - 1] == calls[j];
        }
      }
    }
  }

  /** Across any sequence of calls, a response-producing first attempt under a
      key is the only run of the operation under that key: every later call
      with the key runs nothing, an identical request gets the very response
      the first attempt got, and a request with another fingerprint a conflict. */
  lemma {:induction false} FirstAttemptGovernsKey(s: Store, fp: Fingerprinter, calls: seq<Call>, i: nat, j: nat, k: string)
    requires i < j < |calls|
    requires CacheKeyOf(calls[i].ctx) == Some(k) && CacheKeyOf(calls[j].ctx) == Some(k)
    requires calls[i].op.Returned?
    requires Run(s, fp, calls).invoked[i]
    ensures !Run(s, fp, calls).invoked[j]
    ensures RequestHash(fp, calls[j].ctx.value.args) == RequestHash(fp, calls[i].ctx.value.args) ==>
              Run(s, fp, calls).outcomes[j] == Run(s, fp, calls).outcomes[i] == Responded(calls[i].op.response)
    ensures RequestHash(fp, calls[i].ctx.value.args).Success? && RequestHash(fp, calls[j].ctx.value.args).Success?
            && RequestHash(fp, calls[j].ctx.value.args) != RequestHash(fp, calls[i].ctx.value.args) ==>
              Run(s, fp, calls).outcomes[j] == Rejected(KeyConflict)
    decreases i
  {
    var st := ApplyIdempotency(s, calls[0].ctx, fp, calls[0].op);
    var tail := calls[1..];
    assert tail[j - 1] == calls[j];
    if i == 0 {
      var resp := calls[0].op.response;
      var h := RequestHash(fp, calls[0].ctx.value.args).value;
      assert k !in s;
      assert st.store[k] == Entry(h, resp.body, resp.status, resp.headers);
      RecordedKeyGovernsLaterCalls(st.store, fp, tail, k);
    } else {
      assert tail[i - 1] == calls[i];
      FirstAttemptGovernsKey(st.store, fp, tail, i - 1, j - 1, k);
    }
  }
}
