# Idempotent payment operations: a Dafny model

This project models the idempotency interceptor of a small payment service,
together with the payment operations it protects. A client marks a POST or PATCH
with an `Idempotency-Key` header. The interceptor derives a cache key
`verb ":" path ":" token` and a fingerprint of the call's arguments, then handles
the call in one of three ways:

- If the key is absent, it runs the operation once and records the response under the key.
- If the key is recorded with the same fingerprint, it replays the stored response without running anything.
- If the key is recorded with a different fingerprint, it refuses the call as a conflict.

Any other verb, and a call made with no request context, goes straight to the operation.

The model is functional. A call is the pure step `IdempotencyAspect.ApplyIdempotency`.
It maps (store, request, what the operation would produce if run) to (outcome, new
store, whether the operation ran). The store is a `map<string, Entry>`. `Run`
folds the step over a sequence of calls. `PaymentFlows` puts the create and
partial-update endpoints behind the step, so that whole request/retry scenarios can
be stated.

Modules:

- `Wrappers`: `Option` (a Java null) and `Result` (a call that returns or throws).
- `Payments`: the payment DTO, the stored payment, the repository as an id-indexed map, `CreatePayment` and `PartialUpdatePayment`.
- `Http`: argument and body values (any object in its JSON shape), header maps, responses, the current request, and what `proceed()` yields.
- `IdempotencyModel`: the cache entry and its rebuilding into a response.
- `IdempotencyService`: lookup and insertion on the store. Both are pure functions, so a lookup never changes the store.
- `IdempotencyAspect`: classification, key and fingerprint derivation, the decision protocol, and runs of calls.
- `PaymentFlows`: the JSON shape of a payment DTO, the endpoints behind the interceptor, and the end-to-end scenarios.

The exception messages are the source's constants: `IdempotencyAspect.Message`
and `Payments.Message`.

The fingerprint is JSON serialization followed by SHA-256 rendered in Base64. Both
steps are library calls, so they are the two fields of `Fingerprinter`: total
function values that may fail with a cause. They are deterministic by
construction.

- A serialization failure propagates unwrapped (`Propagated`).
- A digest failure becomes "Request Hash generation failed" with its cause attached (`Rejected(HashGenerationFailed(cause))`).

Both happen after the store lookup and before the operation runs.

Three behaviours deserve a note:

- A digest failure is reported with the same exception class, and so the same 4xx handling, as the caller errors. It is not a distinct server error.
- When the first attempt's operation returns something other than a response, the code dereferences a null entry. That case is listed under Findings. The model's `ApplyIdempotency` deliberately deviates: it hands the live result back uncached, while `ApplyIdempotencyAsWritten` keeps the code's behaviour.
- The missing-token test is logback's `StringUtil.isNullOrEmpty`. That library is not part of this model; it is taken to be "null, or empty after `String.trim`". So a token of only spaces or control characters counts as missing. The cache key still uses the untrimmed token.

## Model

| member | source | states |
|---|---|---|
| Payments.CreatePayment | src/main/java/com/example/idempotency/idempotency_service/services/PaymentService.java:23-38 | fails with MissingRequiredFields exactly when amount or currency is null, and then the repository is untouched; on success it adds exactly one payment with the given amount and currency, keeps every other row, keeps the repository valid, and answers with those two values and no id |
| Payments.PartialUpdatePayment | src/main/java/com/example/idempotency/idempotency_service/services/PaymentService.java:41-54 | fails with PaymentNotFound exactly when the id is not stored; otherwise a null amount or currency keeps the stored value and a non-null one replaces it, all other payments are unchanged, and the answer carries the payment's id and post-merge amount and currency |
| Payments.PartialUpdateTwiceIsOnce | src/main/java/com/example/idempotency/idempotency_service/services/PaymentService.java:46-48 | re-applying a successful partial update to its own result changes neither the repository nor the answer |
| IdempotencyModel.ToResponseEntity | src/main/java/com/example/idempotency/idempotency_service/models/IdempotencyModel.java:22-26 | the rebuilt response carries exactly the stored status and body, and exactly the stored header names, each with the same value list |
| IdempotencyModel.ResponseReplaysExactly | src/main/java/com/example/idempotency/idempotency_service/models/IdempotencyModel.java:23-25 | the header copy equals the stored header map, so the rebuilt response is determined by the entry alone and repeated rebuilds are equal |
| IdempotencyService.GetCachedResponse | src/main/java/com/example/idempotency/idempotency_service/services/IdempotencyService.java:14-20 | yields an entry exactly when the key was put, and then the entry stored under it |
| IdempotencyService.PutResponse | src/main/java/com/example/idempotency/idempotency_service/services/IdempotencyService.java:22-31 | afterwards the key is present with the given fingerprint and the response's body, status and headers; every other key keeps its entry and no other key appears |
| IdempotencyService.PutThenReplay | src/main/java/com/example/idempotency/idempotency_service/common/IdempotencyAspect.java:56-63 | reading back a just-put entry and rebuilding it gives back the very response that was put |
| IdempotencyAspect.Classify | src/main/java/com/example/idempotency/idempotency_service/common/IdempotencyAspect.java:39-50 | a call bypasses the mechanism exactly when it has no request context or its verb is neither POST nor PATCH; an eligible call whose token is null or blank (nothing left after trimming) is refused; otherwise its key is verb, path and token joined by colons |
| IdempotencyAspect.IsMissing | src/main/java/com/example/idempotency/idempotency_service/common/IdempotencyAspect.java:46-48 | a token is missing exactly when it is null or consists only of characters at or below U+0020 |
| IdempotencyAspect.TrimEmptyIffBlank | src/main/java/com/example/idempotency/idempotency_service/common/IdempotencyAspect.java:47 | `String.trim` leaves the empty string exactly for a string of characters at or below U+0020 |
| IdempotencyAspect.RequestHash | src/main/java/com/example/idempotency/idempotency_service/common/IdempotencyAspect.java:81-93 | a serialization failure and a digest failure are reported as distinct failures carrying their causes; otherwise the fingerprint is the digest of the serialized arguments |
| IdempotencyAspect.ApplyIdempotency | src/main/java/com/example/idempotency/idempotency_service/common/IdempotencyAspect.java:38-67 | bypass runs the operation and returns its result with the store unchanged; a missing token and a failed fingerprint refuse without running it or touching the store; an absent key runs it once and records a response under the key with the fingerprint; a recorded key with an equal fingerprint returns the stored status, headers and body without running it; an unequal fingerprint is a conflict without running it; recorded entries never change |
| IdempotencyAspect.ApplyIdempotencyAsWritten | src/main/java/com/example/idempotency/idempotency_service/common/IdempotencyAspect.java:50-63 | the interceptor as the code stands, including the read-back after the put; recorded entries never change |
| IdempotencyAspect.AsWrittenFailsOnlyOnUncacheableResult | src/main/java/com/example/idempotency/idempotency_service/common/IdempotencyAspect.java:53-63 | the code dereferences a null entry exactly on a first attempt whose operation returns a non-response, where the corrected step hands that result back uncached; on every other input the two agree |
| IdempotencyAspect.UncacheableResultCounterexample | src/main/java/com/example/idempotency/idempotency_service/common/IdempotencyAspect.java:54-63 | a first POST on an empty cache whose operation returns a plain string crashes as written and is passed through by the corrected step |
| IdempotencyAspect.CacheKeyInjective | src/main/java/com/example/idempotency/idempotency_service/common/IdempotencyAspect.java:77-79 | for POST/PATCH and tokens without a colon, equal cache keys imply equal verb, path and token, so distinct tokens never collide |
| IdempotencyAspect.SamePathTokensInjective | src/main/java/com/example/idempotency/idempotency_service/common/IdempotencyAspect.java:77-79 | on one verb and path, equal cache keys imply equal tokens, whatever characters the tokens hold |
| IdempotencyAspect.ColonTokensCollide | src/main/java/com/example/idempotency/idempotency_service/common/IdempotencyAspect.java:77-79 | with a colon in the token, two different (path, token) pairs give the same key |
| IdempotencyAspect.Run | src/main/java/com/example/idempotency/idempotency_service/common/IdempotencyAspect.java:51-58 | over any sequence of calls, an entry present at the start is present and unchanged at the end, so a recorded fingerprint is never overwritten |
| IdempotencyAspect.RecordedKeyGovernsLaterCalls | src/main/java/com/example/idempotency/idempotency_service/common/IdempotencyAspect.java:59-63 | once a key is recorded, no later call with that key runs the operation; one with an equal fingerprint gets the recorded response, one with another fingerprint a conflict |
| IdempotencyAspect.FirstAttemptGovernsKey | src/main/java/com/example/idempotency/idempotency_service/common/IdempotencyAspect.java:50-63 | after a first attempt under a key runs and records a response, no later call with that key runs the operation; an identical later request gets exactly the first response, and a later request with another fingerprint a conflict |
| PaymentFlows.CreateRetryCreatesOnce | src/test/java/com/example/idempotency/idempotency_service/controllers/TestPaymentController.java:28-67 | a create sent twice with the same token and body runs the operation only the first time, gets two equal answers carrying the amount and currency, and creates exactly one payment |
| PaymentFlows.CreateReuseConflicts | src/test/java/com/example/idempotency/idempotency_service/controllers/TestPaymentController.java:69-92 | the same token with a body of another fingerprint is refused as a conflict without running the operation, and neither cache nor repository changes |
| PaymentFlows.CreateDistinctTokensBothRun | src/test/java/com/example/idempotency/idempotency_service/controllers/TestPaymentController.java:94-121 | two different non-blank tokens with the same body both run the operation and both are recorded, creating two payments |
| PaymentFlows.CreateFailureNotCached | src/main/java/com/example/idempotency/idempotency_service/services/PaymentService.java:24-26 | a create missing a required field propagates "Amount and Currency are required fields" and leaves both cache and repository unchanged, so a retry with the same token runs the operation again and fails the same way |
| PaymentFlows.PatchRetryUpdatesOnce | src/test/java/com/example/idempotency/idempotency_service/controllers/TestPaymentController.java:166-214 | a partial update sent twice with the same token and body runs the operation only the first time, gets equal answers, and leaves the repository as after one update |

## Left out

- Interception machinery: Spring AOP weaving, `@Around`, `RequestContextHolder` and `HttpServletRequest` are left out. The current request is an `Option<Request>` record (verb, URI, token header, call arguments), and `None` stands for "no request context".
- Fingerprint internals: Jackson serialization, SHA-256 (FIPS 180-4) and Base64 (RFC 4648 section 4) are the two function fields of `Fingerprinter`. Replay and conflict hold up to fingerprint equality; collision resistance is not modelled.
- Concurrency: the `ConcurrentHashMap` and the race between concurrent first attempts (check, run, then put) are left out. Calls are applied one at a time.
- Error formatting: `ControllerErrorHandler` and `MessageDto` (400 status, timestamp, path) are left out. The interceptor's exceptions are `Rejected` outcomes, and a serialization exception is `Propagated`.
- Header names: `HttpHeaders` treats names case-insensitively. Here headers are a plain map from name to value list.
- Controller: `PaymentController` is represented only by `CreateEndpoint` and `UpdateEndpoint` in `PaymentFlows`. They wrap the service answer in `ResponseEntity.ok` (status 200, no headers), and a service exception propagates.
- Persistence: JPA annotations, `@Transactional`, timestamps and the three-character currency column constraint are left out.
- Ids: the path id is already an id, so a malformed UUID in the path (`UUID.fromString` failure) is not modelled. Generated UUIDs are a counter above every stored id.
- Amounts: `BigDecimal` amounts are integers compared by equality, so differences of scale are not modelled.
- Payments.CreatePayment: the "adds exactly one payment" clause is stated only for a valid repository (every row stored under its own id, the id counter ahead of all rows), because generated ids being fresh is the database's promise.

## Findings

| source | as written | input that shows it | evidently intended | confidence | as-written member | corrected member |
|---|---|---|---|---|---|---|
| src/main/java/com/example/idempotency/idempotency_service/common/IdempotencyAspect.java:53-63 | on a first attempt whose result is not a `ResponseEntity`, nothing is stored, the entry is read back as null and `toResponseEntity` is called on it | POST with token "unique-key-1" on an empty cache, where the intercepted operation returns the string "result" | hand the live result back uncached | not executed; only reachable for an operation that does not return a `ResponseEntity`, and both endpoints here do | IdempotencyAspect.ApplyIdempotencyAsWritten | IdempotencyAspect.ApplyIdempotency |
