/** The payment endpoints behind the idempotency interceptor: each endpoint
    wraps the service answer in a 200 response (a service exception propagates),
    and the repository change of a run only takes effect when the interceptor
    actually runs the operation. */
module PaymentFlows {
  import opened Wrappers
  import opened Payments
  import opened Http
  import opened IdempotencyModel
  import opened IdempotencyService
  import opened IdempotencyAspect

  const PAYMENTS_PATH: string := "/api/payments"

  /** A payment DTO in its JSON shape, null fields included. */
  function DtoValue(dto: PaymentDto): Value {
    var id := match dto.id case Some(n) => Number(n) case None => Null;
    var amount := match dto.amount case Some(a) => Number(a) case None => Null;
    var currency := match dto.currency case Some(c) => Text(c) case None => Null;
    Object([("id", id), ("amount", amount), ("currency", currency)])
  }

  /** The interceptor's cache together with the payment repository. */
  datatype Service = Service(store: Store, repo: Repository)

  /** The outcome of one intercepted call, the state after it, and whether the
      protected operation ran. */
  datatype Served = Served(outcome: Outcome, sys: Service, ran: bool)

  /** What running the create endpoint would produce, and the repository after it. */
  function CreateEndpoint(repo: Repository, dto: PaymentDto): (Invocation, Repository) {
    match CreatePayment(repo, dto)
    case Success((repo', out)) => (Returned(Ok(DtoValue(out))), repo')
    case Failure(e) => (Raised(Payments.Message(e)), repo)
  }

  /** What running the partial-update endpoint would produce, and the repository after it. */
  function UpdateEndpoint(repo: Repository, id: Id, patch: PaymentDto): (Invocation, Repository) {
    match PartialUpdatePayment(repo, id, patch)
    case Success((repo', out)) => (Returned(Ok(DtoValue(out))), repo')
    case Failure(e) => (Raised(Payments.Message(e)), repo)
  }

  /** One intercepted call whose operation, if run, yields `live`. */
  function Serve(sys: Service, fp: Fingerprinter, ctx: Option<Request>, live: (Invocation, Repository)): Served {
    var st := ApplyIdempotency(sys.store, ctx, fp, live.0);
    Served(st.outcome, Service(st.store, if st.invoked then live.1 else sys.repo), st.invoked)
  }

  function CreateRequest(token: Option<string>, dto: PaymentDto): Request {
    Request("POST", PAYMENTS_PATH, token, [DtoValue(dto)])
  }

  function UpdateRequest(path: string, token: Option<string>, id: Id, patch: PaymentDto): Request {
    Request("PATCH", path, token, [Number(id), DtoValue(patch)])
  }

  /** `POST /api/payments` with the given token header and body. */
  function PostPayment(sys: Service, fp: Fingerprinter, token: Option<string>, dto: PaymentDto): Served {
    Serve(sys, fp, Some(CreateRequest(token, dto)), CreateEndpoint(sys.repo, dto))
  }

  /** `PATCH <path>` for payment `id` with the given token header and body. */
  function PatchPayment(sys: Service, fp: Fingerprinter, path: string, token: Option<string>, id: Id, patch: PaymentDto): Served {
    Serve(sys, fp, Some(UpdateRequest(path, token, id, patch)), UpdateEndpoint(sys.repo, id, patch))
  }

  /** A create retried with the same token and body: only the first call runs
      the operation, both answer with the same 200 response carrying the amount
      and currency, and exactly one payment is created. */
  lemma CreateRetryCreatesOnce(sys: Service, fp: Fingerprinter, token: string, dto: PaymentDto)
    requires Valid(sys.repo)
    requires !IsBlank(token)
    requires BuildCacheKey("POST", PAYMENTS_PATH, token) !in sys.store
    requires dto.amount.Some? && dto.currency.Some?
    requires RequestHash(fp, [DtoValue(dto)]).Success?
    ensures var first := PostPayment(sys, fp, Some(token), dto);
            var second := PostPayment(first.sys, fp, Some(token), dto);
            && first.ran && !second.ran
            && first.outcome == second.outcome == Responded(Ok(DtoValue(PaymentDto(None, dto.amount, dto.currency))))
            && second.sys == first.sys
            && AddsOnePayment(sys.repo, second.sys.repo, dto.amount.value, dto.currency.value)
  {
  }

  /** The same token with a body of another fingerprint is refused as a
      conflict without running the operation, and neither the cache nor the
      repository changes. */
  lemma CreateReuseConflicts(sys: Service, fp: Fingerprinter, token: string, dto1: PaymentDto, dto2: PaymentDto)
    requires !IsBlank(token)
    requires BuildCacheKey("POST", PAYMENTS_PATH, token) !in sys.store
    requires dto1.amount.Some? && dto1.currency.Some?
    requires RequestHash(fp, [DtoValue(dto1)]).Success? && RequestHash(fp, [DtoValue(dto2)]).Success?
    requires RequestHash(fp, [DtoValue(dto1)]) != RequestHash(fp, [DtoValue(dto2)])
    ensures var first := PostPayment(sys, fp, Some(token), dto1);
            var second := PostPayment(first.sys, fp, Some(token), dto2);
            && !second.ran
            && second.outcome == Rejected(KeyConflict)
            && second.sys == first.sys
  {
  }

  /** Two tokens with the same body are two operations: both run, each is
      recorded under its own key, and two payments are created. */
  lemma CreateDistinctTokensBothRun(sys: Service, fp: Fingerprinter, t1: string, t2: string, dto: PaymentDto)
    requires Valid(sys.repo)
    requires !IsBlank(t1) && !IsBlank(t2) && t1 != t2
    requires BuildCacheKey("POST", PAYMENTS_PATH, t1) !in sys.store
    requires BuildCacheKey("POST", PAYMENTS_PATH, t2) !in sys.store
    requires dto.amount.Some? && dto.currency.Some?
    requires RequestHash(fp, [DtoValue(dto)]).Success?
    ensures var first := PostPayment(sys, fp, Some(t1), dto);
            var second := PostPayment(first.sys, fp, Some(t2), dto);
            && first.ran && second.ran
            && first.outcome == second.outcome == Responded(Ok(DtoValue(PaymentDto(None, dto.amount, dto.currency))))
            && |second.sys.repo.rows| == |sys.repo.rows| + 2
            && BuildCacheKey("POST", PAYMENTS_PATH, t1) in second.sys.store
            && BuildCacheKey("POST", PAYMENTS_PATH, t2) in second.sys.store
  {
    var k1 := BuildCacheKey("POST", PAYMENTS_PATH, t1);
    var k2 := BuildCacheKey("POST", PAYMENTS_PATH, t2);
    if k1 == k2 {
      SamePathTokensInjective("POST", PAYMENTS_PATH, t1, t2);
    }
    var first := PostPayment(sys, fp, Some(t1), dto);
    assert k2 !in first.sys.store;
  }

  /** A create that the service rejects is not recorded: the exception reaches
      the caller and nothing is cached, so a retry with the same token runs the
      operation again and fails the same way. */
  lemma CreateFailureNotCached(sys: Service, fp: Fingerprinter, token: string, dto: PaymentDto)
    requires !IsBlank(token)
    requires BuildCacheKey("POST", PAYMENTS_PATH, token) !in sys.store
    requires dto.amount.None? || dto.currency.None?
    requires RequestHash(fp, [DtoValue(dto)]).Success?
    ensures var first := PostPayment(sys, fp, Some(token), dto);
            var second := PostPayment(first.sys, fp, Some(token), dto);
            && first.ran && second.ran
            && first.outcome == second.outcome == Proceeded(Raised("Amount and Currency are required fields"))
            && first.sys == second.sys == sys
  {
  }

  /** A partial update retried with the same token and body: only the first
      call runs the operation, both answer alike, and the repository is as
      after a single update. */
  lemma PatchRetryUpdatesOnce(sys: Service, fp: Fingerprinter, path: string, token: string, id: Id, patch: PaymentDto)
    requires !IsBlank(token)
    requires BuildCacheKey("PATCH", path, token) !in sys.store
    requires id in sys.repo.rows
    requires RequestHash(fp, [Number(id), DtoValue(patch)]).Success?
    ensures var first := PatchPayment(sys, fp, path, Some(token), id, patch);
            var second := PatchPayment(first.sys, fp, path, Some(token), id, patch);
            && first.ran && !second.ran
            && first.outcome == second.outcome
            && first.outcome == Responded(Ok(DtoValue(PartialUpdatePayment(sys.repo, id, patch).value.1)))
            && second.sys.repo == first.sys.repo == PartialUpdatePayment(sys.repo, id, patch).value.0
  {
  }
}
