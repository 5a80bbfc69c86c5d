/** The protected business operation: creating a payment and merging a partial
    update into a stored one. The JPA repository is an id-indexed map; the
    database's UUID generator is a counter that is always above every stored id. */
module Payments {
  import opened Wrappers

  type Id = nat
  /** A `BigDecimal` in the source; only equality of amounts matters here. */
  type Amount = int
  type Currency = string

  /** The request and response payload; every field may be null. */
  datatype PaymentDto = PaymentDto(id: Option<Id>, amount: Option<Amount>, currency: Option<Currency>)

  /** A stored payment row; amount and currency are non-null columns. */
  datatype Payment = Payment(id: Id, amount: Amount, currency: Currency)

  datatype Repository = Repository(rows: map<Id, Payment>, nextId: Id)

  /** Every row is stored under its own id and the id generator is ahead of all of them. */
  predicate Valid(repo: Repository) {
    forall k :: k in repo.rows ==> k < repo.nextId && repo.rows[k].id == k
  }

  datatype ServiceError = MissingRequiredFields | PaymentNotFound

  /** The message of the exception each failure throws. */
  function Message(e: ServiceError): string {
    match e
    case MissingRequiredFields => "Amount and Currency are required fields"
    case PaymentNotFound => "Payment not found"
  }

  /** `repo'` holds every row of `repo` unchanged plus exactly one new row,
      and that row carries amount `a` and currency `c`. */
  predicate AddsOnePayment(repo: Repository, repo': Repository, a: Amount, c: Currency) {
    && repo.rows.Keys <= repo'.rows.Keys
    && |repo'.rows| == |repo.rows| + 1
    && (forall k :: k in repo.rows ==> repo'.rows[k] == repo.rows[k])
    && (forall k :: k in repo'.rows && k !in repo.rows ==>
          repo'.rows[k].amount == a && repo'.rows[k].currency == c)
  }

  /** Validates the two required fields, inserts a new payment and answers with
      its amount and currency (the response carries no id). */
  function CreatePayment(repo: Repository, dto: PaymentDto): (r: Result<(Repository, PaymentDto), ServiceError>)
    ensures r.Failure? <==> dto.amount.None? || dto.currency.None?
    ensures r.Failure? ==> r.error == MissingRequiredFields
    ensures r.Success? ==> r.value.1 == PaymentDto(None, dto.amount, dto.currency)
    ensures r.Success? && Valid(repo) ==>
              && Valid(r.value.0)
              && AddsOnePayment(repo, r.value.0, dto.amount.value, dto.currency.value)
  {
    if dto.amount.None? || dto.currency.None? then
      Failure(MissingRequiredFields)
    else
      var saved := Payment(repo.nextId, dto.amount.value, dto.currency.value);
      var repo' := Repository(repo.rows[saved.id := saved], repo.nextId + 1);
      Success((repo', PaymentDto(None, Some(saved.amount), Some(saved.currency))))
  }

  /** Overwrites each field of `p` for which the patch carries a non-null value. */
  function Merge(p: Payment, patch: PaymentDto): Payment {
    Payment(p.id, patch.amount.GetOr(p.amount), patch.currency.GetOr(p.currency))
  }

  /** Looks the payment up, merges the non-null fields of the patch into it and
      answers with its id and post-merge amount and currency. */
  function PartialUpdatePayment(repo: Repository, id: Id, patch: PaymentDto): (r: Result<(Repository, PaymentDto), ServiceError>)
    ensures r.Failure? <==> id !in repo.rows
    ensures r.Failure? ==> r.error == PaymentNotFound
    ensures r.Success? ==>
              var (repo', out) := r.value;
              var before := repo.rows[id];
              && repo'.nextId == repo.nextId
              && repo'.rows.Keys == repo.rows.Keys
              && (forall k :: k in repo.rows && k != id ==> repo'.rows[k] == repo.rows[k])
              && repo'.rows[id].id == before.id
              && (patch.amount.None? ==> repo'.rows[id].amount == before.amount)
              && (patch.amount.Some? ==> repo'.rows[id].amount == patch.amount.value)
              && (patch.currency.None? ==> repo'.rows[id].currency == before.currency)
              && (patch.currency.Some? ==> repo'.rows[id].currency == patch.currency.value)
              && out == PaymentDto(Some(before.id), Some(repo'.rows[id].amount), Some(repo'.rows[id].currency))
    ensures r.Success? && Valid(repo) ==> Valid(r.value.0) && r.value.1.id == Some(id)
  {
    if id !in repo.rows then
      Failure(PaymentNotFound)
    else
      var updated := Merge(repo.rows[id], patch);
      var repo' := Repository(repo.rows[id := updated], repo.nextId);
      Success((repo', PaymentDto(Some(updated.id), Some(updated.amount), Some(updated.currency))))
  }

  /** Merging is idempotent: re-applying the same patch to its own result
      changes nothing, so repeating a successful partial update leaves the
      repository and the answer as they were after the first one. */
  lemma PartialUpdateTwiceIsOnce(repo: Repository, id: Id, patch: PaymentDto)
    requires PartialUpdatePayment(repo, id, patch).Success?
    ensures var once := PartialUpdatePayment(repo, id, patch).value;
            PartialUpdatePayment(once.0, id, patch) == Success(once)
  {
    var once := PartialUpdatePayment(repo, id, patch).value;
    var p := repo.rows[id];
    assert Merge(Merge(p, patch), patch) == Merge(p, patch);
    assert once.0.rows[id := Merge(once.0.rows[id], patch)] == once.0.rows;
  }
}
