/** apps/payments/services/payment_transaction_service.py: creating a
    transaction and marking it paid or failed. */
module PaymentTransactionService {
  import opened Basics
  import opened Exceptions
  import opened Money
  import opened PaymentTransactionModel
  import opened Store
  import Json

  /** `create_transaction`: a pending row with the given user, amount, type,
      currency and provider, and `metadata or {}`. An amount outside the column is
      refused by the database. */
  method CreateTransaction(db: Db, user: Id, amountCents: int, paymentType: PaymentType, metadata: Option<Json.Object>,
                           currency: string, provider: string, now: Timestamp) returns (r: Result<Id>)
    requires Invariant(db.T())
    modifies db
    ensures !FitsAmount(amountCents) ==> r == Err(DataError) && db.T() == old(db.T())
    ensures FitsAmount(amountCents) ==>
      r == Ok(old(db.nextId)) &&
      db.T() == old(db.T()).(
        transactions := old(db.transactions)[old(db.nextId) :=
          NewTransaction(user, amountCents, paymentType, now).(currency := currency, provider := provider, metadata := Json.OrEmpty(metadata))],
        nextId := old(db.nextId) + 1)
    ensures Invariant(db.T())
  {
    if !FitsAmount(amountCents) {
      return Err(DataError);
    }
    var id := db.NewId();
    db.transactions := db.transactions[id :=
      NewTransaction(user, amountCents, paymentType, now).(currency := currency, provider := provider, metadata := Json.OrEmpty(metadata))];
    r := Ok(id);
  }

  /** The row `mark_paid` saves: status paid, and the given metadata merged in
      when there is any. */
  function PaidWith(t: PaymentTransaction, metadata: Option<Json.Object>): (r: PaymentTransaction)
    ensures r.status == Paid
    ensures r == t.(status := Paid, metadata := r.metadata)
    ensures r.metadata.Keys == t.metadata.Keys + Json.OrEmpty(metadata).Keys
    ensures forall k :: k in Json.OrEmpty(metadata) ==> r.metadata[k] == Json.OrEmpty(metadata)[k]
    ensures forall k :: k in t.metadata && k !in Json.OrEmpty(metadata) ==> r.metadata[k] == t.metadata[k]
  {
    if metadata.Some? && metadata.value != map[] then t.(status := Paid, metadata := Json.Update(t.metadata, metadata.value))
    else t.(status := Paid)
  }

  /** Marking paid twice with the same metadata is marking paid once, and without
      metadata the metadata stays as it was. */
  lemma PaidWithIdempotent(t: PaymentTransaction, metadata: Option<Json.Object>)
    ensures PaidWith(PaidWith(t, metadata), metadata) == PaidWith(t, metadata)
    ensures PaidWith(t, None).metadata == t.metadata
    ensures PaidWith(t, Some(map[])).metadata == t.metadata
  {
    if metadata.Some? && metadata.value != map[] {
      Json.UpdateIdempotent(t.metadata, metadata.value);
    }
  }

  /** `mark_paid`: Http404 for an unknown key; otherwise the row becomes
      `PaidWith` its old self, whatever its status was. */
  method MarkPaid(db: Db, transactionId: Id, metadata: Option<Json.Object>) returns (r: Result<Id>)
    requires Invariant(db.T())
    modifies db
    ensures transactionId !in old(db.transactions) ==> r == Err(Http404) && db.T() == old(db.T())
    ensures transactionId in old(db.transactions) ==>
      r == Ok(transactionId) &&
      db.T() == old(db.T()).(transactions := old(db.transactions)[transactionId := PaidWith(old(db.transactions)[transactionId], metadata)])
    ensures Invariant(db.T())
  {
    if transactionId !in db.transactions {
      return Err(Http404);
    }
    db.transactions := db.transactions[transactionId := PaidWith(db.transactions[transactionId], metadata)];
    r := Ok(transactionId);
  }

  /** `mark_failed`: Http404 for an unknown key; otherwise status failed, whatever
      it was. */
  method MarkFailed(db: Db, transactionId: Id) returns (r: Result<Id>)
    requires Invariant(db.T())
    modifies db
    ensures transactionId !in old(db.transactions) ==> r == Err(Http404) && db.T() == old(db.T())
    ensures transactionId in old(db.transactions) ==>
      r == Ok(transactionId) &&
      db.T() == old(db.T()).(transactions := old(db.transactions)[transactionId := old(db.transactions)[transactionId].(status := Failed)])
    ensures Invariant(db.T())
  {
    if transactionId !in db.transactions {
      return Err(Http404);
    }
    db.transactions := db.transactions[transactionId := db.transactions[transactionId].(status := Failed)];
    r := Ok(transactionId);
  }
}
