/** apps/payments/models/payment_transaction.py: a payment and its status. */
module PaymentTransactionModel {
  import opened Basics
  import opened Ordering
  import Json

  /** `PAYMENT_TYPE`. */
  datatype PaymentType = Subscription | CoachServicePayment {
    function Value(): string {
      match this
      case Subscription => "subscription"
      case CoachServicePayment => "coach_service"
    }
  }

  /** `STATUS`. */
  datatype TransactionStatus = Pending | Paid | Failed | Refunded {
    function Value(): string {
      match this
      case Pending => "pending"
      case Paid => "paid"
      case Failed => "failed"
      case Refunded => "refunded"
    }
  }

  datatype PaymentTransaction = PaymentTransaction(
    user: Id,
    amountCents: int,
    currency: string,
    paymentType: PaymentType,
    status: TransactionStatus,
    provider: string,
    providerPaymentId: string,
    metadata: Json.Object,
    createdAt: Timestamp)

  /** A transaction created with the field defaults: pending, USD, through
      stripe, with empty metadata. */
  function NewTransaction(user: Id, amountCents: int, paymentType: PaymentType, now: Timestamp): (t: PaymentTransaction)
    ensures t.user == user && t.amountCents == amountCents && t.paymentType == paymentType
    ensures t.status == Pending && t.currency == "USD" && t.provider == "stripe"
    ensures t.metadata == map[] && t.providerPaymentId == ""
  {
    PaymentTransaction(user, amountCents, "USD", paymentType, Pending, "stripe", "", map[], now)
  }

  /** `ordering = ['-created_at']`. */
  function TransactionOrder(ts: map<Id, PaymentTransaction>): Id -> Key {
    (id: Id) => if id in ts then Key(-ts[id].createdAt, 0) else Key(0, 0)
  }

  /** The transactions newest first. */
  function Transactions(ts: map<Id, PaymentTransaction>, bound: nat): (r: seq<Id>)
    requires Below(ts.Keys, bound)
    ensures forall x :: x in r <==> x in ts
    ensures forall i, j :: 0 <= i < j < |r| ==> ts[r[i]].createdAt >= ts[r[j]].createdAt
  {
    TransactionsNewestFirst(ts, bound);
    OrderedIds(ts.Keys, bound, TransactionOrder(ts))
  }

  /** The ordered keys come out newest first. */
  lemma TransactionsNewestFirst(ts: map<Id, PaymentTransaction>, bound: nat)
    requires Below(ts.Keys, bound)
    ensures var r := OrderedIds(ts.Keys, bound, TransactionOrder(ts));
      forall i, j :: 0 <= i < j < |r| ==> ts[r[i]].createdAt >= ts[r[j]].createdAt
  {
    var r := OrderedIds(ts.Keys, bound, TransactionOrder(ts));
    forall i, j | 0 <= i < j < |r| ensures ts[r[i]].createdAt >= ts[r[j]].createdAt {
      assert KeyLe(TransactionOrder(ts)(r[i]), TransactionOrder(ts)(r[j]));
    }
  }
}
