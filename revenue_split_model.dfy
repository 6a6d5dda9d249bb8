/** apps/payments/models/revenue_split.py: a share of a transaction paid out to
    one beneficiary. Nothing limits the number of splits of a transaction. */
module RevenueSplitModel {
  import opened Basics
  import opened Binding
  import Json

  /** `SPLIT_TYPE_CHOICES`. */
  datatype SplitType = CoachShare | PlatformShare | AiShare {
    function Value(): string {
      match this
      case CoachShare => "coach"
      case PlatformShare => "platform"
      case AiShare => "ai"
    }
  }

  /** A split row. `amount` is in cents; `percentage` is the whole percentage the
      services write. */
  datatype RevenueSplit = RevenueSplit(
    transaction: Id,
    beneficiary: Id,
    amountCents: int,
    splitType: SplitType,
    percentage: int,
    createdAt: Timestamp)

  /** `percentage` is `max_digits=5, decimal_places=2`: fewer than 1000 either
      way. (`amount` has the range of `Money.FitsAmount`.) */
  predicate FitsPercentage(percentage: int) {
    -1000 < percentage < 1000
  }

  /** The settlement that `handle_successful_payment` of
      apps/payments/services/transaction_service.py records for a coach-service
      payment: the coach identifier read from the metadata and the two exact
      amounts, in hundredths of a cent. RevenueSplit has none of these fields
      (see the README's findings); this row is the record that call describes. */
  datatype Settlement = Settlement(
    transaction: Id,
    coach: Option<Json.Value>,
    coachAmount: int,
    platformAmount: int)

  /** The splits of a transaction (`transaction.splits`). */
  function SplitsOf(splits: map<Id, RevenueSplit>, transaction: Id): set<Id> {
    set s | s in splits && splits[s].transaction == transaction
  }

  /** The concrete fields of `RevenueSplit`, with their `_id` attribute names; it
      declares no properties. */
  const SplitClass := ModelClass(
    {"id", "transaction", "transaction_id", "beneficiary", "beneficiary_id", "amount", "split_type", "percentage", "created_at"},
    {})
}
