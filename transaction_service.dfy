/** apps/payments/services/transaction_service.py: creating a pending payment and
    settling it once it succeeded.

    As written the module cannot be imported, and its settlement write is refused
    by RevenueSplit's constructor (see the README's findings); the operations here
    are the ones the module evidently intends, with the request model imported
    under its real name and the settlement written as the record that call
    describes. */
module TransactionService {
  import opened Basics
  import opened Exceptions
  import opened Binding
  import opened Money
  import opened CoachServiceModel
  import opened PaymentTransactionModel
  import opened RevenueSplitModel
  import opened Store
  import Json
  import Text

  /** The names the module imports from apps/payments/models/coach_service.py, as
      written and as intended. */
  const ImportedAsWritten: set<string> := {"CoachRequest"}
  const ImportedAsIntended: set<string> := {"CoachServiceRequest"}

  /** `from apps.payments.models.coach_service import CoachRequest` fails, so
      every use of the module ends in ImportError; the intended name resolves. */
  lemma ImportAsWrittenFails()
    ensures Import(ModuleNames, ImportedAsWritten) == Err(ImportError)
    ensures Import(ModuleNames, ImportedAsIntended) == Ok(())
  {
    assert "CoachRequest" !in ModuleNames;
  }

  /** The keyword arguments of the settlement write. */
  const SettlementKwargs: set<string> := {"transaction", "coach_id", "coach_amount", "platform_amount"}

  /** `RevenueSplit.objects.create(transaction=..., coach_id=..., coach_amount=...,
      platform_amount=...)` names three fields RevenueSplit does not have and
      omits the ones it needs, so the constructor raises TypeError, after the
      payment was already saved as paid. */
  lemma SettlementKwargsRefused()
    ensures Construct(SplitClass, SettlementKwargs) == Err(TypeError)
    ensures !(SettlementKwargs <= SplitClass.fields)
  {
    assert "coach_amount" in SettlementKwargs && "coach_amount" !in SplitClass.fields;
  }

  /** `create_payment`: a pending row of the given user, amount and type; a
      missing metadata becomes `{}`. */
  method CreatePayment(db: Db, user: Id, amountCents: int, paymentType: PaymentType, metadata: Option<Json.Object>, now: Timestamp)
    returns (r: Result<Id>)
    requires Invariant(db.T())
    modifies db
    ensures !FitsAmount(amountCents) ==> r == Err(DataError) && db.T() == old(db.T())
    ensures FitsAmount(amountCents) ==>
      r == Ok(old(db.nextId)) &&
      db.T() == old(db.T()).(
        transactions := old(db.transactions)[old(db.nextId) := NewTransaction(user, amountCents, paymentType, now).(metadata := Json.OrEmpty(metadata))],
        nextId := old(db.nextId) + 1)
    ensures Invariant(db.T())
  {
    if !FitsAmount(amountCents) {
      return Err(DataError);
    }
    var id := db.NewId();
    db.transactions := db.transactions[id := NewTransaction(user, amountCents, paymentType, now).(metadata := Json.OrEmpty(metadata))];
    r := Ok(id);
  }

  /** `Decimal(metadata.get('platform_percent', 20))`: absent it is 20; a number
      is taken as it is and a boolean as 0 or 1; a text that is an integer
      numeral is read as its value; `Decimal(None)` raises TypeError; any other
      value is refused as not a number. */
  function PlatformPercent(metadata: Json.Object): (r: Result<int>)
    ensures "platform_percent" !in metadata ==> r == Ok(20)
    ensures "platform_percent" in metadata && metadata["platform_percent"].Num? ==> r == Ok(metadata["platform_percent"].n)
    ensures "platform_percent" in metadata && metadata["platform_percent"].Text? ==>
      (r.Ok? <==> Text.IntegerNumeral(metadata["platform_percent"].s).Some?) &&
      (r.Ok? ==> Some(r.value) == Text.IntegerNumeral(metadata["platform_percent"].s))
    ensures "platform_percent" in metadata && metadata["platform_percent"] == Json.Null ==> r == Err(TypeError)
    ensures r.Err? ==> ("platform_percent" in metadata && (metadata["platform_percent"].Null? ||
      metadata["platform_percent"].Text? || metadata["platform_percent"].Ref?))
  {
    match Json.Get(metadata, "platform_percent")
    case None => Ok(20)
    case Some(Num(n)) => Ok(n)
    case Some(Flag(b)) => Ok(if b then 1 else 0)
    case Some(Text(s)) =>
      (match Text.IntegerNumeral(s)
       case Some(n) => Ok(n)
       case None => Err(InvalidOperation))
    case Some(Null) => Err(TypeError)
    case Some(_) => Err(InvalidOperation)
  }

  /** A percentage rendered as text settles as the number itself: the text
      "15" gives 15. */
  lemma PlatformPercentOfText(metadata: Json.Object, p: int)
    requires "platform_percent" in metadata && metadata["platform_percent"] == Json.Text(Text.IntToString(p))
    ensures PlatformPercent(metadata) == Ok(p)
  {
    Text.IntegerNumeralOfIntToString(p);
  }

  /** The coach and platform amounts of a payment of `amountCents` cents when the
      platform takes `platformPercent` %, exact, in hundredths of a cent:
      `amount * (100 - p) / 100` and the remainder. */
  function SettlementAmounts(amountCents: int, platformPercent: int): (r: (int, int))
    ensures r.0 + r.1 == 100 * amountCents
    ensures r.1 == amountCents * platformPercent
  {
    var coach := amountCents * (100 - platformPercent);
    (coach, 100 * amountCents - coach)
  }

  /** For a percentage between 0 and 100 and a non-negative amount neither part
      is negative, and the default 20 % leaves the coach four fifths. */
  lemma SettlementAmountsBounds(amountCents: int, platformPercent: int)
    requires amountCents >= 0 && 0 <= platformPercent <= 100
    ensures 0 <= SettlementAmounts(amountCents, platformPercent).0 <= 100 * amountCents
    ensures 0 <= SettlementAmounts(amountCents, platformPercent).1 <= 100 * amountCents
    ensures SettlementAmounts(amountCents, 20).0 == 80 * amountCents
  {
    assert amountCents * platformPercent <= amountCents * 100;
  }

  /** Marks the request named by `coach_request_id` paid and linked to the
      payment: `objects.get` raises DoesNotExist when no request has that key. A
      missing or falsy entry changes nothing. */
  function MarkRequestPaid(t: Tables, payment: Id, requestRef: Option<Json.Value>): (r: Result<Tables>)
    ensures requestRef.None? || !Json.Truthy(requestRef.value) ==> r == Ok(t)
    ensures requestRef.Some? && requestRef.value.Ref? && requestRef.value.id in t.requests ==>
      r == Ok(t.(requests := t.requests[requestRef.value.id := t.requests[requestRef.value.id].(status := ServiceRequestStatus.Paid, payment := Some(payment))]))
    ensures r.Err? ==> r.error == DoesNotExist
  {
    if requestRef.None? || !Json.Truthy(requestRef.value) then Ok(t)
    else if requestRef.value.Ref? && requestRef.value.id in t.requests then
      var id := requestRef.value.id;
      Ok(t.(requests := t.requests[id := t.requests[id].(status := ServiceRequestStatus.Paid, payment := Some(payment))]))
    else Err(DoesNotExist)
  }

  /** What `handle_successful_payment` returns and leaves in the store. Writes
      that happened before a failure stay: the method is not atomic. */
  function Settle(t: Tables, paymentId: Id): (r: (Result<Id>, Tables))
    ensures paymentId !in t.transactions ==> r == (Err(Http404), t)
    ensures paymentId in t.transactions && t.transactions[paymentId].status != TransactionStatus.Pending ==> r == (Ok(paymentId), t)
    ensures paymentId in t.transactions && t.transactions[paymentId].status == TransactionStatus.Pending ==>
      r.1.transactions == t.transactions[paymentId := t.transactions[paymentId].(status := TransactionStatus.Paid)] &&
      r.1.splits == t.splits && r.1.users == t.users && r.1.services == t.services && r.1.subscriptions == t.subscriptions
    ensures r.0.Ok? ==> r.0.value == paymentId
  {
    if paymentId !in t.transactions then (Err(Http404), t)
    else
      var p := t.transactions[paymentId];
      if p.status != TransactionStatus.Pending then (Ok(paymentId), t)
      else
        var paid := t.(transactions := t.transactions[paymentId := p.(status := TransactionStatus.Paid)]);
        if p.paymentType != CoachServicePayment then (Ok(paymentId), paid)
        else
          match PlatformPercent(p.metadata)
          case Err(e) => (Err(e), paid)
          case Ok(pct) => SettleWith(paid, paymentId, p, pct)
  }

  /** The coach-service part of the settlement once the payment is saved as paid
      in `paid` and its platform percentage `pct` is known: one settlement under
      the next key, then the request named in the metadata marked paid. */
  function SettleWith(paid: Tables, paymentId: Id, p: PaymentTransaction, pct: int): (r: (Result<Id>, Tables))
    ensures paid.nextId in r.1.settlements && r.1.settlements == paid.settlements[paid.nextId := r.1.settlements[paid.nextId]]
    ensures r.1.settlements[paid.nextId].coachAmount + r.1.settlements[paid.nextId].platformAmount == 100 * p.amountCents
    ensures r.0.Ok? ==> r.0.value == paymentId
  {
    var amounts := SettlementAmounts(p.amountCents, pct);
    var n := paid.nextId;
    var settled := paid.(
      settlements := paid.settlements[n := Settlement(paymentId, Json.Get(p.metadata, "coach_id"), amounts.0, amounts.1)],
      nextId := n + 1);
    match MarkRequestPaid(settled, paymentId, Json.Get(p.metadata, "coach_request_id"))
    case Err(e) => (Err(e), settled)
    case Ok(done) => (Ok(paymentId), done)
  }

  /** The coach-service part of the settlement keeps the store's integrity. */
  lemma SettleWithKeepsInvariant(paid: Tables, paymentId: Id, p: PaymentTransaction, pct: int)
    requires Invariant(paid)
    ensures Invariant(SettleWith(paid, paymentId, p, pct).1)
  {
    var amounts := SettlementAmounts(p.amountCents, pct);
    var x := Settlement(paymentId, Json.Get(p.metadata, "coach_id"), amounts.0, amounts.1);
    AddSettlementKeepsInvariant(paid, x);
    var settled := paid.(settlements := paid.settlements[paid.nextId := x], nextId := paid.nextId + 1);
    var requestRef := Json.Get(p.metadata, "coach_request_id");
    var m := MarkRequestPaid(settled, paymentId, requestRef);
    assert SettleWith(paid, paymentId, p, pct).1 == if m.Err? then settled else m.value;
    if m.Ok? && m.value != settled {
      var id := requestRef.value.id;
      SaveRequestKeepsInvariant(settled, id, settled.requests[id].(status := ServiceRequestStatus.Paid, payment := Some(paymentId)));
    }
  }

  /** A second delivery of the same success changes nothing: after the first
      call the payment is no longer pending, whatever the first call's outcome. */
  lemma SettleIdempotent(t: Tables, paymentId: Id)
    requires paymentId in t.transactions
    ensures Settle(Settle(t, paymentId).1, paymentId) == (Ok(paymentId), Settle(t, paymentId).1)
  {
    var t1 := Settle(t, paymentId).1;
    assert paymentId in t1.transactions && t1.transactions[paymentId].status != TransactionStatus.Pending;
  }

  /** A pending subscription payment only changes status. */
  lemma SettleSubscription(t: Tables, paymentId: Id)
    requires paymentId in t.transactions && t.transactions[paymentId].status == TransactionStatus.Pending
    requires t.transactions[paymentId].paymentType == Subscription
    ensures Settle(t, paymentId) == (Ok(paymentId), t.(transactions := t.transactions[paymentId := t.transactions[paymentId].(status := TransactionStatus.Paid)]))
  {
  }

  /** A pending coach-service payment whose percent is a number records exactly
      one settlement, under the next key, whose parts make up the amount. */
  lemma SettleCoachService(t: Tables, paymentId: Id)
    requires paymentId in t.transactions && t.transactions[paymentId].status == TransactionStatus.Pending
    requires t.transactions[paymentId].paymentType == CoachServicePayment && PlatformPercent(t.transactions[paymentId].metadata).Ok?
    ensures var t1 := Settle(t, paymentId).1;
      t.nextId in t1.settlements && t1.settlements == t.settlements[t.nextId := t1.settlements[t.nextId]] &&
      t1.settlements[t.nextId].coachAmount + t1.settlements[t.nextId].platformAmount == 100 * t.transactions[paymentId].amountCents
  {
    var p := t.transactions[paymentId];
    var paid := t.(transactions := t.transactions[paymentId := p.(status := TransactionStatus.Paid)]);
    assert Settle(t, paymentId) == SettleWith(paid, paymentId, p, PlatformPercent(p.metadata).value);
  }

  /** Settling keeps the store's integrity: the settlement takes a fresh key and
      the request update keeps the request's service. */
  lemma SettleKeepsInvariant(t: Tables, paymentId: Id)
    requires Invariant(t)
    ensures Invariant(Settle(t, paymentId).1)
  {
    if paymentId in t.transactions && t.transactions[paymentId].status == TransactionStatus.Pending {
      var p := t.transactions[paymentId];
      var paid := t.(transactions := t.transactions[paymentId := p.(status := TransactionStatus.Paid)]);
      SaveTransactionKeepsInvariant(t, paymentId, p.(status := TransactionStatus.Paid));
      var pct := PlatformPercent(p.metadata);
      if p.paymentType != CoachServicePayment || pct.Err? {
        assert Settle(t, paymentId).1 == paid;
      } else {
        assert Settle(t, paymentId) == SettleWith(paid, paymentId, p, pct.value);
        SettleWithKeepsInvariant(paid, paymentId, p, pct.value);
      }
    }
  }

  /** `handle_successful_payment`, in the corrected module. */
  method HandleSuccessfulPayment(db: Db, paymentId: Id) returns (r: Result<Id>)
    requires Invariant(db.T())
    modifies db
    ensures (r, db.T()) == Settle(old(db.T()), paymentId)
    ensures Invariant(db.T())
  {
    ghost var t0 := db.T();
    SettleKeepsInvariant(t0, paymentId);
    if paymentId !in db.transactions {
      return Err(Http404);
    }
    var p := db.transactions[paymentId];
    if p.status != TransactionStatus.Pending {
      return Ok(paymentId);
    }
    SaveTransactionKeepsInvariant(t0, paymentId, p.(status := TransactionStatus.Paid));
    db.transactions := db.transactions[paymentId := p.(status := TransactionStatus.Paid)];
    ghost var paid := db.T();
    assert paid == t0.(transactions := t0.transactions[paymentId := p.(status := TransactionStatus.Paid)]);
    if p.paymentType != CoachServicePayment {
      return Ok(paymentId);
    }
    var pct := PlatformPercent(p.metadata);
    if pct.Err? {
      return Err(pct.error);
    }
    assert Settle(t0, paymentId) == SettleWith(paid, paymentId, p, pct.value);
    r := RecordSettlement(db, paymentId, p, pct.value);
  }

  /** The coach-service tail of `handle_successful_payment`: the settlement
      record, then the request named in the metadata marked paid. */
  method RecordSettlement(db: Db, paymentId: Id, p: PaymentTransaction, pct: int) returns (r: Result<Id>)
    requires Invariant(db.T())
    modifies db
    ensures (r, db.T()) == SettleWith(old(db.T()), paymentId, p, pct)
    ensures Invariant(db.T())
  {
    ghost var paid := db.T();
    SettleWithKeepsInvariant(paid, paymentId, p, pct);
    var amounts := SettlementAmounts(p.amountCents, pct);
    var n := db.NewId();
    db.settlements := db.settlements[n := Settlement(paymentId, Json.Get(p.metadata, "coach_id"), amounts.0, amounts.1)];
    ghost var settled := db.T();
    assert settled == paid.(settlements := paid.settlements[n := Settlement(paymentId, Json.Get(p.metadata, "coach_id"), amounts.0, amounts.1)],
                            nextId := n + 1);
    var requestRef := Json.Get(p.metadata, "coach_request_id");
    if requestRef.Some? && Json.Truthy(requestRef.value) {
      if !(requestRef.value.Ref? && requestRef.value.id in db.requests) {
        return Err(DoesNotExist);
      }
      var id := requestRef.value.id;
      db.requests := db.requests[id := db.requests[id].(status := ServiceRequestStatus.Paid, payment := Some(paymentId))];
    }
    r := Ok(paymentId);
  }
}
