/** apps/payments/services/subscription_service.py: subscribing to a plan,
    extending an active subscription, cancelling, and the webhook helper that
    subscribes from a transaction's metadata. */
module SubscriptionService {
  import opened Basics
  import opened Exceptions
  import opened Ordering
  import opened SubscriptionModel
  import opened Store
  import Json

  /** The active subscriptions of a user to a plan. */
  function ActiveOf(subs: map<Id, Subscription>, user: Id, plan: Id): set<Id> {
    set s | s in subs && subs[s].user == user && subs[s].plan == plan && subs[s].status == Active
  }

  /** `filter(user, plan, status='active').first()` under `ordering =
      ['-start_date']`. */
  function ExistingActive(subs: map<Id, Subscription>, bound: nat, user: Id, plan: Id): (r: Option<Id>)
    requires Below(subs.Keys, bound)
    ensures r.None? <==> ActiveOf(subs, user, plan) == {}
    ensures r.Some? ==> (r.value in ActiveOf(subs, user, plan) &&
      forall s :: s in ActiveOf(subs, user, plan) ==> KeyLe(SubscriptionOrder(subs)(r.value), SubscriptionOrder(subs)(s)))
  {
    First(ActiveOf(subs, user, plan), bound, SubscriptionOrder(subs))
  }

  /** The extension of an existing subscription: `end_date += timedelta(days)`,
      which raises TypeError on a subscription without end date, and the new last
      payment. */
  function Extended(s: Subscription, durationDays: nat, payment: Id): (r: Result<Subscription>)
    ensures r.Ok? <==> s.endDate.Some?
    ensures r.Err? ==> r.error == TypeError
    ensures r.Ok? ==> r.value == s.(endDate := Some(s.endDate.value + Days(durationDays)), lastPayment := Some(payment))
  {
    match s.endDate
    case None => Err(TypeError)
    case Some(end) => Ok(s.(endDate := Some(end + Days(durationDays)), lastPayment := Some(payment)))
  }

  /** Extending is not idempotent: two extensions push the end date by twice the
      plan's duration, and the start date never moves. */
  lemma ExtendTwice(s: Subscription, durationDays: nat, p1: Id, p2: Id)
    requires s.endDate.Some?
    ensures Extended(s, durationDays, p1).Ok?
    ensures Extended(Extended(s, durationDays, p1).value, durationDays, p2) ==
      Ok(s.(endDate := Some(s.endDate.value + 2 * Days(durationDays)), lastPayment := Some(p2)))
    ensures durationDays > 0 ==> Extended(Extended(s, durationDays, p1).value, durationDays, p2).value.endDate != Extended(s, durationDays, p1).value.endDate
  {
  }

  /** The new subscription `subscribe` creates: active from now for the plan's
      duration, paid by the transaction. */
  function Started(user: Id, plan: Id, durationDays: nat, payment: Id, now: Timestamp): (s: Subscription)
    ensures s.user == user && s.plan == plan && s.status == Active && InChoices(s.status)
    ensures s.startDate == Some(now) && s.endDate == Some(now + Days(durationDays)) && s.lastPayment == Some(payment)
  {
    NewSubscription(user, plan, now).(status := Active, endDate := Some(now + Days(durationDays)), lastPayment := Some(payment))
  }

  /** The outcome of `subscribe(user, plan_id, transaction)` on tables `t0`,
      leaving `t1` and returning `r`: Http404 for an unknown plan; an active
      subscription of the user to the plan is extended in place and returned,
      with no row created, or TypeError with nothing changed when it has no end
      date; otherwise exactly one new active subscription under the next key. */
  ghost predicate Subscribed(t0: Tables, t1: Tables, r: Result<Id>, user: Id, planId: Id, payment: Id, now: Timestamp)
    requires Invariant(t0)
  {
    (planId !in t0.plans ==> r == Err(Http404) && t1 == t0) &&
    (planId in t0.plans && ExistingActive(t0.subscriptions, t0.nextId, user, planId).Some? ==>
      var e := ExistingActive(t0.subscriptions, t0.nextId, user, planId).value;
      var x := Extended(t0.subscriptions[e], t0.plans[planId].durationDays, payment);
      (x.Err? ==> r == Err(TypeError) && t1 == t0) &&
      (x.Ok? ==> r == Ok(e) && t1 == t0.(subscriptions := t0.subscriptions[e := x.value]))) &&
    (planId in t0.plans && ExistingActive(t0.subscriptions, t0.nextId, user, planId).None? ==>
      r == Ok(t0.nextId) &&
      t1 == t0.(
        subscriptions := t0.subscriptions[t0.nextId := Started(user, planId, t0.plans[planId].durationDays, payment, now)],
        nextId := t0.nextId + 1))
  }

  /** `subscribe`: the outcome `Subscribed` describes. */
  method Subscribe(db: Db, user: Id, planId: Id, payment: Id, now: Timestamp) returns (r: Result<Id>)
    requires Invariant(db.T())
    modifies db
    ensures Subscribed(old(db.T()), db.T(), r, user, planId, payment, now)
    ensures Invariant(db.T())
  {
    if planId !in db.plans {
      return Err(Http404);
    }
    var plan := db.plans[planId];
    var existing := ExistingActive(db.subscriptions, db.nextId, user, planId);
    if existing.Some? {
      var e := Extended(db.subscriptions[existing.value], plan.durationDays, payment);
      if e.Err? {
        return Err(e.error);
      }
      SaveSubscription(db, existing.value, e.value);
      return Ok(existing.value);
    }
    var id := AddSubscription(db, Started(user, planId, plan.durationDays, payment, now));
    r := Ok(id);
  }

  /** `save()` of an existing subscription. */
  method SaveSubscription(db: Db, id: Id, x: Subscription)
    requires Invariant(db.T()) && id in db.subscriptions
    modifies db
    ensures db.T() == old(db.T()).(subscriptions := old(db.subscriptions)[id := x])
    ensures Invariant(db.T())
  {
    SubscriptionWritesKeepInvariant(db.T(), id, x);
    db.subscriptions := db.subscriptions[id := x];
  }

  /** `objects.create` of a subscription, under the next key. */
  method AddSubscription(db: Db, x: Subscription) returns (id: Id)
    requires Invariant(db.T())
    modifies db
    ensures id == old(db.nextId)
    ensures db.T() == old(db.T()).(subscriptions := old(db.subscriptions)[id := x], nextId := id + 1)
    ensures Invariant(db.T())
  {
    SubscriptionWritesKeepInvariant(db.T(), db.nextId, x);
    id := db.NewId();
    db.subscriptions := db.subscriptions[id := x];
  }

  /** `cancel`: Http404 for an unknown key; otherwise the status becomes
      "cancelled", outside the model's choices. */
  method Cancel(db: Db, subscriptionId: Id) returns (r: Result<Id>)
    requires Invariant(db.T())
    modifies db
    ensures subscriptionId !in old(db.subscriptions) ==> r == Err(Http404) && db.T() == old(db.T())
    ensures subscriptionId in old(db.subscriptions) ==>
      r == Ok(subscriptionId) &&
      db.T() == old(db.T()).(subscriptions := old(db.subscriptions)[subscriptionId := old(db.subscriptions)[subscriptionId].(status := Cancelled)]) &&
      !InChoices(db.subscriptions[subscriptionId].status)
    ensures Invariant(db.T())
  {
    if subscriptionId !in db.subscriptions {
      return Err(Http404);
    }
    CancelledOutsideChoices(Cancelled);
    db.subscriptions := db.subscriptions[subscriptionId := db.subscriptions[subscriptionId].(status := Cancelled)];
    r := Ok(subscriptionId);
  }

  /** The plan a transaction's metadata names, for `activate_or_extend`: a
      missing or falsy `plan_id` raises ValueError; a value that names no plan key
      finds no plan. */
  function PlanOf(metadata: Json.Object): (r: Result<Option<Id>>)
    ensures r.Err? <==> "plan_id" !in metadata || !Json.Truthy(metadata["plan_id"])
    ensures r.Err? ==> r.error == ValueError("Transaction metadata missing 'plan_id'")
    ensures r.Ok? ==> (r.value.Some? <==> metadata["plan_id"].Ref?)
    ensures r.Ok? && r.value.Some? ==> metadata["plan_id"] == Json.Ref(r.value.value)
  {
    match Json.Get(metadata, "plan_id")
    case None => Err(ValueError("Transaction metadata missing 'plan_id'"))
    case Some(v) =>
      if !Json.Truthy(v) then Err(ValueError("Transaction metadata missing 'plan_id'"))
      else if v.Ref? then Ok(Some(v.id))
      else Ok(None)
  }

  /** `activate_or_extend`: subscribes the transaction's user to the plan its
      metadata names. */
  method ActivateOrExtend(db: Db, transactionId: Id, now: Timestamp) returns (r: Result<Id>)
    requires Invariant(db.T()) && transactionId in db.transactions
    modifies db
    ensures PlanOf(old(db.transactions)[transactionId].metadata).Err? ==>
      r == Err(ValueError("Transaction metadata missing 'plan_id'")) && db.T() == old(db.T())
    ensures PlanOf(old(db.transactions)[transactionId].metadata) == Ok(None) ==> r == Err(Http404) && db.T() == old(db.T())
    ensures PlanOf(old(db.transactions)[transactionId].metadata).Ok? &&
            PlanOf(old(db.transactions)[transactionId].metadata).value.Some? &&
            PlanOf(old(db.transactions)[transactionId].metadata).value.value !in old(db.plans) ==>
      r == Err(Http404) && db.T() == old(db.T())
    ensures PlanOf(old(db.transactions)[transactionId].metadata).Ok? &&
            PlanOf(old(db.transactions)[transactionId].metadata).value.Some? ==>
      Subscribed(old(db.T()), db.T(), r, old(db.transactions)[transactionId].user,
                 PlanOf(old(db.transactions)[transactionId].metadata).value.value, transactionId, now)
    ensures r.Ok? ==> (r.value in db.subscriptions && db.subscriptions[r.value].user == old(db.transactions)[transactionId].user &&
      db.subscriptions[r.value].lastPayment == Some(transactionId) && db.subscriptions[r.value].status == Active)
    ensures Invariant(db.T())
  {
    var tx := db.transactions[transactionId];
    var plan := PlanOf(tx.metadata);
    if plan.Err? {
      return Err(plan.error);
    }
    if plan.value.None? {
      return Err(Http404);
    }
    r := Subscribe(db, tx.user, plan.value.value, transactionId, now);
  }
}
