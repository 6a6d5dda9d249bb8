/** apps/payments/models/subscription.py: subscription plans and the
    subscriptions users hold. */
module SubscriptionModel {
  import opened Basics
  import opened Ordering

  datatype Plan = Plan(
    title: string,
    description: string,
    priceCents: int,
    durationDays: nat,
    isActive: bool,
    createdAt: Timestamp)

  /** A plan created with the defaults: active, thirty days. */
  function NewPlan(title: string, priceCents: int, now: Timestamp): (p: Plan)
    ensures p.title == title && p.priceCents == priceCents
    ensures p.durationDays == 30 && p.isActive
  {
    Plan(title, "", priceCents, 30, true, now)
  }

  /** The statuses a subscription row can hold: the three `STATUS_CHOICES` and
      the "cancelled" that the subscription service writes. */
  datatype SubscriptionStatus = Active | Inactive | Expired | Cancelled {
    function Value(): string {
      match this
      case Active => "active"
      case Inactive => "inactive"
      case Expired => "expired"
      case Cancelled => "cancelled"
    }
  }

  /** Whether a status is one of `STATUS_CHOICES`. */
  predicate InChoices(s: SubscriptionStatus) {
    s.Value() in ["active", "inactive", "expired"]
  }

  /** Exactly "cancelled" lies outside the declared choices. */
  lemma CancelledOutsideChoices(s: SubscriptionStatus)
    ensures !InChoices(s) <==> s == Cancelled
  {
    assert "cancelled" != "active" && "cancelled" != "inactive" && "cancelled" != "expired";
  }

  datatype Subscription = Subscription(
    user: Id,
    plan: Id,
    status: SubscriptionStatus,
    startDate: Option<Timestamp>,
    endDate: Option<Timestamp>,
    lastPayment: Option<Id>,
    createdAt: Timestamp)

  /** A subscription created with the field defaults: inactive, starting now,
      without end date. */
  function NewSubscription(user: Id, plan: Id, now: Timestamp): (s: Subscription)
    ensures s.user == user && s.plan == plan && s.status == Inactive
    ensures s.startDate == Some(now) && s.endDate == None && s.lastPayment == None
  {
    Subscription(user, plan, Inactive, Some(now), None, None, now)
  }

  /** `ordering = ['price']`. */
  function PlanOrder(plans: map<Id, Plan>): Id -> Key {
    (id: Id) => if id in plans then Key(plans[id].priceCents, 0) else Key(0, 0)
  }

  /** `ordering = ['-start_date']`. PostgreSQL sorts NULL above every value, so a
      descending order lists subscriptions without start date first. */
  function SubscriptionOrder(subs: map<Id, Subscription>): Id -> Key {
    (id: Id) =>
      if id in subs then
        match subs[id].startDate
        case None => Key(0, 0)
        case Some(t) => Key(1, -t)
      else Key(0, 0)
  }

  /** The plans in their default order: every plan once, cheapest first. */
  function Plans(plans: map<Id, Plan>, bound: nat): (r: seq<Id>)
    requires Below(plans.Keys, bound)
    ensures forall x :: x in r <==> x in plans
    ensures forall i, j :: 0 <= i < j < |r| ==> plans[r[i]].priceCents <= plans[r[j]].priceCents
  {
    PlansCheapestFirst(plans, bound);
    OrderedIds(plans.Keys, bound, PlanOrder(plans))
  }

  /** The ordered keys come out cheapest first. */
  lemma PlansCheapestFirst(plans: map<Id, Plan>, bound: nat)
    requires Below(plans.Keys, bound)
    ensures var r := OrderedIds(plans.Keys, bound, PlanOrder(plans));
      forall i, j :: 0 <= i < j < |r| ==> plans[r[i]].priceCents <= plans[r[j]].priceCents
  {
    var r := OrderedIds(plans.Keys, bound, PlanOrder(plans));
    forall i, j | 0 <= i < j < |r| ensures plans[r[i]].priceCents <= plans[r[j]].priceCents {
      assert KeyLe(PlanOrder(plans)(r[i]), PlanOrder(plans)(r[j]));
    }
  }

  /** Under this order a subscription without start date precedes every one with
      a start date, and later start dates precede earlier ones. */
  lemma SubscriptionOrderMeaning(subs: map<Id, Subscription>, a: Id, b: Id)
    requires a in subs && b in subs
    ensures subs[a].startDate.None? ==> KeyLe(SubscriptionOrder(subs)(a), SubscriptionOrder(subs)(b))
    ensures subs[a].startDate.Some? && subs[b].startDate.Some? ==>
      (KeyLe(SubscriptionOrder(subs)(a), SubscriptionOrder(subs)(b)) <==> subs[a].startDate.value >= subs[b].startDate.value)
  {
  }
}
