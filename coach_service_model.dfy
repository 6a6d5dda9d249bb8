/** apps/payments/models/coach_service.py: the services a coach offers and the
    requests clients make for them. */
module CoachServiceModel {
  import opened Basics
  import opened Exceptions
  import opened Binding

  datatype CoachService = CoachService(
    coach: Id,
    title: string,
    description: string,
    priceCents: int,
    durationMinutes: int,
    isActive: bool,
    createdAt: Timestamp)

  /** A service created with the defaults: active, sixty minutes. */
  function NewCoachService(coach: Id, title: string, priceCents: int, now: Timestamp): (s: CoachService)
    ensures s.coach == coach && s.title == title && s.priceCents == priceCents
    ensures s.isActive && s.durationMinutes == 60 && s.description == ""
  {
    CoachService(coach, title, "", priceCents, 60, true, now)
  }

  /** `STATUS_CHOICES` of a request. */
  datatype ServiceRequestStatus = Pending | Accepted | Rejected | Paid | Completed {
    /** The stored value. */
    function Value(): string {
      match this
      case Pending => "pending"
      case Accepted => "accepted"
      case Rejected => "rejected"
      case Paid => "paid"
      case Completed => "completed"
    }
  }

  /** The stored values are distinct: comparing `status` with a string literal
      tests for one member. */
  lemma StatusValuesDistinct(a: ServiceRequestStatus, b: ServiceRequestStatus)
    ensures a.Value() == b.Value() <==> a == b
  {
  }

  /** A request. `client`, `service` and `payment` are nullable (`SET_NULL`), so
      a request references at most one payment. */
  datatype ServiceRequest = ServiceRequest(
    client: Option<Id>,
    service: Option<Id>,
    status: ServiceRequestStatus,
    payment: Option<Id>,
    createdAt: Timestamp)

  /** A request created with the defaults: pending, no payment. */
  function NewServiceRequest(client: Id, service: Id, now: Timestamp): (r: ServiceRequest)
    ensures r.client == Some(client) && r.service == Some(service)
    ensures r.status == Pending && r.payment == None
  {
    ServiceRequest(Some(client), Some(service), Pending, None, now)
  }

  /** The `price` property: the price of the request's service, and
      AttributeError through a request whose service was deleted. */
  function Price(r: ServiceRequest, services: map<Id, CoachService>): (p: Result<int>)
    requires r.service.Some? ==> r.service.value in services
    ensures p.Ok? <==> r.service.Some?
    ensures p.Err? ==> p.error == AttributeError
  {
    if r.service.Some? then Ok(services[r.service.value].priceCents) else Err(AttributeError)
  }

  /** The `title` property, likewise. */
  function Title(r: ServiceRequest, services: map<Id, CoachService>): (t: Result<string>)
    requires r.service.Some? ==> r.service.value in services
    ensures t.Ok? <==> r.service.Some?
    ensures t.Err? ==> t.error == AttributeError
  {
    if r.service.Some? then Ok(services[r.service.value].title) else Err(AttributeError)
  }

  /** A request's price and title are never stored apart from its service: they
      change whenever the service's do. */
  lemma DerivedFollowService(r: ServiceRequest, services: map<Id, CoachService>, s: CoachService)
    requires r.service.Some? && r.service.value in services
    ensures Price(r, services[r.service.value := s]) == Ok(s.priceCents)
    ensures Title(r, services[r.service.value := s]) == Ok(s.title)
  {
  }

  /** The concrete fields and the read-only properties of `CoachServiceRequest`. */
  const RequestClass := ModelClass(
    {"id", "client", "client_id", "service", "service_id", "status", "payment", "payment_id", "created_at", "updated_at"},
    {"price", "title"})

  /** The names the class body of `CoachServiceRequest` binds. */
  const RequestClassAttributes: set<string> :=
    {"STATUS_CHOICES", "id", "client", "service", "status", "payment", "created_at", "updated_at", "price", "title", "objects"}

  /** The names the module defines or imports. */
  const ModuleNames: set<string> :=
    {"uuid", "models", "settings", "PaymentTransaction", "User", "CoachService", "CoachServiceRequest"}
}
