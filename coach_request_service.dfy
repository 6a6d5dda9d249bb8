/** apps/payments/services/coach_request_service.py: the lifecycle of a coach
    service request, from creation through acceptance or rejection, payment and
    completion. */
module CoachRequestService {
  import opened Basics
  import opened Exceptions
  import opened Binding
  import opened CoachServiceModel
  import opened Store
  import RevenueSplitService

  /** `list_services`: the active services, of the given coach when one is given. */
  function ListServices(t: Tables, coach: Option<Id>): (r: set<Id>)
    ensures forall s :: s in r <==>
      s in t.services && t.services[s].isActive && (coach.Some? ==> t.services[s].coach == coach.value)
  {
    set s | s in t.services && t.services[s].isActive && (coach.None? || t.services[s].coach == coach.value)
  }

  /** Restricting to a coach selects that coach's part of the full list, and the
      coaches' lists are disjoint. */
  lemma ListServicesByCoach(t: Tables, c: Id, d: Id)
    ensures ListServices(t, Some(c)) <= ListServices(t, None)
    ensures c != d ==> ListServices(t, Some(c)) !! ListServices(t, Some(d))
    ensures forall s :: s in ListServices(t, None) ==> s in ListServices(t, Some(t.services[s].coach))
  {
  }

  /** The checks of `create_request`: the service named by `data["service_id"]`
      must exist and be active, and must not be the client's own. */
  function CreateRequestCheck(t: Tables, client: Id, serviceId: Option<Id>): (r: Result<Id>)
    ensures r.Ok? <==> (serviceId.Some? && serviceId.value in t.services && t.services[serviceId.value].isActive &&
                        t.services[serviceId.value].coach != client)
    ensures r.Ok? ==> r.value == serviceId.value
    ensures !(serviceId.Some? && serviceId.value in t.services && t.services[serviceId.value].isActive) ==>
      r == Err(NotFound("Service not found or inactive"))
    ensures serviceId.Some? && serviceId.value in t.services && t.services[serviceId.value].isActive &&
            t.services[serviceId.value].coach == client ==>
      r == Err(Forbidden("You cannot request your own service"))
  {
    if serviceId.None? || serviceId.value !in t.services || !t.services[serviceId.value].isActive then
      Err(NotFound("Service not found or inactive"))
    else if t.services[serviceId.value].coach == client then
      Err(Forbidden("You cannot request your own service"))
    else Ok(serviceId.value)
  }

  /** The keyword arguments `create_request` passes to `objects.create`. */
  const CreateRequestKwargs: set<string> := {"client", "service", "coach", "price", "title", "status"}

  /** `create_request` as written: after its checks pass it reads
      `CoachServiceRequest.Status`, which the class does not define; and were the
      status given, the constructor would still refuse `price` and `title`, which
      are read-only properties, and `coach`, which is no field. It never writes
      a request. */
  function CreateRequestAsWritten(t: Tables, client: Id, serviceId: Option<Id>): (r: Result<()>)
    ensures r.Err?
    ensures CreateRequestCheck(t, client, serviceId).Ok? ==> r == Err(AttributeError)
  {
    var c := CreateRequestCheck(t, client, serviceId);
    if c.Err? then Err(c.error)
    else
      match ClassAttribute(RequestClassAttributes, "Status")
      case Err(e) => Err(e)
      case Ok(_) => Construct(RequestClass, CreateRequestKwargs)
  }

  /** Both defects of the call stand on their own: the status constant is missing
      and the keyword arguments do not fit the model. */
  lemma CreateRequestCallFails()
    ensures ClassAttribute(RequestClassAttributes, "Status") == Err(AttributeError)
    ensures Construct(RequestClass, CreateRequestKwargs) == Err(AttributeError)
    ensures Construct(RequestClass, {"client", "service", "status"}) == Ok(())
  {
    assert "price" in CreateRequestKwargs && "price" !in RequestClass.fields && "price" in RequestClass.properties;
  }

  /** `create_request` as intended: a pending request of the client for the
      service, under a fresh key; on a failed check nothing is written. */
  method CreateRequest(db: Db, client: Id, serviceId: Option<Id>, now: Timestamp) returns (r: Result<Id>)
    requires Invariant(db.T())
    modifies db
    ensures CreateRequestCheck(old(db.T()), client, serviceId).Err? ==>
      r == Err(CreateRequestCheck(old(db.T()), client, serviceId).error) && db.T() == old(db.T())
    ensures CreateRequestCheck(old(db.T()), client, serviceId).Ok? ==>
      r == Ok(old(db.nextId)) &&
      db.T() == old(db.T()).(
        requests := old(db.requests)[old(db.nextId) := NewServiceRequest(client, serviceId.value, now)],
        nextId := old(db.nextId) + 1)
    ensures Invariant(db.T())
  {
    var c := CreateRequestCheck(db.T(), client, serviceId);
    if c.Err? {
      return Err(c.error);
    }
    var id := db.NewId();
    db.requests := db.requests[id := NewServiceRequest(client, c.value, now)];
    r := Ok(id);
  }

  /** The checks `accept_request`, `reject_request` and `complete_request` share:
      the request exists, its service's coach is the actor, and, unless
      `anyStatus`, it is pending. `verb` names the action in the refusal. A
      request whose service was deleted has no `service.coach` (AttributeError). */
  function CoachActionCheck(t: Tables, actor: Id, requestId: Id, verb: string, anyStatus: bool): (r: Result<()>)
    requires RequestsLinked(t)
    ensures r.Ok? <==> (requestId in t.requests && t.requests[requestId].service.Some? &&
      t.services[t.requests[requestId].service.value].coach == actor &&
      (anyStatus || t.requests[requestId].status == Pending))
    ensures requestId !in t.requests ==> r == Err(NotFound("Request not found"))
    ensures requestId in t.requests && t.requests[requestId].service.None? ==> r == Err(AttributeError)
    ensures requestId in t.requests && t.requests[requestId].service.Some? &&
            t.services[t.requests[requestId].service.value].coach != actor ==>
      r == Err(Forbidden("You cannot " + verb + " this request"))
    ensures requestId in t.requests && t.requests[requestId].service.Some? &&
            t.services[t.requests[requestId].service.value].coach == actor &&
            !anyStatus && t.requests[requestId].status != Pending ==>
      r == Err(Forbidden("Request is not pending"))
  {
    if requestId !in t.requests then Err(NotFound("Request not found"))
    else
      var req := t.requests[requestId];
      if req.service.None? then Err(AttributeError)
      else if t.services[req.service.value].coach != actor then Err(Forbidden("You cannot " + verb + " this request"))
      else if !anyStatus && req.status != Pending then Err(Forbidden("Request is not pending"))
      else Ok(())
  }

  /** Sets the status of a request that passed its checks and saves it. */
  method SetStatus(db: Db, requestId: Id, status: ServiceRequestStatus)
    requires Invariant(db.T()) && requestId in db.requests
    modifies db
    ensures db.T() == old(db.T()).(requests := old(db.requests)[requestId := old(db.requests)[requestId].(status := status)])
    ensures Invariant(db.T())
  {
    db.requests := db.requests[requestId := db.requests[requestId].(status := status)];
  }

  /** `accept_request`: a pending request of the actor's service becomes accepted. */
  method AcceptRequest(db: Db, actor: Id, requestId: Id) returns (r: Result<Id>)
    requires Invariant(db.T())
    modifies db
    ensures CoachActionCheck(old(db.T()), actor, requestId, "accept", false).Err? ==>
      r == Err(CoachActionCheck(old(db.T()), actor, requestId, "accept", false).error) && db.T() == old(db.T())
    ensures CoachActionCheck(old(db.T()), actor, requestId, "accept", false).Ok? ==>
      r == Ok(requestId) &&
      db.T() == old(db.T()).(requests := old(db.requests)[requestId := old(db.requests)[requestId].(status := Accepted)])
    ensures Invariant(db.T())
  {
    var c := CoachActionCheck(db.T(), actor, requestId, "accept", false);
    if c.Err? {
      return Err(c.error);
    }
    SetStatus(db, requestId, Accepted);
    r := Ok(requestId);
  }

  /** `reject_request`: a pending request of the actor's service becomes rejected. */
  method RejectRequest(db: Db, actor: Id, requestId: Id) returns (r: Result<Id>)
    requires Invariant(db.T())
    modifies db
    ensures CoachActionCheck(old(db.T()), actor, requestId, "reject", false).Err? ==>
      r == Err(CoachActionCheck(old(db.T()), actor, requestId, "reject", false).error) && db.T() == old(db.T())
    ensures CoachActionCheck(old(db.T()), actor, requestId, "reject", false).Ok? ==>
      r == Ok(requestId) &&
      db.T() == old(db.T()).(requests := old(db.requests)[requestId := old(db.requests)[requestId].(status := Rejected)])
    ensures Invariant(db.T())
  {
    var c := CoachActionCheck(db.T(), actor, requestId, "reject", false);
    if c.Err? {
      return Err(c.error);
    }
    SetStatus(db, requestId, Rejected);
    r := Ok(requestId);
  }

  /** `complete_request`: a request of the actor's service becomes completed,
      whatever its status was. */
  method CompleteRequest(db: Db, actor: Id, requestId: Id) returns (r: Result<Id>)
    requires Invariant(db.T())
    modifies db
    ensures CoachActionCheck(old(db.T()), actor, requestId, "complete", true).Err? ==>
      r == Err(CoachActionCheck(old(db.T()), actor, requestId, "complete", true).error) && db.T() == old(db.T())
    ensures CoachActionCheck(old(db.T()), actor, requestId, "complete", true).Ok? ==>
      r == Ok(requestId) &&
      db.T() == old(db.T()).(requests := old(db.requests)[requestId := old(db.requests)[requestId].(status := Completed)])
    ensures Invariant(db.T())
  {
    var c := CoachActionCheck(db.T(), actor, requestId, "complete", true);
    if c.Err? {
      return Err(c.error);
    }
    SetStatus(db, requestId, Completed);
    r := Ok(requestId);
  }

  /** Only a pending request can be accepted or rejected, while completion admits
      every status; none of the three checks looks at the payment. */
  lemma GuardsByStatus(t: Tables, actor: Id, requestId: Id)
    requires RequestsLinked(t) && requestId in t.requests
    ensures CoachActionCheck(t, actor, requestId, "accept", false).Ok? ==> t.requests[requestId].status == Pending
    ensures CoachActionCheck(t, actor, requestId, "reject", false).Ok? ==> t.requests[requestId].status == Pending
    ensures CoachActionCheck(t, actor, requestId, "accept", false).Ok? ==> CoachActionCheck(t, actor, requestId, "complete", true).Ok?
    ensures CoachActionCheck(t, actor, requestId, "complete", true).Ok? && t.requests[requestId].status == Pending ==>
      CoachActionCheck(t, actor, requestId, "reject", false).Ok?
  {
  }

  /** `mark_paid`: the request becomes paid and linked to the transaction and is
      saved at once; then the transaction is split between the service's coach
      and the platform. Nothing is atomic and nothing is guarded, so each call
      writes another pair of splits, and a failure of the split leaves the paid
      request in place. */
  method MarkPaid(db: Db, requestId: Id, transactionId: Id, now: Timestamp) returns (r: Result<(Id, Id)>)
    requires Invariant(db.T()) && requestId in db.requests && transactionId in db.transactions
    modifies db
    ensures
      var paid := old(db.T()).(requests := old(db.requests)[requestId := old(db.requests)[requestId].(status := Paid, payment := Some(transactionId))]);
      var service := old(db.requests)[requestId].service;
      var platform := RevenueSplitService.PlatformUser(old(db.users), old(db.nextId));
      if service.None? then
        r == Err(AttributeError) && db.T() == paid
      else if platform.None? then
        r == Err(ValueError("No platform account found for revenue split")) && db.T() == paid
      else
        RevenueSplitService.SplitWritten(paid, db.T(), r, transactionId, old(db.services)[service.value].coach, platform.value, 70, now)
    ensures Invariant(db.T())
  {
    var req := db.requests[requestId];
    db.requests := db.requests[requestId := req.(status := Paid, payment := Some(transactionId))];
    r := RevenueSplitService.CreateForCoachRequest(db, req, transactionId, 70, now);
  }
}
