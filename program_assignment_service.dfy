/** apps/fitness/services/program_assignment_service.py: assigning a workout
    program to a client (optionally consuming a paid coach-service request),
    soft-unassigning it, and the role-gated assignment history.

    Both writing operations run inside `transaction.atomic`: an exception
    anywhere in them leaves the database as it was. They are modelled as pure
    functions from the tables before to the outcome and the tables after
    (`Assign`, `Unassign`), and as methods on the store proved to perform
    exactly that change (`AssignProgram`, `UnassignProgram`). */
module ProgramAssignmentService {
  import opened Basics
  import opened Text
  import opened Exceptions
  import opened Binding
  import opened Ordering
  import opened AccountModels
  import opened WorkoutModels
  import opened AuditModel
  import opened CoachClientModel
  import opened CoachServiceModel
  import opened Store
  import AuditLogger
  import CoachRequestService

  // ------------------------------------------------------------------
  // assign_program

  /** Whether a request is already linked to an assignment (the reverse
      one-to-one accessor `program_assignment` exists). */
  predicate Fulfilled(assignments: map<Id, Assignment>, requestId: Id) {
    exists a :: a in assignments && assignments[a].request == Some(requestId)
  }

  /** The client and program checks, in code order: an active client, an active
      program, and, for a coach actor, a program the actor created. A gym owner
      who is no coach may assign anyone's program. */
  function TargetCheck(t: Tables, actor: Id, clientId: Id, programId: Id): (r: Result<()>)
    requires actor in t.users
    ensures r.Ok? <==> (clientId in t.users && t.users[clientId].isActive &&
      programId in t.programs && t.programs[programId].isActive &&
      (t.users[actor].isCoach ==> t.programs[programId].createdBy == Some(actor)))
    ensures !(clientId in t.users && t.users[clientId].isActive) ==> r == Err(NotFound("Client not found."))
    ensures clientId in t.users && t.users[clientId].isActive && !(programId in t.programs && t.programs[programId].isActive) ==>
      r == Err(NotFound("Workout program not found."))
    ensures clientId in t.users && t.users[clientId].isActive && programId in t.programs && t.programs[programId].isActive &&
            t.users[actor].isCoach && t.programs[programId].createdBy != Some(actor) ==>
      r == Err(Forbidden("You can only assign your own programs."))
  {
    if clientId !in t.users || !t.users[clientId].isActive then Err(NotFound("Client not found."))
    else if programId !in t.programs || !t.programs[programId].isActive then Err(NotFound("Workout program not found."))
    else if t.users[actor].isCoach && t.programs[programId].createdBy != Some(actor) then
      Err(Forbidden("You can only assign your own programs."))
    else Ok(())
  }

  /** The checks of a given coach-service request, in code order: it exists,
      belongs to the client, is for a service of the actor (a request whose
      service was deleted has no `service.coach`: AttributeError), is paid, and
      is not yet linked to an assignment. */
  function RequestCheck(t: Tables, actor: Id, clientId: Id, requestId: Id): (r: Result<()>)
    requires RequestsLinked(t)
    ensures r.Ok? <==> (requestId in t.requests && t.requests[requestId].client == Some(clientId) &&
      t.requests[requestId].service.Some? && t.services[t.requests[requestId].service.value].coach == actor &&
      t.requests[requestId].status == Paid && !Fulfilled(t.assignments, requestId))
    ensures requestId !in t.requests ==> r == Err(NotFound("Coach service request not found."))
    ensures requestId in t.requests && t.requests[requestId].client != Some(clientId) ==>
      r == Err(Forbidden("Request does not belong to this client."))
    ensures (requestId in t.requests && t.requests[requestId].client == Some(clientId) &&
             t.requests[requestId].service.None?) ==> r == Err(AttributeError)
    ensures requestId in t.requests && t.requests[requestId].client == Some(clientId) &&
            t.requests[requestId].service.Some? && t.services[t.requests[requestId].service.value].coach != actor ==>
      r == Err(Forbidden("You are not assigned to this request."))
    ensures requestId in t.requests && t.requests[requestId].client == Some(clientId) &&
            t.requests[requestId].service.Some? && t.services[t.requests[requestId].service.value].coach == actor &&
            t.requests[requestId].status != Paid ==>
      r == Err(Forbidden("Service request must be paid before assignment."))
    ensures requestId in t.requests && t.requests[requestId].client == Some(clientId) &&
            t.requests[requestId].service.Some? && t.services[t.requests[requestId].service.value].coach == actor &&
            t.requests[requestId].status == Paid && Fulfilled(t.assignments, requestId) ==>
      r == Err(BadRequest("This service request has already been fulfilled."))
  {
    if requestId !in t.requests then Err(NotFound("Coach service request not found."))
    else
      var req := t.requests[requestId];
      if req.client != Some(clientId) then Err(Forbidden("Request does not belong to this client."))
      else if req.service.None? then Err(AttributeError)
      else if t.services[req.service.value].coach != actor then Err(Forbidden("You are not assigned to this request."))
      else if req.status != Paid then Err(Forbidden("Service request must be paid before assignment."))
      else if Fulfilled(t.assignments, requestId) then Err(BadRequest("This service request has already been fulfilled."))
      else Ok(())
  }

  /** `ProgramAssignment.objects.filter(client=..., program=...).first()`: the
      newest row of the pair (`-assigned_at`; among rows assigned at the same
      moment, the one with the smallest key). */
  function Newest(t: Tables, clientId: Id, programId: Id): (r: Option<Id>)
    requires Below(t.assignments.Keys, t.nextId)
    ensures r.None? <==> PairRows(t.assignments, clientId, programId) == {}
    ensures r.Some? ==> r.value in PairRows(t.assignments, clientId, programId)
    ensures r.Some? ==> forall a :: a in PairRows(t.assignments, clientId, programId) ==>
      t.assignments[a].assignedAt <= t.assignments[r.value].assignedAt
  {
    var pair := PairRows(t.assignments, clientId, programId);
    var r := First(pair, t.nextId, AssignmentOrder(t.assignments));
    assert r.Some? ==> forall a :: a in pair ==> KeyLe(AssignmentOrder(t.assignments)(r.value), AssignmentOrder(t.assignments)(a));
    r
  }

  /** What a successful assignment does to the assignment table. */
  datatype AssignPlan = Reactivate(id: Id) | Create

  /** The existing-assignment check: an active newest row is refused; an
      inactive one is reactivated, which the partial unique constraint refuses
      when an older row of the pair is active (IntegrityError); with no row of
      the pair a new one is created. */
  function ExistingCheck(t: Tables, clientId: Id, programId: Id): (r: Result<AssignPlan>)
    requires Below(t.assignments.Keys, t.nextId)
    ensures r.Ok? <==> ActiveRows(t.assignments, clientId, programId) == {}
    ensures r == Ok(Create) <==> PairRows(t.assignments, clientId, programId) == {}
    ensures r.Ok? && r.value.Reactivate? ==> Newest(t, clientId, programId) == Some(r.value.id)
    ensures Newest(t, clientId, programId).Some? && t.assignments[Newest(t, clientId, programId).value].isActive ==>
      r == Err(BadRequest("This program is already assigned."))
    ensures r.Err? ==> r.error == BadRequest("This program is already assigned.") || r.error == IntegrityError
  {
    match Newest(t, clientId, programId)
    case None => Ok(Create)
    case Some(a) =>
      if t.assignments[a].isActive then
        assert a in ActiveRows(t.assignments, clientId, programId);
        Err(BadRequest("This program is already assigned."))
      else if ActiveRows(t.assignments, clientId, programId) != {} then Err(IntegrityError)
      else Ok(Reactivate(a))
  }

  /** Every check of `assign_program`, in code order; the request checks only
      when a request is given. */
  function AssignCheck(t: Tables, actor: Id, clientId: Id, programId: Id, requestId: Option<Id>): (r: Result<AssignPlan>)
    requires actor in t.users && RequestsLinked(t) && Below(t.assignments.Keys, t.nextId)
    ensures r.Ok? <==> (TargetCheck(t, actor, clientId, programId).Ok? &&
      (requestId.Some? ==> RequestCheck(t, actor, clientId, requestId.value).Ok?) &&
      ExistingCheck(t, clientId, programId).Ok?)
    ensures TargetCheck(t, actor, clientId, programId).Err? ==> r == Err(TargetCheck(t, actor, clientId, programId).error)
    ensures TargetCheck(t, actor, clientId, programId).Ok? && requestId.Some? &&
            RequestCheck(t, actor, clientId, requestId.value).Err? ==>
      r == Err(RequestCheck(t, actor, clientId, requestId.value).error)
    ensures r.Ok? ==> r == ExistingCheck(t, clientId, programId)
    ensures r.Ok? && r.value.Reactivate? ==> r.value.id in t.assignments
    ensures r.Ok? && requestId.Some? ==> requestId.value in t.requests
  {
    var target := TargetCheck(t, actor, clientId, programId);
    if target.Err? then Err(target.error)
    else if requestId.Some? && RequestCheck(t, actor, clientId, requestId.value).Err? then
      Err(RequestCheck(t, actor, clientId, requestId.value).error)
    else ExistingCheck(t, clientId, programId)
  }

  /** The row a successful plan writes: the reactivated row (active, coached by
      the actor, linked to the given request or to none) or a new active row. */
  function PlacedRow(assignments: map<Id, Assignment>, actor: Id, clientId: Id, programId: Id, requestId: Option<Id>,
                     plan: AssignPlan, now: Timestamp): (x: Assignment)
    requires plan.Reactivate? ==> plan.id in assignments
    ensures x.isActive && x.coach == Some(actor) && x.request == requestId
    ensures plan.Create? ==> x == NewAssignment(clientId, programId, Some(actor), requestId, now)
  {
    match plan
    case Reactivate(a) => assignments[a].(isActive := true, coach := Some(actor), request := requestId)
    case Create => NewAssignment(clientId, programId, Some(actor), requestId, now)
  }

  /** The key of the row a plan writes. */
  function RowKey(t: Tables, plan: AssignPlan): Id {
    if plan.Reactivate? then plan.id else t.nextId
  }

  /** The key of the audit entry written after the row. */
  function EntryKey(t: Tables, plan: AssignPlan): Id {
    if plan.Reactivate? then t.nextId else t.nextId + 1
  }

  /** The requests once the consumed one, if any, is completed. */
  function CompletedRequests(requests: map<Id, ServiceRequest>, requestId: Option<Id>): map<Id, ServiceRequest>
    requires requestId.Some? ==> requestId.value in requests
  {
    if requestId.Some? then requests[requestId.value := requests[requestId.value].(status := Completed)] else requests
  }

  /** The action the log records: a reactivation is a reassignment. */
  function AuditAction(plan: AssignPlan): Action {
    if plan.Reactivate? then REASSIGNED else ASSIGNED
  }

  /** The tables once the row of a plan is written. */
  function Placed(t: Tables, actor: Id, clientId: Id, programId: Id, requestId: Option<Id>, plan: AssignPlan,
                  now: Timestamp): Tables
    requires plan.Reactivate? ==> plan.id in t.assignments
  {
    t.(assignments := t.assignments[RowKey(t, plan) := PlacedRow(t.assignments, actor, clientId, programId, requestId, plan, now)],
       nextId := EntryKey(t, plan))
  }

  /** The tables once the consumed request, if any, is completed. */
  function WithCompleted(t: Tables, requestId: Option<Id>): Tables
    requires requestId.Some? ==> requestId.value in t.requests
  {
    t.(requests := CompletedRequests(t.requests, requestId))
  }

  /** The tables once `entry` is appended to the log under the next key. */
  function Logged(t: Tables, entry: AuditEntry): Tables {
    t.(audits := t.audits[t.nextId := entry], nextId := t.nextId + 1)
  }

  /** The tables after a successful plan whose audit entry records `action`. */
  function Applied(t: Tables, actor: Id, clientId: Id, programId: Id, requestId: Option<Id>, plan: AssignPlan,
                   action: Action, now: Timestamp): Tables
    requires plan.Reactivate? ==> plan.id in t.assignments
    requires requestId.Some? ==> requestId.value in t.requests
  {
    var placed := Placed(t, actor, clientId, programId, requestId, plan, now);
    Logged(WithCompleted(placed, requestId),
      AuditEntry(Some(actor), Some(clientId), Some(programId), Some(RowKey(t, plan)), action, map[], now))
  }

  /** `assign_program` as intended: the checks, then the reactivated or new row,
      then the completion of the consumed request through
      `complete_request(actor=..., request_id=...)`, then one audit entry that
      says ASSIGNED for a new row and REASSIGNED for a reactivated one. */
  function Assign(t: Tables, actor: Id, clientId: Id, programId: Id, requestId: Option<Id>, now: Timestamp): (Result<Id>, Tables)
    requires actor in t.users && RequestsLinked(t) && Below(t.assignments.Keys, t.nextId)
  {
    match AssignCheck(t, actor, clientId, programId, requestId)
    case Err(e) => (Err(e), t)
    case Ok(plan) => (Ok(RowKey(t, plan)), Applied(t, actor, clientId, programId, requestId, plan, AuditAction(plan), now))
  }

  /** The signature of `complete_request`, and the keywords `assign_program`
      calls it with. */
  const CompleteRequestSignature := Signature({"actor", "request_id"}, {})
  const CompleteRequestKwargs: set<string> := {"request_obj", "actor"}

  /** `assign_program` as written: the call to `complete_request` does not bind
      (TypeError), which inside the atomic block undoes every write; without a
      request the entry always says ASSIGNED. */
  function AssignAsWritten(t: Tables, actor: Id, clientId: Id, programId: Id, requestId: Option<Id>, now: Timestamp): (Result<Id>, Tables)
    requires actor in t.users && RequestsLinked(t) && Below(t.assignments.Keys, t.nextId)
  {
    match AssignCheck(t, actor, clientId, programId, requestId)
    case Err(e) => (Err(e), t)
    case Ok(plan) =>
      var call := BindKeywords(CompleteRequestSignature, CompleteRequestKwargs);
      if requestId.Some? && call.Err? then (Err(call.error), t)
      else (Ok(RowKey(t, plan)), Applied(t, actor, clientId, programId, requestId, plan, ASSIGNED, now))
  }

  /** A failed assignment changes nothing. */
  lemma AssignFailsCleanly(t: Tables, actor: Id, clientId: Id, programId: Id, requestId: Option<Id>, now: Timestamp)
    requires actor in t.users && RequestsLinked(t) && Below(t.assignments.Keys, t.nextId)
    ensures Assign(t, actor, clientId, programId, requestId, now).0.Err? <==>
      AssignCheck(t, actor, clientId, programId, requestId).Err?
    ensures Assign(t, actor, clientId, programId, requestId, now).0.Err? ==>
      Assign(t, actor, clientId, programId, requestId, now).1 == t
  {
  }

  /** A successful assignment leaves exactly one active row for the pair, which
      is the returned row: the newest existing row of the pair when there was
      one, else a new row under a fresh key; it is coached by the actor and
      linked to the given request. Every other assignment row stays as it was,
      one audit entry is appended under a fresh key and no entry is edited, a
      consumed request becomes completed, and no other table changes. */
  lemma AssignOutcome(t: Tables, actor: Id, clientId: Id, programId: Id, requestId: Option<Id>, now: Timestamp)
    requires actor in t.users && RequestsLinked(t) && Below(t.assignments.Keys, t.nextId) && Below(t.audits.Keys, t.nextId)
    requires AssignCheck(t, actor, clientId, programId, requestId).Ok?
    ensures var (r, t1) := Assign(t, actor, clientId, programId, requestId, now);
      r.Ok? && ActiveRows(t1.assignments, clientId, programId) == {r.value}
    ensures var (r, t1) := Assign(t, actor, clientId, programId, requestId, now);
      if PairRows(t.assignments, clientId, programId) == {} then r.value == t.nextId && r.value !in t.assignments
      else Newest(t, clientId, programId) == Some(r.value)
    ensures var (r, t1) := Assign(t, actor, clientId, programId, requestId, now);
      t1.assignments[r.value].coach == Some(actor) && t1.assignments[r.value].request == requestId
    ensures var (r, t1) := Assign(t, actor, clientId, programId, requestId, now);
      t1.assignments.Keys == t.assignments.Keys + {r.value} &&
      forall a :: a in t.assignments && a != r.value ==> t1.assignments[a] == t.assignments[a]
    ensures var (r, t1) := Assign(t, actor, clientId, programId, requestId, now);
      var k := if r.value in t.assignments then t.nextId else t.nextId + 1;
      k !in t.audits && t1.audits == t.audits[k := AuditEntry(Some(actor), Some(clientId), Some(programId),
        Some(r.value), if r.value in t.assignments then REASSIGNED else ASSIGNED, map[], now)]
    ensures var (r, t1) := Assign(t, actor, clientId, programId, requestId, now);
      if requestId.Some? then t1.requests == t.requests[requestId.value := t.requests[requestId.value].(status := Completed)]
      else t1.requests == t.requests
    ensures var (r, t1) := Assign(t, actor, clientId, programId, requestId, now);
      t1.(assignments := t.assignments, audits := t.audits, requests := t.requests, nextId := t.nextId) == t
  {
    var plan := AssignCheck(t, actor, clientId, programId, requestId).value;
    PlanFits(t, actor, clientId, programId, requestId, plan, now);
    assert Assign(t, actor, clientId, programId, requestId, now) ==
      (Ok(RowKey(t, plan)), Applied(t, actor, clientId, programId, requestId, plan, AuditAction(plan), now));
    AppliedRows(t, actor, clientId, programId, requestId, plan, now);
    AppliedFrame(t, actor, clientId, programId, requestId, plan, now);
  }

  /** The assignment table after a plan: one active row for the pair, the
      written one, and every other row as it was. */
  lemma AppliedRows(t: Tables, actor: Id, clientId: Id, programId: Id, requestId: Option<Id>, plan: AssignPlan, now: Timestamp)
    requires plan.Reactivate? ==> plan.id in PairRows(t.assignments, clientId, programId)
    requires ActiveRows(t.assignments, clientId, programId) == {}
    requires requestId.Some? ==> requestId.value in t.requests
    requires Below(t.assignments.Keys, t.nextId)
    ensures var t1 := Applied(t, actor, clientId, programId, requestId, plan, AuditAction(plan), now);
      var id := RowKey(t, plan);
      ActiveRows(t1.assignments, clientId, programId) == {id} &&
      t1.assignments[id].coach == Some(actor) && t1.assignments[id].request == requestId &&
      t1.assignments.Keys == t.assignments.Keys + {id} &&
      (forall a :: a in t.assignments && a != id ==> t1.assignments[a] == t.assignments[a]) &&
      (plan.Reactivate? <==> id in t.assignments)
  {
    var t1 := Applied(t, actor, clientId, programId, requestId, plan, AuditAction(plan), now);
    var id := RowKey(t, plan);
    assert t1.assignments == t.assignments[id := PlacedRow(t.assignments, actor, clientId, programId, requestId, plan, now)];
    assert id in ActiveRows(t1.assignments, clientId, programId);
    forall a | a in t1.assignments && a != id ensures a !in ActiveRows(t1.assignments, clientId, programId) {
      assert t1.assignments[a] == t.assignments[a];
      assert a !in ActiveRows(t.assignments, clientId, programId);
    }
  }

  /** The rest of the tables after a plan: one audit entry appended under a
      fresh key, the consumed request completed, nothing else changed. */
  lemma AppliedFrame(t: Tables, actor: Id, clientId: Id, programId: Id, requestId: Option<Id>, plan: AssignPlan, now: Timestamp)
    requires plan.Reactivate? ==> plan.id in t.assignments
    requires requestId.Some? ==> requestId.value in t.requests
    requires Below(t.audits.Keys, t.nextId)
    ensures var t1 := Applied(t, actor, clientId, programId, requestId, plan, AuditAction(plan), now);
      var k := EntryKey(t, plan);
      k !in t.audits &&
      t1.audits == t.audits[k := AuditEntry(Some(actor), Some(clientId), Some(programId), Some(RowKey(t, plan)), AuditAction(plan), map[], now)] &&
      t1.requests == CompletedRequests(t.requests, requestId) &&
      t1.(assignments := t.assignments, audits := t.audits, requests := t.requests, nextId := t.nextId) == t
  {
  }

  /** The row a passed check writes fits the assignment table, and keeps the
      pair it was found under. */
  lemma PlanFits(t: Tables, actor: Id, clientId: Id, programId: Id, requestId: Option<Id>, plan: AssignPlan, now: Timestamp)
    requires actor in t.users && RequestsLinked(t) && Below(t.assignments.Keys, t.nextId)
    requires AssignCheck(t, actor, clientId, programId, requestId) == Ok(plan)
    ensures plan.Reactivate? ==> plan.id in t.assignments
    ensures var x := PlacedRow(t.assignments, actor, clientId, programId, requestId, plan, now);
      x.client == clientId && x.program == programId && AssignmentFits(t, RowKey(t, plan), x)
    ensures requestId.Some? ==> CoachRequestService.CoachActionCheck(t, actor, requestId.value, "complete", true).Ok?
    ensures ActiveRows(t.assignments, clientId, programId) == {}
    ensures plan.Create? <==> PairRows(t.assignments, clientId, programId) == {}
    ensures plan.Reactivate? ==> Newest(t, clientId, programId) == Some(plan.id) && plan.id in PairRows(t.assignments, clientId, programId)
  {
    assert ActiveRows(t.assignments, clientId, programId) == {};
    var x := PlacedRow(t.assignments, actor, clientId, programId, requestId, plan, now);
    if plan.Reactivate? {
      assert plan.id in PairRows(t.assignments, clientId, programId);
    }
    forall a | a in t.assignments && a != RowKey(t, plan) && t.assignments[a].isActive
      ensures t.assignments[a].client != x.client || t.assignments[a].program != x.program
    {
      assert a !in ActiveRows(t.assignments, clientId, programId);
    }
    if requestId.Some? {
      assert !Fulfilled(t.assignments, requestId.value);
    }
  }

  /** Assigning keeps every integrity constraint of the store. */
  lemma AssignKeepsInvariant(t: Tables, actor: Id, clientId: Id, programId: Id, requestId: Option<Id>, now: Timestamp)
    requires actor in t.users && Invariant(t)
    ensures Invariant(Assign(t, actor, clientId, programId, requestId, now).1)
  {
    var c := AssignCheck(t, actor, clientId, programId, requestId);
    if c.Ok? {
      PlanFits(t, actor, clientId, programId, requestId, c.value, now);
      AppliedKeepsInvariant(t, actor, clientId, programId, requestId, c.value, AuditAction(c.value), now);
    }
  }

  /** Writing a fitting row, completing an existing request and appending an
      audit entry keep every integrity constraint of the store. */
  lemma AppliedKeepsInvariant(t: Tables, actor: Id, clientId: Id, programId: Id, requestId: Option<Id>, plan: AssignPlan,
                              action: Action, now: Timestamp)
    requires Invariant(t)
    requires plan.Reactivate? ==> plan.id in t.assignments
    requires requestId.Some? ==> requestId.value in t.requests
    requires AssignmentFits(t, RowKey(t, plan), PlacedRow(t.assignments, actor, clientId, programId, requestId, plan, now))
    ensures Invariant(Applied(t, actor, clientId, programId, requestId, plan, action, now))
  {
    var placed := Placed(t, actor, clientId, programId, requestId, plan, now);
    PlacedKeepsInvariant(t, actor, clientId, programId, requestId, plan, now);
    WithCompletedKeepsInvariant(placed, requestId);
    LoggedKeepsInvariant(WithCompleted(placed, requestId),
      AuditEntry(Some(actor), Some(clientId), Some(programId), Some(RowKey(t, plan)), action, map[], now));
  }

  /** Completing an existing request keeps every integrity constraint. */
  lemma WithCompletedKeepsInvariant(t: Tables, requestId: Option<Id>)
    requires Invariant(t) && (requestId.Some? ==> requestId.value in t.requests)
    ensures Invariant(WithCompleted(t, requestId))
  {
    if requestId.Some? {
      SaveRequestKeepsInvariant(t, requestId.value, t.requests[requestId.value].(status := Completed));
    }
  }

  /** Appending an audit entry keeps every integrity constraint. */
  lemma LoggedKeepsInvariant(t: Tables, entry: AuditEntry)
    requires Invariant(t)
    ensures Invariant(Logged(t, entry))
  {
    AddAuditKeepsInvariant(t, entry);
  }

  /** Writing a fitting row keeps every integrity constraint of the store. */
  lemma PlacedKeepsInvariant(t: Tables, actor: Id, clientId: Id, programId: Id, requestId: Option<Id>, plan: AssignPlan,
                             now: Timestamp)
    requires Invariant(t)
    requires plan.Reactivate? ==> plan.id in t.assignments
    requires AssignmentFits(t, RowKey(t, plan), PlacedRow(t.assignments, actor, clientId, programId, requestId, plan, now))
    ensures Invariant(Placed(t, actor, clientId, programId, requestId, plan, now))
  {
    var x := PlacedRow(t.assignments, actor, clientId, programId, requestId, plan, now);
    if plan.Reactivate? {
      SaveAssignmentKeepsInvariant(t, plan.id, x);
    } else {
      AddAssignmentKeepsInvariant(t, x);
    }
  }

  /** The assigning method of the store: performs exactly `Assign`. */
  method AssignProgram(db: Db, actor: Id, clientId: Id, programId: Id, requestId: Option<Id>, now: Timestamp)
    returns (r: Result<Id>)
    requires Invariant(db.T()) && actor in db.users
    modifies db
    ensures (r, db.T()) == Assign(old(db.T()), actor, clientId, programId, requestId, now)
    ensures Invariant(db.T())
  {
    var c := AssignCheck(db.T(), actor, clientId, programId, requestId);
    if c.Err? {
      return Err(c.error);
    }
    PlanFits(db.T(), actor, clientId, programId, requestId, c.value, now);
    var id := ApplyPlan(db, actor, clientId, programId, requestId, c.value, now);
    r := Ok(id);
  }

  /** Carries out a plan that passed the checks: writes the row, completes the
      consumed request through `complete_request`, and logs the action. */
  method ApplyPlan(db: Db, actor: Id, clientId: Id, programId: Id, requestId: Option<Id>, plan: AssignPlan, now: Timestamp)
    returns (id: Id)
    requires Invariant(db.T())
    requires plan.Reactivate? ==> plan.id in db.assignments
    requires AssignmentFits(db.T(), RowKey(db.T(), plan), PlacedRow(db.assignments, actor, clientId, programId, requestId, plan, now))
    requires requestId.Some? ==> CoachRequestService.CoachActionCheck(db.T(), actor, requestId.value, "complete", true).Ok?
    modifies db
    ensures id == RowKey(old(db.T()), plan)
    ensures db.T() == Applied(old(db.T()), actor, clientId, programId, requestId, plan, AuditAction(plan), now)
    ensures Invariant(db.T())
  {
    ghost var t0 := db.T();
    id := PlaceRow(db, actor, clientId, programId, requestId, plan, now);
    if requestId.Some? {
      assert CoachRequestService.CoachActionCheck(db.T(), actor, requestId.value, "complete", true) ==
        CoachRequestService.CoachActionCheck(t0, actor, requestId.value, "complete", true);
      var done := CoachRequestService.CompleteRequest(db, actor, requestId.value);
    }
    assert db.T() == WithCompleted(Placed(t0, actor, clientId, programId, requestId, plan, now), requestId);
    var entry := AuditLogger.Log(db, Some(actor), Some(clientId), Some(programId), Some(id), AuditAction(plan), None, now);
  }

  /** Writes the row of a plan: saves the reactivated row or creates the new one. */
  method PlaceRow(db: Db, actor: Id, clientId: Id, programId: Id, requestId: Option<Id>, plan: AssignPlan, now: Timestamp)
    returns (id: Id)
    requires Invariant(db.T())
    requires plan.Reactivate? ==> plan.id in db.assignments
    requires AssignmentFits(db.T(), RowKey(db.T(), plan), PlacedRow(db.assignments, actor, clientId, programId, requestId, plan, now))
    modifies db
    ensures id == RowKey(old(db.T()), plan)
    ensures db.T() == Placed(old(db.T()), actor, clientId, programId, requestId, plan, now)
    ensures Invariant(db.T())
  {
    var x := PlacedRow(db.assignments, actor, clientId, programId, requestId, plan, now);
    if plan.Reactivate? {
      id := plan.id;
      SaveAssignment(db, id, x);
    } else {
      id := AddAssignment(db, x);
    }
  }

  /** Saves an existing assignment that fits. */
  method SaveAssignment(db: Db, id: Id, x: Assignment)
    requires Invariant(db.T()) && id in db.assignments && AssignmentFits(db.T(), id, x)
    modifies db
    ensures db.T() == old(db.T()).(assignments := old(db.assignments)[id := x])
    ensures Invariant(db.T())
  {
    SaveAssignmentKeepsInvariant(db.T(), id, x);
    db.assignments := db.assignments[id := x];
  }

  /** Creates an assignment that fits under a fresh key. */
  method AddAssignment(db: Db, x: Assignment) returns (id: Id)
    requires Invariant(db.T()) && AssignmentFits(db.T(), db.nextId, x)
    modifies db
    ensures id == old(db.nextId)
    ensures db.T() == old(db.T()).(assignments := old(db.assignments)[id := x], nextId := id + 1)
    ensures Invariant(db.T())
  {
    AddAssignmentKeepsInvariant(db.T(), x);
    id := db.NewId();
    db.assignments := db.assignments[id := x];
  }

  /** As written, reactivating an assignment records ASSIGNED, where a
      reassignment is meant; the two outcomes differ in that entry alone. A new
      row is recorded as ASSIGNED by both. */
  lemma AuditActionAsWritten(t: Tables, actor: Id, clientId: Id, programId: Id, now: Timestamp)
    requires actor in t.users && RequestsLinked(t) && Below(t.assignments.Keys, t.nextId)
    requires AssignCheck(t, actor, clientId, programId, None).Ok?
    ensures var plan := AssignCheck(t, actor, clientId, programId, None).value;
      var written := AssignAsWritten(t, actor, clientId, programId, None, now);
      var intended := Assign(t, actor, clientId, programId, None, now);
      var k := EntryKey(t, plan);
      written.0 == intended.0 && k in written.1.audits && k in intended.1.audits &&
      written.1.audits[k].action == ASSIGNED &&
      intended.1.audits[k].action == (if plan.Reactivate? then REASSIGNED else ASSIGNED) &&
      written.1 == intended.1.(audits := intended.1.audits[k := intended.1.audits[k].(action := ASSIGNED)])
  {
    var plan := AssignCheck(t, actor, clientId, programId, None).value;
    assert AssignAsWritten(t, actor, clientId, programId, None, now) ==
      (Ok(RowKey(t, plan)), Applied(t, actor, clientId, programId, None, plan, ASSIGNED, now));
    assert Assign(t, actor, clientId, programId, None, now) ==
      (Ok(RowKey(t, plan)), Applied(t, actor, clientId, programId, None, plan, AuditAction(plan), now));
    AppliedDiffersInAction(t, actor, clientId, programId, None, plan, AuditAction(plan), ASSIGNED, now);
  }

  /** Two outcomes of the same plan that log different actions differ in the
      action of the appended entry alone. */
  lemma AppliedDiffersInAction(t: Tables, actor: Id, clientId: Id, programId: Id, requestId: Option<Id>, plan: AssignPlan,
                               a: Action, b: Action, now: Timestamp)
    requires plan.Reactivate? ==> plan.id in t.assignments
    requires requestId.Some? ==> requestId.value in t.requests
    ensures var x := Applied(t, actor, clientId, programId, requestId, plan, a, now);
      var k := EntryKey(t, plan);
      k in x.audits && x.audits[k].action == a &&
      Applied(t, actor, clientId, programId, requestId, plan, b, now) == x.(audits := x.audits[k := x.audits[k].(action := b)])
  {
    var x := Applied(t, actor, clientId, programId, requestId, plan, a, now);
    var y := Applied(t, actor, clientId, programId, requestId, plan, b, now);
    var k := EntryKey(t, plan);
    assert y.audits == x.audits[k := x.audits[k].(action := b)];
  }

  /** As written, `complete_request` is called with a `request_obj` keyword its
      signature `(actor, request_id)` lacks and without its `request_id`, so
      the call raises TypeError and the atomic block undoes the whole
      assignment. The intended call binds, and the assignment then succeeds
      and completes the request. */
  lemma CompleteRequestCallFails(t: Tables, actor: Id, clientId: Id, programId: Id, requestId: Id, now: Timestamp)
    requires actor in t.users && RequestsLinked(t) && Below(t.assignments.Keys, t.nextId)
    requires AssignCheck(t, actor, clientId, programId, Some(requestId)).Ok?
    ensures BindKeywords(CompleteRequestSignature, CompleteRequestKwargs) == Err(TypeError)
    ensures BindKeywords(CompleteRequestSignature, {"actor", "request_id"}) == Ok(())
    ensures AssignAsWritten(t, actor, clientId, programId, Some(requestId), now) == (Err(TypeError), t)
    ensures Assign(t, actor, clientId, programId, Some(requestId), now).0.Ok?
    ensures Assign(t, actor, clientId, programId, Some(requestId), now).1.requests[requestId].status == Completed
  {
    assert "request_obj" in CompleteRequestKwargs && "request_obj" !in CompleteRequestSignature.params;
  }

  // ------------------------------------------------------------------
  // unassign_program

  /** The checks of `unassign_program`: an active assignment, and one that is
      either without coach or coached by the actor. */
  function UnassignCheck(t: Tables, actor: Id, assignmentId: Id): (r: Result<()>)
    ensures r.Ok? <==> (assignmentId in t.assignments && t.assignments[assignmentId].isActive &&
      (t.assignments[assignmentId].coach.Some? ==> t.assignments[assignmentId].coach == Some(actor)))
    ensures !(assignmentId in t.assignments && t.assignments[assignmentId].isActive) ==>
      r == Err(NotFound("Assignment not found."))
    ensures assignmentId in t.assignments && t.assignments[assignmentId].isActive &&
            t.assignments[assignmentId].coach.Some? && t.assignments[assignmentId].coach != Some(actor) ==>
      r == Err(Forbidden("You are not allowed to unassign this program."))
  {
    if assignmentId !in t.assignments || !t.assignments[assignmentId].isActive then Err(NotFound("Assignment not found."))
    else if t.assignments[assignmentId].coach.Some? && t.assignments[assignmentId].coach != Some(actor) then
      Err(Forbidden("You are not allowed to unassign this program."))
    else Ok(())
  }

  /** `unassign_program`: the row is deactivated in place and one UNASSIGNED
      entry is appended. Deactivating never violates the partial unique
      constraint, so the IntegrityError handler of the save is never entered
      (`UnassignKeepsInvariant`). */
  function Unassign(t: Tables, actor: Id, assignmentId: Id, now: Timestamp): (Result<Id>, Tables) {
    match UnassignCheck(t, actor, assignmentId)
    case Err(e) => (Err(e), t)
    case Ok(_) =>
      var a := t.assignments[assignmentId];
      (Ok(assignmentId), t.(assignments := t.assignments[assignmentId := a.(isActive := false)],
        audits := t.audits[t.nextId := AuditEntry(Some(actor), Some(a.client), Some(a.program), Some(assignmentId), UNASSIGNED, map[], now)],
        nextId := t.nextId + 1))
  }

  /** A failed unassignment changes nothing. A successful one leaves the row in
      place with only `is_active` cleared, so that its pair has no active row
      left; every other row stays, one UNASSIGNED entry naming the row's client
      and program is appended, and no other table changes. */
  lemma UnassignOutcome(t: Tables, actor: Id, assignmentId: Id, now: Timestamp)
    requires Invariant(t)
    ensures var (r, t1) := Unassign(t, actor, assignmentId, now);
      (r.Err? <==> UnassignCheck(t, actor, assignmentId).Err?) &&
      (r.Err? ==> t1 == t) &&
      (r.Ok? ==>
        r.value == assignmentId && assignmentId in t1.assignments &&
        t1.assignments[assignmentId] == t.assignments[assignmentId].(isActive := false) &&
        ActiveRows(t1.assignments, t.assignments[assignmentId].client, t.assignments[assignmentId].program) == {} &&
        (forall a :: a in t.assignments && a != assignmentId ==> a in t1.assignments && t1.assignments[a] == t.assignments[a]) &&
        t1.assignments.Keys == t.assignments.Keys &&
        t.nextId !in t.audits &&
        t1.audits == t.audits[t.nextId := AuditEntry(Some(actor), Some(t.assignments[assignmentId].client),
          Some(t.assignments[assignmentId].program), Some(assignmentId), UNASSIGNED, map[], now)] &&
        t1.(assignments := t.assignments, audits := t.audits, nextId := t.nextId) == t)
  {
    if UnassignCheck(t, actor, assignmentId).Ok? {
      var x := t.assignments[assignmentId];
      var t1 := Unassign(t, actor, assignmentId, now).1;
      forall a | a in t1.assignments && a != assignmentId && t1.assignments[a].isActive
        ensures t1.assignments[a].client != x.client || t1.assignments[a].program != x.program
      {
        assert t1.assignments[a] == t.assignments[a];
      }
    }
  }

  /** Unassigning keeps every integrity constraint of the store. */
  lemma UnassignKeepsInvariant(t: Tables, actor: Id, assignmentId: Id, now: Timestamp)
    requires Invariant(t)
    ensures Invariant(Unassign(t, actor, assignmentId, now).1)
  {
    if UnassignCheck(t, actor, assignmentId).Ok? {
      var a := t.assignments[assignmentId];
      var t1 := t.(assignments := t.assignments[assignmentId := a.(isActive := false)]);
      var entry := AuditEntry(Some(actor), Some(a.client), Some(a.program), Some(assignmentId), UNASSIGNED, map[], now);
      DeactivatedFits(t, assignmentId);
      SaveAssignmentKeepsInvariant(t, assignmentId, a.(isActive := false));
      AddAuditKeepsInvariant(t1, entry);
      assert Unassign(t, actor, assignmentId, now).1 == t1.(audits := t1.audits[t1.nextId := entry], nextId := t1.nextId + 1);
    }
  }

  /** The unassigning method of the store: performs exactly `Unassign`. */
  method UnassignProgram(db: Db, actor: Id, assignmentId: Id, now: Timestamp) returns (r: Result<Id>)
    requires Invariant(db.T())
    modifies db
    ensures (r, db.T()) == Unassign(old(db.T()), actor, assignmentId, now)
    ensures Invariant(db.T())
  {
    UnassignKeepsInvariant(db.T(), actor, assignmentId, now);
    var c := UnassignCheck(db.T(), actor, assignmentId);
    if c.Err? {
      return Err(c.error);
    }
    var a := db.assignments[assignmentId];
    db.assignments := db.assignments[assignmentId := a.(isActive := false)];
    var entry := AuditLogger.Log(db, Some(actor), Some(a.client), Some(a.program), Some(assignmentId), UNASSIGNED, None, now);
    r := Ok(assignmentId);
  }

  // ------------------------------------------------------------------
  // get_assignment_history

  /** The query filters: `is_active` as its text, `program_id` when given and
      truthy, and the two dates as given. */
  datatype HistoryFilters = HistoryFilters(
    isActive: Option<string>,
    programId: Option<Id>,
    fromDate: Option<string>,
    toDate: Option<string>)

  /** `parse_date(x) if x else None`; `parseDate` is Django's `parse_date`. */
  function ParsedDate(text: Option<string>, parseDate: string -> Option<Date>): (r: Option<Date>)
    ensures text.None? || text.value == "" ==> r.None?
  {
    if text.Some? && text.value != "" then parseDate(text.value) else None
  }

  /** A row passes the filters: `is_active` equal to whether the text lowercases
      to "true", the given program, and an assignment date within the parsed
      bounds, both inclusive. */
  predicate Matches(x: Assignment, f: HistoryFilters, parseDate: string -> Option<Date>) {
    (f.isActive.Some? ==> x.isActive == (Lower(f.isActive.value) == "true")) &&
    (f.programId.Some? ==> x.program == f.programId.value) &&
    (ParsedDate(f.fromDate, parseDate).Some? ==> DateOf(x.assignedAt) >= ParsedDate(f.fromDate, parseDate).value) &&
    (ParsedDate(f.toDate, parseDate).Some? ==> DateOf(x.assignedAt) <= ParsedDate(f.toDate, parseDate).value)
  }

  /** An active coach-to-client link. */
  predicate ActiveLink(links: map<Id, CoachClient>, coach: Id, client: Id) {
    exists l :: l in links && links[l].coach == coach && links[l].client == client && links[l].isActive
  }

  /** Access to a client's history: the client sees all of it; otherwise a coach
      needs an active link and sees only the rows they coach (`Ok(Some(coach))`);
      otherwise a gym owner or staff member sees all; anyone else is refused. */
  function HistoryScope(t: Tables, actor: Id, clientId: Id): (r: Result<Option<Id>>)
    requires actor in t.users
    ensures r.Ok? <==> (actor == clientId || (t.users[actor].isCoach && ActiveLink(t.coachClients, actor, clientId)) ||
      (!t.users[actor].isCoach && (t.users[actor].isGymOwner || t.users[actor].isStaff)))
    ensures r.Ok? && r.value.Some? <==> actor != clientId && t.users[actor].isCoach && ActiveLink(t.coachClients, actor, clientId)
    ensures r.Ok? && r.value.Some? ==> r.value.value == actor
    ensures actor != clientId && t.users[actor].isCoach && !ActiveLink(t.coachClients, actor, clientId) ==>
      r == Err(Forbidden("You are not allowed to view this client's assignment history."))
    ensures actor != clientId && !t.users[actor].isCoach && !t.users[actor].isGymOwner && !t.users[actor].isStaff ==>
      r == Err(Forbidden("You are not allowed to access this resource."))
  {
    if actor == clientId then Ok(None)
    else if t.users[actor].isCoach then
      if ActiveLink(t.coachClients, actor, clientId) then Ok(Some(actor))
      else Err(Forbidden("You are not allowed to view this client's assignment history."))
    else if t.users[actor].isGymOwner || t.users[actor].isStaff then Ok(None)
    else Err(Forbidden("You are not allowed to access this resource."))
  }

  /** The client's rows that pass the filters, restricted to one coach's rows
      when a coach is given. */
  function Visible(t: Tables, clientId: Id, coach: Option<Id>, f: HistoryFilters, parseDate: string -> Option<Date>): set<Id> {
    set a | a in t.assignments && t.assignments[a].client == clientId && Matches(t.assignments[a], f, parseDate) &&
      (coach.Some? ==> t.assignments[a].coach == coach)
  }

  /** `get_assignment_history`: the client's rows the actor may see that pass the
      filters, newest first, each once. */
  function History(t: Tables, actor: Id, clientId: Id, f: HistoryFilters, parseDate: string -> Option<Date>): (r: Result<seq<Id>>)
    requires actor in t.users && Below(t.assignments.Keys, t.nextId)
    ensures r.Err? <==> HistoryScope(t, actor, clientId).Err?
    ensures r.Err? ==> r.error == HistoryScope(t, actor, clientId).error
    ensures r.Ok? ==> forall a :: a in r.value <==>
      (a in t.assignments && t.assignments[a].client == clientId && Matches(t.assignments[a], f, parseDate) &&
       (HistoryScope(t, actor, clientId).value.Some? ==> t.assignments[a].coach == Some(actor)))
    ensures r.Ok? ==> NoDuplicates(r.value)
    ensures r.Ok? ==> forall i, j :: 0 <= i < j < |r.value| ==>
      t.assignments[r.value[i]].assignedAt >= t.assignments[r.value[j]].assignedAt
  {
    match HistoryScope(t, actor, clientId)
    case Err(e) => Err(e)
    case Ok(coach) =>
      Ok(NewestFirst(Visible(t, clientId, coach, f, parseDate), t.assignments, t.nextId))
  }

  /** A coach's view of a client is the part of the full view the coach
      coaches, and a coach without an active link sees nothing. */
  lemma CoachSeesOwnRows(t: Tables, coach: Id, owner: Id, clientId: Id, f: HistoryFilters, parseDate: string -> Option<Date>)
    requires coach in t.users && owner in t.users && Fresh(t)
    requires coach != clientId && t.users[coach].isCoach && ActiveLink(t.coachClients, coach, clientId)
    requires owner != clientId && !t.users[owner].isCoach && t.users[owner].isGymOwner
    ensures History(t, coach, clientId, f, parseDate).Ok? && History(t, owner, clientId, f, parseDate).Ok?
    ensures forall a :: a in History(t, coach, clientId, f, parseDate).value <==>
      a in History(t, owner, clientId, f, parseDate).value && t.assignments[a].coach == Some(coach)
  {
  }
}
