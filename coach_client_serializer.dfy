/** `CoachClientCreateSerializer` of apps/fitness/serializers/coach_client.py:
    the requesting user links a client to themselves as coach. */
module CoachClientSerializer {
  import opened Basics
  import opened Exceptions
  import opened AccountModels
  import opened CoachClientModel
  import opened Store

  /** `validate_client_id`: the requesting user's own id and an id with no user
      row are refused; any other id is returned unchanged. */
  function ValidateClientId(users: map<Id, User>, requester: Id, value: Id): (r: Result<Id>)
    ensures r.Ok? <==> value != requester && value in users
    ensures r.Ok? ==> r.value == value
    ensures value == requester ==> r == Err(ValidationError("You cannot add yourself as a client."))
    ensures value != requester && value !in users ==> r == Err(ValidationError("Client not found."))
  {
    if value == requester then Err(ValidationError("You cannot add yourself as a client."))
    else if value !in users then Err(ValidationError("Client not found."))
    else Ok(value)
  }

  /** `create`: the client is looked up again (DoesNotExist when it is gone), and
      the link is written with the requesting user as coach. `objects.create`
      runs no `clean`, so only the unique pair constraint can refuse it. */
  function CreateLink(t: Tables, requester: Id, clientId: Id, notes: string, now: Timestamp): (Result<Id>, Tables) {
    if clientId !in t.users then (Err(DoesNotExist), t)
    else if Linked(t.coachClients, requester, clientId) then (Err(IntegrityError), t)
    else (Ok(t.nextId), t.(coachClients := t.coachClients[t.nextId := NewCoachClient(requester, clientId, notes, now)], nextId := t.nextId + 1))
  }

  /** After a successful validation, creating fails only for a pair already
      linked, and a failure writes nothing. A success writes exactly one active
      link from the requesting user to the client with the given notes. */
  lemma CreateLinkOutcome(t: Tables, requester: Id, clientId: Id, notes: string, now: Timestamp)
    requires ValidateClientId(t.users, requester, clientId).Ok? && Below(t.coachClients.Keys, t.nextId)
    ensures var (r, t1) := CreateLink(t, requester, clientId, notes, now);
      (r.Ok? <==> !Linked(t.coachClients, requester, clientId)) &&
      (r.Err? ==> r == Err(IntegrityError) && t1 == t)
    ensures var (r, t1) := CreateLink(t, requester, clientId, notes, now);
      r.Ok? ==> (r.value !in t.coachClients && t1.coachClients.Keys == t.coachClients.Keys + {r.value} &&
        t1.coachClients[r.value].coach == requester && t1.coachClients[r.value].client == clientId &&
        t1.coachClients[r.value].notes == notes && t1.coachClients[r.value].isActive &&
        (forall l :: l in t.coachClients ==> t1.coachClients[l] == t.coachClients[l]) &&
        t1 == t.(coachClients := t1.coachClients, nextId := t1.nextId))
  {
  }

  /** The serializer never consults the model's `clean`: a requesting user who
      is not a coach still gets a link that `clean` would refuse. */
  lemma CreateSkipsClean(t: Tables, requester: Id, clientId: Id, notes: string, now: Timestamp)
    requires requester in t.users && !t.users[requester].isCoach
    requires ValidateClientId(t.users, requester, clientId).Ok? && !Linked(t.coachClients, requester, clientId)
    ensures var (r, t1) := CreateLink(t, requester, clientId, notes, now);
      r.Ok? && Clean(t.users[requester], t1.coachClients[r.value]).Err?
  {
  }

  lemma CreateLinkKeepsInvariant(t: Tables, requester: Id, clientId: Id, notes: string, now: Timestamp)
    requires Invariant(t)
    ensures Invariant(CreateLink(t, requester, clientId, notes, now).1)
  {
    if clientId in t.users && !Linked(t.coachClients, requester, clientId) {
      var x := NewCoachClient(requester, clientId, notes, now);
      assert CreateLink(t, requester, clientId, notes, now).1 == t.(coachClients := t.coachClients[t.nextId := x], nextId := t.nextId + 1);
      AddLinkKeepsInvariant(t, x);
    }
  }

  method CreateLinkIn(db: Db, requester: Id, clientId: Id, notes: string, now: Timestamp) returns (r: Result<Id>)
    requires Invariant(db.T())
    modifies db
    ensures (r, db.T()) == CreateLink(old(db.T()), requester, clientId, notes, now)
    ensures Invariant(db.T())
  {
    CreateLinkKeepsInvariant(db.T(), requester, clientId, notes, now);
    if clientId !in db.users {
      return Err(DoesNotExist);
    }
    if Linked(db.coachClients, requester, clientId) {
      return Err(IntegrityError);
    }
    var id := db.nextId;
    db.coachClients := db.coachClients[id := NewCoachClient(requester, clientId, notes, now)];
    db.nextId := db.nextId + 1;
    return Ok(id);
  }
}
