/** `WorkoutSessionService` of apps/fitness/services/workout_session_service.py:
    session CRUD gated on the session's (or the target program's) creator, and
    two queries with no access check at all. */
module WorkoutSessionService {
  import opened Basics
  import opened Exceptions
  import opened Ordering
  import opened WorkoutModels
  import opened Store

  // ------------------------------------------------------------------
  // create_session

  /** The session `create_session` writes: the given attributes over the field
      defaults, the program (if any) and the actor as creator, slug filled. */
  function NewSessionOf(program: Option<Id>, actor: Id, fields: SessionPatch, now: Timestamp, slugify: string -> string): (s: Session)
    ensures s.program == program && s.createdBy == Some(actor) && s.createdAt == now
    ensures s.title == fields.title.GetOr("") && s.weekNumber == fields.weekNumber.GetOr(1)
    ensures s.isPublic == fields.isPublic.GetOr(false) && s.isRestDay == fields.isRestDay.GetOr(false)
    ensures s.slug == slugify(s.title)
  {
    SaveSession(ApplySessionPatch(NewSession(program, Some(actor), now), fields), slugify)
  }

  /** `create_session`: with a `program_id`, Http404 when that program is missing
      and Forbidden unless the actor created it; the session is then written
      under the next key. */
  function CreateSession(t: Tables, actor: Id, programId: Option<Id>, fields: SessionPatch, now: Timestamp, slugify: string -> string): (Result<Id>, Tables) {
    if programId.Some? && programId.value !in t.programs then (Err(Http404), t)
    else if programId.Some? && t.programs[programId.value].createdBy != Some(actor) then
      (Err(Forbidden("You are not allowed to add sessions to this program.")), t)
    else
      (Ok(t.nextId), t.(sessions := t.sessions[t.nextId := NewSessionOf(programId, actor, fields, now, slugify)], nextId := t.nextId + 1))
  }

  /** Creation succeeds exactly when no program is named or the actor created
      the named one; a refusal writes nothing. On success exactly one session is
      added, under a fresh key, linked to the named program or to none. */
  lemma CreateSessionOutcome(t: Tables, actor: Id, programId: Option<Id>, fields: SessionPatch, now: Timestamp, slugify: string -> string)
    requires Below(t.sessions.Keys, t.nextId)
    ensures var (r, t1) := CreateSession(t, actor, programId, fields, now, slugify);
      (r.Ok? <==> programId.None? || (programId.value in t.programs && t.programs[programId.value].createdBy == Some(actor))) &&
      (r.Err? ==> t1 == t && (r == Err(Http404) <==> programId.Some? && programId.value !in t.programs))
    ensures var (r, t1) := CreateSession(t, actor, programId, fields, now, slugify);
      r.Ok? ==> (r.value !in t.sessions && t1.sessions.Keys == t.sessions.Keys + {r.value} &&
        (forall s :: s in t.sessions ==> t1.sessions[s] == t.sessions[s]) &&
        t1.sessions[r.value].program == programId && t1.sessions[r.value].createdBy == Some(actor) &&
        t1 == t.(sessions := t1.sessions, nextId := t1.nextId))
  {
  }

  lemma CreateSessionKeepsInvariant(t: Tables, actor: Id, programId: Option<Id>, fields: SessionPatch, now: Timestamp, slugify: string -> string)
    requires Invariant(t)
    ensures Invariant(CreateSession(t, actor, programId, fields, now, slugify).1)
  {
    if !(programId.Some? && programId.value !in t.programs) {
      AddSessionKeepsInvariant(t, NewSessionOf(programId, actor, fields, now, slugify));
    }
  }

  method CreateSessionIn(db: Db, actor: Id, programId: Option<Id>, fields: SessionPatch, now: Timestamp) returns (r: Result<Id>)
    requires Invariant(db.T())
    modifies db
    ensures (r, db.T()) == CreateSession(old(db.T()), actor, programId, fields, now, db.slugify)
    ensures Invariant(db.T())
  {
    CreateSessionKeepsInvariant(db.T(), actor, programId, fields, now, db.slugify);
    if programId.Some? {
      if programId.value !in db.programs {
        return Err(Http404);
      }
      if db.programs[programId.value].createdBy != Some(actor) {
        return Err(Forbidden("You are not allowed to add sessions to this program."));
      }
    }
    var id := db.nextId;
    db.sessions := db.sessions[id := NewSessionOf(programId, actor, fields, now, db.slugify)];
    db.nextId := db.nextId + 1;
    return Ok(id);
  }

  // ------------------------------------------------------------------
  // update_session

  /** The `setattr` loop of `update_session`: the given attributes, and the
      program link when a `program_id` is given. */
  function Patched(s: Session, fields: SessionPatch, programId: Option<Id>): (r: Session)
    ensures r.createdBy == s.createdBy && r.createdAt == s.createdAt && r.slug == s.slug && r.popularity == s.popularity
    ensures r.program == (if programId.Some? then programId else s.program)
    ensures fields == SessionPatch(None, None, None, None, None, None, None, None, None, None) && programId.None? ==> r == s
  {
    var p := ApplySessionPatch(s, fields);
    if programId.Some? then p.(program := programId) else p
  }

  /** `update_session`: Http404 for a missing session, Forbidden for anyone but
      its creator; then the attributes are set and the session saved. A
      `program_id` naming no program is refused by the foreign key at the save
      (IntegrityError, nothing written); the target program's owner is not
      checked. */
  function UpdateSession(t: Tables, actor: Id, sessionId: Id, fields: SessionPatch, programId: Option<Id>, slugify: string -> string): (Result<Session>, Tables) {
    if sessionId !in t.sessions then (Err(Http404), t)
    else if t.sessions[sessionId].createdBy != Some(actor) then (Err(Forbidden("You cannot edit this session.")), t)
    else if programId.Some? && programId.value !in t.programs then (Err(IntegrityError), t)
    else
      var s := SaveSession(Patched(t.sessions[sessionId], fields, programId), slugify);
      (Ok(s), t.(sessions := t.sessions[sessionId := s]))
  }

  /** Only the creator may edit, and a refusal changes nothing. On success only
      that session changes, and in it only the supplied attributes, the program
      link when one is given, and an empty slug. */
  lemma UpdateSessionOutcome(t: Tables, actor: Id, sessionId: Id, fields: SessionPatch, programId: Option<Id>, slugify: string -> string)
    ensures var (r, t1) := UpdateSession(t, actor, sessionId, fields, programId, slugify);
      (r.Ok? <==> (sessionId in t.sessions && t.sessions[sessionId].createdBy == Some(actor) &&
        (programId.Some? ==> programId.value in t.programs))) &&
      (r.Err? ==> t1 == t) &&
      (sessionId in t.sessions && t.sessions[sessionId].createdBy != Some(actor) ==> r == Err(Forbidden("You cannot edit this session.")))
    ensures var (r, t1) := UpdateSession(t, actor, sessionId, fields, programId, slugify);
      r.Ok? ==> (var prior := t.sessions[sessionId];
        t1 == t.(sessions := t.sessions[sessionId := r.value]) &&
        r.value.createdBy == prior.createdBy && r.value.createdAt == prior.createdAt &&
        r.value.title == fields.title.GetOr(prior.title) && r.value.notes == fields.notes.GetOr(prior.notes) &&
        r.value.weekNumber == fields.weekNumber.GetOr(prior.weekNumber) &&
        r.value.isPublic == fields.isPublic.GetOr(prior.isPublic) &&
        r.value.isRestDay == fields.isRestDay.GetOr(prior.isRestDay) &&
        r.value.program == (if programId.Some? then programId else prior.program) &&
        (prior.slug != "" ==> r.value.slug == prior.slug))
  {
  }

  /** The owner of the session may move it into a program someone else created:
      the target program's creator is never consulted. */
  lemma UpdateMovesIntoAnyProgram(t: Tables, actor: Id, sessionId: Id, target: Id, slugify: string -> string)
    requires sessionId in t.sessions && t.sessions[sessionId].createdBy == Some(actor)
    requires target in t.programs && t.programs[target].createdBy != Some(actor)
    ensures var (r, t1) := UpdateSession(t, actor, sessionId, SessionPatch(None, None, None, None, None, None, None, None, None, None), Some(target), slugify);
      r.Ok? && t1.sessions[sessionId].program == Some(target)
  {
  }

  lemma UpdateSessionKeepsInvariant(t: Tables, actor: Id, sessionId: Id, fields: SessionPatch, programId: Option<Id>, slugify: string -> string)
    requires Invariant(t)
    ensures Invariant(UpdateSession(t, actor, sessionId, fields, programId, slugify).1)
  {
    var (r, t1) := UpdateSession(t, actor, sessionId, fields, programId, slugify);
    if r.Ok? {
      SaveSessionKeepsInvariant(t, sessionId, r.value);
    }
  }

  method UpdateSessionIn(db: Db, actor: Id, sessionId: Id, fields: SessionPatch, programId: Option<Id>) returns (r: Result<Session>)
    requires Invariant(db.T())
    modifies db
    ensures (r, db.T()) == UpdateSession(old(db.T()), actor, sessionId, fields, programId, db.slugify)
    ensures Invariant(db.T())
  {
    UpdateSessionKeepsInvariant(db.T(), actor, sessionId, fields, programId, db.slugify);
    if sessionId !in db.sessions {
      return Err(Http404);
    }
    var s := db.sessions[sessionId];
    if s.createdBy != Some(actor) {
      return Err(Forbidden("You cannot edit this session."));
    }
    s := Patched(s, fields, programId);
    if programId.Some? && programId.value !in db.programs {
      return Err(IntegrityError);
    }
    s := SaveSession(s, db.slugify);
    db.sessions := db.sessions[sessionId := s];
    return Ok(s);
  }

  // ------------------------------------------------------------------
  // delete_session

  /** `delete_session`: Http404 for a missing session, Forbidden for anyone but
      its creator, else the session and its workout-exercises are deleted. */
  function DeleteSession(t: Tables, actor: Id, sessionId: Id): (Result<bool>, Tables) {
    if sessionId !in t.sessions then (Err(Http404), t)
    else if t.sessions[sessionId].createdBy != Some(actor) then (Err(Forbidden("You cannot delete this session.")), t)
    else (Ok(true), WithoutSessions(t, {sessionId}))
  }

  /** Only the creator may delete, and a refusal changes nothing. A deletion
      removes that session and exactly its workout-exercises, and leaves every
      other row as it was. */
  lemma DeleteSessionOutcome(t: Tables, actor: Id, sessionId: Id)
    ensures var (r, t1) := DeleteSession(t, actor, sessionId);
      (r.Ok? <==> sessionId in t.sessions && t.sessions[sessionId].createdBy == Some(actor)) &&
      (r.Err? ==> t1 == t && (r == Err(Http404) <==> sessionId !in t.sessions)) &&
      (r.Ok? ==> r.value)
    ensures var (r, t1) := DeleteSession(t, actor, sessionId);
      r.Ok? ==> (t1.sessions.Keys == t.sessions.Keys - {sessionId} &&
        (forall s :: s in t1.sessions ==> t1.sessions[s] == t.sessions[s]) &&
        (forall w :: w in t1.workoutExercises <==> w in t.workoutExercises && t.workoutExercises[w].session != sessionId) &&
        (forall w :: w in t1.workoutExercises ==> t1.workoutExercises[w] == t.workoutExercises[w]) &&
        t1 == t.(sessions := t1.sessions, workoutExercises := t1.workoutExercises))
  {
  }

  lemma DeleteSessionKeepsInvariant(t: Tables, actor: Id, sessionId: Id)
    requires Invariant(t)
    ensures Invariant(DeleteSession(t, actor, sessionId).1)
  {
    WithoutSessionsKeepsInvariant(t, {sessionId});
  }

  /** `session.delete()` with its cascade. */
  method RemoveSession(db: Db, sessionId: Id)
    modifies db
    ensures db.T() == WithoutSessions(old(db.T()), {sessionId})
  {
    var t1 := WithoutSessions(db.T(), {sessionId});
    db.sessions, db.workoutExercises := t1.sessions, t1.workoutExercises;
  }

  method DeleteSessionIn(db: Db, actor: Id, sessionId: Id) returns (r: Result<bool>)
    requires Invariant(db.T())
    modifies db
    ensures (r, db.T()) == DeleteSession(old(db.T()), actor, sessionId)
    ensures Invariant(db.T())
  {
    DeleteSessionKeepsInvariant(db.T(), actor, sessionId);
    if sessionId !in db.sessions {
      return Err(Http404);
    }
    if db.sessions[sessionId].createdBy != Some(actor) {
      return Err(Forbidden("You cannot delete this session."));
    }
    RemoveSession(db, sessionId);
    return Ok(true);
  }

  // ------------------------------------------------------------------
  // list_sessions and get_session

  /** The sessions `list_sessions` returns: all of them, or, when a program is
      given, those of that program; the actor plays no part. */
  function Listed(sessions: map<Id, Session>, programId: Option<Id>): set<Id> {
    if programId.None? then sessions.Keys else set s | s in sessions && sessions[s].program == programId
  }

  /** `list_sessions`, ordered by week number, then creation time. */
  function ListSessions(t: Tables, actor: Id, programId: Option<Id>): (r: seq<Id>)
    requires Below(t.sessions.Keys, t.nextId)
    ensures NoDuplicates(r) && SortedBy(r, SessionOrder(t.sessions))
    ensures forall s :: s in r <==> s in t.sessions && (programId.Some? ==> t.sessions[s].program == programId)
  {
    OrderedIds(Listed(t.sessions, programId), t.nextId, SessionOrder(t.sessions))
  }

  /** Every actor sees the same list, and it does not depend on who created
      the sessions. */
  lemma ListIgnoresActor(t: Tables, a: Id, b: Id, programId: Option<Id>)
    requires Below(t.sessions.Keys, t.nextId)
    ensures ListSessions(t, a, programId) == ListSessions(t, b, programId)
  {
  }

  /** Sessions come out by non-decreasing week number. */
  lemma ListByWeek(t: Tables, actor: Id, programId: Option<Id>, i: nat, j: nat)
    requires Below(t.sessions.Keys, t.nextId)
    requires i <= j < |ListSessions(t, actor, programId)|
    ensures var r := ListSessions(t, actor, programId);
      t.sessions[r[i]].weekNumber <= t.sessions[r[j]].weekNumber
  {
    var r := ListSessions(t, actor, programId);
    assert r[i] in r && r[j] in r;
    SessionOrderByWeek(t.sessions, r, i, j);
  }

  /** `get_session`: any session by key, with no access check. */
  function GetSession(t: Tables, actor: Id, sessionId: Id): (r: Result<Session>)
    ensures r.Ok? <==> sessionId in t.sessions
    ensures r.Ok? ==> r.value == t.sessions[sessionId]
    ensures r.Err? ==> r.error == Http404
  {
    if sessionId in t.sessions then Ok(t.sessions[sessionId]) else Err(Http404)
  }
}
