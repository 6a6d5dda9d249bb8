/** `WorkoutExerciseService` of apps/fitness/services/workout_exercise_service.py:
    adding, editing and removing the exercises of a session, each gated on the
    creator of the session the row belongs to. */
module WorkoutExerciseService {
  import opened Basics
  import opened Exceptions
  import opened WorkoutModels
  import opened Store

  // ------------------------------------------------------------------
  // add_exercise

  /** `add_exercise`: NotFound for a missing session, Forbidden unless the actor
      created it; the row is then written under the next key, unless the
      library exercise it names is missing, which the foreign key refuses. */
  function AddExercise(t: Tables, actor: Id, data: WorkoutExercise): (Result<Id>, Tables) {
    if data.session !in t.sessions then (Err(NotFound("Session not found")), t)
    else if t.sessions[data.session].createdBy != Some(actor) then (Err(Forbidden("You cannot modify this session")), t)
    else if data.exercise !in t.exercises then (Err(IntegrityError), t)
    else (Ok(t.nextId), t.(workoutExercises := t.workoutExercises[t.nextId := data], nextId := t.nextId + 1))
  }

  /** Adding succeeds exactly when the session exists, the actor created it and
      the exercise exists; a refusal writes nothing. On success the given row is
      the only one added, under a fresh key. */
  lemma AddExerciseOutcome(t: Tables, actor: Id, data: WorkoutExercise)
    requires Below(t.workoutExercises.Keys, t.nextId)
    ensures var (r, t1) := AddExercise(t, actor, data);
      (r.Ok? <==> (data.session in t.sessions && t.sessions[data.session].createdBy == Some(actor) && data.exercise in t.exercises)) &&
      (r.Err? ==> t1 == t) &&
      (r == Err(NotFound("Session not found")) <==> data.session !in t.sessions) &&
      (data.session in t.sessions && t.sessions[data.session].createdBy != Some(actor) ==> r == Err(Forbidden("You cannot modify this session")))
    ensures var (r, t1) := AddExercise(t, actor, data);
      r.Ok? ==> (r.value !in t.workoutExercises && t1.workoutExercises.Keys == t.workoutExercises.Keys + {r.value} &&
        t1.workoutExercises[r.value] == data &&
        (forall w :: w in t.workoutExercises ==> t1.workoutExercises[w] == t.workoutExercises[w]) &&
        t1 == t.(workoutExercises := t1.workoutExercises, nextId := t1.nextId))
  {
  }

  lemma AddExerciseKeepsInvariant(t: Tables, actor: Id, data: WorkoutExercise)
    requires Invariant(t)
    ensures Invariant(AddExercise(t, actor, data).1)
  {
    if data.session in t.sessions && t.sessions[data.session].createdBy == Some(actor) && data.exercise in t.exercises {
      assert AddExercise(t, actor, data).1 == t.(workoutExercises := t.workoutExercises[t.nextId := data], nextId := t.nextId + 1);
      AddRowKeepsInvariant(t, data);
    }
  }

  method AddExerciseIn(db: Db, actor: Id, data: WorkoutExercise) returns (r: Result<Id>)
    requires Invariant(db.T())
    modifies db
    ensures (r, db.T()) == AddExercise(old(db.T()), actor, data)
    ensures Invariant(db.T())
  {
    AddExerciseKeepsInvariant(db.T(), actor, data);
    if data.session !in db.sessions {
      return Err(NotFound("Session not found"));
    }
    if db.sessions[data.session].createdBy != Some(actor) {
      return Err(Forbidden("You cannot modify this session"));
    }
    if data.exercise !in db.exercises {
      return Err(IntegrityError);
    }
    var id := db.nextId;
    db.workoutExercises := db.workoutExercises[id := data];
    db.nextId := db.nextId + 1;
    return Ok(id);
  }

  // ------------------------------------------------------------------
  // update_exercise and delete_exercise

  /** The check both edits share: NotFound for a missing row, Forbidden unless
      the actor created the row's session. */
  function Authorize(t: Tables, actor: Id, id: Id): (r: Result<WorkoutExercise>)
    requires RowsLinked(t)
    ensures r.Ok? <==> (id in t.workoutExercises && t.sessions[t.workoutExercises[id].session].createdBy == Some(actor))
    ensures r.Ok? ==> r.value == t.workoutExercises[id]
    ensures id !in t.workoutExercises ==> r == Err(NotFound("Workout exercise not found"))
    ensures id in t.workoutExercises && r.Err? ==> r == Err(Forbidden("You cannot modify this session"))
  {
    if id !in t.workoutExercises then Err(NotFound("Workout exercise not found"))
    else if t.sessions[t.workoutExercises[id].session].createdBy != Some(actor) then Err(Forbidden("You cannot modify this session"))
    else Ok(t.workoutExercises[id])
  }

  /** `update_exercise`: after the check, the supplied attributes are set and
      the row saved; a session or exercise that does not exist is refused by its
      foreign key. Only the row's current session is checked: the row may be
      moved into a session someone else created. */
  function UpdateExercise(t: Tables, actor: Id, id: Id, data: WorkoutExercisePatch): (Result<WorkoutExercise>, Tables)
    requires RowsLinked(t)
  {
    var a := Authorize(t, actor, id);
    if a.Err? then (Err(a.error), t)
    else
      var w := ApplyWorkoutExercisePatch(a.value, data);
      if w.session !in t.sessions || w.exercise !in t.exercises then (Err(IntegrityError), t)
      else (Ok(w), t.(workoutExercises := t.workoutExercises[id := w]))
  }

  /** A refused edit changes nothing; a successful one rewrites that row only,
      with exactly the supplied attributes replaced. */
  lemma UpdateExerciseOutcome(t: Tables, actor: Id, id: Id, data: WorkoutExercisePatch)
    requires RowsLinked(t)
    ensures var (r, t1) := UpdateExercise(t, actor, id, data);
      (r.Err? ==> t1 == t) &&
      (Authorize(t, actor, id).Err? ==> r == Err(Authorize(t, actor, id).error)) &&
      (r.Ok? ==> Authorize(t, actor, id).Ok?)
    ensures var (r, t1) := UpdateExercise(t, actor, id, data);
      r.Ok? ==> (var prior := t.workoutExercises[id];
        t1 == t.(workoutExercises := t.workoutExercises[id := r.value]) &&
        r.value.session == data.session.GetOr(prior.session) && r.value.exercise == data.exercise.GetOr(prior.exercise) &&
        r.value.sets == data.sets.GetOr(prior.sets) && r.value.reps == data.reps.GetOr(prior.reps) &&
        r.value.duration == data.duration.GetOr(prior.duration) && r.value.restTime == data.restTime.GetOr(prior.restTime) &&
        r.value.tempo == data.tempo.GetOr(prior.tempo))
  {
  }

  /** The owner of a row's session may move it into any existing session. */
  lemma UpdateMovesIntoAnySession(t: Tables, actor: Id, id: Id, target: Id)
    requires RowsLinked(t) && Authorize(t, actor, id).Ok?
    requires target in t.sessions && t.sessions[target].createdBy != Some(actor)
    ensures var (r, t1) := UpdateExercise(t, actor, id, WorkoutExercisePatch(Some(target), None, None, None, None, None, None));
      r.Ok? && t1.workoutExercises[id].session == target
  {
  }

  lemma UpdateExerciseKeepsInvariant(t: Tables, actor: Id, id: Id, data: WorkoutExercisePatch)
    requires Invariant(t)
    ensures Invariant(UpdateExercise(t, actor, id, data).1)
  {
    var (r, t1) := UpdateExercise(t, actor, id, data);
    if r.Ok? {
      SaveRowKeepsInvariant(t, id, r.value);
    }
  }

  method UpdateExerciseIn(db: Db, actor: Id, id: Id, data: WorkoutExercisePatch) returns (r: Result<WorkoutExercise>)
    requires Invariant(db.T())
    modifies db
    ensures (r, db.T()) == UpdateExercise(old(db.T()), actor, id, data)
    ensures Invariant(db.T())
  {
    UpdateExerciseKeepsInvariant(db.T(), actor, id, data);
    var a := Authorize(db.T(), actor, id);
    if a.Err? {
      return Err(a.error);
    }
    var w := ApplyWorkoutExercisePatch(a.value, data);
    if w.session !in db.sessions || w.exercise !in db.exercises {
      return Err(IntegrityError);
    }
    db.workoutExercises := db.workoutExercises[id := w];
    return Ok(w);
  }

  /** `delete_exercise`: after the check, the row is deleted. */
  function DeleteExercise(t: Tables, actor: Id, id: Id): (Result<()>, Tables)
    requires RowsLinked(t)
  {
    var a := Authorize(t, actor, id);
    if a.Err? then (Err(a.error), t) else (Ok(()), t.(workoutExercises := t.workoutExercises - {id}))
  }

  /** A refused deletion changes nothing; a successful one removes exactly that
      row. */
  lemma DeleteExerciseOutcome(t: Tables, actor: Id, id: Id)
    requires RowsLinked(t)
    ensures var (r, t1) := DeleteExercise(t, actor, id);
      (r.Ok? <==> Authorize(t, actor, id).Ok?) &&
      (r.Err? ==> t1 == t && r.error == Authorize(t, actor, id).error)
    ensures var (r, t1) := DeleteExercise(t, actor, id);
      r.Ok? ==> (t1.workoutExercises.Keys == t.workoutExercises.Keys - {id} &&
        (forall w :: w in t1.workoutExercises ==> t1.workoutExercises[w] == t.workoutExercises[w]) &&
        t1 == t.(workoutExercises := t1.workoutExercises))
  {
  }

  lemma DeleteExerciseKeepsInvariant(t: Tables, actor: Id, id: Id)
    requires Invariant(t)
    ensures Invariant(DeleteExercise(t, actor, id).1)
  {
    DeleteRowKeepsInvariant(t, id);
  }

  method DeleteExerciseIn(db: Db, actor: Id, id: Id) returns (r: Result<()>)
    requires Invariant(db.T())
    modifies db
    ensures (r, db.T()) == DeleteExercise(old(db.T()), actor, id)
    ensures Invariant(db.T())
  {
    DeleteExerciseKeepsInvariant(db.T(), actor, id);
    var a := Authorize(db.T(), actor, id);
    if a.Err? {
      return Err(a.error);
    }
    db.workoutExercises := db.workoutExercises - {id};
    return Ok(());
  }
}
