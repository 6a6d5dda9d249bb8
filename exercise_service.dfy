/** `ExerciseService` of apps/fitness/services/exercise_service.py: the exercise
    library as each user sees it, creation by coaches, and owner-only edits,
    where deletion only deactivates. */
module ExerciseService {
  import opened Basics
  import opened Exceptions
  import opened WorkoutModels
  import opened Store

  /** The filter of `list_exercises`: active, and public or the actor's own. */
  predicate Visible(e: Exercise, actor: Id) {
    e.isActive && (e.isPublic || e.createdBy == actor)
  }

  /** `list_exercises`. */
  function ListExercises(t: Tables, actor: Id): (r: set<Id>)
    ensures forall e :: e in r <==> (e in t.exercises && t.exercises[e].isActive &&
      (t.exercises[e].isPublic || t.exercises[e].createdBy == actor))
  {
    set e | e in t.exercises && Visible(t.exercises[e], actor)
  }

  /** Every active public exercise is listed for everyone; an exercise the actor
      did not create is listed only when it is public. */
  lemma ListVisibility(t: Tables, actor: Id, other: Id, e: Id)
    requires e in ListExercises(t, other) && t.exercises[e].createdBy != other
    ensures e in ListExercises(t, actor)
  {
  }

  // ------------------------------------------------------------------
  // create_exercise

  /** The exercise `create_exercise` writes: the given attributes over the field
      defaults, the actor as creator, slug filled from the name. */
  function NewExerciseOf(actor: Id, fields: ExercisePatch, now: Timestamp, slugify: string -> string): (e: Exercise)
    ensures e.createdBy == actor && e.createdAt == now && e.isActive && !e.isVerified
    ensures e.name == fields.name.GetOr("") && e.isPublic == fields.isPublic.GetOr(false)
    ensures e.slug == slugify(e.name)
  {
    SaveExercise(ApplyExercisePatch(NewExercise(actor, now), fields), slugify)
  }

  /** `create_exercise`: Forbidden for anyone who is not a coach. */
  function CreateExercise(t: Tables, actor: Id, fields: ExercisePatch, now: Timestamp, slugify: string -> string): (Result<Id>, Tables)
    requires actor in t.users
  {
    if !t.users[actor].isCoach then (Err(Forbidden("Only coaches can create exercises")), t)
    else (Ok(t.nextId), t.(exercises := t.exercises[t.nextId := NewExerciseOf(actor, fields, now, slugify)], nextId := t.nextId + 1))
  }

  /** Only coaches create; a refusal writes nothing. The new exercise is active,
      created by the actor, under a fresh key, and the only row added. */
  lemma CreateExerciseOutcome(t: Tables, actor: Id, fields: ExercisePatch, now: Timestamp, slugify: string -> string)
    requires actor in t.users && Below(t.exercises.Keys, t.nextId)
    ensures var (r, t1) := CreateExercise(t, actor, fields, now, slugify);
      (r.Ok? <==> t.users[actor].isCoach) &&
      (r.Err? ==> r == Err(Forbidden("Only coaches can create exercises")) && t1 == t)
    ensures var (r, t1) := CreateExercise(t, actor, fields, now, slugify);
      r.Ok? ==> (r.value !in t.exercises && t1.exercises.Keys == t.exercises.Keys + {r.value} &&
        t1.exercises[r.value].createdBy == actor && t1.exercises[r.value].isActive &&
        (forall e :: e in t.exercises ==> t1.exercises[e] == t.exercises[e]) &&
        t1 == t.(exercises := t1.exercises, nextId := t1.nextId))
  {
  }

  lemma CreateExerciseKeepsInvariant(t: Tables, actor: Id, fields: ExercisePatch, now: Timestamp, slugify: string -> string)
    requires Invariant(t) && actor in t.users
    ensures Invariant(CreateExercise(t, actor, fields, now, slugify).1)
  {
    if t.users[actor].isCoach {
      var e := NewExerciseOf(actor, fields, now, slugify);
      assert CreateExercise(t, actor, fields, now, slugify).1 == t.(exercises := t.exercises[t.nextId := e], nextId := t.nextId + 1);
      AddExerciseKeepsInvariant(t, e);
    }
  }

  method CreateExerciseIn(db: Db, actor: Id, fields: ExercisePatch, now: Timestamp) returns (r: Result<Id>)
    requires Invariant(db.T()) && actor in db.users
    modifies db
    ensures (r, db.T()) == CreateExercise(old(db.T()), actor, fields, now, db.slugify)
    ensures Invariant(db.T())
  {
    CreateExerciseKeepsInvariant(db.T(), actor, fields, now, db.slugify);
    if !db.users[actor].isCoach {
      return Err(Forbidden("Only coaches can create exercises"));
    }
    var id := db.nextId;
    db.exercises := db.exercises[id := NewExerciseOf(actor, fields, now, db.slugify)];
    db.nextId := db.nextId + 1;
    return Ok(id);
  }

  // ------------------------------------------------------------------
  // update_exercise and delete_exercise

  /** `Exercise.objects.get(id=..., is_active=True)` and the owner check. */
  function Owned(t: Tables, actor: Id, id: Id, refusal: string): (r: Result<Exercise>)
    ensures r.Ok? <==> (id in t.exercises && t.exercises[id].isActive && t.exercises[id].createdBy == actor)
    ensures r.Ok? ==> r.value == t.exercises[id]
    ensures !(id in t.exercises && t.exercises[id].isActive) ==> r == Err(NotFound("Exercise not found"))
    ensures id in t.exercises && t.exercises[id].isActive && r.Err? ==> r == Err(Forbidden(refusal))
  {
    if id !in t.exercises || !t.exercises[id].isActive then Err(NotFound("Exercise not found"))
    else if t.exercises[id].createdBy != actor then Err(Forbidden(refusal))
    else Ok(t.exercises[id])
  }

  /** `update_exercise`: the supplied attributes are set and the exercise saved. */
  function UpdateExercise(t: Tables, actor: Id, id: Id, fields: ExercisePatch, slugify: string -> string): (Result<Exercise>, Tables) {
    var o := Owned(t, actor, id, "You cannot edit this exercise");
    if o.Err? then (Err(o.error), t)
    else
      var e := SaveExercise(ApplyExercisePatch(o.value, fields), slugify);
      (Ok(e), t.(exercises := t.exercises[id := e]))
  }

  /** A refused edit changes nothing; a successful one rewrites that exercise
      only, with the supplied attributes replaced and its owner, activity and
      creation time kept. */
  lemma UpdateExerciseOutcome(t: Tables, actor: Id, id: Id, fields: ExercisePatch, slugify: string -> string)
    ensures var (r, t1) := UpdateExercise(t, actor, id, fields, slugify);
      (r.Ok? <==> Owned(t, actor, id, "You cannot edit this exercise").Ok?) &&
      (r.Err? ==> t1 == t && r.error == Owned(t, actor, id, "You cannot edit this exercise").error)
    ensures var (r, t1) := UpdateExercise(t, actor, id, fields, slugify);
      r.Ok? ==> (var prior := t.exercises[id];
        t1 == t.(exercises := t.exercises[id := r.value]) &&
        r.value.createdBy == prior.createdBy && r.value.isActive && r.value.createdAt == prior.createdAt &&
        r.value.name == fields.name.GetOr(prior.name) && r.value.isPublic == fields.isPublic.GetOr(prior.isPublic) &&
        r.value.level == fields.level.GetOr(prior.level) && r.value.intensity == fields.intensity.GetOr(prior.intensity))
  {
  }

  lemma UpdateExerciseKeepsInvariant(t: Tables, actor: Id, id: Id, fields: ExercisePatch, slugify: string -> string)
    requires Invariant(t)
    ensures Invariant(UpdateExercise(t, actor, id, fields, slugify).1)
  {
    var (r, t1) := UpdateExercise(t, actor, id, fields, slugify);
    if r.Ok? {
      SaveExerciseKeepsInvariant(t, id, r.value);
    }
  }

  method UpdateExerciseIn(db: Db, actor: Id, id: Id, fields: ExercisePatch) returns (r: Result<Exercise>)
    requires Invariant(db.T())
    modifies db
    ensures (r, db.T()) == UpdateExercise(old(db.T()), actor, id, fields, db.slugify)
    ensures Invariant(db.T())
  {
    UpdateExerciseKeepsInvariant(db.T(), actor, id, fields, db.slugify);
    var o := Owned(db.T(), actor, id, "You cannot edit this exercise");
    if o.Err? {
      return Err(o.error);
    }
    var e := SaveExercise(ApplyExercisePatch(o.value, fields), db.slugify);
    db.exercises := db.exercises[id := e];
    return Ok(e);
  }

  /** `delete_exercise`: a soft delete; the exercise is deactivated and saved,
      and stays in the table. */
  function DeleteExercise(t: Tables, actor: Id, id: Id, slugify: string -> string): (Result<()>, Tables) {
    var o := Owned(t, actor, id, "You cannot delete this exercise");
    if o.Err? then (Err(o.error), t)
    else (Ok(()), t.(exercises := t.exercises[id := SaveExercise(o.value.(isActive := false), slugify)]))
  }

  /** A refused deletion changes nothing. A deletion keeps every row, that
      exercise included, and changes only its activity (and an empty slug). */
  lemma DeleteExerciseOutcome(t: Tables, actor: Id, id: Id, slugify: string -> string)
    ensures var (r, t1) := DeleteExercise(t, actor, id, slugify);
      (r.Ok? <==> Owned(t, actor, id, "You cannot delete this exercise").Ok?) &&
      (r.Err? ==> t1 == t && r.error == Owned(t, actor, id, "You cannot delete this exercise").error)
    ensures var (r, t1) := DeleteExercise(t, actor, id, slugify);
      r.Ok? ==> (t1.exercises.Keys == t.exercises.Keys && !t1.exercises[id].isActive &&
        t1.exercises[id].(isActive := true, slug := t.exercises[id].slug) == t.exercises[id] &&
        (forall e :: e in t.exercises && e != id ==> t1.exercises[e] == t.exercises[e]) &&
        t1 == t.(exercises := t1.exercises))
  {
  }

  /** After a deletion the exercise leaves every user's list, and a further
      update or delete of it is NotFound. */
  lemma DeletedIsGone(t: Tables, actor: Id, id: Id, other: Id, fields: ExercisePatch, slugify: string -> string)
    requires DeleteExercise(t, actor, id, slugify).0.Ok?
    ensures var t1 := DeleteExercise(t, actor, id, slugify).1;
      id !in ListExercises(t1, other) &&
      UpdateExercise(t1, other, id, fields, slugify) == (Err(NotFound("Exercise not found")), t1) &&
      DeleteExercise(t1, other, id, slugify) == (Err(NotFound("Exercise not found")), t1)
  {
  }

  lemma DeleteExerciseKeepsInvariant(t: Tables, actor: Id, id: Id, slugify: string -> string)
    requires Invariant(t)
    ensures Invariant(DeleteExercise(t, actor, id, slugify).1)
  {
    var (r, t1) := DeleteExercise(t, actor, id, slugify);
    if r.Ok? {
      SaveExerciseKeepsInvariant(t, id, t1.exercises[id]);
    }
  }

  method DeleteExerciseIn(db: Db, actor: Id, id: Id) returns (r: Result<()>)
    requires Invariant(db.T())
    modifies db
    ensures (r, db.T()) == DeleteExercise(old(db.T()), actor, id, db.slugify)
    ensures Invariant(db.T())
  {
    DeleteExerciseKeepsInvariant(db.T(), actor, id, db.slugify);
    var o := Owned(db.T(), actor, id, "You cannot delete this exercise");
    if o.Err? {
      return Err(o.error);
    }
    var e := o.value;
    e := e.(isActive := false);
    e := SaveExercise(e, db.slugify);
    db.exercises := db.exercises[id := e];
    return Ok(());
  }
}
