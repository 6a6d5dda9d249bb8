/** apps/fitness/services/workout_program_service.py: building, editing,
    cloning, deleting and publishing a program together with its tree of
    sessions and workout-exercises.

    None of these operations runs inside a transaction: every `create` is its
    own write, so a failure part way through keeps what was written before it.
    Each operation is given as a function from the tables before the call to
    the outcome and the tables after it, and as a method on the store that
    performs the same writes one row at a time. All rows written by one call
    carry the same creation time `now`. */
module WorkoutProgramService {
  import opened Basics
  import opened Text
  import opened Exceptions
  import opened Ordering
  import opened WorkoutModels
  import opened Store

  // ------------------------------------------------------------------
  // Input

  /** One entry of a session's `exercises` list: the library exercise and how
      it is performed. */
  datatype ExerciseData = ExerciseData(exercise: Id, sets: nat, reps: nat, duration: string, restTime: string, tempo: string)

  /** One entry of the `sessions` list: the session's attributes and its
      `exercises` list (absent means empty). */
  datatype SessionData = SessionData(fields: SessionPatch, exercises: seq<ExerciseData>)

  /** `WorkoutExercise.objects.create(session=session, **exercise_data)`. */
  function RowOf(session: Id, d: ExerciseData): (w: WorkoutExercise)
    ensures w.session == session && w.exercise == d.exercise && w.sets == d.sets && w.reps == d.reps
  {
    WorkoutExercise(session, d.exercise, d.sets, d.reps, d.duration, d.restTime, d.tempo)
  }

  /** `WorkoutSession.objects.create(program=program, created_by=actor, **fields)`:
      the defaults overwritten by the given attributes, then the slug filled. */
  function SessionOf(program: Id, actor: Id, fields: SessionPatch, now: Timestamp, slugify: string -> string): (s: Session)
    ensures s.program == Some(program) && s.createdBy == Some(actor) && s.createdAt == now
    ensures fields.title.Some? ==> s.title == fields.title.value
    ensures fields.weekNumber.Some? ==> s.weekNumber == fields.weekNumber.value
  {
    SaveSession(ApplySessionPatch(NewSession(Some(program), Some(actor), now), fields), slugify)
  }

  /** `WorkoutProgram.objects.create(created_by=actor, **fields)`. */
  function ProgramOf(actor: Id, fields: ProgramPatch, now: Timestamp, slugify: string -> string): (p: Program)
    ensures p.createdBy == Some(actor) && p.createdAt == now && !p.isPublished
    ensures fields.title.Some? ==> p.title == fields.title.value
  {
    SaveProgram(ApplyProgramPatch(NewProgram(Some(actor), now), fields), slugify)
  }

  // ------------------------------------------------------------------
  // validate_exercises

  /** Every entry's exercise is in the library. */
  predicate AllExist(exercises: map<Id, Exercise>, data: seq<ExerciseData>) {
    forall k :: 0 <= k < |data| ==> data[k].exercise in exercises
  }

  /** The position of the first entry, in input order, whose exercise is not in
      the library. */
  function FirstMissing(exercises: map<Id, Exercise>, data: seq<ExerciseData>): (r: Option<nat>)
    ensures r.None? <==> AllExist(exercises, data)
    ensures r.Some? ==> r.value < |data| && data[r.value].exercise !in exercises
    ensures r.Some? ==> forall k :: 0 <= k < r.value ==> data[k].exercise in exercises
  {
    if data == [] then None
    else if data[0].exercise !in exercises then Some(0)
    else
      match FirstMissing(exercises, data[1..])
      case None => None
      case Some(k) => Some(k + 1)
  }

  /** The outcome of `validate_exercises`: NotFound naming the first missing
      exercise, else success. An exercise counts as existing whether or not it
      is active. */
  function Validation(exercises: map<Id, Exercise>, data: seq<ExerciseData>): (r: Result<()>)
    ensures r.Ok? <==> AllExist(exercises, data)
  {
    match FirstMissing(exercises, data)
    case None => Ok(())
    case Some(k) => Err(NotFound("Exercise with ID " + NatToString(data[k].exercise) + " does not exist."))
  }

  /** A failed validation names an entry whose exercise is missing, and every
      entry before it passed. */
  lemma ValidationNamesFirstMissing(exercises: map<Id, Exercise>, data: seq<ExerciseData>)
    requires Validation(exercises, data).Err?
    ensures exists k :: (0 <= k < |data| && data[k].exercise !in exercises &&
      (forall j :: 0 <= j < k ==> data[j].exercise in exercises) &&
      Validation(exercises, data).error == NotFound("Exercise with ID " + NatToString(data[k].exercise) + " does not exist."))
  {
    var k := FirstMissing(exercises, data).value;
    assert data[k].exercise !in exercises;
  }

  method ValidateExercises(db: Db, data: seq<ExerciseData>) returns (r: Result<()>)
    ensures r == Validation(db.exercises, data)
  {
    var k := 0;
    while k < |data|
      invariant 0 <= k <= |data|
      invariant forall j :: 0 <= j < k ==> data[j].exercise in db.exercises
    {
      if data[k].exercise !in db.exercises {
        assert FirstMissing(db.exercises, data) == Some(k);
        return Err(NotFound("Exercise with ID " + NatToString(data[k].exercise) + " does not exist."));
      }
      k := k + 1;
    }
    assert AllExist(db.exercises, data);
    return Ok(());
  }

  // ------------------------------------------------------------------
  // Writing sessions and their exercises

  /** One workout-exercise written under the next key. */
  function AddRow(t: Tables, session: Id, d: ExerciseData): Tables {
    t.(workoutExercises := t.workoutExercises[t.nextId := RowOf(session, d)], nextId := t.nextId + 1)
  }

  /** The loop `for exercise_data in exercises_data: WorkoutExercise.objects.create(...)`. */
  function AddRows(t: Tables, session: Id, data: seq<ExerciseData>): Tables
    decreases |data|
  {
    if data == [] then t
    else AddRows(AddRow(t, session, data[0]), session, data[1..])
  }

  /** The exercises of a session are written under consecutive fresh keys, in
      input order; only the workout-exercise table and the key counter change,
      and no row that was there before changes. */
  lemma {:induction false} AddRowsWrites(t: Tables, session: Id, data: seq<ExerciseData>)
    ensures var r := AddRows(t, session, data);
      r.nextId == t.nextId + |data| &&
      r == t.(workoutExercises := r.workoutExercises, nextId := r.nextId) &&
      (forall k :: 0 <= k < |data| ==>
        (t.nextId + k in r.workoutExercises && r.workoutExercises[t.nextId + k] == RowOf(session, data[k]))) &&
      (forall w :: w in r.workoutExercises <==> w in t.workoutExercises || t.nextId <= w < r.nextId) &&
      (forall w :: w in t.workoutExercises && w < t.nextId ==> r.workoutExercises[w] == t.workoutExercises[w])
    decreases |data|
  {
    if data != [] {
      var t1 := AddRow(t, session, data[0]);
      AddRowsWrites(t1, session, data[1..]);
      assert forall k :: 1 <= k < |data| ==> data[k] == data[1..][k - 1];
    }
  }

  /** Writing exercises changes only the workout-exercise table and the key
      counter, which only grows. */
  lemma AddRowsFrame(t: Tables, session: Id, data: seq<ExerciseData>)
    ensures var r := AddRows(t, session, data);
      r == t.(workoutExercises := r.workoutExercises, nextId := r.nextId) && r.nextId >= t.nextId &&
      t.workoutExercises.Keys <= r.workoutExercises.Keys
  {
    AddRowsWrites(t, session, data);
  }

  /** The session row written under the next key. */
  function AddSessionRow(t: Tables, program: Id, actor: Id, fields: SessionPatch, now: Timestamp, slugify: string -> string): Tables {
    t.(sessions := t.sessions[t.nextId := SessionOf(program, actor, fields, now, slugify)], nextId := t.nextId + 1)
  }

  /** One session and, after it, its exercises. */
  function AddSession(t: Tables, program: Id, actor: Id, d: SessionData, now: Timestamp, slugify: string -> string): Tables {
    AddRows(AddSessionRow(t, program, actor, d.fields, now, slugify), t.nextId, d.exercises)
  }

  /** The position of the first session whose exercise list fails validation. */
  function FirstInvalid(exercises: map<Id, Exercise>, data: seq<SessionData>): (r: Option<nat>)
    ensures r.None? <==> forall i :: 0 <= i < |data| ==> AllExist(exercises, data[i].exercises)
    ensures r.Some? ==> r.value < |data| && !AllExist(exercises, data[r.value].exercises)
    ensures r.Some? ==> forall i :: 0 <= i < r.value ==> AllExist(exercises, data[i].exercises)
  {
    if data == [] then None
    else if !AllExist(exercises, data[0].exercises) then Some(0)
    else
      match FirstInvalid(exercises, data[1..])
      case None => None
      case Some(k) => Some(k + 1)
  }

  /** How many sessions a call writes: all of them, or those before the first
      invalid one. */
  function Written(exercises: map<Id, Exercise>, data: seq<SessionData>): (n: nat)
    ensures n <= |data|
  {
    match FirstInvalid(exercises, data)
    case None => |data|
    case Some(k) => k
  }

  /** The loop over `sessions_data`: validate a session's exercises, then write
      the session and its exercises; the first failed validation ends the loop
      with its error, keeping what was written. */
  function AddSessions(t: Tables, program: Id, actor: Id, data: seq<SessionData>, now: Timestamp, slugify: string -> string): (Result<()>, Tables)
    decreases |data|
  {
    if data == [] then (Ok(()), t)
    else if !AllExist(t.exercises, data[0].exercises) then (Validation(t.exercises, data[0].exercises), t)
    else AddSessions(AddSession(t, program, actor, data[0], now, slugify), program, actor, data[1..], now, slugify)
  }

  /** The session loop fails exactly when some session's exercises do not all
      exist, with the NotFound of the first such session; only the session and
      workout-exercise tables and the key counter change. */
  lemma {:induction false} AddSessionsResult(t: Tables, program: Id, actor: Id, data: seq<SessionData>, now: Timestamp, slugify: string -> string)
    ensures var (r, t1) := AddSessions(t, program, actor, data, now, slugify);
      t1 == t.(sessions := t1.sessions, workoutExercises := t1.workoutExercises, nextId := t1.nextId) &&
      t1.nextId >= t.nextId &&
      (r.Ok? <==> FirstInvalid(t.exercises, data).None?) &&
      (r.Err? ==> r == Validation(t.exercises, data[FirstInvalid(t.exercises, data).value].exercises))
    decreases |data|
  {
    if data != [] && AllExist(t.exercises, data[0].exercises) {
      var t1 := AddSession(t, program, actor, data[0], now, slugify);
      AddRowsFrame(AddSessionRow(t, program, actor, data[0].fields, now, slugify), t.nextId, data[0].exercises);
      AddSessionsResult(t1, program, actor, data[1..], now, slugify);
      assert forall i :: 1 <= i < |data| ==> data[i] == data[1..][i - 1];
    }
  }

  /** One session step of the loop: the session row is added under the old
      counter, and apart from the workout-exercises only the counter changes. */
  lemma AddSessionStep(t: Tables, program: Id, actor: Id, d: SessionData, now: Timestamp, slugify: string -> string)
    ensures var t1 := AddSession(t, program, actor, d, now, slugify);
      t1.sessions == t.sessions[t.nextId := SessionOf(program, actor, d.fields, now, slugify)] &&
      t1.exercises == t.exercises && t1.programs == t.programs && t1.nextId > t.nextId
  {
    AddRowsFrame(AddSessionRow(t, program, actor, d.fields, now, slugify), t.nextId, d.exercises);
  }

  /** A valid first session is one more session written. */
  lemma WrittenStep(exercises: map<Id, Exercise>, data: seq<SessionData>)
    requires data != [] && AllExist(exercises, data[0].exercises)
    ensures Written(exercises, data) == 1 + Written(exercises, data[1..])
  {
  }

  /** Writing exercises of existing library exercises into an existing session
      keeps the integrity. */
  lemma AddRowsKeepsInvariant(t: Tables, session: Id, data: seq<ExerciseData>)
    requires Invariant(t) && session in t.sessions && AllExist(t.exercises, data)
    ensures Invariant(AddRows(t, session, data))
  {
    var r := AddRows(t, session, data);
    AddRowsWrites(t, session, data);
    forall w | w in r.workoutExercises
      ensures r.workoutExercises[w].session in t.sessions && r.workoutExercises[w].exercise in t.exercises
    {
      if w !in t.workoutExercises {
        assert r.workoutExercises[t.nextId + (w - t.nextId)] == RowOf(session, data[w - t.nextId]);
      }
    }
    RowsGrowKeepsInvariant(t, r.workoutExercises, r.nextId);
  }

  /** Writing one session whose exercises exist keeps the integrity. */
  lemma OneSessionKeepsInvariant(t: Tables, program: Id, actor: Id, d: SessionData, now: Timestamp, slugify: string -> string)
    requires Invariant(t) && program in t.programs && AllExist(t.exercises, d.exercises)
    ensures var t1 := AddSession(t, program, actor, d, now, slugify);
      Invariant(t1) && program in t1.programs
  {
    AddSessionKeepsInvariant(t, SessionOf(program, actor, d.fields, now, slugify));
    AddRowsKeepsInvariant(AddSessionRow(t, program, actor, d.fields, now, slugify), t.nextId, d.exercises);
    AddSessionStep(t, program, actor, d, now, slugify);
  }

  /** Writing sessions into an existing program keeps the integrity, whether or
      not the loop stops early. */
  lemma {:induction false} AddSessionsKeepsInvariant(t: Tables, program: Id, actor: Id, data: seq<SessionData>, now: Timestamp, slugify: string -> string)
    requires Invariant(t) && program in t.programs
    ensures Invariant(AddSessions(t, program, actor, data, now, slugify).1)
    decreases |data|
  {
    if data != [] && AllExist(t.exercises, data[0].exercises) {
      OneSessionKeepsInvariant(t, program, actor, data[0], now, slugify);
      AddSessionsKeepsInvariant(AddSession(t, program, actor, data[0], now, slugify), program, actor, data[1..], now, slugify);
    }
  }

  /** The program gains one session per session written: all of them when every
      exercise list validates, else those before the first that does not. */
  lemma {:induction false} AddSessionsCount(t: Tables, program: Id, actor: Id, data: seq<SessionData>, now: Timestamp, slugify: string -> string)
    requires Below(t.sessions.Keys, t.nextId)
    ensures |SessionsOf(AddSessions(t, program, actor, data, now, slugify).1.sessions, program)| ==
      |SessionsOf(t.sessions, program)| + Written(t.exercises, data)
    decreases |data|
  {
    if data != [] && AllExist(t.exercises, data[0].exercises) {
      var t1 := AddSession(t, program, actor, data[0], now, slugify);
      assert |SessionsOf(t1.sessions, program)| == |SessionsOf(t.sessions, program)| + 1 && Below(t1.sessions.Keys, t1.nextId) &&
        t1.exercises == t.exercises by {
        AddSessionStep(t, program, actor, data[0], now, slugify);
        assert SessionsOf(t1.sessions, program) == SessionsOf(t.sessions, program) + {t.nextId};
        assert t.nextId !in SessionsOf(t.sessions, program);
      }
      WrittenStep(t.exercises, data);
      AddSessionsCount(t1, program, actor, data[1..], now, slugify);
    }
  }

  /** Writing sessions never alters or removes a row that was already there. */
  lemma {:induction false} AddSessionsExtends(t: Tables, program: Id, actor: Id, data: seq<SessionData>, now: Timestamp, slugify: string -> string)
    requires Below(t.sessions.Keys, t.nextId) && Below(t.workoutExercises.Keys, t.nextId)
    ensures var t1 := AddSessions(t, program, actor, data, now, slugify).1;
      (forall s :: s in t.sessions ==> s in t1.sessions && t1.sessions[s] == t.sessions[s]) &&
      (forall w :: w in t.workoutExercises ==> w in t1.workoutExercises && t1.workoutExercises[w] == t.workoutExercises[w]) &&
      (forall s :: s in t1.sessions && s !in t.sessions ==> s >= t.nextId) &&
      (forall w :: w in t1.workoutExercises && w !in t.workoutExercises ==> w >= t.nextId)
    decreases |data|
  {
    if data != [] && AllExist(t.exercises, data[0].exercises) {
      AddRowsWrites(AddSessionRow(t, program, actor, data[0].fields, now, slugify), t.nextId, data[0].exercises);
      AddSessionsExtends(AddSession(t, program, actor, data[0], now, slugify), program, actor, data[1..], now, slugify);
    }
  }

  /** A written session holds exactly its listed exercises, under the keys that
      follow its own, in input order, when no earlier row points at that key. */
  lemma SessionHoldsItsExercises(t: Tables, program: Id, actor: Id, d: SessionData, now: Timestamp, slugify: string -> string)
    requires Below(t.workoutExercises.Keys, t.nextId) && forall w :: w in t.workoutExercises ==> t.workoutExercises[w].session != t.nextId
    ensures var t1 := AddSession(t, program, actor, d, now, slugify);
      var session := t.nextId;
      session in t1.sessions && t1.sessions[session] == SessionOf(program, actor, d.fields, now, slugify) &&
      (forall w :: w in RowsOf(t1.workoutExercises, session) <==> session < w <= session + |d.exercises|) &&
      (forall k :: 0 <= k < |d.exercises| ==>
        (session + 1 + k in t1.workoutExercises && t1.workoutExercises[session + 1 + k] == RowOf(session, d.exercises[k])))
  {
    var t1 := AddSession(t, program, actor, d, now, slugify);
    var session := t.nextId;
    AddRowsWrites(AddSessionRow(t, program, actor, d.fields, now, slugify), session, d.exercises);
    forall w ensures w in RowsOf(t1.workoutExercises, session) <==> session < w <= session + |d.exercises| {
      if session < w <= session + |d.exercises| {
        assert t1.workoutExercises[session + 1 + (w - session - 1)] == RowOf(session, d.exercises[w - session - 1]);
      }
    }
  }

  method AddRowsInto(db: Db, session: Id, data: seq<ExerciseData>)
    modifies db
    ensures db.T() == AddRows(old(db.T()), session, data)
  {
    var k := 0;
    while k < |data|
      invariant 0 <= k <= |data|
      invariant AddRows(old(db.T()), session, data) == AddRows(db.T(), session, data[k..])
    {
      assert data[k..][1..] == data[k + 1..];
      db.workoutExercises := db.workoutExercises[db.nextId := RowOf(session, data[k])];
      db.nextId := db.nextId + 1;
      k := k + 1;
    }
  }

  /** Writes a session row under the next key. */
  method AddSessionRowInto(db: Db, program: Id, actor: Id, fields: SessionPatch, now: Timestamp) returns (session: Id)
    modifies db
    ensures session == old(db.nextId) && db.T() == AddSessionRow(old(db.T()), program, actor, fields, now, db.slugify)
  {
    session := db.nextId;
    db.sessions := db.sessions[session := SessionOf(program, actor, fields, now, db.slugify)];
    db.nextId := db.nextId + 1;
  }

  method AddSessionsInto(db: Db, program: Id, actor: Id, data: seq<SessionData>, now: Timestamp) returns (r: Result<()>)
    modifies db
    ensures (r, db.T()) == AddSessions(old(db.T()), program, actor, data, now, db.slugify)
  {
    var i := 0;
    while i < |data|
      invariant 0 <= i <= |data|
      invariant AddSessions(old(db.T()), program, actor, data, now, db.slugify) == AddSessions(db.T(), program, actor, data[i..], now, db.slugify)
    {
      assert data[i..][0] == data[i] && data[i..][1..] == data[i + 1..];
      var v := ValidateExercises(db, data[i].exercises);
      if v.Err? {
        return Err(v.error);
      }
      ghost var before := db.T();
      var session := AddSessionRowInto(db, program, actor, data[i].fields, now);
      AddRowsInto(db, session, data[i].exercises);
      assert db.T() == AddSession(before, program, actor, data[i], now, db.slugify);
      i := i + 1;
    }
    assert data[i..] == [];
    return Ok(());
  }

  // ------------------------------------------------------------------
  // create_program_with_sessions

  /** The program row written under the next key. */
  function AddProgramRow(t: Tables, p: Program): Tables {
    t.(programs := t.programs[t.nextId := p], nextId := t.nextId + 1)
  }

  /** Writes a program row under the next key. */
  method AddProgramInto(db: Db, p: Program) returns (id: Id)
    modifies db
    ensures id == old(db.nextId) && db.T() == AddProgramRow(old(db.T()), p)
  {
    id := db.nextId;
    db.programs := db.programs[id := p];
    db.nextId := db.nextId + 1;
  }

  /** Writing a new program and then its sessions keeps the integrity. */
  lemma NewProgramKeepsInvariant(t: Tables, p: Program, actor: Id, data: seq<SessionData>, now: Timestamp, slugify: string -> string)
    requires Invariant(t)
    ensures Invariant(AddSessions(AddProgramRow(t, p), t.nextId, actor, data, now, slugify).1)
  {
    AddProgramKeepsInvariant(t, p);
    AddSessionsKeepsInvariant(AddProgramRow(t, p), t.nextId, actor, data, now, slugify);
  }

  /** `create_program_with_sessions`: the program is written first, then each
      session in turn; the first session whose exercises fail validation ends
      the call with that NotFound, keeping the program and the sessions before it. */
  function Create(t: Tables, actor: Id, fields: ProgramPatch, sessions: seq<SessionData>, now: Timestamp, slugify: string -> string): (Result<Id>, Tables) {
    var program := t.nextId;
    var (r, t1) := AddSessions(AddProgramRow(t, ProgramOf(actor, fields, now, slugify)), program, actor, sessions, now, slugify);
    (if r.Ok? then Ok(program) else Err(r.error), t1)
  }

  /** The program is written under a fresh key, created by the actor, in every
      case. The call succeeds exactly when every session's exercises exist, and
      otherwise fails with the first failing session's NotFound. The program
      then has one session per session written, no row that was there before
      changes, and only the program, session and workout-exercise tables change. */
  lemma CreateOutcome(t: Tables, actor: Id, fields: ProgramPatch, sessions: seq<SessionData>, now: Timestamp, slugify: string -> string)
    requires Below(t.programs.Keys, t.nextId) && Below(t.sessions.Keys, t.nextId) && Below(t.workoutExercises.Keys, t.nextId)
    requires SessionsLinked(t)
    ensures var (r, t1) := Create(t, actor, fields, sessions, now, slugify);
      t.nextId !in t.programs && t1.programs == t.programs[t.nextId := ProgramOf(actor, fields, now, slugify)] &&
      t1.programs[t.nextId].createdBy == Some(actor)
    ensures var (r, t1) := Create(t, actor, fields, sessions, now, slugify);
      (r.Ok? <==> forall i :: 0 <= i < |sessions| ==> AllExist(t.exercises, sessions[i].exercises)) &&
      (r.Ok? ==> r.value == t.nextId) &&
      (r.Err? ==> r == Err(Validation(t.exercises, sessions[FirstInvalid(t.exercises, sessions).value].exercises).error))
    ensures var (r, t1) := Create(t, actor, fields, sessions, now, slugify);
      |SessionsOf(t1.sessions, t.nextId)| == Written(t.exercises, sessions) &&
      (r.Ok? ==> |SessionsOf(t1.sessions, t.nextId)| == |sessions|)
    ensures var (r, t1) := Create(t, actor, fields, sessions, now, slugify);
      (forall s :: s in t.sessions ==> s in t1.sessions && t1.sessions[s] == t.sessions[s]) &&
      (forall w :: w in t.workoutExercises ==> w in t1.workoutExercises && t1.workoutExercises[w] == t.workoutExercises[w]) &&
      t1.(programs := t.programs, sessions := t.sessions, workoutExercises := t.workoutExercises, nextId := t.nextId) == t
  {
    var t0 := AddProgramRow(t, ProgramOf(actor, fields, now, slugify));
    assert SessionsOf(t0.sessions, t.nextId) == {} by {
      forall s | s in t0.sessions ensures t0.sessions[s].program != Some(t.nextId) {
        if t0.sessions[s].program.Some? {
          assert t0.sessions[s].program.value in t.programs;
        }
      }
    }
    AddSessionsCount(t0, t.nextId, actor, sessions, now, slugify);
    AddSessionsExtends(t0, t.nextId, actor, sessions, now, slugify);
    AddSessionsResult(t0, t.nextId, actor, sessions, now, slugify);
  }

  /** Creating a program keeps the integrity, whether or not it fails part way. */
  lemma CreateKeepsInvariant(t: Tables, actor: Id, fields: ProgramPatch, sessions: seq<SessionData>, now: Timestamp, slugify: string -> string)
    requires Invariant(t)
    ensures Invariant(Create(t, actor, fields, sessions, now, slugify).1)
  {
    NewProgramKeepsInvariant(t, ProgramOf(actor, fields, now, slugify), actor, sessions, now, slugify);
  }

  method CreateProgramWithSessions(db: Db, actor: Id, fields: ProgramPatch, sessions: seq<SessionData>, now: Timestamp) returns (r: Result<Id>)
    requires Invariant(db.T())
    modifies db
    ensures (r, db.T()) == Create(old(db.T()), actor, fields, sessions, now, db.slugify)
    ensures Invariant(db.T())
  {
    CreateKeepsInvariant(db.T(), actor, fields, sessions, now, db.slugify);
    var program := AddProgramInto(db, ProgramOf(actor, fields, now, db.slugify));
    var v := AddSessionsInto(db, program, actor, sessions, now);
    r := if v.Ok? then Ok(program) else Err(v.error);
  }

  // ------------------------------------------------------------------
  // update_program_with_sessions

  /** `update_program_with_sessions`: Http404 for a missing program, Forbidden
      for anyone but its creator, else the attributes are overwritten and the
      program saved; when a `sessions` list is given, even an empty one, all the
      program's sessions (with their exercises) are deleted and the given ones
      written as `create_program_with_sessions` writes them. */
  function Update(t: Tables, actor: Id, programId: Id, fields: ProgramPatch, sessions: Option<seq<SessionData>>, now: Timestamp, slugify: string -> string): (Result<Id>, Tables) {
    if programId !in t.programs then (Err(Http404), t)
    else if t.programs[programId].createdBy != Some(actor) then (Err(Forbidden("You cannot edit this program.")), t)
    else
      var t1 := t.(programs := t.programs[programId := SaveProgram(ApplyProgramPatch(t.programs[programId], fields), slugify)]);
      match sessions
      case None => (Ok(programId), t1)
      case Some(list) =>
        var (r, t2) := AddSessions(WithoutSessions(t1, SessionsOf(t1.sessions, programId)), programId, actor, list, now, slugify);
        (if r.Ok? then Ok(programId) else Err(r.error), t2)
  }

  /** A missing program or an actor other than its creator changes nothing. */
  lemma UpdateRefused(t: Tables, actor: Id, programId: Id, fields: ProgramPatch, sessions: Option<seq<SessionData>>, now: Timestamp, slugify: string -> string)
    ensures programId !in t.programs ==> Update(t, actor, programId, fields, sessions, now, slugify) == (Err(Http404), t)
    ensures programId in t.programs && t.programs[programId].createdBy != Some(actor) ==>
      Update(t, actor, programId, fields, sessions, now, slugify) == (Err(Forbidden("You cannot edit this program.")), t)
  {
  }

  /** Without a `sessions` list only the program row changes: its attributes
      are overwritten, its creator and creation time stay, and its sessions and
      their exercises are untouched. */
  lemma UpdateKeepsSessions(t: Tables, actor: Id, programId: Id, fields: ProgramPatch, now: Timestamp, slugify: string -> string)
    requires programId in t.programs && t.programs[programId].createdBy == Some(actor)
    ensures var (r, t1) := Update(t, actor, programId, fields, None, now, slugify);
      r == Ok(programId) &&
      t1 == t.(programs := t1.programs) && t1.programs.Keys == t.programs.Keys &&
      (forall p :: p in t.programs && p != programId ==> t1.programs[p] == t.programs[p]) &&
      t1.programs[programId].createdBy == Some(actor) && t1.programs[programId].createdAt == t.programs[programId].createdAt &&
      (fields.title.Some? ==> t1.programs[programId].title == fields.title.value)
  {
  }

  /** The tables an update with a `sessions` list writes its sessions into:
      the program saved, then its sessions deleted with their exercises. */
  function Cleared(t: Tables, programId: Id, fields: ProgramPatch, slugify: string -> string): Tables
    requires programId in t.programs
  {
    var t1 := t.(programs := t.programs[programId := SaveProgram(ApplyProgramPatch(t.programs[programId], fields), slugify)]);
    WithoutSessions(t1, SessionsOf(t1.sessions, programId))
  }

  /** With a `sessions` list, every earlier session of the program is gone with
      its exercises, and sessions of other programs are untouched. */
  lemma UpdateRemovesSessions(t: Tables, actor: Id, programId: Id, fields: ProgramPatch, list: seq<SessionData>, now: Timestamp, slugify: string -> string)
    requires programId in t.programs && t.programs[programId].createdBy == Some(actor)
    requires Below(t.sessions.Keys, t.nextId) && Below(t.workoutExercises.Keys, t.nextId)
    ensures var t1 := Update(t, actor, programId, fields, Some(list), now, slugify).1;
      (forall s :: s in SessionsOf(t.sessions, programId) ==> s !in t1.sessions) &&
      (forall w :: w in t.workoutExercises && t.workoutExercises[w].session in SessionsOf(t.sessions, programId) ==>
        w !in t1.workoutExercises) &&
      (forall s :: s in t.sessions && s !in SessionsOf(t.sessions, programId) ==> s in t1.sessions && t1.sessions[s] == t.sessions[s])
  {
    var t2 := Cleared(t, programId, fields, slugify);
    var t3 := AddSessions(t2, programId, actor, list, now, slugify).1;
    assert Update(t, actor, programId, fields, Some(list), now, slugify).1 == t3;
    assert Below(t2.sessions.Keys, t2.nextId) && Below(t2.workoutExercises.Keys, t2.nextId);
    AddSessionsExtends(t2, programId, actor, list, now, slugify);
    forall s | s in SessionsOf(t.sessions, programId) ensures s !in t3.sessions {
      assert s !in t2.sessions && s < t2.nextId;
    }
    forall w | w in t.workoutExercises && t.workoutExercises[w].session in SessionsOf(t.sessions, programId)
      ensures w !in t3.workoutExercises
    {
      assert w !in t2.workoutExercises && w < t2.nextId;
    }
  }

  /** With a `sessions` list, the program then holds one session per session
      written, and the update succeeds exactly when every listed exercise exists. */
  lemma UpdateSessionCount(t: Tables, actor: Id, programId: Id, fields: ProgramPatch, list: seq<SessionData>, now: Timestamp, slugify: string -> string)
    requires programId in t.programs && t.programs[programId].createdBy == Some(actor)
    requires Below(t.sessions.Keys, t.nextId)
    ensures var (r, t1) := Update(t, actor, programId, fields, Some(list), now, slugify);
      |SessionsOf(t1.sessions, programId)| == Written(t.exercises, list) &&
      (r.Ok? <==> forall i :: 0 <= i < |list| ==> AllExist(t.exercises, list[i].exercises))
  {
    var t2 := Cleared(t, programId, fields, slugify);
    assert Update(t, actor, programId, fields, Some(list), now, slugify).1 == AddSessions(t2, programId, actor, list, now, slugify).1;
    assert SessionsOf(t2.sessions, programId) == {};
    AddSessionsCount(t2, programId, actor, list, now, slugify);
    AddSessionsResult(t2, programId, actor, list, now, slugify);
  }

  /** Updating keeps the integrity. */
  lemma UpdateKeepsInvariant(t: Tables, actor: Id, programId: Id, fields: ProgramPatch, sessions: Option<seq<SessionData>>, now: Timestamp, slugify: string -> string)
    requires Invariant(t)
    ensures Invariant(Update(t, actor, programId, fields, sessions, now, slugify).1)
  {
    if programId in t.programs && t.programs[programId].createdBy == Some(actor) {
      var t1 := t.(programs := t.programs[programId := SaveProgram(ApplyProgramPatch(t.programs[programId], fields), slugify)]);
      SaveProgramKeepsInvariant(t, programId, t1.programs[programId]);
      if sessions.Some? {
        WithoutSessionsKeepsInvariant(t1, SessionsOf(t1.sessions, programId));
        AddSessionsKeepsInvariant(WithoutSessions(t1, SessionsOf(t1.sessions, programId)), programId, actor, sessions.value, now, slugify);
      }
    }
  }

  method UpdateProgramWithSessions(db: Db, actor: Id, programId: Id, fields: ProgramPatch, sessions: Option<seq<SessionData>>, now: Timestamp) returns (r: Result<Id>)
    requires Invariant(db.T())
    modifies db
    ensures (r, db.T()) == Update(old(db.T()), actor, programId, fields, sessions, now, db.slugify)
    ensures Invariant(db.T())
  {
    UpdateKeepsInvariant(db.T(), actor, programId, fields, sessions, now, db.slugify);
    if programId !in db.programs {
      return Err(Http404);
    }
    var program := db.programs[programId];
    if program.createdBy != Some(actor) {
      return Err(Forbidden("You cannot edit this program."));
    }
    ghost var t0 := db.T();
    db.programs := db.programs[programId := SaveProgram(ApplyProgramPatch(program, fields), db.slugify)];
    if sessions.None? {
      return Ok(programId);
    }
    var cleared := WithoutSessions(db.T(), SessionsOf(db.sessions, programId));
    db.sessions, db.workoutExercises := cleared.sessions, cleared.workoutExercises;
    assert db.T() == Cleared(t0, programId, fields, db.slugify);
    var v := AddSessionsInto(db, programId, actor, sessions.value, now);
    r := if v.Ok? then Ok(programId) else Err(v.error);
  }

  // ------------------------------------------------------------------
  // clone_program

  /** The program `clone_program` creates from `p`: the title gains " (Copy)",
      the descriptive attributes, price and custom flag are copied, the copy
      is inactive, private and unverified, and the actor is its creator; the
      other attributes take their defaults. */
  function CopyOf(p: Program, actor: Id, now: Timestamp, slugify: string -> string): (c: Program)
    ensures c.title == p.title + " (Copy)" && c.createdBy == Some(actor) && c.createdAt == now
    ensures !c.isActive && !c.isPublic && !c.isVerified && !c.isPublished && c.durationWeeks == 4
    ensures c.isCustom == p.isCustom && c.description == p.description && c.level == p.level && c.goal == p.goal
    ensures c.duration == p.duration && c.priceCents == p.priceCents && c.video == p.video
    ensures c.location == p.location && c.equipment == p.equipment
  {
    SaveProgram(NewProgram(Some(actor), now).(
      title := p.title + " (Copy)", description := p.description, level := p.level, goal := p.goal,
      duration := p.duration, priceCents := p.priceCents, isActive := false, isPublic := false,
      isCustom := p.isCustom, isVerified := false, video := p.video, location := p.location,
      equipment := p.equipment), slugify)
  }

  /** The session attributes `clone_program` copies: title, notes, week number,
      type, duration, intensity and the rest-day flag. */
  function CopyFields(s: Session): SessionPatch {
    SessionPatch(Some(s.title), Some(s.notes), Some(s.weekNumber), None, None, Some(s.sessionType),
      Some(s.duration), Some(s.intensity), None, Some(s.isRestDay))
  }

  /** The attributes of a workout-exercise that a copy keeps. */
  function DataOf(w: WorkoutExercise): ExerciseData {
    ExerciseData(w.exercise, w.sets, w.reps, w.duration, w.restTime, w.tempo)
  }

  /** A copied workout-exercise differs from its source only in its session. */
  lemma CopiedRow(w: WorkoutExercise, session: Id)
    ensures RowOf(session, DataOf(w)) == w.(session := session)
  {
  }

  /** The rows `ids` whose library exercise still exists, in order: the inner
      loop skips the others. */
  function Kept(exercises: map<Id, Exercise>, rows: map<Id, WorkoutExercise>, ids: seq<Id>): seq<ExerciseData>
    requires forall i :: 0 <= i < |ids| ==> ids[i] in rows
  {
    if ids == [] then []
    else (if rows[ids[0]].exercise in exercises then [DataOf(rows[ids[0]])] else []) + Kept(exercises, rows, ids[1..])
  }

  /** Every kept row's exercise exists. */
  lemma {:induction false} KeptExist(exercises: map<Id, Exercise>, rows: map<Id, WorkoutExercise>, ids: seq<Id>)
    requires forall i :: 0 <= i < |ids| ==> ids[i] in rows
    ensures AllExist(exercises, Kept(exercises, rows, ids))
  {
    if ids != [] {
      KeptExist(exercises, rows, ids[1..]);
    }
  }

  /** When every row's exercise exists, nothing is skipped. */
  lemma {:induction false} KeptAll(exercises: map<Id, Exercise>, rows: map<Id, WorkoutExercise>, ids: seq<Id>)
    requires forall i :: 0 <= i < |ids| ==> ids[i] in rows && rows[ids[i]].exercise in exercises
    ensures |Kept(exercises, rows, ids)| == |ids|
    ensures forall i :: 0 <= i < |ids| ==> Kept(exercises, rows, ids)[i] == DataOf(rows[ids[i]])
  {
    if ids != [] {
      KeptAll(exercises, rows, ids[1..]);
    }
  }

  /** `program.sessions.all()`: the program's sessions in their default order. */
  function OrderedSessions(sessions: map<Id, Session>, program: Id, bound: nat): (r: seq<Id>)
    requires Below(sessions.Keys, bound)
    ensures NoDuplicates(r) && |r| == |SessionsOf(sessions, program)|
    ensures forall i :: 0 <= i < |r| ==> r[i] in SessionsOf(sessions, program)
  {
    OrderedIds(SessionsOf(sessions, program), bound, SessionOrder(sessions))
  }

  /** `session.exercises.all()`: the session's workout-exercises in key order,
      which over the model's counter keys is creation order. */
  function OrderedRows(rows: map<Id, WorkoutExercise>, session: Id, bound: nat): (r: seq<Id>)
    requires Below(rows.Keys, bound)
    ensures NoDuplicates(r) && |r| == |RowsOf(rows, session)|
    ensures forall i :: 0 <= i < |r| ==> r[i] in RowsOf(rows, session)
  {
    OrderedIds(RowsOf(rows, session), bound, WorkoutExerciseOrder())
  }

  /** What the clone writes for each source session, in order. */
  function CloneData(exercises: map<Id, Exercise>, sessions: map<Id, Session>, rows: map<Id, WorkoutExercise>, bound: nat, order: seq<Id>): seq<SessionData>
    requires Below(rows.Keys, bound)
    requires forall i :: 0 <= i < |order| ==> order[i] in sessions
  {
    seq(|order|, i requires 0 <= i < |order| =>
      SessionData(CopyFields(sessions[order[i]]), Kept(exercises, rows, OrderedRows(rows, order[i], bound))))
  }

  /** The clone's session data read from the tables. */
  function CloneDataOf(t: Tables, order: seq<Id>): seq<SessionData>
    requires Below(t.workoutExercises.Keys, t.nextId)
    requires forall i :: 0 <= i < |order| ==> order[i] in t.sessions
  {
    CloneData(t.exercises, t.sessions, t.workoutExercises, t.nextId, order)
  }

  /** `clone_program`: Http404 for a missing program; otherwise, with no
      ownership check, the copy is written under a fresh key, then each session
      in order with its surviving exercises in key order. */
  function Clone(t: Tables, actor: Id, programId: Id, now: Timestamp, slugify: string -> string): (Result<Id>, Tables)
    requires Below(t.sessions.Keys, t.nextId) && Below(t.workoutExercises.Keys, t.nextId)
  {
    if programId !in t.programs then (Err(Http404), t)
    else
      var data := CloneDataOf(t, OrderedSessions(t.sessions, programId, t.nextId));
      (Ok(t.nextId), AddSessions(AddProgramRow(t, CopyOf(t.programs[programId], actor, now, slugify)), t.nextId, actor, data, now, slugify).1)
  }

  /** Every exercise list a clone writes validates. */
  lemma CloneDataValid(t: Tables, order: seq<Id>)
    requires Below(t.workoutExercises.Keys, t.nextId)
    requires forall i :: 0 <= i < |order| ==> order[i] in t.sessions
    ensures FirstInvalid(t.exercises, CloneDataOf(t, order)).None?
  {
    var data := CloneDataOf(t, order);
    forall i | 0 <= i < |data| ensures AllExist(t.exercises, data[i].exercises) {
      KeptExist(t.exercises, t.workoutExercises, OrderedRows(t.workoutExercises, order[i], t.nextId));
    }
  }

  /** Cloning fails only for a missing program, changing nothing. Otherwise the
      copy is written under a fresh key and no other program row changes. */
  lemma CloneCopiesProgram(t: Tables, actor: Id, programId: Id, now: Timestamp, slugify: string -> string)
    requires Below(t.programs.Keys, t.nextId) && Below(t.sessions.Keys, t.nextId) && Below(t.workoutExercises.Keys, t.nextId)
    ensures var (r, t1) := Clone(t, actor, programId, now, slugify);
      (r.Ok? <==> programId in t.programs) && (r.Err? ==> r == Err(Http404) && t1 == t)
    ensures var (r, t1) := Clone(t, actor, programId, now, slugify);
      r.Ok? ==> (r.value == t.nextId && r.value !in t.programs &&
        t1.programs == t.programs[r.value := CopyOf(t.programs[programId], actor, now, slugify)])
  {
    if programId in t.programs {
      var data := CloneDataOf(t, OrderedSessions(t.sessions, programId, t.nextId));
      AddSessionsResult(AddProgramRow(t, CopyOf(t.programs[programId], actor, now, slugify)), t.nextId, actor, data, now, slugify);
    }
  }

  /** A clone gets as many sessions as the original has, and no row that was
      there before changes. */
  lemma CloneCopiesSessions(t: Tables, actor: Id, programId: Id, now: Timestamp, slugify: string -> string)
    requires programId in t.programs
    requires Below(t.programs.Keys, t.nextId) && Below(t.sessions.Keys, t.nextId) && Below(t.workoutExercises.Keys, t.nextId)
    requires SessionsLinked(t)
    ensures var (r, t1) := Clone(t, actor, programId, now, slugify);
      |SessionsOf(t1.sessions, r.value)| == |SessionsOf(t.sessions, programId)| &&
      (forall s :: s in t.sessions ==> s in t1.sessions && t1.sessions[s] == t.sessions[s]) &&
      (forall w :: w in t.workoutExercises ==> w in t1.workoutExercises && t1.workoutExercises[w] == t.workoutExercises[w])
  {
    var order := OrderedSessions(t.sessions, programId, t.nextId);
    var data := CloneDataOf(t, order);
    var t0 := AddProgramRow(t, CopyOf(t.programs[programId], actor, now, slugify));
    assert SessionsOf(t0.sessions, t.nextId) == {} by {
      forall s | s in t0.sessions ensures t0.sessions[s].program != Some(t.nextId) {
        if t0.sessions[s].program.Some? {
          assert t0.sessions[s].program.value in t.programs;
        }
      }
    }
    CloneDataValid(t, order);
    assert Written(t.exercises, data) == |order|;
    AddSessionsCount(t0, t.nextId, actor, data, now, slugify);
    AddSessionsExtends(t0, t.nextId, actor, data, now, slugify);
  }

  /** When every workout-exercise points at an existing library exercise, as
      the schema guarantees, the clone skips none: each copied session is given
      every row of its source, in key order. */
  lemma CloneSkipsNothing(t: Tables, order: seq<Id>)
    requires Below(t.workoutExercises.Keys, t.nextId) && RowsLinked(t)
    requires forall i :: 0 <= i < |order| ==> order[i] in t.sessions
    ensures var data := CloneDataOf(t, order);
      forall i :: 0 <= i < |order| ==>
        var ids := OrderedRows(t.workoutExercises, order[i], t.nextId);
        |data[i].exercises| == |RowsOf(t.workoutExercises, order[i])| &&
        forall k :: 0 <= k < |ids| ==> data[i].exercises[k] == DataOf(t.workoutExercises[ids[k]])
  {
    forall i | 0 <= i < |order|
      ensures var ids := OrderedRows(t.workoutExercises, order[i], t.nextId);
        |CloneDataOf(t, order)[i].exercises| == |RowsOf(t.workoutExercises, order[i])| &&
        forall k :: 0 <= k < |ids| ==> CloneDataOf(t, order)[i].exercises[k] == DataOf(t.workoutExercises[ids[k]])
    {
      KeptAll(t.exercises, t.workoutExercises, OrderedRows(t.workoutExercises, order[i], t.nextId));
    }
  }

  /** Cloning keeps the integrity. */
  lemma CloneKeepsInvariant(t: Tables, actor: Id, programId: Id, now: Timestamp, slugify: string -> string)
    requires Invariant(t)
    ensures Invariant(Clone(t, actor, programId, now, slugify).1)
  {
    if programId in t.programs {
      var data := CloneDataOf(t, OrderedSessions(t.sessions, programId, t.nextId));
      NewProgramKeepsInvariant(t, CopyOf(t.programs[programId], actor, now, slugify), actor, data, now, slugify);
    }
  }

  /** The inner loop of `clone_program`: copy each row in turn, skipping one
      whose library exercise no longer exists. */
  method CopyRowsInto(db: Db, session: Id, rows: map<Id, WorkoutExercise>, ids: seq<Id>)
    requires forall i :: 0 <= i < |ids| ==> ids[i] in rows
    modifies db
    ensures db.T() == AddRows(old(db.T()), session, Kept(old(db.exercises), rows, ids))
    ensures db.exercises == old(db.exercises)
  {
    var k := 0;
    while k < |ids|
      invariant 0 <= k <= |ids|
      invariant db.exercises == old(db.exercises)
      invariant AddRows(old(db.T()), session, Kept(old(db.exercises), rows, ids)) ==
        AddRows(db.T(), session, Kept(old(db.exercises), rows, ids[k..]))
    {
      assert ids[k..][0] == ids[k] && ids[k..][1..] == ids[k + 1..];
      var w := rows[ids[k]];
      ghost var rest := Kept(old(db.exercises), rows, ids[k + 1..]);
      if w.exercise in db.exercises {
        assert ([DataOf(w)] + rest)[0] == DataOf(w) && ([DataOf(w)] + rest)[1..] == rest;
        db.workoutExercises := db.workoutExercises[db.nextId := RowOf(session, DataOf(w))];
        db.nextId := db.nextId + 1;
      } else {
        assert [] + rest == rest;
      }
      k := k + 1;
    }
    assert ids[k..] == [];
  }

  /** One pass of the outer loop of `clone_program`: the session copy, then its rows. */
  method CopySessionInto(db: Db, program: Id, actor: Id, fields: SessionPatch, rows: map<Id, WorkoutExercise>, ids: seq<Id>, now: Timestamp)
    requires forall i :: 0 <= i < |ids| ==> ids[i] in rows
    modifies db
    ensures db.T() == AddSession(old(db.T()), program, actor, SessionData(fields, Kept(old(db.exercises), rows, ids)), now, db.slugify)
    ensures db.exercises == old(db.exercises)
  {
    var session := AddSessionRowInto(db, program, actor, fields, now);
    CopyRowsInto(db, session, rows, ids);
  }

  /** The outer loop of `clone_program`, over the source sessions in order. */
  method CloneSessionsInto(db: Db, program: Id, actor: Id, sessions: map<Id, Session>, rows: map<Id, WorkoutExercise>,
                           bound: nat, order: seq<Id>, now: Timestamp)
    requires Below(rows.Keys, bound)
    requires forall i :: 0 <= i < |order| ==> order[i] in sessions
    requires FirstInvalid(db.exercises, CloneData(db.exercises, sessions, rows, bound, order)).None?
    modifies db
    ensures db.T() == AddSessions(old(db.T()), program, actor, CloneData(old(db.exercises), sessions, rows, bound, order), now, db.slugify).1
  {
    ghost var data := CloneData(db.exercises, sessions, rows, bound, order);
    var i := 0;
    while i < |order|
      invariant 0 <= i <= |order|
      invariant db.exercises == old(db.exercises)
      invariant AddSessions(old(db.T()), program, actor, data, now, db.slugify) == AddSessions(db.T(), program, actor, data[i..], now, db.slugify)
    {
      assert data[i..][0] == data[i] && data[i..][1..] == data[i + 1..];
      assert AllExist(db.exercises, data[i].exercises);
      CopySessionInto(db, program, actor, CopyFields(sessions[order[i]]), rows, OrderedRows(rows, order[i], bound), now);
      i := i + 1;
    }
    assert data[i..] == [];
  }

  method CloneProgram(db: Db, actor: Id, programId: Id, now: Timestamp) returns (r: Result<Id>)
    requires Invariant(db.T())
    modifies db
    ensures (r, db.T()) == Clone(old(db.T()), actor, programId, now, db.slugify)
    ensures Invariant(db.T())
  {
    CloneKeepsInvariant(db.T(), actor, programId, now, db.slugify);
    if programId !in db.programs {
      return Err(Http404);
    }
    ghost var t0 := db.T();
    var sessions, rows, bound := db.sessions, db.workoutExercises, db.nextId;
    var order := OrderedSessions(sessions, programId, bound);
    CloneDataValid(t0, order);
    var program := AddProgramInto(db, CopyOf(db.programs[programId], actor, now, db.slugify));
    CloneSessionsInto(db, program, actor, sessions, rows, bound, order, now);
    return Ok(program);
  }

  // ------------------------------------------------------------------
  // delete_program

  /** `delete_program`: Http404 for a missing program, Forbidden for anyone but
      its creator, else the program is deleted with its cascades. */
  function Delete(t: Tables, actor: Id, programId: Id): (Result<bool>, Tables) {
    if programId !in t.programs then (Err(Http404), t)
    else if t.programs[programId].createdBy != Some(actor) then (Err(Forbidden("You cannot delete this program.")), t)
    else (Ok(true), WithoutProgram(t, programId))
  }

  /** Only the creator may delete: anyone else, or a missing program, is
      refused with nothing changed; otherwise the call answers `True`. */
  lemma DeleteRefused(t: Tables, actor: Id, programId: Id)
    ensures var (r, t1) := Delete(t, actor, programId);
      (r.Ok? <==> programId in t.programs && t.programs[programId].createdBy == Some(actor)) &&
      (r.Ok? ==> r.value) &&
      (r.Err? ==> t1 == t && (r == Err(Http404) <==> programId !in t.programs))
  {
  }

  /** After a deletion the program is gone and no other program changes; its
      sessions survive with no program; its assignments are gone and no other
      assignment changes; no audit entry refers to it any more. */
  lemma DeleteRemovesProgram(t: Tables, actor: Id, programId: Id)
    requires programId in t.programs && t.programs[programId].createdBy == Some(actor)
    ensures var t1 := Delete(t, actor, programId).1;
      t1.programs.Keys == t.programs.Keys - {programId} &&
      (forall p :: p in t1.programs ==> t1.programs[p] == t.programs[p]) &&
      t1.sessions.Keys == t.sessions.Keys && SessionsOf(t1.sessions, programId) == {} &&
      (forall a :: a in t1.assignments <==> a in t.assignments && t.assignments[a].program != programId) &&
      (forall a :: a in t1.assignments ==> t1.assignments[a] == t.assignments[a]) &&
      (forall e :: e in t1.audits ==> t1.audits[e].program != Some(programId)) &&
      t1.workoutExercises == t.workoutExercises && t1.exercises == t.exercises
  {
  }

  /** A session of another program, or of none, is untouched by the deletion. */
  lemma DeleteKeepsOtherSessions(t: Tables, actor: Id, programId: Id, s: Id)
    requires programId in t.programs && s in t.sessions && t.sessions[s].program != Some(programId)
    ensures s in Delete(t, actor, programId).1.sessions && Delete(t, actor, programId).1.sessions[s] == t.sessions[s]
  {
  }

  lemma DeleteKeepsInvariant(t: Tables, actor: Id, programId: Id)
    requires Invariant(t)
    ensures Invariant(Delete(t, actor, programId).1)
  {
    if programId in t.programs && t.programs[programId].createdBy == Some(actor) {
      WithoutProgramKeepsInvariant(t, programId);
    }
  }

  /** `program.delete()` with its cascades. */
  method RemoveProgram(db: Db, programId: Id)
    modifies db
    ensures db.T() == WithoutProgram(old(db.T()), programId)
  {
    var t1 := WithoutProgram(db.T(), programId);
    db.programs, db.sessions, db.assignments, db.audits := t1.programs, t1.sessions, t1.assignments, t1.audits;
  }

  method DeleteProgram(db: Db, actor: Id, programId: Id) returns (r: Result<bool>)
    requires Invariant(db.T())
    modifies db
    ensures (r, db.T()) == Delete(old(db.T()), actor, programId)
    ensures Invariant(db.T())
  {
    DeleteKeepsInvariant(db.T(), actor, programId);
    if programId !in db.programs {
      return Err(Http404);
    }
    if db.programs[programId].createdBy != Some(actor) {
      return Err(Forbidden("You cannot delete this program."));
    }
    RemoveProgram(db, programId);
    return Ok(true);
  }

  // ------------------------------------------------------------------
  // publish_program

  /** `publish_program`: Http404 for a missing program, Forbidden for anyone but
      its creator, else the program is made public and saved. */
  function Publish(t: Tables, actor: Id, programId: Id, slugify: string -> string): (Result<Program>, Tables) {
    if programId !in t.programs then (Err(Http404), t)
    else if t.programs[programId].createdBy != Some(actor) then (Err(Forbidden("You cannot publish this program.")), t)
    else
      var p := SaveProgram(t.programs[programId].(isPublic := true), slugify);
      (Ok(p), t.(programs := t.programs[programId := p]))
  }

  /** Only the creator may publish; a refusal changes nothing. On success only
      the program row changes, and in it only the public flag (now set) and an
      empty slug (now filled); `is_published` is left as it was. */
  lemma PublishOutcome(t: Tables, actor: Id, programId: Id, slugify: string -> string)
    ensures var (r, t1) := Publish(t, actor, programId, slugify);
      (r.Ok? <==> programId in t.programs && t.programs[programId].createdBy == Some(actor)) &&
      (r.Err? ==> t1 == t && (r == Err(Http404) <==> programId !in t.programs))
    ensures var (r, t1) := Publish(t, actor, programId, slugify);
      r.Ok? ==> (t1 == t.(programs := t.programs[programId := r.value]) && r.value.isPublic &&
        r.value.isPublished == t.programs[programId].isPublished &&
        r.value.(isPublic := t.programs[programId].isPublic, slug := t.programs[programId].slug) == t.programs[programId])
  {
  }

  /** Publishing twice is publishing once. */
  lemma PublishIdempotent(t: Tables, actor: Id, programId: Id, slugify: string -> string)
    ensures var (r, t1) := Publish(t, actor, programId, slugify);
      Publish(t1, actor, programId, slugify) == (r, t1)
  {
    if programId in t.programs && t.programs[programId].createdBy == Some(actor) {
      var p := t.programs[programId];
      var p1 := SaveProgram(p.(isPublic := true), slugify);
      FillSlugIdempotent(p.slug, p.title, slugify);
      assert p1.(isPublic := true) == p1;
      assert SaveProgram(p1, slugify) == p1;
      var t1 := t.(programs := t.programs[programId := p1]);
      assert t1.(programs := t1.programs[programId := p1]) == t1;
    }
  }

  lemma PublishKeepsInvariant(t: Tables, actor: Id, programId: Id, slugify: string -> string)
    requires Invariant(t)
    ensures Invariant(Publish(t, actor, programId, slugify).1)
  {
    if programId in t.programs && t.programs[programId].createdBy == Some(actor) {
      SaveProgramKeepsInvariant(t, programId, Publish(t, actor, programId, slugify).0.value);
    }
  }

  method PublishProgram(db: Db, actor: Id, programId: Id) returns (r: Result<Program>)
    requires Invariant(db.T())
    modifies db
    ensures (r, db.T()) == Publish(old(db.T()), actor, programId, db.slugify)
    ensures Invariant(db.T())
  {
    PublishKeepsInvariant(db.T(), actor, programId, db.slugify);
    if programId !in db.programs {
      return Err(Http404);
    }
    if db.programs[programId].createdBy != Some(actor) {
      return Err(Forbidden("You cannot publish this program."));
    }
    var p := SaveProgram(db.programs[programId].(isPublic := true), db.slugify);
    db.programs := db.programs[programId := p];
    return Ok(p);
  }
}
