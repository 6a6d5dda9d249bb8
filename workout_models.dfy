/** apps/fitness/models/workout.py: the program tree (program, its sessions, their
    workout-exercises, each pointing into the exercise library), program
    assignments with their partial unique constraint, the field defaults, the
    `Meta.ordering` of each model, the slug defaulting of `save()`, and the
    upload-path builders.

    Fields the core never reads (images, muscle groups, categories, modalities,
    training systems, `off_percent`, `updated_at`) are not modelled. A file field
    is the stored file name, "" when there is none. */
module WorkoutModels {
  import opened Basics
  import opened Text
  import opened Exceptions
  import opened Ordering
  import FitnessEnums

  /** The `save()` override: `slug` is filled from the name or title only when
      it is empty. `slugify` is Django's, taken as a parameter. */
  function FillSlug(slug: string, source: string, slugify: string -> string): (r: string)
    ensures slug != "" ==> r == slug
    ensures slug == "" ==> r == slugify(source)
  {
    if slug == "" then slugify(source) else slug
  }

  /** Saving twice fills the slug the same way as saving once. */
  lemma FillSlugIdempotent(slug: string, source: string, slugify: string -> string)
    ensures FillSlug(FillSlug(slug, source, slugify), source, slugify) == FillSlug(slug, source, slugify)
  {
  }

  // ------------------------------------------------------------------
  // Exercise library

  datatype Exercise = Exercise(
    name: string,
    slug: string,
    level: string,
    intensity: string,
    createdBy: Id,
    createdAt: Timestamp,
    isActive: bool,
    isPublic: bool,
    isCustom: bool,
    isMultipleExercise: bool,
    popularity: nat,
    isVerified: bool)

  /** The writable attributes of an exercise; `None` leaves an attribute as it is. */
  datatype ExercisePatch = ExercisePatch(
    name: Option<string>,
    level: Option<string>,
    intensity: Option<string>,
    isPublic: Option<bool>,
    isCustom: Option<bool>,
    isMultipleExercise: Option<bool>)

  function NewExercise(createdBy: Id, now: Timestamp): (e: Exercise)
    ensures e.createdBy == createdBy && e.isActive && !e.isPublic && !e.isVerified && e.slug == ""
  {
    Exercise("", "", "", "", createdBy, now, true, false, false, false, 0, false)
  }

  function ApplyExercisePatch(e: Exercise, p: ExercisePatch): Exercise {
    e.(name := p.name.GetOr(e.name),
       level := p.level.GetOr(e.level),
       intensity := p.intensity.GetOr(e.intensity),
       isPublic := p.isPublic.GetOr(e.isPublic),
       isCustom := p.isCustom.GetOr(e.isCustom),
       isMultipleExercise := p.isMultipleExercise.GetOr(e.isMultipleExercise))
  }

  function SaveExercise(e: Exercise, slugify: string -> string): Exercise {
    e.(slug := FillSlug(e.slug, e.name, slugify))
  }

  // ------------------------------------------------------------------
  // Programs

  datatype Program = Program(
    title: string,
    slug: string,
    description: string,
    createdBy: Option<Id>,
    priceCents: int,
    duration: string,
    level: string,
    goal: string,
    durationWeeks: nat,
    isActive: bool,
    isPublished: bool,
    isPublic: bool,
    isCustom: bool,
    isVerified: bool,
    video: string,
    location: string,
    equipment: string,
    createdAt: Timestamp)

  /** The program attributes the builder serializer accepts. */
  datatype ProgramPatch = ProgramPatch(
    title: Option<string>,
    description: Option<string>,
    level: Option<string>,
    goal: Option<string>,
    duration: Option<string>,
    priceCents: Option<int>,
    isActive: Option<bool>,
    isPublic: Option<bool>,
    isCustom: Option<bool>,
    isVerified: Option<bool>,
    video: Option<string>,
    location: Option<string>,
    equipment: Option<string>)

  /** A program created with the field defaults: active, neither published, public
      nor verified, four weeks long. */
  function NewProgram(createdBy: Option<Id>, now: Timestamp): (p: Program)
    ensures p.createdBy == createdBy && p.createdAt == now
    ensures p.isActive && !p.isPublished && !p.isPublic && !p.isVerified && !p.isCustom
    ensures p.durationWeeks == 4 && p.priceCents == 0 && p.slug == ""
  {
    Program("", "", "", createdBy, 0, "", "", "", 4, true, false, false, false, false, "", "", "", now)
  }

  /** The `setattr` loop over the given attributes. */
  function ApplyProgramPatch(p: Program, d: ProgramPatch): (r: Program)
    ensures r.createdBy == p.createdBy && r.slug == p.slug && r.createdAt == p.createdAt
    ensures r.isPublished == p.isPublished && r.durationWeeks == p.durationWeeks
  {
    p.(title := d.title.GetOr(p.title),
       description := d.description.GetOr(p.description),
       level := d.level.GetOr(p.level),
       goal := d.goal.GetOr(p.goal),
       duration := d.duration.GetOr(p.duration),
       priceCents := d.priceCents.GetOr(p.priceCents),
       isActive := d.isActive.GetOr(p.isActive),
       isPublic := d.isPublic.GetOr(p.isPublic),
       isCustom := d.isCustom.GetOr(p.isCustom),
       isVerified := d.isVerified.GetOr(p.isVerified),
       video := d.video.GetOr(p.video),
       location := d.location.GetOr(p.location),
       equipment := d.equipment.GetOr(p.equipment))
  }

  const NoProgramChange := ProgramPatch(None, None, None, None, None, None, None, None, None, None, None, None, None)

  /** A patch overwrites exactly the attributes it carries: applying nothing is
      the identity, and applying the same patch twice is applying it once. */
  lemma ProgramPatchLaws(p: Program, d: ProgramPatch)
    ensures ApplyProgramPatch(p, NoProgramChange) == p
    ensures ApplyProgramPatch(ApplyProgramPatch(p, d), d) == ApplyProgramPatch(p, d)
    ensures d.title.Some? ==> ApplyProgramPatch(p, d).title == d.title.value
    ensures d.title.None? ==> ApplyProgramPatch(p, d).title == p.title
  {
  }

  function SaveProgram(p: Program, slugify: string -> string): Program {
    p.(slug := FillSlug(p.slug, p.title, slugify))
  }

  // ------------------------------------------------------------------
  // Sessions

  datatype Session = Session(
    slug: string,
    program: Option<Id>,
    createdBy: Option<Id>,
    title: string,
    notes: string,
    weekNumber: nat,
    equipments: string,
    location: string,
    sessionType: string,
    duration: string,
    intensity: string,
    popularity: nat,
    video: string,
    isPublic: bool,
    isRestDay: bool,
    createdAt: Timestamp)

  /** The session attributes a serializer accepts. */
  datatype SessionPatch = SessionPatch(
    title: Option<string>,
    notes: Option<string>,
    weekNumber: Option<nat>,
    equipments: Option<string>,
    location: Option<string>,
    sessionType: Option<string>,
    duration: Option<string>,
    intensity: Option<string>,
    isPublic: Option<bool>,
    isRestDay: Option<bool>)

  function NewSession(program: Option<Id>, createdBy: Option<Id>, now: Timestamp): (s: Session)
    ensures s.program == program && s.createdBy == createdBy && s.createdAt == now
    ensures s.weekNumber == 1 && !s.isPublic && !s.isRestDay && s.slug == ""
  {
    Session("", program, createdBy, "", "", 1, "", "", "", "", "", 0, "", false, false, now)
  }

  function ApplySessionPatch(s: Session, d: SessionPatch): (r: Session)
    ensures r.program == s.program && r.createdBy == s.createdBy && r.createdAt == s.createdAt
  {
    s.(title := d.title.GetOr(s.title),
       notes := d.notes.GetOr(s.notes),
       weekNumber := d.weekNumber.GetOr(s.weekNumber),
       equipments := d.equipments.GetOr(s.equipments),
       location := d.location.GetOr(s.location),
       sessionType := d.sessionType.GetOr(s.sessionType),
       duration := d.duration.GetOr(s.duration),
       intensity := d.intensity.GetOr(s.intensity),
       isPublic := d.isPublic.GetOr(s.isPublic),
       isRestDay := d.isRestDay.GetOr(s.isRestDay))
  }

  function SaveSession(s: Session, slugify: string -> string): Session {
    s.(slug := FillSlug(s.slug, s.title, slugify))
  }

  // ------------------------------------------------------------------
  // Workout-exercises

  datatype WorkoutExercise = WorkoutExercise(
    session: Id,
    exercise: Id,
    sets: nat,
    reps: nat,
    duration: string,
    restTime: string,
    tempo: string)

  datatype WorkoutExercisePatch = WorkoutExercisePatch(
    session: Option<Id>,
    exercise: Option<Id>,
    sets: Option<nat>,
    reps: Option<nat>,
    duration: Option<string>,
    restTime: Option<string>,
    tempo: Option<string>)

  function ApplyWorkoutExercisePatch(w: WorkoutExercise, d: WorkoutExercisePatch): WorkoutExercise {
    w.(session := d.session.GetOr(w.session),
       exercise := d.exercise.GetOr(w.exercise),
       sets := d.sets.GetOr(w.sets),
       reps := d.reps.GetOr(w.reps),
       duration := d.duration.GetOr(w.duration),
       restTime := d.restTime.GetOr(w.restTime),
       tempo := d.tempo.GetOr(w.tempo))
  }

  // ------------------------------------------------------------------
  // Assignments

  datatype Assignment = Assignment(
    client: Id,
    program: Id,
    coach: Option<Id>,
    request: Option<Id>,
    assignedAt: Timestamp,
    isActive: bool)

  function NewAssignment(client: Id, program: Id, coach: Option<Id>, request: Option<Id>, now: Timestamp): (a: Assignment)
    ensures a.isActive && a.assignedAt == now
  {
    Assignment(client, program, coach, request, now, true)
  }

  /** `unique_active_program_assignment`: among the active rows, at most one per
      (client, program). */
  predicate UniqueActiveAssignment(assignments: map<Id, Assignment>) {
    forall a, b ::
      (a in assignments && b in assignments && a != b && assignments[a].isActive && assignments[b].isActive) ==>
      (assignments[a].client != assignments[b].client || assignments[a].program != assignments[b].program)
  }

  /** The one-to-one `coach_service_request` link: a request is linked to at most
      one assignment. */
  predicate OneAssignmentPerRequest(assignments: map<Id, Assignment>) {
    forall a, b :: a in assignments && b in assignments && a != b && assignments[a].request.Some? ==>
      assignments[a].request != assignments[b].request
  }

  // ------------------------------------------------------------------
  // Program requests

  datatype ProgramRequest = ProgramRequest(
    client: Id,
    program: Option<Id>,
    status: string,
    details: string,
    createdAt: Timestamp)

  /** A request stores `RequestStatus.PENDING.name` by default, one of the names
      its `choices` allow. */
  function NewProgramRequest(client: Id, program: Option<Id>, details: string, now: Timestamp): (r: ProgramRequest)
    ensures r.status == FitnessEnums.RequestStatus.PENDING.Name()
    ensures exists i :: 0 <= i < |FitnessEnums.Choices()| && FitnessEnums.Choices()[i].0 == r.status
  {
    assert FitnessEnums.Choices()[0].0 == FitnessEnums.RequestStatus.PENDING.Name();
    ProgramRequest(client, program, FitnessEnums.RequestStatus.PENDING.Name(), details, now)
  }

  // ------------------------------------------------------------------
  // Orderings (`Meta.ordering`)

  /** `ordering = ['-assigned_at']`. */
  function AssignmentOrder(assignments: map<Id, Assignment>): Id -> Key {
    (id: Id) => if id in assignments then Key(-assignments[id].assignedAt, 0) else Key(0, 0)
  }

  /** A set of assignments in their default order: each once, newest first. */
  function NewestFirst(rows: set<Id>, assignments: map<Id, Assignment>, bound: nat): (r: seq<Id>)
    requires Below(rows, bound) && rows <= assignments.Keys
    ensures NoDuplicates(r) && forall x :: x in r <==> x in rows
    ensures forall i, j :: 0 <= i < j < |r| ==> assignments[r[i]].assignedAt >= assignments[r[j]].assignedAt
  {
    AssignmentsNewestFirst(rows, assignments, bound);
    OrderedIds(rows, bound, AssignmentOrder(assignments))
  }

  /** The ordered keys come out newest first. */
  lemma AssignmentsNewestFirst(rows: set<Id>, assignments: map<Id, Assignment>, bound: nat)
    requires Below(rows, bound) && rows <= assignments.Keys
    ensures var r := OrderedIds(rows, bound, AssignmentOrder(assignments));
      forall i, j :: 0 <= i < j < |r| ==> assignments[r[i]].assignedAt >= assignments[r[j]].assignedAt
  {
    var r := OrderedIds(rows, bound, AssignmentOrder(assignments));
    forall i, j | 0 <= i < j < |r| ensures assignments[r[i]].assignedAt >= assignments[r[j]].assignedAt {
      assert KeyLe(AssignmentOrder(assignments)(r[i]), AssignmentOrder(assignments)(r[j]));
    }
  }

  /** `ordering = ['week_number', 'created_at']`. */
  function SessionOrder(sessions: map<Id, Session>): Id -> Key {
    (id: Id) => if id in sessions then Key(sessions[id].weekNumber, sessions[id].createdAt) else Key(0, 0)
  }

  /** Sessions in this order come by non-decreasing week number. */
  lemma SessionOrderByWeek(sessions: map<Id, Session>, r: seq<Id>, i: nat, j: nat)
    requires SortedBy(r, SessionOrder(sessions)) && i <= j < |r| && r[i] in sessions && r[j] in sessions
    ensures sessions[r[i]].weekNumber <= sessions[r[j]].weekNumber
  {
    if i < j {
      assert KeyLe(SessionOrder(sessions)(r[i]), SessionOrder(sessions)(r[j]));
    }
  }

  /** `ordering = ['id']`. The source's ids are random UUIDs, so there this order
      is arbitrary; over the model's counter keys it is creation order. */
  function WorkoutExerciseOrder(): Id -> Key {
    (id: Id) => Key(id, 0)
  }

  // ------------------------------------------------------------------
  // Relations

  /** The sessions of a program (`program.sessions`). */
  function SessionsOf(sessions: map<Id, Session>, program: Id): set<Id> {
    set s | s in sessions && sessions[s].program == Some(program)
  }

  /** The assignments of one (client, program) pair. */
  function PairRows(assignments: map<Id, Assignment>, client: Id, program: Id): set<Id> {
    set a | a in assignments && assignments[a].client == client && assignments[a].program == program
  }

  /** The active assignments of one (client, program) pair. */
  function ActiveRows(assignments: map<Id, Assignment>, client: Id, program: Id): set<Id> {
    set a | a in assignments && assignments[a].client == client && assignments[a].program == program &&
      assignments[a].isActive
  }

  /** The workout-exercises of a session (`session.exercises`). */
  function RowsOf(rows: map<Id, WorkoutExercise>, session: Id): set<Id> {
    set w | w in rows && rows[w].session == session
  }

  // ------------------------------------------------------------------
  // Upload paths

  datatype OwnerKind = Exercises | Programs | Sessions
  datatype MediaKind = Images | Videos

  function OwnerDir(k: OwnerKind): string {
    match k
    case Exercises => "exercises"
    case Programs => "programs"
    case Sessions => "sessions"
  }

  function MediaDir(m: MediaKind): string {
    match m
    case Images => "images"
    case Videos => "videos"
  }

  /** "users/{uid}/workout/{kind}/{id}/{media}/{filename}", where uid is the
      creator's id; a null creator has no `.id` and raises AttributeError. */
  function MediaPath(createdBy: Option<Id>, kind: OwnerKind, objectId: Id, media: MediaKind, filename: string): (r: Result<string>)
    ensures r.Ok? <==> createdBy.Some?
    ensures r.Err? ==> r.error == AttributeError
    ensures r.Ok? ==> (Split(r.value, '/') ==
      ["users", NatToString(createdBy.value), "workout", OwnerDir(kind), NatToString(objectId), MediaDir(media)] + Split(filename, '/'))
  {
    match createdBy
    case None => Err(AttributeError)
    case Some(uid) =>
      var segments := ["users", NatToString(uid), "workout", OwnerDir(kind), NatToString(objectId), MediaDir(media)];
      NatToStringNoSlash(uid);
      NatToStringNoSlash(objectId);
      assert forall i :: 0 <= i < |segments| ==> '/' !in segments[i];
      SplitJoinPath(segments, filename);
      Ok(JoinPath(segments, filename))
  }

  /** `exercise_image_upload_to` for an image of exercise `exerciseId`. */
  function ExerciseImageUploadTo(exercise: Exercise, exerciseId: Id, filename: string): Result<string> {
    MediaPath(Some(exercise.createdBy), Exercises, exerciseId, Images, filename)
  }

  /** `exercise_video_upload_to` for a video of exercise `exerciseId`. */
  function ExerciseVideoUploadTo(exercise: Exercise, exerciseId: Id, filename: string): Result<string> {
    MediaPath(Some(exercise.createdBy), Exercises, exerciseId, Videos, filename)
  }

  /** `program_image_upload_to` for an image of program `programId`. */
  function ProgramImageUploadTo(program: Program, programId: Id, filename: string): Result<string> {
    MediaPath(program.createdBy, Programs, programId, Images, filename)
  }

  /** `program_video_upload_to` for the video of program `programId`. */
  function ProgramVideoUploadTo(program: Program, programId: Id, filename: string): Result<string> {
    MediaPath(program.createdBy, Programs, programId, Videos, filename)
  }

  /** `session_image_upload_to` for an image of session `sessionId`. */
  function SessionImageUploadTo(session: Session, sessionId: Id, filename: string): Result<string> {
    MediaPath(session.createdBy, Sessions, sessionId, Images, filename)
  }

  /** `session_video_upload_to` for the video of session `sessionId`. */
  function SessionVideoUploadTo(session: Session, sessionId: Id, filename: string): Result<string> {
    MediaPath(session.createdBy, Sessions, sessionId, Videos, filename)
  }

  /** An exercise always has a creator, so its paths always build. */
  lemma ExercisePathsBuild(e: Exercise, id: Id, filename: string)
    ensures ExerciseImageUploadTo(e, id, filename).Ok? && ExerciseVideoUploadTo(e, id, filename).Ok?
  {
  }
}
