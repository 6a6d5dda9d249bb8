/** The database the services read and write: one table per model the core
    touches, a counter handing out fresh primary keys, and the integrity the
    schema enforces (foreign keys, the unique constraints the services rely
    on). `slugify` is Django's text helper, fixed for the lifetime of the
    store. */
module Store {
  import opened Basics
  import opened Money
  import opened AccountModels
  import opened WorkoutModels
  import opened AuditModel
  import opened CoachClientModel
  import opened CoachServiceModel
  import opened PaymentTransactionModel
  import opened RevenueSplitModel
  import opened SubscriptionModel

  /** The contents of every table at one moment. */
  datatype Tables = Tables(
    users: map<Id, User>,
    exercises: map<Id, Exercise>,
    programs: map<Id, Program>,
    sessions: map<Id, Session>,
    workoutExercises: map<Id, WorkoutExercise>,
    assignments: map<Id, Assignment>,
    audits: map<Id, AuditEntry>,
    coachClients: map<Id, CoachClient>,
    services: map<Id, CoachService>,
    requests: map<Id, ServiceRequest>,
    transactions: map<Id, PaymentTransaction>,
    splits: map<Id, RevenueSplit>,
    settlements: map<Id, Settlement>,
    plans: map<Id, Plan>,
    subscriptions: map<Id, Subscription>,
    nextId: nat)

  /** No table holds a key that the counter has yet to hand out. */
  predicate Fresh(t: Tables) {
    var n := t.nextId;
    Below(t.users.Keys, n) && Below(t.exercises.Keys, n) && Below(t.programs.Keys, n) &&
    Below(t.sessions.Keys, n) && Below(t.workoutExercises.Keys, n) && Below(t.assignments.Keys, n) &&
    Below(t.audits.Keys, n) && Below(t.coachClients.Keys, n) && Below(t.services.Keys, n) &&
    Below(t.requests.Keys, n) && Below(t.transactions.Keys, n) && Below(t.splits.Keys, n) &&
    Below(t.settlements.Keys, n) && Below(t.plans.Keys, n) && Below(t.subscriptions.Keys, n)
  }

  /** The foreign keys of the program tree: a workout-exercise points at an
      existing session and library exercise (both `CASCADE`), a session at an
      existing program or at none (`SET_NULL`). */
  predicate TreeLinked(t: Tables) {
    RowsLinked(t) && SessionsLinked(t)
  }

  predicate RowsLinked(t: Tables) {
    forall w :: w in t.workoutExercises ==>
      t.workoutExercises[w].session in t.sessions && t.workoutExercises[w].exercise in t.exercises
  }

  predicate SessionsLinked(t: Tables) {
    forall s :: s in t.sessions && t.sessions[s].program.Some? ==> t.sessions[s].program.value in t.programs
  }

  /** The assignment table's constraints: one active row per (client, program),
      one row per request, and existing client and program (`CASCADE`). */
  predicate AssignmentsValid(t: Tables) {
    UniqueActiveAssignment(t.assignments) && OneAssignmentPerRequest(t.assignments) &&
    forall a :: a in t.assignments ==> t.assignments[a].program in t.programs && t.assignments[a].client in t.users
  }

  /** A request's service, when set, exists (`SET_NULL`). */
  predicate RequestsLinked(t: Tables) {
    forall r :: r in t.requests && t.requests[r].service.Some? ==> t.requests[r].service.value in t.services
  }

  /** Every stored amount fits its `DecimalField(max_digits=10, decimal_places=2)`. */
  predicate AmountsFit(t: Tables) {
    forall x :: x in t.transactions ==> FitsAmount(t.transactions[x].amountCents)
  }

  predicate Invariant(t: Tables) {
    Fresh(t) && TreeLinked(t) && AssignmentsValid(t) && RequestsLinked(t) && AmountsFit(t) && UniquePairs(t.coachClients)
  }

  /** An empty database. */
  function Empty(): (t: Tables)
    ensures Invariant(t) && t.nextId == 0
  {
    Tables(map[], map[], map[], map[], map[], map[], map[], map[], map[], map[], map[], map[], map[], map[], map[], 0)
  }

  class Db {
    var users: map<Id, User>
    var exercises: map<Id, Exercise>
    var programs: map<Id, Program>
    var sessions: map<Id, Session>
    var workoutExercises: map<Id, WorkoutExercise>
    var assignments: map<Id, Assignment>
    var audits: map<Id, AuditEntry>
    var coachClients: map<Id, CoachClient>
    var services: map<Id, CoachService>
    var requests: map<Id, ServiceRequest>
    var transactions: map<Id, PaymentTransaction>
    var splits: map<Id, RevenueSplit>
    var settlements: map<Id, Settlement>
    var plans: map<Id, Plan>
    var subscriptions: map<Id, Subscription>
    var nextId: nat
    const slugify: string -> string

    /** The current contents of the database. */
    function T(): Tables
      reads this
    {
      Tables(users, exercises, programs, sessions, workoutExercises, assignments, audits, coachClients,
        services, requests, transactions, splits, settlements, plans, subscriptions, nextId)
    }

    constructor (slugify: string -> string)
      ensures T() == Empty() && this.slugify == slugify
    {
      users, exercises, programs, sessions, workoutExercises := map[], map[], map[], map[], map[];
      assignments, audits, coachClients, services, requests := map[], map[], map[], map[], map[];
      transactions, splits, settlements, plans, subscriptions := map[], map[], map[], map[], map[];
      nextId := 0;
      this.slugify := slugify;
    }

    /** Hands out the next primary key. */
    method NewId() returns (id: Id)
      modifies this
      ensures id == old(nextId)
      ensures T() == old(T()).(nextId := id + 1)
    {
      id := nextId;
      nextId := nextId + 1;
    }
  }

  /** Handing out a key keeps every table's keys below the counter. */
  lemma BumpKeepsInvariant(t: Tables)
    requires Invariant(t)
    ensures Invariant(t.(nextId := t.nextId + 1))
  {
  }

  /** Saving an existing transaction whose amount fits keeps the integrity. */
  lemma SaveTransactionKeepsInvariant(t: Tables, id: Id, x: PaymentTransaction)
    requires Invariant(t) && id in t.transactions && FitsAmount(x.amountCents)
    ensures Invariant(t.(transactions := t.transactions[id := x]))
  {
  }

  /** Saving an existing request that keeps its service keeps the integrity. */
  lemma SaveRequestKeepsInvariant(t: Tables, id: Id, x: ServiceRequest)
    requires Invariant(t) && id in t.requests && x.service == t.requests[id].service
    ensures Invariant(t.(requests := t.requests[id := x]))
  {
  }

  /** Recording a settlement under the next key keeps the integrity. */
  lemma AddSettlementKeepsInvariant(t: Tables, x: Settlement)
    requires Invariant(t)
    ensures Invariant(t.(settlements := t.settlements[t.nextId := x], nextId := t.nextId + 1))
  {
  }

  /** Saving an existing subscription, or adding one under the next key, keeps
      the integrity: no constraint involves subscriptions. */
  lemma SubscriptionWritesKeepInvariant(t: Tables, id: Id, x: Subscription)
    requires Invariant(t)
    ensures id in t.subscriptions ==> Invariant(t.(subscriptions := t.subscriptions[id := x]))
    ensures Invariant(t.(subscriptions := t.subscriptions[t.nextId := x], nextId := t.nextId + 1))
  {
  }

  /** Writing assignment `x` under key `id` respects the assignment table's
      constraints: its client and program exist, no other row of its pair is
      active while it is, and no other row holds its request. */
  predicate AssignmentFits(t: Tables, id: Id, x: Assignment) {
    x.client in t.users && x.program in t.programs &&
    (x.isActive ==> forall a :: a in t.assignments && a != id && t.assignments[a].isActive ==>
      t.assignments[a].client != x.client || t.assignments[a].program != x.program) &&
    (x.request.Some? ==> forall a :: a in t.assignments && a != id ==> t.assignments[a].request != x.request)
  }

  /** Saving an existing assignment that fits keeps the integrity. */
  lemma SaveAssignmentKeepsInvariant(t: Tables, id: Id, x: Assignment)
    requires Invariant(t) && id in t.assignments && AssignmentFits(t, id, x)
    ensures Invariant(t.(assignments := t.assignments[id := x]))
  {
  }

  /** An existing assignment with `is_active` cleared still fits its key. */
  lemma DeactivatedFits(t: Tables, id: Id)
    requires Invariant(t) && id in t.assignments
    ensures AssignmentFits(t, id, t.assignments[id].(isActive := false))
  {
    var x := t.assignments[id];
    if x.request.Some? {
      forall a | a in t.assignments && a != id ensures t.assignments[a].request != x.request {
        assert id in t.assignments && a in t.assignments && id != a && t.assignments[id].request.Some?;
      }
    }
  }

  /** Adding an assignment that fits under the next key keeps the integrity. */
  lemma AddAssignmentKeepsInvariant(t: Tables, x: Assignment)
    requires Invariant(t) && AssignmentFits(t, t.nextId, x)
    ensures Invariant(t.(assignments := t.assignments[t.nextId := x], nextId := t.nextId + 1))
  {
  }

  /** Adding an audit entry under the next key keeps the integrity. */
  lemma AddAuditKeepsInvariant(t: Tables, x: AuditEntry)
    requires Invariant(t)
    ensures Invariant(t.(audits := t.audits[t.nextId := x], nextId := t.nextId + 1))
  {
  }

  /** Adding a coach-client link for a pair not yet linked keeps the integrity. */
  lemma AddLinkKeepsInvariant(t: Tables, x: CoachClient)
    requires Invariant(t) && !Linked(t.coachClients, x.coach, x.client)
    ensures Invariant(t.(coachClients := t.coachClients[t.nextId := x], nextId := t.nextId + 1))
  {
    AddLinkKeepsUnique(t.coachClients, t.nextId, x);
  }

  // ------------------------------------------------------------------
  // The program tree

  /** Adding a program under the next key keeps the integrity. */
  lemma AddProgramKeepsInvariant(t: Tables, x: Program)
    requires Invariant(t)
    ensures Invariant(t.(programs := t.programs[t.nextId := x], nextId := t.nextId + 1))
  {
  }

  /** Saving an existing program keeps the integrity. */
  lemma SaveProgramKeepsInvariant(t: Tables, id: Id, x: Program)
    requires Invariant(t) && id in t.programs
    ensures Invariant(t.(programs := t.programs[id := x]))
  {
  }

  /** Adding a session under the next key keeps the integrity when its program,
      if any, exists. */
  lemma AddSessionKeepsInvariant(t: Tables, x: Session)
    requires Invariant(t) && (x.program.Some? ==> x.program.value in t.programs)
    ensures Invariant(t.(sessions := t.sessions[t.nextId := x], nextId := t.nextId + 1))
  {
  }

  /** Saving an existing session keeps the integrity when its program, if any,
      exists. */
  lemma SaveSessionKeepsInvariant(t: Tables, id: Id, x: Session)
    requires Invariant(t) && id in t.sessions && (x.program.Some? ==> x.program.value in t.programs)
    ensures Invariant(t.(sessions := t.sessions[id := x]))
  {
  }

  /** Adding a workout-exercise under the next key keeps the integrity when its
      session and library exercise exist. */
  lemma AddRowKeepsInvariant(t: Tables, x: WorkoutExercise)
    requires Invariant(t) && x.session in t.sessions && x.exercise in t.exercises
    ensures Invariant(t.(workoutExercises := t.workoutExercises[t.nextId := x], nextId := t.nextId + 1))
  {
  }

  /** Saving an existing workout-exercise keeps the integrity when its session
      and library exercise exist. */
  lemma SaveRowKeepsInvariant(t: Tables, id: Id, x: WorkoutExercise)
    requires Invariant(t) && id in t.workoutExercises && x.session in t.sessions && x.exercise in t.exercises
    ensures Invariant(t.(workoutExercises := t.workoutExercises[id := x]))
  {
  }

  /** Deleting a workout-exercise keeps the integrity: nothing points at one. */
  lemma DeleteRowKeepsInvariant(t: Tables, id: Id)
    requires Invariant(t)
    ensures Invariant(t.(workoutExercises := t.workoutExercises - {id}))
  {
  }

  /** Adding a library exercise under the next key keeps the integrity. */
  lemma AddExerciseKeepsInvariant(t: Tables, x: Exercise)
    requires Invariant(t)
    ensures Invariant(t.(exercises := t.exercises[t.nextId := x], nextId := t.nextId + 1))
  {
  }

  /** Saving an existing library exercise keeps the integrity. */
  lemma SaveExerciseKeepsInvariant(t: Tables, id: Id, x: Exercise)
    requires Invariant(t) && id in t.exercises
    ensures Invariant(t.(exercises := t.exercises[id := x]))
  {
  }

  /** Deleting the sessions in `gone`: their workout-exercises go with them
      (`CASCADE`). */
  function WithoutSessions(t: Tables, gone: set<Id>): Tables {
    t.(sessions := map s | s in t.sessions && s !in gone :: t.sessions[s],
       workoutExercises := map w | w in t.workoutExercises && t.workoutExercises[w].session !in gone :: t.workoutExercises[w])
  }

  /** Deleting sessions keeps the integrity: every remaining workout-exercise
      belongs to a remaining session. */
  lemma WithoutSessionsKeepsInvariant(t: Tables, gone: set<Id>)
    requires Invariant(t)
    ensures Invariant(WithoutSessions(t, gone))
  {
  }

  /** A session once its program is deleted (`SET_NULL`). */
  function Unlinked(s: Session, program: Id): (r: Session)
    ensures r.program != Some(program)
    ensures s.program == Some(program) ==> r == s.(program := None)
    ensures s.program != Some(program) ==> r == s
  {
    if s.program == Some(program) then s.(program := None) else s
  }

  /** An audit entry once its program and the assignments in `gone` are deleted
      (`SET_NULL` on both links). */
  function Detached(e: AuditEntry, program: Id, gone: set<Id>): (r: AuditEntry)
    ensures r.program != Some(program) && (r.assignment.Some? ==> r.assignment.value !in gone)
    ensures r.(program := e.program, assignment := e.assignment) == e
    ensures e.program == Some(program) ==> r.program == None
    ensures e.program != Some(program) ==> r.program == e.program
    ensures e.assignment.Some? && e.assignment.value in gone ==> r.assignment == None
    ensures !(e.assignment.Some? && e.assignment.value in gone) ==> r.assignment == e.assignment
  {
    e.(program := if e.program == Some(program) then None else e.program,
       assignment := if e.assignment.Some? && e.assignment.value in gone then None else e.assignment)
  }

  /** The assignments of a program. */
  function AssignmentsOf(assignments: map<Id, Assignment>, program: Id): set<Id> {
    set a | a in assignments && assignments[a].program == program
  }

  /** Deleting a program: its sessions stay with no program (`SET_NULL`), its
      assignments go (`CASCADE`), and audit entries lose their links to both
      (`SET_NULL`). */
  function WithoutProgram(t: Tables, program: Id): Tables {
    var gone := AssignmentsOf(t.assignments, program);
    t.(programs := t.programs - {program},
       sessions := map s | s in t.sessions :: Unlinked(t.sessions[s], program),
       assignments := map a | a in t.assignments && a !in gone :: t.assignments[a],
       audits := map e | e in t.audits :: Detached(t.audits[e], program, gone))
  }

  /** Deleting a program keeps the integrity. */
  lemma WithoutProgramKeepsInvariant(t: Tables, program: Id)
    requires Invariant(t)
    ensures Invariant(WithoutProgram(t, program))
  {
    var t1 := WithoutProgram(t, program);
    forall s | s in t1.sessions && t1.sessions[s].program.Some? ensures t1.sessions[s].program.value in t1.programs {
      assert t1.sessions[s] == Unlinked(t.sessions[s], program);
    }
  }

  /** Replacing the workout-exercise table and advancing the counter keeps the
      integrity when every row points at an existing session and library
      exercise and every key is below the new counter. */
  lemma RowsGrowKeepsInvariant(t: Tables, rows: map<Id, WorkoutExercise>, next: nat)
    requires Invariant(t) && next >= t.nextId && Below(rows.Keys, next)
    requires forall w :: w in rows ==> rows[w].session in t.sessions && rows[w].exercise in t.exercises
    ensures Invariant(t.(workoutExercises := rows, nextId := next))
  {
  }
}
