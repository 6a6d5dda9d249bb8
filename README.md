# Fitness coaching backend: service layer in Dafny

This project models the service layer of a fitness-coaching backend built on Django. The system has users with coach and gym-owner roles. Coaches author workout programs: a program holds sessions, and each session holds workout-exercises drawn from an exercise library. Coaches assign programs to clients, optionally against a paid coach-service request, and every assignment change lands in an append-only audit log. On the payments side there are coach services and requests to them, payment transactions, revenue splits and subscriptions.

How the model is built:

- **The store.** A class `Store.Db` holds every table as a `map` from key to row, together with a key counter. Each service operation is a method that `modifies db`. Its `ensures` ties the new tables, `db.T()`, to a specification function of the old ones, `old(db.T())`. Each operation also keeps the store's integrity invariant, `Store.Invariant`. That invariant covers:
  - every foreign key;
  - at most one active assignment per (client, program) pair;
  - at most one assignment per coach-service request;
  - unique (coach, client) links;
  - amounts that fit their decimal columns.
- **Specification functions and lemmas.** What the source promises is proved about those functions:
  - error ladders in code order;
  - "a refusal writes nothing";
  - "nothing else changes";
  - counts after create, update and clone;
  - idempotence of publishing and of settling a payment;
  - the ordering of listing queries.
- **Pure parts.** Model defaults, `clean` checks, permission predicates, serializer validators, storage-path builders, enum choices, the exception hierarchy and the money arithmetic are modelled as datatypes and functions.
- **Modules.** There is one Dafny module per source file, plus a few shared ones:
  - `Basics`: keys, timestamps, `Option`, `Result`;
  - `Ordering`: the stable key order behind `order_by` and `.first()`;
  - `Text`;
  - `Money`: integer cents with Python's half-even `round`;
  - `Json`: metadata objects;
  - `Binding`: how Python binds keyword arguments and imports, used by the findings.

Conventions:

- Keys are natural numbers drawn from the counter; the source uses UUIDs. Two rows that tie in an ordering are ordered by key.
- The clock (`timezone.now`), `slugify` and `parse_date` are parameters of the calls that use them. `slugify` is a field of the store.
- `transaction.atomic` and `select_for_update` are modelled sequentially. An atomic call that fails leaves the tables unchanged.
- Code outside `atomic`, such as `create_program_with_sessions`, keeps whatever it wrote before the failure.
- Django's `get_object_or_404` is the error `Http404`. A violated database constraint is `IntegrityError`. A payment-transaction amount too wide for its decimal column is `DataError` (`PaymentTransactionService.CreateTransaction`, `TransactionService.CreatePayment`), and so is a revenue-split amount or percentage outside its column (`RevenueSplitService.CreateSplit`). No other column width is checked.

Behaviour of the code that the model keeps:

- Publishing sets only `is_public`, not `is_published`.
- Deleting a program keeps its sessions, with their program link cleared.
- Updating a session or a workout-exercise may move it into a program or session that someone else owns.
- `get_session` and `list_sessions` do no access check.

## Model

| member | source | states |
|---|---|---|
| Basics.DateOf | apps/fitness/services/program_assignment_service.py:215-221 | the date of a time stamp is the day it falls in: day·86400 ≤ t < (day+1)·86400 |
| Exceptions.DefaultMessage | config/utils/exceptions.py:8-24 | each class's default message, never empty: "Application error", "Bad request", "Resource not found", the permission text |
| Exceptions.Raise | config/utils/exceptions.py:10-12 | the exception keeps the given message when it is non-empty, and the class default when it is absent or empty |
| Exceptions.SubclassesDisjoint | config/utils/exceptions.py:3-24 | every exception is an AppException, and no exception is an instance of two of the three subclasses |
| FitnessEnums.Members | apps/fitness/enums.py:4-8 | the enum has exactly four pairwise distinct members, and every member is among them |
| FitnessEnums.Choices | apps/fitness/enums.py:10-12 | one (name, value) pair per member, at the member's position in declaration order |
| FitnessEnums.ChoiceNamesDistinct | apps/fitness/enums.py:5-12 | the names in `choices()` are pairwise distinct and every member's name is among them |
| BasePermissions.IsActiveUserPermission | apps/account/permissions/base.py:8-13 | allowed iff a user is present, authenticated and active |
| BasePermissions.IsActiveUserIgnoresRoles | apps/account/permissions/base.py:8-13 | changing the coach, gym-owner or staff flag never changes the decision |
| RolePermissions.IsCoach | apps/account/permissions/roles.py:8-13 | allowed iff authenticated, active and a coach |
| RolePermissions.IsGymOwner | apps/account/permissions/roles.py:20-25 | allowed iff authenticated, active and a gym owner |
| RolePermissions.IsCoachOrGymOwner | apps/account/permissions/roles.py:32-37 | allowed iff authenticated, active and a coach or a gym owner |
| RolePermissions.CombinedIsUnion | apps/account/permissions/roles.py:8-37 | the combined permission is exactly the disjunction of the other two; an inactive user is denied by all three |
| WorkoutPermissions.CanAssignWorkoutProgram | apps/account/permissions/workout.py:9-14 | allowed iff authenticated, active and a coach or a gym owner |
| WorkoutPermissions.CanAssignIsCoachOrGymOwner | apps/account/permissions/workout.py:9-14 | the permission coincides with `IsCoachOrGymOwner`, denies a user with neither flag and denies an inactive user |
| FitnessPermissions.IsProgramOwner | apps/fitness/permissions.py:9-10 | allowed iff the request is authenticated and the object's creator is that user |
| FitnessPermissions.ProgramOwnerIgnoresRoles | apps/fitness/permissions.py:9-10 | two users with the same id get the same decision whatever their flags; an object with no creator is denied to everyone |
| AccountModels.NewUser | apps/account/models.py:12-23 | a new user is active, neither staff nor superuser, and neither coach nor gym owner |
| AccountModels.AddUserKeepsUnique | apps/account/models.py:14-19 | inserting a user with an untaken email and an absent or untaken google id keeps the unique constraints on email and google id; `username` is not modelled (see also apps/account/models.py:14, 19) |
| AccountModels.ProfileImagePathSegments | apps/account/models.py:8-9 | the profile picture path splits into "users", the user id, "profile_images" and the file name |
| AccountModels.NewCoachProfile | apps/account/models.py:37-47 | a new profile has 0 years of experience, is not verified, and has an empty bio, no specialties and no price |
| AuditModel.ActionValuesDistinct | apps/fitness/models/program_assignment_audit.py:11-14 | two actions have the same stored value iff they are the same action |
| AuditModel.Log | apps/fitness/models/program_assignment_audit.py:52-55 | the log lists every entry exactly once, newest `created_at` first |
| CoachClientModel.NewCoachClient | apps/fitness/models/coach_client.py:7-19 | a new link has the given coach, client and notes, and is active |
| CoachClientModel.Clean | apps/fitness/models/coach_client.py:24-28 | accepts iff the coach user is a coach and differs from the client; otherwise gives the matching ValidationError, the coach check first |
| CoachClientModel.AddLinkKeepsUnique | apps/fitness/models/coach_client.py:21-22 | adding a link for a pair not yet linked keeps (coach, client) unique |
| GymModel.GymIdText | apps/fitness/models/gym.py:6-7 | the rendered id holds no "/" (and is "None" before the first insert) |
| GymModel.GymImagePath | apps/fitness/models/gym.py:6-7 | the image path splits into "gyms", the gym id and the file name |
| GymModel.CleanCoachGym | apps/fitness/models/gym.py:43-45 | accepts iff the user is a coach; otherwise the ValidationError of the source |
| GymModel.AddCoachGymKeepsUnique | apps/fitness/models/gym.py:37-38 | adding a (coach, gym) row that does not exist yet keeps the pairs unique |
| CoachServiceModel.NewCoachService | apps/payments/models/coach_service.py:9-17 | a new service has the given coach, title and price, is active and lasts 60 minutes |
| CoachServiceModel.StatusValuesDistinct | apps/payments/models/coach_service.py:22-28 | two request statuses have the same stored value iff they are the same status |
| CoachServiceModel.NewServiceRequest | apps/payments/models/coach_service.py:30-35 | a new request has the given client and service, status pending and no payment |
| CoachServiceModel.Price | apps/payments/models/coach_service.py:38-40 | the price is the service's price exactly when the request still has a service; otherwise AttributeError |
| CoachServiceModel.Title | apps/payments/models/coach_service.py:42-44 | the title is the service's title exactly when the request still has a service; otherwise AttributeError |
| CoachServiceModel.DerivedFollowService | apps/payments/models/coach_service.py:38-44 | after the service's row changes, the request's price and title are the new service's price and title |
| PaymentTransactionModel.NewTransaction | apps/payments/models/payment_transaction.py:21-36 | a new transaction has the given user, amount and type, status pending, currency USD, provider stripe and empty metadata |
| PaymentTransactionModel.Transactions | apps/payments/models/payment_transaction.py:36-39 | the default order lists every transaction once, newest `created_at` first |
| SubscriptionModel.NewPlan | apps/payments/models/subscription.py:10-17 | a new plan lasts 30 days and is active |
| SubscriptionModel.CancelledOutsideChoices | apps/payments/models/subscription.py:30-34 | of the statuses a row can hold, exactly "cancelled" is outside the declared choices |
| SubscriptionModel.NewSubscription | apps/payments/models/subscription.py:36-43 | a new subscription is inactive, starts now, and has no end date and no last payment |
| SubscriptionModel.Plans | apps/payments/models/subscription.py:20-21 | the default order lists every plan once, cheapest first |
| SubscriptionModel.SubscriptionOrderMeaning | apps/payments/models/subscription.py:40-47 | a subscription without start date precedes every other, and a later start date precedes an earlier one (see also apps/payments/models/subscription.py:40, 46-47) |
| CoachRequestService.ListServices | apps/payments/services/coach_request_service.py:13-18 | a service is listed iff it is active and, when a coach is given, belongs to that coach |
| CoachRequestService.ListServicesByCoach | apps/payments/services/coach_request_service.py:13-18 | one coach's list is part of the full list, two coaches' lists are disjoint, and every listed service is on its coach's list |
| CoachRequestService.CreateRequestCheck | apps/payments/services/coach_request_service.py:28-39 | passes iff the service exists, is active and is not the client's own; NotFound("Service not found or inactive") and Forbidden("You cannot request your own service") otherwise |
| CoachRequestService.CreateRequestAsWritten | apps/payments/services/coach_request_service.py:28-48 | as written the call never succeeds: once the checks pass it ends in AttributeError |
| CoachRequestService.CreateRequestCallFails | apps/payments/services/coach_request_service.py:41-48 | `CoachServiceRequest.Status` does not exist, and the keyword arguments `price` and `title` name read-only properties; client, service and status alone would construct |
| CoachRequestService.CreateRequest | apps/payments/services/coach_request_service.py:20-50 | a failed check writes nothing and returns its error; otherwise exactly one pending request of the client for the service is added under a fresh key |
| CoachRequestService.CoachActionCheck | apps/payments/services/coach_request_service.py:54-86 | passes iff the request exists, its service's coach is the actor and (unless any status is admitted) it is pending; NotFound, AttributeError for a request without service, Forbidden with the verb, Forbidden("Request is not pending"), in that order (see also apps/payments/services/coach_request_service.py:54-60, 68-74, 82-86) |
| CoachRequestService.SetStatus | apps/payments/services/coach_request_service.py:62-63 | only that request's status changes |
| CoachRequestService.AcceptRequest | apps/payments/services/coach_request_service.py:52-64 | a refused check changes nothing; otherwise only the request's status changes, to accepted |
| CoachRequestService.RejectRequest | apps/payments/services/coach_request_service.py:66-78 | a refused check changes nothing; otherwise only the request's status changes, to rejected |
| CoachRequestService.CompleteRequest | apps/payments/services/coach_request_service.py:80-90 | existence and ownership only: otherwise the status becomes completed from any prior status |
| CoachRequestService.GuardsByStatus | apps/payments/services/coach_request_service.py:59-88 | accept and reject pass only for a pending request; whatever accept admits, complete admits too; for a pending request complete and reject agree (see also apps/payments/services/coach_request_service.py:59-60, 73-74, 85-88) |
| CoachRequestService.MarkPaid | apps/payments/services/coach_request_service.py:92-104 | the request becomes paid and linked to the transaction even when the split then fails; otherwise exactly two split rows (coach then platform, 70 %) are appended under fresh keys, with no guard against a second call |
| RevenueSplitService.CreateSplit | apps/payments/services/revenue_split_service.py:12-21 | exactly one row with the given fields under a fresh key; an amount or percentage outside its column (DataError) or a missing percentage (IntegrityError) writes nothing |
| RevenueSplitService.SplitAmounts | apps/payments/services/revenue_split_service.py:33-34 | the coach amount is the coach's share rounded half-even to the cent, and the two amounts sum exactly to the transaction amount |
| RevenueSplitService.SplitAmountsFit | apps/payments/services/revenue_split_service.py:33-38 | for a percentage from 0 to 100 both amounts lie between nothing and the whole amount (so they fit the column when it does), and both percentages fit theirs |
| RevenueSplitService.SplitRows | apps/payments/services/revenue_split_service.py:36-39 | the coach row (coach, coach share, pct) then the platform row (platform, remainder, 100 − pct), on the same transaction; amounts sum to the total and percentages to 100 |
| RevenueSplitService.CalculateAndSplit | apps/payments/services/revenue_split_service.py:23-40 | ValueError and no write when a beneficiary is missing; otherwise the two rows in order under fresh keys, and a refusal of the second leaves the first written |
| RevenueSplitService.PlatformUser | apps/payments/services/revenue_split_service.py:49-50 | none iff there is no superuser; otherwise the superuser with the smallest key |
| RevenueSplitService.CreateForCoachRequest | apps/payments/services/revenue_split_service.py:42-59 | AttributeError when the request has no service; ValueError("No platform account found for revenue split") when there is no superuser; at 70 % the coach of the service and the platform account get the two rows |
| Money.RoundCents | apps/payments/services/revenue_split_service.py:33-34 | `round(x, 2)`: the nearest cent, ties to the even cent |
| Money.RoundCentsUnique | apps/payments/services/revenue_split_service.py:33-34 | the two contract clauses of rounding admit exactly one result |
| Money.RoundCentsExact | apps/payments/services/revenue_split_service.py:34 | rounding a whole number of cents leaves it unchanged |
| Money.ShareBounds | apps/payments/services/revenue_split_service.py:33 | for a non-negative amount and a percentage from 0 to 100 the share lies between nothing and the amount |
| Money.ShareExtremes | apps/payments/services/revenue_split_service.py:33 | the share at 0 % is nothing and at 100 % is the whole amount |
| Money.ShareBetween | apps/payments/services/revenue_split_service.py:33 | for a percentage from 0 to 100 the share lies between nothing and the amount, whatever the amount's sign |
| Ordering.OrderedIds | apps/fitness/services/program_assignment_service.py:223 | `order_by`: every matching row exactly once, sorted by the ordering key |
| Ordering.First | apps/payments/services/revenue_split_service.py:50 | `.first()`: none iff nothing matches; otherwise a matching row whose key is least |
| Text.Lower | apps/fitness/services/program_assignment_service.py:207-209 | `str.lower()`: same length, each ASCII capital replaced by its small letter |
| Text.IntegerNumeral | apps/payments/services/transaction_service.py:37 | a text is read as an integer iff it is an optional sign followed by one or more ASCII digits; the sign decides the sign of the value |
| Text.DigitsValueOfNatToString | apps/payments/services/transaction_service.py:37 | the decimal rendering of a natural number is a run of digits that reads back as that number |
| Text.IntegerNumeralOfIntToString | apps/payments/services/transaction_service.py:37 | every integer rendered in decimal, with its sign, is read back as that integer |
| PaymentTransactionService.CreateTransaction | apps/payments/services/payment_transaction_service.py:7-18 | exactly one pending row with the given user, amount, type, currency and provider and `metadata or {}`, under a fresh key; an amount outside its column writes nothing |
| PaymentTransactionService.PaidWith | apps/payments/services/payment_transaction_service.py:23-25 | status becomes paid and nothing but metadata else changes; the given keys take the given values and every other key keeps its own |
| PaymentTransactionService.PaidWithIdempotent | apps/payments/services/payment_transaction_service.py:23-26 | marking paid twice with the same metadata equals marking once; absent or empty metadata leaves the metadata unchanged |
| PaymentTransactionService.MarkPaid | apps/payments/services/payment_transaction_service.py:20-27 | Http404 and no write for an unknown key; otherwise only that row changes, to `PaidWith` its old self, from any prior status |
| PaymentTransactionService.MarkFailed | apps/payments/services/payment_transaction_service.py:29-34 | Http404 and no write for an unknown key; otherwise only that row's status changes, to failed, from any prior status |
| Json.OrEmpty | apps/payments/services/payment_transaction_service.py:15 | `metadata or {}`: the given object, or the empty one when none is given |
| Json.Get | apps/payments/services/transaction_service.py:36 | `dict.get`: a value iff the key is present, and then the stored one |
| Json.Update | apps/payments/services/payment_transaction_service.py:25 | `dict.update`: the keys of both, the update's values winning, every other key kept |
| Json.UpdateIdempotent | apps/payments/services/payment_transaction_service.py:25 | updating twice with the same object equals updating once |
| Json.UpdateEmpty | apps/payments/services/payment_transaction_service.py:24-25 | updating with an empty object changes nothing |
| TransactionService.ImportAsWrittenFails | apps/payments/services/transaction_service.py:2 | the module imports a name the coach-service models do not define, so its import fails; the intended name resolves |
| TransactionService.SettlementKwargsRefused | apps/payments/services/transaction_service.py:40-45 | the settlement write names keyword arguments that are not RevenueSplit fields, so the constructor raises TypeError |
| TransactionService.CreatePayment | apps/payments/services/transaction_service.py:10-22 | exactly one pending row of the given user, amount and type, metadata `{}` when none is given, under a fresh key |
| TransactionService.PlatformPercent | apps/payments/services/transaction_service.py:37 | 20 when the key is absent; the number when one is given; the value of a text that is an integer numeral, as `Decimal("15")` is 15; TypeError for null; InvalidOperation for a reference or any other text |
| TransactionService.PlatformPercentOfText | apps/payments/services/transaction_service.py:37 | a percentage stored as the text of an integer settles with that integer as its percentage |
| TransactionService.SettlementAmounts | apps/payments/services/transaction_service.py:38-39 | the coach and platform parts are exact and sum to the amount; the platform part is amount · p / 100 |
| TransactionService.SettlementAmountsBounds | apps/payments/services/transaction_service.py:37-39 | for 0 ≤ p ≤ 100 and a non-negative amount neither part is negative or more than the amount, and at the default the coach gets 80 % |
| TransactionService.MarkRequestPaid | apps/payments/services/transaction_service.py:48-53 | a missing or falsy `coach_request_id` changes nothing; an existing request becomes paid and linked to the payment; any other id gives DoesNotExist |
| TransactionService.Settle | apps/payments/services/transaction_service.py:24-56 | Http404 for an unknown payment; a payment that is not pending is returned with no change; a pending one becomes paid, and the splits, users, services and subscriptions are untouched |
| TransactionService.SettleIdempotent | apps/payments/services/transaction_service.py:28-29 | a second call after the first changes nothing and returns the payment |
| TransactionService.SettleCoachService | apps/payments/services/transaction_service.py:35-56 | a subscription payment only changes status; a coach-service payment records exactly one settlement under a fresh key whose parts sum to the amount |
| TransactionService.SettleWith | apps/payments/services/transaction_service.py:34-53 | the coach-service part of a settlement adds exactly one settlement record under the next key, whose coach and platform parts make up the whole amount, and succeeds only with the payment's own key |
| TransactionService.SettleWithKeepsInvariant | apps/payments/services/transaction_service.py:34-53 | recording the settlement and marking the named request paid keep the store's integrity |
| TransactionService.RecordSettlement | apps/payments/services/transaction_service.py:34-53 | the method leaves the tables and outcome that `SettleWith` specifies, and keeps the integrity |
| TransactionService.SettleKeepsInvariant | apps/payments/services/transaction_service.py:24-56 | settling keeps the store's integrity invariant |
| TransactionService.HandleSuccessfulPayment | apps/payments/services/transaction_service.py:24-56 | the result and the new store are those of `Settle`, and the invariant holds after |
| SubscriptionService.ExistingActive | apps/payments/services/subscription_service.py:17 | none iff the user holds no active subscription to the plan; otherwise one of them that comes first in the subscription ordering |
| SubscriptionService.Extended | apps/payments/services/subscription_service.py:22-23 | the end date moves by the plan's duration and the last payment becomes the transaction; TypeError, exactly when there is no end date |
| SubscriptionService.ExtendTwice | apps/payments/services/subscription_service.py:22 | two extensions move the end date by twice the duration, so extension is not idempotent |
| SubscriptionService.Started | apps/payments/services/subscription_service.py:28-35 | the new subscription is active, starts now, ends the plan's duration later and names the transaction as last payment |
| SubscriptionService.Subscribe | apps/payments/services/subscription_service.py:9-36 | the outcome `Subscribed` states: Http404 and no write for an unknown plan; an existing active subscription is extended in place and returned with no row created, or TypeError with no write when it has no end date; otherwise exactly one `Started` row under a fresh key |
| SubscriptionService.SaveSubscription | apps/payments/services/subscription_service.py:24 | only that subscription's row changes, to the given one |
| SubscriptionService.AddSubscription | apps/payments/services/subscription_service.py:28-35 | exactly one row is added, under the next key |
| SubscriptionService.Cancel | apps/payments/services/subscription_service.py:38-43 | Http404 and no write for an unknown key; otherwise only that row's status changes, to "cancelled", which is outside the status choices |
| SubscriptionService.PlanOf | apps/payments/services/subscription_service.py:50-52 | ValueError("Transaction metadata missing 'plan_id'") iff `plan_id` is missing or falsy; otherwise the plan key the value names, if it names one |
| SubscriptionService.ActivateOrExtend | apps/payments/services/subscription_service.py:45-54 | ValueError when `plan_id` is missing or falsy, Http404 when it names no plan, both with no write; otherwise exactly the outcome of `subscribe` for the transaction's user, that plan and the transaction: an active subscription extended in place (or TypeError for a missing end date), or one new active subscription, with nothing else changed |
| WorkoutModels.FillSlug | apps/fitness/models/workout.py:155-158 | an empty slug is filled from the name or title; a non-empty slug is never overwritten (see also apps/fitness/models/workout.py:155-158, 226-229, 314-317) |
| WorkoutModels.FillSlugIdempotent | apps/fitness/models/workout.py:155-158 | saving twice fills the slug as saving once does (see also apps/fitness/models/workout.py:155-158, 226-229, 314-317) |
| WorkoutModels.NewExercise | apps/fitness/models/workout.py:107-153 | a new exercise has the given creator, is active, neither public nor verified, and has no slug yet |
| WorkoutModels.NewProgram | apps/fitness/models/workout.py:196-223 | a new program is active, neither published, public, custom nor verified, lasts 4 weeks and costs 0 |
| WorkoutModels.ApplyProgramPatch | apps/fitness/services/workout_program_service.py:40-41 | the attribute patch keeps the creator, slug, creation time, `is_published` and `duration_weeks` |
| WorkoutModels.ProgramPatchLaws | apps/fitness/services/workout_program_service.py:40-41 | an empty patch is the identity, a patch applied twice equals once, and a given attribute takes the given value while an absent one is kept |
| WorkoutModels.NewSession | apps/fitness/models/workout.py:291-311 | a new session has the given program and creator, week 1, is neither public nor a rest day, and has no slug yet |
| WorkoutModels.ApplySessionPatch | apps/fitness/services/workout_session_service.py:33-34 | a session patch keeps the program, the creator and the creation time |
| WorkoutModels.NewAssignment | apps/fitness/models/workout.py:265-266 | a new assignment is active and assigned now |
| WorkoutModels.NewProgramRequest | apps/fitness/models/workout.py:357-361 | a new program request stores the name of PENDING, which is one of the names its choices allow |
| WorkoutModels.NewestFirst | apps/fitness/models/workout.py:268-269 | assignments in their default order: each exactly once, newest `assigned_at` first |
| WorkoutModels.MediaPath | apps/fitness/models/workout.py:18-54 | the path splits into "users", the creator's id, "workout", the owner kind, the object id, "images" or "videos" and the file name; AttributeError exactly when there is no creator |
| WorkoutModels.ExercisePathsBuild | apps/fitness/models/workout.py:18-28 | an exercise always has a creator, so both of its upload paths build (see also apps/fitness/models/workout.py:18-28, 145) |
| Store.Empty | apps/fitness/models/workout.py:240-276 | the empty database satisfies every integrity constraint |
| Store.Db.constructor | apps/fitness/models/workout.py:240-276 | a new database is empty |
| Store.Db.NewId | apps/fitness/models/workout.py:109 | hands out the next key, with nothing else changed (see also apps/fitness/models/workout.py:109, 198, 291, 332) |
| Store.Unlinked | apps/fitness/models/workout.py:294 | deleting a program sets a session's link to it to none (`SET_NULL`), changes nothing else in that session, and leaves other sessions alone |
| Store.Detached | apps/fitness/models/program_assignment_audit.py:32-43 | an audit entry's link to the deleted program, and its link to a deleted assignment, become none (`SET_NULL`); every other link and field stays |
| Store.WithoutSessionsKeepsInvariant | apps/fitness/models/workout.py:333 | deleting sessions with their workout-exercises (`CASCADE`) keeps the integrity |
| Store.WithoutProgramKeepsInvariant | apps/fitness/models/workout.py:246-250 | deleting a program, nulling its sessions and cascading to its assignments, keeps the integrity (see also apps/fitness/models/workout.py:246-250, 294) |
| Store.AddAssignmentKeepsInvariant | apps/fitness/models/workout.py:257-275 | adding an assignment that fits keeps one active row per (client, program) and one row per request |
| Store.SaveAssignmentKeepsInvariant | apps/fitness/models/workout.py:257-275 | saving an assignment that fits keeps one active row per (client, program) and one row per request |
| Store.AddLinkKeepsInvariant | apps/fitness/models/coach_client.py:21-22 | adding a link for a pair not yet linked keeps the integrity |
| WorkoutProgramService.RowOf | apps/fitness/services/workout_program_service.py:27-28 | a written workout-exercise belongs to the given session and carries the entry's exercise, sets and reps |
| WorkoutProgramService.SessionOf | apps/fitness/services/workout_program_service.py:26 | a written session belongs to the program, is created by the actor at the call's time, and takes the supplied title and week number |
| WorkoutProgramService.ProgramOf | apps/fitness/services/workout_program_service.py:19 | a created program is the actor's, stamped with the call's time, unpublished, with the supplied title |
| WorkoutProgramService.FirstMissing | apps/fitness/services/workout_program_service.py:11-14 | the first entry whose exercise is missing, none exactly when all exist, every entry before it present |
| WorkoutProgramService.Validation | apps/fitness/services/workout_program_service.py:9-14 | validation succeeds exactly when every listed exercise exists |
| WorkoutProgramService.ValidationNamesFirstMissing | apps/fitness/services/workout_program_service.py:11-14 | a failed validation is the NotFound of an entry whose exercise is missing, with every earlier entry present |
| WorkoutProgramService.ValidateExercises | apps/fitness/services/workout_program_service.py:9-14 | the loop over the entries returns the validation outcome, scanning in input order |
| WorkoutProgramService.AddRowsWrites | apps/fitness/services/workout_program_service.py:27-28 | a session's exercises go under consecutive fresh keys, one per entry, the i-th entry under the i-th key; no earlier row changes and only that table and the key counter move |
| WorkoutProgramService.AddRowsFrame | apps/fitness/services/workout_program_service.py:27-28 | writing exercises changes only the workout-exercise table, which only grows |
| WorkoutProgramService.FirstInvalid | apps/fitness/services/workout_program_service.py:21-24 | the first session whose exercise list fails validation, none exactly when all validate |
| WorkoutProgramService.Written | apps/fitness/services/workout_program_service.py:21-28 | the number of sessions written is at most the number listed |
| WorkoutProgramService.AddSessionsResult | apps/fitness/services/workout_program_service.py:21-28 | the session loop fails exactly when some list fails validation, with the first such NotFound, changing only sessions, rows and the key counter |
| WorkoutProgramService.AddSessionStep | apps/fitness/services/workout_program_service.py:26-28 | one step writes the session under the old next key, then its exercises after it |
| WorkoutProgramService.WrittenStep | apps/fitness/services/workout_program_service.py:21-28 | a valid first session counts one more session written |
| WorkoutProgramService.AddRowsKeepsInvariant | apps/fitness/services/workout_program_service.py:27-28 | rows naming existing exercises in an existing session keep every foreign key and uniqueness rule |
| WorkoutProgramService.OneSessionKeepsInvariant | apps/fitness/services/workout_program_service.py:22-28 | writing one validated session with its rows keeps the integrity |
| WorkoutProgramService.AddSessionsKeepsInvariant | apps/fitness/services/workout_program_service.py:21-28 | the session loop keeps the integrity, also when it stops part way |
| WorkoutProgramService.AddSessionsCount | apps/fitness/services/workout_program_service.py:21-28 | the program gains one session per session written |
| WorkoutProgramService.AddSessionsExtends | apps/fitness/services/workout_program_service.py:21-28 | the session loop never alters or removes an existing session or row, and new keys are fresh |
| WorkoutProgramService.SessionHoldsItsExercises | apps/fitness/services/workout_program_service.py:26-28 | a written session holds exactly its listed exercises, under the keys after its own, in key order |
| WorkoutProgramService.AddRowsInto | apps/fitness/services/workout_program_service.py:27-28 | the row loop writes exactly the rows the specification writes |
| WorkoutProgramService.AddSessionRowInto | apps/fitness/services/workout_program_service.py:26 | a session row goes under the next key, which is returned |
| WorkoutProgramService.AddSessionsInto | apps/fitness/services/workout_program_service.py:21-28 | the session loop with its validation leaves the tables and the outcome the specification gives |
| WorkoutProgramService.AddProgramInto | apps/fitness/services/workout_program_service.py:19 | a program row goes under the next key, which is returned |
| WorkoutProgramService.NewProgramKeepsInvariant | apps/fitness/services/workout_program_service.py:19-28 | writing a new program and then sessions into it keeps the integrity (see also apps/fitness/services/workout_program_service.py:19-28, 60-103) |
| WorkoutProgramService.CreateOutcome | apps/fitness/services/workout_program_service.py:16-30 | the program is always written first, under a fresh key, as the actor's; success exactly when every session validates, else the first NotFound with earlier sessions kept; one session per session written; nothing else changes |
| WorkoutProgramService.CreateKeepsInvariant | apps/fitness/services/workout_program_service.py:16-30 | creating keeps the integrity, whether or not it fails part way |
| WorkoutProgramService.CreateProgramWithSessions | apps/fitness/services/workout_program_service.py:16-30 | the method leaves the tables and the outcome of the creation specification, and keeps the integrity |
| WorkoutProgramService.UpdateRefused | apps/fitness/services/workout_program_service.py:34-36 | a missing program is Http404 and another user's is Forbidden, nothing changed |
| WorkoutProgramService.UpdateKeepsSessions | apps/fitness/services/workout_program_service.py:38-54 | without a sessions list only that program row changes, keeping its creator and creation time and taking the supplied title (see also apps/fitness/services/workout_program_service.py:38-41, 54) |
| WorkoutProgramService.UpdateRemovesSessions | apps/fitness/services/workout_program_service.py:43-44 | with a sessions list every earlier session of the program goes with its exercises; other programs' sessions stay as they were |
| WorkoutProgramService.UpdateSessionCount | apps/fitness/services/workout_program_service.py:43-52 | the program then has one session per session written, and the update succeeds exactly when every listed exercise exists |
| WorkoutProgramService.UpdateKeepsInvariant | apps/fitness/services/workout_program_service.py:32-54 | updating keeps the integrity |
| WorkoutProgramService.UpdateProgramWithSessions | apps/fitness/services/workout_program_service.py:32-54 | the method leaves the tables and the outcome of the update specification, and keeps the integrity |
| WorkoutProgramService.CopyOf | apps/fitness/services/workout_program_service.py:60-76 | the copy's title gains " (Copy)"; description, level, goal, duration, price, custom flag, video, location and equipment are copied; it is inactive, private, unverified and the actor's |
| WorkoutProgramService.CopiedRow | apps/fitness/services/workout_program_service.py:95-103 | a copied row differs from its source only in its session |
| WorkoutProgramService.KeptExist | apps/fitness/services/workout_program_service.py:91-94 | every row the clone keeps names an existing exercise |
| WorkoutProgramService.KeptAll | apps/fitness/services/workout_program_service.py:91-103 | when every row's exercise exists, none is skipped and the copies follow the source rows in key order |
| WorkoutProgramService.OrderedSessions | apps/fitness/services/workout_program_service.py:78 | the program's sessions, each once |
| WorkoutProgramService.OrderedRows | apps/fitness/services/workout_program_service.py:91 | the session's workout-exercises, each once, in key order |
| WorkoutProgramService.CloneDataValid | apps/fitness/services/workout_program_service.py:91-94 | every exercise list a clone writes validates, so the copy never stops part way |
| WorkoutProgramService.CloneCopiesProgram | apps/fitness/services/workout_program_service.py:58-76 | cloning fails only for a missing program (Http404, nothing changed), with no ownership check; otherwise the copy goes under a fresh key and no other program changes (see also apps/fitness/services/workout_program_service.py:58-76, 105) |
| WorkoutProgramService.CloneCopiesSessions | apps/fitness/services/workout_program_service.py:78-89 | the copy has as many sessions as the original, and no existing session or row changes |
| WorkoutProgramService.CloneSkipsNothing | apps/fitness/services/workout_program_service.py:91-103 | with every row's exercise present, each copied session gets every source row, in key order |
| WorkoutProgramService.CloneKeepsInvariant | apps/fitness/services/workout_program_service.py:56-105 | cloning keeps the integrity |
| WorkoutProgramService.CopyRowsInto | apps/fitness/services/workout_program_service.py:91-103 | the inner loop writes the kept rows, skipping those whose exercise is gone |
| WorkoutProgramService.CopySessionInto | apps/fitness/services/workout_program_service.py:79-103 | one outer step writes the session copy and then its kept rows |
| WorkoutProgramService.CloneSessionsInto | apps/fitness/services/workout_program_service.py:78-103 | the outer loop writes what the clone specification writes |
| WorkoutProgramService.CloneProgram | apps/fitness/services/workout_program_service.py:56-105 | the method leaves the tables and the outcome of the clone specification, and keeps the integrity |
| WorkoutProgramService.DeleteRefused | apps/fitness/services/workout_program_service.py:107-113 | only the creator deletes, answering True; a missing program is Http404, another user Forbidden, nothing changed |
| WorkoutProgramService.DeleteRemovesProgram | apps/fitness/services/workout_program_service.py:108-113 | the program goes and no other program changes; its sessions stay with no program; its assignments go; no audit entry refers to it (see also apps/fitness/services/workout_program_service.py:112, apps/fitness/models/workout.py:257-263, 294) |
| WorkoutProgramService.DeleteKeepsOtherSessions | apps/fitness/services/workout_program_service.py:112 | a session of another program is untouched |
| WorkoutProgramService.DeleteKeepsInvariant | apps/fitness/services/workout_program_service.py:107-113 | deleting keeps the integrity |
| WorkoutProgramService.RemoveProgram | apps/fitness/services/workout_program_service.py:112 | the deletion with its cascades writes exactly the specified tables |
| WorkoutProgramService.DeleteProgram | apps/fitness/services/workout_program_service.py:107-113 | the method leaves the tables and the outcome of the delete specification, and keeps the integrity |
| WorkoutProgramService.PublishOutcome | apps/fitness/services/workout_program_service.py:115-122 | only the creator publishes; a refusal changes nothing; on success only that row changes, becoming public with is_published left as it was |
| WorkoutProgramService.PublishIdempotent | apps/fitness/services/workout_program_service.py:115-122 | publishing twice is publishing once |
| WorkoutProgramService.PublishKeepsInvariant | apps/fitness/services/workout_program_service.py:115-122 | publishing keeps the integrity |
| WorkoutProgramService.PublishProgram | apps/fitness/services/workout_program_service.py:115-122 | the method leaves the tables and the outcome of the publish specification, and keeps the integrity |
| WorkoutSessionService.NewSessionOf | apps/fitness/services/workout_session_service.py:19-23 | the new session has the given program link, the actor as creator, the call's time, the supplied attributes over their defaults and a slug from its title |
| WorkoutSessionService.CreateSessionOutcome | apps/fitness/services/workout_session_service.py:9-23 | creation succeeds exactly when no program is named or the actor created it (Http404 for a missing one, else Forbidden); a refusal writes nothing; on success exactly one session is added under a fresh key |
| WorkoutSessionService.CreateSessionKeepsInvariant | apps/fitness/services/workout_session_service.py:9-23 | creating a session keeps the integrity |
| WorkoutSessionService.CreateSessionIn | apps/fitness/services/workout_session_service.py:9-23 | the method leaves the tables and the outcome of the creation specification, and keeps the integrity |
| WorkoutSessionService.Patched | apps/fitness/services/workout_session_service.py:32-33 | the setattr loop keeps the creator, creation time, slug and popularity, sets the program link when one is given, and an empty patch changes nothing |
| WorkoutSessionService.UpdateSessionOutcome | apps/fitness/services/workout_session_service.py:26-36 | only the creator may edit (Forbidden otherwise), a program that does not exist is refused, a refusal changes nothing; on success only that session changes, in exactly the supplied attributes, and a set slug is kept |
| WorkoutSessionService.UpdateMovesIntoAnyProgram | apps/fitness/services/workout_session_service.py:29-35 | the owner of a session may move it into a program someone else created |
| WorkoutSessionService.UpdateSessionKeepsInvariant | apps/fitness/services/workout_session_service.py:26-36 | updating a session keeps the integrity |
| WorkoutSessionService.UpdateSessionIn | apps/fitness/services/workout_session_service.py:26-36 | the method leaves the tables and the outcome of the update specification, and keeps the integrity |
| WorkoutSessionService.DeleteSessionOutcome | apps/fitness/services/workout_session_service.py:39-46 | only the creator may delete, answering True, and a refusal changes nothing; a deletion removes the session and exactly its workout-exercises and nothing else |
| WorkoutSessionService.DeleteSessionKeepsInvariant | apps/fitness/services/workout_session_service.py:39-46 | deleting a session keeps the integrity |
| WorkoutSessionService.RemoveSession | apps/fitness/services/workout_session_service.py:39-46 | the deletion with its cascade writes exactly the specified tables (see also apps/fitness/services/workout_session_service.py:45, apps/fitness/models/workout.py:333) |
| WorkoutSessionService.DeleteSessionIn | apps/fitness/services/workout_session_service.py:39-46 | the method leaves the tables and the outcome of the delete specification, and keeps the integrity |
| WorkoutSessionService.ListSessions | apps/fitness/services/workout_session_service.py:49-55 | every session, or those of the given program, each once, ordered by week number and then creation time |
| WorkoutSessionService.ListIgnoresActor | apps/fitness/services/workout_session_service.py:49-55 | every actor sees the same list |
| WorkoutSessionService.ListByWeek | apps/fitness/services/workout_session_service.py:55 | the list comes out by non-decreasing week number |
| WorkoutSessionService.GetSession | apps/fitness/services/workout_session_service.py:58-59 | any existing session is returned, with no access check; a missing one is Http404 |
| WorkoutExerciseService.AddExerciseOutcome | apps/fitness/services/workout_exercise_service.py:10-18 | adding succeeds exactly when the session exists, the actor created it and the exercise exists; NotFound for a missing session, Forbidden for another's; a refusal writes nothing; on success the row is the only one added, under a fresh key |
| WorkoutExerciseService.AddExerciseKeepsInvariant | apps/fitness/services/workout_exercise_service.py:10-18 | adding a row keeps the integrity |
| WorkoutExerciseService.AddExerciseIn | apps/fitness/services/workout_exercise_service.py:10-18 | the method leaves the tables and the outcome of the add specification, and keeps the integrity |
| WorkoutExerciseService.Authorize | apps/fitness/services/workout_exercise_service.py:21-44 | the shared check passes exactly for an existing row whose session the actor created, NotFound for a missing row, Forbidden otherwise (see also apps/fitness/services/workout_exercise_service.py:23-28, 39-44) |
| WorkoutExerciseService.UpdateExerciseOutcome | apps/fitness/services/workout_exercise_service.py:21-34 | a refused edit changes nothing; a successful one rewrites that row only, with exactly the supplied attributes replaced |
| WorkoutExerciseService.UpdateMovesIntoAnySession | apps/fitness/services/workout_exercise_service.py:30-33 | the owner of a row's session may move it into a session someone else created |
| WorkoutExerciseService.UpdateExerciseKeepsInvariant | apps/fitness/services/workout_exercise_service.py:21-34 | editing a row keeps the integrity |
| WorkoutExerciseService.UpdateExerciseIn | apps/fitness/services/workout_exercise_service.py:21-34 | the method leaves the tables and the outcome of the update specification, and keeps the integrity |
| WorkoutExerciseService.DeleteExerciseOutcome | apps/fitness/services/workout_exercise_service.py:37-46 | a refused deletion changes nothing; a successful one removes exactly that row |
| WorkoutExerciseService.DeleteExerciseKeepsInvariant | apps/fitness/services/workout_exercise_service.py:37-46 | deleting a row keeps the integrity |
| WorkoutExerciseService.DeleteExerciseIn | apps/fitness/services/workout_exercise_service.py:37-46 | the method leaves the tables and the outcome of the delete specification, and keeps the integrity |
| ExerciseService.ListExercises | apps/fitness/services/exercise_service.py:11-15 | exactly the active exercises that are public or created by the actor |
| ExerciseService.ListVisibility | apps/fitness/services/exercise_service.py:11-15 | an exercise one user sees but did not create is seen by every user |
| ExerciseService.NewExerciseOf | apps/fitness/services/exercise_service.py:22-25 | the new exercise is the actor's, stamped with the call's time, active and unverified, with the supplied name and public flag over their defaults and a slug from its name |
| ExerciseService.CreateExerciseOutcome | apps/fitness/services/exercise_service.py:18-25 | only coaches create (Forbidden otherwise, nothing written); the new exercise is active, the actor's, under a fresh key, and the only row added |
| ExerciseService.CreateExerciseKeepsInvariant | apps/fitness/services/exercise_service.py:18-25 | creating an exercise keeps the integrity |
| ExerciseService.CreateExerciseIn | apps/fitness/services/exercise_service.py:18-25 | the method leaves the tables and the outcome of the creation specification, and keeps the integrity |
| ExerciseService.Owned | apps/fitness/services/exercise_service.py:29-51 | the shared lookup passes exactly for an active exercise the actor created; NotFound for a missing or inactive one, Forbidden with the caller's message otherwise (see also apps/fitness/services/exercise_service.py:29-35, 45-51) |
| ExerciseService.UpdateExerciseOutcome | apps/fitness/services/exercise_service.py:28-41 | a refused edit changes nothing; a successful one rewrites that exercise only, with the supplied attributes replaced and its owner, activity and creation time kept |
| ExerciseService.UpdateExerciseKeepsInvariant | apps/fitness/services/exercise_service.py:28-41 | editing an exercise keeps the integrity |
| ExerciseService.UpdateExerciseIn | apps/fitness/services/exercise_service.py:28-41 | the method leaves the tables and the outcome of the update specification, and keeps the integrity |
| ExerciseService.DeleteExerciseOutcome | apps/fitness/services/exercise_service.py:44-54 | a refused deletion changes nothing; a deletion keeps every row and changes only that exercise's activity (and an empty slug) |
| ExerciseService.DeletedIsGone | apps/fitness/services/exercise_service.py:44-54 | a deleted exercise leaves every user's list, and a further update or delete of it is NotFound (see also apps/fitness/services/exercise_service.py:11-15, 44-54) |
| ExerciseService.DeleteExerciseKeepsInvariant | apps/fitness/services/exercise_service.py:44-54 | deleting an exercise keeps the integrity |
| ExerciseService.DeleteExerciseIn | apps/fitness/services/exercise_service.py:44-54 | the method leaves the tables and the outcome of the delete specification, and keeps the integrity |
| CoachClientSerializer.ValidateClientId | apps/fitness/serializers/coach_client.py:13-22 | the value passes exactly when it is not the requesting user's id and names a user, returned unchanged; each refusal carries its message |
| CoachClientSerializer.CreateLinkOutcome | apps/fitness/serializers/coach_client.py:24-33 | after validation, creating fails only for a pair already linked, writing nothing; a success writes exactly one active link from the requesting user to the client with the notes (see also apps/fitness/serializers/coach_client.py:24-33, apps/fitness/models/coach_client.py:21-22) |
| CoachClientSerializer.CreateSkipsClean | apps/fitness/serializers/coach_client.py:24-33 | a requesting user who is not a coach still gets a link the model's clean would refuse (see also apps/fitness/serializers/coach_client.py:24-33, apps/fitness/models/coach_client.py:24-28) |
| CoachClientSerializer.CreateLinkKeepsInvariant | apps/fitness/serializers/coach_client.py:24-33 | creating a link keeps the integrity, pairs unique included |
| CoachClientSerializer.CreateLinkIn | apps/fitness/serializers/coach_client.py:24-33 | the method leaves the tables and the outcome of the create specification, and keeps the integrity |
| WorkoutSessionSerializer.Writable | apps/fitness/serializers/workout_session.py:52-74 | a request may supply exactly the declared fields that are not read-only |
| WorkoutSessionSerializer.Readable | apps/fitness/serializers/workout_session.py:48-68 | a response shows exactly the declared fields that are not write-only |
| WorkoutSessionSerializer.FieldRoles | apps/fitness/serializers/workout_session.py:48-74 | program_id can be sent and is never shown; program is shown and cannot be sent; read-only fields are shown but never accepted |
| WorkoutSessionSerializer.ValidateWeekNumber | apps/fitness/serializers/workout_session.py:76-79 | a week number passes, unchanged, exactly when it is at least 1; otherwise the refusal carries its message |
| WorkoutSessionSerializer.Validate | apps/fitness/serializers/workout_session.py:76-79 | incoming session data passes, unchanged, exactly when any supplied week number is at least 1 |
| WorkoutSessionSerializer.ValidatedWeekPositive | apps/fitness/serializers/workout_session.py:76-79 | validated data never sets a week number below 1 |
| AuditLogger.Log | apps/fitness/services/audit_logger.py:6-23 | one audit entry is appended under a fresh key with the given actor, client, program, assignment and action, an absent meta stored as the empty object; nothing else changes and the integrity is kept |
| ProgramAssignmentService.TargetCheck | apps/fitness/services/program_assignment_service.py:34-46 | passes exactly for an active client, an active program and, for a coach, a program the coach created; each failure is the first check's error, in code order |
| ProgramAssignmentService.RequestCheck | apps/fitness/services/program_assignment_service.py:53-71 | a given request passes exactly when it exists, belongs to the client, is for a service of the actor, is paid and is not yet fulfilled; each failure is the first check's error |
| ProgramAssignmentService.Newest | apps/fitness/services/program_assignment_service.py:76-79 | the first row of the pair in the default order: none exactly when the pair has no row, otherwise a row of the pair assigned no earlier than any other (see also apps/fitness/services/program_assignment_service.py:76-79, apps/fitness/models/workout.py:269) |
| ProgramAssignmentService.ExistingCheck | apps/fitness/services/program_assignment_service.py:76-82 | passes exactly when the pair has no active row, creating when the pair has no row and reactivating the newest one otherwise; an active newest row is the already-assigned refusal (see also apps/fitness/services/program_assignment_service.py:76-82, apps/fitness/models/workout.py:270-275) |
| ProgramAssignmentService.AssignCheck | apps/fitness/services/program_assignment_service.py:34-82 | every check of assign_program in code order: passes exactly when the target, request (if given) and existing-row checks pass, failing with the first failing check's error |
| ProgramAssignmentService.PlacedRow | apps/fitness/services/program_assignment_service.py:87-99 | the written row is active, coached by the actor and linked to the given request; a created row is a fresh assignment of the client to the program |
| ProgramAssignmentService.AssignFailsCleanly | apps/fitness/services/program_assignment_service.py:23-118 | a failed assignment is exactly a failed check, and changes nothing |
| ProgramAssignmentService.AssignOutcome | apps/fitness/services/program_assignment_service.py:76-118 | a success leaves exactly one active row for the pair, the returned one (the newest existing row or a new one under a fresh key), coached by the actor and linked to the request; other rows unchanged; one audit entry appended; a consumed request completed; no other table changes (see also apps/fitness/services/program_assignment_service.py:76-118, apps/fitness/models/workout.py:270-275) |
| ProgramAssignmentService.AppliedRows | apps/fitness/services/program_assignment_service.py:87-99 | writing the planned row leaves one active row for the pair and every other row as it was |
| ProgramAssignmentService.AppliedFrame | apps/fitness/services/program_assignment_service.py:100-116 | after the row, only the request (completed) and one appended audit entry change |
| ProgramAssignmentService.PlanFits | apps/fitness/services/program_assignment_service.py:53-99 | a row that passed the checks fits the table's unique constraints, and a passed request check lets the completion proceed |
| ProgramAssignmentService.AssignKeepsInvariant | apps/fitness/services/program_assignment_service.py:23-118 | assigning keeps every integrity constraint |
| ProgramAssignmentService.AppliedKeepsInvariant | apps/fitness/services/program_assignment_service.py:87-116 | writing a fitting row, completing a request and logging keep the integrity |
| ProgramAssignmentService.WithCompletedKeepsInvariant | apps/fitness/services/program_assignment_service.py:101-105 | completing an existing request keeps the integrity |
| ProgramAssignmentService.LoggedKeepsInvariant | apps/fitness/services/program_assignment_service.py:110-116 | appending an audit entry keeps the integrity |
| ProgramAssignmentService.PlacedKeepsInvariant | apps/fitness/services/program_assignment_service.py:87-99 | writing a fitting row keeps the integrity |
| ProgramAssignmentService.AssignProgram | apps/fitness/services/program_assignment_service.py:23-118 | the method leaves the tables and the outcome of the assignment specification, and keeps the integrity |
| ProgramAssignmentService.ApplyPlan | apps/fitness/services/program_assignment_service.py:87-116 | carrying out a passed plan writes exactly what the specification writes and returns the row's key |
| ProgramAssignmentService.PlaceRow | apps/fitness/services/program_assignment_service.py:87-99 | writes the reactivated or the new row, as specified |
| ProgramAssignmentService.SaveAssignment | apps/fitness/services/program_assignment_service.py:88-91 | saving a fitting row changes that row only and keeps the integrity |
| ProgramAssignmentService.AddAssignment | apps/fitness/services/program_assignment_service.py:93-99 | creating a fitting row adds it under a fresh key and keeps the integrity |
| ProgramAssignmentService.AuditActionAsWritten | apps/fitness/services/program_assignment_service.py:110-116 | as written a reactivation is logged as ASSIGNED; the intended outcome logs REASSIGNED and differs in that entry alone |
| ProgramAssignmentService.AppliedDiffersInAction | apps/fitness/services/program_assignment_service.py:110-116 | two outcomes of one plan with different logged actions differ in that action alone |
| ProgramAssignmentService.CompleteRequestCallFails | apps/fitness/services/program_assignment_service.py:101-105 | as written the completion call passes a keyword the signature lacks, so it raises TypeError and nothing is kept; the intended call binds and completes the request (see also apps/fitness/services/program_assignment_service.py:101-105, apps/payments/services/coach_request_service.py:81) |
| ProgramAssignmentService.UnassignCheck | apps/fitness/services/program_assignment_service.py:127-141 | passes exactly for an active assignment that has no coach or is coached by the actor; NotFound or Forbidden otherwise |
| ProgramAssignmentService.UnassignOutcome | apps/fitness/services/program_assignment_service.py:122-157 | a failure changes nothing; a success clears only is_active of that row, leaves its pair with no active row and other rows as they were, and appends one UNASSIGNED entry naming the row's client and program |
| ProgramAssignmentService.UnassignKeepsInvariant | apps/fitness/services/program_assignment_service.py:143-149 | deactivating never breaks the unique constraint, so the IntegrityError handler is never entered, and the integrity is kept |
| ProgramAssignmentService.UnassignProgram | apps/fitness/services/program_assignment_service.py:122-157 | the method leaves the tables and the outcome of the unassignment specification, and keeps the integrity |
| ProgramAssignmentService.ParsedDate | apps/fitness/services/program_assignment_service.py:215-219 | an absent or empty date text gives no bound (see also apps/fitness/services/program_assignment_service.py:215, 219) |
| ProgramAssignmentService.HistoryScope | apps/fitness/services/program_assignment_service.py:179-200 | the client sees own history; a coach needs an active link and is restricted to own rows; a gym owner or staff member sees all; anyone else is Forbidden |
| ProgramAssignmentService.History | apps/fitness/services/program_assignment_service.py:163-223 | fails exactly when access is refused; otherwise exactly the client's rows in scope that pass the filters, each once, newest assignment first |
| ProgramAssignmentService.CoachSeesOwnRows | apps/fitness/services/program_assignment_service.py:182-197 | a coach's view of a client is the part of a gym owner's view that the coach coaches |

## Left out

- Views, URL routing, Swagger schemas, response envelopes and pagination are left out; they are transport only.
- Authentication is left out, including JWT issuance and the Google user-info fetch. Permission classes are modelled over the user's flags.
- Stripe and its webhook view are left out. Settlement is modelled from the point where a payment is known to have succeeded.
- Concurrency is left out. `select_for_update` and `transaction.atomic` are modelled sequentially, and an atomic failure restores the tables.
- The clock, `slugify` and `parse_date` are parameters, not implementations. `updated_at` (`auto_now`) is not modelled in any table.
- Column widths other than the payment-transaction amount and the revenue-split amount and percentage are not modelled. Program prices (`DecimalField(max_digits=10, decimal_places=2)`) and text lengths (`max_length`, such as a transaction's `currency`) are unbounded in the model, where the source's `save()` raises DataError on PostgreSQL for a value that does not fit. The views pass serializer-validated data, which keeps such values within their columns.
- File storage is left out; only the upload-path strings are modelled. For new objects, the "system" fallback for a missing owner id is not modelled, because every modelled object has a creator when its path is built.
- `WorkoutProgram.off_percent` and `User.rate` are floating point and are not modelled. The clone copies every other attribute it lists.
- `WorkoutProgramRequest` is modelled only through its defaults (`WorkoutModels.NewProgramRequest`). No core operation writes it.
- The legacy apps outside `apps.*` and the pure field-list serializers are not part of this model.
- The DRF serializer machinery is left out: field binding, `to_representation` and nested serializers. Only the validators, the field roles of `WorkoutSessionSerializer` and the `create` of `CoachClientCreateSerializer` are modelled.
- In `exercises_data`, an entry's `exercise` is an object in the source and a key here. `validate_exercises` reads only its id.
- The `pop` calls on the caller's dicts are left out. The model takes the `sessions` and `exercises` lists as separate arguments, so the caller's data is never modified.
- `RevenueSplitService.CreateSplit`: the `split_type` default (`platform`) is not modelled. Every caller in the core passes a split type.
- `RevenueSplitService.CreateForCoachRequest` states the two written rows only for the default percentage of 70. Other percentages are covered by `RevenueSplitService.CalculateAndSplit`.
- `CoachRequestService.MarkPaid` states one call. Calling it twice writes two split pairs; the model shows this through the contract of each call, not through a separate lemma.
- `TransactionService.HandleSuccessfulPayment` models the module as evidently intended. As written, importing it fails (see Findings).
- Keys are natural numbers, not UUIDs, so among rows that tie in an ordering the order is by key. In the source that order is left to the database.
- WorkoutProgramService.OrderedRows: the source lists a session's workout-exercises by their `uuid4` id (`ordering = ['id']`), which is random. Neither the input order of `create_program_with_sessions` nor the order in which `clone_program` copies is kept in a listing. The model's keys come from a counter, so its key order is creation order. The "key order" in the rows of `AddRowsWrites`, `SessionHoldsItsExercises`, `KeptAll` and `CloneSkipsNothing` is a fact about the model only.
- TransactionService.PlatformPercent: reads only integer percentages: a JSON number with a fraction and a text such as "15.5", " 15", "1e1" or "NaN" are accepted by `Decimal` in the source and settle with that exact value, while the model refuses them with InvalidOperation. The settlement amounts are kept in whole hundredths of a cent.
- SubscriptionService.PlanOf: a `plan_id` is either a key (`Ref`) or a value that names no plan. A text that is not a well-formed UUID raises ValidationError in the source's primary-key lookup; the model answers Http404 for it.
- SubscriptionService.ActivateOrExtend: inherits the `plan_id` simplification of `PlanOf`: a malformed id text gives Http404 here and ValidationError in the source.
- TransactionService.MarkRequestPaid: a `coach_request_id` that is not a key gives DoesNotExist. In the source a text that is not a well-formed UUID raises ValidationError instead.
- ProgramAssignmentService.ParsedDate: `parse_date` is a parameter returning a date or nothing. Django's `parse_date` raises ValueError for a well-formed but impossible date such as "2024-02-30"; the model cannot express that error.
- ProgramAssignmentService.History: never fails on its date filters, because of the `ParsedDate` simplification; in the source an impossible filter date raises ValueError.
- `CoachProfile` is modelled only through its defaults (`AccountModels.NewCoachProfile`). No core operation writes profiles, so the one-profile-per-user constraint is not part of the store's invariant.

## Findings

| source | as written | input that shows it | evidently intended | confidence | as-written member | corrected member |
|---|---|---|---|---|---|---|
| apps/fitness/services/program_assignment_service.py:110-116 | the audit entry always records `ASSIGNED`, also when an inactive row is reactivated | a client whose assignment to a program was unassigned is assigned that program again | a reactivation records `REASSIGNED`, as the service's own test expects | high, not executed | ProgramAssignmentService.AuditActionAsWritten | ProgramAssignmentService.AssignOutcome |
| apps/fitness/services/program_assignment_service.py:101-105 | `complete_request(request_obj=..., actor=...)` against the signature `(actor, request_id)`; the call raises TypeError and the atomic block undoes the assignment | any assignment that passes a paid coach-service request id | `complete_request(actor=actor, request_id=coach_request.id)`, completing the request | high, not executed | ProgramAssignmentService.CompleteRequestCallFails | ProgramAssignmentService.AssignProgram |
| apps/payments/services/coach_request_service.py:41-48 | `create_request` reads `CoachServiceRequest.Status`, which does not exist, and passes `coach`, `price` and `title`, which the model does not accept | any request for an active service of another coach | a pending request of the client for the service | high, not executed | CoachRequestService.CreateRequestAsWritten | CoachRequestService.CreateRequest |
| apps/payments/services/transaction_service.py:2 | imports `CoachRequest`, which the coach-service models module does not define, so importing the module raises ImportError | any import of the module | import `CoachServiceRequest` | high, not executed | TransactionService.ImportAsWrittenFails | TransactionService.HandleSuccessfulPayment |
| apps/payments/services/transaction_service.py:40-45 | the settlement passes `coach_id`, `coach_amount` and `platform_amount`, which `RevenueSplit` does not have, so it raises TypeError after the payment was saved as paid | a pending `coach_service` payment | one split record of the transaction with the coach and platform amounts, which always sum to the payment amount | high, not executed | TransactionService.SettlementKwargsRefused | TransactionService.SettleCoachService |
