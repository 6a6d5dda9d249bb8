/** apps/account/permissions/workout.py: `CanAssignWorkoutProgram`. */
module WorkoutPermissions {
  import opened Basics
  import opened AccountModels
  import RolePermissions

  function CanAssignWorkoutProgram(r: RequestUser): (allowed: bool)
    ensures allowed <==> r.Authenticated? && r.user.isActive && (r.user.isCoach || r.user.isGymOwner)
  {
    r.IsAuthenticated() && r.IsActive() && (r.user.isCoach || r.user.isGymOwner)
  }

  /** The permission coincides with `IsCoachOrGymOwner`; in particular it denies
      a user with neither flag and an inactive user. */
  lemma CanAssignIsCoachOrGymOwner(r: RequestUser)
    ensures CanAssignWorkoutProgram(r) == RolePermissions.IsCoachOrGymOwner(r)
    ensures r.Authenticated? && !r.user.isCoach && !r.user.isGymOwner ==> !CanAssignWorkoutProgram(r)
    ensures !r.IsActive() ==> !CanAssignWorkoutProgram(r)
  {
  }
}
