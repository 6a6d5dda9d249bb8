/** apps/account/permissions/roles.py: `IsCoach`, `IsGymOwner`, `IsCoachOrGymOwner`. */
module RolePermissions {
  import opened Basics
  import opened AccountModels

  function IsCoach(r: RequestUser): (allowed: bool)
    ensures allowed <==> r.Authenticated? && r.user.isActive && r.user.isCoach
  {
    r.IsAuthenticated() && r.IsActive() && r.user.isCoach
  }

  function IsGymOwner(r: RequestUser): (allowed: bool)
    ensures allowed <==> r.Authenticated? && r.user.isActive && r.user.isGymOwner
  {
    r.IsAuthenticated() && r.IsActive() && r.user.isGymOwner
  }

  function IsCoachOrGymOwner(r: RequestUser): (allowed: bool)
    ensures allowed <==> r.Authenticated? && r.user.isActive && (r.user.isCoach || r.user.isGymOwner)
  {
    r.IsAuthenticated() && r.IsActive() && (r.user.isCoach || r.user.isGymOwner)
  }

  /** The combined permission is exactly the union of the other two, and none of
      the three admits an inactive user, whatever the flags. */
  lemma CombinedIsUnion(r: RequestUser)
    ensures IsCoachOrGymOwner(r) == (IsCoach(r) || IsGymOwner(r))
    ensures !r.IsActive() ==> !IsCoach(r) && !IsGymOwner(r) && !IsCoachOrGymOwner(r)
  {
  }
}
