/** apps/account/permissions/base.py: `IsActiveUserPermission`. */
module BasePermissions {
  import opened Basics
  import opened AccountModels

  /** `has_permission`: a user is present, authenticated and active. */
  function IsActiveUserPermission(r: RequestUser): (allowed: bool)
    ensures allowed <==> r.Authenticated? && r.user.isActive
  {
    r.IsAuthenticated() && r.IsActive()
  }

  /** The decision ignores the role and staff flags. */
  lemma IsActiveUserIgnoresRoles(id: Id, u: User, coach: bool, gymOwner: bool, staff: bool)
    ensures IsActiveUserPermission(Authenticated(id, u)) ==
      IsActiveUserPermission(Authenticated(id, u.(isCoach := coach, isGymOwner := gymOwner, isStaff := staff)))
  {
  }
}
