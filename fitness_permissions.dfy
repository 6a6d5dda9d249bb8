/** apps/fitness/permissions.py: `IsProgramOwner`. */
module FitnessPermissions {
  import opened Basics
  import opened AccountModels

  /** `has_object_permission`: `obj.created_by == request.user`. A null creator
      equals no user, and AnonymousUser equals no user row. */
  function IsProgramOwner(r: RequestUser, createdBy: Option<Id>): (allowed: bool)
    ensures allowed <==> r.Authenticated? && createdBy == Some(r.id)
  {
    match r
    case Anonymous => false
    case Authenticated(id, _) => createdBy == Some(id)
  }

  /** The decision depends on the user's identity only, never on the role flags,
      and an object without creator is denied to everyone. */
  lemma ProgramOwnerIgnoresRoles(id: Id, u: User, v: User, createdBy: Option<Id>)
    ensures IsProgramOwner(Authenticated(id, u), createdBy) == IsProgramOwner(Authenticated(id, v), createdBy)
    ensures !IsProgramOwner(Authenticated(id, u), None)
  {
  }
}
