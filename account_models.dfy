/** apps/account/models.py: the custom `User` with its role flags, the one-to-one
    `CoachProfile`, and the profile picture upload path. */
module AccountModels {
  import opened Basics
  import opened Text

  /** A `User` row: the AbstractUser fields the core reads and the two role flags.
      AbstractUser's required, unique `username` is not modelled: no core
      operation writes users. */
  datatype User = User(
    email: string,
    fullName: string,
    googleId: Option<string>,
    isActive: bool,
    isStaff: bool,
    isSuperuser: bool,
    isCoach: bool,
    isGymOwner: bool)

  /** A user created with only an email: AbstractUser makes it active without
      staff or superuser rights, and both role flags default to false. */
  function NewUser(email: string): (u: User)
    ensures u.email == email && u.googleId == None
    ensures u.isActive && !u.isStaff && !u.isSuperuser
    ensures !u.isCoach && !u.isGymOwner
  {
    User(email, "", None, true, false, false, false, false)
  }

  /** `email` is `unique=True`. */
  predicate UniqueEmails(users: map<Id, User>) {
    forall a, b :: a in users && b in users && a != b ==> users[a].email != users[b].email
  }

  /** `google_id` is `unique=True` and nullable: two rows may both have none. */
  predicate UniqueGoogleIds(users: map<Id, User>) {
    forall a, b :: a in users && b in users && a != b && users[a].googleId.Some? ==>
      users[a].googleId != users[b].googleId
  }

  /** A new user whose email is not taken and whose google id is absent or not taken
      keeps both unique constraints. */
  lemma AddUserKeepsUnique(users: map<Id, User>, id: Id, u: User)
    requires UniqueEmails(users) && UniqueGoogleIds(users)
    requires id !in users
    requires forall k :: k in users ==> users[k].email != u.email
    requires u.googleId.Some? ==> forall k :: k in users ==> users[k].googleId != u.googleId
    ensures UniqueEmails(users[id := u]) && UniqueGoogleIds(users[id := u])
  {
  }

  /** `custom_user_img_upload_to`: "users/{id}/profile_images/{filename}". */
  function ProfileImagePath(userId: Id, filename: string): string {
    JoinPath(["users", NatToString(userId), "profile_images"], filename)
  }

  /** The profile picture path reads back, segment by segment, as the user's id
      under "users" and "profile_images", followed by the file name. */
  lemma ProfileImagePathSegments(userId: Id, filename: string)
    ensures Split(ProfileImagePath(userId, filename), '/') ==
      ["users", NatToString(userId), "profile_images"] + Split(filename, '/')
  {
    var segments := ["users", NatToString(userId), "profile_images"];
    NatToStringNoSlash(userId);
    assert forall i :: 0 <= i < |segments| ==> '/' !in segments[i];
    SplitJoinPath(segments, filename);
  }

  /** A `CoachProfile` row; `user` is a one-to-one link. */
  datatype CoachProfile = CoachProfile(
    user: Id,
    bio: string,
    specialties: seq<string>,
    yearsOfExperience: nat,
    priceCents: Option<int>,
    isVerified: bool)

  /** A profile created for `user` with the field defaults. */
  function NewCoachProfile(user: Id): (p: CoachProfile)
    ensures p.user == user && p.yearsOfExperience == 0 && !p.isVerified
    ensures p.bio == "" && p.specialties == [] && p.priceCents == None
  {
    CoachProfile(user, "", [], 0, None, false)
  }

  /** `request.user`: a signed-in user row, or Django's AnonymousUser, which is
      not authenticated, not active and has no role flags. */
  datatype RequestUser = Anonymous | Authenticated(id: Id, user: User) {
    predicate IsAuthenticated() { Authenticated? }
    predicate IsActive() { Authenticated? && user.isActive }
  }
}
