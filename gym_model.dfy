/** apps/fitness/models/gym.py: gyms, coach membership in gyms, and the gym image
    path. */
module GymModel {
  import opened Basics
  import opened Text
  import opened Exceptions
  import opened AccountModels

  /** A gym has exactly one owner: the `owner` link is not nullable. */
  datatype Gym = Gym(owner: Id, name: string, description: string, image: string, address: string)

  datatype CoachGym = CoachGym(coach: Id, gym: nat)

  /** The rendering of the gym's auto-increment `id`; before the first insert it
      is `None`, which an f-string renders as "None". */
  function GymIdText(id: Option<nat>): (r: string)
    ensures '/' !in r
  {
    match id
    case Some(n) => NatToStringNoSlash(n); NatToString(n)
    case None => "None"
  }

  /** `custom_gym_img_upload_to`: "gyms/{id}/{filename}". */
  function GymImagePath(id: Option<nat>, filename: string): (r: string)
    ensures Split(r, '/') == ["gyms", GymIdText(id)] + Split(filename, '/')
  {
    var segments := ["gyms", GymIdText(id)];
    assert forall i :: 0 <= i < |segments| ==> '/' !in segments[i];
    SplitJoinPath(segments, filename);
    JoinPath(segments, filename)
  }

  /** `CoachGym.clean()`: only a coach can be assigned to a gym. */
  function CleanCoachGym(coach: User): (r: Result<()>)
    ensures r.Ok? <==> coach.isCoach
    ensures r.Err? ==> r.error == ValidationError("User must be a coach to be assigned to a gym")
  {
    if !coach.isCoach then Err(ValidationError("User must be a coach to be assigned to a gym")) else Ok(())
  }

  /** `unique_together = ('coach', 'gym')`. */
  predicate UniqueCoachGyms(rows: map<Id, CoachGym>) {
    forall a, b :: a in rows && b in rows && a != b ==> rows[a] != rows[b]
  }

  /** Adding a (coach, gym) row that does not exist yet keeps the pairs unique. */
  lemma AddCoachGymKeepsUnique(rows: map<Id, CoachGym>, id: Id, c: CoachGym)
    requires UniqueCoachGyms(rows) && id !in rows
    requires forall r :: r in rows ==> rows[r] != c
    ensures UniqueCoachGyms(rows[id := c])
  {
  }
}
