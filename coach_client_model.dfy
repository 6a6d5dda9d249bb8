/** apps/fitness/models/coach_client.py: the coach-to-client link, its `clean`
    rules and its `unique_together`. */
module CoachClientModel {
  import opened Basics
  import opened Exceptions
  import opened AccountModels

  datatype CoachClient = CoachClient(
    coach: Id,
    client: Id,
    createdAt: Timestamp,
    isActive: bool,
    notes: string)

  /** A link created with the defaults: active. */
  function NewCoachClient(coach: Id, client: Id, notes: string, now: Timestamp): (c: CoachClient)
    ensures c.coach == coach && c.client == client && c.notes == notes && c.isActive
  {
    CoachClient(coach, client, now, true, notes)
  }

  /** `clean()`: the coach row must have `is_coach`, and coach and client must differ. */
  function Clean(coach: User, link: CoachClient): (r: Result<()>)
    ensures r.Ok? <==> coach.isCoach && link.coach != link.client
    ensures !coach.isCoach ==> r == Err(ValidationError("Coach user must have is_coach=True"))
    ensures coach.isCoach && link.coach == link.client ==>
      r == Err(ValidationError("Coach and client cannot be the same user"))
  {
    if !coach.isCoach then Err(ValidationError("Coach user must have is_coach=True"))
    else if link.coach == link.client then Err(ValidationError("Coach and client cannot be the same user"))
    else Ok(())
  }

  /** `unique_together = ('coach', 'client')`. */
  predicate UniquePairs(links: map<Id, CoachClient>) {
    forall a, b :: a in links && b in links && a != b ==>
      (links[a].coach, links[a].client) != (links[b].coach, links[b].client)
  }

  /** Whether a (coach, client) pair is already linked. */
  predicate Linked(links: map<Id, CoachClient>, coach: Id, client: Id) {
    exists l :: l in links && links[l].coach == coach && links[l].client == client
  }

  /** Adding a link for a pair not yet linked keeps the pairs unique. */
  lemma AddLinkKeepsUnique(links: map<Id, CoachClient>, id: Id, c: CoachClient)
    requires UniquePairs(links) && id !in links
    requires !Linked(links, c.coach, c.client)
    ensures UniquePairs(links[id := c])
  {
  }
}
