/** apps/payments/services/revenue_split_service.py: writing revenue splits and
    dividing a transaction between a coach and the platform. */
module RevenueSplitService {
  import opened Basics
  import opened Exceptions
  import opened Money
  import opened Ordering
  import opened AccountModels
  import opened CoachServiceModel
  import opened RevenueSplitModel
  import opened Store

  /** `create_split`: one row with the given fields. The database refuses an
      amount or percentage outside its column (DataError; the amount is converted
      first) and a missing percentage (NOT NULL, IntegrityError). */
  method CreateSplit(db: Db, transaction: Id, beneficiary: Id, amountCents: int, splitType: SplitType,
                     percentage: Option<int>, now: Timestamp) returns (r: Result<Id>)
    requires Invariant(db.T())
    modifies db
    ensures !FitsAmount(amountCents) ==> r == Err(DataError) && db.T() == old(db.T())
    ensures FitsAmount(amountCents) && percentage.None? ==> r == Err(IntegrityError) && db.T() == old(db.T())
    ensures FitsAmount(amountCents) && percentage.Some? && !FitsPercentage(percentage.value) ==>
      r == Err(DataError) && db.T() == old(db.T())
    ensures FitsAmount(amountCents) && percentage.Some? && FitsPercentage(percentage.value) ==>
      r == Ok(old(db.nextId)) &&
      db.T() == old(db.T()).(
        splits := old(db.splits)[old(db.nextId) := RevenueSplit(transaction, beneficiary, amountCents, splitType, percentage.value, now)],
        nextId := old(db.nextId) + 1)
    ensures Invariant(db.T())
  {
    if !FitsAmount(amountCents) {
      return Err(DataError);
    }
    if percentage.None? {
      return Err(IntegrityError);
    }
    if !FitsPercentage(percentage.value) {
      return Err(DataError);
    }
    var id := db.NewId();
    db.splits := db.splits[id := RevenueSplit(transaction, beneficiary, amountCents, splitType, percentage.value, now)];
    r := Ok(id);
  }

  /** The two amounts of `calculate_and_split`: the coach's share rounded to the
      cent, and the remainder rounded to the cent, which is the exact remainder,
      so the two make up the whole amount. */
  function SplitAmounts(amountCents: int, pct: int): (r: (int, int))
    ensures r.0 == Share(amountCents, pct)
    ensures r.0 + r.1 == amountCents
  {
    var coach := Share(amountCents, pct);
    RoundCentsExact(amountCents - coach);
    (coach, RoundCents(100 * (amountCents - coach)))
  }

  /** For a percentage between 0 and 100 both amounts lie between nothing and the
      whole amount, so an amount that fits its column gives two that fit. At the
      default 70 % the percentages written are 70 and 30. */
  lemma {:induction false} SplitAmountsFit(amountCents: int, pct: int)
    requires 0 <= pct <= 100
    ensures amountCents >= 0 ==> 0 <= SplitAmounts(amountCents, pct).0 <= amountCents && 0 <= SplitAmounts(amountCents, pct).1 <= amountCents
    ensures amountCents < 0 ==> amountCents <= SplitAmounts(amountCents, pct).0 <= 0 && amountCents <= SplitAmounts(amountCents, pct).1 <= 0
    ensures FitsAmount(amountCents) ==> FitsAmount(SplitAmounts(amountCents, pct).0) && FitsAmount(SplitAmounts(amountCents, pct).1)
    ensures FitsPercentage(pct) && FitsPercentage(100 - pct)
  {
    ShareBetween(amountCents, pct);
  }

  /** The two rows `calculate_and_split` writes. */
  function SplitRows(transaction: Id, amountCents: int, coach: Id, platform: Id, pct: int, now: Timestamp): (r: (RevenueSplit, RevenueSplit))
    ensures r.0.transaction == transaction == r.1.transaction
    ensures r.0.beneficiary == coach && r.0.splitType == CoachShare && r.0.percentage == pct
    ensures r.1.beneficiary == platform && r.1.splitType == PlatformShare && r.1.percentage == 100 - pct
    ensures r.0.amountCents + r.1.amountCents == amountCents
    ensures r.0.percentage + r.1.percentage == 100
  {
    var amounts := SplitAmounts(amountCents, pct);
    (RevenueSplit(transaction, coach, amounts.0, CoachShare, pct, now),
     RevenueSplit(transaction, platform, amounts.1, PlatformShare, 100 - pct, now))
  }

  /** The outcome of writing the two rows of `transaction` on store `t0`: a row
      that its columns refuse stops the writing with DataError, and what was
      written before stays. */
  ghost predicate SplitWritten(t0: Tables, t1: Tables, r: Result<(Id, Id)>, transaction: Id, coach: Id, platform: Id, pct: int, now: Timestamp)
    requires transaction in t0.transactions
  {
    var rows := SplitRows(transaction, t0.transactions[transaction].amountCents, coach, platform, pct, now);
    var n, next: Id := t0.nextId, t0.nextId + 1;
    if !FitsAmount(rows.0.amountCents) || !FitsPercentage(pct) then
      r == Err(DataError) && t1 == t0
    else if !FitsAmount(rows.1.amountCents) || !FitsPercentage(100 - pct) then
      r == Err(DataError) && t1 == t0.(splits := t0.splits[n := rows.0], nextId := n + 1)
    else
      r == Ok((n, next)) && t1 == t0.(splits := t0.splits[n := rows.0][next := rows.1], nextId := n + 2)
  }

  /** At the default 70 % an amount that fits its column is always split in
      full: both rows are written. */
  lemma DefaultSplitWritesBoth(t0: Tables, t1: Tables, r: Result<(Id, Id)>, transaction: Id, coach: Id, platform: Id, now: Timestamp)
    requires transaction in t0.transactions && FitsAmount(t0.transactions[transaction].amountCents)
    requires SplitWritten(t0, t1, r, transaction, coach, platform, 70, now)
    ensures var rows := SplitRows(transaction, t0.transactions[transaction].amountCents, coach, platform, 70, now);
      var n, next: Id := t0.nextId, t0.nextId + 1;
      r == Ok((n, next)) && t1 == t0.(splits := t0.splits[n := rows.0][next := rows.1], nextId := n + 2)
  {
    SplitAmountsFit(t0.transactions[transaction].amountCents, 70);
  }

  /** `calculate_and_split`: both beneficiaries are required; then the coach row
      and the platform row are written one after the other. The two writes are
      not atomic: when the second is refused the first stays. */
  method CalculateAndSplit(db: Db, transaction: Id, coachUser: Option<Id>, platformUser: Option<Id>, pct: int, now: Timestamp)
    returns (r: Result<(Id, Id)>)
    requires Invariant(db.T()) && transaction in db.transactions
    modifies db
    ensures coachUser.None? || platformUser.None? ==>
      r == Err(ValueError("Both coach_user and platform_user must be provided")) && db.T() == old(db.T())
    ensures coachUser.Some? && platformUser.Some? ==>
      SplitWritten(old(db.T()), db.T(), r, transaction, coachUser.value, platformUser.value, pct, now)
    ensures Invariant(db.T())
  {
    if coachUser.None? || platformUser.None? {
      return Err(ValueError("Both coach_user and platform_user must be provided"));
    }
    var amount := db.transactions[transaction].amountCents;
    var amounts := SplitAmounts(amount, pct);
    var first := CreateSplit(db, transaction, coachUser.value, amounts.0, CoachShare, Some(pct), now);
    if first.Err? {
      return Err(first.error);
    }
    var second := CreateSplit(db, transaction, platformUser.value, amounts.1, PlatformShare, Some(100 - pct), now);
    if second.Err? {
      return Err(second.error);
    }
    r := Ok((first.value, second.value));
  }

  /** The superusers among `users`. */
  function Superusers(users: map<Id, User>): (r: set<Id>)
    ensures forall u :: u in r <==> u in users && users[u].isSuperuser
  {
    set u | u in users && users[u].isSuperuser
  }

  /** The default ordering of a query without `order_by`: by primary key. */
  function ByPrimaryKey(id: Id): Key {
    Key(id, 0)
  }

  /** The platform account: `filter(is_superuser=True).first()`, which without
      an ordering takes the smallest primary key. */
  function PlatformUser(users: map<Id, User>, bound: nat): (r: Option<Id>)
    requires Below(users.Keys, bound)
    ensures r.None? <==> forall u :: u in users ==> !users[u].isSuperuser
    ensures r.Some? ==> (r.value in users && users[r.value].isSuperuser &&
      forall u :: u in users && users[u].isSuperuser ==> r.value <= u)
  {
    PlatformUserSmallest(users, bound);
    First(Superusers(users), bound, ByPrimaryKey)
  }

  /** The first superuser by primary key is the smallest one. */
  lemma PlatformUserSmallest(users: map<Id, User>, bound: nat)
    requires Below(users.Keys, bound)
    ensures var f := First(Superusers(users), bound, ByPrimaryKey);
      (f.None? <==> forall u :: u in users ==> !users[u].isSuperuser) &&
      (f.Some? ==> (f.value in users && users[f.value].isSuperuser &&
        forall u :: u in users && users[u].isSuperuser ==> f.value <= u))
  {
    var supers := Superusers(users);
    var f := First(supers, bound, ByPrimaryKey);
    if f.None? {
      forall u | u in users ensures !users[u].isSuperuser {
        assert u !in supers;
      }
    } else {
      forall u | u in users && users[u].isSuperuser ensures f.value <= u {
        assert u in supers;
        assert KeyLe(ByPrimaryKey(f.value), ByPrimaryKey(u));
      }
    }
  }

  /** `create_for_coach_request`: the coach of the request's service and the
      platform account share the transaction. */
  method CreateForCoachRequest(db: Db, request: ServiceRequest, transaction: Id, pct: int, now: Timestamp)
    returns (r: Result<(Id, Id)>)
    requires Invariant(db.T()) && transaction in db.transactions
    requires request.service.Some? ==> request.service.value in db.services
    modifies db
    ensures request.service.None? ==> r == Err(AttributeError) && db.T() == old(db.T())
    ensures request.service.Some? && PlatformUser(old(db.users), old(db.nextId)).None? ==>
      r == Err(ValueError("No platform account found for revenue split")) && db.T() == old(db.T())
    ensures request.service.Some? && PlatformUser(old(db.users), old(db.nextId)).Some? ==>
      SplitWritten(old(db.T()), db.T(), r, transaction, old(db.services)[request.service.value].coach,
        PlatformUser(old(db.users), old(db.nextId)).value, pct, now)
    ensures Invariant(db.T())
  {
    if request.service.None? {
      return Err(AttributeError);
    }
    var coach := db.services[request.service.value].coach;
    var platform := PlatformUser(db.users, db.nextId);
    if platform.None? {
      return Err(ValueError("No platform account found for revenue split"));
    }
    r := CalculateAndSplit(db, transaction, Some(coach), platform, pct, now);
  }
}
