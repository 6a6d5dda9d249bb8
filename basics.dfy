/** Shared vocabulary of the model: optional values, row identifiers and time.

    Every table of the platform is keyed by a UUID; the model identifies rows
    by natural numbers instead. Time stamps are whole seconds, a calendar date is
    the number of the day a time stamp falls on (UTC). */
module Basics {

  datatype Option<+T> = None | Some(value: T) {
    function GetOr(default: T): T {
      match this
      case Some(v) => v
      case None => default
    }
  }

  /** Primary key of a row (a UUID in the database). */
  type Id = nat

  /** A point in time, in seconds. */
  type Timestamp = int

  /** A calendar day number: day 0 starts at time stamp 0. */
  type Date = int

  const SecondsPerDay: int := 86400

  /** The date part of a time stamp, as `assigned_at__date` extracts it. */
  function DateOf(t: Timestamp): (d: Date)
    ensures d * SecondsPerDay <= t < (d + 1) * SecondsPerDay
  {
    t / SecondsPerDay
  }

  /** Length of `timedelta(days=n)` in seconds. */
  function Days(n: int): int {
    n * SecondsPerDay
  }

  /** Every key of a table is below the next identifier to be handed out. */
  predicate Below(keys: set<Id>, bound: nat) {
    forall k :: k in keys ==> k < bound
  }
}
