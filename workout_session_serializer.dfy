/** `WorkoutSessionSerializer` of apps/fitness/serializers/workout_session.py:
    which fields it reads and writes, and its week-number validator. */
module WorkoutSessionSerializer {
  import opened Basics
  import opened Exceptions
  import opened WorkoutModels

  /** `Meta.fields`, in declaration order. */
  const Fields: seq<string> := ["id", "program_id", "program", "title", "notes", "week_number", "equipments",
    "location", "session_type", "duration", "intensity", "is_public", "is_rest_day", "created_at", "updated_at"]

  /** `Meta.read_only_fields`. */
  const ReadOnly: set<string> := {"id", "program", "created_at", "updated_at"}

  /** `program_id` is declared `write_only`. */
  const WriteOnly: set<string> := {"program_id"}

  /** The fields a request may supply. */
  function Writable(): (r: set<string>)
    ensures forall f :: f in r <==> f in Fields && f !in ReadOnly
  {
    set f | f in Fields && f !in ReadOnly
  }

  /** The fields a response shows. */
  function Readable(): (r: set<string>)
    ensures forall f :: f in r <==> f in Fields && f !in WriteOnly
  {
    set f | f in Fields && f !in WriteOnly
  }

  /** `program_id` can be sent and is never shown; `program` is shown and cannot
      be sent; the key and the timestamps cannot be sent. */
  lemma FieldRoles()
    ensures "program_id" in Writable() && "program_id" !in Readable()
    ensures "program" in Readable() && "program" !in Writable()
    ensures forall f :: f in ReadOnly ==> f !in Writable() && f in Readable()
  {
    assert Fields[1] == "program_id" && Fields[2] == "program";
    forall f | f in ReadOnly ensures f in Fields && f !in WriteOnly {
      assert f == Fields[0] || f == Fields[2] || f == Fields[13] || f == Fields[14];
    }
  }

  /** `validate_week_number`: below 1 is refused, anything else returned as it is. */
  function ValidateWeekNumber(value: int): (r: Result<nat>)
    ensures r.Ok? <==> value >= 1
    ensures r.Ok? ==> r.value == value
    ensures r.Err? ==> r == Err(ValidationError("Week number must be >= 1."))
  {
    if value < 1 then Err(ValidationError("Week number must be >= 1.")) else Ok(value)
  }

  /** Field-level validation of an incoming session: a supplied week number
      must pass the validator; the other attributes pass through unchanged. */
  function Validate(data: SessionPatch): (r: Result<SessionPatch>)
    ensures r.Ok? <==> (data.weekNumber.Some? ==> data.weekNumber.value >= 1)
    ensures r.Ok? ==> r.value == data
  {
    if data.weekNumber.Some? then
      var w := ValidateWeekNumber(data.weekNumber.value);
      if w.Err? then Err(w.error) else Ok(data)
    else Ok(data)
  }

  /** A session created from validated input never has week 0. */
  lemma ValidatedWeekPositive(data: SessionPatch, s: Session)
    requires Validate(data).Ok?
    ensures ApplySessionPatch(s, data).weekNumber >= 1 || (data.weekNumber.None? && ApplySessionPatch(s, data).weekNumber == s.weekNumber)
  {
  }
}
