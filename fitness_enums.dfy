/** apps/fitness/enums.py: the `RequestStatus` enum and its `choices` list. */
module FitnessEnums {

  datatype RequestStatus = PENDING | REJECTED | IN_PROGRESS | COMPLETED {
    /** `item.name` */
    function Name(): string {
      match this
      case PENDING => "PENDING"
      case REJECTED => "REJECTED"
      case IN_PROGRESS => "IN_PROGRESS"
      case COMPLETED => "COMPLETED"
    }

    /** `item.value` */
    function Value(): string {
      match this
      case PENDING => "Pending"
      case REJECTED => "Rejected"
      case IN_PROGRESS => "In Progress"
      case COMPLETED => "Completed"
    }
  }

  /** Iterating over the enum class yields the members in declaration order. */
  function Members(): (ms: seq<RequestStatus>)
    ensures |ms| == 4
    ensures forall s: RequestStatus :: s in ms
    ensures forall i, j :: 0 <= i < j < |ms| ==> ms[i] != ms[j]
  {
    var ms := [PENDING, REJECTED, IN_PROGRESS, COMPLETED];
    assert forall s: RequestStatus :: s in ms by {
      forall s: RequestStatus ensures s in ms {
        if s.PENDING? { assert ms[0] == s; }
        else if s.REJECTED? { assert ms[1] == s; }
        else if s.IN_PROGRESS? { assert ms[2] == s; }
        else { assert ms[3] == s; }
      }
    }
    ms
  }

  /** `choices()`: one (name, value) pair per member, in declaration order. */
  function Choices(): (cs: seq<(string, string)>)
    ensures |cs| == |Members()|
    ensures forall i :: 0 <= i < |cs| ==> cs[i] == (Members()[i].Name(), Members()[i].Value())
  {
    var ms := Members();
    seq(|ms|, i requires 0 <= i < |ms| => (ms[i].Name(), ms[i].Value()))
  }

  /** The stored form of a status is its name; names are pairwise distinct, so a
      stored name identifies one member, and every member's name is a choice. */
  lemma ChoiceNamesDistinct()
    ensures forall i, j :: 0 <= i < j < |Choices()| ==> Choices()[i].0 != Choices()[j].0
    ensures forall s: RequestStatus :: exists i :: 0 <= i < |Choices()| && Choices()[i].0 == s.Name()
  {
    var cs, ms := Choices(), Members();
    assert cs[0].0 == "PENDING" && cs[1].0 == "REJECTED" && cs[2].0 == "IN_PROGRESS" && cs[3].0 == "COMPLETED";
    forall s: RequestStatus ensures exists i :: 0 <= i < |cs| && cs[i].0 == s.Name() {
      if s.PENDING? { assert cs[0].0 == s.Name(); }
      else if s.REJECTED? { assert cs[1].0 == s.Name(); }
      else if s.IN_PROGRESS? { assert cs[2].0 == s.Name(); }
      else { assert cs[3].0 == s.Name(); }
    }
  }
}
