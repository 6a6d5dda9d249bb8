/** apps/fitness/models/program_assignment_audit.py: the audit log of assignment
    actions. */
module AuditModel {
  import opened Basics
  import opened Ordering
  import Json

  /** `Action` text choices. */
  datatype Action = ASSIGNED | UNASSIGNED | REASSIGNED {
    /** The stored value. */
    function Value(): string {
      match this
      case ASSIGNED => "ASSIGNED"
      case UNASSIGNED => "UNASSIGNED"
      case REASSIGNED => "REASSIGNED"
    }
  }

  /** The stored values are distinct, so a stored action names one member. */
  lemma ActionValuesDistinct(a: Action, b: Action)
    ensures a.Value() == b.Value() <==> a == b
  {
  }

  /** An audit row. Every link is nullable (`SET_NULL`). */
  datatype AuditEntry = AuditEntry(
    actor: Option<Id>,
    client: Option<Id>,
    program: Option<Id>,
    assignment: Option<Id>,
    action: Action,
    meta: Json.Object,
    createdAt: Timestamp)

  /** `ordering = ["-created_at"]`. */
  function AuditOrder(entries: map<Id, AuditEntry>): Id -> Key {
    (id: Id) => if id in entries then Key(-entries[id].createdAt, 0) else Key(0, 0)
  }

  /** The log in its default order: every entry once, newest first. */
  function Log(entries: map<Id, AuditEntry>, bound: nat): (r: seq<Id>)
    requires Below(entries.Keys, bound)
    ensures forall x :: x in r <==> x in entries
    ensures forall i, j :: 0 <= i < j < |r| ==> entries[r[i]].createdAt >= entries[r[j]].createdAt
  {
    LogNewestFirst(entries, bound);
    OrderedIds(entries.Keys, bound, AuditOrder(entries))
  }

  /** The ordered keys come out newest first. */
  lemma LogNewestFirst(entries: map<Id, AuditEntry>, bound: nat)
    requires Below(entries.Keys, bound)
    ensures var r := OrderedIds(entries.Keys, bound, AuditOrder(entries));
      forall i, j :: 0 <= i < j < |r| ==> entries[r[i]].createdAt >= entries[r[j]].createdAt
  {
    var r := OrderedIds(entries.Keys, bound, AuditOrder(entries));
    forall i, j | 0 <= i < j < |r| ensures entries[r[i]].createdAt >= entries[r[j]].createdAt {
      assert KeyLe(AuditOrder(entries)(r[i]), AuditOrder(entries)(r[j]));
    }
  }
}
