/** apps/fitness/services/audit_logger.py: `AssignmentAuditLogger.log`. */
module AuditLogger {
  import opened Basics
  import opened AuditModel
  import opened Store
  import Json

  /** Appends one audit entry under a fresh key and returns that key. The log is
      append-only: every existing entry, and every other table, stays as it was. */
  method Log(db: Db, actor: Option<Id>, client: Option<Id>, program: Option<Id>, assignment: Option<Id>,
             action: Action, meta: Option<Json.Object>, now: Timestamp) returns (id: Id)
    requires Invariant(db.T())
    modifies db
    ensures id == old(db.nextId) && id !in old(db.audits)
    ensures db.T() == old(db.T()).(
      audits := old(db.audits)[id := AuditEntry(actor, client, program, assignment, action, Json.OrEmpty(meta), now)],
      nextId := id + 1)
    ensures Invariant(db.T())
  {
    id := db.NewId();
    db.audits := db.audits[id := AuditEntry(actor, client, program, assignment, action, Json.OrEmpty(meta), now)];
  }
}
