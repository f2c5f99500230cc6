/** The outbox table: the life cycle of its rows and the meaning of each SQL statement that the
    repository issues.  A statement is a function from tables to tables. */
module OutboxTable {

  type Id = nat

  datatype Status = Pending | Processing | Published | Failed | Invalid

  predicate CanTransitionTo(from: Status, to: Status) {
    match from
    case Pending => to == Processing
    case Failed => to == Processing
    case Processing => to == Processing || to == Published || to == Failed || to == Invalid
    case Published => false
    case Invalid => false
  }

  predicate Terminal(s: Status) { s == Published || s == Invalid }

  datatype Row = Row(eventType: string, status: Status, attempts: nat, updatedAt: int)

  type Table = map<Id, Row>

  // ---------- SET clauses ----------

  function Claimed(r: Row, now: int): Row { r.(status := Processing, updatedAt := now) }

  function Retried(r: Row, now: int): Row {
    r.(status := Processing, attempts := r.attempts + 1, updatedAt := now)
  }

  function Exhausted(r: Row, now: int): Row {
    r.(status := Invalid, attempts := r.attempts + 1, updatedAt := now)
  }

  function Delivered(r: Row, now: int): Row { r.(status := Published, updatedAt := now) }

  function Rejected(r: Row, now: int): Row { r.(status := Invalid, updatedAt := now) }

  function Refused(r: Row, maxAttempts: int, now: int): Row {
    r.(status := if r.attempts + 1 >= maxAttempts then Invalid else Failed,
       attempts := r.attempts + 1, updatedAt := now)
  }

  /** What reclaiming does to one stuck row: try again, or give up when the attempts are used up. */
  function Reclaimed(r: Row, maxAttempts: int, now: int): Row {
    if r.attempts + 1 >= maxAttempts then Exhausted(r, now) else Retried(r, now)
  }

  // ---------- WHERE clauses ----------

  predicate IsPending(r: Row) { r.status == Pending }

  predicate IsRetryable(r: Row, maxAttempts: int, before: int) {
    r.status == Failed && r.attempts < maxAttempts && r.updatedAt <= before
  }

  predicate IsStuck(r: Row, before: int) { r.status == Processing && r.updatedAt <= before }

  // ---------- UPDATE ----------

  function Update(t: Table, ids: set<Id>, change: Row -> Row): (u: Table)
    ensures u.Keys == t.Keys
  {
    map id | id in t :: if id in ids then change(t[id]) else t[id]
  }

  /** Every change of a row follows the life cycle, and no row disappears. */
  ghost predicate Lawful(t: Table, u: Table) {
    forall id :: id in t ==> id in u && (u[id] == t[id] || CanTransitionTo(t[id].status, u[id].status))
  }
}
