/** Tables of rows, and the operations a transaction body has on them. */
module Database {

  /** What a table stores, and what a transaction body remembers between two
      database operations. */
  type Row(==, !new)
  type Local(==, !new)

  type TableID = nat

  datatype Table = Table(rows: map<int, Row>, shouldAlert: bool)
  type Tables = map<TableID, Table>

  /** The tables hold the same rows, but for row `id`. */
  ghost predicate SameBut(a: map<int, Row>, b: map<int, Row>, id: int) {
    a - {id} == b - {id}
  }

  function InsertRow(t: Table, id: int, row: Row): (r: Table)
    ensures r.shouldAlert && id in r.rows && r.rows[id] == row && SameBut(r.rows, t.rows, id)
  {
    Table(t.rows[id := row], true)
  }

  /** A commit rewrites the row only when it changes it or the table is already
      going to alert; either way the flag records every change. */
  function CommitRow(t: Table, id: int, row: Row): (r: Table)
    requires id in t.rows
    ensures r.rows == t.rows[id := row]
    ensures r.shouldAlert <==> t.shouldAlert || r.rows != t.rows
  {
    if t.shouldAlert || row != t.rows[id] then
      Table(t.rows[id := row], true)
    else
      assert t.rows[id := row] == t.rows; t
  }

  function RemoveRow(t: Table, id: int): (r: Table)
    ensures r.shouldAlert && id !in r.rows && SameBut(r.rows, t.rows, id)
  {
    Table(t.rows - {id}, true)
  }

  /** One database operation of a body, and how the body goes on after it. */
  datatype Instr =
    | Halt
    | Select(table: TableID, seen: map<int, Row> -> Local)
    | Insert(table: TableID, make: int -> Row, drew: int -> Local)
    | Commit(table: TableID, id: int, row: Row, next: Local)
    | Remove(table: TableID, id: int, next: Local)

  /** What an operation does to its table; `id` is the row ID drawn for it, if
      it draws one. */
  function Effect(op: Instr, t: Table, id: int): Table
    requires op.Commit? ==> op.id in t.rows
  {
    match op
    case Insert(_, make, _) => InsertRow(t, id, make(id))
    case Commit(_, rid, row, _) => CommitRow(t, rid, row)
    case Remove(_, rid, _) => RemoveRow(t, rid)
    case _ => t
  }

  function Resume(op: Instr, t: Table, id: int): Local
    requires !op.Halt?
  {
    match op
    case Select(_, seen) => seen(t.rows)
    case Insert(_, _, drew) => drew(id)
    case Commit(_, _, _, next) => next
    case Remove(_, _, next) => next
  }
}
