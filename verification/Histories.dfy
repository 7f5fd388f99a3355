/** What transactions leave behind, told by the history of their operations: a row is as
    the last operation on it left it. */
module Histories {
  import opened Prelude
  import opened Database
  import opened Transactions
  import opened Serializability

  ghost function Lookup(tables: Tables, t: TableID, r: int): Option<Row> {
    if t in tables && r in tables[t].rows then Some(tables[t].rows[r]) else None
  }

  /** The operation writes or removes row `r` of table `t`; `id` is the ID drawn for it. */
  ghost predicate Touches(op: Instr, id: int, t: TableID, r: int) {
    match op
    case Insert(u, _, _) => u == t && id == r
    case Commit(u, rid, _, _) => u == t && rid == r
    case Remove(u, rid, _) => u == t && rid == r
    case _ => false
  }

  /** What it leaves there. */
  ghost function Leaves(op: Instr, id: int): Option<Row> {
    match op
    case Insert(_, make, _) => Some(make(id))
    case Commit(_, _, row, _) => Some(row)
    case _ => None
  }

  /** The operations that a body makes. */
  ghost function Ops(p: Program, tables: Tables, ids: seq<int>): (ops: seq<Instr>)
    ensures |ops| == |ids|
  {
    if ids == [] then []
    else
      var c := RunAlone(p, tables, ids[..|ids| - 1]);
      Ops(p, tables, ids[..|ids| - 1]) + [if c.Some? then p.code(c.value.local) else Halt]
  }

  /** The last operation of a body, in full: what it does to the rows of its table, that it
      leaves every other table alone, and what the body learns from it. */
  lemma OneOperation(p: Program, tables: Tables, ids: seq<int>)
    requires ids != [] && RunAlone(p, tables, ids).Some?
    ensures var n := |ids| - 1;
            && RunAlone(p, tables, ids[..n]).Some?
            && var c, c', op, id := RunAlone(p, tables, ids[..n]).value, RunAlone(p, tables, ids).value,
                                    Ops(p, tables, ids)[n], ids[n];
               && !op.Halt? && op.table in Footprint(p) && op.table in c.tables && c'.tables.Keys == c.tables.Keys
               && (forall t :: t in c.tables && t != op.table ==> c'.tables[t] == c.tables[t])
               && var rows, rows' := c.tables[op.table].rows, c'.tables[op.table].rows;
                  match op
                  case Select(_, seen) => c'.tables == c.tables && c'.local == seen(rows)
                  case Insert(_, make, drew) => rows' == rows[id := make(id)] && c'.local == drew(id)
                  case Commit(_, rid, row, next) => rid in rows && rows' == rows[rid := row] && c'.local == next
                  case Remove(_, rid, next) => rows' == rows - {rid} && c'.local == next
  {
    var n := |ids| - 1;
    var c := RunAlone(p, tables, ids[..n]).value;
    var op := p.code(c.local);
    if op.Select? {
      assert c.tables[op.table := c.tables[op.table]] == c.tables;
    }
  }

  lemma OperationOnRow(p: Program, tables: Tables, ids: seq<int>, t: TableID, r: int)
    requires ids != [] && RunAlone(p, tables, ids).Some?
    ensures var n := |ids| - 1;
            && RunAlone(p, tables, ids[..n]).Some?
            && Lookup(RunAlone(p, tables, ids).value.tables, t, r) ==
               if Touches(Ops(p, tables, ids)[n], ids[n], t, r) then Leaves(Ops(p, tables, ids)[n], ids[n])
               else Lookup(RunAlone(p, tables, ids[..n]).value.tables, t, r)
  {
    OneOperation(p, tables, ids);
  }

  // ------------------------------------------------------------------- one body

  ghost predicate TouchesAt(ops: seq<Instr>, ids: seq<int>, k: nat, t: TableID, r: int) {
    k < |ops| && k < |ids| && Touches(ops[k], ids[k], t, r)
  }

  ghost predicate NoneTouches(ops: seq<Instr>, ids: seq<int>, t: TableID, r: int) {
    forall k: nat :: !TouchesAt(ops, ids, k, t, r)
  }

  ghost predicate LastTouch(ops: seq<Instr>, ids: seq<int>, k: nat, t: TableID, r: int) {
    TouchesAt(ops, ids, k, t, r) && forall j: nat :: TouchesAt(ops, ids, j, t, r) ==> j <= k
  }

  /** `now` is what the operations leave of a row that was `before`: what the last one
      on it leaves, or what it was if there is none. */
  ghost predicate LeftAs(ops: seq<Instr>, ids: seq<int>, t: TableID, r: int, before: Option<Row>, now: Option<Row>) {
    && (NoneTouches(ops, ids, t, r) ==> now == before)
    && (forall k: nat :: LastTouch(ops, ids, k, t, r) ==> now == Leaves(ops[k], ids[k]))
  }

  lemma NoneTouchesBefore(ops: seq<Instr>, ids: seq<int>, n: nat, t: TableID, r: int)
    requires |ops| == |ids| && n <= |ops| && NoneTouches(ops, ids, t, r)
    ensures NoneTouches(ops[..n], ids[..n], t, r)
  {
    forall k: nat ensures !TouchesAt(ops[..n], ids[..n], k, t, r) {
      assert !TouchesAt(ops, ids, k, t, r);
    }
  }

  lemma LastTouchBefore(ops: seq<Instr>, ids: seq<int>, n: nat, k: nat, t: TableID, r: int)
    requires |ops| == |ids| && k < n <= |ops| && LastTouch(ops, ids, k, t, r)
    ensures LastTouch(ops[..n], ids[..n], k, t, r)
  {
    forall j: nat | TouchesAt(ops[..n], ids[..n], j, t, r) ensures j <= k {
      assert TouchesAt(ops, ids, j, t, r);
    }
  }

  lemma OneMoreOperation(ops: seq<Instr>, ids: seq<int>, t: TableID, r: int, before: Option<Row>, now: Option<Row>)
    requires |ops| == |ids| && ops != []
    requires LeftAs(ops[..|ops| - 1], ids[..|ops| - 1], t, r, before, now)
    ensures var op, id := ops[|ops| - 1], ids[|ops| - 1];
            LeftAs(ops, ids, t, r, before, if Touches(op, id, t, r) then Leaves(op, id) else now)
  {
    var n := |ops| - 1;
    assert Touches(ops[n], ids[n], t, r) <==> TouchesAt(ops, ids, n, t, r);
    if NoneTouches(ops, ids, t, r) {
      NoneTouchesBefore(ops, ids, n, t, r);
    }
    forall k: nat | LastTouch(ops, ids, k, t, r)
      ensures (if Touches(ops[n], ids[n], t, r) then Leaves(ops[n], ids[n]) else now) == Leaves(ops[k], ids[k])
    {
      if k < n {
        LastTouchBefore(ops, ids, n, k, t, r);
      }
    }
  }

  /** Within a body, so also for its own later reads, the last write to a row counts. */
  lemma {:induction false} LastWriteWins(p: Program, tables: Tables, ids: seq<int>, t: TableID, r: int)
    requires RunAlone(p, tables, ids).Some?
    ensures LeftAs(Ops(p, tables, ids), ids, t, r, Lookup(tables, t, r),
                   Lookup(RunAlone(p, tables, ids).value.tables, t, r))
  {
    if ids != [] {
      var n := |ids| - 1;
      OperationOnRow(p, tables, ids, t, r);
      LastWriteWins(p, tables, ids[..n], t, r);
      assert Ops(p, tables, ids)[..n] == Ops(p, tables, ids[..n]);
      OneMoreOperation(Ops(p, tables, ids), ids, t, r, Lookup(tables, t, r),
                       Lookup(RunAlone(p, tables, ids[..n]).value.tables, t, r));
    }
  }

  /** ... and of a whole transaction. */
  lemma TransactionLeaves(p: Program, tables: Tables, ids: seq<int>, t: TableID, r: int)
    requires RunSerially(p, tables, ids).Some?
    ensures LeftAs(Ops(p, tables, ids), ids, t, r, Lookup(tables, t, r),
                   Lookup(RunSerially(p, tables, ids).value.tables, t, r))
  {
    LastWriteWins(p, tables, ids, t, r);
  }

  // ------------------------------------------------------------------ a schedule

  /** The operations of the `e`-th transaction of a history. */
  ghost function OpsOf(ps: seq<Program>, init: Tables, log: seq<Entry>, e: nat): seq<Instr>
    requires e < |log|
  {
    var before := Replay(ps, init, log[..e]);
    if before.Some? && log[e].txn < |ps| then Ops(ps[log[e].txn], before.value, log[e].ids) else []
  }

  /** Its operation `k` touches row `r` of table `t`. */
  ghost predicate Writes(ps: seq<Program>, init: Tables, log: seq<Entry>, e: nat, k: nat, t: TableID, r: int) {
    e < |log| && TouchesAt(OpsOf(ps, init, log, e), log[e].ids, k, t, r)
  }

  ghost predicate NoneWrites(ps: seq<Program>, init: Tables, log: seq<Entry>, t: TableID, r: int) {
    forall e: nat, k: nat :: !Writes(ps, init, log, e, k, t, r)
  }

  ghost predicate LeavesAlone(ps: seq<Program>, init: Tables, log: seq<Entry>, e: nat, t: TableID, r: int) {
    forall k: nat :: !Writes(ps, init, log, e, k, t, r)
  }

  /** ... and no later operation, of it or of a later transaction, does. */
  ghost predicate LastWrite(ps: seq<Program>, init: Tables, log: seq<Entry>, e: nat, k: nat, t: TableID, r: int) {
    && Writes(ps, init, log, e, k, t, r)
    && forall f: nat, j: nat :: Writes(ps, init, log, f, j, t, r) ==> f < e || (f == e && j <= k)
  }

  /** What it leaves. */
  ghost function WrittenBy(ps: seq<Program>, init: Tables, log: seq<Entry>, e: nat, k: nat, t: TableID, r: int): Option<Row>
    requires Writes(ps, init, log, e, k, t, r)
  {
    Leaves(OpsOf(ps, init, log, e)[k], log[e].ids[k])
  }

  lemma SameWrites(ps: seq<Program>, init: Tables, log: seq<Entry>, n: nat, e: nat, k: nat, t: TableID, r: int)
    requires e < n <= |log|
    ensures Writes(ps, init, log[..n], e, k, t, r) <==> Writes(ps, init, log, e, k, t, r)
    ensures Writes(ps, init, log, e, k, t, r) ==>
              WrittenBy(ps, init, log[..n], e, k, t, r) == WrittenBy(ps, init, log, e, k, t, r)
  {
    assert log[..n][..e] == log[..e];
  }

  /** What a serial history holds of a row. */
  ghost predicate HeldAs(ps: seq<Program>, init: Tables, log: seq<Entry>, t: TableID, r: int, now: Option<Row>) {
    && (NoneWrites(ps, init, log, t, r) ==> now == Lookup(init, t, r))
    && (forall e: nat, k: nat :: LastWrite(ps, init, log, e, k, t, r) ==> now == WrittenBy(ps, init, log, e, k, t, r))
  }

  /** The last transaction of a history either touches the row, or leaves it as it was. */
  lemma LastEntry(ps: seq<Program>, init: Tables, log: seq<Entry>, t: TableID, r: int)
    requires log != [] && Replay(ps, init, log).Some?
    ensures var n := |log| - 1;
            && Replay(ps, init, log[..n]).Some?
            && (LeavesAlone(ps, init, log, n, t, r) ==>
                  Lookup(Replay(ps, init, log).value, t, r) == Lookup(Replay(ps, init, log[..n]).value, t, r))
            && (forall k: nat :: LastWrite(ps, init, log, n, k, t, r) ==>
                  Lookup(Replay(ps, init, log).value, t, r) == WrittenBy(ps, init, log, n, k, t, r))
  {
    var n := |log| - 1;
    var before, e := Replay(ps, init, log[..n]).value, log[n];
    var ops := OpsOf(ps, init, log, n);
    TransactionLeaves(ps[e.txn], before, e.ids, t, r);
    assert forall k: nat :: Writes(ps, init, log, n, k, t, r) <==> TouchesAt(ops, e.ids, k, t, r);
  }

  lemma {:induction false} ReplayHolds(ps: seq<Program>, init: Tables, log: seq<Entry>, t: TableID, r: int)
    requires Replay(ps, init, log).Some?
    ensures HeldAs(ps, init, log, t, r, Lookup(Replay(ps, init, log).value, t, r))
  {
    if log != [] {
      var n := |log| - 1;
      LastEntry(ps, init, log, t, r);
      ReplayHolds(ps, init, log[..n], t, r);
      OneMoreEntry(ps, init, log, n, t, r, Lookup(Replay(ps, init, log[..n]).value, t, r),
                   Lookup(Replay(ps, init, log).value, t, r));
    }
  }

  lemma OneMoreEntry(ps: seq<Program>, init: Tables, log: seq<Entry>, n: nat, t: TableID, r: int,
                     before: Option<Row>, now: Option<Row>)
    requires |log| == n + 1 && HeldAs(ps, init, log[..n], t, r, before)
    requires LeavesAlone(ps, init, log, n, t, r) ==> now == before
    requires forall k: nat :: LastWrite(ps, init, log, n, k, t, r) ==> now == WrittenBy(ps, init, log, n, k, t, r)
    ensures HeldAs(ps, init, log, t, r, now)
  {
    if NoneWrites(ps, init, log, t, r) {
      NoneBefore(ps, init, log, n, t, r);
      assert LeavesAlone(ps, init, log, n, t, r);
    }
    forall e: nat, k: nat | LastWrite(ps, init, log, e, k, t, r) ensures now == WrittenBy(ps, init, log, e, k, t, r) {
      if e < n {
        LastBefore(ps, init, log, n, e, k, t, r);
      }
    }
  }

  lemma NoneBefore(ps: seq<Program>, init: Tables, log: seq<Entry>, n: nat, t: TableID, r: int)
    requires n <= |log| && NoneWrites(ps, init, log, t, r)
    ensures NoneWrites(ps, init, log[..n], t, r)
  {
    forall e: nat, k: nat ensures !Writes(ps, init, log[..n], e, k, t, r) {
      if e < n {
        SameWrites(ps, init, log, n, e, k, t, r);
      }
    }
  }

  lemma LastBefore(ps: seq<Program>, init: Tables, log: seq<Entry>, n: nat, e: nat, k: nat, t: TableID, r: int)
    requires e < n <= |log| && LastWrite(ps, init, log, e, k, t, r)
    ensures LastWrite(ps, init, log[..n], e, k, t, r)
    ensures WrittenBy(ps, init, log[..n], e, k, t, r) == WrittenBy(ps, init, log, e, k, t, r)
    ensures LeavesAlone(ps, init, log, n, t, r)
  {
    SameWrites(ps, init, log, n, e, k, t, r);
    forall f: nat, j: nat | Writes(ps, init, log[..n], f, j, t, r) ensures f < e || (f == e && j <= k) {
      SameWrites(ps, init, log, n, f, j, t, r);
    }
  }

  /** However transactions are interleaved: in every reachable state, a row of an unlocked
      table is what the last operation on it left there, where transactions count in the
      order in which they ended; a row that none has touched is as it was. */
  lemma LastWriteStays(ps: seq<Program>, s0: State, acts: seq<Action>, t: TableID, r: int)
    requires Initial(ps, s0) && Run(ps, s0, acts).Some?
    requires t in Run(ps, s0, acts).value.tables && t !in Run(ps, s0, acts).value.owner
    ensures var s := Run(ps, s0, acts).value; HeldAs(ps, s0.tables, s.log, t, r, Lookup(s.tables, t, r))
  {
    EveryScheduleIsSerial(ps, s0, acts);
    ReplayHolds(ps, s0.tables, Run(ps, s0, acts).value.log, t, r);
  }

  /** When a body's operation panics: exactly on a table that its transaction does not have,
      or on committing a row that the table does not hold. */
  ghost predicate Panics(p: Program, tables: Tables, op: Instr)
    requires !op.Halt?
  {
    op.table !in p.tables || op.table !in tables || (op.Commit? && op.id !in tables[op.table].rows)
  }

  /** One step of a body among others.  At its end the transaction is recorded; an insertion
      first draws the next ID, and stores its row in a second step; any other operation
      takes one. */
  lemma WorkStep(ps: seq<Program>, s: State, i: TxnID)
    requires Enabled(ps, s, Work(i))
    ensures var s', ph := Apply(ps, s, Work(i)), s.phases[i];
            var op := ps[i].code(ph.local);
            && (op.Halt? && ph.Running? ==>
                  s'.log == s.log + [Entry(i, ph.ids, ph.local)] && s'.phases[i] == Unlocking(ph.local, Footprint(ps[i])))
            && (op.Insert? && ph.Running? ==>
                  s'.curID == s.curID + 1 && s'.phases[i] == Inserting(ph.local, ph.ids, s.curID + 1) && s'.tables == s.tables)
            && (!op.Halt? && !(op.Insert? && ph.Running?) ==>
                  (s'.crashed <==> Panics(ps[i], s.tables, op)) && s'.curID == s.curID &&
                  (!s'.crashed ==> s'.phases[i].Running? &&
                                   s'.phases[i].ids == ph.ids + [if ph.Inserting? then ph.id else 0]))
  {
  }
}
