/** The in-memory database as an interleaved step system: transactions take
    their table locks one at a time in sorted order, run a body made of the
    database's own operations, settle the alert flags and give the locks back.

    A body is an arbitrary program over its own local state; what it may do to
    the database is exactly what `Database` offers it. */
module Transactions {
  import opened Prelude
  import opened Database

  type TxnID = nat

  /** A transaction: the table names it was created with, possibly repeated,
      and its body. */
  datatype Program = Program(tables: seq<TableID>, start: Local, code: Local -> Instr)

  function Footprint(p: Program): set<TableID> {
    Elements(p.tables)
  }

  // ---------------------------------------------------------------- serially

  /** A body alone with the database. */
  datatype Config = Config(tables: Tables, local: Local)

  /** Anything else is a panic: a table outside the transaction, or a commit
      of a row the table does not hold. */
  predicate Ready(p: Program, c: Config) {
    var op := p.code(c.local);
    !op.Halt? && op.table in Footprint(p) && op.table in c.tables &&
    (op.Commit? ==> op.id in c.tables[op.table].rows)
  }

  function StepAlone(p: Program, c: Config, id: int): Config
    requires Ready(p, c)
  {
    var op := p.code(c.local);
    var t := c.tables[op.table];
    Config(c.tables[op.table := Effect(op, t, id)], Resume(op, t, id))
  }

  /** The body's first `|ids|` operations, run without interruption. Step k is
      given `ids[k]`, which only an insertion looks at. */
  function RunAlone(p: Program, tables: Tables, ids: seq<int>): Option<Config> {
    if ids == [] then
      Some(Config(tables, p.start))
    else
      var c := RunAlone(p, tables, ids[..|ids| - 1]);
      if c.Some? && Ready(p, c.value) then Some(StepAlone(p, c.value, ids[|ids| - 1])) else None
  }

  /** The end of a transaction clears the alert flags of its tables. */
  function Settle(tables: Tables, fp: set<TableID>): (r: Tables)
    ensures r.Keys == tables.Keys
    ensures forall t :: t in tables ==> r[t] == if t in fp then tables[t].(shouldAlert := false) else tables[t]
  {
    map t | t in tables :: if t in fp then tables[t].(shouldAlert := false) else tables[t]
  }

  /** One whole transaction, from lock to unlock, with nothing in between. */
  function RunSerially(p: Program, tables: Tables, ids: seq<int>): Option<Config> {
    var c := RunAlone(p, tables, ids);
    if c.Some? && p.code(c.value.local).Halt? then
      Some(Config(Settle(c.value.tables, Footprint(p)), c.value.local))
    else
      None
  }

  /** One transaction of a serial history: who ran, the IDs it was given and
      the local state it ended in. */
  datatype Entry = Entry(txn: TxnID, ids: seq<int>, result: Local)

  /** The tables after running a history one transaction at a time, or None
      when some entry's result is not what running it there gives. */
  function Replay(ps: seq<Program>, init: Tables, log: seq<Entry>): Option<Tables> {
    if log == [] then
      Some(init)
    else
      var e := log[|log| - 1];
      var before := Replay(ps, init, log[..|log| - 1]);
      if before.None? || e.txn >= |ps| then None
      else
        var c := RunSerially(ps[e.txn], before.value, e.ids);
        if c.Some? && c.value.local == e.result then Some(c.value.tables) else None
  }

  // ------------------------------------------------------------- interleaved

  /** Where a transaction is. `ids` remembers the ID given to each operation so
      far; `Inserting` is between drawing an ID and storing the row. */
  datatype Phase =
    | Locking(held: nat)
    | Running(local: Local, ids: seq<int>)
    | Inserting(local: Local, ids: seq<int>, id: int)
    | Unlocking(result: Local, left: set<TableID>)

  /** `log` records transactions in the order in which their bodies ended. */
  datatype State = State(tables: Tables, owner: map<TableID, TxnID>, phases: seq<Phase>,
                         curID: int, log: seq<Entry>, crashed: bool)

  ghost predicate StrictlyAscending(s: seq<nat>) {
    forall i, j :: 0 <= i < j < |s| ==> s[i] < s[j]
  }

  predicate IsLeast(s: set<nat>, m: nat) {
    m in s && forall x :: x in s ==> m <= x
  }

  lemma {:induction false} FindLeast(s: set<nat>) returns (m: nat)
    requires s != {}
    ensures IsLeast(s, m)
  {
    var a :| a in s;
    var rest := s - {a};
    m := a;
    if rest != {} {
      var other := FindLeast(rest);
      m := if other < a then other else a;
    }
    forall x | x in s ensures m <= x {
      assert x == a || x in rest;
    }
  }

  lemma LeastExists(s: set<nat>)
    requires s != {}
    ensures exists m :: IsLeast(s, m)
  {
    var m := FindLeast(s);
  }

  ghost function Least(s: set<nat>): (m: nat)
    requires s != {}
    ensures IsLeast(s, m)
  {
    LeastExists(s);
    var m :| IsLeast(s, m);
    m
  }

  /** The tables of a transaction in the order in which it locks them. */
  ghost function LockOrder(s: set<TableID>): (r: seq<TableID>)
    ensures StrictlyAscending(r)
    ensures forall t :: t in r <==> t in s
  {
    if s == {} then [] else
      var rest := LockOrder(s - {Least(s)});
      assert forall i :: 0 <= i < |rest| ==> rest[i] in s - {Least(s)};
      [Least(s)] + rest
  }

  datatype Action =
    | Acquire(txn: TxnID)
    | Begin(txn: TxnID)
    | Work(txn: TxnID)
    | Release(txn: TxnID, table: TableID)

  /** Acquire waits for the next lock in order, Begin for the last one; a body
      operation never waits. */
  ghost predicate Enabled(ps: seq<Program>, s: State, a: Action) {
    !s.crashed && a.txn < |s.phases| && a.txn < |ps| &&
    var ph, order := s.phases[a.txn], LockOrder(Footprint(ps[a.txn]));
    match a
    case Acquire(_) => ph.Locking? && ph.held < |order| && order[ph.held] !in s.owner
    case Begin(_) => ph.Locking? && ph.held == |order|
    case Work(_) => ph.Running? || ph.Inserting?
    case Release(_, t) => ph.Unlocking? && t in ph.left
  }

  ghost function Apply(ps: seq<Program>, s: State, a: Action): State
    requires Enabled(ps, s, a)
  {
    var i := a.txn;
    var ph := s.phases[i];
    match a
    case Acquire(_) =>
      s.(owner := s.owner[LockOrder(Footprint(ps[i]))[ph.held] := i],
         phases := s.phases[i := Locking(ph.held + 1)])
    case Begin(_) =>
      s.(phases := s.phases[i := Running(ps[i].start, [])])
    case Work(_) =>
      Operate(ps[i], s, i)
    case Release(_, t) =>
      s.(owner := s.owner - {t}, phases := s.phases[i := ph.(left := ph.left - {t})])
  }

  /** One operation of a body, with a panic where `Ready` fails. An insertion
      takes two steps, since the ID counter has a lock of its own. */
  function Operate(p: Program, s: State, i: TxnID): State
    requires i < |s.phases| && (s.phases[i].Running? || s.phases[i].Inserting?)
  {
    var ph := s.phases[i];
    var op := p.code(ph.local);
    if op.Halt? && ph.Running? then
      s.(tables := Settle(s.tables, Footprint(p)),
         phases := s.phases[i := Unlocking(ph.local, Footprint(p))],
         log := s.log + [Entry(i, ph.ids, ph.local)])
    else if op.Insert? && ph.Running? then
      s.(curID := s.curID + 1,
         phases := s.phases[i := Inserting(ph.local, ph.ids, s.curID + 1)])
    else if !Ready(p, Config(s.tables, ph.local)) then
      s.(crashed := true)
    else
      var id := if ph.Inserting? then ph.id else 0;
      var c := StepAlone(p, Config(s.tables, ph.local), id);
      s.(tables := c.tables, phases := s.phases[i := Running(c.local, ph.ids + [id])])
  }

  /** Every transaction about to take its first lock. */
  ghost predicate Initial(ps: seq<Program>, s: State) {
    |s.phases| == |ps| && s.owner == map[] && s.log == [] && !s.crashed &&
    (forall i :: 0 <= i < |ps| ==> s.phases[i] == Locking(0)) &&
    (forall i :: 0 <= i < |ps| ==> Footprint(ps[i]) <= s.tables.Keys) &&
    (forall t, id :: t in s.tables && id in s.tables[t].rows ==> id <= s.curID)
  }

  /** The state after a schedule, or None when it takes a step that is not
      enabled. */
  ghost function Run(ps: seq<Program>, s: State, acts: seq<Action>): Option<State> {
    if acts == [] then Some(s)
    else
      var before := Run(ps, s, acts[..|acts| - 1]);
      if before.Some? && Enabled(ps, before.value, acts[|acts| - 1])
      then Some(Apply(ps, before.value, acts[|acts| - 1])) else None
  }
}
