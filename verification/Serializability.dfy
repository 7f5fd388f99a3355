/** Every schedule of transactions is equivalent to running them one at a time.

    The serial order is the order in which bodies end. The proof is a forward
    simulation: `ser` is the database as the serial run has it so far; a table
    nobody is working on agrees with it, and a transaction at work is exactly
    as far as it would be if it had started from `ser` by itself. */
module Serializability {
  import opened Prelude
  import opened Database
  import opened Transactions

  predicate Busy(ph: Phase) {
    ph.Running? || ph.Inserting?
  }

  ghost function Held(p: Program, ph: Phase): set<TableID> {
    match ph
    case Locking(k) =>
      var order := LockOrder(Footprint(p));
      if k <= |order| then Elements(order[..k]) else {}
    case Unlocking(_, left) => left
    case _ => Footprint(p)
  }

  ghost predicate PhaseFits(p: Program, ph: Phase) {
    match ph
    case Locking(k) => k <= |LockOrder(Footprint(p))|
    case Running(_, _) => true
    case Inserting(local, _, _) => p.code(local).Insert?
    case Unlocking(_, left) => left <= Footprint(p)
  }

  /** The lock table says of every table who holds it, and says it of no other. */
  ghost predicate LocksMatch(ps: seq<Program>, s: State)
    requires |ps| == |s.phases|
  {
    (forall t :: t in s.owner ==> s.owner[t] < |ps| && t in Held(ps[s.owner[t]], s.phases[s.owner[t]])) &&
    (forall i, t :: 0 <= i < |ps| && t in Held(ps[i], s.phases[i]) ==> t in s.owner && s.owner[t] == i)
  }

  ghost predicate Shaped(ps: seq<Program>, s: State) {
    |ps| == |s.phases| && LocksMatch(ps, s) &&
    (forall i :: 0 <= i < |ps| ==> Footprint(ps[i]) <= s.tables.Keys) &&
    (forall i :: 0 <= i < |ps| ==> PhaseFits(ps[i], s.phases[i]))
  }

  /** Two databases agree on a set of tables they both have. */
  ghost predicate Agree(a: Tables, b: Tables, ts: set<TableID>) {
    ts <= a.Keys && ts <= b.Keys && forall t :: t in ts ==> a[t] == b[t]
  }

  ghost predicate Tracks(p: Program, ser: Tables, tables: Tables, ph: Phase) {
    Busy(ph) ==>
      var c := RunAlone(p, ser, ph.ids);
      c.Some? && c.value.local == ph.local && Agree(c.value.tables, tables, Footprint(p))
  }

  ghost predicate AtWork(s: State, t: TableID) {
    t in s.owner && s.owner[t] < |s.phases| && Busy(s.phases[s.owner[t]])
  }

  ghost predicate Simulates(ps: seq<Program>, s: State, ser: Tables)
    requires |ps| == |s.phases|
  {
    ser.Keys == s.tables.Keys &&
    (forall t :: t in s.tables && !AtWork(s, t) ==> s.tables[t] == ser[t]) &&
    (forall i :: 0 <= i < |ps| ==> Tracks(ps[i], ser, s.tables, s.phases[i]))
  }

  /** The history holds exactly the transactions whose bodies have ended, each
      once and with the result it ended with. */
  ghost predicate Recorded(s: State) {
    (forall k :: 0 <= k < |s.log| ==>
       s.log[k].txn < |s.phases| &&
       s.phases[s.log[k].txn].Unlocking? && s.phases[s.log[k].txn].result == s.log[k].result) &&
    (forall j, k :: 0 <= j < k < |s.log| ==> s.log[j].txn != s.log[k].txn) &&
    (forall i :: 0 <= i < |s.phases| && s.phases[i].Unlocking? ==> InLog(s.log, i))
  }

  ghost predicate InLog(log: seq<Entry>, i: TxnID) {
    exists k :: 0 <= k < |log| && log[k].txn == i
  }

  // ------------------------------------------------- bodies touch their tables

  /** A body depends on, and changes, only the tables of its transaction. */
  lemma {:induction false} RunIsLocal(p: Program, a: Tables, b: Tables, ids: seq<int>)
    requires Agree(a, b, Footprint(p))
    ensures var c, d := RunAlone(p, a, ids), RunAlone(p, b, ids);
      (c.Some? <==> d.Some?) &&
      (c.Some? ==> c.value.local == d.value.local && Agree(c.value.tables, d.value.tables, Footprint(p)))
  {
    if ids != [] {
      RunIsLocal(p, a, b, ids[..|ids| - 1]);
    }
  }

  lemma {:induction false} RunIsConfined(p: Program, a: Tables, ids: seq<int>)
    requires RunAlone(p, a, ids).Some?
    ensures RunAlone(p, a, ids).value.tables.Keys == a.Keys
    ensures Agree(RunAlone(p, a, ids).value.tables, a, a.Keys - Footprint(p))
  {
    if ids != [] {
      RunIsConfined(p, a, ids[..|ids| - 1]);
    }
  }

  /** One more operation of the interleaved run is one more of the lone run. */
  lemma RunExtends(p: Program, a: Tables, ids: seq<int>, tables: Tables, local: Local, id: int)
    requires RunAlone(p, a, ids).Some? && RunAlone(p, a, ids).value.local == local
    requires Agree(RunAlone(p, a, ids).value.tables, tables, Footprint(p))
    requires Ready(p, Config(tables, local))
    ensures var c := RunAlone(p, a, ids + [id]);
      var d := StepAlone(p, Config(tables, local), id);
      c.Some? && c.value.local == d.local && Agree(c.value.tables, d.tables, Footprint(p))
  {
    assert (ids + [id])[..|ids|] == ids;
  }

  // ----------------------------------------------------------------- the locks

  lemma OneHolder(ps: seq<Program>, s: State, i: TxnID, j: TxnID, t: TableID)
    requires Shaped(ps, s) && i < |ps| && j < |ps|
    requires t in Held(ps[i], s.phases[i]) && t in Held(ps[j], s.phases[j])
    ensures i == j
  {
    assert s.owner[t] == i;
    assert s.owner[t] == j;
  }

  lemma BusyApart(ps: seq<Program>, s: State, i: TxnID, j: TxnID)
    requires Shaped(ps, s) && i < |ps| && j < |ps| && i != j
    requires Busy(s.phases[i]) && Busy(s.phases[j])
    ensures Footprint(ps[i]) !! Footprint(ps[j])
  {
    forall t | t in Footprint(ps[i]) && t in Footprint(ps[j]) ensures false {
      assert t in Held(ps[i], s.phases[i]) && t in Held(ps[j], s.phases[j]);
      OneHolder(ps, s, i, j, t);
    }
  }

  lemma HeldGrows(order: seq<TableID>, k: nat)
    requires StrictlyAscending(order) && k < |order|
    ensures Elements(order[..k + 1]) == Elements(order[..k]) + {order[k]}
    ensures order[k] !in order[..k]
  {
    assert order[..k + 1] == order[..k] + [order[k]];
  }

  /** All phases but one are as they were. */
  ghost predicate OnlyPhase(s: State, s': State, i: TxnID) {
    i < |s.phases| && |s'.phases| == |s.phases| && forall j :: 0 <= j < |s.phases| && j != i ==> s'.phases[j] == s.phases[j]
  }

  lemma TakesLock(ps: seq<Program>, s: State, s': State, i: TxnID, t: TableID)
    requires Shaped(ps, s) && OnlyPhase(s, s', i) && s'.tables == s.tables
    requires t !in s.owner && s'.owner == s.owner[t := i]
    requires PhaseFits(ps[i], s'.phases[i]) && Held(ps[i], s'.phases[i]) == Held(ps[i], s.phases[i]) + {t}
    ensures Shaped(ps, s')
  {
    forall u | u in s'.owner ensures s'.owner[u] < |ps| && u in Held(ps[s'.owner[u]], s'.phases[s'.owner[u]]) {
      if u != t {
        assert u in Held(ps[s.owner[u]], s.phases[s.owner[u]]);
      }
    }
    forall j, u | 0 <= j < |ps| && u in Held(ps[j], s'.phases[j]) ensures u in s'.owner && s'.owner[u] == j {
      assert u in Held(ps[j], s.phases[j]) || (j == i && u == t);
    }
  }

  lemma GivesLock(ps: seq<Program>, s: State, s': State, i: TxnID, t: TableID)
    requires Shaped(ps, s) && OnlyPhase(s, s', i) && s'.tables == s.tables
    requires t in Held(ps[i], s.phases[i]) && s'.owner == s.owner - {t}
    requires PhaseFits(ps[i], s'.phases[i]) && Held(ps[i], s'.phases[i]) == Held(ps[i], s.phases[i]) - {t}
    ensures Shaped(ps, s')
  {
    assert s.owner[t] == i;
    forall u | u in s'.owner ensures s'.owner[u] < |ps| && u in Held(ps[s'.owner[u]], s'.phases[s'.owner[u]]) {
      assert u in Held(ps[s.owner[u]], s.phases[s.owner[u]]);
    }
    forall j, u | 0 <= j < |ps| && u in Held(ps[j], s'.phases[j]) ensures u in s'.owner && s'.owner[u] == j {
      assert u in Held(ps[j], s.phases[j]);
    }
  }

  lemma AcquireKeepsShape(ps: seq<Program>, s: State, i: TxnID)
    requires Shaped(ps, s) && Enabled(ps, s, Acquire(i))
    ensures Shaped(ps, Apply(ps, s, Acquire(i)))
  {
    var order, k := LockOrder(Footprint(ps[i])), s.phases[i].held;
    HeldGrows(order, k);
    TakesLock(ps, s, Apply(ps, s, Acquire(i)), i, order[k]);
  }

  lemma WholeOrder(p: Program)
    ensures Elements(LockOrder(Footprint(p))[..|LockOrder(Footprint(p))|]) == Footprint(p)
  {
    var order := LockOrder(Footprint(p));
    TakeAll(order);
    assert forall t :: t in Elements(order) <==> t in Footprint(p);
  }

  lemma BeginKeepsShape(ps: seq<Program>, s: State, i: TxnID)
    requires Shaped(ps, s) && Enabled(ps, s, Begin(i))
    ensures Shaped(ps, Apply(ps, s, Begin(i)))
    ensures Held(ps[i], s.phases[i]) == Footprint(ps[i])
  {
    WholeOrder(ps[i]);
    SameLocksKeepShape(ps, s, Apply(ps, s, Begin(i)), i);
  }

  lemma ReleaseKeepsShape(ps: seq<Program>, s: State, i: TxnID, t: TableID)
    requires Shaped(ps, s) && Enabled(ps, s, Release(i, t))
    ensures Shaped(ps, Apply(ps, s, Release(i, t)))
  {
    GivesLock(ps, s, Apply(ps, s, Release(i, t)), i, t);
  }

  /** A step that changes one phase and no lock keeps the shape. */
  lemma SameLocksKeepShape(ps: seq<Program>, s: State, s': State, i: TxnID)
    requires Shaped(ps, s) && OnlyPhase(s, s', i)
    requires s'.tables.Keys == s.tables.Keys && s'.owner == s.owner
    requires PhaseFits(ps[i], s'.phases[i])
    requires Held(ps[i], s'.phases[i]) == Held(ps[i], s.phases[i])
    ensures Shaped(ps, s')
  {
    forall j, t | 0 <= j < |ps| && t in Held(ps[j], s'.phases[j]) ensures t in s'.owner && s'.owner[t] == j {
      assert t in Held(ps[j], s.phases[j]);
    }
  }

  lemma OperateShape(p: Program, s: State, i: TxnID)
    requires i < |s.phases| && Busy(s.phases[i]) && PhaseFits(p, s.phases[i])
    ensures var s' := Operate(p, s, i);
      s'.tables.Keys == s.tables.Keys && s'.owner == s.owner && OnlyPhase(s, s', i) &&
      PhaseFits(p, s'.phases[i]) && Held(p, s'.phases[i]) == Held(p, s.phases[i])
  {
  }

  lemma WorkKeepsShape(ps: seq<Program>, s: State, i: TxnID)
    requires Shaped(ps, s) && Enabled(ps, s, Work(i))
    ensures Shaped(ps, Operate(ps[i], s, i))
  {
    OperateShape(ps[i], s, i);
    SameLocksKeepShape(ps, s, Operate(ps[i], s, i), i);
  }

  // ------------------------------------------------------------ the simulation

  /** A step of a transaction that is not at work, and that takes no lock from one
      that is, is nothing to the serial run. */
  lemma QuietSimulates(ps: seq<Program>, s: State, s': State, i: TxnID, ser: Tables)
    requires |ps| == |s.phases| && Simulates(ps, s, ser) && OnlyPhase(s, s', i) && s'.tables == s.tables
    requires !Busy(s.phases[i]) && !Busy(s'.phases[i])
    requires forall t :: AtWork(s, t) ==> t in s'.owner && s'.owner[t] == s.owner[t]
    ensures Simulates(ps, s', ser)
  {
    forall t | t in s'.tables && !AtWork(s', t) ensures s'.tables[t] == ser[t] {
      assert !AtWork(s, t);
    }
    forall j | 0 <= j < |ps| ensures Tracks(ps[j], ser, s'.tables, s'.phases[j]) {
      assert Tracks(ps[j], ser, s.tables, s.phases[j]);
    }
  }

  lemma AcquireSimulates(ps: seq<Program>, s: State, i: TxnID, ser: Tables)
    requires Shaped(ps, s) && Simulates(ps, s, ser) && Enabled(ps, s, Acquire(i))
    ensures Simulates(ps, Apply(ps, s, Acquire(i)), ser)
  {
    QuietSimulates(ps, s, Apply(ps, s, Acquire(i)), i, ser);
  }

  lemma GivingSimulates(ps: seq<Program>, s: State, s': State, i: TxnID, t: TableID, ser: Tables)
    requires |ps| == |s.phases| && Simulates(ps, s, ser) && OnlyPhase(s, s', i) && s'.tables == s.tables
    requires !Busy(s.phases[i]) && !Busy(s'.phases[i]) && s'.owner == s.owner - {t} && !AtWork(s, t)
    ensures Simulates(ps, s', ser)
  {
    QuietSimulates(ps, s, s', i, ser);
  }

  lemma ReleasedIsIdle(ps: seq<Program>, s: State, i: TxnID, t: TableID)
    requires Shaped(ps, s) && i < |ps| && s.phases[i].Unlocking? && t in s.phases[i].left
    ensures !AtWork(s, t)
  {
    assert t in Held(ps[i], s.phases[i]);
  }

  lemma ReleaseSimulates(ps: seq<Program>, s: State, i: TxnID, t: TableID, ser: Tables)
    requires |ps| == |s.phases| && Simulates(ps, s, ser) && Enabled(ps, s, Release(i, t)) && !AtWork(s, t)
    ensures Simulates(ps, Apply(ps, s, Release(i, t)), ser)
  {
    GivingSimulates(ps, s, Apply(ps, s, Release(i, t)), i, t, ser);
  }

  /** A body starts with its tables as the serial run has them. */
  lemma StartsInStep(ps: seq<Program>, s: State, i: TxnID, ser: Tables)
    requires Shaped(ps, s) && Simulates(ps, s, ser) && i < |ps| && !Busy(s.phases[i])
    requires Held(ps[i], s.phases[i]) == Footprint(ps[i])
    ensures Tracks(ps[i], ser, s.tables, Running(ps[i].start, []))
  {
    forall t | t in Footprint(ps[i]) ensures ser[t] == s.tables[t] {
      assert t in Held(ps[i], s.phases[i]);
      assert !AtWork(s, t);
    }
  }

  lemma BeginSimulates(ps: seq<Program>, s: State, i: TxnID, ser: Tables)
    requires Shaped(ps, s) && Simulates(ps, s, ser) && Enabled(ps, s, Begin(i))
    ensures Simulates(ps, Apply(ps, s, Begin(i)), ser)
  {
    BeginKeepsShape(ps, s, i);
    StartsInStep(ps, s, i, ser);
    var s' := Apply(ps, s, Begin(i));
    forall t | t in s'.tables && !AtWork(s', t) ensures s'.tables[t] == ser[t] {
      assert !AtWork(s, t);
    }
    forall j | 0 <= j < |ps| ensures Tracks(ps[j], ser, s'.tables, s'.phases[j]) {
      assert Tracks(ps[j], ser, s.tables, s.phases[j]);
    }
  }

  /** A step inside one body: only its own tables change, and it stays at work. */
  lemma WorkSimulates(ps: seq<Program>, s: State, s': State, i: TxnID, ser: Tables)
    requires Shaped(ps, s) && Simulates(ps, s, ser) && OnlyPhase(s, s', i) && Busy(s.phases[i])
    requires s'.owner == s.owner
    requires s'.tables.Keys == s.tables.Keys
    requires Agree(s'.tables, s.tables, s.tables.Keys - Footprint(ps[i]))
    requires Busy(s'.phases[i]) && Tracks(ps[i], ser, s'.tables, s'.phases[i])
    ensures Simulates(ps, s', ser)
  {
    forall t | t in s'.tables && !AtWork(s', t) ensures s'.tables[t] == ser[t] {
      assert !AtWork(s, t);
    }
    forall j | 0 <= j < |ps| ensures Tracks(ps[j], ser, s'.tables, s'.phases[j]) {
      if j != i && Busy(s.phases[j]) {
        BusyApart(ps, s, i, j);
        assert Tracks(ps[j], ser, s.tables, s.phases[j]);
      }
    }
  }

  /** The end of a body: the serial run executes the whole transaction. */
  lemma FinishSimulates(ps: seq<Program>, s: State, i: TxnID, ser: Tables)
    requires Shaped(ps, s) && Simulates(ps, s, ser) && i < |ps| && s.phases[i].Running?
    requires ps[i].code(s.phases[i].local).Halt?
    ensures var c := RunSerially(ps[i], ser, s.phases[i].ids);
      c.Some? && c.value.local == s.phases[i].local && Simulates(ps, Operate(ps[i], s, i), c.value.tables)
  {
    var p, s' := ps[i], Operate(ps[i], s, i);
    assert Tracks(p, ser, s.tables, s.phases[i]);
    var c := RunAlone(p, ser, s.phases[i].ids).value;
    RunIsConfined(p, ser, s.phases[i].ids);
    var ser' := Settle(c.tables, Footprint(p));
    forall t | t in s'.tables && !AtWork(s', t) ensures s'.tables[t] == ser'[t] {
      if t in Footprint(p) {
        assert c.tables[t] == s.tables[t];
      } else {
        assert !AtWork(s, t);
        assert t in ser.Keys - Footprint(p);
      }
    }
    forall j | 0 <= j < |ps| ensures Tracks(ps[j], ser', s'.tables, s'.phases[j]) {
      if j != i && Busy(s.phases[j]) {
        FinishSpares(ps, s, i, j, ser, ser');
      }
    }
  }

  /** The tables of a transaction at work are not those of one that ends. */
  lemma FinishSpares(ps: seq<Program>, s: State, i: TxnID, j: TxnID, ser: Tables, ser': Tables)
    requires Shaped(ps, s) && Simulates(ps, s, ser) && i < |ps| && j < |ps| && i != j
    requires Busy(s.phases[i]) && Busy(s.phases[j])
    requires ser'.Keys == ser.Keys && Agree(ser', ser, ser.Keys - Footprint(ps[i]))
    ensures Tracks(ps[j], ser', Settle(s.tables, Footprint(ps[i])), s.phases[j])
  {
    BusyApart(ps, s, i, j);
    assert Agree(ser, ser', Footprint(ps[j]));
    RunIsLocal(ps[j], ser, ser', s.phases[j].ids);
    assert Tracks(ps[j], ser, s.tables, s.phases[j]);
  }

  /** Each step is matched by the serial run: by the whole transaction when a
      body ends, by nothing otherwise. */
  lemma StepSimulates(ps: seq<Program>, s: State, a: Action, init: Tables)
    requires Shaped(ps, s) && Enabled(ps, s, a)
    requires Replay(ps, init, s.log).Some? && Simulates(ps, s, Replay(ps, init, s.log).value)
    ensures var s' := Apply(ps, s, a);
      Shaped(ps, s') && Replay(ps, init, s'.log).Some? && Simulates(ps, s', Replay(ps, init, s'.log).value)
  {
    var ser := Replay(ps, init, s.log).value;
    match a
    case Acquire(i) => AcquireKeepsShape(ps, s, i); AcquireSimulates(ps, s, i, ser);
    case Begin(i) => BeginKeepsShape(ps, s, i); BeginSimulates(ps, s, i, ser);
    case Release(i, t) => ReleaseKeepsShape(ps, s, i, t); ReleasedIsIdle(ps, s, i, t); ReleaseSimulates(ps, s, i, t, ser);
    case Work(i) => WorkKeepsShape(ps, s, i); OperateSimulates(ps, s, i, init);
  }

  lemma ReplayExtends(ps: seq<Program>, init: Tables, log: seq<Entry>, e: Entry)
    requires Replay(ps, init, log).Some? && e.txn < |ps|
    requires var c := RunSerially(ps[e.txn], Replay(ps, init, log).value, e.ids); c.Some? && c.value.local == e.result
    ensures Replay(ps, init, log + [e]) == Some(RunSerially(ps[e.txn], Replay(ps, init, log).value, e.ids).value.tables)
  {
    assert (log + [e])[..|log|] == log;
  }

  lemma OperateSimulates(ps: seq<Program>, s: State, i: TxnID, init: Tables)
    requires Shaped(ps, s) && i < |ps| && Busy(s.phases[i])
    requires Replay(ps, init, s.log).Some? && Simulates(ps, s, Replay(ps, init, s.log).value)
    ensures var s' := Operate(ps[i], s, i);
      |s'.phases| == |ps| && Replay(ps, init, s'.log).Some? && Simulates(ps, s', Replay(ps, init, s'.log).value)
  {
    var ser := Replay(ps, init, s.log).value;
    OperateShape(ps[i], s, i);
    if Operate(ps[i], s, i).phases[i].Unlocking? {
      FinishSimulates(ps, s, i, ser);
      ReplayExtends(ps, init, s.log, Entry(i, s.phases[i].ids, s.phases[i].local));
    } else {
      OperateTracks(ps[i], s, i, ser);
      WorkSimulates(ps, s, Operate(ps[i], s, i), i, ser);
    }
  }

  lemma OperateTracks(p: Program, s: State, i: TxnID, ser: Tables)
    requires i < |s.phases| && Busy(s.phases[i]) && PhaseFits(p, s.phases[i])
    requires Tracks(p, ser, s.tables, s.phases[i]) && !Operate(p, s, i).phases[i].Unlocking?
    ensures var s' := Operate(p, s, i);
      s'.log == s.log && Busy(s'.phases[i]) && Tracks(p, ser, s'.tables, s'.phases[i]) &&
      s'.tables.Keys == s.tables.Keys && Agree(s'.tables, s.tables, s.tables.Keys - Footprint(p))
  {
    var ph := s.phases[i];
    var op := p.code(ph.local);
    if !(op.Insert? && ph.Running?) && Ready(p, Config(s.tables, ph.local)) {
      RunExtends(p, ser, ph.ids, s.tables, ph.local, if ph.Inserting? then ph.id else 0);
    }
  }

  /** A step that ends no body leaves the history and the results alone. */
  lemma SameLogRecords(s: State, s': State)
    requires Recorded(s) && s'.log == s.log && |s'.phases| == |s.phases|
    requires forall i :: 0 <= i < |s.phases| ==>
      (s.phases[i].Unlocking? <==> s'.phases[i].Unlocking?) &&
      (s.phases[i].Unlocking? ==> s'.phases[i].result == s.phases[i].result)
    ensures Recorded(s')
  {
  }

  lemma LongerLogRecords(s: State, s': State, i: TxnID, ph: Phase, e: Entry)
    requires Recorded(s) && i < |s.phases| && !s.phases[i].Unlocking?
    requires s'.log == s.log + [e] && s'.phases == s.phases[i := ph]
    requires ph.Unlocking? && ph.result == e.result && e.txn == i
    ensures Recorded(s')
  {
    forall j | 0 <= j < |s'.phases| && s'.phases[j].Unlocking? ensures InLog(s'.log, j) {
      if j == i {
        assert s'.log[|s.log|].txn == i;
      } else {
        var k :| 0 <= k < |s.log| && s.log[k].txn == j;
        assert s'.log[k].txn == j;
      }
    }
  }

  lemma StepRecords(ps: seq<Program>, s: State, a: Action)
    requires |ps| == |s.phases| && Recorded(s) && Enabled(ps, s, a)
    ensures Recorded(Apply(ps, s, a))
  {
    if a.Work? {
      OperateRecords(ps[a.txn], s, a.txn);
    } else {
      SameLogRecords(s, Apply(ps, s, a));
    }
  }

  lemma OperateRecords(p: Program, s: State, i: TxnID)
    requires Recorded(s) && i < |s.phases| && Busy(s.phases[i])
    ensures Recorded(Operate(p, s, i))
  {
    var s' := Operate(p, s, i);
    if s'.phases[i].Unlocking? {
      LongerLogRecords(s, s', i, s'.phases[i], Entry(i, s.phases[i].ids, s.phases[i].local));
    } else {
      SameLogRecords(s, s');
    }
  }

  // ------------------------------------------------------------------- row IDs

  /** No ID that is drawn but not stored yet is in use anywhere. */
  ghost predicate FreshIDs(s: State) {
    (forall t, id :: t in s.tables && id in s.tables[t].rows ==> id <= s.curID) &&
    (forall i :: 0 <= i < |s.phases| && s.phases[i].Inserting? ==> s.phases[i].id <= s.curID && Unused(s.tables, s.phases[i].id)) &&
    (forall i, j :: 0 <= i < j < |s.phases| && s.phases[i].Inserting? && s.phases[j].Inserting? ==> s.phases[i].id != s.phases[j].id)
  }

  ghost predicate Unused(tables: Tables, id: int) {
    forall t :: t in tables ==> id !in tables[t].rows
  }

  lemma StepKeepsIDs(ps: seq<Program>, s: State, a: Action)
    requires Shaped(ps, s) && FreshIDs(s) && Enabled(ps, s, a)
    ensures FreshIDs(Apply(ps, s, a))
  {
    if a.Work? {
      OperateKeepsIDs(ps[a.txn], s, a.txn);
    }
  }

  lemma OperateKeepsIDs(p: Program, s: State, i: TxnID)
    requires i < |s.phases| && Busy(s.phases[i]) && PhaseFits(p, s.phases[i]) && FreshIDs(s)
    ensures FreshIDs(Operate(p, s, i))
  {
    var ph, s' := s.phases[i], Operate(p, s, i);
    forall t, id | t in s'.tables && id in s'.tables[t].rows
      ensures id in s.tables[t].rows || (ph.Inserting? && id == ph.id)
    {
    }
  }

  // ---------------------------------------------------------------- every run

  ghost predicate Invariant(ps: seq<Program>, init: Tables, s: State) {
    Shaped(ps, s) && Recorded(s) && FreshIDs(s) &&
    Replay(ps, init, s.log).Some? && Simulates(ps, s, Replay(ps, init, s.log).value)
  }

  lemma {:induction false} InvariantHolds(ps: seq<Program>, s0: State, acts: seq<Action>)
    requires Initial(ps, s0) && Run(ps, s0, acts).Some?
    ensures Invariant(ps, s0.tables, Run(ps, s0, acts).value)
  {
    if acts == [] {
      forall i | 0 <= i < |ps| ensures Held(ps[i], s0.phases[i]) == {} {
      }
    } else {
      var before := acts[..|acts| - 1];
      InvariantHolds(ps, s0, before);
      var s, a := Run(ps, s0, before).value, acts[|acts| - 1];
      StepSimulates(ps, s, a, s0.tables);
      StepRecords(ps, s, a);
      StepKeepsIDs(ps, s, a);
    }
  }

  predicate Finished(ph: Phase) {
    ph.Unlocking? && ph.left == {}
  }

  /** Serializability. In every reachable state, running the ended transactions
      one at a time, in the order in which they ended and with the row IDs they
      drew, succeeds, gives each the result it had, and leaves every unlocked
      table as it is now. */
  lemma EveryScheduleIsSerial(ps: seq<Program>, s0: State, acts: seq<Action>)
    requires Initial(ps, s0) && Run(ps, s0, acts).Some?
    ensures var s := Run(ps, s0, acts).value;
      var ser := Replay(ps, s0.tables, s.log);
      Recorded(s) && ser.Some? && ser.value.Keys == s.tables.Keys &&
      (forall t :: t in s.tables && t !in s.owner ==> s.tables[t] == ser.value[t]) &&
      ((forall i :: 0 <= i < |s.phases| ==> Finished(s.phases[i])) ==> s.tables == ser.value)
  {
    InvariantHolds(ps, s0, acts);
    var s := Run(ps, s0, acts).value;
    forall t | t in s.owner ensures !Finished(s.phases[s.owner[t]]) {
      assert t in Held(ps[s.owner[t]], s.phases[s.owner[t]]);
    }
  }

  /** No insertion overwrites a row: when a drawn ID is about to be stored, no
      table holds it. */
  lemma InsertNeverOverwrites(ps: seq<Program>, s0: State, acts: seq<Action>, i: TxnID)
    requires Initial(ps, s0) && Run(ps, s0, acts).Some?
    requires i < |Run(ps, s0, acts).value.phases| && Run(ps, s0, acts).value.phases[i].Inserting?
    ensures var s := Run(ps, s0, acts).value; Unused(s.tables, s.phases[i].id)
  {
    InvariantHolds(ps, s0, acts);
  }

  // ---------------------------------------------------------- deadlock freedom

  /** The lock a transaction is waiting for. */
  ghost predicate WaitsFor(p: Program, ph: Phase, t: TableID) {
    var order := LockOrder(Footprint(p));
    ph.Locking? && ph.held < |order| && order[ph.held] == t
  }

  ghost predicate CanStep(ps: seq<Program>, s: State) {
    exists a :: Enabled(ps, s, a)
  }

  /** Whoever holds a lock and waits for another waits for a greater one. */
  lemma WaitsUpwards(p: Program, ph: Phase, held: TableID, t: TableID)
    requires held in Held(p, ph) && WaitsFor(p, ph, t)
    ensures held < t
  {
  }

  /** An unfinished transaction can step, or waits for a lock someone holds. */
  lemma UnfinishedOrBlocked(ps: seq<Program>, s: State, i: TxnID)
    requires Shaped(ps, s) && !s.crashed && i < |ps| && !Finished(s.phases[i])
    ensures CanStep(ps, s) || exists t :: t in s.owner && WaitsFor(ps[i], s.phases[i], t)
  {
    var ph, order := s.phases[i], LockOrder(Footprint(ps[i]));
    if Busy(ph) {
      assert Enabled(ps, s, Work(i));
    } else if ph.Unlocking? {
      var t :| t in ph.left;
      assert Enabled(ps, s, Release(i, t));
    } else if ph.held == |order| {
      assert Enabled(ps, s, Begin(i));
    } else if order[ph.held] !in s.owner {
      assert Enabled(ps, s, Acquire(i));
    } else {
      assert WaitsFor(ps[i], ph, order[ph.held]);
    }
  }

  /** Follow the chain of waits upwards; it ends at someone who can step. */
  lemma {:induction false} ChainEnds(ps: seq<Program>, s: State, i: TxnID, t: TableID, top: nat)
    requires Shaped(ps, s) && !s.crashed && i < |ps|
    requires t in s.owner && WaitsFor(ps[i], s.phases[i], t)
    requires forall u :: u in s.owner ==> u <= top
    ensures CanStep(ps, s)
    decreases top - t
  {
    var j := s.owner[t];
    assert t in Held(ps[j], s.phases[j]);
    UnfinishedOrBlocked(ps, s, j);
    if !CanStep(ps, s) {
      var u :| u in s.owner && WaitsFor(ps[j], s.phases[j], u);
      WaitsUpwards(ps[j], s.phases[j], t, u);
      ChainEnds(ps, s, j, u, top);
    }
  }

  lemma {:induction false} Bound(s: set<nat>) returns (top: nat)
    ensures forall u :: u in s ==> u <= top
  {
    if s == {} {
      top := 0;
    } else {
      var x :| x in s;
      var rest := Bound(s - {x});
      top := if x < rest then rest else x;
      forall u | u in s ensures u <= top {
        assert u == x || u in s - {x};
      }
    }
  }

  lemma SomeoneSteps(ps: seq<Program>, s: State, i: TxnID)
    requires Shaped(ps, s) && !s.crashed && i < |ps| && !Finished(s.phases[i])
    ensures CanStep(ps, s)
  {
    UnfinishedOrBlocked(ps, s, i);
    if !CanStep(ps, s) {
      var t :| t in s.owner && WaitsFor(ps[i], s.phases[i], t);
      var top := Bound(s.owner.Keys);
      ChainEnds(ps, s, i, t, top);
    }
  }

  /** Deadlock freedom. Whenever a transaction is unfinished, whatever tables
      they all ask for, some transaction can take a step. */
  lemma NeverDeadlocked(ps: seq<Program>, s0: State, acts: seq<Action>, i: TxnID)
    requires Initial(ps, s0) && Run(ps, s0, acts).Some?
    requires i < |Run(ps, s0, acts).value.phases| && !Finished(Run(ps, s0, acts).value.phases[i])
    ensures !Run(ps, s0, acts).value.crashed ==> CanStep(ps, Run(ps, s0, acts).value)
  {
    InvariantHolds(ps, s0, acts);
    if !Run(ps, s0, acts).value.crashed {
      SomeoneSteps(ps, Run(ps, s0, acts).value, i);
    }
  }
}
