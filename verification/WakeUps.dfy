/** No wake-up is lost. Goroutines run transactions over any tables, triggers
    are registered and stopped, tickers tick and consumers read, all as
    interleaved steps. */
module WakeUps {
  import opened Prelude
  import opened Database
  import opened Triggers

  /** A goroutine and the transaction it is in. `todo` holds the visits that
      `alert` has still to make; a goroutine between transactions has nothing
      left to release. */
  datatype Slot =
    | Locking(want: set<TableID>, have: set<TableID>)
    | Body(tables: set<TableID>)
    | Alerting(tables: set<TableID>, todo: set<(TableID, TriggerID)>)
    | Releasing(left: set<TableID>)

  /** `Registered` is the blocking send of `Trigger`, after its transaction. */
  datatype Stage = Fresh | Registered | Returned

  /** A consumer waits for a token, then reads every table it watches. */
  datatype Consumer = Waiting | Woken(unread: set<TableID>)

  /** `seen[t]` is how many changes of `t` had been made when the consumer last
      read it. */
  datatype Trigger = Trigger(on: set<TableID>, stage: Stage, stopped: bool, token: bool,
                             consumer: Consumer, seen: map<TableID, nat>)

  /** A table, how often its rows have changed, and the triggers it alerts. */
  datatype Watched = Watched(table: Table, changes: nat, triggers: set<TriggerID>)

  datatype State = State(tables: map<TableID, Watched>, owner: map<TableID, nat>,
                         slots: seq<Slot>, trigs: map<TriggerID, Trigger>)

  datatype Action =
    | Open(i: nat, want: set<TableID>)
    | Take(i: nat, t: TableID)
    | Begin(i: nat)
    | Operate(i: nat, op: Instr, id: int)
    | Register(i: nat, g: TriggerID)
    | Read(i: nat, t: TableID, g: TriggerID)
    | Collect(i: nat)
    | Notify(i: nat, t: TableID, g: TriggerID)
    | Unlock(i: nat)
    | Release(i: nat, t: TableID)
    | Return(g: TriggerID)
    | Tick(g: TriggerID)
    | Receive(g: TriggerID)
    | Rest(g: TriggerID)
    | Stop(g: TriggerID)

  predicate SlotAction(a: Action) {
    a.Open? || a.Take? || a.Begin? || a.Operate? || a.Register? || a.Read? || a.Collect? || a.Notify? ||
    a.Unlock? || a.Release?
  }

  predicate SlotEnabled(s: State, a: Action)
    requires SlotAction(a)
  {
    a.i < |s.slots| &&
    var sl := s.slots[a.i];
    match a
    case Open(_, want) => sl == Releasing({}) && want <= s.tables.Keys
    case Take(_, t) => sl.Locking? && t in sl.want && t !in sl.have && t !in s.owner
    case Begin(_) => sl.Locking? && sl.have == sl.want
    case Operate(_, op, _) =>
      sl.Body? && !op.Halt? && op.table in sl.tables && op.table in s.tables &&
      (op.Commit? ==> op.id in s.tables[op.table].table.rows)
    case Register(_, g) => sl.Body? && g in s.trigs && s.trigs[g].stage.Fresh? && s.trigs[g].on <= sl.tables
    case Read(_, t, g) => sl.Body? && t in sl.tables && t in s.tables && g in s.trigs && s.trigs[g].consumer.Woken?
    case Collect(_) => sl.Body?
    case Notify(_, t, g) => sl.Alerting? && (t, g) in sl.todo && t in s.tables && g in s.trigs
    case Unlock(_) => sl.Alerting? && sl.todo == {}
    case Release(_, t) => sl.Releasing? && t in sl.left
  }

  predicate Enabled(s: State, a: Action) {
    if SlotAction(a) then SlotEnabled(s, a) else
    a.g in s.trigs &&
    var tr := s.trigs[a.g];
    match a
    // The send blocks while the channel is full.
    case Return(_) => tr.stage.Registered? && !tr.token
    case Tick(_) => tr.stage.Returned?
    case Receive(_) => tr.stage.Returned? && tr.token && tr.consumer.Waiting?
    case Rest(_) => tr.consumer.Woken? && tr.consumer.unread == {}
    case Stop(_) => tr.stage.Returned? && !tr.stopped
  }

  /** An operation on the rows; its effect is the database's own. */
  function Changed(w: Watched, op: Instr, id: int): Watched
    requires op.Commit? ==> op.id in w.table.rows
  {
    var t := Effect(op, w.table, id);
    w.(table := t, changes := if t.rows == w.table.rows then w.changes else w.changes + 1)
  }

  /** What `alert` will visit: the triggers of every table that changed. */
  function Visits(tables: map<TableID, Watched>, ts: set<TableID>): (r: set<(TableID, TriggerID)>)
    ensures forall t, g :: (t, g) in r <==> t in ts && t in tables && tables[t].table.shouldAlert && g in tables[t].triggers
  {
    set t, g | t in ts && t in tables && tables[t].table.shouldAlert && g in tables[t].triggers :: (t, g)
  }

  function Cleared(tables: map<TableID, Watched>, ts: set<TableID>): (r: map<TableID, Watched>)
    ensures r.Keys == tables.Keys
    ensures forall t :: t in tables ==> r[t].changes == tables[t].changes && r[t].triggers == tables[t].triggers
    ensures forall t :: t in tables ==>
              r[t].table.rows == tables[t].table.rows && (r[t].table.shouldAlert <==> tables[t].table.shouldAlert && t !in ts)
  {
    map t | t in tables :: if t in ts then tables[t].(table := tables[t].table.(shouldAlert := false)) else tables[t]
  }

  function Joined(tables: map<TableID, Watched>, ts: set<TableID>, g: TriggerID): (r: map<TableID, Watched>)
    ensures r.Keys == tables.Keys
    ensures forall t :: t in tables ==> r[t] == tables[t].(triggers := tables[t].triggers + if t in ts then {g} else {})
  {
    map t | t in tables :: tables[t].(triggers := tables[t].triggers + if t in ts then {g} else {})
  }

  function SlotApply(s: State, a: Action): State
    requires SlotAction(a) && SlotEnabled(s, a)
  {
    var i := a.i;
    var sl := s.slots[i];
    match a
    case Open(_, want) => s.(slots := s.slots[i := Slot.Locking(want, {})])
    case Take(_, t) => s.(owner := s.owner[t := i], slots := s.slots[i := sl.(have := sl.have + {t})])
    case Begin(_) => s.(slots := s.slots[i := Body(sl.want)])
    case Operate(_, op, id) => s.(tables := s.tables[op.table := Changed(s.tables[op.table], op, id)])
    case Register(_, g) =>
      s.(tables := Joined(s.tables, s.trigs[g].on, g), trigs := s.trigs[g := s.trigs[g].(stage := Registered)])
    case Read(_, t, g) =>
      var tr := s.trigs[g];
      s.(trigs := s.trigs[g := tr.(seen := tr.seen[t := s.tables[t].changes],
                                   consumer := Woken(tr.consumer.unread - {t}))])
    case Collect(_) =>
      s.(tables := Cleared(s.tables, sl.tables), slots := s.slots[i := Alerting(sl.tables, Visits(s.tables, sl.tables))])
    case Notify(_, t, g) =>
      var s1 := s.(slots := s.slots[i := sl.(todo := sl.todo - {(t, g)})]);
      if s.trigs[g].stopped
      then s1.(tables := s.tables[t := s.tables[t].(triggers := s.tables[t].triggers - {g})])
      else s1.(trigs := s.trigs[g := s.trigs[g].(token := true)])
    case Unlock(_) => s.(slots := s.slots[i := Releasing(sl.tables)])
    case Release(_, t) =>
      s.(owner := s.owner - {t}, slots := s.slots[i := Releasing(sl.left - {t})])
  }

  function Apply(s: State, a: Action): State
    requires Enabled(s, a)
  {
    if SlotAction(a) then SlotApply(s, a) else
    var g := a.g;
    var tr := s.trigs[g];
    match a
    case Return(_) => s.(trigs := s.trigs[g := tr.(stage := Returned, token := true)])
    case Tick(_) => s.(trigs := s.trigs[g := tr.(token := true)])
    case Receive(_) => s.(trigs := s.trigs[g := tr.(token := false, consumer := Woken(tr.on))])
    case Rest(_) => s.(trigs := s.trigs[g := tr.(consumer := Waiting)])
    case Stop(_) => s.(trigs := s.trigs[g := tr.(stopped := true)])
  }

  function Run(s: State, acts: seq<Action>): Option<State> {
    if acts == [] then Some(s)
    else
      var before := Run(s, acts[..|acts| - 1]);
      if before.Some? && Enabled(before.value, acts[|acts| - 1])
      then Some(Apply(before.value, acts[|acts| - 1])) else None
  }

  // ------------------------------------------------------------ what runs keep

  function Held(sl: Slot): set<TableID> {
    match sl
    case Locking(_, have) => have
    case Body(ts) => ts
    case Alerting(ts, _) => ts
    case Releasing(left) => left
  }

  ghost predicate LocksMatch(s: State) {
    (forall i, t :: 0 <= i < |s.slots| && t in Held(s.slots[i]) ==> t in s.owner && s.owner[t] == i) &&
    (forall t :: t in s.owner ==> s.owner[t] < |s.slots| && t in Held(s.slots[s.owner[t]]))
  }

  predicate Live(tr: Trigger) {
    !tr.stage.Fresh? && !tr.stopped
  }

  /** A live trigger is alerted by every table it was registered on. */
  ghost predicate Attached(s: State) {
    forall g, t :: g in s.trigs && Live(s.trigs[g]) && t in s.trigs[g].on ==>
      t in s.tables && g in s.tables[t].triggers
  }

  ghost predicate Known(s: State) {
    (forall i, t, g :: 0 <= i < |s.slots| && s.slots[i].Alerting? && (t, g) in s.slots[i].todo ==> t in s.slots[i].tables) &&
    (forall g :: g in s.trigs ==> s.trigs[g].on <= s.tables.Keys)
  }

  /** The transaction that holds `t` will still offer `g` a token for it. */
  predicate Owed(s: State, t: TableID, g: TriggerID) {
    t in s.owner && s.owner[t] < |s.slots| && t in s.tables &&
    var sl := s.slots[s.owner[t]];
    (sl.Body? && s.tables[t].table.shouldAlert) || (sl.Alerting? && (t, g) in sl.todo)
  }

  /** The consumer will read `t`: it has been woken, or will be. */
  predicate WillRead(tr: Trigger, t: TableID) {
    tr.token || (tr.consumer.Woken? && t in tr.consumer.unread)
  }

  predicate UpToDate(s: State, t: TableID, tr: Trigger) {
    t in tr.seen && t in s.tables && tr.seen[t] == s.tables[t].changes
  }

  predicate Covered(s: State, t: TableID, g: TriggerID)
    requires g in s.trigs
  {
    UpToDate(s, t, s.trigs[g]) || WillRead(s.trigs[g], t) || Owed(s, t, g)
  }

  ghost predicate AllCovered(s: State) {
    forall g, t :: g in s.trigs && s.trigs[g].stage.Returned? && !s.trigs[g].stopped && t in s.trigs[g].on ==>
      Covered(s, t, g)
  }

  ghost predicate Invariant(s: State) {
    LocksMatch(s) && Known(s) && Attached(s) && AllCovered(s)
  }

  ghost predicate Initial(s: State) {
    s.owner == map[] && (forall i :: 0 <= i < |s.slots| ==> s.slots[i] == Releasing({})) &&
    (forall t :: t in s.tables ==> s.tables[t].triggers == {}) &&
    (forall g :: g in s.trigs ==> s.trigs[g].stage.Fresh? && !s.trigs[g].token &&
                                  s.trigs[g].consumer.Waiting? && s.trigs[g].on <= s.tables.Keys)
  }

  lemma StepKeepsLocks(s: State, a: Action)
    requires LocksMatch(s) && Enabled(s, a)
    ensures LocksMatch(Apply(s, a))
  {
    if a.Take? {
      TakeKeepsLocks(s, a.i, a.t);
    } else if a.Release? {
      ReleaseKeepsLocks(s, a.i, a.t);
    } else {
      SameLocks(s, Apply(s, a));
    }
  }

  lemma SameLocks(s: State, s': State)
    requires LocksMatch(s) && s'.owner == s.owner && |s'.slots| == |s.slots|
    requires forall i :: 0 <= i < |s.slots| ==> Held(s'.slots[i]) == Held(s.slots[i])
    ensures LocksMatch(s')
  {
  }

  lemma TakeKeepsLocks(s: State, i: nat, t: TableID)
    requires LocksMatch(s) && Enabled(s, Take(i, t))
    ensures LocksMatch(Apply(s, Take(i, t)))
  {
    var s' := Apply(s, Take(i, t));
    forall j, u | 0 <= j < |s'.slots| && u in Held(s'.slots[j]) ensures u in s'.owner && s'.owner[u] == j {
      assert u in Held(s.slots[j]) || (j == i && u == t);
    }
    forall u | u in s'.owner ensures s'.owner[u] < |s'.slots| && u in Held(s'.slots[s'.owner[u]]) {
      assert u == t || u in Held(s.slots[s.owner[u]]);
    }
  }

  lemma ReleaseKeepsLocks(s: State, i: nat, t: TableID)
    requires LocksMatch(s) && Enabled(s, Release(i, t))
    ensures LocksMatch(Apply(s, Release(i, t)))
  {
    var s' := Apply(s, Release(i, t));
    assert t in Held(s.slots[i]);
    assert s.owner[t] == i;
    forall j, u | 0 <= j < |s'.slots| && u in Held(s'.slots[j]) ensures u in s'.owner && s'.owner[u] == j {
      assert u in Held(s.slots[j]);
      assert s.owner[u] == j;
      assert u != t;
    }
    forall u | u in s'.owner ensures s'.owner[u] < |s'.slots| && u in Held(s'.slots[s'.owner[u]]) {
      assert u in Held(s.slots[s.owner[u]]);
    }
  }

  lemma StepKeepsKnown(s: State, a: Action)
    requires Known(s) && Enabled(s, a)
    ensures Known(Apply(s, a))
  {
  }

  lemma StepKeepsAttached(s: State, a: Action)
    requires Known(s) && Attached(s) && Enabled(s, a)
    ensures Attached(Apply(s, a))
  {
  }

  /** Whatever changes the rows raises the flag, and nothing in a body lowers
      it. */
  lemma EffectFlags(op: Instr, t: Table, id: int)
    requires op.Commit? ==> op.id in t.rows
    ensures Effect(op, t, id).rows != t.rows ==> Effect(op, t, id).shouldAlert
    ensures t.shouldAlert ==> Effect(op, t, id).shouldAlert
  {
  }

  lemma StepCovers(s: State, a: Action, t: TableID, g: TriggerID)
    requires Invariant(s) && Enabled(s, a)
    requires var s' := Apply(s, a);
      g in s'.trigs && s'.trigs[g].stage.Returned? && !s'.trigs[g].stopped && t in s'.trigs[g].on
    ensures Covered(Apply(s, a), t, g)
  {
    if a.Return? && a.g == g {
      assert Apply(s, a).trigs[g].token;
    } else {
      assert Covered(s, t, g);
      if SlotAction(a) {
        SlotStepCovers(s, a, t, g);
      }
    }
  }

  lemma SlotStepCovers(s: State, a: Action, t: TableID, g: TriggerID)
    requires LocksMatch(s) && SlotAction(a) && SlotEnabled(s, a)
    requires g in s.trigs && Covered(s, t, g) && t in s.tables && g in s.tables[t].triggers && !s.trigs[g].stopped
    ensures Covered(SlotApply(s, a), t, g)
  {
    if a.Operate? {
      EffectFlags(a.op, s.tables[a.op.table].table, a.id);
      assert a.op.table in Held(s.slots[a.i]);
    } else if a.Release? {
      assert a.t in Held(s.slots[a.i]);
    }
  }

  lemma {:induction false} InvariantHolds(s0: State, acts: seq<Action>)
    requires Initial(s0) && Run(s0, acts).Some?
    ensures Invariant(Run(s0, acts).value)
  {
    if acts != [] {
      var before, a := acts[..|acts| - 1], acts[|acts| - 1];
      InvariantHolds(s0, before);
      var s := Run(s0, before).value;
      StepKeepsLocks(s, a);
      StepKeepsKnown(s, a);
      StepKeepsAttached(s, a);
      var s' := Apply(s, a);
      forall g, t | g in s'.trigs && s'.trigs[g].stage.Returned? && !s'.trigs[g].stopped && t in s'.trigs[g].on
        ensures Covered(s', t, g)
      {
        StepCovers(s, a, t, g);
      }
    }
  }

  /** No lost wake-up. In every reachable state in which `t` is unlocked, a
      trigger on `t` that has been returned and not stopped, and whose consumer
      has not read the latest change of `t`, has a token waiting, or its consumer
      has taken one and not read `t` since. */
  lemma NoLostWakeUp(s0: State, acts: seq<Action>, t: TableID, g: TriggerID)
    requires Initial(s0) && Run(s0, acts).Some?
    requires var s := Run(s0, acts).value;
      g in s.trigs && s.trigs[g].stage.Returned? && !s.trigs[g].stopped && t in s.trigs[g].on && t !in s.owner
    ensures var s := Run(s0, acts).value; UpToDate(s, t, s.trigs[g]) || WillRead(s.trigs[g], t)
  {
    InvariantHolds(s0, acts);
    assert Covered(Run(s0, acts).value, t, g);
  }

  // --------------------------------------------------------- what the steps mean

  /** An operation changes the rows of its table as it should, counts as a change exactly if
      they differ afterwards, and leaves everything else alone. */
  lemma OperateChangesRows(s: State, i: nat, op: Instr, id: int)
    requires Enabled(s, Operate(i, op, id))
    ensures var s', t := Apply(s, Operate(i, op, id)), op.table;
            && s'.tables.Keys == s.tables.Keys && s' == s.(tables := s'.tables)
            && (forall u :: u in s.tables && u != t ==> s'.tables[u] == s.tables[u])
            && var rows, rows' := s.tables[t].table.rows, s'.tables[t].table.rows;
               && (op.Select? ==> rows' == rows)
               && (op.Insert? ==> rows' == rows[id := op.make(id)])
               && (op.Commit? ==> rows' == rows[op.id := op.row])
               && (op.Remove? ==> rows' == rows - {op.id})
               && s'.tables[t].changes == s.tables[t].changes + (if rows' == rows then 0 else 1)
               && s'.tables[t].triggers == s.tables[t].triggers
  {
  }

  /** A channel fills up only by the first send of `Trigger`, by a ticker, which may still
      send while it is being stopped, or by an alert to an unstopped trigger; it empties
      only by being received from. */
  lemma TokenHasCause(s: State, a: Action, g: TriggerID)
    requires Enabled(s, a) && g in s.trigs
    ensures g in Apply(s, a).trigs
    ensures !s.trigs[g].token ==>
              (Apply(s, a).trigs[g].token <==>
                 a == Return(g) || a == Tick(g) || (a.Notify? && a.g == g && !s.trigs[g].stopped))
    ensures s.trigs[g].token ==> (!Apply(s, a).trigs[g].token <==> a == Receive(g))
  {
  }

  /** What the alerts of a transaction visit: at its end, the triggers of those of its tables
      whose flag is up, which it takes down; a stopped trigger is dropped on the way. */
  lemma AlertsVisitFlagged(s: State, i: nat, t: TableID, g: TriggerID)
    requires Enabled(s, Collect(i)) && t in s.tables
    ensures var s' := Apply(s, Collect(i));
            && s'.slots[i].Alerting?
            && ((t, g) in s'.slots[i].todo <==>
                  t in s.slots[i].tables && s.tables[t].table.shouldAlert && g in s.tables[t].triggers)
            && (t in s.slots[i].tables ==> !s'.tables[t].table.shouldAlert)
            && s'.tables[t].table.rows == s.tables[t].table.rows
  {
  }

  lemma StoppedIsDropped(s: State, i: nat, t: TableID, g: TriggerID)
    requires Enabled(s, Notify(i, t, g))
    ensures var s' := Apply(s, Notify(i, t, g));
            && s'.slots[i].Alerting? && s'.slots[i].todo == s.slots[i].todo - {(t, g)}
            && (g in s'.tables[t].triggers <==> g in s.tables[t].triggers && !s.trigs[g].stopped)
  {
  }

  // ------------------------------------------- the registration send can block

  /** A registration whose channel is full when it comes to its own send. */
  predicate Stuck(s: State, g: TriggerID) {
    g in s.trigs && s.trigs[g].stage.Registered? && s.trigs[g].token
  }

  /** Once stuck, always stuck: nobody receives from a trigger that has not been
      handed out. */
  lemma {:induction false} StuckForever(s: State, acts: seq<Action>, g: TriggerID)
    requires Stuck(s, g) && Run(s, acts).Some?
    ensures Stuck(Run(s, acts).value, g)
  {
    if acts != [] {
      StuckForever(s, acts[..|acts| - 1], g);
      StuckStep(Run(s, acts[..|acts| - 1]).value, acts[|acts| - 1], g);
    }
  }

  lemma StuckStep(s: State, a: Action, g: TriggerID)
    requires Stuck(s, g) && Enabled(s, a)
    ensures Stuck(Apply(s, a), g)
  {
  }

  /** A registered trigger can be handed out exactly while its channel is empty. */
  lemma ReturnsIffEmpty(s: State, g: TriggerID)
    requires g in s.trigs && s.trigs[g].stage.Registered?
    ensures (exists acts :: Hands(s, acts, g)) <==> !s.trigs[g].token
  {
    if s.trigs[g].token {
      forall acts ensures !Hands(s, acts, g) {
        if Run(s, acts).Some? {
          StuckForever(s, acts, g);
        }
      }
    } else {
      var acts := [Return(g)];
      assert acts[..0] == [];
      assert Hands(s, acts, g);
    }
  }

  ghost predicate Hands(s: State, acts: seq<Action>, g: TriggerID) {
    var r := Run(s, acts);
    r.Some? && g in r.value.trigs && r.value.trigs[g].stage.Returned?
  }

  lemma RunStep(s: State, acts: seq<Action>, a: Action)
    requires Run(s, acts).Some? && Enabled(Run(s, acts).value, a)
    ensures Run(s, acts + [a]) == Some(Apply(Run(s, acts).value, a))
  {
    assert (acts + [a])[..|acts|] == acts;
  }

  lemma Then(s0: State, acts: seq<Action>, s: State, a: Action, s': State)
    requires Run(s0, acts) == Some(s) && Enabled(s, a) && Apply(s, a) == s'
    ensures Run(s0, acts + [a]) == Some(s')
  {
    RunStep(s0, acts, a);
  }

  /** Any registered trigger can still get stuck: one transaction by a goroutine
      that has none, changing a watched table before the send, is enough. */
  lemma OneChangeBlocksTheSend(s: State, i: nat, t: TableID, g: TriggerID, id: int, next: Local)
    returns (acts: seq<Action>)
    requires i < |s.slots| && s.slots[i] == Releasing({})
    requires t in s.tables && t !in s.owner && g in s.trigs && s.trigs[g].stage.Registered?
    requires g in s.tables[t].triggers && !s.trigs[g].stopped
    ensures Run(s, acts).Some? && Stuck(Run(s, acts).value, g)
  {
    var s1 := Apply(s, Open(i, {t}));
    acts := [];
    Then(s, acts, s, Open(i, {t}), s1);
    var s2 := Apply(s1, Take(i, t));
    acts := acts + [Open(i, {t})];
    Then(s, acts, s1, Take(i, t), s2);
    acts := acts + [Take(i, t)];
    assert s2.slots[i].have == {t};
    var s3 := Apply(s2, Begin(i));
    Then(s, acts, s2, Begin(i), s3);
    acts := acts + [Begin(i)];
    var op := Instr.Remove(t, id, next);
    var s4 := Apply(s3, Operate(i, op, 0));
    Then(s, acts, s3, Operate(i, op, 0), s4);
    acts := acts + [Operate(i, op, 0)];
    var s5 := Apply(s4, Collect(i));
    Then(s, acts, s4, Collect(i), s5);
    acts := acts + [Collect(i)];
    assert (t, g) in s5.slots[i].todo;
    Then(s, acts, s5, Notify(i, t, g), Apply(s5, Notify(i, t, g)));
    acts := acts + [Notify(i, t, g)];
  }
}
