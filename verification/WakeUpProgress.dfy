/** What the notification protocol lets happen: transactions can begin and end, triggers
    can be created, and a woken consumer can catch up. */
module WakeUpProgress {
  import opened Prelude
  import opened Database
  import opened Triggers
  import opened WakeUps

  lemma {:induction false} RunOn(s: State, first: seq<Action>, second: seq<Action>)
    requires Run(s, first).Some? && Run(Run(s, first).value, second).Some?
    ensures Run(s, first + second) == Run(Run(s, first).value, second)
  {
    if second == [] {
      assert first + second == first;
    } else {
      var n := |second| - 1;
      assert second == second[..n] + [second[n]];
      assert first + second == (first + second[..n]) + [second[n]];
      RunOn(s, first, second[..n]);
      RunStep(s, first + second[..n], second[n]);
      RunStep(Run(s, first).value, second[..n], second[n]);
    }
  }

  /** One step and then a run. */
  lemma StepThen(s: State, a: Action, rest: seq<Action>)
    requires Enabled(s, a) && Run(Apply(s, a), rest).Some?
    ensures Run(s, [a] + rest) == Run(Apply(s, a), rest)
  {
    RunStep(s, [], a);
    assert [] + [a] == [a];
    RunOn(s, [a], rest);
  }

  /** Only the locks and the goroutine `i` differ. */
  ghost predicate OnlySlot(s: State, s': State, i: nat) {
    && s'.tables == s.tables && s'.trigs == s.trigs && |s'.slots| == |s.slots|
    && forall j :: 0 <= j < |s.slots| && j != i ==> s'.slots[j] == s.slots[j]
  }

  // ------------------------------------------------------- transactions can begin

  lemma {:induction false} TakesTheRest(s: State, i: nat, want: set<TableID>, have: set<TableID>)
    returns (acts: seq<Action>)
    requires i < |s.slots| && s.slots[i] == Locking(want, have) && have <= want
    requires forall t :: t in want - have ==> t !in s.owner
    ensures Run(s, acts).Some?
    ensures var s' := Run(s, acts).value; OnlySlot(s, s', i) && s'.slots[i] == Locking(want, want)
    decreases |want - have|
  {
    if want - have == {} {
      assert want == have;
      acts := [];
    } else {
      var t :| t in want - have;
      var s1 := Apply(s, Take(i, t));
      assert want - (have + {t}) == want - have - {t};
      var rest := TakesTheRest(s1, i, want, have + {t});
      StepThen(s, Take(i, t), rest);
      acts := [Take(i, t)] + rest;
    }
  }

  /** A goroutine without a transaction can begin one on any tables that are unlocked. */
  lemma TransactionCanBegin(s: State, i: nat, want: set<TableID>) returns (acts: seq<Action>)
    requires i < |s.slots| && s.slots[i] == Releasing({}) && want <= s.tables.Keys
    requires forall t :: t in want ==> t !in s.owner
    ensures Run(s, acts).Some?
    ensures var s' := Run(s, acts).value; OnlySlot(s, s', i) && s'.slots[i] == Body(want)
  {
    var s1 := Apply(s, Open(i, want));
    var takes := TakesTheRest(s1, i, want, {});
    var s2 := Run(s1, takes).value;
    RunStep(s1, takes, Begin(i));
    StepThen(s, Open(i, want), takes + [Begin(i)]);
    acts := [Open(i, want)] + (takes + [Begin(i)]);
  }

  /** Its body may make any operation on its tables that does not panic. */
  lemma BodyMayOperate(s: State, i: nat, op: Instr, id: int)
    requires i < |s.slots| && s.slots[i].Body? && !op.Halt?
    ensures Enabled(s, Operate(i, op, id)) <==>
            && op.table in s.slots[i].tables && op.table in s.tables
            && (op.Commit? ==> op.id in s.tables[op.table].table.rows)
  {
  }

  // --------------------------------------------------------- transactions can end

  /** Tables alert known triggers only. */
  ghost predicate TriggersKnown(s: State) {
    forall t, g :: t in s.tables && g in s.tables[t].triggers ==> g in s.trigs
  }

  /** ... and so do the alerts under way, on tables that are there. */
  ghost predicate VisitsKnown(s: State) {
    forall i, t, g :: 0 <= i < |s.slots| && s.slots[i].Alerting? && (t, g) in s.slots[i].todo ==> t in s.tables && g in s.trigs
  }

  lemma StepKeepsTriggersKnown(s: State, a: Action)
    requires TriggersKnown(s) && VisitsKnown(s) && Enabled(s, a)
    ensures TriggersKnown(Apply(s, a)) && VisitsKnown(Apply(s, a))
  {
  }

  lemma {:induction false} TriggersKnownHolds(s0: State, acts: seq<Action>)
    requires Initial(s0) && Run(s0, acts).Some?
    ensures TriggersKnown(Run(s0, acts).value) && VisitsKnown(Run(s0, acts).value)
  {
    if acts != [] {
      TriggersKnownHolds(s0, acts[..|acts| - 1]);
      StepKeepsTriggersKnown(Run(s0, acts[..|acts| - 1]).value, acts[|acts| - 1]);
    }
  }

  /** Goroutine `i` has nothing left to do, and no lock that it did not have. */
  ghost predicate Ended(s: State, s': State, i: nat) {
    |s'.slots| == |s.slots| && i < |s'.slots| && s'.slots[i] == Releasing({}) && s'.owner.Keys <= s.owner.Keys
  }

  lemma {:induction false} ReleasesAll(s: State, i: nat) returns (acts: seq<Action>)
    requires i < |s.slots| && s.slots[i].Releasing?
    ensures Run(s, acts).Some? && Ended(s, Run(s, acts).value, i)
    ensures Run(s, acts).value.owner.Keys == s.owner.Keys - s.slots[i].left
    decreases |s.slots[i].left|
  {
    if s.slots[i].left == {} {
      acts := [];
    } else {
      var t :| t in s.slots[i].left;
      var s1 := Apply(s, Release(i, t));
      var rest := ReleasesAll(s1, i);
      StepThen(s, Release(i, t), rest);
      acts := [Release(i, t)] + rest;
    }
  }

  lemma {:induction false} AlertsAll(s: State, i: nat) returns (acts: seq<Action>)
    requires i < |s.slots| && s.slots[i].Alerting? && TriggersKnown(s) && VisitsKnown(s)
    ensures Run(s, acts).Some? && Ended(s, Run(s, acts).value, i)
    ensures Run(s, acts).value.owner.Keys == s.owner.Keys - s.slots[i].tables
    decreases |s.slots[i].todo|
  {
    if s.slots[i].todo == {} {
      var s1 := Apply(s, Unlock(i));
      var rest := ReleasesAll(s1, i);
      StepThen(s, Unlock(i), rest);
      acts := [Unlock(i)] + rest;
    } else {
      var v :| v in s.slots[i].todo;
      var a := Notify(i, v.0, v.1);
      assert (v.0, v.1) in s.slots[i].todo;
      StepKeepsTriggersKnown(s, a);
      var rest := AlertsAll(Apply(s, a), i);
      StepThen(s, a, rest);
      acts := [a] + rest;
    }
  }

  /** In every reachable state a transaction whose body is done can end: its alerts never
      block, and all its locks are given back. */
  lemma TransactionCanEnd(s0: State, acts: seq<Action>, i: nat) returns (more: seq<Action>)
    requires Initial(s0) && Run(s0, acts).Some?
    requires var s := Run(s0, acts).value; i < |s.slots| && s.slots[i].Body?
    ensures var s := Run(s0, acts).value;
            && Run(s, more).Some? && Ended(s, Run(s, more).value, i)
            && Run(s, more).value.owner.Keys == s.owner.Keys - s.slots[i].tables
  {
    var s := Run(s0, acts).value;
    TriggersKnownHolds(s0, acts);
    StepKeepsTriggersKnown(s, Collect(i));
    var rest := AlertsAll(Apply(s, Collect(i)), i);
    StepThen(s, Collect(i), rest);
    more := [Collect(i)] + rest;
  }

  // --------------------------------------------------------- triggers can be created

  /** A new trigger can be registered on any tables that are unlocked, and handed out with
      its first token. */
  lemma TriggerCanBeCreated(s: State, i: nat, g: TriggerID) returns (acts: seq<Action>)
    requires i < |s.slots| && s.slots[i] == Releasing({})
    requires g in s.trigs && s.trigs[g].stage.Fresh? && !s.trigs[g].token && s.trigs[g].on <= s.tables.Keys
    requires forall t :: t in s.trigs[g].on ==> t !in s.owner
    ensures Run(s, acts).Some?
    ensures var s' := Run(s, acts).value;
            && g in s'.trigs && s'.trigs[g] == s.trigs[g].(stage := Returned, token := true)
            && s'.tables.Keys == s.tables.Keys
            && forall t :: t in s.tables ==>
                 s'.tables[t] == s.tables[t].(triggers := s.tables[t].triggers + if t in s.trigs[g].on then {g} else {})
  {
    var begin := TransactionCanBegin(s, i, s.trigs[g].on);
    var s1 := Run(s, begin).value;
    RunStep(s, begin, Register(i, g));
    RunStep(s, begin + [Register(i, g)], Return(g));
    acts := begin + [Register(i, g)] + [Return(g)];
  }

  /** Once it is out a ticker may tick, which fills its channel, and its owner may stop it,
      once; neither does anything else. */
  lemma TicksAndStops(s: State, g: TriggerID)
    requires g in s.trigs && s.trigs[g].stage.Returned?
    ensures Enabled(s, Tick(g)) && Apply(s, Tick(g)) == s.(trigs := s.trigs[g := s.trigs[g].(token := true)])
    ensures Enabled(s, Stop(g)) <==> !s.trigs[g].stopped
    ensures !s.trigs[g].stopped ==> Apply(s, Stop(g)) == s.(trigs := s.trigs[g := s.trigs[g].(stopped := true)])
  {
  }

  // ------------------------------------------------------ a woken consumer catches up

  /** The consumer of `g` has read the tables `ts` as they are. */
  ghost predicate HasRead(s: State, s': State, g: TriggerID, ts: set<TableID>)
    requires g in s.trigs
  {
    && s'.tables == s.tables && s'.slots == s.slots && g in s'.trigs
    && s'.trigs[g] == s.trigs[g].(seen := s'.trigs[g].seen, consumer := s'.trigs[g].consumer)
    && (forall t :: t in ts ==> UpToDate(s', t, s'.trigs[g]))
    && (forall t :: t in s.trigs[g].seen && t !in ts ==> t in s'.trigs[g].seen && s'.trigs[g].seen[t] == s.trigs[g].seen[t])
  }

  lemma {:induction false} ReadsAll(s: State, i: nat, g: TriggerID, ts: set<TableID>) returns (acts: seq<Action>)
    requires i < |s.slots| && s.slots[i].Body? && ts <= s.slots[i].tables && ts <= s.tables.Keys
    requires g in s.trigs && s.trigs[g].consumer.Woken?
    ensures Run(s, acts).Some? && HasRead(s, Run(s, acts).value, g, ts)
    ensures Run(s, acts).value.trigs[g].consumer == Woken(s.trigs[g].consumer.unread - ts)
    decreases |ts|
  {
    if ts == {} {
      acts := [];
    } else {
      var t :| t in ts;
      var s1 := Apply(s, Read(i, t, g));
      var rest := ReadsAll(s1, i, g, ts - {t});
      StepThen(s, Read(i, t, g), rest);
      acts := [Read(i, t, g)] + rest;
      assert s.trigs[g].consumer.unread - {t} - (ts - {t}) == s.trigs[g].consumer.unread - ts;
    }
  }

  /** A consumer whose token is waiting can take it, read everything it watches in one
      transaction, and wait again, up to date with all of it. */
  lemma ConsumerCatchesUp(s: State, i: nat, g: TriggerID) returns (acts: seq<Action>)
    requires i < |s.slots| && s.slots[i] == Releasing({})
    requires g in s.trigs && s.trigs[g].stage.Returned? && s.trigs[g].token && s.trigs[g].consumer.Waiting?
    requires s.trigs[g].on <= s.tables.Keys && forall t :: t in s.trigs[g].on ==> t !in s.owner
    ensures Run(s, acts).Some?
    ensures var s' := Run(s, acts).value;
            && g in s'.trigs && !s'.trigs[g].token && s'.trigs[g].consumer.Waiting?
            && forall t :: t in s.trigs[g].on ==> UpToDate(s', t, s'.trigs[g])
  {
    var on := s.trigs[g].on;
    var s1 := Apply(s, Receive(g));
    var begin := TransactionCanBegin(s1, i, on);
    var s2 := Run(s1, begin).value;
    var visits := ReadsAll(s2, i, g, on);
    var s3 := Run(s2, visits).value;
    RunOn(s1, begin, visits);
    assert s3.trigs[g].consumer.unread == {};
    RunStep(s1, begin + visits, Rest(g));
    StepThen(s, Receive(g), begin + visits + [Rest(g)]);
    acts := [Receive(g)] + (begin + visits + [Rest(g)]);
  }
}
