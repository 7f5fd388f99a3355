/** Change notification: every table has a set of triggers, every trigger a
    channel with room for one token, and the end of a transaction offers a token
    to the triggers of each table it changed. */
module Triggers {
  import opened Prelude
  import opened Database

  type TriggerID = nat

  // ------------------------------------------------ alerting, as code does it

  /** The channels: whose slot is full, and who has been stopped. */
  class Channels {
    var tokens: set<TriggerID>
    var stopped: set<TriggerID>
  }

  class LiveTable {
    var rows: map<int, Row>
    var triggers: set<TriggerID>
    var shouldAlert: bool

    function Data(): Table
      reads this
    {
      Table(rows, shouldAlert)
    }

    method Insert(id: int, row: Row)
      modifies this`rows, this`shouldAlert
      ensures id in rows && rows[id] == row && SameBut(rows, old(rows), id)
      ensures shouldAlert
    {
      shouldAlert := true;
      rows := rows[id := row];
    }

    /** A commit of a row the table does not hold panics, so is not made. */
    method Commit(id: int, row: Row)
      requires id in rows
      modifies this`rows, this`shouldAlert
      ensures Data() == CommitRow(old(Data()), id, row)
    {
      if shouldAlert || row != rows[id] {
        rows := rows[id := row];
        shouldAlert := true;
      }
    }

    method Remove(id: int)
      modifies this`rows, this`shouldAlert
      ensures id !in rows && SameBut(rows, old(rows), id)
      ensures shouldAlert
    {
      rows := rows - {id};
      shouldAlert := true;
    }

    /** One operation of a transaction body.  The flag records whether the table has
        changed since it was last cleared.  The source panics when a row is committed
        that the table does not hold. */
    method Execute(op: Instr, id: int) returns (panicked: bool)
      modifies this`rows, this`shouldAlert
      ensures panicked <==> op.Commit? && op.id !in old(rows)
      ensures panicked ==> Data() == old(Data())
      ensures !panicked ==> Data() == Effect(op, old(Data()), id)
      ensures old(shouldAlert) || rows != old(rows) ==> shouldAlert
    {
      panicked := false;
      match op
      case Insert(_, make, _) =>
        Insert(id, make(id));
        SameButOne(rows, old(rows)[id := make(id)], id);
      case Commit(_, rid, row, _) =>
        if rid in rows {
          Commit(rid, row);
        } else {
          panicked := true;
        }
      case Remove(_, rid, _) =>
        Remove(rid);
        SameButOne(rows, old(rows) - {rid}, rid);
      case _ =>
    }

    /** Visits the triggers in some order; a stopped one is dropped, any other
        ends up with a full channel, whether or not it was full before. */
    method Alert(ch: Channels)
      modifies this`triggers, ch`tokens
      ensures triggers == old(triggers) - ch.stopped
      ensures ch.tokens == old(ch.tokens) + triggers
    {
      var todo := triggers;
      while todo != {}
        invariant Visiting(old(triggers), todo, ch.stopped, old(ch.tokens), triggers, ch.tokens)
        decreases |todo|
      {
        var g := PickAny(todo);
        VisitOne(old(triggers), todo, ch.stopped, old(ch.tokens), triggers, ch.tokens, g);
        todo := todo - {g};
        if g in ch.stopped {
          triggers := triggers - {g};
        } else if g !in ch.tokens {
          ch.tokens := ch.tokens + {g};
        }
      }
    }
  }

  /** The triggers `todo` are still to be visited; the others have been dropped or have
      a token. */
  ghost predicate Visiting(all: set<TriggerID>, todo: set<TriggerID>, stopped: set<TriggerID>, before: set<TriggerID>,
                           triggers: set<TriggerID>, tokens: set<TriggerID>)
  {
    && todo <= all
    && (forall g :: g in triggers <==> g in all && (g in todo || g !in stopped))
    && (forall g :: g in tokens <==> g in before || (g in all && g !in todo && g !in stopped))
  }

  lemma VisitOne(all: set<TriggerID>, todo: set<TriggerID>, stopped: set<TriggerID>, before: set<TriggerID>,
                 triggers: set<TriggerID>, tokens: set<TriggerID>, g: TriggerID)
    requires Visiting(all, todo, stopped, before, triggers, tokens) && g in todo
    ensures g in stopped ==> Visiting(all, todo - {g}, stopped, before, triggers - {g}, tokens)
    ensures g !in stopped ==> Visiting(all, todo - {g}, stopped, before, triggers, tokens + {g})
    ensures g !in stopped && g in tokens ==> Visiting(all, todo - {g}, stopped, before, triggers, tokens)
  {
  }

  lemma SameButOne(a: map<int, Row>, b: map<int, Row>, id: int)
    requires SameBut(a, b, id) && (id in a <==> id in b) && (id in a ==> a[id] == b[id])
    ensures a == b
  {
    forall k ensures (k in a <==> k in b) && (k in a && k in b ==> a[k] == b[k]) {
      if k != id {
        assert k in a <==> k in a - {id};
        assert k in b <==> k in b - {id};
        assert k in a ==> a[k] == (a - {id})[k];
      }
    }
  }

  ghost predicate Distinct(tables: seq<LiveTable>) {
    forall i, j :: 0 <= i < j < |tables| ==> tables[i] != tables[j]
  }

  /** Which tables changed; their flags are cleared on the way. */
  method CollectAlerts(tables: seq<LiveTable>) returns (alerts: seq<LiveTable>, ghost at: seq<int>)
    requires Distinct(tables)
    modifies tables
    ensures |at| == |alerts| && forall k :: 0 <= k < |at| ==> 0 <= at[k] < |tables| && alerts[k] == tables[at[k]]
    ensures NoDuplicates(at)
    ensures forall i :: 0 <= i < |tables| ==> (i in at <==> old(tables[i].shouldAlert))
    ensures forall i :: 0 <= i < |tables| ==>
      tables[i].triggers == old(tables[i].triggers) && tables[i].Data() == old(tables[i].Data()).(shouldAlert := false)
  {
    alerts, at := [], [];
    for n := 0 to |tables|
      invariant |at| == |alerts| && forall k :: 0 <= k < |at| ==> 0 <= at[k] < n && alerts[k] == tables[at[k]]
      invariant forall i :: 0 <= i < n ==> (i in at <==> old(tables[i].shouldAlert))
      invariant NoDuplicates(at)
      invariant forall i :: 0 <= i < |tables| ==> tables[i].triggers == old(tables[i].triggers) && tables[i].rows == old(tables[i].rows)
      invariant forall i :: 0 <= i < |tables| ==> tables[i].shouldAlert == (n <= i && old(tables[i].shouldAlert))
    {
      if tables[n].shouldAlert {
        alerts := alerts + [tables[n]];
        at := at + [n];
        tables[n].shouldAlert := false;
      }
    }
  }

  method AlertAll(tables: seq<LiveTable>, alerts: seq<LiveTable>, ghost at: seq<int>, ch: Channels)
    requires Distinct(tables) && NoDuplicates(at)
    requires |at| == |alerts| && forall k :: 0 <= k < |at| ==> 0 <= at[k] < |tables| && alerts[k] == tables[at[k]]
    modifies tables, ch
    ensures forall i :: 0 <= i < |tables| ==> tables[i].Data() == old(tables[i].Data())
    ensures forall i :: 0 <= i < |tables| ==>
      tables[i].triggers == if i in at then old(tables[i].triggers) - ch.stopped else old(tables[i].triggers)
    ensures ch.stopped == old(ch.stopped)
    ensures forall g :: g in ch.tokens <==>
      g in old(ch.tokens) || (g !in ch.stopped && exists k :: 0 <= k < |at| && g in old(tables[at[k]].triggers))
  {
    for k := 0 to |alerts|
      invariant ch.stopped == old(ch.stopped)
      invariant forall i :: 0 <= i < |tables| ==> tables[i].Data() == old(tables[i].Data())
      invariant forall i :: 0 <= i < |tables| ==>
        tables[i].triggers == if i in at[..k] then old(tables[i].triggers) - ch.stopped else old(tables[i].triggers)
      invariant forall g :: g in ch.tokens <==>
        g in old(ch.tokens) || (g !in ch.stopped && exists j :: 0 <= j < k && g in old(tables[at[j]].triggers))
    {
      assert at[k] !in at[..k] && at[..k + 1] == at[..k] + [at[k]];
      alerts[k].Alert(ch);
    }
    assert at[..|alerts|] == at;
  }

  /** The end of a transaction: note which of its tables changed, clear their
      flags, then alert each of them. */
  method Finish(tables: seq<LiveTable>, ch: Channels)
    requires Distinct(tables)
    modifies tables, ch
    ensures forall i :: 0 <= i < |tables| ==> tables[i].Data() == old(tables[i].Data()).(shouldAlert := false)
    ensures forall i :: 0 <= i < |tables| ==>
      tables[i].triggers == if old(tables[i].shouldAlert) then old(tables[i].triggers) - ch.stopped else old(tables[i].triggers)
    ensures ch.stopped == old(ch.stopped)
    ensures forall g :: g in ch.tokens <==>
      g in old(ch.tokens) ||
      (g !in ch.stopped && exists i :: 0 <= i < |tables| && old(tables[i].shouldAlert) && g in old(tables[i].triggers))
  {
    var alerts, at := CollectAlerts(tables);
    AlertAll(tables, alerts, at, ch);
  }

  /** An operation of a body, on the table at place `at`, with the ID drawn for it. */
  datatype Call = Call(at: nat, op: Instr, id: int)

  /** A transaction: its operations, then the alerts.  Every trigger of a table whose
      rows it changed ends up with a token, unless it was stopped. */
  method Transact(tables: seq<LiveTable>, calls: seq<Call>, ch: Channels) returns (panicked: bool)
    requires Distinct(tables) && forall k :: 0 <= k < |calls| ==> calls[k].at < |tables|
    modifies tables, ch
    ensures ch.stopped == old(ch.stopped) && old(ch.tokens) <= ch.tokens
    ensures !panicked ==> forall i :: 0 <= i < |tables| ==> !tables[i].shouldAlert
    ensures !panicked ==> forall i :: 0 <= i < |tables| && tables[i].rows != old(tables[i].rows) ==>
                            old(tables[i].triggers) <= ch.tokens + ch.stopped
  {
    for k := 0 to |calls|
      invariant ch.stopped == old(ch.stopped) && ch.tokens == old(ch.tokens)
      invariant forall i :: 0 <= i < |tables| ==> tables[i].triggers == old(tables[i].triggers)
      invariant forall i :: 0 <= i < |tables| && tables[i].rows != old(tables[i].rows) ==> tables[i].shouldAlert
    {
      panicked := tables[calls[k].at].Execute(calls[k].op, calls[k].id);
      if panicked {
        return;
      }
    }
    label Alerts:
    Finish(tables, ch);
    forall i | 0 <= i < |tables| && tables[i].rows != old(tables[i].rows)
      ensures old(tables[i].triggers) <= ch.tokens + ch.stopped
    {
      assert old@Alerts(tables[i].Data()).rows == tables[i].Data().rows;
    }
    panicked := false;
  }
}
