/** Merging the provider's machine list into the machine table. */
module CloudSync {
  import opened Prelude
  import opened Matching
  import opened RoleMatching
  import opened Join
  import opened Machines

  type Rows = map<int, Machine>

  /** Row keys are row IDs, and no ID beyond the counter has been handed out. */
  ghost predicate Coherent(rows: Rows, cur: int) {
    forall id :: id in rows ==> rows[id].id == id && id <= cur
  }

  function IDs(ms: seq<Machine>): (r: set<int>)
    ensures forall i :: 0 <= i < |ms| ==> ms[i].id in r
  {
    set m | m in ms :: m.id
  }

  lemma IDsSnoc(ms: seq<Machine>, x: Machine)
    ensures IDs(ms + [x]) == IDs(ms) + {x.id}
  {
    forall id | id in IDs(ms + [x]) ensures id in IDs(ms) + {x.id} {
      var m :| m in ms + [x] && m.id == id;
    }
    forall id | id in IDs(ms) + {x.id} ensures id in IDs(ms + [x]) {
      if id in IDs(ms) {
        var m :| m in ms && m.id == id;
        assert m in ms + [x];
      } else {
        assert x in ms + [x];
      }
    }
  }

  lemma IDAt(ms: seq<Machine>, id: int) returns (i: nat)
    requires id in IDs(ms)
    ensures i < |ms| && ms[i].id == id
  {
    var m :| m in ms && m.id == id;
    i :| 0 <= i < |ms| && ms[i] == m;
  }

  ghost predicate DistinctIDs(ms: seq<Machine>) {
    forall i, j :: 0 <= i < j < |ms| ==> ms[i].id != ms[j].id
  }

  /** `order` lists the rows of place `p`, each once. */
  ghost predicate Enumerates(order: seq<Machine>, rows: Rows, p: Place) {
    && (forall i :: 0 <= i < |order| ==> order[i].id in rows && rows[order[i].id] == order[i])
    && AllIn(order, p)
    && DistinctIDs(order)
    && (forall id :: id in rows && PlaceOf(rows[id]) == p ==> id in IDs(order))
  }

  /** `n` blank rows inserted after `cur`. */
  function Blanks(cur: int, n: nat): (r: seq<Machine>)
    ensures |r| == n && forall b :: 0 <= b < n ==> r[b] == Blank(cur + 1 + b)
  {
    seq(n, b => Blank(cur + 1 + b))
  }

  /** `ms` written over `rows`, in order. */
  function Overlay(rows: Rows, ms: seq<Machine>): Rows {
    if ms == [] then rows
    else
      var n := |ms| - 1;
      Overlay(rows, ms[..n])[ms[n].id := ms[n]]
  }

  lemma {:induction false} OverlayKeys(rows: Rows, ms: seq<Machine>)
    ensures Overlay(rows, ms).Keys == rows.Keys + IDs(ms)
  {
    if ms != [] {
      var n := |ms| - 1;
      OverlayKeys(rows, ms[..n]);
      IDsSnoc(ms[..n], ms[n]);
      assert ms == ms[..n] + [ms[n]];
    }
  }

  lemma {:induction false} OverlayWritten(rows: Rows, ms: seq<Machine>, i: nat)
    requires DistinctIDs(ms) && i < |ms|
    ensures ms[i].id in Overlay(rows, ms) && Overlay(rows, ms)[ms[i].id] == ms[i]
  {
    var n := |ms| - 1;
    if i < n {
      OverlayWritten(rows, ms[..n], i);
    }
  }

  lemma {:induction false} OverlayKept(rows: Rows, ms: seq<Machine>, id: int)
    requires id in rows && forall i :: 0 <= i < |ms| ==> ms[i].id != id
    ensures id in Overlay(rows, ms) && Overlay(rows, ms)[id] == rows[id]
  {
    if ms != [] {
      OverlayKept(rows, ms[..|ms| - 1], id);
    }
  }

  lemma OverlayAt(rows: Rows, ms: seq<Machine>)
    requires DistinctIDs(ms)
    ensures Overlay(rows, ms).Keys == rows.Keys + IDs(ms)
    ensures forall i :: 0 <= i < |ms| ==> Overlay(rows, ms)[ms[i].id] == ms[i]
    ensures forall id :: id in rows && id !in IDs(ms) ==> Overlay(rows, ms)[id] == rows[id]
  {
    OverlayKeys(rows, ms);
    forall i: nat | i < |ms| ensures Overlay(rows, ms)[ms[i].id] == ms[i] {
      OverlayWritten(rows, ms, i);
    }
    forall id | id in rows && id !in IDs(ms) ensures Overlay(rows, ms)[id] == rows[id] {
      OverlayKept(rows, ms, id);
    }
  }

  lemma OverlaySnoc(rows: Rows, ms: seq<Machine>, x: Machine)
    ensures Overlay(rows, ms + [x]) == Overlay(rows, ms)[x.id := x]
  {
    assert (ms + [x])[..|ms|] == ms;
  }

  lemma BlankIDs(cur: int, n: nat)
    ensures forall id :: id in IDs(Blanks(cur, n)) <==> cur < id <= cur + n
  {
    forall id | cur < id <= cur + n ensures id in IDs(Blanks(cur, n)) {
      assert Blanks(cur, n)[id - cur - 1].id == id;
    }
  }

  /** `rows` with blank rows inserted one by one. */
  ghost function WithBlanks(rows: Rows, cur: int, n: nat): Rows {
    if n == 0 then rows else WithBlanks(rows, cur, n - 1)[cur + n := Blank(cur + n)]
  }

  lemma {:induction false} WithBlanksIsOverlay(rows: Rows, cur: int, ms: seq<Machine>)
    requires forall b :: 0 <= b < |ms| ==> ms[b] == Blank(cur + 1 + b)
    ensures WithBlanks(rows, cur, |ms|) == Overlay(rows, ms)
  {
    if ms != [] {
      var n := |ms| - 1;
      var last := ms[n];
      WithBlanksIsOverlay(rows, cur, ms[..n]);
      assert last == Blank(cur + |ms|) && last.id == cur + |ms|;
      assert WithBlanks(rows, cur, |ms|) == WithBlanks(rows, cur, n)[last.id := last];
      assert Overlay(rows, ms) == Overlay(rows, ms[..n])[last.id := last];
    }
  }

  /** Index pairs within range, no two of which share an end. */
  ghost predicate Plan(m: seq<Edge>, nl: nat, nr: nat) {
    && InRange(m, nl, nr)
    && forall a, b :: 0 <= a < b < |m| ==> m[a].l != m[b].l && m[a].r != m[b].r
  }

  lemma PairingIsPlan(left: seq<Machine>, right: seq<Machine>, p: Place)
    requires AllIn(left, p) && AllIn(right, p)
    ensures Plan(Pairing(left, right, p), |left|, |right|)
  {
    var m := Pairing(left, right, p);
    ReferenceIsGreedy(MachineGraph(left, right, p));
    forall a, b | 0 <= a < b < |m| ensures m[a].l != m[b].l && m[a].r != m[b].r {
      assert m[a] in Elements(m) && m[b] in Elements(m) && m[a] != m[b];
      assert !Conflict(m[a], m[b]);
    }
  }

  /** The row has every field of the machine that a provider reports. */
  ghost predicate Reports(row: Machine, cm: Machine) {
    && row.provider == cm.provider && row.region == cm.region && row.size == cm.size
    && row.diskSize == cm.diskSize && row.preemptible == cm.preemptible
    && row.cloudID == cm.cloudID && row.floatingIP == cm.floatingIP
    && row.publicIP == cm.publicIP && row.privateIP == cm.privateIP
  }

  /** The row has the fields of `dbm` that providers do not know. */
  ghost predicate KeepsOwn(row: Machine, dbm: Machine) {
    && row.id == dbm.id && row.status == dbm.status && row.sshKeys == dbm.sshKeys
    && row.role == dbm.role && row.connected == dbm.connected
  }

  /** The machine as the provider lists it, with the fields providers do not know
      taken from the database row. */
  function Absorb(dbm: Machine, cm: Machine): (row: Machine)
    ensures Reports(row, cm) && KeepsOwn(row, dbm)
  {
    cm.(id := dbm.id, status := dbm.status, sshKeys := dbm.sshKeys, role := dbm.role,
        connected := dbm.connected)
  }

  /** A row of the place after a merge: it shows a listed machine, and its own fields are
      those of the row that had its ID, or blank if there was none. */
  ghost predicate MergedRow(rows: Rows, machines: seq<Machine>, row: Machine) {
    && (exists k :: 0 <= k < |machines| && Reports(row, machines[k]))
    && (if row.id in rows then KeepsOwn(row, rows[row.id])
        else row.status == NoStatus && row.sshKeys == [] && row.role == NoRole && !row.connected)
  }

  function AbsorbAll(pairs: seq<(Machine, Machine)>): (r: seq<Machine>)
    ensures |r| == |pairs| && forall i :: 0 <= i < |pairs| ==> r[i] == Absorb(pairs[i].0, pairs[i].1)
  {
    seq(|pairs|, i requires 0 <= i < |pairs| => Absorb(pairs[i].0, pairs[i].1))
  }

  /** The machine table and its ID counter. */
  class View {
    var rows: Rows
    var curID: int

    ghost predicate Valid() reads this { Coherent(rows, curID) }

    /** Draws the next ID and inserts a blank row under it. */
    method InsertMachine() returns (m: Machine)
      requires Valid()
      modifies this
      ensures Valid()
      ensures curID == old(curID) + 1 && m == Blank(curID) && rows == old(rows)[curID := m]
    {
      curID := curID + 1;
      m := Blank(curID);
      rows := rows[curID := m];
    }

    /** The source panics when the row does not exist. */
    method Commit(m: Machine)
      requires Valid() && m.id in rows
      modifies this`rows
      ensures Valid() && rows == old(rows)[m.id := m]
    {
      rows := rows[m.id := m];
    }

    method Remove(m: Machine)
      requires Valid()
      modifies this`rows
      ensures Valid() && rows == old(rows) - {m.id}
    {
      rows := rows - {m.id};
    }

    /** The rows of a place, in the arbitrary order of a map iteration. */
    method SelectMachines(p: Place) returns (order: seq<Machine>)
      requires Valid()
      ensures Enumerates(order, rows, p)
    {
      order := [];
      var ids := rows.Keys;
      while ids != {}
        invariant ids <= rows.Keys
        invariant forall i :: 0 <= i < |order| ==>
                    && order[i].id in rows && rows[order[i].id] == order[i] && order[i].id !in ids
        invariant AllIn(order, p) && DistinctIDs(order)
        invariant forall id :: id in rows && PlaceOf(rows[id]) == p ==> id in ids || id in IDs(order)
        decreases ids
      {
        var id := PickAny(ids);
        ids := ids - {id};
        if PlaceOf(rows[id]) == p {
          IDsSnoc(order, rows[id]);
          order := order + [rows[id]];
        }
      }
    }

    /** Inserts one blank row per element of `missing` and pairs the two up. */
    method InsertMissing(missing: seq<Machine>) returns (pairs: seq<(Machine, Machine)>)
      requires Valid()
      modifies this
      ensures Valid() && curID == old(curID) + |missing|
      ensures rows == Overlay(old(rows), Blanks(old(curID), |missing|))
      ensures pairs == Zip(Blanks(old(curID), |missing|), missing)
    {
      pairs := [];
      for b := 0 to |missing|
        invariant Valid() && curID == old(curID) + b
        invariant rows == WithBlanks(old(rows), old(curID), b)
        invariant |pairs| == b && forall k :: 0 <= k < b ==> pairs[k] == (Blank(old(curID) + 1 + k), missing[k])
      {
        var row := InsertMachine();
        pairs := pairs + [(row, missing[b])];
      }
      WithBlanksIsOverlay(old(rows), old(curID), Blanks(old(curID), |missing|));
    }

    method RemoveAll(extra: seq<Machine>)
      requires Valid()
      modifies this`rows
      ensures Valid() && rows == old(rows) - IDs(extra)
    {
      for b := 0 to |extra|
        invariant Valid() && rows == old(rows) - IDs(extra[..b])
      {
        TakeSnoc(extra, b);
        IDsSnoc(extra[..b], extra[b]);
        Remove(extra[b]);
      }
      TakeAll(extra);
    }

    method CommitAll(ms: seq<Machine>)
      requires Valid() && IDs(ms) <= rows.Keys
      modifies this`rows
      ensures Valid() && rows == Overlay(old(rows), ms)
    {
      for b := 0 to |ms|
        invariant Valid() && rows == Overlay(old(rows), ms[..b]) && rows.Keys == old(rows).Keys
      {
        TakeSnoc(ms, b);
        OverlaySnoc(old(rows), ms[..b], ms[b]);
        Commit(ms[b]);
      }
      TakeAll(ms);
    }

    /** Merges the provider's list into the table.  The caller sees to it that all
        listed machines are in this place; the source panics otherwise. */
    method SyncDBWithCloud(p: Place, machines: seq<Machine>) returns (ghost order: seq<Machine>)
      requires Valid() && AllIn(machines, p)
      modifies this
      ensures Valid() && Enumerates(order, old(rows), p)
      ensures rows == Merged(old(rows), old(curID), order, machines, Pairing(order, machines, p))
      ensures curID == old(curID) + |Unused(|machines|, Rights(Pairing(order, machines, p)))|
      ensures forall id :: id in rows && PlaceOf(rows[id]) == p ==> rows[id].id == id && MergedRow(old(rows), machines, rows[id])
    {
      var dbms := SelectMachines(p);
      var pairs, extra, missing := Join.Join(dbms, machines, SCORE);
      order := dbms;
      JoinMakesPairing(dbms, machines, p);
      PairingIsPlan(dbms, machines, p);
      SlotsPresent(rows, curID, p, dbms, machines, Pairing(order, machines, p));
      Merge(pairs, extra, missing, dbms, machines, Pairing(order, machines, p));
      MergedRowsShow(old(rows), old(curID), p, dbms, machines, Pairing(order, machines, p));
    }

    method Merge(paired: seq<(Machine, Machine)>, extra: seq<Machine>, missing: seq<Machine>,
                 ghost order: seq<Machine>, ghost machines: seq<Machine>, ghost m: seq<Edge>)
      requires Valid() && InRange(m, |order|, |machines|)
      requires paired == PairUp(order, machines, m)
      requires extra == Extra(order, m)
      requires missing == Pick(machines, Unused(|machines|, Rights(m)))
      requires IDs(Slots(curID, order, machines, m)) <= Swept(rows, curID, order, machines, m).Keys
      modifies this
      ensures Valid()
      ensures rows == Merged(old(rows), old(curID), order, machines, m)
      ensures curID == old(curID) + |missing|
    {
      var added := InsertMissing(missing);
      RemoveAll(extra);
      var pairs := paired + added;
      var merged := AbsorbAll(pairs);
      AbsorbedIsSlots(old(curID), order, machines, m, pairs);
      CommitAll(merged);
    }
  }

  ghost function Extra(order: seq<Machine>, m: seq<Edge>): (r: seq<Machine>) {
    Pick(order, Unused(|order|, Lefts(m)))
  }

  /** The merged rows: those of the pairs, then one for every listed machine left over. */
  ghost function Slots(cur: int, order: seq<Machine>, machines: seq<Machine>, m: seq<Edge>): (r: seq<Machine>)
    requires InRange(m, |order|, |machines|)
    ensures var rest := Unused(|machines|, Rights(m));
            && |r| == |m| + |rest|
            && forall i :: 0 <= i < |r| ==>
                 r[i] == if i < |m| then Absorb(order[m[i].l], machines[m[i].r])
                         else Absorb(Blank(cur + 1 + i - |m|), machines[rest[i - |m|]])
  {
    var rest := Unused(|machines|, Rights(m));
    seq(|m|, a requires 0 <= a < |m| => Absorb(order[m[a].l], machines[m[a].r]))
      + seq(|rest|, b requires 0 <= b < |rest| => Absorb(Blank(cur + 1 + b), machines[rest[b]]))
  }

  /** The table once blank rows are in and unpaired rows are out. */
  ghost function Swept(rows: Rows, cur: int, order: seq<Machine>, machines: seq<Machine>, m: seq<Edge>): Rows {
    Overlay(rows, Blanks(cur, |Unused(|machines|, Rights(m))|)) - IDs(Extra(order, m))
  }

  /** The table after the merge along the pairing `m`. */
  ghost function Merged(rows: Rows, cur: int, order: seq<Machine>, machines: seq<Machine>, m: seq<Edge>): Rows
    requires InRange(m, |order|, |machines|)
  {
    Overlay(Swept(rows, cur, order, machines, m), Slots(cur, order, machines, m))
  }

  lemma AbsorbedIsSlots(cur: int, order: seq<Machine>, machines: seq<Machine>, m: seq<Edge>,
                        pairs: seq<(Machine, Machine)>)
    requires InRange(m, |order|, |machines|)
    requires var rest := Unused(|machines|, Rights(m));
             pairs == PairUp(order, machines, m) + Zip(Blanks(cur, |rest|), Pick(machines, rest))
    ensures AbsorbAll(pairs) == Slots(cur, order, machines, m)
  {
    var r := Slots(cur, order, machines, m);
    forall i | 0 <= i < |r| ensures AbsorbAll(pairs)[i] == r[i] {
      assert i >= |m| ==> i == |m| + (i - |m|);
    }
  }

  /** A row is taken out exactly when it is not paired. */
  lemma ExtraIDs(order: seq<Machine>, m: seq<Edge>, i: nat)
    requires i < |order| && DistinctIDs(order)
    ensures order[i].id in IDs(Extra(order, m)) <==> i !in Lefts(m)
  {
    var lone := Unused(|order|, Lefts(m));
    if i !in Lefts(m) {
      assert i in lone;
      var b :| 0 <= b < |lone| && lone[b] == i;
      assert Extra(order, m)[b] == order[i];
    } else if order[i].id in IDs(Extra(order, m)) {
      var b := IDAt(Extra(order, m), order[i].id);
      assert false;
    }
  }

  lemma ExtraWithin(order: seq<Machine>, m: seq<Edge>)
    ensures IDs(Extra(order, m)) <= IDs(order)
  {
    forall id | id in IDs(Extra(order, m)) ensures id in IDs(order) {
      var b := IDAt(Extra(order, m), id);
    }
  }

  /** The identity of slot `i`: an old row, or a freshly drawn ID. */
  lemma SlotID(cur: int, order: seq<Machine>, machines: seq<Machine>, m: seq<Edge>, i: nat)
    requires InRange(m, |order|, |machines|) && i < |Slots(cur, order, machines, m)|
    ensures Slots(cur, order, machines, m)[i].id == if i < |m| then order[m[i].l].id else cur + 1 + i - |m|
    ensures i >= |m| ==> i - |m| < |Unused(|machines|, Rights(m))|
    ensures forall p :: AllIn(machines, p) ==> PlaceOf(Slots(cur, order, machines, m)[i]) == p
  {
    var rest := Unused(|machines|, Rights(m));
    assert i >= |m| ==> rest[i - |m|] < |machines|;
  }

  lemma KeptSlot(cur: int, order: seq<Machine>, machines: seq<Machine>, m: seq<Edge>, i: nat)
    requires InRange(m, |order|, |machines|) && i < |order| && i in Lefts(m)
    ensures order[i].id in IDs(Slots(cur, order, machines, m))
  {
    var a :| 0 <= a < |m| && m[a].l == i;
    SlotID(cur, order, machines, m, a);
  }

  lemma FreshSlot(cur: int, order: seq<Machine>, machines: seq<Machine>, m: seq<Edge>, id: int)
    requires InRange(m, |order|, |machines|) && cur < id <= cur + |Unused(|machines|, Rights(m))|
    ensures id in IDs(Slots(cur, order, machines, m))
  {
    var i := |m| + (id - cur - 1);
    SlotID(cur, order, machines, m, i);
    assert Slots(cur, order, machines, m)[i].id == id;
  }

  lemma SlotsDistinct(rows: Rows, cur: int, p: Place, order: seq<Machine>, machines: seq<Machine>, m: seq<Edge>)
    requires Coherent(rows, cur) && Enumerates(order, rows, p) && Plan(m, |order|, |machines|)
    ensures DistinctIDs(Slots(cur, order, machines, m))
  {
    var r := Slots(cur, order, machines, m);
    forall i, j | 0 <= i < j < |r| ensures r[i].id != r[j].id {
      SlotID(cur, order, machines, m, i);
      SlotID(cur, order, machines, m, j);
    }
  }

  /** Every slot has its row by the time it is committed. */
  lemma SlotsPresent(rows: Rows, cur: int, p: Place, order: seq<Machine>, machines: seq<Machine>, m: seq<Edge>)
    requires Coherent(rows, cur) && Enumerates(order, rows, p) && Plan(m, |order|, |machines|)
    ensures IDs(Slots(cur, order, machines, m)) <= Swept(rows, cur, order, machines, m).Keys
  {
    var n := |Unused(|machines|, Rights(m))|;
    forall id | id in IDs(Slots(cur, order, machines, m)) ensures id in Swept(rows, cur, order, machines, m) {
      var i := IDAt(Slots(cur, order, machines, m), id);
      SlotID(cur, order, machines, m, i);
      BlanksDistinct(rows, cur, n);
      if i < |m| {
        ExtraIDs(order, m, m[i].l);
      } else {
        ExtraWithin(order, m);
        if id in IDs(order) {
          var k := IDAt(order, id);
        }
      }
    }
  }

  /** Rows of other places are untouched by the merge. */
  lemma MergeSparesOthers(rows: Rows, cur: int, p: Place, order: seq<Machine>, machines: seq<Machine>, m: seq<Edge>,
                          id: int)
    requires Coherent(rows, cur) && Enumerates(order, rows, p) && AllIn(machines, p)
    requires Plan(m, |order|, |machines|)
    ensures var rows' := Merged(rows, cur, order, machines, m);
            && (id in rows && PlaceOf(rows[id]) != p ==> id in rows' && rows'[id] == rows[id])
            && (id in rows' && PlaceOf(rows'[id]) != p ==> id in rows && rows'[id] == rows[id])
  {
    var slots := Slots(cur, order, machines, m);
    var swept := Swept(rows, cur, order, machines, m);
    SlotsDistinct(rows, cur, p, order, machines, m);
    OverlayAt(swept, slots);
    if id in rows && PlaceOf(rows[id]) != p {
      OtherRow(rows, cur, p, order, machines, m, id);
    } else if id in IDs(slots) {
      var i := IDAt(slots, id);
      SlotID(cur, order, machines, m, i);
    } else if id in swept {
      SweptRow(rows, cur, p, order, machines, m, id);
    }
  }

  /** The rows of the place after the merge are exactly the slots. */
  lemma MergedRows(rows: Rows, cur: int, p: Place, order: seq<Machine>, machines: seq<Machine>, m: seq<Edge>)
    requires Coherent(rows, cur) && Enumerates(order, rows, p) && AllIn(machines, p)
    requires Plan(m, |order|, |machines|)
    ensures Enumerates(Slots(cur, order, machines, m), Merged(rows, cur, order, machines, m), p)
  {
    var slots := Slots(cur, order, machines, m);
    var rows' := Merged(rows, cur, order, machines, m);
    SlotsDistinct(rows, cur, p, order, machines, m);
    OverlayAt(Swept(rows, cur, order, machines, m), slots);
    SlotsIn(cur, p, order, machines, m);
    forall id | id in rows' && id !in IDs(slots) ensures PlaceOf(rows'[id]) != p {
      SweptRow(rows, cur, p, order, machines, m, id);
    }
  }

  /** Every row of the place after the merge is as it should be, field by field. */
  lemma MergedRowsShow(rows: Rows, cur: int, p: Place, order: seq<Machine>, machines: seq<Machine>, m: seq<Edge>)
    requires Coherent(rows, cur) && Enumerates(order, rows, p) && AllIn(machines, p)
    requires Plan(m, |order|, |machines|)
    ensures var rows' := Merged(rows, cur, order, machines, m);
            forall id :: id in rows' && PlaceOf(rows'[id]) == p ==> rows'[id].id == id && MergedRow(rows, machines, rows'[id])
  {
    var slots, rows' := Slots(cur, order, machines, m), Merged(rows, cur, order, machines, m);
    MergedRows(rows, cur, p, order, machines, m);
    forall id | id in rows' && PlaceOf(rows'[id]) == p ensures rows'[id].id == id && MergedRow(rows, machines, rows'[id]) {
      var i := IDAt(slots, id);
      SlotShows(rows, cur, p, order, machines, m, i);
    }
  }

  lemma SlotShows(rows: Rows, cur: int, p: Place, order: seq<Machine>, machines: seq<Machine>, m: seq<Edge>, i: nat)
    requires Coherent(rows, cur) && Enumerates(order, rows, p) && Plan(m, |order|, |machines|)
    requires i < |Slots(cur, order, machines, m)|
    ensures MergedRow(rows, machines, Slots(cur, order, machines, m)[i])
  {
    var row, rest := Slots(cur, order, machines, m)[i], Unused(|machines|, Rights(m));
    if i < |m| {
      assert Reports(row, machines[m[i].r]) && KeepsOwn(row, order[m[i].l]);
    } else {
      assert Reports(row, machines[rest[i - |m|]]) && KeepsOwn(row, Blank(cur + 1 + i - |m|));
    }
  }

  lemma SlotsIn(cur: int, p: Place, order: seq<Machine>, machines: seq<Machine>, m: seq<Edge>)
    requires InRange(m, |order|, |machines|) && AllIn(machines, p)
    ensures AllIn(Slots(cur, order, machines, m), p)
  {
    forall i | 0 <= i < |Slots(cur, order, machines, m)| ensures PlaceOf(Slots(cur, order, machines, m)[i]) == p {
      SlotID(cur, order, machines, m, i);
    }
  }

  lemma BlanksDistinct(rows: Rows, cur: int, n: nat)
    requires Coherent(rows, cur)
    ensures forall id :: id in Overlay(rows, Blanks(cur, n)) <==> id in rows || cur < id <= cur + n
    ensures forall id :: id in rows ==> Overlay(rows, Blanks(cur, n))[id] == rows[id]
  {
    OverlayAt(rows, Blanks(cur, n));
    BlankIDs(cur, n);
  }

  /** A swept row that no slot stands for is a row of another place. */
  lemma SweptRow(rows: Rows, cur: int, p: Place, order: seq<Machine>, machines: seq<Machine>, m: seq<Edge>, id: int)
    requires Coherent(rows, cur) && Enumerates(order, rows, p) && Plan(m, |order|, |machines|)
    requires id in Swept(rows, cur, order, machines, m) && id !in IDs(Slots(cur, order, machines, m))
    ensures id in rows && PlaceOf(rows[id]) != p && Swept(rows, cur, order, machines, m)[id] == rows[id]
  {
    var slots := Slots(cur, order, machines, m);
    var n := |Unused(|machines|, Rights(m))|;
    BlanksDistinct(rows, cur, n);
    if id !in rows {
      FreshSlot(cur, order, machines, m, id);
      assert false;
    }
    if PlaceOf(rows[id]) == p {
      var i := IDAt(order, id);
      ExtraIDs(order, m, i);
      KeptSlot(cur, order, machines, m, i);
      assert false;
    }
  }

  lemma OtherRow(rows: Rows, cur: int, p: Place, order: seq<Machine>, machines: seq<Machine>, m: seq<Edge>, id: int)
    requires Coherent(rows, cur) && Enumerates(order, rows, p) && Plan(m, |order|, |machines|)
    requires id in rows && PlaceOf(rows[id]) != p
    ensures id in Swept(rows, cur, order, machines, m) && id !in IDs(Slots(cur, order, machines, m))
    ensures Swept(rows, cur, order, machines, m)[id] == rows[id]
  {
    BlanksDistinct(rows, cur, |Unused(|machines|, Rights(m))|);
    ExtraWithin(order, m);
    if id in IDs(order) {
      var i := IDAt(order, id);
      assert false;
    }
    if id in IDs(Slots(cur, order, machines, m)) {
      var i := IDAt(Slots(cur, order, machines, m), id);
      SlotID(cur, order, machines, m, i);
      assert false;
    }
  }
}
