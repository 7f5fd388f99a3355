/** What merging the provider's list preserves. */
module CloudKeep {
  import opened Prelude
  import opened Matching
  import opened RoleMatching
  import opened Join
  import opened Machines
  import opened CloudSync

  /** Machines the provider lists: distinct non-empty cloud IDs, and no role, since
      providers do not know roles. */
  ghost predicate Listing(machines: seq<Machine>, p: Place) {
    && AllIn(machines, p) && NoRoles(machines)
    && (forall k :: 0 <= k < |machines| ==> machines[k].cloudID != EMPTY)
    && CloudIDsDistinct(machines)
  }

  /** No two machines share a non-empty cloud ID. */
  ghost predicate CloudIDsDistinct(ms: seq<Machine>) {
    forall i, j :: 0 <= i < j < |ms| && ms[i].cloudID != EMPTY ==> ms[i].cloudID != ms[j].cloudID
  }

  predicate SameShape(a: Machine, b: Machine) {
    a.size == b.size && a.diskSize == b.diskSize && a.preemptible == b.preemptible
  }

  /** The listed machine that slot `i` stands for. */
  ghost function SlotMachine(nr: nat, m: seq<Edge>, i: nat): (k: nat)
    requires i < |m| + |Unused(nr, Rights(m))|
    requires forall a :: 0 <= a < |m| ==> m[a].r < nr
    ensures k < nr
  {
    if i < |m| then m[i].r else Unused(nr, Rights(m))[i - |m|]
  }

  lemma SlotIs(cur: int, order: seq<Machine>, machines: seq<Machine>, m: seq<Edge>, i: nat)
    requires InRange(m, |order|, |machines|) && i < |Slots(cur, order, machines, m)|
    ensures var base := if i < |m| then order[m[i].l] else Blank(cur + 1 + i - |m|);
            Slots(cur, order, machines, m)[i] == Absorb(base, machines[SlotMachine(|machines|, m, i)])
  {
    assert i >= |m| ==> i == |m| + (i - |m|);
  }

  lemma PlanSizes(nl: nat, nr: nat, m: seq<Edge>)
    requires Plan(m, nl, nr)
    ensures |m| + |Unused(nl, Lefts(m))| == nl
    ensures |m| + |Unused(nr, Rights(m))| == nr
  {
    forall e, f | e in Elements(m) && f in Elements(m) && Conflict(e, f) ensures e == f {
      var a :| 0 <= a < |m| && m[a] == e;
      var b :| 0 <= b < |m| && m[b] == f;
      assert a == b;
    }
    MatchingSizes(m, nl, nr);
  }

  /** Different slots stand for different listed machines. */
  lemma SlotsApart(nr: nat, m: seq<Edge>, i: nat, j: nat)
    requires forall a :: 0 <= a < |m| ==> m[a].r < nr
    requires forall a, b :: 0 <= a < b < |m| ==> m[a].r != m[b].r
    requires i < j < |m| + |Unused(nr, Rights(m))|
    ensures SlotMachine(nr, m, i) != SlotMachine(nr, m, j)
  {
    var rest := Unused(nr, Rights(m));
    assert i < |m| ==> m[i].r in Rights(m);
    assert j >= |m| ==> rest[j - |m|] in rest;
  }

  /** Every listed machine has a slot. */
  lemma SlotFor(nl: nat, nr: nat, m: seq<Edge>, k: nat) returns (i: nat)
    requires InRange(m, nl, nr) && k < nr
    ensures i < |m| + |Unused(nr, Rights(m))| && SlotMachine(nr, m, i) == k
  {
    if k in Rights(m) {
      i :| 0 <= i < |m| && m[i].r == k;
    } else {
      assert k in Unused(nr, Rights(m));
      var b :| 0 <= b < |Unused(nr, Rights(m))| && Unused(nr, Rights(m))[b] == k;
      i := |m| + b;
    }
  }

  ghost predicate Shown(rows: seq<Machine>, cm: Machine) {
    exists i :: 0 <= i < |rows| && Reports(rows[i], cm)
  }

  ghost predicate Backed(row: Machine, machines: seq<Machine>) {
    exists k :: 0 <= k < |machines| && Reports(row, machines[k])
  }

  /** Two lists of the same rows hold the same machines. */
  lemma SameRows(rows: Rows, p: Place, order: seq<Machine>, other: seq<Machine>, i: nat) returns (j: nat)
    requires Enumerates(order, rows, p) && Enumerates(other, rows, p) && i < |order|
    ensures j < |other| && other[j] == order[i]
  {
    j := IDAt(other, order[i].id);
  }

  lemma {:induction false} IDsSize(ms: seq<Machine>)
    requires DistinctIDs(ms)
    ensures |IDs(ms)| == |ms|
  {
    if ms != [] {
      var n := |ms| - 1;
      TakeSnoc(ms, n);
      TakeAll(ms);
      IDsSnoc(ms[..n], ms[n]);
      IDsSize(ms[..n]);
      assert ms[n].id !in IDs(ms[..n]);
    }
  }

  lemma SameSize(rows: Rows, p: Place, order: seq<Machine>, other: seq<Machine>)
    requires Enumerates(order, rows, p) && Enumerates(other, rows, p)
    ensures |order| == |other|
  {
    forall id ensures id in IDs(order) <==> id in IDs(other) {
      if id in IDs(order) { var i := IDAt(order, id); }
      if id in IDs(other) { var i := IDAt(other, id); }
    }
    assert IDs(order) == IDs(other);
    IDsSize(order);
    IDsSize(other);
  }

  /** `ms` corresponds one to one to the listed machines and carries every field a
      provider reports. */
  ghost predicate Mirrors(ms: seq<Machine>, machines: seq<Machine>) {
    && |ms| == |machines| && CloudIDsDistinct(ms)
    && (forall i :: 0 <= i < |ms| ==> Backed(ms[i], machines))
    && (forall k :: 0 <= k < |machines| ==> Shown(ms, machines[k]))
  }

  lemma SlotsMirror(cur: int, p: Place, order: seq<Machine>, machines: seq<Machine>, m: seq<Edge>)
    requires Plan(m, |order|, |machines|) && Listing(machines, p)
    ensures Mirrors(Slots(cur, order, machines, m), machines)
  {
    var slots := Slots(cur, order, machines, m);
    PlanSizes(|order|, |machines|, m);
    forall i: nat | i < |slots| ensures Backed(slots[i], machines) {
      SlotIs(cur, order, machines, m, i);
      assert Reports(slots[i], machines[SlotMachine(|machines|, m, i)]);
    }
    SlotsDistinctCloudIDs(cur, p, order, machines, m);
    forall k: nat | k < |machines| ensures Shown(slots, machines[k]) {
      var i := SlotFor(|order|, |machines|, m, k);
      SlotIs(cur, order, machines, m, i);
      assert Reports(slots[i], machines[k]);
    }
  }

  lemma SlotsDistinctCloudIDs(cur: int, p: Place, order: seq<Machine>, machines: seq<Machine>, m: seq<Edge>)
    requires Plan(m, |order|, |machines|) && Listing(machines, p)
    ensures CloudIDsDistinct(Slots(cur, order, machines, m))
  {
    var slots := Slots(cur, order, machines, m);
    forall i: nat, j: nat | i < j < |slots| ensures slots[i].cloudID != slots[j].cloudID {
      SlotCloudIDsDiffer(cur, p, order, machines, m, i, j);
    }
  }

  lemma SlotCloudIDsDiffer(cur: int, p: Place, order: seq<Machine>, machines: seq<Machine>, m: seq<Edge>, i: nat, j: nat)
    requires Plan(m, |order|, |machines|) && Listing(machines, p) && i < j < |Slots(cur, order, machines, m)|
    ensures Slots(cur, order, machines, m)[i].cloudID != Slots(cur, order, machines, m)[j].cloudID
  {
    SlotIs(cur, order, machines, m, i);
    SlotIs(cur, order, machines, m, j);
    SlotsApart(|machines|, m, i, j);
  }

  /** Mirroring does not depend on the order in which the rows are listed. */
  lemma MirrorsInAnyOrder(rows: Rows, p: Place, order: seq<Machine>, other: seq<Machine>, machines: seq<Machine>)
    requires Enumerates(order, rows, p) && Enumerates(other, rows, p) && Mirrors(order, machines)
    ensures Mirrors(other, machines)
  {
    SameSize(rows, p, order, other);
    forall i: nat | i < |other| ensures Backed(other[i], machines) {
      var j := SameRows(rows, p, other, order, i);
    }
    DistinctInAnyOrder(rows, p, order, other);
    forall k: nat | k < |machines| ensures Shown(other, machines[k]) {
      ShownInAnyOrder(rows, p, order, other, machines[k]);
    }
  }

  lemma DistinctInAnyOrder(rows: Rows, p: Place, order: seq<Machine>, other: seq<Machine>)
    requires Enumerates(order, rows, p) && Enumerates(other, rows, p) && CloudIDsDistinct(order)
    ensures CloudIDsDistinct(other)
  {
    forall i: nat, j: nat | i < j < |other| && other[i].cloudID != EMPTY ensures other[i].cloudID != other[j].cloudID {
      var a := SameRows(rows, p, other, order, i);
      var b := SameRows(rows, p, other, order, j);
      assert a != b;
    }
  }

  lemma ShownInAnyOrder(rows: Rows, p: Place, order: seq<Machine>, other: seq<Machine>, cm: Machine)
    requires Enumerates(order, rows, p) && Enumerates(other, rows, p) && Shown(order, cm)
    ensures Shown(other, cm)
  {
    var a :| 0 <= a < |order| && Reports(order[a], cm);
    var i := SameRows(rows, p, order, other, a);
    assert Reports(other[i], cm);
  }

  /** After the merge the rows of the place mirror the list. */
  lemma SyncOneToOne(rows: Rows, cur: int, p: Place, order: seq<Machine>, machines: seq<Machine>, order': seq<Machine>)
    requires Coherent(rows, cur) && Enumerates(order, rows, p) && Listing(machines, p)
    requires Enumerates(order', Merged(rows, cur, order, machines, Pairing(order, machines, p)), p)
    ensures Mirrors(order', machines)
  {
    var m := Pairing(order, machines, p);
    PairingIsPlan(order, machines, p);
    MergedRows(rows, cur, p, order, machines, m);
    SlotsMirror(cur, p, order, machines, m);
    MirrorsInAnyOrder(Merged(rows, cur, order, machines, m), p, Slots(cur, order, machines, m), order', machines);
  }

  /** A row and a listed machine with the same cloud ID and shape are always paired. */
  lemma SameCloudIDPaired(order: seq<Machine>, machines: seq<Machine>, p: Place, i: nat, k: nat)
    requires AllIn(order, p) && Listing(machines, p) && CloudIDsDistinct(order)
    requires i < |order| && k < |machines|
    requires order[i].cloudID == machines[k].cloudID && SameShape(order[i], machines[k])
    ensures Edge(i, k) in Pairing(order, machines, p)
  {
    var g := MachineGraph(order, machines, p);
    var m := Elements(Pairing(order, machines, p));
    var e := Edge(i, k);
    ReferenceIsGreedy(g);
    assert Compatible(order, machines, e) && g[e] == 0;
    forall f | f in m && f in g && g[f] == 0 && Conflict(e, f) ensures f == e {
      ZeroConflict(order, machines, p, i, k, f);
    }
    LoneZeroIsMatched(g, m, e);
  }

  /** An edge of score 0 that conflicts with no other such edge is in every greedy
      matching. */
  lemma LoneZeroIsMatched(g: Graph, m: set<Edge>, e: Edge)
    requires Greedy(g, m) && e in g && g[e] == 0
    requires forall f :: f in m && f in g && g[f] == 0 && Conflict(e, f) ==> f == e
    ensures e in m
  {
  }

  lemma ZeroConflict(order: seq<Machine>, machines: seq<Machine>, p: Place, i: nat, k: nat, f: Edge)
    requires AllIn(order, p) && Listing(machines, p) && CloudIDsDistinct(order)
    requires i < |order| && k < |machines| && order[i].cloudID == machines[k].cloudID
    requires f in MachineGraph(order, machines, p) && MachineGraph(order, machines, p)[f] == 0 && Conflict(Edge(i, k), f)
    ensures f == Edge(i, k)
  {
    ZeroScore(order, machines, p, f);
  }

  lemma ZeroScore(order: seq<Machine>, machines: seq<Machine>, p: Place, f: Edge)
    requires AllIn(order, p) && AllIn(machines, p)
    requires f in MachineGraph(order, machines, p) && MachineGraph(order, machines, p)[f] == 0
    ensures f.l < |order| && f.r < |machines| && order[f.l].cloudID == machines[f.r].cloudID != EMPTY
  {
    assert Compatible(order, machines, f);
  }

  /** A machine that is still listed, in an unchanged shape, keeps its row: ID, role,
      status, keys and connection flag. */
  lemma ListedMachineKeepsRow(rows: Rows, cur: int, p: Place, order: seq<Machine>, machines: seq<Machine>, id: int, k: nat)
    requires Coherent(rows, cur) && Enumerates(order, rows, p) && Listing(machines, p) && CloudIDsDistinct(order)
    requires id in rows && PlaceOf(rows[id]) == p && k < |machines|
    requires rows[id].cloudID == machines[k].cloudID && SameShape(rows[id], machines[k])
    ensures var rows' := Merged(rows, cur, order, machines, Pairing(order, machines, p));
            id in rows' && Reports(rows'[id], machines[k]) && KeepsOwn(rows'[id], rows[id])
  {
    var m := Pairing(order, machines, p);
    PairingIsPlan(order, machines, p);
    var i := IDAt(order, id);
    SameCloudIDPaired(order, machines, p, i, k);
    var a :| 0 <= a < |m| && m[a] == Edge(i, k);
    MergedRows(rows, cur, p, order, machines, m);
    SlotIs(cur, order, machines, m, a);
  }
}
