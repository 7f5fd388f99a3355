/** Two rounds of reconciliation in a row. */
module CloudRounds {
  import opened Prelude
  import opened Matching
  import opened RoleMatching
  import opened Join
  import opened Machines
  import opened CloudSync
  import opened CloudKeep
  import opened BlueprintPlan

  /** Every reported disk size is `d`. */
  ghost predicate OneDisk(ms: seq<Machine>, d: int) {
    forall i :: 0 <= i < |ms| ==> ms[i].diskSize == 0 || ms[i].diskSize == d
  }

  ghost predicate Injective(home: seq<nat>, n: nat) {
    && (forall k :: 0 <= k < |home| ==> home[k] < n)
    && (forall j, k :: 0 <= j < k < |home| ==> home[j] != home[k])
  }

  /** The rows that the plan keeps. */
  ghost function Kept(order: seq<Machine>, m: seq<Edge>): (r: seq<Machine>)
    requires forall a :: 0 <= a < |m| ==> m[a].r < |order|
    ensures |r| == |m| && forall a :: 0 <= a < |m| ==> r[a] == order[m[a].r]
  {
    seq(|m|, a requires 0 <= a < |m| => order[m[a].r])
  }

  /** `second` is what the provider lists after a round that keeps the rows `kept`,
      stops `stopped` and requests `boots`: the machines of the kept rows as they were,
      one new machine per request, and none of the stopped ones.  `home` says where
      each of them stands in the new list. */
  ghost predicate Faithful(kept: seq<Machine>, stopped: seq<Machine>, boots: seq<Machine>,
                           second: seq<Machine>, home: seq<nat>)
  {
    && |home| == |kept| + |boots| && |second| == |home| && Injective(home, |second|)
    && (forall a :: 0 <= a < |kept| ==>
          second[home[a]].cloudID == kept[a].cloudID && SameShape(second[home[a]], kept[a]))
    && (forall b :: |kept| <= b < |home| ==> KindOf(second[home[b]]) == KindOf(boots[b - |kept|]))
    && (forall i, k :: 0 <= i < |stopped| && 0 <= k < |second| ==> second[k].cloudID != stopped[i].cloudID)
  }

  /** The rows of the plan that go on: refreshed and booting ones. */
  ghost function Going(cur: int, bpms: seq<Machine>, order: seq<Machine>, m: seq<Edge>): (q: seq<Machine>)
    requires InRange(m, |bpms|, |order|)
    ensures |q| == |m| + |Missing(bpms, m)|
    ensures forall j :: 0 <= j < |m| ==> q[j] == Refresh((bpms[m[j].l], order[m[j].r]))
    ensures forall j :: |m| <= j < |q| ==> q[j] == BootRow(Missing(bpms, m)[j - |m|], cur + 1 + j - |m|)
  {
    RefreshAll(PairUp(bpms, order, m)) + BootRows(cur, Missing(bpms, m))
  }

  /** Where row `j` of those stands in the plan. */
  ghost function GoingAt(order: seq<Machine>, m: seq<Edge>, j: nat): nat {
    if j < |m| then j else j + |Surplus(order, m)|
  }

  lemma GoingIsPlanned(cur: int, bpms: seq<Machine>, order: seq<Machine>, m: seq<Edge>, j: nat)
    requires InRange(m, |bpms|, |order|) && j < |Going(cur, bpms, order, m)|
    ensures GoingAt(order, m, j) < |PlannedRows(cur, bpms, order, m)|
    ensures PlannedRows(cur, bpms, order, m)[GoingAt(order, m, j)] == Going(cur, bpms, order, m)[j]
  {
    PlannedAt(cur, bpms, order, m, GoingAt(order, m, j));
  }

  lemma PlannedGoesOrStops(cur: int, bpms: seq<Machine>, order: seq<Machine>, m: seq<Edge>, i: nat)
    requires InRange(m, |bpms|, |order|) && i < |PlannedRows(cur, bpms, order, m)|
    ensures var x := PlannedRows(cur, bpms, order, m)[i];
            x in Going(cur, bpms, order, m) || x in StopAll(Surplus(order, m))
  {
    Concat3In(RefreshAll(PairUp(bpms, order, m)), StopAll(Surplus(order, m)), BootRows(cur, Missing(bpms, m)), i);
  }

  /** What the plan does to a row: nothing a provider reports, and not its role. */
  lemma PlanKeepsFields(bpm: Machine, dbm: Machine)
    ensures var r := Refresh((bpm, dbm)); r.cloudID == dbm.cloudID && SameShape(r, dbm) && r.role == dbm.role
    ensures var r := Stop(dbm); r.cloudID == dbm.cloudID && SameShape(r, dbm) && r.role == dbm.role
  {
  }

  /** Row `j` of `q` continues as machine `h[j]` of the second listing: the first `n`
      rows by cloud ID, the others, still booting, by kind. */
  ghost predicate Continues(q: seq<Machine>, n: nat, second: seq<Machine>, h: seq<nat>) {
    && n <= |q| && |q| == |second| && |h| == |q| && Injective(h, |second|)
    && (forall j :: 0 <= j < n ==> q[j].cloudID == second[h[j]].cloudID && SameShape(q[j], second[h[j]]))
    && (forall j :: n <= j < |q| ==>
          q[j].cloudID == EMPTY && q[j].role == NoRole && KindOf(q[j]) == KindOf(second[h[j]]))
  }

  lemma KeptContinues(cur: int, bpms: seq<Machine>, order: seq<Machine>, m: seq<Edge>, j: nat, cm: Machine)
    requires InRange(m, |bpms|, |order|) && j < |m|
    requires cm.cloudID == Kept(order, m)[j].cloudID && SameShape(cm, Kept(order, m)[j])
    ensures var x := Going(cur, bpms, order, m)[j]; x.cloudID == cm.cloudID && SameShape(x, cm)
  {
    PlanKeepsFields(bpms[m[j].l], order[m[j].r]);
    assert Kept(order, m)[j] == order[m[j].r];
  }

  lemma BootContinues(cur: int, bpms: seq<Machine>, order: seq<Machine>, m: seq<Edge>, j: nat, cm: Machine)
    requires InRange(m, |bpms|, |order|) && Wished(bpms) && |m| <= j < |Going(cur, bpms, order, m)|
    requires KindOf(cm) == KindOf(BootRequests(cur, Missing(bpms, m))[j - |m|])
    ensures var x := Going(cur, bpms, order, m)[j]; x.cloudID == EMPTY && x.role == NoRole && KindOf(x) == KindOf(cm)
  {
  }

  lemma FirstRoundContinues(cur: int, bpms: seq<Machine>, order: seq<Machine>, m: seq<Edge>,
                            second: seq<Machine>, home: seq<nat>)
    requires InRange(m, |bpms|, |order|) && Wished(bpms)
    requires Faithful(Kept(order, m), Surplus(order, m), BootRequests(cur, Missing(bpms, m)), second, home)
    ensures Continues(Going(cur, bpms, order, m), |m|, second, home)
  {
    var q := Going(cur, bpms, order, m);
    forall j: nat | j < |m| ensures q[j].cloudID == second[home[j]].cloudID && SameShape(q[j], second[home[j]]) {
      KeptContinues(cur, bpms, order, m, j, second[home[j]]);
    }
    forall j: nat | |m| <= j < |q|
      ensures q[j].cloudID == EMPTY && q[j].role == NoRole && KindOf(q[j]) == KindOf(second[home[j]])
    {
      BootContinues(cur, bpms, order, m, j, second[home[j]]);
    }
  }

  lemma SeqMatching(es: seq<Edge>)
    requires forall a, b :: 0 <= a < b < |es| ==> es[a].l != es[b].l && es[a].r != es[b].r
    ensures IsMatching(Elements(es)) && |Elements(es)| == |es|
  {
    forall e, f | e in Elements(es) && f in Elements(es) && Conflict(e, f) ensures e == f {
      var a :| 0 <= a < |es| && es[a] == e;
      var b :| 0 <= b < |es| && es[b] == f;
    }
    DistinctSize(es);
  }

  /** A row has one place in a list of rows. */
  lemma ListedOnce(order: seq<Machine>, i: nat)
    requires DistinctIDs(order) && i < |order|
    ensures order[i] in order && IndexOf(order, order[i]) == i
  {
    assert order[i] in order;
  }

  /** Each row of `q` with the machine it continues as. */
  ghost function ContinuingEdges(q: seq<Machine>, order: seq<Machine>, h: seq<nat>): (es: seq<Edge>)
    requires |h| == |q| && forall j :: 0 <= j < |q| ==> q[j] in order
    ensures |es| == |q| && forall j :: 0 <= j < |q| ==> es[j] == Edge(IndexOf(order, q[j]), h[j])
  {
    seq(|q|, j requires 0 <= j < |q| => Edge(IndexOf(order, q[j]), h[j]))
  }

  lemma EdgeFits(p: Place, q: seq<Machine>, n: nat, order: seq<Machine>, second: seq<Machine>, h: seq<nat>, d: int, j: nat)
    requires Continues(q, n, second, h) && j < |q| && q[j] in order && AllIn(order, p)
    requires Listing(second, p) && OneDisk(order, d) && OneDisk(second, d)
    ensures Edge(IndexOf(order, q[j]), h[j]) in MachineGraph(order, second, p)
  {
    var e := Edge(IndexOf(order, q[j]), h[j]);
    assert KindOf(order[e.l]) == KindOf(second[e.r]);
    assert DiskFits(order[e.l], second[e.r]);
    assert Compatible(order, second, e);
  }

  /** A pairing that uses every machine exists, so the join makes one. */
  lemma SecondMergePerfect(p: Place, q: seq<Machine>, n: nat, order: seq<Machine>, second: seq<Machine>, h: seq<nat>, d: int)
    requires AllIn(order, p) && DistinctIDs(q) && (forall j :: 0 <= j < |q| ==> q[j] in order)
    requires Continues(q, n, second, h) && Listing(second, p) && OneDisk(order, d) && OneDisk(second, d)
    ensures |Pairing(order, second, p)| == |second|
  {
    var es := ContinuingEdges(q, order, h);
    forall a, b | 0 <= a < b < |es| ensures es[a].l != es[b].l && es[a].r != es[b].r {
      assert q[a].id != q[b].id;
    }
    SeqMatching(es);
    forall e | e in Elements(es) ensures e in MachineGraph(order, second, p) {
      var j :| 0 <= j < |es| && es[j] == e;
      EdgeFits(p, q, n, order, second, h, d, j);
    }
    LargestIsAll(order, second, p, es);
  }

  lemma LargestIsAll(order: seq<Machine>, second: seq<Machine>, p: Place, es: seq<Edge>)
    requires AllIn(order, p) && AllIn(second, p) && DisksAgree(order, second) && NoRoles(second)
    requires IsMatching(Elements(es)) && |Elements(es)| == |second|
    requires forall e :: e in Elements(es) ==> e in MachineGraph(order, second, p)
    ensures |Pairing(order, second, p)| == |second|
  {
    PairingIsMaximum(order, second, p, Elements(es));
    PairingIsPlan(order, second, p);
    PlanSizes(|order|, |second|, Pairing(order, second, p));
  }

  /** The rows of a plan have different cloud IDs, but for those that are booting. */
  lemma PlannedCloudIDs(cur: int, p: Place, bpms: seq<Machine>, order: seq<Machine>, m: seq<Edge>)
    requires Plan(m, |bpms|, |order|) && CloudIDsDistinct(order) && Wished(bpms)
    ensures CloudIDsDistinct(PlannedRows(cur, bpms, order, m))
  {
    var r, n := PlannedRows(cur, bpms, order, m), |m| + |Surplus(order, m)|;
    forall i: nat, j: nat | i < j < |r| && r[i].cloudID != EMPTY ensures r[i].cloudID != r[j].cloudID {
      PlannedCloudID(cur, bpms, order, m, i);
      PlannedCloudID(cur, bpms, order, m, j);
      if j < n {
        SlotsApart(|order|, m, i, j);
      }
    }
  }

  lemma PlannedCloudID(cur: int, bpms: seq<Machine>, order: seq<Machine>, m: seq<Edge>, i: nat)
    requires InRange(m, |bpms|, |order|) && Wished(bpms) && i < |PlannedRows(cur, bpms, order, m)|
    ensures var r, n := PlannedRows(cur, bpms, order, m), |m| + |Surplus(order, m)|;
            r[i].cloudID == if i < n then order[SlotMachine(|order|, m, i)].cloudID else EMPTY
  {
    PlannedAt(cur, bpms, order, m, i);
    if i < |m| {
      PlanKeepsFields(bpms[m[i].l], order[m[i].r]);
    }
  }

  /** The merge gives a row that is known by cloud ID its own machine again. */
  lemma KeptPaired(p: Place, q: seq<Machine>, n: nat, order: seq<Machine>, second: seq<Machine>, h: seq<nat>, j: nat)
    requires AllIn(order, p) && CloudIDsDistinct(order) && Continues(q, n, second, h) && Listing(second, p)
    requires j < n && q[j] in order
    ensures Edge(IndexOf(order, q[j]), h[j]) in Pairing(order, second, p)
  {
    SameCloudIDPaired(order, second, p, IndexOf(order, q[j]), h[j]);
  }

  /** What the second merge starts from and does: `order` lists the rows left by the
      first round, and the pairing `m` uses every machine of `second`, giving the rows
      known by cloud ID their own machine again and the others to rows that go on. */
  ghost predicate SecondMerge(rows: Rows, p: Place, q: seq<Machine>, n: nat, order: seq<Machine>,
                              second: seq<Machine>, h: seq<nat>, m: seq<Edge>)
  {
    && Enumerates(order, rows, p) && Continues(q, n, second, h) && Listing(second, p)
    && Plan(m, |order|, |second|) && |m| == |second|
    && (forall j :: 0 <= j < n ==> q[j] in order && Edge(IndexOf(order, q[j]), h[j]) in m)
    && (forall a :: 0 <= a < |m| ==> order[m[a].l] in q)
  }

  lemma KeptAt(rows: Rows, p: Place, q: seq<Machine>, n: nat, order: seq<Machine>,
               second: seq<Machine>, h: seq<nat>, m: seq<Edge>, j: nat) returns (a: nat)
    requires SecondMerge(rows, p, q, n, order, second, h, m) && j < n
    ensures a < |m| && m[a].r == h[j] && order[m[a].l] == q[j]
  {
    assert q[j] in order && Edge(IndexOf(order, q[j]), h[j]) in m;
    a :| 0 <= a < |m| && m[a] == Edge(IndexOf(order, q[j]), h[j]);
  }

  lemma AllUsed(m: seq<Edge>, nl: nat, nr: nat, k: nat) returns (a: nat)
    requires Plan(m, nl, nr) && |m| == nr && k < nr
    ensures a < |m| && m[a].r == k
  {
    PlanSizes(nl, nr, m);
    assert k !in Unused(nr, Rights(m));
    a :| 0 <= a < |m| && m[a].r == k;
  }

  /** A machine that a booting row continues as goes to a row without a role. */
  lemma BootedAt(rows: Rows, p: Place, q: seq<Machine>, n: nat, order: seq<Machine>,
                 second: seq<Machine>, h: seq<nat>, m: seq<Edge>, j: nat, a: nat)
    requires SecondMerge(rows, p, q, n, order, second, h, m) && n <= j < |q| && a < |m| && m[a].r == h[j]
    ensures order[m[a].l].role == q[j].role
  {
    var i :| 0 <= i < |q| && q[i] == order[m[a].l];
    if i < n {
      var b := KeptAt(rows, p, q, n, order, second, h, m, i);
      assert false;
    }
  }

  /** Whichever row ends up with machine `h[j]`, it has the role of row `j`. */
  lemma RoleCarries(rows: Rows, p: Place, q: seq<Machine>, n: nat, order: seq<Machine>,
                    second: seq<Machine>, h: seq<nat>, m: seq<Edge>, j: nat) returns (a: nat)
    requires SecondMerge(rows, p, q, n, order, second, h, m) && j < |q|
    ensures a < |m| && m[a].r == h[j] && order[m[a].l].role == q[j].role
  {
    if j < n {
      a := KeptAt(rows, p, q, n, order, second, h, m, j);
    } else {
      a := AllUsed(m, |order|, |second|, h[j]);
      BootedAt(rows, p, q, n, order, second, h, m, j, a);
    }
  }

  /** The blueprint machine that row `j` of the plan was made for. */
  ghost function MadeFor(nl: nat, m: seq<Edge>, j: nat): (i: nat)
    requires j < |m| + |Unused(nl, Lefts(m))|
    requires forall a :: 0 <= a < |m| ==> m[a].l < nl
    ensures i < nl
  {
    if j < |m| then m[j].l else Unused(nl, Lefts(m))[j - |m|]
  }

  lemma MadeForApart(nl: nat, m: seq<Edge>, i: nat, j: nat)
    requires forall a :: 0 <= a < |m| ==> m[a].l < nl
    requires forall a, b :: 0 <= a < b < |m| ==> m[a].l != m[b].l
    requires i < j < |m| + |Unused(nl, Lefts(m))|
    ensures MadeFor(nl, m, i) != MadeFor(nl, m, j)
  {
    var rest := Unused(nl, Lefts(m));
    assert i < |m| ==> m[i].l in Lefts(m);
    assert j >= |m| ==> rest[j - |m|] in rest;
  }

  predicate Fits(bpm: Machine, row: Machine) {
    KindOf(row) == KindOf(bpm) && (row.role == NoRole || row.role == bpm.role)
  }

  /** A row that goes on fits the blueprint machine that it is for. */
  lemma GoingFits(cur: int, bpms: seq<Machine>, order: seq<Machine>, m: seq<Edge>, j: nat)
    requires Wished(bpms) && InRange(m, |bpms|, |order|) && j < |Going(cur, bpms, order, m)|
    requires j < |m| ==> Compatible(bpms, order, m[j])
    ensures j < |m| + |Unused(|bpms|, Lefts(m))|
    ensures Fits(bpms[MadeFor(|bpms|, m, j)], Going(cur, bpms, order, m)[j])
  {
    if j < |m| {
      CompatibleFits(bpms, order, m[j]);
      RefreshFits(bpms[m[j].l], order[m[j].r]);
    } else {
      assert Missing(bpms, m)[j - |m|] == bpms[Unused(|bpms|, Lefts(m))[j - |m|]];
    }
  }

  lemma CompatibleFits(bpms: seq<Machine>, order: seq<Machine>, e: Edge)
    requires Wished(bpms) && Compatible(bpms, order, e)
    ensures Fits(bpms[e.l], order[e.r])
  {
  }

  lemma RefreshFits(bpm: Machine, dbm: Machine)
    requires Fits(bpm, dbm)
    ensures Fits(bpm, Refresh((bpm, dbm)))
  {
  }

  /** A list that mirrors `second` and carries the roles over pairs perfectly with
      the blueprint. */
  lemma {:induction false} SecondRoundPerfect(p: Place, bpms: seq<Machine>, m: seq<Edge>, nr: nat, r: seq<Machine>,
                           final: seq<Machine>, at: seq<nat>, d: int)
    requires AllIn(bpms, p) && AllIn(final, p) && Wished(bpms) && Unanchored(bpms, final) && OneDisk(bpms, d) && OneDisk(final, d)
    requires Plan(m, |bpms|, nr) && |r| == |bpms| == |final| && |at| == |r| && Injective(at, |final|)
    requires forall j :: 0 <= j < |r| ==> KindOf(final[at[j]]) == KindOf(r[j]) && final[at[j]].role == r[j].role
    requires |m| + |Unused(|bpms|, Lefts(m))| == |bpms|
    requires forall j :: 0 <= j < |r| ==> Fits(bpms[MadeFor(|bpms|, m, j)], r[j])
    ensures |Pairing(bpms, final, p)| == |bpms|
  {
    var es := seq(|r|, j requires 0 <= j < |r| => Edge(MadeFor(|bpms|, m, j), at[j]));
    forall a, b | 0 <= a < b < |es| ensures es[a].l != es[b].l && es[a].r != es[b].r {
      MadeForApart(|bpms|, m, a, b);
    }
    SeqMatching(es);
    forall e | e in Elements(es) ensures e in MachineGraph(bpms, final, p) {
      var j :| 0 <= j < |es| && es[j] == e;
      assert Compatible(bpms, final, e);
    }
    PairingIsMaximum(bpms, final, p, Elements(es));
    PairingIsPlan(bpms, final, p);
    PlanSizes(|bpms|, |final|, Pairing(bpms, final, p));
  }

  /** Row `i` of `final` shows machine `cm` with the kind and role of `row`. */
  ghost predicate StandsFor(final: seq<Machine>, i: nat, cm: Machine, row: Machine) {
    && i < |final| && final[i].cloudID == cm.cloudID
    && KindOf(final[i]) == KindOf(row) && final[i].role == row.role
  }

  ghost predicate Found(final: seq<Machine>, cm: Machine, row: Machine) {
    exists i: nat :: StandsFor(final, i, cm, row)
  }

  ghost function Standing(final: seq<Machine>, cm: Machine, row: Machine): (i: nat)
    requires Found(final, cm, row)
    ensures StandsFor(final, i, cm, row)
  {
    var i: nat :| StandsFor(final, i, cm, row);
    i
  }

  /** Where the rows that go on stand after the second merge. */
  lemma WhereNow(p: Place, q: seq<Machine>, second: seq<Machine>, h: seq<nat>, final: seq<Machine>)
    returns (at: seq<nat>)
    requires Listing(second, p) && |h| == |q| && Injective(h, |second|)
    requires forall j :: 0 <= j < |q| ==> Found(final, second[h[j]], q[j])
    ensures |at| == |q| && Injective(at, |final|)
    ensures forall j :: 0 <= j < |q| ==> KindOf(final[at[j]]) == KindOf(q[j]) && final[at[j]].role == q[j].role
  {
    at := seq(|q|, j requires 0 <= j < |q| => Standing(final, second[h[j]], q[j]));
    forall i, j | 0 <= i < j < |at| ensures at[i] != at[j] {
      assert second[h[i]].cloudID != second[h[j]].cloudID;
    }
  }

  lemma RowNow(rows: Rows, cur: int, p: Place, q: seq<Machine>, n: nat, order: seq<Machine>,
               second: seq<Machine>, h: seq<nat>, m: seq<Edge>, final: seq<Machine>, j: nat)
    requires Coherent(rows, cur) && SecondMerge(rows, p, q, n, order, second, h, m) && j < |q|
    requires Enumerates(final, Merged(rows, cur, order, second, m), p)
    ensures Found(final, second[h[j]], q[j])
  {
    var a := RoleCarries(rows, p, q, n, order, second, h, m, j);
    MergedRows(rows, cur, p, order, second, m);
    SlotIs(cur, order, second, m, a);
    var i := SameRows(Merged(rows, cur, order, second, m), p, Slots(cur, order, second, m), final, a);
    assert KindOf(q[j]) == KindOf(second[h[j]]);
    assert StandsFor(final, i, second[h[j]], q[j]);
  }

  lemma RowsNow(rows: Rows, cur: int, p: Place, q: seq<Machine>, n: nat, order: seq<Machine>,
                second: seq<Machine>, h: seq<nat>, m: seq<Edge>, final: seq<Machine>)
    requires Coherent(rows, cur) && SecondMerge(rows, p, q, n, order, second, h, m)
    requires Enumerates(final, Merged(rows, cur, order, second, m), p)
    ensures forall j :: 0 <= j < |q| ==> Found(final, second[h[j]], q[j])
  {
    forall j: nat | j < |q| ensures Found(final, second[h[j]], q[j]) {
      RowNow(rows, cur, p, q, n, order, second, h, m, final, j);
    }
  }

  /** Disk sizes of the rows after the first round. */
  lemma PlannedDisks(cur: int, bpms: seq<Machine>, order: seq<Machine>, m: seq<Edge>, d: int)
    requires InRange(m, |bpms|, |order|) && OneDisk(bpms, d) && OneDisk(order, d)
    ensures OneDisk(PlannedRows(cur, bpms, order, m), d)
  {
    forall i: nat | i < |PlannedRows(cur, bpms, order, m)|
      ensures PlannedRows(cur, bpms, order, m)[i].diskSize == 0 || PlannedRows(cur, bpms, order, m)[i].diskSize == d
    {
      PlannedRow(cur, bpms, order, m, i);
    }
  }

  lemma MirroredDisks(ms: seq<Machine>, machines: seq<Machine>, d: int)
    requires Mirrors(ms, machines) && OneDisk(machines, d)
    ensures OneDisk(ms, d)
  {
    forall i | 0 <= i < |ms| ensures ms[i].diskSize == 0 || ms[i].diskSize == d {
      var k :| 0 <= k < |machines| && Reports(ms[i], machines[k]);
    }
  }

  lemma DisksInAnyOrder(rows: Rows, p: Place, r: seq<Machine>, order: seq<Machine>, d: int)
    requires Enumerates(r, rows, p) && Enumerates(order, rows, p) && OneDisk(r, d)
    ensures OneDisk(order, d)
  {
    forall i: nat | i < |order| ensures order[i].diskSize == 0 || order[i].diskSize == d {
      var j := SameRows(rows, p, order, r, i);
    }
  }

  /** No machine that stands for a row of open role has a floating IP that a blueprint
      machine of its kind asks for.  The code moves floating IPs to known roles only. */
  ghost predicate IPsFollowRoles(bpms: seq<Machine>, q: seq<Machine>, second: seq<Machine>, h: seq<nat>) {
    |h| == |q| && Injective(h, |second|) &&
    forall i, j :: 0 <= i < |bpms| && 0 <= j < |q| && q[j].role == NoRole ==> !Anchors(bpms[i], second[h[j]])
  }

  /** The first of two rounds, and what the provider lists after it.  Blueprint roles
      are known, there is one disk size, and floating IPs follow roles.  `order` is the
      order in which the table, which mirrors the listing `first`, was read. */
  ghost predicate FirstRound(rows: Rows, cur: int, p: Place, bpms: seq<Machine>, order: seq<Machine>,
                             first: seq<Machine>, second: seq<Machine>, home: seq<nat>, d: int)
  {
    && AllIn(bpms, p) && Wished(bpms) && OneDisk(bpms, d) && OneDisk(first, d) && OneDisk(second, d)
    && Coherent(rows, cur) && Enumerates(order, rows, p)
    && Listing(first, p) && Mirrors(order, first) && Listing(second, p)
    && Unanchored(bpms, order)
    && var m := Pairing(bpms, order, p);
       && Faithful(Kept(order, m), Surplus(order, m), BootRequests(cur, Missing(bpms, m)), second, home)
       && IPsFollowRoles(bpms, Going(cur, bpms, order, m), second, home)
  }

  /** No stopped row has the kind of a requested machine. */
  ghost predicate KindsApart(bpms: seq<Machine>, order: seq<Machine>, m: seq<Edge>) {
    forall x, b :: x in Surplus(order, m) && b in Missing(bpms, m) ==> KindOf(x) != KindOf(b)
  }

  /** The round pairs everything: it boots and stops nothing. */
  ghost predicate Quiet(bpms: seq<Machine>, final: seq<Machine>, p: Place)
    requires AllIn(bpms, p) && AllIn(final, p)
  {
    Missing(bpms, Pairing(bpms, final, p)) == [] && Surplus(final, Pairing(bpms, final, p)) == []
  }

  /** The table after the first round. */
  ghost function After(rows: Rows, cur: int, p: Place, bpms: seq<Machine>, order: seq<Machine>): Rows
    requires AllIn(bpms, p) && AllIn(order, p)
  {
    Overlay(rows, PlannedRows(cur, bpms, order, Pairing(bpms, order, p)))
  }

  /** `order2` and `final` are orders in which the second round may read the table:
      before its merge and before it pairs with the blueprint. */
  ghost predicate Reads(rows2: Rows, cur2: int, p: Place, second: seq<Machine>, order2: seq<Machine>, final: seq<Machine>)
    requires AllIn(second, p)
  {
    && Enumerates(order2, rows2, p)
    && Enumerates(final, Merged(rows2, cur2, order2, second, Pairing(order2, second, p)), p)
  }

  /** Convergence: if no stopped row has the kind of a requested machine, the next round
      neither boots nor stops anything. */
  lemma NextRoundIsQuiet(rows: Rows, cur: int, p: Place, bpms: seq<Machine>, order: seq<Machine>,
                         first: seq<Machine>, second: seq<Machine>, home: seq<nat>, d: int,
                         rows2: Rows, cur2: int, order2: seq<Machine>, final: seq<Machine>)
    requires FirstRound(rows, cur, p, bpms, order, first, second, home, d)
    requires KindsApart(bpms, order, Pairing(bpms, order, p))
    requires rows2 == After(rows, cur, p, bpms, order) && cur2 == cur + |Missing(bpms, Pairing(bpms, order, p))|
    requires Reads(rows2, cur2, p, second, order2, final)
    ensures Quiet(bpms, final, p)
  {
    var m := Pairing(bpms, order, p);
    PairingIsPlan(bpms, order, p);
    PlannedCoherent(rows, cur, p, bpms, order, m);
    SecondMergeHolds(rows, cur, p, bpms, order, first, second, home, d, order2);
    SecondRoundQuiet(rows2, cur2, cur, p, bpms, order, m, second, home, order2, Pairing(order2, second, p), final, d);
  }

  /** How the rows of the first round stand in the list that the second merge reads. */
  ghost predicate Between(rows2: Rows, p: Place, q: seq<Machine>, stops: seq<Machine>, order2: seq<Machine>, d: int) {
    && Enumerates(order2, rows2, p) && DistinctIDs(q) && CloudIDsDistinct(order2) && OneDisk(order2, d)
    && (forall j :: 0 <= j < |q| ==> q[j] in order2)
    && (forall i :: 0 <= i < |order2| ==> order2[i] in q || order2[i] in stops)
  }

  lemma BetweenHolds(rows: Rows, cur: int, p: Place, bpms: seq<Machine>, order: seq<Machine>, m: seq<Edge>,
                     first: seq<Machine>, order2: seq<Machine>, d: int)
    requires AllIn(bpms, p) && Wished(bpms) && OneDisk(bpms, d) && OneDisk(first, d) && Plan(m, |bpms|, |order|)
    requires Coherent(rows, cur) && Enumerates(order, rows, p) && Mirrors(order, first)
    requires Enumerates(order2, Overlay(rows, PlannedRows(cur, bpms, order, m)), p)
    ensures Between(Overlay(rows, PlannedRows(cur, bpms, order, m)), p, Going(cur, bpms, order, m),
                    StopAll(Surplus(order, m)), order2, d)
  {
    var r, q := PlannedRows(cur, bpms, order, m), Going(cur, bpms, order, m);
    var rows2 := Overlay(rows, r);
    PlannedEnumerates(rows, cur, p, bpms, order, m);
    PlannedCloudIDs(cur, p, bpms, order, m);
    DistinctInAnyOrder(rows2, p, r, order2);
    MirroredDisks(order, first, d);
    PlannedDisks(cur, bpms, order, m, d);
    DisksInAnyOrder(rows2, p, r, order2, d);
    GoingDistinct(rows, cur, p, bpms, order, m);
    forall j: nat | j < |q| ensures q[j] in order2 {
      GoingIsPlanned(cur, bpms, order, m, j);
      var i := SameRows(rows2, p, r, order2, GoingAt(order, m, j));
    }
    forall i: nat | i < |order2| ensures order2[i] in q || order2[i] in StopAll(Surplus(order, m)) {
      var j := SameRows(rows2, p, order2, r, i);
      PlannedGoesOrStops(cur, bpms, order, m, j);
    }
  }

  lemma GoingDistinct(rows: Rows, cur: int, p: Place, bpms: seq<Machine>, order: seq<Machine>, m: seq<Edge>)
    requires Coherent(rows, cur) && Enumerates(order, rows, p) && Plan(m, |bpms|, |order|)
    ensures DistinctIDs(Going(cur, bpms, order, m))
  {
    var q := Going(cur, bpms, order, m);
    PlannedDistinct(rows, cur, p, bpms, order, m);
    forall i: nat, j: nat | i < j < |q| ensures q[i].id != q[j].id {
      GoingIsPlanned(cur, bpms, order, m, i);
      GoingIsPlanned(cur, bpms, order, m, j);
    }
  }

  /** A listing with a place for each of its machines has no other places. */
  lemma HomeOf(h: seq<nat>, n: nat, k: nat) returns (j: nat)
    requires Injective(h, n) && |h| == n && k < n
    ensures j < |h| && h[j] == k
  {
    DistinctSize(h);
    FullSubset(Elements(h), UpTo(n));
    assert k in Elements(h);
    j :| 0 <= j < |h| && h[j] == k;
  }

  /** With the kinds apart, a stopped row is not paired again. */
  lemma StoppedUnpaired(cur: int, p: Place, bpms: seq<Machine>, order: seq<Machine>, m: seq<Edge>,
                        second: seq<Machine>, h: seq<nat>, rows2: Rows, order2: seq<Machine>, d: int, e: Edge)
    requires InRange(m, |bpms|, |order|) && KindsApart(bpms, order, m)
    requires Between(rows2, p, Going(cur, bpms, order, m), StopAll(Surplus(order, m)), order2, d)
    requires Continues(Going(cur, bpms, order, m), |m|, second, h) && Listing(second, p)
    requires e in Pairing(order2, second, p)
    ensures e.l < |order2| && order2[e.l] in Going(cur, bpms, order, m)
  {
    var q := Going(cur, bpms, order, m);
    PairingCompatible(order2, second, p, e);
    var j := HomeOf(h, |second|, e.r);
    if j < |m| {
      KeptPaired(p, q, |m|, order2, second, h, j);
      SameRight(order2, second, p, e, Edge(IndexOf(order2, q[j]), h[j]));
    } else if order2[e.l] !in q {
      StoppedKind(cur, bpms, order, m, j, order2[e.l]);
      assert false;
    }
  }

  lemma StoppedKind(cur: int, bpms: seq<Machine>, order: seq<Machine>, m: seq<Edge>, j: nat, x: Machine)
    requires InRange(m, |bpms|, |order|) && KindsApart(bpms, order, m)
    requires |m| <= j < |Going(cur, bpms, order, m)| && x in StopAll(Surplus(order, m))
    ensures KindOf(x) != KindOf(Going(cur, bpms, order, m)[j])
  {
    var i :| 0 <= i < |Surplus(order, m)| && x == Stop(Surplus(order, m)[i]);
    assert Surplus(order, m)[i] in Surplus(order, m) && Missing(bpms, m)[j - |m|] in Missing(bpms, m);
  }

  lemma SameRight(left: seq<Machine>, right: seq<Machine>, p: Place, e: Edge, f: Edge)
    requires AllIn(left, p) && AllIn(right, p) && e in Pairing(left, right, p) && f in Pairing(left, right, p)
    requires e.r == f.r
    ensures e == f
  {
    ReferenceIsGreedy(MachineGraph(left, right, p));
    assert e in Elements(Pairing(left, right, p)) && f in Elements(Pairing(left, right, p)) && Conflict(e, f);
  }

  lemma PairingCompatible(left: seq<Machine>, right: seq<Machine>, p: Place, e: Edge)
    requires AllIn(left, p) && AllIn(right, p) && e in Pairing(left, right, p)
    ensures Compatible(left, right, e)
  {
    ReferenceIsGreedy(MachineGraph(left, right, p));
    assert e in Elements(Pairing(left, right, p));
  }

  lemma AllGoOn(cur: int, p: Place, bpms: seq<Machine>, order: seq<Machine>, m: seq<Edge>, second: seq<Machine>,
                h: seq<nat>, rows2: Rows, order2: seq<Machine>, d: int)
    requires InRange(m, |bpms|, |order|) && KindsApart(bpms, order, m)
    requires Between(rows2, p, Going(cur, bpms, order, m), StopAll(Surplus(order, m)), order2, d)
    requires Continues(Going(cur, bpms, order, m), |m|, second, h) && Listing(second, p)
    requires |Pairing(order2, second, p)| == |second|
    ensures SecondMerge(rows2, p, Going(cur, bpms, order, m), |m|, order2, second, h, Pairing(order2, second, p))
  {
    var q, m2 := Going(cur, bpms, order, m), Pairing(order2, second, p);
    PairingIsPlan(order2, second, p);
    forall j: nat | j < |m| ensures Edge(IndexOf(order2, q[j]), h[j]) in m2 {
      KeptPaired(p, q, |m|, order2, second, h, j);
    }
    forall a: nat | a < |m2| ensures order2[m2[a].l] in q {
      StoppedUnpaired(cur, p, bpms, order, m, second, h, rows2, order2, d, m2[a]);
    }
  }

  lemma SecondMergeHolds(rows: Rows, cur: int, p: Place, bpms: seq<Machine>, order: seq<Machine>,
                         first: seq<Machine>, second: seq<Machine>, home: seq<nat>, d: int, order2: seq<Machine>)
    requires FirstRound(rows, cur, p, bpms, order, first, second, home, d)
    requires KindsApart(bpms, order, Pairing(bpms, order, p))
    requires Enumerates(order2, After(rows, cur, p, bpms, order), p)
    ensures var m := Pairing(bpms, order, p);
            SecondMerge(After(rows, cur, p, bpms, order), p, Going(cur, bpms, order, m), |m|,
                        order2, second, home, Pairing(order2, second, p))
  {
    var m := Pairing(bpms, order, p);
    PairingIsPlan(bpms, order, p);
    BetweenHolds(rows, cur, p, bpms, order, m, first, order2, d);
    FirstRoundContinues(cur, bpms, order, m, second, home);
    SecondMergePerfect(p, Going(cur, bpms, order, m), |m|, order2, second, home, d);
    AllGoOn(cur, p, bpms, order, m, second, home, After(rows, cur, p, bpms, order), order2, d);
  }

  lemma ReportsFields(row: Machine, cm: Machine)
    requires Reports(row, cm)
    ensures row.cloudID == cm.cloudID && KindOf(row) == KindOf(cm) && row.floatingIP == cm.floatingIP
  {
  }

  lemma OneRowPerCloudID(ms: seq<Machine>, i: nat, n: nat)
    requires CloudIDsDistinct(ms) && i < |ms| && n < |ms| && ms[i].cloudID == ms[n].cloudID != EMPTY
    ensures i == n
  {
  }

  /** The row that shows machine `second[h[j]]` has the role of row `j`. */
  lemma RoleOfFinal(q: seq<Machine>, second: seq<Machine>, h: seq<nat>, final: seq<Machine>, i: nat, j: nat)
    requires CloudIDsDistinct(final) && i < |final| && j < |q| && |h| == |q| && h[j] < |second|
    requires Reports(final[i], second[h[j]]) && second[h[j]].cloudID != EMPTY && Found(final, second[h[j]], q[j])
    ensures final[i].role == q[j].role
  {
    ReportsFields(final[i], second[h[j]]);
    OneRowPerCloudID(final, i, Standing(final, second[h[j]], q[j]));
  }

  lemma RowUnanchored(bpms: seq<Machine>, q: seq<Machine>, second: seq<Machine>, h: seq<nat>, final: seq<Machine>,
                      b: nat, i: nat, j: nat)
    requires IPsFollowRoles(bpms, q, second, h) && b < |bpms| && i < |final| && j < |q|
    requires Reports(final[i], second[h[j]]) && final[i].role == q[j].role && second[h[j]].role == NoRole
    ensures !Anchors(bpms[b], final[i])
  {
    ReportsFields(final[i], second[h[j]]);
    assert q[j].role == NoRole ==> !Anchors(bpms[b], second[h[j]]);
  }

  lemma FinalUnanchored(p: Place, bpms: seq<Machine>, q: seq<Machine>, second: seq<Machine>, h: seq<nat>, final: seq<Machine>)
    requires Listing(second, p) && Mirrors(final, second) && |q| == |second| && IPsFollowRoles(bpms, q, second, h)
    requires forall j :: 0 <= j < |q| ==> Found(final, second[h[j]], q[j])
    ensures Unanchored(bpms, final)
  {
    forall b: nat, i: nat | b < |bpms| && i < |final| ensures !Anchors(bpms[b], final[i]) {
      var j := HomeOfRow(final[i], second, h);
      RoleOfFinal(q, second, h, final, i, j);
      RowUnanchored(bpms, q, second, h, final, b, i, j);
    }
  }

  lemma HomeOfRow(row: Machine, second: seq<Machine>, h: seq<nat>) returns (j: nat)
    requires Backed(row, second) && Injective(h, |second|) && |h| == |second|
    ensures j < |h| && h[j] < |second| && Reports(row, second[h[j]])
  {
    var k :| 0 <= k < |second| && Reports(row, second[k]);
    j := HomeOf(h, |second|, k);
  }

  lemma SecondRoundQuiet(rows2: Rows, cur2: int, cur: int, p: Place, bpms: seq<Machine>, order: seq<Machine>, m: seq<Edge>,
                         second: seq<Machine>, h: seq<nat>, order2: seq<Machine>, m2: seq<Edge>,
                         final: seq<Machine>, d: int)
    requires AllIn(bpms, p) && AllIn(order, p) && Wished(bpms) && OneDisk(bpms, d) && OneDisk(second, d)
    requires m == Pairing(bpms, order, p) && IPsFollowRoles(bpms, Going(cur, bpms, order, m), second, h)
    requires Coherent(rows2, cur2) && SecondMerge(rows2, p, Going(cur, bpms, order, m), |m|, order2, second, h, m2)
    requires m2 == Pairing(order2, second, p) && Enumerates(final, Merged(rows2, cur2, order2, second, m2), p)
    ensures Quiet(bpms, final, p)
  {
    var q := Going(cur, bpms, order, m);
    RowsNow(rows2, cur2, p, q, |m|, order2, second, h, m2, final);
    var at := WhereNow(p, q, second, h, final);
    SyncOneToOne(rows2, cur2, p, order2, second, final);
    FinalUnanchored(p, bpms, q, second, h, final);
    MirroredDisks(final, second, d);
    PairingIsPlan(bpms, order, p);
    forall j: nat | j < |m| ensures Compatible(bpms, order, m[j]) {
      PairingCompatible(bpms, order, p, m[j]);
    }
    FinalPairing(cur, p, bpms, order, m, final, at, d);
  }

  lemma FinalPairing(cur: int, p: Place, bpms: seq<Machine>, order: seq<Machine>, m: seq<Edge>,
                     final: seq<Machine>, at: seq<nat>, d: int)
    requires AllIn(bpms, p) && AllIn(final, p) && Wished(bpms) && Unanchored(bpms, final) && OneDisk(bpms, d) && OneDisk(final, d)
    requires Plan(m, |bpms|, |order|)
    requires forall a :: 0 <= a < |m| ==> Compatible(bpms, order, m[a])
    requires var q := Going(cur, bpms, order, m);
             && |at| == |q| == |final| && Injective(at, |final|)
             && forall j :: 0 <= j < |q| ==> KindOf(final[at[j]]) == KindOf(q[j]) && final[at[j]].role == q[j].role
    ensures Quiet(bpms, final, p)
  {
    var q := Going(cur, bpms, order, m);
    PlanSizes(|bpms|, |order|, m);
    forall j: nat | j < |q| ensures Fits(bpms[MadeFor(|bpms|, m, j)], q[j]) {
      GoingFits(cur, bpms, order, m, j);
    }
    SecondRoundPerfect(p, bpms, m, |order|, q, final, at, d);
    PairingIsPlan(bpms, final, p);
    PlanSizes(|bpms|, |final|, Pairing(bpms, final, p));
  }
}
