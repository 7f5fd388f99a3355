/** When a round that stops machines is followed by a quiet one. */
module CloudStops {
  import opened Prelude
  import opened Matching
  import opened RoleMatching
  import opened Join
  import opened Machines
  import opened DesiredMachines
  import opened CloudSync
  import opened CloudKeep
  import opened BlueprintPlan
  import opened CloudRounds
  import opened FloatingIPs

  /** Every order of reading the table makes the round a quiet one. */
  ghost predicate AlwaysQuiet(rows2: Rows, cur2: int, p: Place, bpms: seq<Machine>, second: seq<Machine>)
    requires AllIn(bpms, p) && AllIn(second, p)
  {
    forall order2, final :: Reads(rows2, cur2, p, second, order2, final) ==> Quiet(bpms, final, p)
  }

  // ------------------------------------------------ a list with the stopped rows first

  ghost function StopsFirst(cur: int, bpms: seq<Machine>, order: seq<Machine>, m: seq<Edge>): seq<Machine>
    requires InRange(m, |bpms|, |order|)
  {
    StopAll(Surplus(order, m)) + Going(cur, bpms, order, m)
  }

  /** Where row `i` of it stands in the plan. */
  ghost function InPlan(order: seq<Machine>, m: seq<Edge>, i: nat): nat {
    Rotated(|m|, |Surplus(order, m)|, i)
  }

  lemma StopsFirstIsPlanned(cur: int, bpms: seq<Machine>, order: seq<Machine>, m: seq<Edge>, i: nat)
    requires InRange(m, |bpms|, |order|) && i < |StopsFirst(cur, bpms, order, m)|
    ensures InPlan(order, m, i) < |PlannedRows(cur, bpms, order, m)|
    ensures PlannedRows(cur, bpms, order, m)[InPlan(order, m, i)] == StopsFirst(cur, bpms, order, m)[i]
  {
    Concat3Rotated(RefreshAll(PairUp(bpms, order, m)), StopAll(Surplus(order, m)), BootRows(cur, Missing(bpms, m)), i);
  }

  lemma PlannedIsStopsFirst(cur: int, bpms: seq<Machine>, order: seq<Machine>, m: seq<Edge>, i: nat)
    requires InRange(m, |bpms|, |order|) && i < |PlannedRows(cur, bpms, order, m)|
    ensures PlannedRows(cur, bpms, order, m)[i] in StopsFirst(cur, bpms, order, m)
  {
    PlannedGoesOrStops(cur, bpms, order, m, i);
  }

  /** A list of the same rows in another order lists the table as well. */
  lemma Rearranged(rows: Rows, p: Place, r: seq<Machine>, t: seq<Machine>)
    requires Enumerates(r, rows, p) && DistinctIDs(t)
    requires forall i :: 0 <= i < |t| ==> t[i] in r
    requires forall i :: 0 <= i < |r| ==> r[i] in t
    ensures Enumerates(t, rows, p)
  {
    forall id | id in rows && PlaceOf(rows[id]) == p ensures id in IDs(t) {
      var i := IDAt(r, id);
      assert r[i] in t;
    }
  }

  lemma RotatedDistinct(r: seq<Machine>, t: seq<Machine>, n: nat, k: nat)
    requires DistinctIDs(r) && n + k <= |r|
    requires forall i: nat :: i < |t| ==> Rotated(n, k, i) < |r| && t[i] == r[Rotated(n, k, i)]
    ensures DistinctIDs(t)
  {
    forall i: nat, j: nat | i < j < |t| ensures t[i].id != t[j].id {
      assert Rotated(n, k, i) != Rotated(n, k, j);
    }
  }

  lemma StopsFirstDistinct(cur: int, bpms: seq<Machine>, order: seq<Machine>, m: seq<Edge>)
    requires InRange(m, |bpms|, |order|) && DistinctIDs(PlannedRows(cur, bpms, order, m))
    ensures DistinctIDs(StopsFirst(cur, bpms, order, m))
  {
    var r, t, k := PlannedRows(cur, bpms, order, m), StopsFirst(cur, bpms, order, m), |Surplus(order, m)|;
    forall i: nat | i < |t| ensures Rotated(|m|, k, i) < |r| && t[i] == r[Rotated(|m|, k, i)] {
      StopsFirstIsPlanned(cur, bpms, order, m, i);
    }
    RotatedDistinct(r, t, |m|, k);
  }

  lemma StopsFirstEnumerates(rows: Rows, cur: int, p: Place, bpms: seq<Machine>, order: seq<Machine>, m: seq<Edge>)
    requires Coherent(rows, cur) && Enumerates(order, rows, p) && AllIn(bpms, p) && Plan(m, |bpms|, |order|)
    ensures Enumerates(StopsFirst(cur, bpms, order, m), Overlay(rows, PlannedRows(cur, bpms, order, m)), p)
  {
    var r, t := PlannedRows(cur, bpms, order, m), StopsFirst(cur, bpms, order, m);
    PlannedEnumerates(rows, cur, p, bpms, order, m);
    forall i: nat | i < |t| ensures t[i] in r {
      StopsFirstIsPlanned(cur, bpms, order, m, i);
    }
    forall i: nat | i < |r| ensures r[i] in t {
      PlannedIsStopsFirst(cur, bpms, order, m, i);
    }
    StopsFirstDistinct(cur, bpms, order, m);
    Rearranged(Overlay(rows, r), p, r, t);
  }

  // -------------------------------------------- a stopped row takes a new machine

  /** `t` lists `c` rows and then those of `q`, which continue in `second`. */
  ghost predicate Meets(p: Place, q: seq<Machine>, n: nat, c: nat, t: seq<Machine>, second: seq<Machine>, h: seq<nat>, d: int) {
    && Continues(q, n, second, h) && Listing(second, p)
    && AllIn(t, p) && DistinctIDs(t) && CloudIDsDistinct(t) && OneDisk(t, d) && OneDisk(second, d)
    && |t| == c + |q| && (forall i :: c <= i < |t| ==> t[i] == q[i - c])
    && NoneAsksForIt(q, n, second, h)
  }

  /** No booting row asks for a floating IP that a machine has which a booting row of
      its kind waits for. */
  ghost predicate NoneAsksForIt(q: seq<Machine>, n: nat, second: seq<Machine>, h: seq<nat>) {
    |h| == |q| && Injective(h, |second|) &&
    forall i, j :: n <= i < |q| && n <= j < |q| && KindOf(q[i]) == KindOf(second[h[j]]) && q[i].floatingIP != EMPTY ==>
      q[i].floatingIP != second[h[j]].floatingIP
  }

  /** A kept row is paired with its own machine. */
  lemma KeptHasOwn(p: Place, q: seq<Machine>, n: nat, c: nat, t: seq<Machine>, second: seq<Machine>, h: seq<nat>, d: int, i: nat)
    requires Meets(p, q, n, c, t, second, h, d) && c <= i < c + n
    ensures Edge(i, h[i - c]) in Pairing(t, second, p)
  {
    ListedOnce(t, i);
    KeptPaired(p, q, n, t, second, h, i - c);
  }

  lemma SameLeft(left: seq<Machine>, right: seq<Machine>, p: Place, e: Edge, f: Edge)
    requires AllIn(left, p) && AllIn(right, p) && e in Pairing(left, right, p) && f in Pairing(left, right, p)
    requires e.l == f.l
    ensures e == f
  {
    ReferenceIsGreedy(MachineGraph(left, right, p));
    assert e in Elements(Pairing(left, right, p)) && f in Elements(Pairing(left, right, p)) && Conflict(e, f);
  }

  lemma KeptHasOnlyOwn(p: Place, q: seq<Machine>, n: nat, c: nat, t: seq<Machine>, second: seq<Machine>, h: seq<nat>, d: int,
                       f: Edge, own: Edge)
    requires Meets(p, q, n, c, t, second, h, d) && f in Pairing(t, second, p) && c <= f.l < c + n
    requires own == Edge(f.l, h[f.l - c])
    ensures f == own
  {
    KeptHasOwn(p, q, n, c, t, second, h, d, f.l);
    SameLeft(t, second, p, f, own);
  }

  /** A booting row has no claim on a machine before any other row. */
  lemma BootingComesLast(p: Place, q: seq<Machine>, n: nat, c: nat, t: seq<Machine>, second: seq<Machine>, h: seq<nat>, d: int,
                         e: Edge, f: Edge, j: nat)
    requires Meets(p, q, n, c, t, second, h, d) && n <= j < |q| && f.r == h[j]
    requires e in MachineGraph(t, second, p) && f in MachineGraph(t, second, p) && e.l < c <= f.l && n <= f.l - c
    ensures !Before(MachineGraph(t, second, p), f, e)
  {
    var g := MachineGraph(t, second, p);
    assert Compatible(t, second, e) && Compatible(t, second, f);
    assert t[f.l] == q[f.l - c];
    assert g[f] == 10 && g[e] <= 10;
  }

  /** If a row before `q` has the kind of a machine that a booting row waits for, some
      such row is paired. */
  lemma SomeStoppedPaired(p: Place, q: seq<Machine>, n: nat, c: nat, t: seq<Machine>, second: seq<Machine>, h: seq<nat>, d: int,
                          i: nat, j: nat) returns (e: Edge)
    requires Meets(p, q, n, c, t, second, h, d) && i < c && n <= j < |q| && KindOf(t[i]) == KindOf(q[j])
    ensures e in Pairing(t, second, p) && e.l < c && KindOf(t[e.l]) == KindOf(q[j])
  {
    var g, m := MachineGraph(t, second, p), Elements(Pairing(t, second, p));
    ReferenceIsGreedy(g);
    e := Edge(i, h[j]);
    assert DiskFits(t[i], second[h[j]]);
    assert Compatible(t, second, e);
    if e !in m {
      var f :| f in m && Conflict(e, f) && Before(g, f, e);
      OnlyStoppedBlocks(p, q, n, c, t, second, h, d, i, j, f);
      e := f;
    }
  }

  lemma OnlyStoppedBlocks(p: Place, q: seq<Machine>, n: nat, c: nat, t: seq<Machine>, second: seq<Machine>, h: seq<nat>, d: int,
                          i: nat, j: nat, f: Edge)
    requires Meets(p, q, n, c, t, second, h, d) && i < c && n <= j < |q| && KindOf(t[i]) == KindOf(q[j])
    requires Edge(i, h[j]) in MachineGraph(t, second, p) && f in MachineGraph(t, second, p) && f in Pairing(t, second, p)
    requires Conflict(Edge(i, h[j]), f) && Before(MachineGraph(t, second, p), f, Edge(i, h[j]))
    ensures f.l < c && KindOf(t[f.l]) == KindOf(q[j])
  {
    assert Compatible(t, second, f);
    if f.l >= c {
      if f.l - c < n {
        KeptHasOnlyOwn(p, q, n, c, t, second, h, d, f, Edge(f.l, h[f.l - c]));
      } else {
        BootingComesLast(p, q, n, c, t, second, h, d, Edge(i, h[j]), f, j);
      }
    }
  }

  // ------------------------------------------------------------------ too many rows

  /** The rows of a kind and role that the merge pairs. */
  ghost function Merging(t: seq<Machine>, second: seq<Machine>, p: Place, k: Kind, s: Role): (b: set<nat>)
    requires AllIn(t, p) && AllIn(second, p)
    ensures forall l :: l in b <==> l in Of(t, k, s) && !Free(Paired(t, second, p), l)
  {
    set l | l in Of(t, k, s) && !Free(Paired(t, second, p), l)
  }

  /** A stopped row beside a missing machine of its kind has a role, and all blueprint
      machines of that kind and role are paired with rows of that role. */
  lemma StoppedHasRole(bpms: seq<Machine>, order: seq<Machine>, p: Place, u: nat, w: nat)
    requires Comparable(bpms, order, p) && u < |bpms| && w < |order| && KindOf(bpms[u]) == KindOf(order[w])
    requires Free(Paired(bpms, order, p), u) && FreeRight(Paired(bpms, order, p), w)
    ensures order[w].role != NoRole
  {
    if order[w].role == NoRole {
      FreeWishMeansPaired(bpms, order, p, u, w);
    }
  }

  lemma RoleIsServed(bpms: seq<Machine>, order: seq<Machine>, p: Place, w: nat, v: nat)
    requires Comparable(bpms, order, p) && Unanchored(bpms, order) && w < |order| && FreeRight(Paired(bpms, order, p), w)
    requires v in Of(bpms, KindOf(order[w]), order[w].role)
    ensures !Free(Paired(bpms, order, p), v)
    ensures RowOf(Paired(bpms, order, p), v) in Of(order, KindOf(order[w]), order[w].role)
  {
    FreeRowMeansPaired(bpms, order, p, v, w);
    PairAgrees(bpms, order, p, Edge(v, RowOf(Paired(bpms, order, p), v)));
  }

  /** Blueprint machine `v` of the stopped row's kind and role has a kept row. */
  lemma ServedIsKept(cur: int, p: Place, bpms: seq<Machine>, order: seq<Machine>, m: seq<Edge>, w: nat, v: nat) returns (a: nat)
    requires Comparable(bpms, order, p) && Unanchored(bpms, order) && m == Pairing(bpms, order, p)
    requires w < |order| && FreeRight(Paired(bpms, order, p), w) && v in Of(bpms, KindOf(order[w]), order[w].role)
    ensures a < |m| && m[a].l == v
    ensures var x := Going(cur, bpms, order, m)[a]; KindOf(x) == KindOf(order[w]) && x.role == order[w].role
  {
    RoleIsServed(bpms, order, p, w, v);
    a := IndexOf(m, Edge(v, RowOf(Paired(bpms, order, p), v)));
    KeptRow(cur, bpms, order, m, a);
  }

  lemma KeptRow(cur: int, bpms: seq<Machine>, order: seq<Machine>, m: seq<Edge>, a: nat)
    requires InRange(m, |bpms|, |order|) && a < |m|
    ensures var x := Going(cur, bpms, order, m)[a]; KindOf(x) == KindOf(order[m[a].r]) && x.role == order[m[a].r].role
  {
    PlanKeepsFields(bpms[m[a].l], order[m[a].r]);
  }

  lemma KeptMerges(p: Place, q: seq<Machine>, n: nat, c: nat, t: seq<Machine>, second: seq<Machine>, h: seq<nat>, d: int, l: nat)
    requires Meets(p, q, n, c, t, second, h, d) && c <= l < c + n
    ensures l in Merging(t, second, p, KindOf(q[l - c]), q[l - c].role)
  {
    KeptHasOwn(p, q, n, c, t, second, h, d, l);
    assert Edge(l, h[l - c]) in Paired(t, second, p);
  }

  /** ... which is merged again. */
  lemma KeptIsPlaced(p: Place, m: seq<Edge>, q: seq<Machine>, c: nat, t: seq<Machine>, second: seq<Machine>, h: seq<nat>, d: int,
                     a: nat, l: nat)
    requires Meets(p, q, |m|, c, t, second, h, d) && a < |m| && l == c + a
    ensures PlacedAt(m, c, Merging(t, second, p, KindOf(q[a]), q[a].role), m[a].l, l)
  {
    assert l - c == a;
    KeptMerges(p, q, |m|, c, t, second, h, d, l);
  }

  /** So one more row of that kind and role is merged than the blueprint has machines. */
  lemma MoreMergingThanWished(cur: int, p: Place, bpms: seq<Machine>, order: seq<Machine>, m: seq<Edge>, c: nat, t: seq<Machine>,
                              second: seq<Machine>, h: seq<nat>, d: int, w: nat, i: nat)
    requires Comparable(bpms, order, p) && Unanchored(bpms, order) && m == Pairing(bpms, order, p)
    requires Meets(p, Going(cur, bpms, order, m), |m|, c, t, second, h, d)
    requires w < |order| && FreeRight(Paired(bpms, order, p), w)
    requires i < c && i in Merging(t, second, p, KindOf(order[w]), order[w].role)
    ensures |Of(bpms, KindOf(order[w]), order[w].role)| < |Merging(t, second, p, KindOf(order[w]), order[w].role)|
  {
    var k, s := KindOf(order[w]), order[w].role;
    var b := Merging(t, second, p, k, s);
    forall v | v in Of(bpms, k, s) ensures Placed(m, c, b, v) {
      var a := ServedIsKept(cur, p, bpms, order, m, w, v);
      KeptIsPlaced(p, m, Going(cur, bpms, order, m), c, t, second, h, d, a, c + a);
    }
    PlacedBound(m, c, Of(bpms, k, s), b, i);
  }

  ghost predicate PlacedAt(m: seq<Edge>, c: nat, b: set<nat>, v: nat, l: nat) {
    c <= l < c + |m| && m[l - c].l == v && l in b
  }

  ghost predicate Placed(m: seq<Edge>, c: nat, b: set<nat>, v: nat) {
    exists l: nat :: PlacedAt(m, c, b, v, l)
  }

  ghost function PlaceFor(m: seq<Edge>, c: nat, b: set<nat>, v: nat): (l: nat)
    requires Placed(m, c, b, v)
    ensures PlacedAt(m, c, b, v, l)
  {
    var l: nat :| PlacedAt(m, c, b, v, l);
    l
  }

  lemma PlacedBound(m: seq<Edge>, c: nat, s: set<nat>, b: set<nat>, i: nat)
    requires (forall v :: v in s ==> Placed(m, c, b, v)) && i in b && i < c
    ensures |s| < |b|
  {
    var f := map v | v in s :: PlaceFor(m, c, b, v);
    assert f.Keys == s;
    InjectionBoundsSize(f, b - {i});
  }

  // ---------------------------------------------------------- so some row is stopped

  /** After a quiet round each merged row of a known role has a blueprint machine of its
      own. */
  lemma MergedIsWished(cur2: int, p: Place, bpms: seq<Machine>, t: seq<Machine>, second: seq<Machine>, m2: seq<Edge>,
                       final: seq<Machine>, k: Kind, s: Role, l: nat) returns (a: nat)
    requires AllIn(t, p) && AllIn(second, p) && m2 == Pairing(t, second, p)
    requires final == Slots(cur2, t, second, m2) && Comparable(bpms, final, p) && Quiet(bpms, final, p) && s != NoRole
    requires l in Merging(t, second, p, k, s)
    ensures a < |m2| && m2[a].l == l && !FreeRight(Paired(bpms, final, p), a)
    ensures WishOf(Paired(bpms, final, p), a) in Of(bpms, k, s)
  {
    var e := Edge(l, RowOf(Paired(t, second, p), l));
    a := IndexOf(m2, e);
    SlotIs(cur2, t, second, m2, a);
    PairingCompatible(t, second, p, e);
    QuietPairs(bpms, final, p, a);
    PairAgrees(bpms, final, p, Edge(WishOf(Paired(bpms, final, p), a), a));
  }

  lemma QuietPairs(bpms: seq<Machine>, final: seq<Machine>, p: Place, a: nat)
    requires AllIn(bpms, p) && AllIn(final, p) && Quiet(bpms, final, p) && a < |final|
    ensures !FreeRight(Paired(bpms, final, p), a)
  {
    var m := Pairing(bpms, final, p);
    assert a !in Unused(|final|, Rights(m));
    var b :| 0 <= b < |m| && m[b].r == a;
    assert m[b] in Paired(bpms, final, p);
  }

  ghost predicate GivenTo(m2: seq<Edge>, w: set<Edge>, wished: set<nat>, l: nat, a: nat) {
    a < |m2| && m2[a].l == l && !FreeRight(w, a) && WishOf(w, a) in wished
  }

  ghost function Given(m2: seq<Edge>, w: set<Edge>, wished: set<nat>, l: nat): (a: nat)
    requires exists a: nat :: GivenTo(m2, w, wished, l, a)
    ensures GivenTo(m2, w, wished, l, a)
  {
    var a: nat :| GivenTo(m2, w, wished, l, a);
    a
  }

  lemma GivenBound(m2: seq<Edge>, w: set<Edge>, wished: set<nat>, b: set<nat>)
    requires IsMatching(w) && forall l :: l in b ==> exists a: nat :: GivenTo(m2, w, wished, l, a)
    ensures |b| <= |wished|
  {
    var f := map l | l in b :: WishOf(w, Given(m2, w, wished, l));
    forall x, y | x in f && y in f && f[x] == f[y] ensures x == y {
      var e, e' := Edge(f[x], Given(m2, w, wished, x)), Edge(f[y], Given(m2, w, wished, y));
      assert Conflict(e, e');
    }
    assert f.Keys == b;
    InjectionBoundsSize(f, wished);
  }

  lemma QuietBoundsMerging(cur2: int, p: Place, bpms: seq<Machine>, t: seq<Machine>, second: seq<Machine>, m2: seq<Edge>,
                           final: seq<Machine>, k: Kind, s: Role)
    requires AllIn(t, p) && AllIn(second, p) && m2 == Pairing(t, second, p)
    requires final == Slots(cur2, t, second, m2) && Comparable(bpms, final, p) && Quiet(bpms, final, p) && s != NoRole
    ensures |Merging(t, second, p, k, s)| <= |Of(bpms, k, s)|
  {
    var w, wished := Paired(bpms, final, p), Of(bpms, k, s);
    PairedIsMatching(bpms, final, p);
    forall l | l in Merging(t, second, p, k, s) ensures exists a: nat :: GivenTo(m2, w, wished, l, a) {
      var a := MergedIsWished(cur2, p, bpms, t, second, m2, final, k, s, l);
      assert GivenTo(m2, w, wished, l, a);
    }
    GivenBound(m2, w, wished, Merging(t, second, p, k, s));
  }

  // -------------------------------------------------------------------- the theorem

  /** What the second round meets if it reads the stopped rows first. */
  lemma StopsFirstMeets(rows: Rows, cur: int, p: Place, bpms: seq<Machine>, order: seq<Machine>, m: seq<Edge>,
                        first: seq<Machine>, second: seq<Machine>, home: seq<nat>, d: int, t: seq<Machine>)
    requires FirstRound(rows, cur, p, bpms, order, first, second, home, d) && m == Pairing(bpms, order, p)
    requires InRange(m, |bpms|, |order|) && t == StopsFirst(cur, bpms, order, m)
    ensures Enumerates(t, After(rows, cur, p, bpms, order), p)
    ensures Meets(p, Going(cur, bpms, order, m), |m|, |Surplus(order, m)|, t, second, home, d)
  {
    PairingIsPlan(bpms, order, p);
    StopsFirstEnumerates(rows, cur, p, bpms, order, m);
    BetweenHolds(rows, cur, p, bpms, order, m, first, t, d);
    FirstRoundContinues(cur, bpms, order, m, second, home);
    BootsAskForNoneOfThese(cur, bpms, order, m, second, home);
    BetweenMeets(After(rows, cur, p, bpms, order), p, Going(cur, bpms, order, m), |m|, StopAll(Surplus(order, m)), t,
                 second, home, d);
  }

  lemma BetweenMeets(rows2: Rows, p: Place, q: seq<Machine>, n: nat, stops: seq<Machine>, t: seq<Machine>,
                     second: seq<Machine>, h: seq<nat>, d: int)
    requires Between(rows2, p, q, stops, t, d) && t == stops + q
    requires Continues(q, n, second, h) && Listing(second, p) && OneDisk(second, d)
    requires NoneAsksForIt(q, n, second, h)
    ensures Meets(p, q, n, |stops|, t, second, h, d)
  {
  }

  lemma BootAsksForNoneOfThese(cur: int, bpms: seq<Machine>, order: seq<Machine>, m: seq<Edge>,
                               second: seq<Machine>, h: seq<nat>, i: nat, j: nat)
    requires InRange(m, |bpms|, |order|) && NoRoles(second) && IPsFollowRoles(bpms, Going(cur, bpms, order, m), second, h)
    requires var q := Going(cur, bpms, order, m);
             |m| <= i < |q| && |m| <= j < |q| && KindOf(q[i]) == KindOf(second[h[j]]) && q[i].floatingIP != EMPTY
    ensures Going(cur, bpms, order, m)[i].floatingIP != second[h[j]].floatingIP
  {
    var b := Unused(|bpms|, Lefts(m))[i - |m|];
    assert Missing(bpms, m)[i - |m|] == bpms[b];
    assert Going(cur, bpms, order, m)[j].role == NoRole;
    assert !Anchors(bpms[b], second[h[j]]);
  }

  lemma BootsAskForNoneOfThese(cur: int, bpms: seq<Machine>, order: seq<Machine>, m: seq<Edge>,
                               second: seq<Machine>, h: seq<nat>)
    requires InRange(m, |bpms|, |order|) && NoRoles(second) && IPsFollowRoles(bpms, Going(cur, bpms, order, m), second, h)
    ensures NoneAsksForIt(Going(cur, bpms, order, m), |m|, second, h)
  {
    var q := Going(cur, bpms, order, m);
    forall i, j | |m| <= i < |q| && |m| <= j < |q| && KindOf(q[i]) == KindOf(second[h[j]]) && q[i].floatingIP != EMPTY
      ensures q[i].floatingIP != second[h[j]].floatingIP
    {
      BootAsksForNoneOfThese(cur, bpms, order, m, second, h, i, j);
    }
  }

  /** Rows without disagreement on disks are comparable with the blueprint. */
  lemma OneDiskComparable(bpms: seq<Machine>, ms: seq<Machine>, p: Place, d: int)
    requires AllIn(bpms, p) && AllIn(ms, p) && Wished(bpms) && OneDisk(bpms, d) && OneDisk(ms, d)
    ensures Comparable(bpms, ms, p)
  {
  }

  /** The missing machine and the stopped row that meet, as indices. */
  lemma Unpaired(bpms: seq<Machine>, order: seq<Machine>, p: Place, i: nat, j: nat)
    requires AllIn(bpms, p) && AllIn(order, p)
    ensures var m := Pairing(bpms, order, p);
            && (i < |Surplus(order, m)| ==>
                  var w := Unused(|order|, Rights(m))[i];
                  w < |order| && Surplus(order, m)[i] == order[w] && FreeRight(Paired(bpms, order, p), w))
            && (j < |Missing(bpms, m)| ==>
                  var u := Unused(|bpms|, Lefts(m))[j];
                  u < |bpms| && Missing(bpms, m)[j] == bpms[u] && Free(Paired(bpms, order, p), u))
  {
    var m := Pairing(bpms, order, p);
    if i < |Surplus(order, m)| {
      var w := Unused(|order|, Rights(m))[i];
      assert w in Unused(|order|, Rights(m)) && w !in Rights(m);
    }
    if j < |Missing(bpms, m)| {
      var u := Unused(|bpms|, Lefts(m))[j];
      assert u in Unused(|bpms|, Lefts(m)) && u !in Lefts(m);
    }
  }

  /** A stopped row that was merged again makes one row too many. */
  lemma TooMany(cur: int, cur2: int, p: Place, bpms: seq<Machine>, order: seq<Machine>, m: seq<Edge>, t: seq<Machine>,
                second: seq<Machine>, h: seq<nat>, d: int, e: Edge, j: nat, final: seq<Machine>)
    requires Comparable(bpms, order, p) && Unanchored(bpms, order) && m == Pairing(bpms, order, p)
    requires InRange(m, |bpms|, |order|) && t == StopsFirst(cur, bpms, order, m)
    requires Meets(p, Going(cur, bpms, order, m), |m|, |Surplus(order, m)|, t, second, h, d)
    requires final == Slots(cur2, t, second, Pairing(t, second, p)) && Comparable(bpms, final, p)
    requires e in Pairing(t, second, p) && e.l < |Surplus(order, m)| && j < |Missing(bpms, m)|
    requires KindOf(t[e.l]) == KindOf(Missing(bpms, m)[j])
    ensures !Quiet(bpms, final, p)
  {
    var c, w, u := |Surplus(order, m)|, Unused(|order|, Rights(m))[e.l], Unused(|bpms|, Lefts(m))[j];
    Unpaired(bpms, order, p, e.l, j);
    StoppedHasRole(bpms, order, p, u, w);
    var k, s := KindOf(order[w]), order[w].role;
    assert e in Paired(t, second, p);
    assert e.l in Merging(t, second, p, k, s);
    MoreMergingThanWished(cur, p, bpms, order, m, c, t, second, h, d, w, e.l);
    if Quiet(bpms, final, p) {
      QuietBoundsMerging(cur2, p, bpms, t, second, Pairing(t, second, p), final, k, s);
    }
  }

  lemma FinalComparable(rows2: Rows, cur2: int, p: Place, bpms: seq<Machine>, t: seq<Machine>, second: seq<Machine>,
                        final: seq<Machine>, d: int)
    requires Coherent(rows2, cur2) && Enumerates(t, rows2, p) && Listing(second, p)
    requires AllIn(bpms, p) && Wished(bpms) && OneDisk(bpms, d) && OneDisk(second, d)
    requires final == Slots(cur2, t, second, Pairing(t, second, p))
    ensures Reads(rows2, cur2, p, second, t, final) && Comparable(bpms, final, p)
  {
    PairingIsPlan(t, second, p);
    MergedRows(rows2, cur2, p, t, second, Pairing(t, second, p));
    SlotsMirror(cur2, p, t, second, Pairing(t, second, p));
    MirroredDisks(final, second, d);
    OneDiskComparable(bpms, final, p, d);
  }

  lemma MeetingKinds(cur: int, bpms: seq<Machine>, order: seq<Machine>, m: seq<Edge>) returns (i: nat, j: nat)
    requires InRange(m, |bpms|, |order|) && !KindsApart(bpms, order, m)
    ensures i < |Surplus(order, m)| && j < |Missing(bpms, m)|
    ensures KindOf(StopsFirst(cur, bpms, order, m)[i])
         == KindOf(Going(cur, bpms, order, m)[|m| + j]) == KindOf(Missing(bpms, m)[j])
  {
    var x, b :| x in Surplus(order, m) && b in Missing(bpms, m) && KindOf(x) == KindOf(b);
    i :| 0 <= i < |Surplus(order, m)| && Surplus(order, m)[i] == x;
    j :| 0 <= j < |Missing(bpms, m)| && Missing(bpms, m)[j] == b;
  }

  /** If a stopped row has the kind of a requested machine, some order of reading the
      table lets it take that machine; then the next round is not quiet. */
  lemma MeetingKindsAreNotQuiet(rows: Rows, cur: int, p: Place, bpms: seq<Machine>, order: seq<Machine>, m: seq<Edge>,
                                first: seq<Machine>, second: seq<Machine>, home: seq<nat>, d: int,
                                rows2: Rows, cur2: int) returns (order2: seq<Machine>, final: seq<Machine>)
    requires FirstRound(rows, cur, p, bpms, order, first, second, home, d) && m == Pairing(bpms, order, p)
    requires rows2 == After(rows, cur, p, bpms, order) && cur2 == cur + |Missing(bpms, m)| && !KindsApart(bpms, order, m)
    ensures Reads(rows2, cur2, p, second, order2, final) && !Quiet(bpms, final, p)
  {
    var c := |Surplus(order, m)|;
    PairingIsPlan(bpms, order, p);
    order2 := StopsFirst(cur, bpms, order, m);
    StopsFirstMeets(rows, cur, p, bpms, order, m, first, second, home, d, order2);
    var i, j := MeetingKinds(cur, bpms, order, m);
    var e := SomeStoppedPaired(p, Going(cur, bpms, order, m), |m|, c, order2, second, home, d, i, |m| + j);
    final := Slots(cur2, order2, second, Pairing(order2, second, p));
    PlannedCoherent(rows, cur, p, bpms, order, m);
    FinalComparable(rows2, cur2, p, bpms, order2, second, final, d);
    MirroredDisks(order, first, d);
    OneDiskComparable(bpms, order, p, d);
    TooMany(cur, cur2, p, bpms, order, m, order2, second, home, d, e, j, final);
  }

  /** The next round boots and stops nothing, in whatever orders the table is read,
      exactly if no stopped row has the kind of a requested machine. */
  lemma QuietIffKindsApart(rows: Rows, cur: int, p: Place, bpms: seq<Machine>, order: seq<Machine>, m: seq<Edge>,
                           first: seq<Machine>, second: seq<Machine>, home: seq<nat>, d: int, rows2: Rows, cur2: int)
    requires FirstRound(rows, cur, p, bpms, order, first, second, home, d) && m == Pairing(bpms, order, p)
    requires rows2 == After(rows, cur, p, bpms, order) && cur2 == cur + |Missing(bpms, m)|
    ensures AlwaysQuiet(rows2, cur2, p, bpms, second) <==> KindsApart(bpms, order, m)
  {
    if KindsApart(bpms, order, m) {
      forall order2, final | Reads(rows2, cur2, p, second, order2, final) ensures Quiet(bpms, final, p) {
        NextRoundIsQuiet(rows, cur, p, bpms, order, first, second, home, d, rows2, cur2, order2, final);
      }
    } else {
      var order2, final := MeetingKindsAreNotQuiet(rows, cur, p, bpms, order, m, first, second, home, d, rows2, cur2);
    }
  }

  // -------------------------------------------------------------------- an example

  /** The blueprint asks for a master, and a worker of the same kind is running. */
  function OneMaster(p: Place, adminKey: Name): seq<Machine> {
    Desired([Wish(p.provider, p.region, MASTER_TEXT, EMPTY, 0, [], EMPTY, false)], p, adminKey)
  }

  function Listed(p: Place, cloudID: Name): Machine {
    Machine(0, p.provider, p.region, EMPTY, DEFAULT_DISK_SIZE, [], EMPTY, false, cloudID, EMPTY, EMPTY, NoStatus, NoRole, false)
  }

  function RunningWorker(p: Place): Machine { Listed(p, 1).(id := 1, status := Connected, role := Worker, connected := true) }

  lemma WorkerIsStopped(p: Place, adminKey: Name)
    ensures AllIn(OneMaster(p, adminKey), p) && Wished(OneMaster(p, adminKey)) && |OneMaster(p, adminKey)| == 1
    ensures OneMaster(p, adminKey)[0].floatingIP == EMPTY
    ensures OneDisk(OneMaster(p, adminKey), DEFAULT_DISK_SIZE) && KindOf(OneMaster(p, adminKey)[0]) == Kind(false, EMPTY)
    ensures Pairing(OneMaster(p, adminKey), [RunningWorker(p)], p) == []
  {
    var ws := [Wish(p.provider, p.region, MASTER_TEXT, EMPTY, 0, [], EMPTY, false)];
    var bpms, order := OneMaster(p, adminKey), [RunningWorker(p)];
    assert ws[..0] == [] && Selected(ws[0], p);
    assert Desired(ws[..0], p, adminKey) == [];
    assert bpms == [Translate(ws[0], adminKey)];
    var m := Pairing(bpms, order, p);
    if m != [] {
      PairingCompatible(bpms, order, p, m[0]);
    }
  }

  lemma WorkerTable(p: Place)
    ensures Coherent(map[1 := RunningWorker(p)], 1) && Enumerates([RunningWorker(p)], map[1 := RunningWorker(p)], p)
    ensures Mirrors([RunningWorker(p)], [Listed(p, 1)])
  {
    var order, first := [RunningWorker(p)], [Listed(p, 1)];
    assert order[0].id in IDs(order);
    assert Reports(order[0], first[0]);
  }

  lemma NothingPaired(bpms: seq<Machine>, order: seq<Machine>, m: seq<Edge>)
    requires |bpms| == |order| == 1 && m == []
    ensures Surplus(order, m) == order && Missing(bpms, m) == bpms
  {
    UnusedOne(Lefts(m));
    UnusedOne(Rights(m));
  }

  lemma UnusedOne(used: set<nat>)
    requires 0 !in used
    ensures Unused(1, used) == [0]
  {
    assert Unused(0, used) == [];
  }

  lemma MasterIsBooted(p: Place, bpms: seq<Machine>, order: seq<Machine>, m: seq<Edge>, second: seq<Machine>)
    requires |bpms| == 1 && order == [RunningWorker(p)] && m == [] && second == [Listed(p, 2)]
    requires KindOf(bpms[0]) == Kind(false, EMPTY)
    ensures Faithful(Kept(order, m), Surplus(order, m), BootRequests(1, Missing(bpms, m)), second, [0])
  {
    NothingPaired(bpms, order, m);
    OneForOne(order, BootRequests(1, bpms), second);
    assert Kept(order, m) == [];
  }

  lemma OneForOne(stopped: seq<Machine>, boots: seq<Machine>, second: seq<Machine>)
    requires |stopped| == |boots| == |second| == 1
    requires KindOf(second[0]) == KindOf(boots[0]) && second[0].cloudID != stopped[0].cloudID
    ensures Faithful([], stopped, boots, second, [0])
  {
  }

  lemma KindsMeet(p: Place, bpms: seq<Machine>, order: seq<Machine>, m: seq<Edge>)
    requires |bpms| == 1 && order == [RunningWorker(p)] && m == [] && KindOf(bpms[0]) == Kind(false, EMPTY)
    ensures !KindsApart(bpms, order, m)
  {
    NothingPaired(bpms, order, m);
    assert order[0] in Surplus(order, m) && bpms[0] in Missing(bpms, m);
  }

  lemma ListedAlone(p: Place, cloudID: Name)
    requires cloudID != EMPTY
    ensures Listing([Listed(p, cloudID)], p) && OneDisk([Listed(p, cloudID)], DEFAULT_DISK_SIZE)
  {
  }

  lemma WorkerRound(p: Place, bpms: seq<Machine>, order: seq<Machine>, first: seq<Machine>, second: seq<Machine>)
    requires AllIn(bpms, p) && Wished(bpms) && |bpms| == 1 && OneDisk(bpms, DEFAULT_DISK_SIZE) && bpms[0].floatingIP == EMPTY
    requires KindOf(bpms[0]) == Kind(false, EMPTY)
    requires order == [RunningWorker(p)] && first == [Listed(p, 1)] && second == [Listed(p, 2)]
    requires Pairing(bpms, order, p) == []
    ensures FirstRound(map[1 := RunningWorker(p)], 1, p, bpms, order, first, second, [0], DEFAULT_DISK_SIZE)
  {
    WorkerTable(p);
    ListedAlone(p, 1);
    ListedAlone(p, 2);
    MasterIsBooted(p, bpms, order, Pairing(bpms, order, p), second);
  }

  /** The worker is stopped and a master booted.  The new machine can be taken for the
      worker, and then the next round stops it and boots another. */
  lemma StoppedRowCanReturn(p: Place, adminKey: Name)
    ensures var rows, bpms, order := map[1 := RunningWorker(p)], OneMaster(p, adminKey), [RunningWorker(p)];
            && FirstRound(rows, 1, p, bpms, order, [Listed(p, 1)], [Listed(p, 2)], [0], DEFAULT_DISK_SIZE)
            && !AlwaysQuiet(After(rows, 1, p, bpms, order), 2, p, bpms, [Listed(p, 2)])
  {
    var rows, bpms, order := map[1 := RunningWorker(p)], OneMaster(p, adminKey), [RunningWorker(p)];
    WorkerIsStopped(p, adminKey);
    var m := Pairing(bpms, order, p);
    NothingPaired(bpms, order, m);
    KindsMeet(p, bpms, order, m);
    WorkerRound(p, bpms, order, [Listed(p, 1)], [Listed(p, 2)]);
    QuietIffKindsApart(rows, 1, p, bpms, order, m, [Listed(p, 1)], [Listed(p, 2)], [0], DEFAULT_DISK_SIZE,
                       After(rows, 1, p, bpms, order), 2);
  }
}
