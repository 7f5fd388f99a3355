/** Machine rows, the score that pairs them, and how good the pairing is. */
module Machines {
  import opened Prelude
  import opened Matching
  import opened RoleMatching
  import opened Join

  /** A string that is only ever compared: a token, with 0 for the empty string. */
  type Name = nat

  const EMPTY: Name := 0

  datatype Status = NoStatus | Stopping | Booting | Connecting | Reconnecting | Connected

  datatype Machine = Machine(
    id: int, provider: Name, region: Name, size: Name, diskSize: int, sshKeys: seq<Name>,
    floatingIP: Name, preemptible: bool, cloudID: Name, publicIP: Name, privateIP: Name,
    status: Status, role: Role, connected: bool)

  const DEFAULT_DISK_SIZE := 32

  /** The row that InsertMachine creates. */
  function Blank(id: int): (m: Machine)
    ensures m.id == id && m.cloudID == EMPTY && m.role == NoRole
  {
    Machine(id, EMPTY, EMPTY, EMPTY, 0, [], EMPTY, false, EMPTY, EMPTY, EMPTY, NoStatus, NoRole, false)
  }

  datatype Place = Place(provider: Name, region: Name)

  function PlaceOf(m: Machine): Place { Place(m.provider, m.region) }

  /** Lower is better, negative is incompatible.  The source panics when the two
      machines are in different places. */
  function MachineScore(l: Machine, r: Machine): (s: int)
    requires PlaceOf(l) == PlaceOf(r)
    ensures s == -1 || s == 0 || 7 <= s <= 10
    ensures s >= 0 <==> KindOf(l) == KindOf(r) && DiskFits(l, r) && RolesAgree(l, r)
    ensures s == 0 <==> s >= 0 && l.cloudID != EMPTY && l.cloudID == r.cloudID
  {
    if l.preemptible != r.preemptible then -1
    else if l.size != r.size then -1
    else if l.diskSize != 0 && r.diskSize != 0 && l.diskSize != r.diskSize then -1
    else if l.role != NoRole && r.role != NoRole && l.role != r.role then -1
    else if l.cloudID != EMPTY && r.cloudID != EMPTY && l.cloudID == r.cloudID then 0
    else
      10 - (if l.floatingIP != EMPTY && r.floatingIP != EMPTY && l.floatingIP == r.floatingIP then 2 else 0)
         - (if l.role != NoRole && r.role != NoRole then 1 else 0)
  }

  /** The score of a compatible pair that shares no cloud ID: a shared floating IP counts
      for more than roles that are known on both sides, and both together for most. */
  lemma MachineScoreIs(l: Machine, r: Machine)
    requires PlaceOf(l) == PlaceOf(r) && MachineScore(l, r) > 0
    ensures var ip, roles := l.floatingIP == r.floatingIP != EMPTY, l.role == r.role != NoRole;
            && (ip && roles ==> MachineScore(l, r) == 7) && (ip && !roles ==> MachineScore(l, r) == 8)
            && (!ip && roles ==> MachineScore(l, r) == 9) && (!ip && !roles ==> MachineScore(l, r) == 10)
  {
  }

  const SCORE: (Machine, Machine) --> int :=
    (l: Machine, r: Machine) requires PlaceOf(l) == PlaceOf(r) => MachineScore(l, r)

  ghost predicate AllIn(ms: seq<Machine>, p: Place) {
    forall i :: 0 <= i < |ms| ==> PlaceOf(ms[i]) == p
  }

  ghost predicate Compatible(left: seq<Machine>, right: seq<Machine>, e: Edge) {
    && e.l < |left| && e.r < |right|
    && PlaceOf(left[e.l]) == PlaceOf(right[e.r])
    && MachineScore(left[e.l], right[e.r]) >= 0
  }

  /** `g` holds the compatible pairs with their scores. */
  ghost predicate Scores(g: Graph, left: seq<Machine>, right: seq<Machine>) {
    && (forall e :: e in g <==> Compatible(left, right, e))
    && (forall e :: e in g ==> g[e] == MachineScore(left[e.l], right[e.r]))
  }

  ghost function MachineGraph(left: seq<Machine>, right: seq<Machine>, p: Place): (g: Graph)
    requires AllIn(left, p) && AllIn(right, p)
    ensures Scores(g, left, right)
  {
    ScoredScores(left, right, p);
    var g :| Scores(g, left, right);
    g
  }

  lemma ScoredScores(left: seq<Machine>, right: seq<Machine>, p: Place)
    requires AllIn(left, p) && AllIn(right, p)
    ensures Scores(Scored(left, right, SCORE), left, right)
  {
  }

  /** The pairing the join makes between two lists of machines in one place. */
  ghost function Pairing(left: seq<Machine>, right: seq<Machine>, p: Place): (m: seq<Edge>)
    requires AllIn(left, p) && AllIn(right, p)
    ensures InRange(m, |left|, |right|)
  {
    ReferenceIsGreedy(MachineGraph(left, right, p));
    Reference(MachineGraph(left, right, p))
  }

  lemma JoinMakesPairing(left: seq<Machine>, right: seq<Machine>, p: Place)
    requires AllIn(left, p) && AllIn(right, p)
    ensures JoinEdges(left, right, SCORE) == Pairing(left, right, p)
  {
    ScoredScores(left, right, p);
    assert MachineGraph(left, right, p) == Scored(left, right, SCORE);
  }

  predicate RolesAgree(l: Machine, r: Machine) {
    l.role == NoRole || r.role == NoRole || l.role == r.role
  }

  predicate DiskFits(l: Machine, r: Machine) {
    l.diskSize == 0 || r.diskSize == 0 || l.diskSize == r.diskSize
  }

  /** No two machines report different disk sizes. */
  ghost predicate DisksAgree(left: seq<Machine>, right: seq<Machine>) {
    forall i, j :: 0 <= i < |left| && 0 <= j < |right| ==> DiskFits(left[i], right[j])
  }

  datatype Kind = Kind(preemptible: bool, size: Name)

  function KindOf(m: Machine): Kind { Kind(m.preemptible, m.size) }

  function Sides(ms: seq<Machine>): (r: seq<Side<Kind>>)
    ensures |r| == |ms| && forall i :: 0 <= i < |ms| ==> r[i] == Side(KindOf(ms[i]), ms[i].role)
  {
    seq(|ms|, i requires 0 <= i < |ms| => Side(KindOf(ms[i]), ms[i].role))
  }

  /** Blueprint machines whose role is known. */
  ghost predicate Wished(bpms: seq<Machine>) {
    forall i :: 0 <= i < |bpms| ==> bpms[i].role != NoRole && bpms[i].cloudID == EMPTY
  }

  ghost predicate NoRoles(ms: seq<Machine>) {
    forall i :: 0 <= i < |ms| ==> ms[i].role == NoRole
  }

  /** The floating IP that machine `b` asks for is on a row of its kind whose role is
      not known yet.  Only here does the floating IP outweigh a matching role. */
  predicate Anchors(b: Machine, d: Machine) {
    KindOf(b) == KindOf(d) && d.role == NoRole && b.floatingIP != EMPTY && b.floatingIP == d.floatingIP
  }

  ghost predicate Unanchored(bpms: seq<Machine>, dbms: seq<Machine>) {
    forall i, j :: 0 <= i < |bpms| && 0 <= j < |dbms| ==> !Anchors(bpms[i], dbms[j])
  }

  lemma MachinesFormRoleGraph(g: Graph, left: seq<Machine>, right: seq<Machine>, p: Place)
    requires Scores(g, left, right)
    requires AllIn(left, p) && AllIn(right, p) && DisksAgree(left, right)
    requires Wished(left) || NoRoles(right)
    ensures RoleGraph(g, Sides(left), Sides(right))
  {
    var ls, rs := Sides(left), Sides(right);
    forall e: Edge
      ensures e in g <==>
              && e.l < |ls| && e.r < |rs| && ls[e.l].kind == rs[e.r].kind
              && (rs[e.r].role == NoRole || rs[e.r].role == ls[e.l].role)
    {
      assert e in g <==> Compatible(left, right, e);
      if e.l < |left| && e.r < |right| {
        assert DiskFits(left[e.l], right[e.r]);
      }
    }
  }

  /** The scores that decide: a known role beats no role, unless the latter has the
      floating IP. */
  lemma ScoreOfKnown(b: Machine, w: Machine, x: Machine)
    requires PlaceOf(b) == PlaceOf(w) == PlaceOf(x) && b.cloudID == EMPTY
    requires b.role == w.role != NoRole && x.role == NoRole && KindOf(b) == KindOf(x) && !Anchors(b, x)
    requires MachineScore(b, w) >= 0 && MachineScore(b, x) >= 0
    ensures MachineScore(b, w) < MachineScore(b, x)
  {
  }

  /** Where the join strands a machine, a floating IP was the reason. */
  lemma StrandedIsAnchored(bpms: seq<Machine>, dbms: seq<Machine>, p: Place, u: nat, h: Edge, w: nat)
    requires AllIn(bpms, p) && AllIn(dbms, p) && DisksAgree(bpms, dbms) && Wished(bpms)
    requires Stranded(Sides(bpms), Sides(dbms), Elements(Pairing(bpms, dbms, p)), u, h, w)
    ensures Anchors(bpms[h.l], dbms[h.r])
  {
    var g := MachineGraph(bpms, dbms, p);
    var m := Elements(Pairing(bpms, dbms, p));
    ReferenceIsGreedy(g);
    MachinesFormRoleGraph(g, bpms, dbms, p);
    var e := Edge(h.l, w);
    assert e in g && h in g;
    if !Anchors(bpms[h.l], dbms[h.r]) {
      assert Compatible(bpms, dbms, e) && Compatible(bpms, dbms, h);
      ScoreOfKnown(bpms[h.l], dbms[w], dbms[h.r]);
      PreferredIsTaken(g, m, h, e);
    }
  }

  /** An edge that beats a matched one at the same left end is blocked at its right end. */
  lemma PreferredIsTaken(g: Graph, m: set<Edge>, h: Edge, e: Edge)
    requires Greedy(g, m) && e in g && h in m && e.l == h.l && g[e] < g[h]
    ensures !FreeRight(m, e.r)
  {
    assert Conflict(e, h);
    var f :| f in m && Conflict(e, f) && Before(g, f, e);
    assert f.l == h.l ==> Conflict(f, h);
  }

  lemma PairingIsMaximal(left: seq<Machine>, right: seq<Machine>, p: Place)
    requires AllIn(left, p) && AllIn(right, p)
    ensures Maximal(MachineGraph(left, right, p), Elements(Pairing(left, right, p)))
    ensures |Elements(Pairing(left, right, p))| == |Pairing(left, right, p)|
  {
    var g := MachineGraph(left, right, p);
    ReferenceIsGreedy(g);
    GreedyIsMaximal(g, Elements(Reference(g)));
    AscendingSize(g, Reference(g));
  }

  /** A pairing of compatible machines. */
  ghost predicate IsPairing(left: seq<Machine>, right: seq<Machine>, p: Place, n: set<Edge>)
    requires AllIn(left, p) && AllIn(right, p)
  {
    n <= MachineGraph(left, right, p).Keys && IsMatching(n)
  }

  /** The join pairs as many machines as can be paired. */
  ghost predicate Best(left: seq<Machine>, right: seq<Machine>, p: Place)
    requires AllIn(left, p) && AllIn(right, p)
  {
    forall n :: IsPairing(left, right, p, n) ==> |n| <= |Pairing(left, right, p)|
  }

  /** The join falls short: a free machine of the blueprint and a free row could both
      be used, but for a pair that a floating IP has made. */
  ghost predicate Misled(bpms: seq<Machine>, dbms: seq<Machine>, p: Place, u: nat, h: Edge, w: nat)
    requires AllIn(bpms, p) && AllIn(dbms, p)
  {
    Stranded(Sides(bpms), Sides(dbms), Elements(Pairing(bpms, dbms, p)), u, h, w) && Anchors(bpms[h.l], dbms[h.r])
  }

  ghost predicate SomeMisled(bpms: seq<Machine>, dbms: seq<Machine>, p: Place)
    requires AllIn(bpms, p) && AllIn(dbms, p)
  {
    exists u: nat, h, w: nat :: Misled(bpms, dbms, p, u, h, w)
  }

  /** With known blueprint roles, the pairing is a largest one exactly if no such
      three are found. */
  lemma PairingIsMaximumIff(bpms: seq<Machine>, dbms: seq<Machine>, p: Place)
    requires AllIn(bpms, p) && AllIn(dbms, p) && DisksAgree(bpms, dbms) && Wished(bpms)
    ensures Best(bpms, dbms, p) <==> !SomeMisled(bpms, dbms, p)
  {
    var g, m := MachineGraph(bpms, dbms, p), Elements(Pairing(bpms, dbms, p));
    MachinesFormRoleGraph(g, bpms, dbms, p);
    PairingIsMaximal(bpms, dbms, p);
    MaximumIff(g, Sides(bpms), Sides(dbms), m);
    forall u: nat, h, w: nat | Stranded(Sides(bpms), Sides(dbms), m, u, h, w) ensures Misled(bpms, dbms, p, u, h, w) {
      StrandedIsAnchored(bpms, dbms, p, u, h, w);
    }
    assert IsMaximum(g, m) <==> Best(bpms, dbms, p) by {
      assert forall n :: n <= g.Keys && IsMatching(n) <==> IsPairing(bpms, dbms, p, n);
    }
  }

  /** No pairing of compatible machines is larger than the one the join makes, if
      blueprint roles are known and no floating IP that is asked for is on a row of
      that kind without a role; or if the right side has no roles at all. */
  lemma PairingIsMaximum(left: seq<Machine>, right: seq<Machine>, p: Place, n: set<Edge>)
    requires AllIn(left, p) && AllIn(right, p) && DisksAgree(left, right)
    requires (Wished(left) && Unanchored(left, right)) || NoRoles(right)
    requires n <= MachineGraph(left, right, p).Keys && IsMatching(n)
    ensures |n| <= |Pairing(left, right, p)|
  {
    var g, m := MachineGraph(left, right, p), Elements(Pairing(left, right, p));
    MachinesFormRoleGraph(g, left, right, p);
    PairingIsMaximal(left, right, p);
    forall u: nat, h, w: nat ensures !Stranded(Sides(left), Sides(right), m, u, h, w) {
      if Wished(left) && Stranded(Sides(left), Sides(right), m, u, h, w) {
        StrandedIsAnchored(left, right, p, u, h, w);
      }
    }
    UnstrandedIsMaximum(g, Sides(left), Sides(right), m, n);
  }

  /** A blueprint pairing that pairs more would boot and stop fewer machines: there is none. */
  lemma BootsAndStopsAreMinimal(bpms: seq<Machine>, dbms: seq<Machine>, p: Place, n: set<Edge>)
    requires AllIn(bpms, p) && AllIn(dbms, p) && DisksAgree(bpms, dbms) && Wished(bpms) && Unanchored(bpms, dbms)
    requires n <= MachineGraph(bpms, dbms, p).Keys && IsMatching(n)
    ensures var m := Pairing(bpms, dbms, p);
            && |Unused(|bpms|, Lefts(m))| <= |bpms| - |n|
            && |Unused(|dbms|, Rights(m))| <= |dbms| - |n|
  {
    PairingIsMaximum(bpms, dbms, p, n);
    PairingSizes(bpms, dbms, p);
  }

  /** Each element is paired or left over. */
  lemma PairingSizes(left: seq<Machine>, right: seq<Machine>, p: Place)
    requires AllIn(left, p) && AllIn(right, p)
    ensures var m := Pairing(left, right, p);
            && |m| + |Unused(|left|, Lefts(m))| == |left|
            && |m| + |Unused(|right|, Rights(m))| == |right|
  {
    var g := MachineGraph(left, right, p);
    ReferenceIsGreedy(g);
    MatchingSizes(Pairing(left, right, p), |left|, |right|);
  }

  lemma MatchingSizes(m: seq<Edge>, nl: nat, nr: nat)
    requires InRange(m, nl, nr) && NoDuplicates(m) && IsMatching(Elements(m))
    ensures |m| + |Unused(nl, Lefts(m))| == nl
    ensures |m| + |Unused(nr, Rights(m))| == nr
  {
    var ls := seq(|m|, k requires 0 <= k < |m| => m[k].l);
    var rs := seq(|m|, k requires 0 <= k < |m| => m[k].r);
    forall i, j | 0 <= i < j < |m| ensures ls[i] != ls[j] && rs[i] != rs[j] {
      assert m[i] in Elements(m) && m[j] in Elements(m);
      assert !Conflict(m[i], m[j]);
    }
    forall i: nat ensures i in Lefts(m) <==> i in ls {
      if i in Lefts(m) { var k :| 0 <= k < |m| && m[k].l == i; assert ls[k] == i; }
    }
    forall i: nat ensures i in Rights(m) <==> i in rs {
      if i in Rights(m) { var k :| 0 <= k < |m| && m[k].r == i; assert rs[k] == i; }
    }
    UnusedSize(nl, Lefts(m), ls);
    UnusedSize(nr, Rights(m), rs);
  }

  lemma UnusedSize(n: nat, used: set<nat>, list: seq<nat>)
    requires NoDuplicates(list) && forall i: nat :: i in used <==> i in list
    requires forall k :: 0 <= k < |list| ==> list[k] < n
    ensures |list| + |Unused(n, used)| == n
  {
    DistinctSize(list);
    var rest := Unused(n, used);
    DistinctSize(rest);
    assert UpTo(n) == Elements(list) + Elements(rest);
  }
}
