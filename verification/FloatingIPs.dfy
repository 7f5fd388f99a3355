/** When floating IPs make the join pair fewer machines than it could, said on the
    machines and rows that go into it. */
module FloatingIPs {
  import opened Prelude
  import opened Matching
  import opened RoleMatching
  import opened Join
  import opened Machines
  import opened DesiredMachines
  import opened CloudSync

  /** The machines of a kind and role. */
  ghost function Of(ms: seq<Machine>, k: Kind, r: Role): (s: set<nat>)
    ensures forall i: nat :: i in s <==> i < |ms| && KindOf(ms[i]) == k && ms[i].role == r
  {
    set i: nat | i < |ms| && KindOf(ms[i]) == k && ms[i].role == r
  }

  /** The blueprint machines of a kind and role whose floating IP is on a row of that
      kind without a role, and those rows. */
  ghost function Anchored(bpms: seq<Machine>, dbms: seq<Machine>, k: Kind, r: Role): (s: set<nat>)
    ensures forall i: nat :: i in s <==> i in Of(bpms, k, r) && exists j: nat :: j < |dbms| && Anchors(bpms[i], dbms[j])
  {
    set i: nat | i in Of(bpms, k, r) && exists j: nat :: j < |dbms| && Anchors(bpms[i], dbms[j])
  }

  ghost function Anchoring(bpms: seq<Machine>, dbms: seq<Machine>, k: Kind, r: Role): (s: set<nat>)
    ensures forall j: nat :: j in s <==> j < |dbms| && exists i: nat :: i in Of(bpms, k, r) && Anchors(bpms[i], dbms[j])
  {
    set j: nat | j < |dbms| && exists i: nat :: i in Of(bpms, k, r) && Anchors(bpms[i], dbms[j])
  }

  /** No floating IP twice. */
  ghost predicate UniqueIPs(ms: seq<Machine>) {
    forall i, j :: 0 <= i < j < |ms| && ms[i].floatingIP != EMPTY ==> ms[i].floatingIP != ms[j].floatingIP
  }

  /** What a round starts from: blueprint machines of known role and rows, all in one
      place and with one disk size. */
  ghost predicate Comparable(bpms: seq<Machine>, dbms: seq<Machine>, p: Place) {
    AllIn(bpms, p) && AllIn(dbms, p) && DisksAgree(bpms, dbms) && Wished(bpms)
  }

  ghost predicate Input(bpms: seq<Machine>, dbms: seq<Machine>, p: Place) {
    Comparable(bpms, dbms, p) && UniqueIPs(bpms) && UniqueIPs(dbms)
  }

  ghost function Paired(bpms: seq<Machine>, dbms: seq<Machine>, p: Place): set<Edge>
    requires AllIn(bpms, p) && AllIn(dbms, p)
  {
    Elements(Pairing(bpms, dbms, p))
  }

  /** For one kind: some machines of role `s` are anchored; with the rows of their
      role they outnumber the machines of that role; and the machines of the other
      role outnumber the rows of that role and the rows without a role that are not
      taken up so. */
  ghost predicate Short(bpms: seq<Machine>, dbms: seq<Machine>, k: Kind, s: Role, r: Role) {
    var f := |Anchored(bpms, dbms, k, s)|;
    && s != NoRole && r != NoRole && s != r && f > 0
    && f + |Of(dbms, k, s)| > |Of(bpms, k, s)|
    && |Of(bpms, k, r)| + f > |Of(dbms, k, r)| + |Of(dbms, k, NoRole)|
  }

  ghost predicate SomeShort(bpms: seq<Machine>, dbms: seq<Machine>) {
    exists k, s, r :: Short(bpms, dbms, k, s, r)
  }

  // ------------------------------------------------------------- partners in a pairing

  ghost function RowOf(m: set<Edge>, i: nat): (j: nat)
    requires !Free(m, i)
    ensures Edge(i, j) in m
  {
    var f :| f in m && f.l == i;
    assert f == Edge(i, f.r);
    f.r
  }

  ghost function WishOf(m: set<Edge>, j: nat): (i: nat)
    requires !FreeRight(m, j)
    ensures Edge(i, j) in m
  {
    var f :| f in m && f.r == j;
    assert f == Edge(f.l, j);
    f.l
  }

  /** Matched elements have as many partners as there are of them. */
  lemma RowsBound(m: set<Edge>, s: set<nat>, t: set<nat>)
    requires IsMatching(m) && forall i :: i in s ==> !Free(m, i) && RowOf(m, i) in t
    ensures |s| <= |t|
  {
    var f := map i | i in s :: RowOf(m, i);
    forall a, b | a in f && b in f && f[a] == f[b] ensures a == b {
      assert Conflict(Edge(a, f[a]), Edge(b, f[b]));
    }
    assert f.Keys == s;
    InjectionBoundsSize(f, t);
  }

  lemma WishesBound(m: set<Edge>, s: set<nat>, t: set<nat>)
    requires IsMatching(m) && forall j :: j in s ==> !FreeRight(m, j) && WishOf(m, j) in t
    ensures |s| <= |t|
  {
    var f := map j | j in s :: WishOf(m, j);
    forall a, b | a in f && b in f && f[a] == f[b] ensures a == b {
      assert Conflict(Edge(f[a], a), Edge(f[b], b));
    }
    assert f.Keys == s;
    InjectionBoundsSize(f, t);
  }

  // ------------------------------------------------------------ what the join does

  /** A pair has one kind, and the roles agree unless the row has none. */
  lemma PairAgrees(bpms: seq<Machine>, dbms: seq<Machine>, p: Place, e: Edge)
    requires Comparable(bpms, dbms, p) && e in Paired(bpms, dbms, p)
    ensures e.l < |bpms| && e.r < |dbms| && KindOf(bpms[e.l]) == KindOf(dbms[e.r])
    ensures dbms[e.r].role == NoRole || dbms[e.r].role == bpms[e.l].role
  {
    ReferenceIsGreedy(MachineGraph(bpms, dbms, p));
    assert Compatible(bpms, dbms, e);
  }

  lemma LowScoreSharesIP(b: Machine, d: Machine)
    requires PlaceOf(b) == PlaceOf(d) && b.cloudID == EMPTY && 0 <= MachineScore(b, d) <= 8
    ensures b.floatingIP == d.floatingIP != EMPTY
  {
  }

  lemma AnchorScore(b: Machine, d: Machine)
    requires PlaceOf(b) == PlaceOf(d) && b.cloudID == EMPTY && DiskFits(b, d) && Anchors(b, d)
    ensures MachineScore(b, d) == 8
  {
  }

  lemma AnchorIsAlone(bpms: seq<Machine>, dbms: seq<Machine>, e: Edge, f: Edge)
    requires UniqueIPs(bpms) && UniqueIPs(dbms) && Wished(bpms) && Compatible(bpms, dbms, f) && Conflict(e, f)
    requires e.l < |bpms| && e.r < |dbms| && Anchors(bpms[e.l], dbms[e.r])
    requires MachineScore(bpms[f.l], dbms[f.r]) <= 8
    ensures f == e
  {
    LowScoreSharesIP(bpms[f.l], dbms[f.r]);
  }

  /** An anchored machine always gets the row that has its floating IP. */
  lemma AnchoredIsPaired(bpms: seq<Machine>, dbms: seq<Machine>, p: Place, i: nat, j: nat)
    requires Input(bpms, dbms, p) && i < |bpms| && j < |dbms| && Anchors(bpms[i], dbms[j])
    ensures Edge(i, j) in Paired(bpms, dbms, p)
  {
    var g, e := MachineGraph(bpms, dbms, p), Edge(i, j);
    ReferenceIsGreedy(g);
    AnchorScore(bpms[i], dbms[j]);
    assert Compatible(bpms, dbms, e) && g[e] == 8;
    forall f | f in g && g[f] <= 8 && Conflict(e, f) ensures f == e {
      AnchorIsAlone(bpms, dbms, e, f);
    }
    LoneEdgeIsMatched(g, Paired(bpms, dbms, p), e);
  }

  lemma LoneEdgeIsMatched(g: Graph, m: set<Edge>, e: Edge)
    requires Greedy(g, m) && e in g
    requires forall f :: f in g && g[f] <= g[e] && Conflict(e, f) ==> f == e
    ensures e in m
  {
  }

  lemma CanPair(bpms: seq<Machine>, dbms: seq<Machine>, p: Place, i: nat, j: nat)
    requires Comparable(bpms, dbms, p) && i < |bpms| && j < |dbms|
    requires KindOf(bpms[i]) == KindOf(dbms[j]) && (dbms[j].role == NoRole || dbms[j].role == bpms[i].role)
    ensures Compatible(bpms, dbms, Edge(i, j)) && Edge(i, j) in MachineGraph(bpms, dbms, p)
  {
    assert DiskFits(bpms[i], dbms[j]);
    assert Compatible(bpms, dbms, Edge(i, j));
  }

  lemma NotBothFree(g: Graph, m: set<Edge>, i: nat, j: nat)
    requires Maximal(g, m) && Edge(i, j) in g
    ensures !Free(m, i) || !FreeRight(m, j)
  {
    var f :| f in m && Conflict(Edge(i, j), f);
  }

  /** A pair that passes over a free row of the machine's role is made by a floating
      IP. */
  lemma PassedOverIsAnchored(bpms: seq<Machine>, dbms: seq<Machine>, p: Place, e: Edge, w: nat)
    requires Comparable(bpms, dbms, p) && e in Paired(bpms, dbms, p)
    requires e.l < |bpms| && w < |dbms| && FreeRight(Paired(bpms, dbms, p), w)
    requires KindOf(bpms[e.l]) == KindOf(dbms[w]) && bpms[e.l].role == dbms[w].role
    ensures e.r < |dbms| && (dbms[e.r].role == bpms[e.l].role || Anchors(bpms[e.l], dbms[e.r]))
  {
    PairAgrees(bpms, dbms, p, e);
    if dbms[e.r].role == NoRole && !Anchors(bpms[e.l], dbms[e.r]) {
      CanPair(bpms, dbms, p, e.l, w);
      CanPair(bpms, dbms, p, e.l, e.r);
      ScoreOfKnown(bpms[e.l], dbms[w], dbms[e.r]);
      ReferenceIsGreedy(MachineGraph(bpms, dbms, p));
      PreferredIsTaken(MachineGraph(bpms, dbms, p), Paired(bpms, dbms, p), e, Edge(e.l, w));
    }
  }

  /** If a row of a known role is left over, every machine of that kind and role is
      paired, and with a row of its role unless it is anchored to another. */
  lemma FreeRowMeansPaired(bpms: seq<Machine>, dbms: seq<Machine>, p: Place, i: nat, w: nat)
    requires Comparable(bpms, dbms, p) && i < |bpms| && w < |dbms| && FreeRight(Paired(bpms, dbms, p), w)
    requires KindOf(bpms[i]) == KindOf(dbms[w]) && bpms[i].role == dbms[w].role
    ensures !Free(Paired(bpms, dbms, p), i)
    ensures var j := RowOf(Paired(bpms, dbms, p), i);
            j < |dbms| && (dbms[j].role == bpms[i].role || Anchors(bpms[i], dbms[j]))
  {
    CanPair(bpms, dbms, p, i, w);
    PairingIsMaximal(bpms, dbms, p);
    NotBothFree(MachineGraph(bpms, dbms, p), Paired(bpms, dbms, p), i, w);
    PassedOverIsAnchored(bpms, dbms, p, Edge(i, RowOf(Paired(bpms, dbms, p), i)), w);
  }

  /** If a machine is left over, every row that it could have is paired. */
  lemma FreeWishMeansPaired(bpms: seq<Machine>, dbms: seq<Machine>, p: Place, u: nat, j: nat)
    requires Comparable(bpms, dbms, p) && u < |bpms| && j < |dbms| && Free(Paired(bpms, dbms, p), u)
    requires KindOf(bpms[u]) == KindOf(dbms[j]) && (dbms[j].role == NoRole || dbms[j].role == bpms[u].role)
    ensures !FreeRight(Paired(bpms, dbms, p), j)
  {
    CanPair(bpms, dbms, p, u, j);
    PairingIsMaximal(bpms, dbms, p);
    NotBothFree(MachineGraph(bpms, dbms, p), Paired(bpms, dbms, p), u, j);
  }

  // -------------------------------------------------------------------- counting

  lemma SetMinus(s: set<nat>, t: set<nat>)
    requires t <= s
    ensures |s - t| == |s| - |t|
  {
    assert s == (s - t) + t;
  }

  lemma PartnerIs(m: set<Edge>, i: nat, j: nat)
    requires IsMatching(m) && Edge(i, j) in m
    ensures !Free(m, i) && RowOf(m, i) == j && !FreeRight(m, j) && WishOf(m, j) == i
  {
    assert !Free(m, i) && !FreeRight(m, j);
    assert Conflict(Edge(i, j), Edge(i, RowOf(m, i))) && Conflict(Edge(i, j), Edge(WishOf(m, j), j));
  }

  lemma PairedIsMatching(bpms: seq<Machine>, dbms: seq<Machine>, p: Place)
    requires AllIn(bpms, p) && AllIn(dbms, p)
    ensures IsMatching(Paired(bpms, dbms, p))
  {
    ReferenceIsGreedy(MachineGraph(bpms, dbms, p));
  }

  /** The anchored machines and their rows are paired with each other. */
  lemma AnchorsCount(bpms: seq<Machine>, dbms: seq<Machine>, p: Place, k: Kind, s: Role)
    requires Input(bpms, dbms, p)
    ensures |Anchored(bpms, dbms, k, s)| == |Anchoring(bpms, dbms, k, s)|
    ensures Anchored(bpms, dbms, k, s) <= Of(bpms, k, s) && Anchoring(bpms, dbms, k, s) <= Of(dbms, k, NoRole)
  {
    var m, a, x := Paired(bpms, dbms, p), Anchored(bpms, dbms, k, s), Anchoring(bpms, dbms, k, s);
    PairedIsMatching(bpms, dbms, p);
    forall i | i in a ensures !Free(m, i) && RowOf(m, i) in x {
      var j: nat :| j < |dbms| && Anchors(bpms[i], dbms[j]);
      AnchoredIsPaired(bpms, dbms, p, i, j);
      PartnerIs(m, i, j);
    }
    RowsBound(m, a, x);
    forall j | j in x ensures !FreeRight(m, j) && WishOf(m, j) in a {
      var i: nat :| i in Of(bpms, k, s) && Anchors(bpms[i], dbms[j]);
      AnchoredIsPaired(bpms, dbms, p, i, j);
      PartnerIs(m, i, j);
    }
    WishesBound(m, x, a);
  }

  /** A free row of role `s` leaves more such rows than machines that are not
      anchored. */
  lemma FreeRowCount(bpms: seq<Machine>, dbms: seq<Machine>, p: Place, k: Kind, s: Role, w: nat)
    requires Input(bpms, dbms, p) && s != NoRole && w in Of(dbms, k, s) && FreeRight(Paired(bpms, dbms, p), w)
    ensures |Anchored(bpms, dbms, k, s)| + |Of(dbms, k, s)| > |Of(bpms, k, s)|
  {
    var m, a := Paired(bpms, dbms, p), Anchored(bpms, dbms, k, s);
    PairedIsMatching(bpms, dbms, p);
    forall i | i in Of(bpms, k, s) - a ensures !Free(m, i) && RowOf(m, i) in Of(dbms, k, s) - {w} {
      FreeRowMeansPaired(bpms, dbms, p, i, w);
      PairAgrees(bpms, dbms, p, Edge(i, RowOf(m, i)));
    }
    RowsBound(m, Of(bpms, k, s) - a, Of(dbms, k, s) - {w});
    SetMinus(Of(bpms, k, s), a);
  }

  lemma RestCount(x: set<nat>, known: set<nat>, open: set<nat>)
    requires x <= open && known !! open
    ensures |known + (open - x)| == |known| + |open| - |x|
  {
    SetMinus(open, x);
  }

  /** The rows that machines of role `r` could have, without those anchored by role
      `s`. */
  ghost function Rest(bpms: seq<Machine>, dbms: seq<Machine>, k: Kind, s: Role, r: Role): set<nat> {
    Of(dbms, k, r) + (Of(dbms, k, NoRole) - Anchoring(bpms, dbms, k, s))
  }

  lemma RestSize(bpms: seq<Machine>, dbms: seq<Machine>, p: Place, k: Kind, s: Role, r: Role)
    requires Input(bpms, dbms, p) && r != NoRole
    ensures |Rest(bpms, dbms, k, s, r)| + |Anchored(bpms, dbms, k, s)| == |Of(dbms, k, r)| + |Of(dbms, k, NoRole)|
  {
    AnchorsCount(bpms, dbms, p, k, s);
    RestCount(Anchoring(bpms, dbms, k, s), Of(dbms, k, r), Of(dbms, k, NoRole));
  }

  lemma RestIsPaired(bpms: seq<Machine>, dbms: seq<Machine>, p: Place, k: Kind, s: Role, r: Role, w: nat, u: nat, j: nat)
    requires Input(bpms, dbms, p) && s != NoRole && r != NoRole && s != r
    requires w in Of(dbms, k, s) && FreeRight(Paired(bpms, dbms, p), w)
    requires u in Of(bpms, k, r) && Free(Paired(bpms, dbms, p), u) && j in Rest(bpms, dbms, k, s, r)
    ensures !FreeRight(Paired(bpms, dbms, p), j) && WishOf(Paired(bpms, dbms, p), j) in Of(bpms, k, r) - {u}
  {
    FreeWishMeansPaired(bpms, dbms, p, u, j);
    RestPartner(bpms, dbms, p, k, s, r, w, Edge(WishOf(Paired(bpms, dbms, p), j), j));
  }

  /** ... and then a free machine of role `r` leaves more such machines than rows that
      they could have. */
  lemma FreeWishCount(bpms: seq<Machine>, dbms: seq<Machine>, p: Place, k: Kind, s: Role, r: Role, w: nat, u: nat)
    requires Input(bpms, dbms, p) && s != NoRole && r != NoRole && s != r
    requires w in Of(dbms, k, s) && FreeRight(Paired(bpms, dbms, p), w)
    requires u in Of(bpms, k, r) && Free(Paired(bpms, dbms, p), u)
    ensures |Rest(bpms, dbms, k, s, r)| < |Of(bpms, k, r)|
  {
    var m, rest, t := Paired(bpms, dbms, p), Rest(bpms, dbms, k, s, r), Of(bpms, k, r) - {u};
    PairedIsMatching(bpms, dbms, p);
    forall j | j in rest ensures !FreeRight(m, j) && WishOf(m, j) in t {
      RestIsPaired(bpms, dbms, p, k, s, r, w, u, j);
    }
    WishesBound(m, rest, t);
  }

  lemma RestPartner(bpms: seq<Machine>, dbms: seq<Machine>, p: Place, k: Kind, s: Role, r: Role, w: nat, e: Edge)
    requires Input(bpms, dbms, p) && s != NoRole && r != NoRole && s != r
    requires w in Of(dbms, k, s) && FreeRight(Paired(bpms, dbms, p), w) && e in Paired(bpms, dbms, p)
    requires e.r in Of(dbms, k, r) || (e.r in Of(dbms, k, NoRole) && e.r !in Anchoring(bpms, dbms, k, s))
    ensures e.l in Of(bpms, k, r)
  {
    PairAgrees(bpms, dbms, p, e);
    if bpms[e.l].role == s {
      PassedOverIsAnchored(bpms, dbms, p, e, w);
    }
  }

  lemma MisledCounts(bpms: seq<Machine>, dbms: seq<Machine>, p: Place, u: nat, h: Edge, w: nat)
    requires Input(bpms, dbms, p) && Misled(bpms, dbms, p, u, h, w)
    ensures Short(bpms, dbms, KindOf(bpms[u]), bpms[h.l].role, bpms[u].role)
  {
    var k, s, r := KindOf(bpms[u]), bpms[h.l].role, bpms[u].role;
    assert h.l in Anchored(bpms, dbms, k, s);
    if s == r {
      FreeWishMeansPaired(bpms, dbms, p, u, w);
    } else {
      FreeRowCount(bpms, dbms, p, k, s, w);
      FreeWishCount(bpms, dbms, p, k, s, r, w, u);
      RestSize(bpms, dbms, p, k, s, r);
    }
  }

  lemma MisledIsShort(bpms: seq<Machine>, dbms: seq<Machine>, p: Place)
    requires Input(bpms, dbms, p) && SomeMisled(bpms, dbms, p)
    ensures SomeShort(bpms, dbms)
  {
    var u: nat, h, w: nat :| Misled(bpms, dbms, p, u, h, w);
    MisledCounts(bpms, dbms, p, u, h, w);
  }

  /** With so many anchored machines a row of their role is left over ... */
  lemma SomeRowFree(bpms: seq<Machine>, dbms: seq<Machine>, p: Place, k: Kind, s: Role) returns (w: nat)
    requires Input(bpms, dbms, p) && s != NoRole
    requires |Anchored(bpms, dbms, k, s)| + |Of(dbms, k, s)| > |Of(bpms, k, s)|
    ensures w in Of(dbms, k, s) && FreeRight(Paired(bpms, dbms, p), w)
  {
    var m, a := Paired(bpms, dbms, p), Anchored(bpms, dbms, k, s);
    if forall j :: j in Of(dbms, k, s) ==> !FreeRight(m, j) {
      PairedIsMatching(bpms, dbms, p);
      forall j | j in Of(dbms, k, s) ensures WishOf(m, j) in Of(bpms, k, s) - a {
        KnownPartner(bpms, dbms, p, k, s, Edge(WishOf(m, j), j));
      }
      WishesBound(m, Of(dbms, k, s), Of(bpms, k, s) - a);
      SetMinus(Of(bpms, k, s), a);
      assert false;
    }
    w :| w in Of(dbms, k, s) && FreeRight(m, w);
  }

  /** A row of a known role never goes to an anchored machine. */
  lemma KnownPartner(bpms: seq<Machine>, dbms: seq<Machine>, p: Place, k: Kind, s: Role, e: Edge)
    requires Input(bpms, dbms, p) && s != NoRole && e in Paired(bpms, dbms, p) && e.r in Of(dbms, k, s)
    ensures e.l in Of(bpms, k, s) && e.l !in Anchored(bpms, dbms, k, s)
  {
    PairAgrees(bpms, dbms, p, e);
    if e.l in Anchored(bpms, dbms, k, s) {
      var j: nat :| j < |dbms| && Anchors(bpms[e.l], dbms[j]);
      AnchoredIsPaired(bpms, dbms, p, e.l, j);
      PairedIsMatching(bpms, dbms, p);
      assert Conflict(e, Edge(e.l, j));
      assert false;
    }
  }

  /** ... and a machine of the other role. */
  lemma SomeWishFree(bpms: seq<Machine>, dbms: seq<Machine>, p: Place, k: Kind, s: Role, r: Role) returns (u: nat)
    requires Input(bpms, dbms, p) && s != NoRole && r != NoRole && s != r
    requires |Of(bpms, k, r)| + |Anchored(bpms, dbms, k, s)| > |Of(dbms, k, r)| + |Of(dbms, k, NoRole)|
    ensures u in Of(bpms, k, r) && Free(Paired(bpms, dbms, p), u)
  {
    var m := Paired(bpms, dbms, p);
    if forall i :: i in Of(bpms, k, r) ==> !Free(m, i) {
      PairedIsMatching(bpms, dbms, p);
      forall i | i in Of(bpms, k, r) ensures RowOf(m, i) in Rest(bpms, dbms, k, s, r) {
        OtherPartner(bpms, dbms, p, k, s, r, Edge(i, RowOf(m, i)));
      }
      RowsBound(m, Of(bpms, k, r), Rest(bpms, dbms, k, s, r));
      RestSize(bpms, dbms, p, k, s, r);
      assert false;
    }
    u :| u in Of(bpms, k, r) && Free(m, u);
  }

  lemma OtherPartner(bpms: seq<Machine>, dbms: seq<Machine>, p: Place, k: Kind, s: Role, r: Role, e: Edge)
    requires Input(bpms, dbms, p) && s != r && e in Paired(bpms, dbms, p) && e.l in Of(bpms, k, r)
    ensures e.r in Rest(bpms, dbms, k, s, r)
  {
    PairAgrees(bpms, dbms, p, e);
    if e.r in Anchoring(bpms, dbms, k, s) {
      var i: nat :| i in Of(bpms, k, s) && Anchors(bpms[i], dbms[e.r]);
      AnchoredIsPaired(bpms, dbms, p, i, e.r);
      PairedIsMatching(bpms, dbms, p);
      assert Conflict(e, Edge(i, e.r));
      assert false;
    }
  }

  lemma ShortIsMisled(bpms: seq<Machine>, dbms: seq<Machine>, p: Place)
    requires Input(bpms, dbms, p) && SomeShort(bpms, dbms)
    ensures SomeMisled(bpms, dbms, p)
  {
    var k, s, r :| Short(bpms, dbms, k, s, r);
    var w := SomeRowFree(bpms, dbms, p, k, s);
    var u := SomeWishFree(bpms, dbms, p, k, s, r);
    var v :| v in Anchored(bpms, dbms, k, s);
    var x: nat :| x < |dbms| && Anchors(bpms[v], dbms[x]);
    AnchoredIsPaired(bpms, dbms, p, v, x);
    assert Misled(bpms, dbms, p, u, Edge(v, x), w);
  }

  /** With no floating IP twice on a side, the join pairs as many machines as can be
      paired exactly if no kind and roles are short.  So exactly then does it boot and
      stop as few machines as possible. */
  lemma BestIffNoneShort(bpms: seq<Machine>, dbms: seq<Machine>, p: Place)
    requires Input(bpms, dbms, p)
    ensures Best(bpms, dbms, p) <==> !SomeShort(bpms, dbms)
  {
    PairingIsMaximumIff(bpms, dbms, p);
    if SomeMisled(bpms, dbms, p) {
      MisledIsShort(bpms, dbms, p);
    } else if SomeShort(bpms, dbms) {
      ShortIsMisled(bpms, dbms, p);
    }
  }

  // -------------------------------------------------------------------- an example

  /** A blueprint and a machine table, read in some order, for which the join pairs
      fewer machines than it could. */
  ghost predicate FallsShort(ws: seq<Wish>, p: Place, adminKey: Name, rows: Rows, cur: int, order: seq<Machine>) {
    && Coherent(rows, cur) && Enumerates(order, rows, p)
    && AllIn(Desired(ws, p, adminKey), p) && !Best(Desired(ws, p, adminKey), order, p)
  }

  /** A worker that asks for a floating IP, and a master. */
  function ExampleWishes(p: Place): seq<Wish> {
    [Wish(p.provider, p.region, WORKER_TEXT, EMPTY, 0, [], 1, false),
     Wish(p.provider, p.region, MASTER_TEXT, EMPTY, 0, [], EMPTY, false)]
  }

  /** A machine that has the floating IP but has not told its role, and a worker. */
  function ExampleOrder(p: Place): seq<Machine> {
    [Machine(1, p.provider, p.region, EMPTY, DEFAULT_DISK_SIZE, [], 1, false, 1, EMPTY, EMPTY, NoStatus, NoRole, false),
     Machine(2, p.provider, p.region, EMPTY, DEFAULT_DISK_SIZE, [], EMPTY, false, 2, EMPTY, EMPTY, Connected, Worker, true)]
  }

  function ExampleRows(p: Place): Rows {
    map[1 := ExampleOrder(p)[0], 2 := ExampleOrder(p)[1]]
  }

  lemma ExampleDesired(p: Place, adminKey: Name)
    ensures Desired(ExampleWishes(p), p, adminKey)
         == [Translate(ExampleWishes(p)[0], adminKey), Translate(ExampleWishes(p)[1], adminKey)]
  {
    var ws := ExampleWishes(p);
    assert ws[..1] == [ws[0]] && ws[..1][..0] == [];
    assert Desired(ws[..1], p, adminKey) == [Translate(ws[0], adminKey)];
  }

  lemma ExampleIsShort(p: Place, adminKey: Name)
    ensures var bpms := Desired(ExampleWishes(p), p, adminKey);
            Input(bpms, ExampleOrder(p), p) && Short(bpms, ExampleOrder(p), Kind(false, EMPTY), Worker, Master)
  {
    var bpms, dbms, k := Desired(ExampleWishes(p), p, adminKey), ExampleOrder(p), Kind(false, EMPTY);
    ExampleDesired(p, adminKey);
    assert Anchors(bpms[0], dbms[0]);
    assert Anchored(bpms, dbms, k, Worker) == {0};
    assert Of(bpms, k, Worker) == {0} && Of(bpms, k, Master) == {1};
    assert Of(dbms, k, Worker) == {1} && Of(dbms, k, Master) == {} && Of(dbms, k, NoRole) == {0};
  }

  lemma ExampleIsTable(p: Place)
    ensures Coherent(ExampleRows(p), 2) && Enumerates(ExampleOrder(p), ExampleRows(p), p)
  {
    var order := ExampleOrder(p);
    assert order[0].id in IDs(order) && order[1].id in IDs(order);
  }

  /** In the example the worker takes the machine with its floating IP, so that the
      other worker is stopped and a master booted, though both rows could be kept. */
  lemma FloatingIPCanStrandMachines(p: Place, adminKey: Name)
    ensures FallsShort(ExampleWishes(p), p, adminKey, ExampleRows(p), 2, ExampleOrder(p))
  {
    ExampleIsShort(p, adminKey);
    BestIffNoneShort(Desired(ExampleWishes(p), p, adminKey), ExampleOrder(p), p);
    ExampleIsTable(p);
  }
}
