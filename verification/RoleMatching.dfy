/** When a matching is as large as a matching can be.

    Both sides have a kind, and may have a role.  An edge joins elements of the
    same kind unless the right one has a role that the left one lacks. */
module RoleMatching {
  import opened Prelude
  import opened Matching

  datatype Role = NoRole | Master | Worker

  datatype Side<C(==)> = Side(kind: C, role: Role)

  ghost predicate RoleGraph<C(!new)>(g: Graph, left: seq<Side<C>>, right: seq<Side<C>>) {
    forall e :: e in g <==>
      && e.l < |left| && e.r < |right|
      && left[e.l].kind == right[e.r].kind
      && (right[e.r].role == NoRole || right[e.r].role == left[e.l].role)
  }

  /** No edge can simply be added. */
  ghost predicate Maximal(g: Graph, m: set<Edge>) {
    IsMatching(m) && m <= g.Keys && forall e :: e in g ==> exists f :: f in m && Conflict(e, f)
  }

  ghost predicate Free(m: set<Edge>, i: nat) {
    forall f :: f in m ==> f.l != i
  }

  ghost predicate FreeRight(m: set<Edge>, j: nat) {
    forall f :: f in m ==> f.r != j
  }

  /** Two elements of one kind are left over although they need not be: the matched
      edge `h` gives an element without a role to one for whose role `w` is free, and
      `u` could have it instead. */
  ghost predicate Stranded<C(!new)>(left: seq<Side<C>>, right: seq<Side<C>>, m: set<Edge>, u: nat, h: Edge, w: nat) {
    && u < |left| && Free(m, u) && w < |right| && FreeRight(m, w)
    && h in m && h.l < |left| && h.r < |right|
    && right[h.r].role == NoRole && right[w].role == left[h.l].role != NoRole
    && left[u].kind == left[h.l].kind == right[w].kind
  }

  ghost predicate SomeStranded<C(!new)>(left: seq<Side<C>>, right: seq<Side<C>>, m: set<Edge>) {
    exists u: nat, h, w: nat :: Stranded(left, right, m, u, h, w)
  }

  lemma GreedyIsMaximal(g: Graph, m: set<Edge>)
    requires Greedy(g, m)
    ensures Maximal(g, m)
  {
    forall e | e in g ensures exists f :: f in m && Conflict(e, f) {
      SharesAnEnd(g, m, e);
    }
  }

  /** Left elements that some alternating path from a free element of the same
      kind leads to. */
  ghost predicate Reached<C(!new)>(left: seq<Side<C>>, right: seq<Side<C>>, m: set<Edge>, s: Side<C>) {
    || (exists u: nat :: u < |left| && Free(m, u) && left[u] == s)
    || ((exists u: nat :: u < |left| && Free(m, u) && left[u].kind == s.kind)
        && exists f :: f in m && f.l < |left| && f.r < |right| && left[f.l] == s && right[f.r].role == NoRole)
  }

  /** A right end that a reached element could use is matched, to a reached element. */
  lemma ReachedIsCovered<C(!new)>(g: Graph, left: seq<Side<C>>, right: seq<Side<C>>, m: set<Edge>, e: Edge)
    returns (f: Edge)
    requires RoleGraph(g, left, right) && Maximal(g, m) && !SomeStranded(left, right, m) && e in g
    requires Reached(left, right, m, left[e.l])
    ensures f in m && f.r == e.r && Reached(left, right, m, left[f.l])
  {
    var s := left[e.l];
    var u: nat :| u < |left| && Free(m, u) && left[u].kind == s.kind;
    if right[e.r].role == NoRole {
      f := FreeIsBlocked(g, m, Edge(u, e.r));
    } else {
      if v: nat :| v < |left| && Free(m, v) && left[v] == s {
        f := FreeIsBlocked(g, m, Edge(v, e.r));
      } else {
        var h :| h in m && h.l < |left| && h.r < |right| && left[h.l] == s && right[h.r].role == NoRole;
        assert !Stranded(left, right, m, u, h, e.r);
        f :| f in m && f.r == e.r;
      }
      assert left[f.l] == s;
    }
  }

  lemma FreeIsBlocked(g: Graph, m: set<Edge>, e: Edge) returns (f: Edge)
    requires Maximal(g, m) && e in g && Free(m, e.l)
    ensures f in m && f.r == e.r
  {
    f :| f in m && Conflict(e, f);
  }

  /** Every compatible edge is charged to a matched one: by its right end if its
      left end is reached, by its left end otherwise. */
  lemma ChargesSomething<C(!new)>(g: Graph, left: seq<Side<C>>, right: seq<Side<C>>, m: set<Edge>, byLeft: set<Edge>, e: Edge)
    requires RoleGraph(g, left, right) && Maximal(g, m) && !SomeStranded(left, right, m) && e in g
    requires forall f :: f in m ==> f.l < |left| && (f in byLeft <==> !Reached(left, right, m, left[f.l]))
    ensures Charged(m, byLeft, e)
  {
    if Reached(left, right, m, left[e.l]) {
      var f := ReachedIsCovered(g, left, right, m, e);
      assert f !in byLeft;
    } else {
      assert !Free(m, e.l);
      var f :| f in m && f.l == e.l;
      assert f in byLeft;
    }
  }

  /** If nothing is stranded, no matching is larger. */
  lemma UnstrandedIsMaximum<C(!new)>(g: Graph, left: seq<Side<C>>, right: seq<Side<C>>, m: set<Edge>, n: set<Edge>)
    requires RoleGraph(g, left, right) && Maximal(g, m) && !SomeStranded(left, right, m)
    requires n <= g.Keys && IsMatching(n)
    ensures |n| <= |m|
  {
    var byLeft := set f | f in m && !Reached(left, right, m, left[f.l]);
    forall e | e in n ensures Charged(m, byLeft, e) {
      ChargesSomething(g, left, right, m, byLeft, e);
    }
    ChargeBound(n, m, byLeft);
  }

  /** Replacing one edge by two that touch nothing else matches one more. */
  lemma SwapIn(m: set<Edge>, h: Edge, a: Edge, b: Edge)
    requires IsMatching(m) && h in m && a.l == h.l && b.r == h.r && Free(m, b.l) && FreeRight(m, a.r)
    ensures IsMatching(m - {h} + {a, b}) && |m - {h} + {a, b}| == |m| + 1
  {
    var rest := m - {h};
    forall f | f in rest ensures !Conflict(f, a) && !Conflict(f, b) {
      assert f in m && !Conflict(f, h);
    }
    assert !Conflict(a, b);
    SwapSize(m, h, a, b);
  }

  lemma SwapSize(m: set<Edge>, h: Edge, a: Edge, b: Edge)
    requires h in m && a !in m && b !in m && a != b
    ensures |m - {h} + {a, b}| == |m| + 1
  {
    assert m - {h} + {a, b} == (m - {h} + {a}) + {b};
  }

  /** If something is, giving `w` to the owner of `h` and its old partner to `u`
      matches one more. */
  lemma StrandedIsImproved<C(!new)>(g: Graph, left: seq<Side<C>>, right: seq<Side<C>>, m: set<Edge>, u: nat, h: Edge, w: nat)
    returns (n: set<Edge>)
    requires RoleGraph(g, left, right) && Maximal(g, m) && Stranded(left, right, m, u, h, w)
    ensures n <= g.Keys && IsMatching(n) && |n| == |m| + 1
  {
    n := m - {h} + {Edge(h.l, w), Edge(u, h.r)};
    SwapIn(m, h, Edge(h.l, w), Edge(u, h.r));
  }

  /** A matching that cannot be added to is a largest one exactly if nothing is
      stranded. */
  lemma MaximumIff<C(!new)>(g: Graph, left: seq<Side<C>>, right: seq<Side<C>>, m: set<Edge>)
    requires RoleGraph(g, left, right) && Maximal(g, m)
    ensures IsMaximum(g, m) <==> !SomeStranded(left, right, m)
  {
    if SomeStranded(left, right, m) {
      var u: nat, h, w: nat :| Stranded(left, right, m, u, h, w);
      var n := StrandedIsImproved(g, left, right, m, u, h, w);
    } else {
      forall n | n <= g.Keys && IsMatching(n) ensures |n| <= |m| {
        UnstrandedIsMaximum(g, left, right, m, n);
      }
    }
  }

  ghost predicate IsMaximum(g: Graph, m: set<Edge>) {
    forall n :: n <= g.Keys && IsMatching(n) ==> |n| <= |m|
  }
}
