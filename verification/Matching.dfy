/** Greedy matching on a scored bipartite graph.

    An edge joins the index of a left element to the index of a right element.
    A graph holds exactly the edges whose score is not negative.  The reference
    matching sorts every edge by (score, left, right) and takes each edge whose
    two ends are still free. */
module Matching {
  import opened Prelude

  datatype Edge = Edge(l: nat, r: nat)

  type Graph = map<Edge, nat>

  predicate Conflict(e: Edge, f: Edge) {
    e.l == f.l || e.r == f.r
  }

  /** Strict order on edges by score, then left index, then right index. */
  predicate Before(g: Graph, e: Edge, f: Edge)
    requires e in g && f in g
  {
    if g[e] != g[f] then g[e] < g[f]
    else if e.l != f.l then e.l < f.l
    else e.r < f.r
  }

  ghost predicate IsMatching(m: set<Edge>) {
    forall e, f :: e in m && f in m && Conflict(e, f) ==> e == f
  }

  /** `m` blocks `e`: it has an earlier edge that shares an end with `e`. */
  ghost predicate Blocked(g: Graph, m: set<Edge>, e: Edge)
    requires m <= g.Keys && e in g
  {
    exists f :: f in m && Conflict(e, f) && Before(g, f, e)
  }

  /** `m` is a matching in which every edge left out is blocked. */
  ghost predicate Greedy(g: Graph, m: set<Edge>) {
    && m <= g.Keys
    && IsMatching(m)
    && forall e :: e in g ==> e in m || Blocked(g, m, e)
  }

  /** The edges of `s` in ascending order: a strictly sorted sequence. */
  ghost predicate Ascending(g: Graph, s: seq<Edge>) {
    && (forall i :: 0 <= i < |s| ==> s[i] in g)
    && (forall i, j :: 0 <= i < j < |s| ==> Before(g, s[i], s[j]))
  }

  ghost predicate IsFirst(g: Graph, s: set<Edge>, e: Edge)
    requires s <= g.Keys
  {
    e in s && forall f :: f in s && f != e ==> Before(g, e, f)
  }

  lemma {:induction false} FirstExists(g: Graph, s: set<Edge>)
    requires s <= g.Keys && s != {}
    ensures exists e :: IsFirst(g, s, e)
    decreases |s|
  {
    var e :| e in s;
    if s == {e} {
      assert IsFirst(g, s, e);
    } else {
      FirstExists(g, s - {e});
      var f :| IsFirst(g, s - {e}, f);
      if Before(g, f, e) {
        assert IsFirst(g, s, f);
      } else {
        forall x | x in s && x != e ensures Before(g, e, x) {
          assert x == f || Before(g, f, x);
        }
        assert IsFirst(g, s, e);
      }
    }
  }

  ghost function First(g: Graph, s: set<Edge>): (e: Edge)
    requires s <= g.Keys && s != {}
    ensures IsFirst(g, s, e)
  {
    FirstExists(g, s);
    var e :| IsFirst(g, s, e);
    e
  }

  /** All edges of `s` sorted by (score, left, right). */
  ghost function Sorted(g: Graph, s: set<Edge>): (r: seq<Edge>)
    requires s <= g.Keys
    ensures Elements(r) == s
    ensures Ascending(g, r)
    decreases |s|
  {
    if s == {} then []
    else
      var e := First(g, s);
      [e] + Sorted(g, s - {e})
  }

  /** Goes through `todo` and appends each edge that is free with respect to the
      edges already taken. */
  function TakeFree(todo: seq<Edge>, taken: seq<Edge>): (r: seq<Edge>)
    decreases |todo|
  {
    if todo == [] then taken
    else if exists f :: f in taken && Conflict(todo[0], f) then TakeFree(todo[1..], taken)
    else TakeFree(todo[1..], taken + [todo[0]])
  }

  /** The plain description of the join. */
  ghost function Reference(g: Graph): (r: seq<Edge>) {
    TakeFree(Sorted(g, g.Keys), [])
  }

  lemma {:induction false} TakeFreeIsGreedy(g: Graph, all: seq<Edge>, k: nat, taken: seq<Edge>)
    requires Ascending(g, all) && k <= |all|
    requires Ascending(g, taken) && IsMatching(Elements(taken))
    requires forall e, f :: e in taken && f in all[k..] ==> Before(g, e, f)
    requires forall e :: e in all[..k] ==> e in taken || Blocked(g, Elements(taken), e)
    ensures var r := TakeFree(all[k..], taken);
            && Ascending(g, r) && IsMatching(Elements(r))
            && forall e :: e in all ==> e in r || Blocked(g, Elements(r), e)
    decreases |all| - k
  {
    if k < |all| {
      var e := all[k];
      assert e in all[k..];
      assert all[k..][1..] == all[k + 1..];
      assert all[..k + 1] == all[..k] + [e];
      if f :| f in taken && Conflict(e, f) {
        assert f in Elements(taken);
        TakeFreeIsGreedy(g, all, k + 1, taken);
      } else {
        var next := taken + [e];
        forall x | x in all[..k + 1] ensures x in next || Blocked(g, Elements(next), x) {
          if x != e && x !in taken {
            var f :| f in Elements(taken) && Conflict(x, f) && Before(g, f, x);
            assert f in Elements(next);
          }
        }
        TakeFreeIsGreedy(g, all, k + 1, next);
      }
    } else {
      assert all[..k] == all;
    }
  }

  /** The reference matching is greedy and comes out in ascending order. */
  lemma ReferenceIsGreedy(g: Graph)
    ensures Ascending(g, Reference(g)) && Greedy(g, Elements(Reference(g)))
  {
    var all := Sorted(g, g.Keys);
    assert all[0..] == all;
    TakeFreeIsGreedy(g, all, 0, []);
    forall e | e in g ensures e in Reference(g) || Blocked(g, Elements(Reference(g)), e) {
      assert e in Elements(all);
    }
  }

  /** A graph has only one greedy matching. */
  lemma GreedyUnique(g: Graph, m: set<Edge>, n: set<Edge>)
    requires Greedy(g, m) && Greedy(g, n)
    ensures m == n
  {
    var diff := (m - n) + (n - m);
    if diff != {} {
      var e := First(g, diff);
      assert false;
    }
  }

  /** A set of edges has only one ascending enumeration. */
  lemma {:induction false} AscendingUnique(g: Graph, s: seq<Edge>, t: seq<Edge>)
    requires Ascending(g, s) && Ascending(g, t) && Elements(s) == Elements(t)
    ensures s == t
    decreases |s|
  {
    assert |t| > 0 ==> t[0] in Elements(s);
    if s != [] {
      assert s[0] in Elements(t);
      assert s[0] == t[0];
      assert Elements(s[1..]) == Elements(s) - {s[0]};
      assert Elements(t[1..]) == Elements(t) - {t[0]};
      AscendingUnique(g, s[1..], t[1..]);
    }
  }

  /** Any ascending enumeration of a greedy matching is the reference matching. */
  lemma GreedyIsReference(g: Graph, s: seq<Edge>)
    requires Ascending(g, s) && Greedy(g, Elements(s))
    ensures s == Reference(g)
  {
    ReferenceIsGreedy(g);
    GreedyUnique(g, Elements(s), Elements(Reference(g)));
    AscendingUnique(g, s, Reference(g));
  }

  /** No blocking pair: an edge left out has an end matched at an equal or lower
      score. */
  lemma NoBlockingPair(g: Graph, e: Edge)
    requires e in g && e !in Reference(g)
    ensures exists f :: f in Reference(g) && Conflict(e, f) && f in g && g[f] <= g[e]
  {
    ReferenceIsGreedy(g);
    var f :| f in Elements(Reference(g)) && Conflict(e, f) && Before(g, f, e);
    assert f in Reference(g);
  }

  predicate Charged(m: set<Edge>, byLeft: set<Edge>, e: Edge) {
    || (exists f :: f in m && f in byLeft && f.l == e.l)
    || (exists f :: f in m && f !in byLeft && f.r == e.r)
  }

  /** If every edge of a matching `n` can be charged to an edge of `m` that shares
      its left end (when `byLeft` says so) or its right end, and no edge of `m` is
      charged in both ways, then `n` is no larger than `m`. */
  lemma ChargeBound(n: set<Edge>, m: set<Edge>, byLeft: set<Edge>)
    requires IsMatching(n)
    requires forall e :: e in n ==> Charged(m, byLeft, e)
    ensures |n| <= |m|
  {
    var charge := map e | e in n ::
      if exists f :: f in m && f in byLeft && f.l == e.l
      then var f :| f in m && f in byLeft && f.l == e.l; f
      else var f :| f in m && f !in byLeft && f.r == e.r; f;
    assert charge.Keys == n;
    forall a, b | a in charge && b in charge && charge[a] == charge[b] ensures a == b {
      assert Conflict(a, b);
    }
    InjectionBoundsSize(charge, m);
  }

  /** The edges of `n` that share their left end with `m`. */
  function SharingLeft(n: set<Edge>, m: set<Edge>): set<Edge> {
    set e | e in n && exists f :: f in m && f.l == e.l
  }

  lemma LeftHalf(n: set<Edge>, m: set<Edge>)
    requires IsMatching(n)
    ensures |SharingLeft(n, m)| <= |m|
  {
    ChargeBound(SharingLeft(n, m), m, m);
  }

  lemma RightHalf(g: Graph, n: set<Edge>, m: set<Edge>)
    requires Greedy(g, m) && n <= g.Keys && IsMatching(n)
    ensures |n - SharingLeft(n, m)| <= |m|
  {
    var rest := n - SharingLeft(n, m);
    forall e | e in rest ensures Charged(m, {}, e) {
      SharesAnEnd(g, m, e);
    }
    ChargeBound(rest, m, {});
  }

  /** No matching is more than twice as large as the greedy one. */
  lemma HalfOptimal(g: Graph, n: set<Edge>)
    requires n <= g.Keys && IsMatching(n)
    ensures |n| <= 2 * |Reference(g)|
  {
    ReferenceIsGreedy(g);
    var m := Elements(Reference(g));
    AscendingSize(g, Reference(g));
    LeftHalf(n, m);
    RightHalf(g, n, m);
    var left := SharingLeft(n, m);
    assert n == left + (n - left);
  }

  lemma SharesAnEnd(g: Graph, m: set<Edge>, e: Edge)
    requires Greedy(g, m) && e in g
    ensures exists f :: f in m && Conflict(e, f)
  {
    if e in m {
      assert Conflict(e, e);
    }
  }

  lemma AscendingSize(g: Graph, s: seq<Edge>)
    requires Ascending(g, s)
    ensures NoDuplicates(s) && |Elements(s)| == |s|
  {
    assert NoDuplicates(s);
    DistinctSize(s);
  }
}
