/** The generic join engine: `Join` pairs elements by score, `HashJoin` by key. */
module Join {
  import opened Prelude
  import opened Matching

  ghost predicate Scorable<L(!new), R(!new)>(left: seq<L>, right: seq<R>, score: (L, R) --> int) {
    forall i, j :: 0 <= i < |left| && 0 <= j < |right| ==> score.requires(left[i], right[j])
  }

  /** The edges that may be matched: those whose score is not negative. */
  ghost function Scored<L(!new), R(!new)>(left: seq<L>, right: seq<R>, score: (L, R) --> int): (g: Graph)
    requires Scorable(left, right, score)
    ensures forall e :: e in g <==>
              e.l < |left| && e.r < |right| && score(left[e.l], right[e.r]) >= 0
    ensures forall e :: e in g ==> g[e] == score(left[e.l], right[e.r])
  {
    map l: nat, r: nat | l < |left| && r < |right| && score(left[l], right[r]) >= 0 ::
      Edge(l, r) := score(left[l], right[r])
  }

  ghost predicate InRange(es: seq<Edge>, nl: nat, nr: nat) {
    forall k :: 0 <= k < |es| ==> es[k].l < nl && es[k].r < nr
  }

  /** What `Join` must match: the reference matching of the scored edges. */
  ghost function JoinEdges<L(!new), R(!new)>(left: seq<L>, right: seq<R>, score: (L, R) --> int): (m: seq<Edge>)
    requires Scorable(left, right, score)
    ensures InRange(m, |left|, |right|)
  {
    var g := Scored(left, right, score);
    ReferenceIsGreedy(g);
    Reference(g)
  }

  function PairUp<L, R>(left: seq<L>, right: seq<R>, es: seq<Edge>): (r: seq<(L, R)>)
    requires forall k :: 0 <= k < |es| ==> es[k].l < |left| && es[k].r < |right|
    ensures |r| == |es|
    ensures forall k :: 0 <= k < |es| ==> r[k] == (left[es[k].l], right[es[k].r])
  {
    seq(|es|, k requires 0 <= k < |es| => (left[es[k].l], right[es[k].r]))
  }

  function Lefts(es: seq<Edge>): (r: set<nat>)
    ensures forall i: nat :: i in r <==> exists k :: 0 <= k < |es| && es[k].l == i
  {
    set e | e in es :: e.l
  }

  function Rights(es: seq<Edge>): (r: set<nat>)
    ensures forall j: nat :: j in r <==> exists k :: 0 <= k < |es| && es[k].r == j
  {
    set e | e in es :: e.r
  }

  /** The indices below `n` outside `used`, in order. */
  function Unused(n: nat, used: set<nat>): (r: seq<nat>)
    ensures forall i: nat :: i in r <==> i < n && i !in used
    ensures forall k :: 0 <= k < |r| ==> r[k] < n
    ensures NoDuplicates(r)
  {
    if n == 0 then [] else Unused(n - 1, used) + if n - 1 in used then [] else [n - 1]
  }

  function Pick<T>(s: seq<T>, at: seq<nat>): (r: seq<T>)
    requires forall k :: 0 <= k < |at| ==> at[k] < |s|
    ensures |r| == |at| && forall k :: 0 <= k < |at| ==> r[k] == s[at[k]]
  {
    seq(|at|, k requires 0 <= k < |at| => s[at[k]])
  }

  datatype ScoredPair = ScoredPair(left: nat, right: nat, score: int) {
    function E(): Edge { Edge(left, right) }
  }

  function InsertByScore(x: ScoredPair, s: seq<ScoredPair>): (r: seq<ScoredPair>) {
    if s == [] || x.score <= s[0].score then [x] + s
    else [s[0]] + InsertByScore(x, s[1..])
  }

  /** A stable sort by score: of two pairs with equal scores, the one that comes
      first in `s` stays first. */
  function StableSort(s: seq<ScoredPair>): (r: seq<ScoredPair>) {
    if s == [] then [] else InsertByScore(s[0], StableSort(s[1..]))
  }

  function Edges(s: seq<ScoredPair>): (r: seq<Edge>)
    ensures |r| == |s| && forall k :: 0 <= k < |s| ==> r[k] == s[k].E()
  {
    seq(|s|, k requires 0 <= k < |s| => s[k].E())
  }

  /** Every entry of `s` is an edge of `g` with its score. */
  ghost predicate Ranked(g: Graph, s: seq<ScoredPair>) {
    forall k :: 0 <= k < |s| ==> s[k].E() in g && g[s[k].E()] == s[k].score
  }

  predicate Earlier(x: ScoredPair, y: ScoredPair) {
    x.left < y.left || (x.left == y.left && x.right < y.right)
  }

  /** `s` is in generation order: by left index, then right index. */
  ghost predicate InOrder(s: seq<ScoredPair>) {
    forall j, k :: 0 <= j < k < |s| ==> Earlier(s[j], s[k])
  }

  lemma {:induction false} InsertKeeps(x: ScoredPair, s: seq<ScoredPair>)
    ensures Elements(InsertByScore(x, s)) == Elements(s) + {x}
  {
    if s != [] && x.score > s[0].score {
      InsertKeeps(x, s[1..]);
      assert s == [s[0]] + s[1..];
    }
  }

  lemma {:induction false} InsertAscending(g: Graph, x: ScoredPair, s: seq<ScoredPair>)
    requires Ranked(g, s) && Ranked(g, [x])
    requires forall y :: y in s ==> Earlier(x, y)
    requires Ascending(g, Edges(s))
    ensures Ranked(g, InsertByScore(x, s))
    ensures Ascending(g, Edges(InsertByScore(x, s)))
  {
    assert [x][0] == x;
    if s == [] || x.score <= s[0].score {
      assert Edges([x] + s) == [x.E()] + Edges(s);
      forall k | 0 <= k < |s| ensures Before(g, x.E(), Edges(s)[k]) {
        assert s[k] in s;
        assert k > 0 ==> Before(g, Edges(s)[0], Edges(s)[k]);
      }
    } else {
      var t := s[1..];
      assert Edges(t) == Edges(s)[1..];
      InsertAscending(g, x, t);
      InsertKeeps(x, t);
      PrependAscending(g, s[0], InsertByScore(x, t), s, x);
    }
  }

  lemma PrependAscending(g: Graph, h: ScoredPair, r: seq<ScoredPair>, s: seq<ScoredPair>, x: ScoredPair)
    requires s != [] && h == s[0] && Ranked(g, s) && Ascending(g, Edges(s))
    requires Ranked(g, r) && Ascending(g, Edges(r))
    requires forall y :: y in r ==> y == x || y in s[1..]
    requires h.score < x.score
    ensures Ranked(g, [h] + r) && Ascending(g, Edges([h] + r))
  {
    assert Edges([h] + r) == [h.E()] + Edges(r);
    forall k | 0 <= k < |r| ensures Before(g, h.E(), Edges(r)[k]) {
      assert r[k] in r;
      if r[k] != x {
        var j :| 1 <= j < |s| && s[j] == r[k];
        assert Before(g, Edges(s)[0], Edges(s)[j]);
      }
    }
  }

  /** Sorting the generated pairs by score alone orders them by (score, left, right). */
  lemma {:induction false} StableSortAscending(g: Graph, s: seq<ScoredPair>)
    requires Ranked(g, s) && InOrder(s)
    ensures Elements(StableSort(s)) == Elements(s)
    ensures Ranked(g, StableSort(s))
    ensures Ascending(g, Edges(StableSort(s)))
  {
    if s != [] {
      StableSortAscending(g, s[1..]);
      var r := StableSort(s[1..]);
      assert s == [s[0]] + s[1..];
      forall y | y in r ensures Earlier(s[0], y) {
        assert y in Elements(s[1..]);
      }
      InsertAscending(g, s[0], r);
      InsertKeeps(s[0], r);
    }
  }

  /** `e` is matched already, or can never be. */
  ghost predicate Settled(g: Graph, chosen: seq<Edge>, e: Edge)
    requires e in g && forall f :: f in chosen ==> f in g
  {
    e in chosen || exists f :: f in chosen && Conflict(e, f) && Before(g, f, e)
  }

  ghost predicate Disjoint(chosen: seq<Edge>) {
    forall e, f :: e in chosen && f in chosen && Conflict(e, f) ==> e == f
  }

  lemma ExtendDisjoint(chosen: seq<Edge>, f: Edge)
    requires Disjoint(chosen) && f.l !in Lefts(chosen) && f.r !in Rights(chosen)
    ensures Disjoint(chosen + [f])
  {
    assert forall x :: x in chosen ==> x.l in Lefts(chosen) && x.r in Rights(chosen);
  }

  predicate Seen(e: Edge, i: nat, j: nat) {
    e.l < i || (e.l == i && e.r < j)
  }

  /** State of the pair generation: `chosen` are the score-0 pairs made so far,
      `todo` the pairs kept for sorting, and every edge seen is accounted for. */
  ghost predicate Generating(g: Graph, chosen: seq<Edge>, todo: seq<ScoredPair>, i: nat, j: nat) {
    && Ascending(g, chosen)
    && Disjoint(chosen)
    && (forall e :: e in chosen ==> g[e] == 0 && Seen(e, i, j))
    && Ranked(g, todo) && InOrder(todo)
    && (forall p :: p in todo ==> p.score > 0 && Seen(p.E(), i, j))
    && (forall e :: e in g && Seen(e, i, j) ==>
          Settled(g, chosen, e) || ScoredPair(e.l, e.r, g[e]) in todo)
  }

  /** Skipping a column whose right end is taken loses nothing. */
  lemma SkipTaken(g: Graph, chosen: seq<Edge>, todo: seq<ScoredPair>, i: nat, j: nat)
    requires Generating(g, chosen, todo, i, j)
    requires j in Rights(chosen) && i !in Lefts(chosen)
    ensures Generating(g, chosen, todo, i, j + 1)
  {
    var e := Edge(i, j);
    if e in g {
      var k :| 0 <= k < |chosen| && chosen[k].r == j;
      assert chosen[k] in chosen;
      assert Conflict(e, chosen[k]) && Before(g, chosen[k], e);
      assert Settled(g, chosen, e);
    }
  }

  lemma SkipIncompatible(g: Graph, chosen: seq<Edge>, todo: seq<ScoredPair>, i: nat, j: nat)
    requires Generating(g, chosen, todo, i, j)
    requires Edge(i, j) !in g
    ensures Generating(g, chosen, todo, i, j + 1)
  {
  }

  /** Pairing at score 0 settles the rest of the row. */
  lemma PairNow(g: Graph, chosen: seq<Edge>, todo: seq<ScoredPair>, i: nat, j: nat)
    requires Generating(g, chosen, todo, i, j)
    requires j !in Rights(chosen) && i !in Lefts(chosen)
    requires Edge(i, j) in g && g[Edge(i, j)] == 0
    ensures Generating(g, chosen + [Edge(i, j)], todo, i + 1, 0)
  {
    var f := Edge(i, j);
    var next := chosen + [f];
    ExtendDisjoint(chosen, f);
    assert f in next;
    assert Ascending(g, next);
    forall e | e in g && Seen(e, i + 1, 0)
      ensures Settled(g, next, e) || ScoredPair(e.l, e.r, g[e]) in todo
    {
      if Seen(e, i, j) {
        assert Settled(g, chosen, e) ==> Settled(g, next, e);
      } else if e != f {
        assert Conflict(e, f) && Before(g, f, e);
      }
    }
  }

  lemma KeepForLater(g: Graph, chosen: seq<Edge>, todo: seq<ScoredPair>, i: nat, j: nat)
    requires Generating(g, chosen, todo, i, j)
    requires Edge(i, j) in g && g[Edge(i, j)] > 0
    ensures Generating(g, chosen, todo + [ScoredPair(i, j, g[Edge(i, j)])], i, j + 1)
  {
  }

  lemma NextRow(g: Graph, chosen: seq<Edge>, todo: seq<ScoredPair>, i: nat, nr: nat)
    requires Generating(g, chosen, todo, i, nr)
    requires forall e :: e in g ==> e.r < nr
    ensures Generating(g, chosen, todo, i + 1, 0)
  {
  }

  /** State of the collection: the edges before `sorted[k]` are settled as well. */
  ghost predicate Collecting(g: Graph, chosen: seq<Edge>, sorted: seq<ScoredPair>, k: nat)
    requires k <= |sorted|
  {
    && Ascending(g, chosen)
    && Disjoint(chosen)
    && Ranked(g, sorted) && Ascending(g, Edges(sorted))
    && (forall e, n :: e in chosen && k <= n < |sorted| ==> Before(g, e, sorted[n].E()))
    && (forall e :: e in g ==>
          Settled(g, chosen, e) || exists n :: k <= n < |sorted| && sorted[n].E() == e)
  }

  lemma StartCollecting(g: Graph, chosen: seq<Edge>, todo: seq<ScoredPair>, n: nat)
    requires Generating(g, chosen, todo, n, 0)
    requires forall e :: e in g ==> e.l < n
    ensures Collecting(g, chosen, StableSort(todo), 0)
  {
    StableSortAscending(g, todo);
    var sorted := StableSort(todo);
    forall e | e in g && !Settled(g, chosen, e)
      ensures exists n :: 0 <= n < |sorted| && sorted[n].E() == e
    {
      assert ScoredPair(e.l, e.r, g[e]) in Elements(todo);
      assert ScoredPair(e.l, e.r, g[e]) in sorted;
    }
    forall n | 0 <= n < |sorted| ensures sorted[n].score > 0 {
      assert sorted[n] in Elements(sorted);
      assert sorted[n] in todo;
    }
  }

  lemma CollectSkip(g: Graph, chosen: seq<Edge>, sorted: seq<ScoredPair>, k: nat)
    requires k < |sorted| && Collecting(g, chosen, sorted, k)
    requires sorted[k].left in Lefts(chosen) || sorted[k].right in Rights(chosen)
    ensures Collecting(g, chosen, sorted, k + 1)
  {
    var e := sorted[k].E();
    var f :| f in chosen && Conflict(e, f);
    assert Before(g, f, e);
    assert Settled(g, chosen, e);
  }

  lemma CollectTake(g: Graph, chosen: seq<Edge>, sorted: seq<ScoredPair>, k: nat)
    requires k < |sorted| && Collecting(g, chosen, sorted, k)
    requires sorted[k].left !in Lefts(chosen) && sorted[k].right !in Rights(chosen)
    ensures Collecting(g, chosen + [sorted[k].E()], sorted, k + 1)
  {
    var f := sorted[k].E();
    var next := chosen + [f];
    ExtendDisjoint(chosen, f);
    assert Ascending(g, next);
    forall e | e in g
      ensures Settled(g, next, e) || exists n :: k + 1 <= n < |sorted| && sorted[n].E() == e
    {
      assert Settled(g, chosen, e) ==> Settled(g, next, e);
      assert f in next;
    }
    forall n | k + 1 <= n < |sorted| ensures Before(g, f, sorted[n].E()) {
      assert Before(g, Edges(sorted)[k], Edges(sorted)[n]);
    }
  }

  /** The early exit is sound: once one side is exhausted every later pair is blocked. */
  lemma CollectDone(g: Graph, chosen: seq<Edge>, sorted: seq<ScoredPair>, k: nat)
    requires k <= |sorted| && Collecting(g, chosen, sorted, k)
    requires || k == |sorted|
             || (forall e :: e in g ==> e.l in Lefts(chosen))
             || (forall e :: e in g ==> e.r in Rights(chosen))
    ensures chosen == Reference(g)
  {
    var m := Elements(chosen);
    forall e | e in g ensures e in m || Blocked(g, m, e) {
      if n :| k <= n < |sorted| && sorted[n].E() == e {
        var f :| f in chosen && Conflict(e, f);
        assert f in m && Before(g, f, e);
      } else if e !in chosen {
        var f :| f in chosen && Conflict(e, f) && Before(g, f, e);
        assert f in m;
      }
    }
    GreedyIsReference(g, chosen);
  }

  /** `pairs`, `pairedLefts` and `pairedRights` record the edges chosen. */
  ghost predicate Tracks<L(!new), R(!new)>(left: seq<L>, right: seq<R>, chosen: seq<Edge>,
                                           pairs: seq<(L, R)>, pairedLefts: set<nat>, pairedRights: set<nat>)
  {
    && InRange(chosen, |left|, |right|)
    && pairs == PairUp(left, right, chosen)
    && pairedLefts == Lefts(chosen)
    && pairedRights == Rights(chosen)
  }

  lemma TrackPair<L(!new), R(!new)>(left: seq<L>, right: seq<R>, chosen: seq<Edge>,
                                    pairs: seq<(L, R)>, pairedLefts: set<nat>, pairedRights: set<nat>, e: Edge)
    requires Tracks(left, right, chosen, pairs, pairedLefts, pairedRights)
    requires e.l < |left| && e.r < |right|
    ensures Tracks(left, right, chosen + [e], pairs + [(left[e.l], right[e.r])],
                   pairedLefts + {e.l}, pairedRights + {e.r})
  {
    var next := chosen + [e];
    assert PairUp(left, right, next) == pairs + [(left[e.l], right[e.r])];
    forall i: nat ensures i in Lefts(next) <==> i in pairedLefts + {e.l} {
      if i in pairedLefts { var k :| 0 <= k < |chosen| && chosen[k].l == i; assert next[k].l == i; }
      assert next[|chosen|] == e;
    }
    forall j: nat ensures j in Rights(next) <==> j in pairedRights + {e.r} {
      if j in pairedRights { var k :| 0 <= k < |chosen| && chosen[k].r == j; assert next[k].r == j; }
      assert next[|chosen|] == e;
    }
  }

  /** Matches `left` against `right`, lower scores first, never a negative one.
      The result is that of the plain description: the score-0 shortcut, the pairs
      that are never scored and the early exit make no difference. */
  method Join<L(!new), R(!new)>(left: seq<L>, right: seq<R>, score: (L, R) --> int)
    returns (pairs: seq<(L, R)>, lonelyLefts: seq<L>, lonelyRights: seq<R>)
    requires Scorable(left, right, score)
    ensures var m := JoinEdges(left, right, score);
            && pairs == PairUp(left, right, m)
            && lonelyLefts == Pick(left, Unused(|left|, Lefts(m)))
            && lonelyRights == Pick(right, Unused(|right|, Rights(m)))
  {
    ghost var g := Scored(left, right, score);
    ghost var chosen: seq<Edge> := [];
    var pairedLefts: set<nat>, pairedRights: set<nat> := {}, {};
    var scoredPairs: seq<ScoredPair> := [];
    pairs := [];
    for i := 0 to |left|
      invariant Generating(g, chosen, scoredPairs, i, 0)
      invariant Tracks(left, right, chosen, pairs, pairedLefts, pairedRights)
    {
      pairs, pairedLefts, pairedRights, scoredPairs, chosen :=
        ScanRow(left, right, score, i, pairs, pairedLefts, pairedRights, scoredPairs, chosen);
    }
    pairs, pairedLefts, pairedRights, chosen :=
      Collect(left, right, score, pairs, pairedLefts, pairedRights, scoredPairs, chosen);
    lonelyLefts := Leftover(left, pairedLefts);
    lonelyRights := Leftover(right, pairedRights);
  }

  /** One round of the outer generation loop: row `i` against every right element. */
  method ScanRow<L(!new), R(!new)>(left: seq<L>, right: seq<R>, score: (L, R) --> int, i: nat,
                                   pairs0: seq<(L, R)>, lefts0: set<nat>, rights0: set<nat>,
                                   todo0: seq<ScoredPair>, ghost chosen0: seq<Edge>)
    returns (pairs: seq<(L, R)>, pairedLefts: set<nat>, pairedRights: set<nat>,
             scoredPairs: seq<ScoredPair>, ghost chosen: seq<Edge>)
    requires Scorable(left, right, score) && i < |left|
    requires Generating(Scored(left, right, score), chosen0, todo0, i, 0)
    requires Tracks(left, right, chosen0, pairs0, lefts0, rights0)
    ensures Generating(Scored(left, right, score), chosen, scoredPairs, i + 1, 0)
    ensures Tracks(left, right, chosen, pairs, pairedLefts, pairedRights)
  {
    ghost var g := Scored(left, right, score);
    pairs, pairedLefts, pairedRights, scoredPairs, chosen := pairs0, lefts0, rights0, todo0, chosen0;
    for j := 0 to |right|
      invariant Generating(g, chosen, scoredPairs, i, j) && i !in pairedLefts
      invariant Tracks(left, right, chosen, pairs, pairedLefts, pairedRights)
    {
      if j in pairedRights {
        SkipTaken(g, chosen, scoredPairs, i, j);
        continue;
      }
      var s := score(left[i], right[j]);
      if s == 0 {
        PairNow(g, chosen, scoredPairs, i, j);
        TrackPair(left, right, chosen, pairs, pairedLefts, pairedRights, Edge(i, j));
        chosen := chosen + [Edge(i, j)];
        pairs := pairs + [(left[i], right[j])];
        pairedLefts := pairedLefts + {i};
        pairedRights := pairedRights + {j};
        return;
      } else if s > 0 {
        KeepForLater(g, chosen, scoredPairs, i, j);
        scoredPairs := scoredPairs + [ScoredPair(i, j, s)];
      } else {
        SkipIncompatible(g, chosen, scoredPairs, i, j);
      }
    }
    NextRow(g, chosen, scoredPairs, i, |right|);
  }

  /** Sorts the pairs kept for later and collects the best ones. */
  method Collect<L(!new), R(!new)>(left: seq<L>, right: seq<R>, score: (L, R) --> int,
                                   pairs0: seq<(L, R)>, lefts0: set<nat>, rights0: set<nat>,
                                   todo: seq<ScoredPair>, ghost chosen0: seq<Edge>)
    returns (pairs: seq<(L, R)>, pairedLefts: set<nat>, pairedRights: set<nat>, ghost chosen: seq<Edge>)
    requires Scorable(left, right, score)
    requires Generating(Scored(left, right, score), chosen0, todo, |left|, 0)
    requires Tracks(left, right, chosen0, pairs0, lefts0, rights0)
    ensures chosen == JoinEdges(left, right, score)
    ensures Tracks(left, right, chosen, pairs, pairedLefts, pairedRights)
  {
    ghost var g := Scored(left, right, score);
    pairs, pairedLefts, pairedRights, chosen := pairs0, lefts0, rights0, chosen0;
    var sorted := StableSort(todo);
    StartCollecting(g, chosen, todo, |left|);
    var k := 0;
    while k < |sorted|
      invariant k <= |sorted|
      invariant Collecting(g, chosen, sorted, k)
      invariant Tracks(left, right, chosen, pairs, pairedLefts, pairedRights)
    {
      if |pairedLefts| == |left| || |pairedRights| == |right| {
        break;
      }
      var p := sorted[k];
      if p.left in pairedLefts || p.right in pairedRights {
        CollectSkip(g, chosen, sorted, k);
      } else {
        CollectTake(g, chosen, sorted, k);
        TrackPair(left, right, chosen, pairs, pairedLefts, pairedRights, p.E());
        chosen := chosen + [p.E()];
        pairs := pairs + [(left[p.left], right[p.right])];
        pairedLefts := pairedLefts + {p.left};
        pairedRights := pairedRights + {p.right};
      }
      k := k + 1;
    }
    if |pairedLefts| == |left| { FullSubset(pairedLefts, UpTo(|left|)); }
    if |pairedRights| == |right| { FullSubset(pairedRights, UpTo(|right|)); }
    CollectDone(g, chosen, sorted, k);
  }

  lemma PickSnoc<T>(s: seq<T>, at: seq<nat>, i: nat)
    requires i < |s| && forall k :: 0 <= k < |at| ==> at[k] < |s|
    ensures Pick(s, at + [i]) == Pick(s, at) + [s[i]]
  {
  }

  /** The elements whose index is not in `paired`, in the original order. */
  method Leftover<T>(s: seq<T>, paired: set<nat>) returns (r: seq<T>)
    ensures r == Pick(s, Unused(|s|, paired))
  {
    r := [];
    for i := 0 to |s|
      invariant r == Pick(s, Unused(i, paired))
    {
      if i !in paired {
        PickSnoc(s, Unused(i, paired), i);
        r := r + [s[i]];
      }
    }
  }
}
