/** The keyed join. */
module HashJoin {
  import opened Prelude
  import opened Matching
  import opened Join

  /** Element `i` is the last one that holds its key. */
  ghost predicate IsLast<T(!new), K(!new)>(s: seq<T>, key: T -> K, i: nat) {
    i < |s| && forall k :: i < k < |s| ==> key(s[k]) != key(s[i])
  }

  /** Element `j` is the first one that holds its key. */
  ghost predicate IsEarliest<T(!new), K(!new)>(s: seq<T>, key: T -> K, j: nat) {
    j < |s| && forall k :: 0 <= k < j ==> key(s[k]) != key(s[j])
  }

  ghost predicate KeysDistinct<T(!new), K(!new)>(s: seq<T>, key: T -> K) {
    forall i, j :: 0 <= i < j < |s| ==> key(s[i]) != key(s[j])
  }

  /** What a hash join matches: the last left holder of a key with its first right
      holder.  `es` are the matched index pairs and `lone` the last holders left over. */
  ghost predicate HashMatched<L(!new), R(!new), K(!new)>(
    left: seq<L>, right: seq<R>, lKey: L -> K, rKey: R -> K, es: seq<Edge>, lone: seq<nat>)
  {
    && NoDuplicates(es) && NoDuplicates(lone)
    && (forall i: nat, j: nat :: Edge(i, j) in es <==>
          IsLast(left, lKey, i) && IsEarliest(right, rKey, j) && lKey(left[i]) == rKey(right[j]))
    && (forall i: nat :: i in lone <==> IsLast(left, lKey, i) && i !in Lefts(es))
  }

  lemma HashMatchedInRange<L(!new), R(!new), K(!new)>(
    left: seq<L>, right: seq<R>, lKey: L -> K, rKey: R -> K, es: seq<Edge>, lone: seq<nat>)
    requires HashMatched(left, right, lKey, rKey, es, lone)
    ensures InRange(es, |left|, |right|)
    ensures forall k :: 0 <= k < |lone| ==> lone[k] < |left|
  {
    forall k | 0 <= k < |es| ensures es[k].l < |left| && es[k].r < |right| {
      assert Edge(es[k].l, es[k].r) in es;
    }
    forall k | 0 <= k < |lone| ensures lone[k] < |left| {
      assert lone[k] in lone;
    }
  }

  /** Every key of the left list has one last holder. */
  lemma {:induction false} LastHolder<T(!new), K(!new)>(s: seq<T>, key: T -> K, i: nat) returns (n: nat)
    requires i < |s|
    ensures i <= n && IsLast(s, key, n) && key(s[n]) == key(s[i])
    decreases |s| - i
  {
    n := i;
    if k :| i < k < |s| && key(s[k]) == key(s[i]) {
      n := LastHolder(s, key, k);
    }
  }

  lemma {:induction false} EarliestHolder<T(!new), K(!new)>(s: seq<T>, key: T -> K, j: nat) returns (n: nat)
    requires j < |s|
    ensures n <= j && IsEarliest(s, key, n) && key(s[n]) == key(s[j])
  {
    n := j;
    if k: nat :| k < j && key(s[k]) == key(s[j]) {
      n := EarliestHolder(s, key, k);
    }
  }

  /** `last` gives the index of the last holder of every key of `left[..n]`. */
  ghost predicate LastIndex<L(!new), K(!new)>(left: seq<L>, lKey: L -> K, n: nat, last: map<K, nat>)
    requires n <= |left|
  {
    && (forall k :: k in last ==> last[k] < n && lKey(left[last[k]]) == k)
    && (forall k, i :: k in last && last[k] < i < n ==> lKey(left[i]) != k)
    && (forall i :: 0 <= i < n ==> lKey(left[i]) in last)
  }

  /** `table` maps the keys that `live` holds to their last holder. */
  ghost predicate Holds<L(!new), K(!new)>(left: seq<L>, last: map<K, nat>, table: map<K, L>) {
    && table.Keys <= last.Keys
    && (forall k :: k in table ==> last[k] < |left| && table[k] == left[last[k]])
  }

  method BuildTable<L(!new), K(!new,==)>(left: seq<L>, lKey: L -> K)
    returns (table: map<K, L>, ghost last: map<K, nat>)
    ensures LastIndex(left, lKey, |left|, last)
    ensures Holds(left, last, table) && table.Keys == last.Keys
  {
    table, last := map[], map[];
    for i := 0 to |left|
      invariant LastIndex(left, lKey, i, last)
      invariant Holds(left, last, table) && table.Keys == last.Keys
    {
      TableStep(left, lKey, i, last, table);
      table := table[lKey(left[i]) := left[i]];
      last := last[lKey(left[i]) := i];
    }
  }

  lemma TableStep<L(!new), K(!new)>(left: seq<L>, lKey: L -> K, i: nat, last: map<K, nat>, table: map<K, L>)
    requires i < |left| && LastIndex(left, lKey, i, last) && Holds(left, last, table) && table.Keys == last.Keys
    ensures LastIndex(left, lKey, i + 1, last[lKey(left[i]) := i])
    ensures Holds(left, last[lKey(left[i]) := i], table[lKey(left[i]) := left[i]])
  {
  }

  /** The pairs made by probing with `right[..j]`. */
  ghost predicate Probed<R(!new), K(!new)>(right: seq<R>, rKey: R -> K, j: nat, last: map<K, nat>, es: seq<Edge>)
    requires j <= |right|
  {
    && NoDuplicates(es)
    && forall e :: e in es <==>
         && e.r < j && IsEarliest(right, rKey, e.r)
         && rKey(right[e.r]) in last && e.l == last[rKey(right[e.r])]
  }

  ghost predicate Unprobed<R(!new), K(!new)>(right: seq<R>, rKey: R -> K, j: nat, k: K)
    requires j <= |right|
  {
    forall n :: 0 <= n < j ==> rKey(right[n]) != k
  }

  ghost predicate Remaining<R(!new), K(!new)>(right: seq<R>, rKey: R -> K, j: nat, last: map<K, nat>, live: set<K>)
    requires j <= |right|
  {
    forall k :: k in last ==> (k in live <==> Unprobed(right, rKey, j, k))
  }

  lemma RemainingStep<R(!new), K(!new)>(right: seq<R>, rKey: R -> K, j: nat, last: map<K, nat>, live: set<K>)
    requires j < |right| && Remaining(right, rKey, j, last, live)
    ensures Remaining(right, rKey, j + 1, last, live - {rKey(right[j])})
  {
  }

  lemma ExtendPairs<L(!new), R(!new)>(left: seq<L>, right: seq<R>, es: seq<Edge>, e: Edge)
    requires InRange(es, |left|, |right|) && e.l < |left| && e.r < |right|
    ensures InRange(es + [e], |left|, |right|)
    ensures PairUp(left, right, es + [e]) == PairUp(left, right, es) + [(left[e.l], right[e.r])]
  {
  }

  /** Everything the probing loop keeps after `right[..j]`. */
  ghost predicate Probing<L(!new), R(!new), K(!new)>(
    left: seq<L>, right: seq<R>, rKey: R -> K, j: nat, last: map<K, nat>, table: map<K, L>,
    pairs: seq<(L, R)>, lonelyRights: seq<R>, es: seq<Edge>)
    requires j <= |right|
  {
    && Probed(right, rKey, j, last, es)
    && InRange(es, |left|, |right|) && pairs == PairUp(left, right, es)
    && lonelyRights == Pick(right, Unused(j, Rights(es)))
    && Holds(left, last, table) && Remaining(right, rKey, j, last, table.Keys)
  }

  lemma ProbingHit<L(!new), R(!new), K(!new)>(
    left: seq<L>, right: seq<R>, rKey: R -> K, j: nat, last: map<K, nat>, table: map<K, L>,
    pairs: seq<(L, R)>, lonelyRights: seq<R>, es: seq<Edge>)
    requires j < |right| && Probing(left, right, rKey, j, last, table, pairs, lonelyRights, es)
    requires rKey(right[j]) in table
    ensures var k := rKey(right[j]);
            Probing(left, right, rKey, j + 1, last, table - {k},
                    pairs + [(table[k], right[j])], lonelyRights, es + [Edge(last[k], j)])
  {
    var k := rKey(right[j]);
    RemainingStep(right, rKey, j, last, table.Keys);
    assert (table - {k}).Keys == table.Keys - {k};
    ProbeHit(right, rKey, j, last, es);
    ExtendPairs(left, right, es, Edge(last[k], j));
    UnusedMore(j, es, Edge(last[k], j));
  }

  lemma ProbingMiss<L(!new), R(!new), K(!new)>(
    left: seq<L>, right: seq<R>, rKey: R -> K, j: nat, last: map<K, nat>, table: map<K, L>,
    pairs: seq<(L, R)>, lonelyRights: seq<R>, es: seq<Edge>)
    requires j < |right| && Probing(left, right, rKey, j, last, table, pairs, lonelyRights, es)
    requires rKey(right[j]) !in table
    ensures Probing(left, right, rKey, j + 1, last, table, pairs, lonelyRights + [right[j]], es)
  {
    RemainingStep(right, rKey, j, last, table.Keys);
    assert table.Keys - {rKey(right[j])} == table.Keys;
    ProbeMiss(right, rKey, j, last, es);
    assert Unused(j + 1, Rights(es)) == Unused(j, Rights(es)) + [j];
  }

  method Probe<L(!new), R(!new), K(!new,==)>(
    left: seq<L>, right: seq<R>, rKey: R -> K, table0: map<K, L>, ghost last: map<K, nat>)
    returns (pairs: seq<(L, R)>, lonelyRights: seq<R>, table: map<K, L>, ghost es: seq<Edge>)
    requires Holds(left, last, table0) && table0.Keys == last.Keys
    ensures Probing(left, right, rKey, |right|, last, table, pairs, lonelyRights, es)
  {
    pairs, lonelyRights, table, es := [], [], table0, [];
    for j := 0 to |right|
      invariant Probing(left, right, rKey, j, last, table, pairs, lonelyRights, es)
    {
      var k := rKey(right[j]);
      if k in table {
        ProbingHit(left, right, rKey, j, last, table, pairs, lonelyRights, es);
        pairs := pairs + [(table[k], right[j])];
        table := table - {k};
        es := es + [Edge(last[k], j)];
      } else {
        ProbingMiss(left, right, rKey, j, last, table, pairs, lonelyRights, es);
        lonelyRights := lonelyRights + [right[j]];
      }
    }
  }

  lemma ProbeHit<R(!new), K(!new)>(right: seq<R>, rKey: R -> K, j: nat, last: map<K, nat>, es: seq<Edge>)
    requires j < |right| && Probed(right, rKey, j, last, es)
    requires rKey(right[j]) in last && Unprobed(right, rKey, j, rKey(right[j]))
    ensures Probed(right, rKey, j + 1, last, es + [Edge(last[rKey(right[j])], j)])
  {
    var next := es + [Edge(last[rKey(right[j])], j)];
    assert IsEarliest(right, rKey, j);
    assert forall i :: 0 <= i < |es| ==> es[i] in es;
  }

  lemma ProbeMiss<R(!new), K(!new)>(right: seq<R>, rKey: R -> K, j: nat, last: map<K, nat>, es: seq<Edge>)
    requires j < |right| && Probed(right, rKey, j, last, es)
    requires rKey(right[j]) in last ==> !Unprobed(right, rKey, j, rKey(right[j]))
    ensures Probed(right, rKey, j + 1, last, es)
    ensures j !in Rights(es)
  {
    forall i | 0 <= i < |es| ensures es[i].r != j {
      assert es[i] in es;
    }
  }

  /** `lone` lists, once each, the last holders of the keys that are in `table0` and
      no longer in `table`. */
  ghost predicate Drained<L(!new), K(!new)>(table0: map<K, L>, table: map<K, L>, last: map<K, nat>, lone: seq<nat>)
    requires table0.Keys <= last.Keys
  {
    NoDuplicates(lone) && forall i: nat :: i in lone <==> exists k :: k in table0 && k !in table && last[k] == i
  }

  lemma DrainStep<L(!new), K(!new)>(table0: map<K, L>, table: map<K, L>, last: map<K, nat>, lone: seq<nat>, k: K)
    requires table.Keys <= table0.Keys <= last.Keys && k in table && Drained(table0, table, last, lone)
    requires forall j, n :: j in last && n in last && last[j] == last[n] ==> j == n
    ensures Drained(table0, table - {k}, last, lone + [last[k]])
  {
    assert last[k] !in lone;
    forall i: nat ensures i in lone + [last[k]] <==> exists j :: j in table0 && j !in table - {k} && last[j] == i {
      if i in lone {
        var j :| j in table0 && j !in table && last[j] == i;
        assert j !in table - {k};
      }
    }
  }

  /** Turns what remains of the table into a slice, in arbitrary order. */
  method Drain<L(!new), K(!new,==)>(left: seq<L>, table0: map<K, L>, ghost last: map<K, nat>)
    returns (values: seq<L>, ghost lone: seq<nat>)
    requires Holds(left, last, table0)
    requires forall k, n :: k in last && n in last && last[k] == last[n] ==> k == n
    ensures NoDuplicates(lone)
    ensures forall i: nat :: i in lone <==> exists k :: k in table0 && last[k] == i
    ensures (forall k :: 0 <= k < |lone| ==> lone[k] < |left|) && values == Pick(left, lone)
  {
    var table := table0;
    values, lone := [], [];
    while table != map[]
      invariant Holds(left, last, table) && table.Keys <= table0.Keys && Drained(table0, table, last, lone)
      invariant (forall k :: 0 <= k < |lone| ==> lone[k] < |left|) && values == Pick(left, lone)
      decreases |table|
    {
      var k :| k in table;
      PickSnoc(left, lone, last[k]);
      DrainStep(table0, table, last, lone, k);
      values := values + [table[k]];
      lone := lone + [last[k]];
      ghost var before := table;
      table := table - {k};
      assert table.Keys == before.Keys - {k};
    }
  }

  /** The results are those of matching at the index pairs `es`, with the last
      holders `lone` left over. */
  ghost predicate Explains<L(!new), R(!new), K(!new)>(
    left: seq<L>, right: seq<R>, lKey: L -> K, rKey: R -> K,
    pairs: seq<(L, R)>, lonelyLefts: seq<L>, lonelyRights: seq<R>, es: seq<Edge>, lone: seq<nat>)
  {
    && HashMatched(left, right, lKey, rKey, es, lone)
    && InRange(es, |left|, |right|) && pairs == PairUp(left, right, es)
    && (forall k :: 0 <= k < |lone| ==> lone[k] < |left|) && lonelyLefts == Pick(left, lone)
    && lonelyRights == Pick(right, Unused(|right|, Rights(es)))
  }

  /** A hash join as in the source.  The order of `lonelyLefts` is that of a map
      iteration, hence arbitrary. */
  method HashJoin<L(!new), R(!new), K(!new,==)>(left: seq<L>, right: seq<R>, lKey: L -> K, rKey: R -> K)
    returns (pairs: seq<(L, R)>, lonelyLefts: seq<L>, lonelyRights: seq<R>)
    ensures exists es, lone :: Explains(left, right, lKey, rKey, pairs, lonelyLefts, lonelyRights, es, lone)
  {
    var table: map<K, L>;
    ghost var last: map<K, nat>, es, lone;
    table, last := BuildTable(left, lKey);
    pairs, lonelyRights, table, es := Probe(left, right, rKey, table, last);
    lonelyLefts, lone := Drain(left, table, last);
    ProbedIsMatched(left, right, lKey, rKey, last, es, lone);
    assert Explains(left, right, lKey, rKey, pairs, lonelyLefts, lonelyRights, es, lone);
  }

  lemma ProbedIsMatched<L(!new), R(!new), K(!new)>(
    left: seq<L>, right: seq<R>, lKey: L -> K, rKey: R -> K, last: map<K, nat>, es: seq<Edge>, lone: seq<nat>)
    requires LastIndex(left, lKey, |left|, last)
    requires Probed(right, rKey, |right|, last, es)
    requires NoDuplicates(lone)
    requires forall i: nat :: i in lone <==>
               exists k :: k in last && Unprobed(right, rKey, |right|, k) && last[k] == i
    ensures HashMatched(left, right, lKey, rKey, es, lone)
  {
    assert forall k :: k in last ==> IsLast(left, lKey, last[k]);
    assert forall i: nat :: IsLast(left, lKey, i) ==> last[lKey(left[i])] == i;
    forall i: nat | IsLast(left, lKey, i) ensures i in lone <==> i !in Lefts(es) {
      var k := lKey(left[i]);
      assert i in lone <==> Unprobed(right, rKey, |right|, k);
      if !Unprobed(right, rKey, |right|, k) {
        var j: nat :| j < |right| && rKey(right[j]) == k;
        var n := EarliestHolder(right, rKey, j);
        assert Edge(i, n) in es;
      } else {
        forall n | 0 <= n < |es| ensures es[n].l != i {
          assert es[n] in es;
        }
      }
    }
  }

  lemma UnusedMore(j: nat, es: seq<Edge>, e: Edge)
    requires e.r == j
    ensures Unused(j + 1, Rights(es + [e])) == Unused(j, Rights(es))
  {
    assert (es + [e])[|es|] == e;
    UnusedSame(j, Rights(es), Rights(es + [e]));
  }

  lemma {:induction false} UnusedSame(n: nat, u: set<nat>, v: set<nat>)
    requires forall i: nat :: i < n ==> (i in u <==> i in v)
    ensures Unused(n, u) == Unused(n, v)
  {
    if n > 0 {
      UnusedSame(n - 1, u, v);
    }
  }

  /** The score under which `Join` matches by key. */
  function KeyScore<L, R, K(==)>(lKey: L -> K, rKey: R -> K): (L, R) -> int {
    (l, r) => if lKey(l) == rKey(r) then 0 else -1
  }

  lemma UnmatchedIsBlocked<L(!new), R(!new), K(!new)>(
    left: seq<L>, right: seq<R>, lKey: L -> K, rKey: R -> K, es: seq<Edge>, lone: seq<nat>, e: Edge)
    requires KeysDistinct(left, lKey) && HashMatched(left, right, lKey, rKey, es, lone)
    requires e in Scored(left, right, KeyScore(lKey, rKey)) && e !in es
    requires forall f :: f in es ==> f in Scored(left, right, KeyScore(lKey, rKey))
    ensures Blocked(Scored(left, right, KeyScore(lKey, rKey)), Elements(es), e)
  {
    var g := Scored(left, right, KeyScore(lKey, rKey));
    var n := EarliestHolder(right, rKey, e.r);
    assert IsLast(left, lKey, e.l);
    var f := Edge(e.l, n);
    assert f in es;
    assert e == Edge(e.l, e.r);
    assert Conflict(e, f) && Before(g, f, e);
  }

  lemma MatchedIsScored<L(!new), R(!new), K(!new)>(
    left: seq<L>, right: seq<R>, lKey: L -> K, rKey: R -> K, es: seq<Edge>, lone: seq<nat>, e: Edge)
    requires HashMatched(left, right, lKey, rKey, es, lone) && e in es
    ensures e in Scored(left, right, KeyScore(lKey, rKey))
    ensures IsLast(left, lKey, e.l) && IsEarliest(right, rKey, e.r) && lKey(left[e.l]) == rKey(right[e.r])
  {
    assert e == Edge(e.l, e.r);
  }

  lemma HashMatchedIsGreedy<L(!new), R(!new), K(!new)>(
    left: seq<L>, right: seq<R>, lKey: L -> K, rKey: R -> K, es: seq<Edge>, lone: seq<nat>)
    requires KeysDistinct(left, lKey)
    requires HashMatched(left, right, lKey, rKey, es, lone)
    ensures Greedy(Scored(left, right, KeyScore(lKey, rKey)), Elements(es))
  {
    var g := Scored(left, right, KeyScore(lKey, rKey));
    var m := Elements(es);
    forall e | e in es ensures e in g {
      MatchedIsScored(left, right, lKey, rKey, es, lone, e);
    }
    forall e | e in g && e !in m ensures Blocked(g, m, e) {
      UnmatchedIsBlocked(left, right, lKey, rKey, es, lone, e);
    }
    forall e, f | e in m && f in m && Conflict(e, f) ensures e == f {
      MatchedApart(left, right, lKey, rKey, es, lone, e, f);
    }
  }

  lemma MatchedApart<L(!new), R(!new), K(!new)>(
    left: seq<L>, right: seq<R>, lKey: L -> K, rKey: R -> K, es: seq<Edge>, lone: seq<nat>, e: Edge, f: Edge)
    requires HashMatched(left, right, lKey, rKey, es, lone) && e in es && f in es && Conflict(e, f)
    ensures e == f
  {
    MatchedIsScored(left, right, lKey, rKey, es, lone, e);
    MatchedIsScored(left, right, lKey, rKey, es, lone, f);
  }

  lemma PairUpPermutation<L(!new), R(!new)>(left: seq<L>, right: seq<R>, s: seq<Edge>, t: seq<Edge>)
    requires InRange(s, |left|, |right|) && InRange(t, |left|, |right|)
    requires multiset(s) == multiset(t)
    ensures multiset(PairUp(left, right, s)) == multiset(PairUp(left, right, t))
  {
    var f := (e: Edge) requires e.l < |left| && e.r < |right| => (left[e.l], right[e.r]);
    MapPermutation(s, t, f);
    assert PairUp(left, right, s) == Map(s, f);
    assert PairUp(left, right, t) == Map(t, f);
  }

  lemma PickPermutation<T(!new)>(v: seq<T>, s: seq<nat>, t: seq<nat>)
    requires forall k :: 0 <= k < |s| ==> s[k] < |v|
    requires forall k :: 0 <= k < |t| ==> t[k] < |v|
    requires multiset(s) == multiset(t)
    ensures multiset(Pick(v, s)) == multiset(Pick(v, t))
  {
    var f := (i: nat) requires i < |v| => v[i];
    MapPermutation(s, t, f);
    assert Pick(v, s) == Map(s, f);
    assert Pick(v, t) == Map(t, f);
  }

  /** With distinct left keys a hash join yields the same pairs and leftovers, as
      multisets, as `Join` with score 0 on equal keys and -1 otherwise. */
  lemma HashJoinIsJoin<L(!new), R(!new), K(!new)>(
    left: seq<L>, right: seq<R>, lKey: L -> K, rKey: R -> K, es: seq<Edge>, lone: seq<nat>)
    requires KeysDistinct(left, lKey)
    requires HashMatched(left, right, lKey, rKey, es, lone)
    ensures InRange(es, |left|, |right|) && forall k :: 0 <= k < |lone| ==> lone[k] < |left|
    ensures var m := JoinEdges(left, right, KeyScore(lKey, rKey));
            && multiset(PairUp(left, right, es)) == multiset(PairUp(left, right, m))
            && multiset(Pick(left, lone)) == multiset(Pick(left, Unused(|left|, Lefts(m))))
            && Pick(right, Unused(|right|, Rights(es))) == Pick(right, Unused(|right|, Rights(m)))
  {
    HashMatchedInRange(left, right, lKey, rKey, es, lone);
    HashMatchedIsGreedy(left, right, lKey, rKey, es, lone);
    var g := Scored(left, right, KeyScore(lKey, rKey));
    var m := JoinEdges(left, right, KeyScore(lKey, rKey));
    ReferenceIsGreedy(g);
    GreedyUnique(g, Elements(es), Elements(m));
    AscendingSize(g, m);
    SameElementsSameMultiset(es, m);
    PairUpPermutation(left, right, es, m);
    SameEnds(es, m);
    var rest := Unused(|left|, Lefts(m));
    forall i: nat ensures i in Elements(lone) <==> i in Elements(rest) {
      assert i < |left| ==> IsLast(left, lKey, i);
    }
    SameElementsSameMultiset(lone, rest);
    PickPermutation(left, lone, rest);
  }

  lemma SameEnds(s: seq<Edge>, t: seq<Edge>)
    requires Elements(s) == Elements(t)
    ensures Lefts(s) == Lefts(t) && Rights(s) == Rights(t)
  {
    assert forall e :: e in s <==> e in Elements(s);
    assert forall e :: e in t <==> e in Elements(t);
    assert Lefts(s) == set e | e in Elements(s) :: e.l;
    assert Lefts(t) == set e | e in Elements(t) :: e.l;
    assert Rights(s) == set e | e in Elements(s) :: e.r;
    assert Rights(t) == set e | e in Elements(t) :: e.r;
  }

  // -------------------------------------- nothing is lost, with or without duplicates

  function RightOf<L, R>(pair: (L, R)): R { pair.1 }

  function Upward(n: nat): (s: seq<nat>)
    ensures |s| == n && forall i :: 0 <= i < n ==> s[i] == i
  {
    seq(n, i => i)
  }

  function RightEnds(es: seq<Edge>): (s: seq<nat>)
    ensures |s| == |es| && forall k :: 0 <= k < |es| ==> s[k] == es[k].r
  {
    seq(|es|, k requires 0 <= k < |es| => es[k].r)
  }

  function LeftEnds(es: seq<Edge>): (s: seq<nat>)
    ensures |s| == |es| && forall k :: 0 <= k < |es| ==> s[k] == es[k].l
  {
    seq(|es|, k requires 0 <= k < |es| => es[k].l)
  }

  lemma MatchedEnds<L(!new), R(!new), K(!new)>(
    left: seq<L>, right: seq<R>, lKey: L -> K, rKey: R -> K, es: seq<Edge>, lone: seq<nat>)
    requires HashMatched(left, right, lKey, rKey, es, lone)
    ensures NoDuplicates(LeftEnds(es)) && NoDuplicates(RightEnds(es))
  {
    forall a, b | 0 <= a < b < |es| ensures es[a].l != es[b].l && es[a].r != es[b].r {
      if Conflict(es[a], es[b]) {
        MatchedApart(left, right, lKey, rKey, es, lone, es[a], es[b]);
      }
    }
  }

  /** The paired and the unused indices are all indices, each once. */
  lemma EndsAndUnused(ends: seq<nat>, used: set<nat>, n: nat)
    requires NoDuplicates(ends) && (forall i: nat :: i in used <==> i in ends) && forall i :: i in ends ==> i < n
    ensures multiset(ends + Unused(n, used)) == multiset(Upward(n))
  {
    var un, up := Unused(n, used), Upward(n);
    forall i, j | 0 <= i < j < |ends + un| ensures (ends + un)[i] != (ends + un)[j] {
      if i < |ends| <= j {
        assert ends[i] in ends && un[j - |ends|] in un;
      }
    }
    forall i: nat ensures i in Elements(ends + un) <==> i in Elements(up) {
      assert i in ends + un <==> i in ends || i in un;
      assert i < n ==> up[i] == i;
    }
    SameElementsSameMultiset(ends + un, up);
  }

  lemma RightEndsUsed(es: seq<Edge>)
    ensures forall j: nat :: j in Rights(es) <==> j in RightEnds(es)
  {
    forall j: nat ensures j in Rights(es) <==> j in RightEnds(es) {
      if j in Rights(es) {
        var k :| 0 <= k < |es| && es[k].r == j;
        assert RightEnds(es)[k] == j;
      }
    }
  }

  /** Paired and unused elements are all elements. */
  lemma PickedAndUnused<T(!new)>(v: seq<T>, ends: seq<nat>, used: set<nat>)
    requires NoDuplicates(ends) && (forall i: nat :: i in used <==> i in ends)
    requires forall k :: 0 <= k < |ends| ==> ends[k] < |v|
    ensures multiset(Pick(v, ends)) + multiset(Pick(v, Unused(|v|, used))) == multiset(v)
  {
    EndsAndUnused(ends, used, |v|);
    PickPermutation(v, ends + Unused(|v|, used), Upward(|v|));
    PickAll(v);
    PickConcat(v, ends, Unused(|v|, used));
  }

  /** Each right element comes out exactly once, paired or left over. */
  lemma RightsAccounted<L(!new), R(!new), K(!new)>(
    left: seq<L>, right: seq<R>, lKey: L -> K, rKey: R -> K,
    pairs: seq<(L, R)>, lonelyLefts: seq<L>, lonelyRights: seq<R>, es: seq<Edge>, lone: seq<nat>)
    requires Explains(left, right, lKey, rKey, pairs, lonelyLefts, lonelyRights, es, lone)
    ensures multiset(Map(pairs, RightOf)) + multiset(lonelyRights) == multiset(right)
  {
    MatchedEnds(left, right, lKey, rKey, es, lone);
    RightEndsUsed(es);
    PickedAndUnused(right, RightEnds(es), Rights(es));
    assert Pick(right, RightEnds(es)) == Map(pairs, RightOf);
  }

  lemma PickAll<T>(v: seq<T>)
    ensures Pick(v, Upward(|v|)) == v
  {
  }

  lemma PickConcat<T>(v: seq<T>, s: seq<nat>, t: seq<nat>)
    requires (forall k :: 0 <= k < |s| ==> s[k] < |v|) && forall k :: 0 <= k < |t| ==> t[k] < |v|
    ensures Pick(v, s + t) == Pick(v, s) + Pick(v, t)
  {
  }

  /** The keys of `s`. */
  function KeysOf<T(!new), K(!new,==)>(s: seq<T>, key: T -> K): (r: set<K>)
    ensures forall k :: k in r <==> exists i :: 0 <= i < |s| && key(s[i]) == k
  {
    Elements(Map(s, key))
  }

  function LeftOf<L, R>(pair: (L, R)): L { pair.0 }

  /** Each left key comes out exactly once, paired or left over. */
  lemma LeftKeysAccounted<L(!new), R(!new), K(!new)>(
    left: seq<L>, right: seq<R>, lKey: L -> K, rKey: R -> K,
    pairs: seq<(L, R)>, lonelyLefts: seq<L>, lonelyRights: seq<R>, es: seq<Edge>, lone: seq<nat>)
    requires Explains(left, right, lKey, rKey, pairs, lonelyLefts, lonelyRights, es, lone)
    ensures multiset(Map(Map(pairs, LeftOf) + lonelyLefts, lKey)) == multiset(KeysOf(left, lKey))
  {
    var out := LeftEnds(es) + lone;
    var keys := Map(Map(pairs, LeftOf) + lonelyLefts, lKey);
    forall k | 0 <= k < |out| ensures IsLast(left, lKey, out[k]) && keys[k] == lKey(left[out[k]]) {
      OutIsLast(left, right, lKey, rKey, es, lone, k);
    }
    OutDistinct(left, right, lKey, rKey, es, lone);
    OnePerKey(left, lKey, out, keys);
    forall i: nat | i < |left| ensures lKey(left[i]) in keys {
      KeyComesOut(left, right, lKey, rKey, es, lone, keys, i);
    }
    assert Elements(keys) == KeysOf(left, lKey);
    CountsOnce(keys);
  }

  lemma OutIsLast<L(!new), R(!new), K(!new)>(
    left: seq<L>, right: seq<R>, lKey: L -> K, rKey: R -> K, es: seq<Edge>, lone: seq<nat>, k: nat)
    requires HashMatched(left, right, lKey, rKey, es, lone) && k < |LeftEnds(es) + lone|
    ensures IsLast(left, lKey, (LeftEnds(es) + lone)[k])
  {
    if k < |es| {
      assert Edge(es[k].l, es[k].r) in es;
    } else {
      assert lone[k - |es|] in lone;
    }
  }

  lemma OutDistinct<L(!new), R(!new), K(!new)>(
    left: seq<L>, right: seq<R>, lKey: L -> K, rKey: R -> K, es: seq<Edge>, lone: seq<nat>)
    requires HashMatched(left, right, lKey, rKey, es, lone)
    ensures NoDuplicates(LeftEnds(es) + lone)
  {
    var ends := LeftEnds(es);
    MatchedEnds(left, right, lKey, rKey, es, lone);
    forall i, j | 0 <= i < j < |ends + lone| ensures (ends + lone)[i] != (ends + lone)[j] {
      if i < |ends| <= j {
        assert es[i].l in Lefts(es) && lone[j - |ends|] in lone;
      }
    }
  }

  /** Different last holders hold different keys. */
  lemma OnePerKey<T(!new), K(!new)>(s: seq<T>, key: T -> K, out: seq<nat>, keys: seq<K>)
    requires NoDuplicates(out) && |keys| == |out|
    requires forall k :: 0 <= k < |out| ==> IsLast(s, key, out[k]) && keys[k] == key(s[out[k]])
    ensures NoDuplicates(keys)
  {
    forall i, j | 0 <= i < j < |keys| ensures keys[i] != keys[j] {
      assert out[i] != out[j] && IsLast(s, key, out[i]) && IsLast(s, key, out[j]);
    }
  }

  lemma KeyComesOut<L(!new), R(!new), K(!new)>(
    left: seq<L>, right: seq<R>, lKey: L -> K, rKey: R -> K, es: seq<Edge>, lone: seq<nat>, keys: seq<K>, i: nat)
    requires HashMatched(left, right, lKey, rKey, es, lone) && i < |left| && |keys| == |es| + |lone|
    requires forall k :: 0 <= k < |keys| ==> (LeftEnds(es) + lone)[k] < |left| && keys[k] == lKey(left[(LeftEnds(es) + lone)[k]])
    ensures lKey(left[i]) in keys
  {
    var n := LastHolder(left, lKey, i);
    var out := LeftEnds(es) + lone;
    if n in lone {
      var b :| 0 <= b < |lone| && lone[b] == n;
      assert out[|es| + b] == n;
    } else {
      var k :| 0 <= k < |es| && es[k].l == n;
      assert out[k] == n;
    }
  }

  lemma CountsOnce<T(!new)>(s: seq<T>)
    requires NoDuplicates(s)
    ensures multiset(s) == multiset(Elements(s))
  {
    forall x ensures multiset(s)[x] == multiset(Elements(s))[x] {
      CountOnce(s, x);
    }
  }
}
