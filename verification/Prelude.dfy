/** Shared vocabulary: options, and the finite-set and sequence facts that the
    other modules lean on. */
module Prelude {

  datatype Option<+T> = None | Some(value: T)

  /** The elements of a sequence. */
  function Elements<T(==,!new)>(s: seq<T>): (r: set<T>)
    ensures forall x :: x in r <==> x in s
  {
    set x | x in s
  }

  ghost predicate NoDuplicates<T(!new)>(s: seq<T>) {
    forall i, j :: 0 <= i < j < |s| ==> s[i] != s[j]
  }

  /** A map that sends distinct keys to distinct values of `t` needs at least as
      many values as it has keys. */
  lemma {:induction false} InjectionBoundsSize<A(!new), B(!new)>(f: map<A, B>, t: set<B>)
    requires forall a :: a in f ==> f[a] in t
    requires forall a, b :: a in f && b in f && f[a] == f[b] ==> a == b
    ensures |f.Keys| <= |t|
    decreases |f.Keys|
  {
    if f.Keys != {} {
      var a :| a in f.Keys;
      var g := map x | x in f && x != a :: f[x];
      assert g.Keys == f.Keys - {a};
      InjectionBoundsSize(g, t - {f[a]});
    }
  }

  /** A subset that is as large as the whole is the whole. */
  lemma FullSubset<T(!new)>(s: set<T>, t: set<T>)
    requires s <= t && |s| >= |t|
    ensures s == t
  {
    if x :| x in t && x !in s {
      assert s <= t - {x};
      SubsetSize(s, t - {x});
    }
  }

  lemma {:induction false} SubsetSize<T(!new)>(s: set<T>, t: set<T>)
    requires s <= t
    ensures |s| <= |t|
  {
    if s != {} {
      var x :| x in s;
      SubsetSize(s - {x}, t - {x});
    }
  }

  /** The first `n` naturals. */
  function UpTo(n: nat): (r: set<nat>)
    ensures |r| == n
    ensures forall i: nat :: i in r <==> i < n
  {
    if n == 0 then {} else UpTo(n - 1) + {n - 1}
  }

  ghost function IndexOf<T(!new)>(s: seq<T>, x: T): (i: nat)
    requires x in s
    ensures i < |s| && s[i] == x
  {
    var i :| 0 <= i < |s| && s[i] == x;
    i
  }

  lemma {:induction false} DistinctSize<T(!new)>(s: seq<T>)
    requires NoDuplicates(s)
    ensures |Elements(s)| == |s|
  {
    if s != [] {
      var n := |s| - 1;
      DistinctSize(s[..n]);
      assert Elements(s) == Elements(s[..n]) + {s[n]};
    }
  }

  function Map<A, B>(s: seq<A>, f: A --> B): (r: seq<B>)
    requires forall x :: x in s ==> f.requires(x)
    ensures |r| == |s| && forall i :: 0 <= i < |s| ==> r[i] == f(s[i])
  {
    seq(|s|, i requires 0 <= i < |s| => f(s[i]))
  }

  /** Two duplicate-free sequences with the same elements are permutations. */
  lemma SameElementsSameMultiset<T(!new)>(s: seq<T>, t: seq<T>)
    requires NoDuplicates(s) && NoDuplicates(t) && Elements(s) == Elements(t)
    ensures multiset(s) == multiset(t)
  {
    forall x ensures multiset(s)[x] == multiset(t)[x] {
      CountOnce(s, x);
      CountOnce(t, x);
      assert x in s <==> x in Elements(s);
      assert x in t <==> x in Elements(t);
    }
  }

  lemma {:induction false} CountOnce<T(!new)>(s: seq<T>, x: T)
    requires NoDuplicates(s)
    ensures multiset(s)[x] == if x in s then 1 else 0
  {
    if s != [] {
      var n := |s| - 1;
      CountOnce(s[..n], x);
      assert s == s[..n] + [s[n]];
    }
  }

  /** Taking one element out of a sequence takes it out of its multiset. */
  lemma RemoveAt<T>(s: seq<T>, k: nat)
    requires k < |s|
    ensures multiset(s) == multiset{s[k]} + multiset(s[..k] + s[k + 1..])
    ensures multiset(s[..k] + s[k + 1..]) == multiset(s) - multiset{s[k]}
  {
    assert s == s[..k] + [s[k]] + s[k + 1..];
  }

  function Without<T>(s: seq<T>, k: nat): (r: seq<T>)
    requires k < |s|
    ensures |r| == |s| - 1
    ensures multiset(s) == multiset{s[k]} + multiset(r)
  {
    RemoveAt(s, k);
    s[..k] + s[k + 1..]
  }

  /** Mapping a function over permutations gives permutations. */
  lemma {:induction false} MapPermutation<A(!new), B(!new)>(s: seq<A>, t: seq<A>, f: A --> B)
    requires multiset(s) == multiset(t)
    requires forall x :: x in s ==> f.requires(x)
    ensures forall x :: x in t ==> f.requires(x)
    ensures multiset(Map(s, f)) == multiset(Map(t, f))
    decreases |s|
  {
    forall x | x in t ensures f.requires(x) {
      assert x in multiset(s);
    }
    if s == [] {
      assert |multiset(t)| == 0;
      assert t == [];
    } else {
      var x := s[0];
      assert x in multiset(t);
      var k :| 0 <= k < |t| && t[k] == x;
      var u, v := Without(s, 0), Without(t, k);
      assert multiset(u) == multiset(s) - multiset{x};
      assert multiset(v) == multiset(t) - multiset{x};
      MapPermutation(u, v, f);
      MapWithout(s, 0, f);
      MapWithout(t, k, f);
    }
  }

  lemma MapWithout<A(!new), B(!new)>(s: seq<A>, k: nat, f: A --> B)
    requires k < |s|
    requires forall x :: x in s ==> f.requires(x)
    ensures forall x :: x in Without(s, k) ==> f.requires(x)
    ensures multiset(Map(s, f)) == multiset{f(s[k])} + multiset(Map(Without(s, k), f))
  {
    assert Map(Without(s, k), f) == Without(Map(s, f), k);
  }

  /** An arbitrary element, as a map iteration would give. */
  method PickAny<T(==)>(s: set<T>) returns (x: T)
    requires s != {}
    ensures x in s
  {
    x :| x in s;
  }

  lemma TakeSnoc<T>(s: seq<T>, n: nat)
    requires n < |s|
    ensures s[..n + 1] == s[..n] + [s[n]]
  {
  }

  lemma TakeAll<T>(s: seq<T>)
    ensures s[..|s|] == s
  {
  }

  function Zip<A, B>(s: seq<A>, t: seq<B>): (r: seq<(A, B)>)
    requires |s| == |t|
    ensures |r| == |s| && forall i :: 0 <= i < |s| ==> r[i] == (s[i], t[i])
  {
    seq(|s|, i requires 0 <= i < |s| => (s[i], t[i]))
  }

  lemma UpdateTwice<K, V>(m: map<K, V>, k: K, v: V, w: V)
    ensures m[k := v][k := w] == m[k := w]
  {
  }

  lemma HasFirst<T>(s: seq<T>)
    ensures s == [] || exists x :: x in s
  {
    assert s == [] || s[0] in s;
  }

  lemma TailMultiset<T>(s: seq<T>)
    requires s != []
    ensures multiset(s[1..]) == multiset(s) - multiset{s[0]}
  {
    assert s == [s[0]] + s[1..];
  }

  lemma Concat3At<T>(a: seq<T>, b: seq<T>, c: seq<T>, i: nat)
    requires i < |a| + |b| + |c|
    ensures (a + b + c)[i] == if i < |a| then a[i] else if i < |a| + |b| then b[i - |a|] else c[i - |a| - |b|]
  {
  }

  /** Where element `i` of `b + (a + c)` stands in `a + b + c`, with `n` and `k` the
      lengths of `a` and `b`. */
  function Rotated(n: nat, k: nat, i: nat): nat {
    if i < k then n + i else if i < n + k then i - k else i
  }

  lemma Concat3Rotated<T>(a: seq<T>, b: seq<T>, c: seq<T>, i: nat)
    requires i < |a| + |b| + |c|
    ensures Rotated(|a|, |b|, i) < |a| + |b| + |c| && (b + (a + c))[i] == (a + b + c)[Rotated(|a|, |b|, i)]
  {
  }

  lemma Concat3In<T>(a: seq<T>, b: seq<T>, c: seq<T>, i: nat)
    requires i < |a| + |b| + |c|
    ensures (a + b + c)[i] in a + c || (a + b + c)[i] in b
  {
    if i >= |a| + |b| {
      assert (a + c)[i - |b|] == (a + b + c)[i];
    } else if i < |a| {
      assert (a + c)[i] == (a + b + c)[i];
    }
  }

  /** Insertion sort; `first(a, b)` says that `a` may stand before `b`. */
  function InsertBy<T(!new)>(s: seq<T>, x: T, first: (T, T) -> bool): (r: seq<T>)
    ensures multiset(r) == multiset(s) + multiset{x}
  {
    if s == [] || first(x, s[0]) then [x] + s
    else
      assert s == [s[0]] + s[1..];
      [s[0]] + InsertBy(s[1..], x, first)
  }

  function SortBy<T(!new)>(s: seq<T>, first: (T, T) -> bool): (r: seq<T>)
    ensures multiset(r) == multiset(s)
  {
    if s == [] then [] else
      var n := |s| - 1;
      assert s == s[..n] + [s[n]];
      InsertBy(SortBy(s[..n], first), s[n], first)
  }
}
