/** The names of address sets: the hash of the sorted members' concatenation. */
module AddressSets {
  import opened Prelude
  import opened AddressText

  /** The order of `sort.Strings`. */
  predicate Le(a: string, b: string) {
    if a == "" then true else if b == "" then false
    else if a[0] != b[0] then a[0] < b[0] else Le(a[1..], b[1..])
  }

  /** `a` is the beginning of `b`, or smaller where they first differ. */
  ghost predicate TextLe(a: string, b: string) {
    a <= b || exists i :: 0 <= i < |a| && i < |b| && a[..i] == b[..i] && a[i] < b[i]
  }

  lemma DiffersLater(a: string, b: string)
    requires a != "" && b != "" && a[0] == b[0] && TextLe(a[1..], b[1..])
    ensures TextLe(a, b)
  {
    assert a == [a[0]] + a[1..] && b == [b[0]] + b[1..];
    if !(a[1..] <= b[1..]) {
      var j :| 0 <= j < |a[1..]| && j < |b[1..]| && a[1..][..j] == b[1..][..j] && a[1..][j] < b[1..][j];
      assert a[..j + 1] == [a[0]] + a[1..][..j] && b[..j + 1] == [b[0]] + b[1..][..j];
    }
  }

  lemma DifferedLater(a: string, b: string)
    requires a != "" && b != "" && a[0] == b[0] && TextLe(a, b)
    ensures TextLe(a[1..], b[1..])
  {
    if !(a <= b) {
      var i :| 0 <= i < |a| && i < |b| && a[..i] == b[..i] && a[i] < b[i];
      assert a[1..][..i - 1] == a[..i][1..] && b[1..][..i - 1] == b[..i][1..];
      assert a[1..][i - 1] == a[i] && b[1..][i - 1] == b[i];
    }
  }

  lemma {:induction false} LeIs(a: string, b: string)
    ensures Le(a, b) <==> TextLe(a, b)
  {
    if a != "" && b != "" {
      if a[0] == b[0] {
        LeIs(a[1..], b[1..]);
        if Le(a, b) {
          DiffersLater(a, b);
        } else if TextLe(a, b) {
          DifferedLater(a, b);
        }
      } else {
        assert a[..0] == b[..0];
        assert forall i :: 0 < i < |a| && i < |b| && a[..i] == b[..i] ==> a[..i][0] == a[0] && b[..i][0] == b[0];
      }
    }
  }

  lemma {:induction false} LeTotal(a: string, b: string)
    ensures Le(a, b) || Le(b, a)
    ensures Le(a, b) && Le(b, a) ==> a == b
  {
    if a != "" && b != "" {
      LeTotal(a[1..], b[1..]);
      assert a == [a[0]] + a[1..] && b == [b[0]] + b[1..];
    }
  }

  lemma {:induction false} LeTransitive(a: string, b: string, c: string)
    requires Le(a, b) && Le(b, c)
    ensures Le(a, c)
  {
    if a != "" && b != "" && c != "" && a[0] == b[0] == c[0] {
      LeTransitive(a[1..], b[1..], c[1..]);
    }
  }

  predicate Before(a: Addr, b: Addr) {
    Le(Text(a), Text(b))
  }

  lemma TextInjective(a: Addr, b: Addr)
    requires Text(a) == Text(b)
    ensures a == b
  {
    assert Text(a) + "" == Text(a) && Text(b) + "" == Text(b);
    FirstAddress(a, b, "", "");
  }

  lemma BeforeOrder(a: Addr, b: Addr)
    ensures Before(a, b) || Before(b, a)
    ensures Before(a, b) && Before(b, a) ==> a == b
  {
    LeTotal(Text(a), Text(b));
    if Text(a) == Text(b) {
      TextInjective(a, b);
    }
  }

  ghost predicate InOrder(s: seq<Addr>) {
    forall i, j :: 0 <= i < j < |s| ==> Before(s[i], s[j])
  }

  const BEFORE: (Addr, Addr) -> bool := (a: Addr, b: Addr) => Before(a, b)

  /** `sort.Strings` */
  function Sort(s: seq<Addr>): (r: seq<Addr>)
    ensures multiset(r) == multiset(s)
  {
    SortBy(s, BEFORE)
  }

  lemma ConsInOrder(x: Addr, s: seq<Addr>)
    requires InOrder(s) && forall a :: a in s ==> Before(x, a)
    ensures InOrder([x] + s)
  {
    var t := [x] + s;
    forall i, j | 0 <= i < j < |t| ensures Before(t[i], t[j]) {
      assert t[j] == s[j - 1] && s[j - 1] in s;
      assert i > 0 ==> t[i] == s[i - 1] && Before(s[i - 1], s[j - 1]);
    }
  }

  lemma {:induction false} InsertInOrder(s: seq<Addr>, x: Addr)
    requires InOrder(s)
    ensures InOrder(InsertBy(s, x, BEFORE))
  {
    if s == [] {
    } else if Before(x, s[0]) {
      forall a | a in s ensures Before(x, a) {
        var k :| 0 <= k < |s| && s[k] == a;
        if k > 0 {
          LeTransitive(Text(x), Text(s[0]), Text(a));
        }
      }
      ConsInOrder(x, s);
    } else {
      InsertInOrder(s[1..], x);
      BeforeOrder(x, s[0]);
      var rest := InsertBy(s[1..], x, BEFORE);
      forall a | a in rest ensures Before(s[0], a) {
        assert a in multiset(rest);
        if a != x {
          assert a in s[1..];
        }
      }
      ConsInOrder(s[0], rest);
    }
  }

  lemma {:induction false} SortInOrder(s: seq<Addr>)
    ensures InOrder(Sort(s))
  {
    if s != [] {
      SortInOrder(s[..|s| - 1]);
      InsertInOrder(Sort(s[..|s| - 1]), s[|s| - 1]);
    }
  }

  lemma SameFirst(s: seq<Addr>, t: seq<Addr>)
    requires InOrder(s) && InOrder(t) && multiset(s) == multiset(t) && s != [] && t != []
    ensures s[0] == t[0]
  {
    assert s[0] in multiset(t) && t[0] in multiset(s);
    var i :| 0 <= i < |t| && t[i] == s[0];
    var j :| 0 <= j < |s| && s[j] == t[0];
    BeforeOrder(s[0], t[0]);
  }

  /** A multiset of addresses has one ordered listing. */
  lemma {:induction false} OrderUnique(s: seq<Addr>, t: seq<Addr>)
    requires InOrder(s) && InOrder(t) && multiset(s) == multiset(t)
    ensures s == t
  {
    assert |s| == |multiset(s)| && |t| == |multiset(t)|;
    if s != [] {
      SameFirst(s, t);
      TailMultiset(s);
      TailMultiset(t);
      OrderUnique(s[1..], t[1..]);
      assert s == [s[0]] + s[1..] && t == [t[0]] + t[1..];
    }
  }

  /** SHA-256, taken to be injective. */
  datatype Hash = Sha(text: string)

  function NameOf(members: seq<Addr>): Hash {
    Sha(Concat(Sort(members)))
  }

  /** Two lists of members get the same name if and only if they have the same
      members, each as often: the order does not matter, and no two different
      sets are confused although nothing separates the addresses. */
  lemma NamesIdentifyMembers(x: seq<Addr>, y: seq<Addr>)
    ensures NameOf(x) == NameOf(y) <==> multiset(x) == multiset(y)
  {
    if NameOf(x) == NameOf(y) {
      ConcatInjective(Sort(x), Sort(y));
    }
    if multiset(x) == multiset(y) {
      SortInOrder(x);
      SortInOrder(y);
      OrderUnique(Sort(x), Sort(y));
    }
  }
}
