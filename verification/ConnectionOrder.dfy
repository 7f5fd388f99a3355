/** The order in which connections are written to etcd. */
module ConnectionOrder {
  import opened Prelude
  import opened Connections

  /** The first difference of two lists of the same length, as -1, 0 or 1. */
  function Lex(x: seq<Hostname>, y: seq<Hostname>): int
    requires |x| == |y|
  {
    if x == [] then 0
    else if x[0] < y[0] then -1
    else if x[0] > y[0] then 1
    else Lex(x[1..], y[1..])
  }

  /** Shorter lists come first. */
  function SliceCmp(x: seq<Hostname>, y: seq<Hostname>): int {
    if |x| < |y| then -1 else if |x| > |y| then 1 else Lex(x, y)
  }

  lemma {:induction false} LexSkips(x: seq<Hostname>, y: seq<Hostname>, n: nat)
    requires |x| == |y| && n <= |x| && x[..n] == y[..n]
    ensures Lex(x, y) == Lex(x[n..], y[n..])
  {
    if n > 0 {
      assert x[0] == x[..n][0] && y[0] == y[..n][0];
      assert x[1..][..n - 1] == x[..n][1..] && y[1..][..n - 1] == y[..n][1..];
      LexSkips(x[1..], y[1..], n - 1);
      assert x[1..][n - 1..] == x[n..] && y[1..][n - 1..] == y[n..];
    }
  }

  method CompareSlices(x: seq<Hostname>, y: seq<Hostname>) returns (r: int)
    ensures r == SliceCmp(x, y)
  {
    if |x| < |y| {
      return -1;
    } else if |x| > |y| {
      return 1;
    }
    for i := 0 to |x|
      invariant x[..i] == y[..i]
    {
      LexSkips(x, y, i);
      if x[i] < y[i] {
        return -1;
      } else if x[i] > y[i] {
        return 1;
      }
    }
    LexSkips(x, y, |x|);
    return 0;
  }

  lemma {:induction false} LexOrder(x: seq<Hostname>, y: seq<Hostname>)
    requires |x| == |y|
    ensures Lex(x, y) in {-1, 0, 1} && Lex(y, x) == -Lex(x, y)
    ensures Lex(x, y) == 0 <==> x == y
  {
    if x != [] {
      LexOrder(x[1..], y[1..]);
      assert x == [x[0]] + x[1..] && y == [y[0]] + y[1..];
    }
  }

  lemma {:induction false} LexTransitive(x: seq<Hostname>, y: seq<Hostname>, z: seq<Hostname>)
    requires |x| == |y| == |z| && Lex(x, y) <= 0 && Lex(y, z) <= 0
    ensures Lex(x, z) <= 0
  {
    if x != [] && x[0] == y[0] == z[0] {
      LexTransitive(x[1..], y[1..], z[1..]);
    }
  }

  lemma SliceOrder(x: seq<Hostname>, y: seq<Hostname>)
    ensures SliceCmp(y, x) == -SliceCmp(x, y)
    ensures SliceCmp(x, y) == 0 <==> x == y
  {
    if |x| == |y| {
      LexOrder(x, y);
    }
  }

  lemma SliceTransitive(x: seq<Hostname>, y: seq<Hostname>, z: seq<Hostname>)
    requires SliceCmp(x, y) <= 0 && SliceCmp(y, z) <= 0
    ensures SliceCmp(x, z) <= 0
  {
    if |x| == |y| == |z| {
      LexTransitive(x, y, z);
    }
  }

  /** `x` is shorter than `y`, or as long and smaller where they first differ. */
  ghost predicate SliceLess(x: seq<Hostname>, y: seq<Hostname>) {
    |x| < |y| || (|x| == |y| && exists i :: 0 <= i < |x| && x[..i] == y[..i] && x[i] < y[i])
  }

  lemma {:induction false} LexIsFirstDifference(x: seq<Hostname>, y: seq<Hostname>)
    requires |x| == |y|
    ensures Lex(x, y) < 0 <==> exists i :: 0 <= i < |x| && x[..i] == y[..i] && x[i] < y[i]
  {
    if x != [] {
      if x[0] == y[0] {
        LexIsFirstDifference(x[1..], y[1..]);
        if j :| 0 <= j < |x[1..]| && x[1..][..j] == y[1..][..j] && x[1..][j] < y[1..][j] {
          assert x[..j + 1] == [x[0]] + x[1..][..j] && y[..j + 1] == [y[0]] + y[1..][..j];
        }
        if i :| 0 <= i < |x| && x[..i] == y[..i] && x[i] < y[i] {
          assert x[1..][..i - 1] == x[..i][1..] && y[1..][..i - 1] == y[..i][1..];
          assert x[1..][i - 1] == x[i];
        }
      } else {
        assert x[..0] == y[..0];
        assert forall i :: 0 < i < |x| && x[..i] == y[..i] ==> x[..i][0] == x[0] && y[..i][0] == y[0];
      }
    }
  }

  /** What `SliceCmp` says of two slices. */
  lemma SliceCmpIs(x: seq<Hostname>, y: seq<Hostname>)
    ensures SliceCmp(x, y) < 0 <==> SliceLess(x, y)
    ensures SliceCmp(x, y) == 0 <==> x == y
  {
    SliceOrder(x, y);
    if |x| == |y| {
      LexIsFirstDifference(x, y);
    }
  }

  /** The comparison of `less` before it comes down to row IDs. */
  function ConnCmp(a: Conn, b: Conn): int {
    var f, t := SliceCmp(a.from, b.from), SliceCmp(a.to, b.to);
    if f != 0 then f else if t != 0 then t
    else if a.maxPort != b.maxPort then a.maxPort - b.maxPort
    else a.minPort - b.minPort
  }

  predicate RowLess(a: Row, b: Row) {
    var c := ConnCmp(a.conn, b.conn);
    c < 0 || (c == 0 && a.id < b.id)
  }

  /** The order of the written list: by sources, then destinations, then upper and then lower
      port, and only among equal connections by row ID. */
  lemma RowLessIs(a: Row, b: Row)
    ensures RowLess(a, b) <==>
            || SliceLess(a.conn.from, b.conn.from)
            || (a.conn.from == b.conn.from && SliceLess(a.conn.to, b.conn.to))
            || (a.conn.from == b.conn.from && a.conn.to == b.conn.to && a.conn.maxPort < b.conn.maxPort)
            || (a.conn.from == b.conn.from && a.conn.to == b.conn.to && a.conn.maxPort == b.conn.maxPort &&
                a.conn.minPort < b.conn.minPort)
            || (a.conn == b.conn && a.id < b.id)
  {
    SliceCmpIs(a.conn.from, b.conn.from);
    SliceCmpIs(a.conn.to, b.conn.to);
  }

  /** Connections are totally ordered: this is why the order of the slice does not
      depend on row IDs as long as no connection occurs twice. */
  lemma ConnOrder(a: Conn, b: Conn)
    ensures ConnCmp(a, b) == 0 <==> a == b
    ensures ConnCmp(a, b) < 0 <==> ConnCmp(b, a) > 0
  {
    SliceOrder(a.from, b.from);
    SliceOrder(a.to, b.to);
  }

  lemma ConnTransitive(a: Conn, b: Conn, c: Conn)
    requires ConnCmp(a, b) < 0 && ConnCmp(b, c) < 0
    ensures ConnCmp(a, c) < 0
  {
    SliceOrder(a.from, b.from);
    SliceOrder(b.from, c.from);
    SliceOrder(a.from, c.from);
    SliceTransitive(a.from, b.from, c.from);
    if a.from == b.from == c.from {
      SliceOrder(a.to, b.to);
      SliceOrder(b.to, c.to);
      SliceOrder(a.to, c.to);
      SliceTransitive(a.to, b.to, c.to);
    }
  }

  // ------------------------------------------------------------------- sorting

  ghost predicate Ascending(s: seq<Conn>) {
    forall i, j :: 0 <= i < j < |s| ==> ConnCmp(s[i], s[j]) < 0
  }

  const LESS: (Row, Row) -> bool := (a: Row, b: Row) => RowLess(a, b)

  /** `sort.Sort` with `less`. */
  function Sorted(list: seq<Row>): (r: seq<Row>)
    ensures multiset(r) == multiset(list)
  {
    SortBy(list, LESS)
  }

  function ConnsOf(s: seq<Row>): (r: seq<Conn>)
    ensures |r| == |s| && forall i :: 0 <= i < |s| ==> r[i] == s[i].conn
  {
    Map(s, (x: Row) => x.conn)
  }

  lemma {:induction false} InsertKeepsAscending(s: seq<Row>, x: Row)
    requires Ascending(ConnsOf(s)) && x.conn !in ConnsOf(s)
    ensures Ascending(ConnsOf(InsertBy(s, x, LESS)))
  {
    if s == [] {
    } else if RowLess(x, s[0]) {
      PrependAscending(x, s);
    } else {
      assert ConnsOf(s[1..]) == ConnsOf(s)[1..];
      InsertKeepsAscending(s[1..], x);
      FirstStaysFirst(s, x);
      ConsAscending(s[0], InsertBy(s[1..], x, LESS));
    }
  }

  lemma FirstStaysFirst(s: seq<Row>, x: Row)
    requires s != [] && Ascending(ConnsOf(s)) && x.conn !in ConnsOf(s) && !RowLess(x, s[0])
    ensures forall j :: 0 <= j < |InsertBy(s[1..], x, LESS)| ==> ConnCmp(s[0].conn, InsertBy(s[1..], x, LESS)[j].conn) < 0
  {
    var rest, cs := InsertBy(s[1..], x, LESS), ConnsOf(s);
    assert cs[0] in cs;
    ConnOrder(x.conn, s[0].conn);
    ConnOrder(s[0].conn, x.conn);
    forall j | 0 <= j < |rest| ensures ConnCmp(s[0].conn, rest[j].conn) < 0 {
      assert rest[j] in multiset(rest);
      if rest[j] != x {
        var k :| 0 <= k < |s[1..]| && s[1..][k] == rest[j];
        assert ConnCmp(cs[0], cs[k + 1]) < 0;
      }
    }
  }

  lemma PrependAscending(x: Row, s: seq<Row>)
    requires Ascending(ConnsOf(s)) && s != [] && x.conn !in ConnsOf(s) && RowLess(x, s[0])
    ensures Ascending(ConnsOf([x] + s))
  {
    assert ConnsOf(s)[0] == s[0].conn;
    ConnOrder(x.conn, s[0].conn);
    forall j | 0 <= j < |s| ensures ConnCmp(x.conn, s[j].conn) < 0 {
      if j > 0 {
        assert ConnCmp(ConnsOf(s)[0], ConnsOf(s)[j]) < 0;
        ConnTransitive(x.conn, s[0].conn, s[j].conn);
      }
    }
    ConsAscending(x, s);
  }

  lemma ConsAscending(x: Row, s: seq<Row>)
    requires Ascending(ConnsOf(s)) && forall j :: 0 <= j < |s| ==> ConnCmp(x.conn, s[j].conn) < 0
    ensures Ascending(ConnsOf([x] + s))
  {
    var t := ConnsOf([x] + s);
    forall i, j | 0 <= i < j < |t| ensures ConnCmp(t[i], t[j]) < 0 {
      assert t[j] == s[j - 1].conn;
      if i > 0 {
        assert ConnCmp(ConnsOf(s)[i - 1], ConnsOf(s)[j - 1]) < 0;
      }
    }
  }

  ghost predicate DistinctConns(list: seq<Row>) {
    forall i, j :: 0 <= i < j < |list| ==> list[i].conn != list[j].conn
  }

  lemma SortedSnoc(list: seq<Row>)
    requires list != []
    ensures Sorted(list) == InsertBy(Sorted(list[..|list| - 1]), list[|list| - 1], LESS)
  {
  }

  /** The last row has a connection that none of the rows before it has. */
  lemma LastIsNew(list: seq<Row>, s: seq<Row>)
    requires list != [] && DistinctConns(list) && multiset(s) == multiset(list[..|list| - 1])
    ensures list[|list| - 1].conn !in ConnsOf(s)
  {
    var n := |list| - 1;
    forall k | 0 <= k < |s| ensures s[k].conn != list[n].conn {
      assert s[k] in multiset(s);
      var i :| 0 <= i < n && list[..n][i] == s[k];
      assert list[i].conn != list[n].conn;
    }
  }

  lemma {:induction false} SortedAscending(list: seq<Row>)
    requires DistinctConns(list)
    ensures Ascending(ConnsOf(Sorted(list)))
  {
    if list != [] {
      var n := |list| - 1;
      SortedAscending(list[..n]);
      LastIsNew(list, Sorted(list[..n]));
      InsertKeepsAscending(Sorted(list[..n]), list[n]);
      SortedSnoc(list);
    }
  }

  /** A set of connections has one ascending listing. */
  lemma {:induction false} AscendingUnique(s: seq<Conn>, t: seq<Conn>)
    requires Ascending(s) && Ascending(t) && Elements(s) == Elements(t)
    ensures s == t
  {
    HasFirst(s);
    HasFirst(t);
    if s != [] && t != [] {
      FirstIsLeast(s, t);
      AscendingTail(s);
      AscendingTail(t);
      AscendingUnique(s[1..], t[1..]);
      assert s == [s[0]] + s[1..] && t == [t[0]] + t[1..];
    }
  }

  lemma AscendingTail(s: seq<Conn>)
    requires Ascending(s) && s != []
    ensures Ascending(s[1..]) && Elements(s[1..]) == Elements(s) - {s[0]}
  {
    assert s == [s[0]] + s[1..];
    forall i | 0 <= i < |s[1..]| ensures s[1..][i] != s[0] {
      ConnOrder(s[0], s[i + 1]);
    }
  }

  lemma FirstIsLeast(s: seq<Conn>, t: seq<Conn>)
    requires Ascending(s) && Ascending(t) && Elements(s) == Elements(t) && s != [] && t != []
    ensures s[0] == t[0]
  {
    assert s[0] in Elements(t) && t[0] in Elements(s);
    var i :| 0 <= i < |t| && t[i] == s[0];
    var j :| 0 <= j < |s| && s[j] == t[0];
    if i > 0 && j > 0 {
      ConnOrder(s[0], t[0]);
    }
  }
}
