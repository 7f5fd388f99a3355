/** The connection table: rows that allow hostnames to talk to each other, and the
    keyed reconciliation that the engine and the etcd workers run on it. */
module Connections {
  import opened Prelude
  import opened Matching
  import opened Join
  import opened HashJoin

  /** Compared as a string in the source; only its order and identity matter. */
  type Hostname = nat

  /** The label that stands for the public internet. */
  const PUBLIC: Hostname := 0

  /** A connection without its row ID, which is also its join key. */
  datatype Conn = Conn(from: seq<Hostname>, to: seq<Hostname>, minPort: int, maxPort: int)
  datatype Row = Row(id: int, conn: Conn)
  type Rows = map<int, Conn>

  const ROW_KEY: Row -> Conn := (r: Row) => r.conn
  const CONN_KEY: Conn -> Conn := (c: Conn) => c

  /** The connections that a table holds. */
  function Conns(rows: Rows): (r: set<Conn>)
    ensures forall c :: c in r <==> exists id :: id in rows && rows[id] == c
  {
    set id | id in rows :: rows[id]
  }

  /** The table holds each connection of `ks` in exactly one row, and no other. */
  ghost predicate OneEach(rows: Rows, ks: set<Conn>) {
    Conns(rows) == ks && Distinct(rows)
  }

  ghost predicate Distinct(rows: Rows) {
    forall a, b :: a in rows && b in rows && rows[a] == rows[b] ==> a == b
  }

  /** Every row once, in the arbitrary order of a map iteration. */
  ghost predicate Lists(list: seq<Row>, rows: Rows) {
    (forall i :: 0 <= i < |list| ==> list[i].id in rows && rows[list[i].id] == list[i].conn) &&
    (forall id :: id in rows ==> Row(id, rows[id]) in list) &&
    (forall i, j :: 0 <= i < j < |list| ==> list[i].id != list[j].id)
  }

  function IDs(list: seq<Row>): (r: set<int>)
    ensures forall id :: id in r <==> exists i :: 0 <= i < |list| && list[i].id == id
  {
    set r | r in list :: r.id
  }

  /** New rows, numbered on from `base`. */
  function Inserted(conns: seq<Conn>, base: int): (r: Rows)
    ensures forall id :: id in r <==> base < id <= base + |conns|
    ensures forall id :: id in r ==> r[id] == conns[id - base - 1]
  {
    if conns == [] then map[]
    else var n := |conns|; Inserted(conns[..n - 1], base)[base + n := conns[n - 1]]
  }

  lemma InsertedSnoc(rows: Rows, conns: seq<Conn>, n: nat, base: int)
    requires n < |conns|
    ensures (rows + Inserted(conns[..n], base))[base + n + 1 := conns[n]] == rows + Inserted(conns[..n + 1], base)
  {
    TakeSnoc(conns, n);
    assert conns[..n + 1][..n] == conns[..n];
  }

  lemma InsertedOne(rows0: Rows, conns: seq<Conn>, n: nat, base: int, rows: Rows, id: int, rows': Rows)
    requires n < |conns| && rows == rows0 + Inserted(conns[..n], base) && id == base + n + 1
    requires rows' == rows[id := conns[n]]
    ensures rows' == rows0 + Inserted(conns[..n + 1], base)
  {
    InsertedSnoc(rows0, conns, n, base);
  }

  function Replaced(rows: Rows, gone: set<int>, conns: seq<Conn>, base: int): Rows {
    (rows - gone) + Inserted(conns, base)
  }

  // ------------------------------------------------ what the keyed join sorts out

  /** Left over on the right: every holder of a key but the first, and whatever
      key the left does not have. */
  lemma RightLeftover<L(!new), R(!new), K(!new)>(
    left: seq<L>, right: seq<R>, lKey: L -> K, rKey: R -> K, es: seq<Edge>, lone: seq<nat>, j: nat)
    requires HashMatched(left, right, lKey, rKey, es, lone) && j < |right|
    ensures j in Rights(es) <==> IsEarliest(right, rKey, j) && exists i :: 0 <= i < |left| && lKey(left[i]) == rKey(right[j])
  {
    HashMatchedInRange(left, right, lKey, rKey, es, lone);
    if j in Rights(es) {
      var k :| 0 <= k < |es| && es[k].r == j;
      assert Edge(es[k].l, j) in es;
    }
    if IsEarliest(right, rKey, j) {
      if i :| 0 <= i < |left| && lKey(left[i]) == rKey(right[j]) {
        var n := LastHolder(left, lKey, i);
        assert Edge(n, j) in es;
      }
    }
  }

  /** Left over on the left: the last holder of every key the right does not
      have. */
  lemma LeftLeftover<L(!new), R(!new), K(!new)>(
    left: seq<L>, right: seq<R>, lKey: L -> K, rKey: R -> K, es: seq<Edge>, lone: seq<nat>, i: nat)
    requires HashMatched(left, right, lKey, rKey, es, lone) && i < |left|
    ensures i in lone <==> IsLast(left, lKey, i) && forall j :: 0 <= j < |right| ==> rKey(right[j]) != lKey(left[i])
  {
    HashMatchedInRange(left, right, lKey, rKey, es, lone);
    if i in Lefts(es) {
      var k :| 0 <= k < |es| && es[k].l == i;
      assert Edge(i, es[k].r) in es;
    }
    if IsLast(left, lKey, i) {
      if j: nat :| j < |right| && rKey(right[j]) == lKey(left[i]) {
        var n := EarliestHolder(right, rKey, j);
        assert Edge(i, n) in es;
      }
    }
  }

  // ------------------------------------------------- engine: blueprint to table

  function Dropped(list: seq<Row>, es: seq<Edge>): seq<Row> {
    Pick(list, Unused(|list|, Rights(es)))
  }

  lemma DroppedIff(list: seq<Row>, es: seq<Edge>, j: nat)
    requires j < |list| && forall a, b :: 0 <= a < b < |list| ==> list[a].id != list[b].id
    ensures list[j].id in IDs(Dropped(list, es)) <==> j !in Rights(es)
  {
    var un := Unused(|list|, Rights(es));
    if j !in Rights(es) {
      assert j in un;
      var k :| 0 <= k < |un| && un[k] == j;
      assert Dropped(list, es)[k] == list[j];
    }
    if list[j].id in IDs(Dropped(list, es)) {
      var k :| 0 <= k < |un| && Dropped(list, es)[k].id == list[j].id;
      assert un[k] == j && un[k] in un;
    }
  }

  /** The rows that survive the engine's join are the first holders of wanted
      connections. */
  lemma Survives(scs: seq<Conn>, list: seq<Row>, rows: Rows, es: seq<Edge>, lone: seq<nat>, id: int) returns (j: nat)
    requires HashMatched(scs, list, CONN_KEY, ROW_KEY, es, lone) && Lists(list, rows) && id in rows
    ensures j < |list| && list[j] == Row(id, rows[id])
    ensures id !in IDs(Dropped(list, es)) <==> IsEarliest(list, ROW_KEY, j) && rows[id] in scs
  {
    j :| 0 <= j < |list| && list[j] == Row(id, rows[id]);
    RightLeftover(scs, list, CONN_KEY, ROW_KEY, es, lone, j);
    DroppedIff(list, es, j);
  }

  /** The connections that the engine inserts: the wanted ones that no row has,
      each once. */
  lemma Added(scs: seq<Conn>, list: seq<Row>, es: seq<Edge>, lone: seq<nat>)
    requires HashMatched(scs, list, CONN_KEY, ROW_KEY, es, lone)
    ensures forall k :: 0 <= k < |lone| ==> lone[k] < |scs|
    ensures NoDuplicates(Pick(scs, lone))
    ensures forall c :: c in Pick(scs, lone) <==> c in scs && forall j :: 0 <= j < |list| ==> list[j].conn != c
  {
    HashMatchedInRange(scs, list, CONN_KEY, ROW_KEY, es, lone);
    var add := Pick(scs, lone);
    forall k | 0 <= k < |lone|
      ensures IsLast(scs, CONN_KEY, lone[k]) && forall j :: 0 <= j < |list| ==> list[j].conn != add[k]
    {
      assert lone[k] in lone;
      LeftLeftover(scs, list, CONN_KEY, ROW_KEY, es, lone, lone[k]);
    }
    forall c | c in scs && forall j :: 0 <= j < |list| ==> list[j].conn != c ensures c in add {
      var i :| 0 <= i < |scs| && scs[i] == c;
      var n := LastHolder(scs, CONN_KEY, i);
      LeftLeftover(scs, list, CONN_KEY, ROW_KEY, es, lone, n);
      var k :| 0 <= k < |lone| && lone[k] == n;
      assert add[k] == c;
    }
    forall a, b | 0 <= a < b < |add| ensures add[a] != add[b] {
      assert lone[a] != lone[b];
    }
  }

  ghost predicate Below(rows: Rows, base: int) {
    forall id :: id in rows ==> id <= base
  }

  /** Where a row of the reconciled table comes from. */
  lemma ReplacedAt(rows: Rows, gone: set<int>, conns: seq<Conn>, base: int, id: int)
    requires Below(rows, base)
    ensures id in Replaced(rows, gone, conns, base) <==> (id in rows && id !in gone) || base < id <= base + |conns|
    ensures id in rows && id !in gone ==> Replaced(rows, gone, conns, base)[id] == rows[id]
    ensures base < id <= base + |conns| ==> Replaced(rows, gone, conns, base)[id] == conns[id - base - 1]
  {
  }

  lemma Holder(rows: Rows, c: Conn) returns (id: int)
    requires c in Conns(rows)
    ensures id in rows && rows[id] == c
  {
    id :| id in rows && rows[id] == c;
  }

  /** Keeping rows with distinct connections, and inserting distinct connections
      that none of them has, gives one row each. */
  lemma ReplacedOneEach(rows: Rows, gone: set<int>, conns: seq<Conn>, base: int, ks: set<Conn>)
    requires Below(rows, base) && Distinct(rows - gone) && NoDuplicates(conns)
    requires forall c :: c in conns ==> c !in Conns(rows - gone)
    requires Conns(rows - gone) + Elements(conns) == ks
    ensures OneEach(Replaced(rows, gone, conns, base), ks)
  {
    var r, kept := Replaced(rows, gone, conns, base), rows - gone;
    forall a, b | a in r && b in r && r[a] == r[b] ensures a == b {
      ReplacedAt(rows, gone, conns, base, a);
      ReplacedAt(rows, gone, conns, base, b);
      assert (a !in kept ==> r[a] in conns) && (b !in kept ==> r[b] in conns);
      assert (a in kept ==> r[a] in Conns(kept)) && (b in kept ==> r[b] in Conns(kept));
    }
    forall c | c in ks ensures c in Conns(r) {
      if c in Conns(kept) {
        var id :| id in kept && kept[id] == c;
        assert r[id] == c;
      } else {
        var k :| 0 <= k < |conns| && conns[k] == c;
        assert r[base + k + 1] == c;
      }
    }
    forall c | c in Conns(r) ensures c in ks {
      var id :| id in r && r[id] == c;
      ReplacedAt(rows, gone, conns, base, id);
    }
  }

  /** Whatever the table held, and in whatever order it was read, the engine
      leaves one row for each wanted connection. */
  lemma EngineOneEach(scs: seq<Conn>, list: seq<Row>, rows: Rows, es: seq<Edge>, lone: seq<nat>, base: int)
    requires HashMatched(scs, list, CONN_KEY, ROW_KEY, es, lone) && Lists(list, rows) && Below(rows, base)
    requires forall k :: 0 <= k < |lone| ==> lone[k] < |scs|
    ensures OneEach(Replaced(rows, IDs(Dropped(list, es)), Pick(scs, lone), base), Elements(scs))
  {
    var gone, add := IDs(Dropped(list, es)), Pick(scs, lone);
    var kept := rows - gone;
    Added(scs, list, es, lone);
    forall a, b | a in kept && b in kept && kept[a] == kept[b] ensures a == b {
      var i := Survives(scs, list, rows, es, lone, a);
      var j := Survives(scs, list, rows, es, lone, b);
      assert i == j;
    }
    forall c ensures c in Conns(kept) <==> c in scs && c !in add {
      if c in Conns(kept) {
        var id := Holder(kept, c);
        var j := Survives(scs, list, rows, es, lone, id);
        assert list[j].conn == c;
      }
      if c in scs && c !in add {
        var j :| 0 <= j < |list| && list[j].conn == c;
        var n := EarliestHolder(list, ROW_KEY, j);
        var m := Survives(scs, list, rows, es, lone, list[n].id);
        assert kept[list[n].id] == c;
      }
    }
    assert Conns(kept) + Elements(add) == Elements(scs);
    ReplacedOneEach(rows, gone, add, base, Elements(scs));
  }

  lemma ListedConns(list: seq<Row>, rows: Rows)
    requires Lists(list, rows)
    ensures forall c :: c in Conns(rows) <==> exists i :: 0 <= i < |list| && list[i].conn == c
  {
    forall c ensures c in Conns(rows) <==> exists i :: 0 <= i < |list| && list[i].conn == c {
      if c in Conns(rows) {
        var id :| id in rows && rows[id] == c;
        var i :| 0 <= i < |list| && list[i] == Row(id, rows[id]);
      }
    }
  }

  /** With nothing to change, the engine changes nothing. */
  lemma EngineIdle(scs: seq<Conn>, list: seq<Row>, rows: Rows, es: seq<Edge>, lone: seq<nat>)
    requires HashMatched(scs, list, CONN_KEY, ROW_KEY, es, lone) && Lists(list, rows) && OneEach(rows, Elements(scs))
    ensures Dropped(list, es) == [] && lone == []
  {
    ListedConns(list, rows);
    Added(scs, list, es, lone);
    HasFirst(Pick(scs, lone));
    HasFirst(Unused(|list|, Rights(es)));
    forall j: nat | j < |list| ensures j in Rights(es) {
      RightLeftover(scs, list, CONN_KEY, ROW_KEY, es, lone, j);
      assert list[j].conn in Conns(rows);
      DistinctEarliest(list, rows, j);
    }
  }

  lemma DistinctEarliest(list: seq<Row>, rows: Rows, j: nat)
    requires Lists(list, rows) && Distinct(rows) && j < |list|
    ensures IsEarliest(list, ROW_KEY, j) && IsLast(list, ROW_KEY, j)
  {
    forall k | 0 <= k < |list| && list[k].conn == list[j].conn ensures k == j {
      assert rows[list[k].id] == rows[list[j].id];
    }
  }

  // ------------------------------------------------- follower: etcd to table

  function Extra(etcd: seq<Conn>, es: seq<Edge>): seq<Conn> {
    Pick(etcd, Unused(|etcd|, Rights(es)))
  }

  lemma ExtraAt(etcd: seq<Conn>, es: seq<Edge>, j: nat) returns (k: nat)
    requires j < |etcd| && j !in Rights(es)
    ensures k < |Extra(etcd, es)| && Unused(|etcd|, Rights(es))[k] == j && Extra(etcd, es)[k] == etcd[j]
  {
    k :| 0 <= k < |Unused(|etcd|, Rights(es))| && Unused(|etcd|, Rights(es))[k] == j;
  }

  /** A row leaves the follower's table exactly when it is the last one with its
      connection and etcd does not have it. */
  lemma Leaves(list: seq<Row>, rows: Rows, etcd: seq<Conn>, es: seq<Edge>, lone: seq<nat>, i: nat)
    requires HashMatched(list, etcd, ROW_KEY, CONN_KEY, es, lone) && Lists(list, rows) && i < |list|
    requires forall k :: 0 <= k < |lone| ==> lone[k] < |list|
    ensures list[i].id in IDs(Pick(list, lone)) <==> IsLast(list, ROW_KEY, i) && list[i].conn !in etcd
  {
    LeftLeftover(list, etcd, ROW_KEY, CONN_KEY, es, lone, i);
    if i in lone {
      var k :| 0 <= k < |lone| && lone[k] == i;
      assert Pick(list, lone)[k].id == list[i].id;
    }
    if list[i].id in IDs(Pick(list, lone)) {
      var k :| 0 <= k < |lone| && Pick(list, lone)[k].id == list[i].id;
      assert list[lone[k]].id == list[i].id;
    }
  }

  lemma FollowerOneEach(list: seq<Row>, rows: Rows, etcd: seq<Conn>, es: seq<Edge>, lone: seq<nat>, base: int)
    requires HashMatched(list, etcd, ROW_KEY, CONN_KEY, es, lone) && Lists(list, rows) && Below(rows, base)
    requires forall k :: 0 <= k < |lone| ==> lone[k] < |list|
    requires Distinct(rows) && NoDuplicates(etcd)
    ensures OneEach(Replaced(rows, IDs(Pick(list, lone)), Extra(etcd, es), base), Elements(etcd))
  {
    var gone, add := IDs(Pick(list, lone)), Extra(etcd, es);
    var kept := rows - gone;
    ListedConns(list, rows);
    forall id | id in rows ensures id in gone <==> rows[id] !in etcd {
      var i :| 0 <= i < |list| && list[i] == Row(id, rows[id]);
      DistinctEarliest(list, rows, i);
      Leaves(list, rows, etcd, es, lone, i);
    }
    ExtraIsMissing(list, rows, etcd, es, lone);
    forall c ensures c in Conns(kept) <==> c in etcd && c in Conns(rows) {
      if c in etcd && c in Conns(rows) {
        var id := Holder(rows, c);
        assert kept[id] == c;
      }
    }
    assert Conns(kept) + Elements(add) == Elements(etcd);
    ReplacedOneEach(rows, gone, add, base, Elements(etcd));
  }

  lemma ExtraIff(list: seq<Row>, rows: Rows, etcd: seq<Conn>, es: seq<Edge>, lone: seq<nat>, c: Conn)
    requires HashMatched(list, etcd, ROW_KEY, CONN_KEY, es, lone) && Lists(list, rows) && NoDuplicates(etcd)
    ensures c in Extra(etcd, es) <==> c in etcd && c !in Conns(rows)
  {
    var add, un := Extra(etcd, es), Unused(|etcd|, Rights(es));
    ListedConns(list, rows);
    if c in add {
      var k :| 0 <= k < |add| && add[k] == c;
      assert un[k] in un;
      RightLeftover(list, etcd, ROW_KEY, CONN_KEY, es, lone, un[k]);
    }
    if c in etcd && c !in Conns(rows) {
      var j :| 0 <= j < |etcd| && etcd[j] == c;
      RightLeftover(list, etcd, ROW_KEY, CONN_KEY, es, lone, j);
      var k := ExtraAt(etcd, es, j);
    }
  }

  lemma ExtraIsMissing(list: seq<Row>, rows: Rows, etcd: seq<Conn>, es: seq<Edge>, lone: seq<nat>)
    requires HashMatched(list, etcd, ROW_KEY, CONN_KEY, es, lone) && Lists(list, rows) && NoDuplicates(etcd)
    ensures NoDuplicates(Extra(etcd, es))
    ensures forall c :: c in Extra(etcd, es) <==> c in etcd && c !in Conns(rows)
  {
    var add, un := Extra(etcd, es), Unused(|etcd|, Rights(es));
    forall a, b | 0 <= a < b < |add| ensures add[a] != add[b] {
      assert un[a] != un[b];
    }
    forall c ensures c in add <==> c in etcd && c !in Conns(rows) {
      ExtraIff(list, rows, etcd, es, lone, c);
    }
  }

  lemma TableDouble(list: seq<Row>, rows: Rows, etcd: seq<Conn>, es: seq<Edge>, lone: seq<nat>, base: int)
    requires HashMatched(list, etcd, ROW_KEY, CONN_KEY, es, lone) && Lists(list, rows) && Below(rows, base)
    requires forall k :: 0 <= k < |lone| ==> lone[k] < |list|
    requires !Distinct(rows)
    ensures !OneEach(Replaced(rows, IDs(Pick(list, lone)), Extra(etcd, es), base), Elements(etcd))
  {
    var gone, add := IDs(Pick(list, lone)), Extra(etcd, es);
    var r := Replaced(rows, gone, add, base);
    var i, j := DoubleRow(list, rows);
    Leaves(list, rows, etcd, es, lone, i);
    Leaves(list, rows, etcd, es, lone, j);
    ReplacedAt(rows, gone, add, base, list[i].id);
    ReplacedAt(rows, gone, add, base, list[j].id);
    assert list[i].conn in Conns(r);
  }

  lemma StandsOld(list: seq<Row>, rows: Rows, etcd: seq<Conn>, es: seq<Edge>, lone: seq<nat>, j: nat) returns (id: int)
    requires HashMatched(list, etcd, ROW_KEY, CONN_KEY, es, lone) && Lists(list, rows)
    requires (forall k :: 0 <= k < |lone| ==> lone[k] < |list|) && j < |etcd| && j in Rights(es)
    ensures id in rows && id !in IDs(Pick(list, lone)) && rows[id] == etcd[j]
  {
    RightLeftover(list, etcd, ROW_KEY, CONN_KEY, es, lone, j);
    var n :| 0 <= n < |list| && list[n].conn == etcd[j];
    Leaves(list, rows, etcd, es, lone, n);
    id := list[n].id;
  }

  lemma StandsNew(rows: Rows, gone: set<int>, etcd: seq<Conn>, es: seq<Edge>, base: int, j: nat) returns (k: nat, id: int)
    requires Below(rows, base) && j < |etcd| && j !in Rights(es)
    ensures k < |Extra(etcd, es)| && Unused(|etcd|, Rights(es))[k] == j && id == base + k + 1
    ensures var r := Replaced(rows, gone, Extra(etcd, es), base); id in r && r[id] == etcd[j]
  {
    k := ExtraAt(etcd, es, j);
    id := base + k + 1;
    assert id - base - 1 == k;
    ReplacedAt(rows, gone, Extra(etcd, es), base, id);
  }

  lemma NotDistinct(rows: Rows, a: int, b: int)
    requires a in rows && b in rows && a != b && rows[a] == rows[b]
    ensures !Distinct(rows)
  {
  }

  lemma OldAndNew(rows: Rows, gone: set<int>, etcd: seq<Conn>, es: seq<Edge>, base: int, id: int, j: nat)
    requires Below(rows, base) && j < |etcd| && j !in Rights(es) && id in rows && id !in gone && rows[id] == etcd[j]
    ensures !Distinct(Replaced(rows, gone, Extra(etcd, es), base))
  {
    var k, n := StandsNew(rows, gone, etcd, es, base, j);
    ReplacedAt(rows, gone, Extra(etcd, es), base, id);
    NotDistinct(Replaced(rows, gone, Extra(etcd, es), base), id, n);
  }

  lemma TwoNew(rows: Rows, gone: set<int>, etcd: seq<Conn>, es: seq<Edge>, base: int, i: nat, j: nat)
    requires Below(rows, base) && i < j < |etcd| && etcd[i] == etcd[j] && i !in Rights(es) && j !in Rights(es)
    ensures !Distinct(Replaced(rows, gone, Extra(etcd, es), base))
  {
    var k, m := StandsNew(rows, gone, etcd, es, base, i);
    var l, n := StandsNew(rows, gone, etcd, es, base, j);
    assert k != l;
    NotDistinct(Replaced(rows, gone, Extra(etcd, es), base), m, n);
  }

  lemma EtcdDouble(list: seq<Row>, rows: Rows, etcd: seq<Conn>, es: seq<Edge>, lone: seq<nat>, base: int, i: nat, j: nat)
    requires HashMatched(list, etcd, ROW_KEY, CONN_KEY, es, lone) && Lists(list, rows) && Below(rows, base)
    requires (forall k :: 0 <= k < |lone| ==> lone[k] < |list|) && i < j < |etcd| && etcd[i] == etcd[j]
    ensures !Distinct(Replaced(rows, IDs(Pick(list, lone)), Extra(etcd, es), base))
  {
    RightLeftover(list, etcd, ROW_KEY, CONN_KEY, es, lone, j);
    if i in Rights(es) {
      var id := StandsOld(list, rows, etcd, es, lone, i);
      OldAndNew(rows, IDs(Pick(list, lone)), etcd, es, base, id, j);
    } else {
      TwoNew(rows, IDs(Pick(list, lone)), etcd, es, base, i, j);
    }
  }

  /** A connection that the table or etcd holds twice stays, or becomes, double. */
  lemma FollowerDouble(list: seq<Row>, rows: Rows, etcd: seq<Conn>, es: seq<Edge>, lone: seq<nat>, base: int)
    requires HashMatched(list, etcd, ROW_KEY, CONN_KEY, es, lone) && Lists(list, rows) && Below(rows, base)
    requires forall k :: 0 <= k < |lone| ==> lone[k] < |list|
    requires !Distinct(rows) || !NoDuplicates(etcd)
    ensures !OneEach(Replaced(rows, IDs(Pick(list, lone)), Extra(etcd, es), base), Elements(etcd))
  {
    if !Distinct(rows) {
      TableDouble(list, rows, etcd, es, lone, base);
    } else {
      var i, j :| 0 <= i < j < |etcd| && etcd[i] == etcd[j];
      EtcdDouble(list, rows, etcd, es, lone, base, i, j);
    }
  }

  lemma DoubleRow(list: seq<Row>, rows: Rows) returns (i: nat, j: nat)
    requires Lists(list, rows) && !Distinct(rows)
    ensures i < j < |list| && list[i].conn == list[j].conn && list[i].id != list[j].id
    ensures !IsLast(list, ROW_KEY, i)
  {
    var a, b :| a in rows && b in rows && rows[a] == rows[b] && a != b;
    var m :| 0 <= m < |list| && list[m] == Row(a, rows[a]);
    var n :| 0 <= n < |list| && list[n] == Row(b, rows[b]);
    i, j := if m < n then m else n, if m < n then n else m;
  }

  lemma FollowerIdle(list: seq<Row>, rows: Rows, etcd: seq<Conn>, es: seq<Edge>, lone: seq<nat>)
    requires HashMatched(list, etcd, ROW_KEY, CONN_KEY, es, lone) && Lists(list, rows)
    requires OneEach(rows, Elements(etcd)) && NoDuplicates(etcd)
    ensures lone == [] && Extra(etcd, es) == []
  {
    HashMatchedInRange(list, etcd, ROW_KEY, CONN_KEY, es, lone);
    ExtraIsMissing(list, rows, etcd, es, lone);
    HasFirst(Extra(etcd, es));
    HasFirst(lone);
    forall i: nat | i < |list| ensures i !in lone {
      assert rows[list[i].id] in Conns(rows);
      LeftLeftover(list, etcd, ROW_KEY, CONN_KEY, es, lone, i);
    }
  }

  class Node {
    var rows: Rows
    var curID: int

    predicate Valid()
      reads this
    {
      forall id :: id in rows ==> id <= curID
    }

    method SelectConnections() returns (list: seq<Row>)
      ensures Lists(list, rows)
    {
      list := [];
      var todo := rows.Keys;
      while todo != {}
        invariant todo <= rows.Keys
        invariant forall i :: 0 <= i < |list| ==>
          list[i].id in rows && rows[list[i].id] == list[i].conn && list[i].id !in todo
        invariant forall id :: id in rows && id !in todo ==> Row(id, rows[id]) in list
        invariant forall i, j :: 0 <= i < j < |list| ==> list[i].id != list[j].id
        decreases |todo|
      {
        var id := PickAny(todo);
        todo := todo - {id};
        list := list + [Row(id, rows[id])];
      }
    }

    method RemoveAll(gone: seq<Row>)
      requires Valid()
      modifies this`rows
      ensures Valid() && rows == old(rows) - IDs(gone)
    {
      for n := 0 to |gone|
        invariant Valid() && rows == old(rows) - IDs(gone[..n])
      {
        TakeSnoc(gone, n);
        assert IDs(gone[..n + 1]) == IDs(gone[..n]) + {gone[n].id};
        rows := rows - {gone[n].id};
      }
      TakeAll(gone);
    }

    /** Each insertion draws the next ID and then commits the connection. */
    method InsertAll(conns: seq<Conn>)
      requires Valid()
      modifies this
      ensures Valid() && curID == old(curID) + |conns|
      ensures rows == old(rows) + Inserted(conns, old(curID))
    {
      for n := 0 to |conns|
        invariant Valid() && curID == old(curID) + n
        invariant rows == old(rows) + Inserted(conns[..n], old(curID))
      {
        ghost var before := rows;
        curID := curID + 1;
        rows := rows[curID := conns[n]];
        InsertedOne(old(rows), conns, n, old(curID), before, curID, rows);
      }
      TakeAll(conns);
    }
  }
}
