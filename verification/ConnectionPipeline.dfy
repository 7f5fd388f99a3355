/** Connections on their way from the blueprint over the leader's table and etcd
    to the followers' tables. */
module ConnectionPipeline {
  import opened Prelude
  import opened Connections
  import opened ConnectionOrder
  import HashJoin
  import Matching
  import opened Join

  datatype LoadBalancer = LoadBalancer(name: Hostname, hostnames: seq<Hostname>)

  // ------------------------------------------------------- the engine's wishes

  /** The load balancer of a name; of several, the last one. */
  function ByName(lbs: seq<LoadBalancer>): map<Hostname, seq<Hostname>> {
    if lbs == [] then map[]
    else var n := |lbs| - 1; ByName(lbs[..n])[lbs[n].name := lbs[n].hostnames]
  }

  /** Load balancer `k` is the last one of its name. */
  ghost predicate LastOfName(lbs: seq<LoadBalancer>, k: nat) {
    k < |lbs| && forall j :: k < j < |lbs| ==> lbs[j].name != lbs[k].name
  }

  /** A name is in the table if and only if some load balancer has it, and it stands
      for the last of those. */
  lemma {:induction false} ByNameIsLast(lbs: seq<LoadBalancer>, name: Hostname)
    ensures name in ByName(lbs) <==> exists k: nat :: LastOfName(lbs, k) && lbs[k].name == name
    ensures forall k: nat :: LastOfName(lbs, k) && lbs[k].name == name ==>
              name in ByName(lbs) && ByName(lbs)[name] == lbs[k].hostnames
  {
    if lbs != [] {
      var n := |lbs| - 1;
      var before := lbs[..n];
      ByNameIsLast(before, name);
      assert LastOfName(lbs, n);
      if lbs[n].name != name {
        forall k: nat | k < n && lbs[k].name == name
          ensures LastOfName(lbs, k) <==> LastOfName(before, k)
        {
          assert before[k] == lbs[k];
        }
      }
    }
  }

  /** Connection `k` is `c`, but to the given hostnames: from the same hostnames, on the
      same ports. */
  predicate Redirects(c: Conn, hostnames: seq<Hostname>, k: Conn) {
    k.from == c.from && k.to == hostnames && k.minPort == c.minPort && k.maxPort == c.maxPort
  }

  /** Connection `c` names load balancer `j`, the last of its name, and `k` goes to the
      containers behind it. */
  ghost predicate Through(c: Conn, lbs: seq<LoadBalancer>, j: nat, k: Conn) {
    LastOfName(lbs, j) && lbs[j].name in c.to && Redirects(c, lbs[j].hostnames, k)
  }

  /** The connections of the blueprint, and those that its load balancers call for. */
  ghost predicate Wanted(conns: seq<Conn>, lbs: seq<LoadBalancer>, k: Conn) {
    k in conns || exists i: nat, j: nat :: i < |conns| && Through(conns[i], lbs, j, k)
  }

  /** Connection `c` reaches load balancer `to`, and so implies `k`. */
  predicate Implies(c: Conn, table: map<Hostname, seq<Hostname>>, to: Hostname, k: Conn) {
    to in c.to && to in table && Redirects(c, table[to], k)
  }

  lemma ImpliedIsThrough(c: Conn, lbs: seq<LoadBalancer>, to: Hostname, k: Conn) returns (j: nat)
    requires Implies(c, ByName(lbs), to, k)
    ensures Through(c, lbs, j, k)
  {
    ByNameIsLast(lbs, to);
    j :| LastOfName(lbs, j) && lbs[j].name == to;
  }

  lemma ThroughIsImplied(c: Conn, lbs: seq<LoadBalancer>, j: nat, k: Conn)
    requires Through(c, lbs, j, k)
    ensures Implies(c, ByName(lbs), lbs[j].name, k)
  {
    ByNameIsLast(lbs, lbs[j].name);
  }

  method IndexLoadBalancers(lbs: seq<LoadBalancer>) returns (table: map<Hostname, seq<Hostname>>)
    ensures table == ByName(lbs)
    ensures forall k: nat :: LastOfName(lbs, k) ==> lbs[k].name in table && table[lbs[k].name] == lbs[k].hostnames
    ensures forall name :: name in table ==> exists k: nat :: LastOfName(lbs, k) && lbs[k].name == name
  {
    table := map[];
    for n := 0 to |lbs|
      invariant table == ByName(lbs[..n])
    {
      assert lbs[..n + 1][..n] == lbs[..n];
      table := table[lbs[n].name := lbs[n].hostnames];
    }
    TakeAll(lbs);
    forall name
      ensures name in table ==> exists k: nat :: LastOfName(lbs, k) && lbs[k].name == name
      ensures forall k: nat :: LastOfName(lbs, k) && lbs[k].name == name ==>
                name in table && table[name] == lbs[k].hostnames
    {
      ByNameIsLast(lbs, name);
    }
  }

  method ImpliedBy(c: Conn, table: map<Hostname, seq<Hostname>>) returns (more: seq<Conn>)
    ensures forall k :: k in more <==> exists to :: Implies(c, table, to, k)
  {
    more := [];
    for j := 0 to |c.to|
      invariant forall k :: k in more <==> exists i :: 0 <= i < j && Implies(c, table, c.to[i], k)
    {
      if c.to[j] in table {
        more := more + [Conn(c.from, table[c.to[j]], c.minPort, c.maxPort)];
      }
    }
    forall k | k in more ensures exists to :: Implies(c, table, to, k) {
      var i :| 0 <= i < |c.to| && Implies(c, table, c.to[i], k);
    }
  }

  /** The loop runs over the blueprint's own connections only, though it appends
      to the list it runs over. */
  method Expand(conns: seq<Conn>, lbs: seq<LoadBalancer>) returns (scs: seq<Conn>)
    ensures forall k :: k in scs <==> Wanted(conns, lbs, k)
  {
    var table := IndexLoadBalancers(lbs);
    scs := conns;
    for n := 0 to |conns|
      invariant forall k :: k in scs <==> k in conns || exists i, to :: 0 <= i < n && Implies(conns[i], table, to, k)
    {
      var more := ImpliedBy(conns[n], table);
      scs := scs + more;
    }
    forall k ensures k in scs <==> Wanted(conns, lbs, k) {
      WantedIff(conns, lbs, table, k);
    }
  }

  lemma WantedIff(conns: seq<Conn>, lbs: seq<LoadBalancer>, table: map<Hostname, seq<Hostname>>, k: Conn)
    requires table == ByName(lbs)
    ensures Wanted(conns, lbs, k) <==>
            k in conns || exists i, to :: 0 <= i < |conns| && Implies(conns[i], table, to, k)
  {
    if i, to :| 0 <= i < |conns| && Implies(conns[i], table, to, k) {
      var j := ImpliedIsThrough(conns[i], lbs, to, k);
    }
    if i: nat, j: nat :| i < |conns| && Through(conns[i], lbs, j, k) {
      ThroughIsImplied(conns[i], lbs, j, k);
      assert Implies(conns[i], table, lbs[j].name, k);
    }
  }

  /** The table holds each wanted connection once and nothing else. */
  ghost predicate Satisfies(rows: Rows, conns: seq<Conn>, lbs: seq<LoadBalancer>) {
    Distinct(rows) && forall k :: k in Conns(rows) <==> Wanted(conns, lbs, k)
  }

  /** Rows that survive are not rewritten. */
  ghost predicate Untouched(before: Rows, after: Rows) {
    forall id :: id in before && id in after ==> after[id] == before[id]
  }

  lemma ReplacedUntouched(rows: Rows, gone: set<int>, conns: seq<Conn>, base: int)
    requires Below(rows, base)
    ensures Untouched(rows, Replaced(rows, gone, conns, base))
    ensures gone == {} && conns == [] ==> Replaced(rows, gone, conns, base) == rows
  {
  }

  lemma EngineOutcome(conns: seq<Conn>, lbs: seq<LoadBalancer>, scs: seq<Conn>, list: seq<Row>, rows: Rows,
                      es: seq<Matching.Edge>, lone: seq<nat>, base: int)
    requires HashJoin.HashMatched(scs, list, CONN_KEY, ROW_KEY, es, lone) && Lists(list, rows) && Below(rows, base)
    requires forall k :: 0 <= k < |lone| ==> lone[k] < |scs|
    requires forall k :: k in scs <==> Wanted(conns, lbs, k)
    ensures Satisfies(Replaced(rows, IDs(Dropped(list, es)), Pick(scs, lone), base), conns, lbs)
    ensures Satisfies(rows, conns, lbs) ==> Dropped(list, es) == [] && lone == []
  {
    EngineOneEach(scs, list, rows, es, lone, base);
    if Satisfies(rows, conns, lbs) {
      assert Conns(rows) == Elements(scs);
      EngineIdle(scs, list, rows, es, lone);
    }
  }

  /** Whatever the table held, it ends up with each wanted connection once; when
      it had just those, nothing is written. */
  method UpdateConnections(node: Node, conns: seq<Conn>, lbs: seq<LoadBalancer>)
    requires node.Valid()
    modifies node
    ensures node.Valid() && Satisfies(node.rows, conns, lbs) && Untouched(old(node.rows), node.rows)
    ensures old(Satisfies(node.rows, conns, lbs)) ==> node.rows == old(node.rows) && node.curID == old(node.curID)
  {
    var scs := Expand(conns, lbs);
    var list := node.SelectConnections();
    var pairs, add, gone := HashJoin.HashJoin(scs, list, CONN_KEY, ROW_KEY);
    ghost var es, lone :| HashJoin.Explains(scs, list, CONN_KEY, ROW_KEY, pairs, add, gone, es, lone);
    EngineOutcome(conns, lbs, scs, list, node.rows, es, lone, node.curID);
    ReplacedUntouched(node.rows, IDs(gone), add, node.curID);
    node.RemoveAll(gone);
    node.InsertAll(add);
  }

  /** Access to a load balancer implies access to each container behind it, from
      the same hostnames and on the same ports. */
  lemma LoadBalancerImpliesBackends(rows: Rows, conns: seq<Conn>, lbs: seq<LoadBalancer>, c: Conn, j: nat)
    requires Satisfies(rows, conns, lbs) && c in conns && LastOfName(lbs, j) && lbs[j].name in c.to
    ensures Conn(c.from, lbs[j].hostnames, c.minPort, c.maxPort) in Conns(rows)
  {
    var i :| 0 <= i < |conns| && conns[i] == c;
    assert Through(conns[i], lbs, j, Conn(c.from, lbs[j].hostnames, c.minPort, c.maxPort));
  }

  // ------------------------------------------------------------ leader and etcd

  /** The etcd node: absent, or the JSON of a list. */
  datatype EtcdText = Missing | Listing(conns: seq<Conn>)

  class Store {
    var value: EtcdText
    var writes: nat
  }

  function Decoded(text: EtcdText): seq<Conn> {
    if text.Missing? then [] else text.conns
  }

  /** The one listing of a set of connections that the leader can write. */
  ghost predicate Canonical(s: seq<Conn>, ks: set<Conn>) {
    Ascending(s) && Elements(s) == ks
  }

  lemma SortIsCanonical(list: seq<Row>, rows: Rows)
    requires Lists(list, rows) && Distinct(rows)
    ensures Canonical(ConnsOf(Sorted(list)), Conns(rows))
  {
    forall i, j | 0 <= i < j < |list| ensures list[i].conn != list[j].conn {
      assert rows[list[i].id] == list[i].conn && rows[list[j].id] == list[j].conn;
    }
    SortedAscending(list);
    ListedConns(list, rows);
    forall c ensures c in ConnsOf(Sorted(list)) <==> c in Conns(rows) {
      SortKeepsConns(list, c);
    }
  }

  lemma SortKeepsConns(list: seq<Row>, c: Conn)
    ensures c in ConnsOf(Sorted(list)) <==> exists i :: 0 <= i < |list| && list[i].conn == c
  {
    var s := Sorted(list);
    if c in ConnsOf(s) {
      var k :| 0 <= k < |s| && s[k].conn == c;
      assert s[k] in multiset(list);
    }
    if i :| 0 <= i < |list| && list[i].conn == c {
      assert list[i] in multiset(s);
      var k :| 0 <= k < |s| && s[k] == list[i];
      assert ConnsOf(s)[k] == c;
    }
  }

  lemma CanonicalHasNoDuplicates(s: seq<Conn>, ks: set<Conn>)
    requires Canonical(s, ks)
    ensures NoDuplicates(s)
  {
    forall i, j | 0 <= i < j < |s| ensures s[i] != s[j] {
      ConnOrder(s[i], s[j]);
    }
  }

  /** Sorts, marshals, and writes only what differs from what was read. */
  method WriteEtcdSlice(store: Store, read: EtcdText, list: seq<Row>, writeOk: bool) returns (ok: bool)
    requires read == store.value
    modifies store
    ensures ok <==> writeOk || read == Listing(ConnsOf(Sorted(list)))
    ensures ok ==> store.value == Listing(ConnsOf(Sorted(list)))
    ensures store.value == read ==> store.writes == old(store.writes)
    ensures !ok ==> store.value == read
  {
    var text := Listing(ConnsOf(Sorted(list)));
    ok := true;
    if text != read {
      if writeOk {
        store.value := text;
        store.writes := store.writes + 1;
      } else {
        ok := false;
      }
    }
  }

  lemma FollowerOutcome(list: seq<Row>, rows: Rows, etcd: seq<Conn>, es: seq<Matching.Edge>, lone: seq<nat>, base: int)
    requires HashJoin.HashMatched(list, etcd, ROW_KEY, CONN_KEY, es, lone) && Lists(list, rows) && Below(rows, base)
    requires forall k :: 0 <= k < |lone| ==> lone[k] < |list|
    ensures OneEach(Replaced(rows, IDs(Pick(list, lone)), Extra(etcd, es), base), Elements(etcd)) <==>
      Distinct(rows) && NoDuplicates(etcd)
    ensures OneEach(rows, Elements(etcd)) && NoDuplicates(etcd) ==> lone == [] && Extra(etcd, es) == []
  {
    if Distinct(rows) && NoDuplicates(etcd) {
      FollowerOneEach(list, rows, etcd, es, lone, base);
      if OneEach(rows, Elements(etcd)) {
        FollowerIdle(list, rows, etcd, es, lone);
      }
    } else {
      FollowerDouble(list, rows, etcd, es, lone, base);
    }
  }

  /** The follower's table ends up with each listed connection once if and only if
      neither it nor the listing held one twice. */
  method JoinConnections(node: Node, etcd: seq<Conn>)
    requires node.Valid()
    modifies node
    ensures node.Valid() && Untouched(old(node.rows), node.rows)
    ensures OneEach(node.rows, Elements(etcd)) <==> Distinct(old(node.rows)) && NoDuplicates(etcd)
    ensures OneEach(old(node.rows), Elements(etcd)) && NoDuplicates(etcd) ==>
      node.rows == old(node.rows) && node.curID == old(node.curID)
  {
    var list := node.SelectConnections();
    var pairs, gone, add := HashJoin.HashJoin(list, etcd, ROW_KEY, CONN_KEY);
    ghost var es, lone :| HashJoin.Explains(list, etcd, ROW_KEY, CONN_KEY, pairs, gone, add, es, lone);
    FollowerOutcome(list, node.rows, etcd, es, lone, node.curID);
    ReplacedUntouched(node.rows, IDs(gone), add, node.curID);
    node.RemoveAll(gone);
    node.InsertAll(add);
  }

  /** One run of the connection worker. The leader publishes its table; everybody
      else copies what is published. */
  method RunConnectionOnce(node: Node, leader: bool, store: Store, readOk: bool, writeOk: bool) returns (ok: bool, ghost order: seq<Row>)
    requires node.Valid()
    modifies node, store
    ensures node.Valid() && Lists(order, old(node.rows))
    ensures !readOk ==> !ok && store.value == old(store.value) && node.rows == old(node.rows)
    ensures leader ==> node.rows == old(node.rows) && node.curID == old(node.curID)
    ensures leader && readOk ==> (ok <==> writeOk || old(store.value) == Listing(ConnsOf(Sorted(order))))
    ensures leader && ok ==> store.value == Listing(ConnsOf(Sorted(order)))
    ensures store.value == old(store.value) ==> store.writes == old(store.writes)
    ensures !leader || !ok ==> store.value == old(store.value)
    ensures !leader && readOk ==> ok
    ensures !leader && readOk ==>
      (OneEach(node.rows, Elements(Decoded(store.value))) <==> Distinct(old(node.rows)) && NoDuplicates(Decoded(store.value)))
    ensures OneEach(old(node.rows), Elements(Decoded(store.value))) && NoDuplicates(Decoded(store.value)) ==>
      node.rows == old(node.rows) && node.curID == old(node.curID)
  {
    var list := node.SelectConnections();
    order := list;
    if !readOk {
      return false, order;
    }
    var text := store.value;
    if leader {
      ok := WriteEtcdSlice(store, text, list, writeOk);
    } else {
      JoinConnections(node, Decoded(text));
      ok := true;
    }
  }

  /** The follower's table and the published text are what the leader's table
      calls for. */
  ghost predicate InStep(leader: Rows, text: EtcdText, follower: Rows) {
    text.Listing? && Canonical(text.conns, Conns(leader)) && OneEach(follower, Conns(leader))
  }

  /** One leader run and one follower run, both reaching etcd, bring the follower in
      step, without a connection held twice anywhere; once in step, a further round
      writes nothing, whatever order the tables are read in. */
  method Round(leader: Node, follower: Node, store: Store)
    requires leader.Valid() && follower.Valid() && leader != follower
    requires Distinct(leader.rows) && Distinct(follower.rows)
    modifies leader, follower, store
    ensures leader.Valid() && follower.Valid() && leader.rows == old(leader.rows)
    ensures InStep(leader.rows, store.value, follower.rows)
    ensures old(InStep(leader.rows, store.value, follower.rows)) ==>
      store.value == old(store.value) && store.writes == old(store.writes) &&
      follower.rows == old(follower.rows) && follower.curID == old(follower.curID)
  {
    var ok, order := RunConnectionOnce(leader, true, store, true, true);
    ghost var text := ConnsOf(Sorted(order));
    SortIsCanonical(order, leader.rows);
    CanonicalHasNoDuplicates(text, Conns(leader.rows));
    if old(InStep(leader.rows, store.value, follower.rows)) {
      AscendingUnique(text, old(store.value.conns));
    }
    ok, order := RunConnectionOnce(follower, false, store, true, true);
  }
}
