/** Which public ports each container gets, from the connection table, and the
    switch ports of the containers that have them. */
module PublicPorts {
  import opened Prelude
  import opened Addresses
  import opened OpenFlow
  import opened FlowTables
  import opened FlowMeaning
  import Connections

  type Hostname = Connections.Hostname
  type Connection = Connections.Conn

  const PUBLIC := Connections.PUBLIC

  type IfName = nat

  datatype DBContainer = DBContainer(ip: IP, hostname: Hostname)

  /** A row of the container table: the address may not be assigned yet, and `minion` is
      the machine that the container is placed on. */
  datatype ContainerRow = ContainerRow(ip: Option<IP>, minion: IP, hostname: Hostname)

  /** A container before its interfaces are looked up. */
  datatype Unresolved = Unresolved(ip: IP, veth: IfName, patch: IfName, toPub: set<int>, fromPub: set<int>)

  /** A connection that opens exactly port `q`; ranges are not supported. */
  predicate Opens(c: Connection, q: int) {
    c.minPort == c.maxPort == q
  }

  ghost predicate OpensTo(conns: seq<Connection>, h: Hostname, q: int) {
    exists k :: 0 <= k < |conns| && Opens(conns[k], q) && h in conns[k].from && PUBLIC in conns[k].to
  }

  ghost predicate OpensFrom(conns: seq<Connection>, h: Hostname, q: int) {
    exists k :: 0 <= k < |conns| && Opens(conns[k], q) && PUBLIC in conns[k].from && h in conns[k].to
  }

  type PortLists = map<Hostname, seq<int>>

  function Ports(m: PortLists, h: Hostname): seq<int> {
    if h in m then m[h] else []
  }

  predicate HasPort(m: PortLists, h: Hostname, q: int) {
    q in Ports(m, h)
  }

  function Append(m: PortLists, h: Hostname, q: int): (r: PortLists)
    ensures forall g :: Ports(r, g) == if g == h then Ports(m, h) + [q] else Ports(m, g)
  {
    m[h := Ports(m, h) + [q]]
  }

  /** `m` is `m0` with port `c.minPort` added for the hostnames in `hs`. */
  ghost predicate Grew(m0: PortLists, m: PortLists, c: Connection, hs: set<Hostname>) {
    forall h: Hostname, q: int :: HasPort(m, h, q) <==> HasPort(m0, h, q) || (h in hs && Opens(c, q))
  }

  lemma GrowMore(m0: PortLists, m: PortLists, m': PortLists, c: Connection, hs: set<Hostname>, more: set<Hostname>)
    requires Grew(m0, m, c, hs) && Grew(m, m', c, more)
    ensures Grew(m0, m', c, hs + more)
  {
  }

  lemma AppendGrows(m: PortLists, c: Connection, h: Hostname)
    requires c.minPort == c.maxPort
    ensures Grew(m, Append(m, h, c.minPort), c, {h})
  {
  }

  function Sources(from: set<Hostname>, to: set<Hostname>): set<Hostname> {
    if PUBLIC in to then from else {}
  }

  lemma ElementsSnoc(s: seq<Hostname>, j: nat)
    requires j < |s|
    ensures Elements(s[..j + 1]) == Elements(s[..j]) + {s[j]}
  {
    assert s[..j + 1] == s[..j] + [s[j]];
  }

  /** The innermost body: one source against one destination. */
  method AddPair(c: Connection, from: Hostname, dest: Hostname, to0: PortLists, from0: PortLists) returns (to: PortLists, fr: PortLists)
    ensures Grew(to0, to, c, Sources({from}, {dest}))
    ensures Grew(from0, fr, c, Sources({dest}, {from}))
  {
    to, fr := to0, from0;
    if from != PUBLIC && dest != PUBLIC {
      return;
    }
    if c.minPort != c.maxPort {
      return;
    }
    if from == PUBLIC {
      AppendGrows(fr, c, dest);
      fr := Append(fr, dest, c.minPort);
    }
    if dest == PUBLIC {
      AppendGrows(to, c, from);
      to := Append(to, from, c.minPort);
    }
  }

  method AddSource(c: Connection, from: Hostname, to0: PortLists, from0: PortLists) returns (to: PortLists, fr: PortLists)
    ensures Grew(to0, to, c, Sources({from}, Elements(c.to)))
    ensures Grew(from0, fr, c, Sources(Elements(c.to), {from}))
  {
    to, fr := to0, from0;
    for j := 0 to |c.to|
      invariant Grew(to0, to, c, Sources({from}, Elements(c.to[..j])))
      invariant Grew(from0, fr, c, Sources(Elements(c.to[..j]), {from}))
    {
      ElementsSnoc(c.to, j);
      var to', fr' := AddPair(c, from, c.to[j], to, fr);
      GrowMore(to0, to, to', c, Sources({from}, Elements(c.to[..j])), Sources({from}, {c.to[j]}));
      GrowMore(from0, fr, fr', c, Sources(Elements(c.to[..j]), {from}), Sources({c.to[j]}, {from}));
      SourcesJoin({from}, Elements(c.to[..j]), {c.to[j]});
      to, fr := to', fr';
    }
    TakeAll(c.to);
  }

  lemma SourcesJoin(hs: set<Hostname>, a: set<Hostname>, b: set<Hostname>)
    ensures Sources(hs, a + b) == Sources(hs, a) + Sources(hs, b)
    ensures Sources(a + b, hs) == Sources(a, hs) + Sources(b, hs)
  {
  }

  method AddConnection(c: Connection, to0: PortLists, from0: PortLists) returns (to: PortLists, fr: PortLists)
    ensures Grew(to0, to, c, Sources(Elements(c.from), Elements(c.to)))
    ensures Grew(from0, fr, c, Sources(Elements(c.to), Elements(c.from)))
  {
    to, fr := to0, from0;
    for i := 0 to |c.from|
      invariant Grew(to0, to, c, Sources(Elements(c.from[..i]), Elements(c.to)))
      invariant Grew(from0, fr, c, Sources(Elements(c.to), Elements(c.from[..i])))
    {
      ElementsSnoc(c.from, i);
      var to', fr' := AddSource(c, c.from[i], to, fr);
      GrowMore(to0, to, to', c, Sources(Elements(c.from[..i]), Elements(c.to)), Sources({c.from[i]}, Elements(c.to)));
      GrowMore(from0, fr, fr', c, Sources(Elements(c.to), Elements(c.from[..i])), Sources(Elements(c.to), {c.from[i]}));
      SourcesJoin(Elements(c.to), Elements(c.from[..i]), {c.from[i]});
      to, fr := to', fr';
    }
    TakeAll(c.from);
  }

  method CollectPorts(conns: seq<Connection>) returns (to: PortLists, fr: PortLists)
    ensures Collects(conns, to, fr)
  {
    to, fr := map[], map[];
    for n := 0 to |conns|
      invariant Collects(conns[..n], to, fr)
    {
      var to', fr' := AddConnection(conns[n], to, fr);
      CollectMore(conns, n, conns[n], to, fr, to', fr');
      to, fr := to', fr';
    }
    TakeAll(conns);
  }

  ghost predicate Collects(conns: seq<Connection>, to: PortLists, fr: PortLists) {
    forall h: Hostname, q: int :: (HasPort(to, h, q) <==> OpensTo(conns, h, q)) && (HasPort(fr, h, q) <==> OpensFrom(conns, h, q))
  }

  lemma CollectMore(conns: seq<Connection>, n: nat, c: Connection, to: PortLists, fr: PortLists, to': PortLists, fr': PortLists)
    requires n < |conns| && c == conns[n] && Collects(conns[..n], to, fr)
    requires Grew(to, to', c, Sources(Elements(c.from), Elements(c.to)))
    requires Grew(fr, fr', c, Sources(Elements(c.to), Elements(c.from)))
    ensures Collects(conns[..n + 1], to', fr')
  {
    forall h: Hostname, q: int
      ensures (HasPort(to', h, q) <==> OpensTo(conns[..n + 1], h, q)) && (HasPort(fr', h, q) <==> OpensFrom(conns[..n + 1], h, q))
    {
      OpensSnoc(conns, n, h, q);
    }
  }

  lemma OpensSnoc(conns: seq<Connection>, n: nat, h: Hostname, q: int)
    requires n < |conns|
    ensures OpensTo(conns[..n + 1], h, q) <==>
      OpensTo(conns[..n], h, q) || (Opens(conns[n], q) && h in conns[n].from && PUBLIC in conns[n].to)
    ensures OpensFrom(conns[..n + 1], h, q) <==>
      OpensFrom(conns[..n], h, q) || (Opens(conns[n], q) && PUBLIC in conns[n].from && h in conns[n].to)
  {
    var a, b := conns[..n], conns[..n + 1];
    assert b[n] == conns[n];
    assert forall k :: 0 <= k < n ==> b[k] == a[k];
  }

  ghost predicate Resolves(conns: seq<Connection>, dbc: DBContainer, ports: set<int>, to: bool) {
    forall q: int :: q in ports <==> if to then OpensTo(conns, dbc.hostname, q) else OpensFrom(conns, dbc.hostname, q)
  }

  method OpenflowContainers(dbcs: seq<DBContainer>, conns: seq<Connection>, vethName: IP -> IfName, patchName: IP -> IfName)
    returns (ofcs: seq<Unresolved>)
    ensures |ofcs| == |dbcs|
    ensures forall i :: 0 <= i < |dbcs| ==>
      ofcs[i].ip == dbcs[i].ip && ofcs[i].veth == vethName(dbcs[i].ip) && ofcs[i].patch == patchName(dbcs[i].ip)
    ensures forall i :: 0 <= i < |dbcs| ==>
      Resolves(conns, dbcs[i], ofcs[i].toPub, true) && Resolves(conns, dbcs[i], ofcs[i].fromPub, false)
  {
    var to, fr := CollectPorts(conns);
    ofcs := [];
    for n := 0 to |dbcs|
      invariant |ofcs| == n
      invariant forall i :: 0 <= i < n ==>
        ofcs[i].ip == dbcs[i].ip && ofcs[i].veth == vethName(dbcs[i].ip) && ofcs[i].patch == patchName(dbcs[i].ip)
      invariant forall i :: 0 <= i < n ==>
        Resolves(conns, dbcs[i], ofcs[i].toPub, true) && Resolves(conns, dbcs[i], ofcs[i].fromPub, false)
    {
      var c := dbcs[n];
      var ofc := Unresolved(c.ip, vethName(c.ip), patchName(c.ip),
                            Elements(Ports(to, c.hostname)), Elements(Ports(fr, c.hostname)));
      assert Resolves(conns, c, ofc.toPub, true) && Resolves(conns, c, ofc.fromPub, false);
      ofcs := ofcs + [ofc];
    }
  }

  predicate Found(ports: map<IfName, Port>, u: Unresolved) {
    u.veth in ports && u.patch in ports
  }

  function Lookup(ports: map<IfName, Port>, u: Unresolved): Container
    requires Found(ports, u)
  {
    Container(u.ip, ports[u.veth], ports[u.patch], u.toPub, u.fromPub)
  }

  /** Containers whose interfaces are not there yet are left for a later run. */
  method ResolveContainers(ports: map<IfName, Port>, us: seq<Unresolved>) returns (cs: seq<Container>)
    ensures forall c :: c in cs <==> exists i :: 0 <= i < |us| && Found(ports, us[i]) && Lookup(ports, us[i]) == c
  {
    cs := [];
    for n := 0 to |us|
      invariant forall c :: c in cs <==> exists i :: 0 <= i < n && Found(ports, us[i]) && Lookup(ports, us[i]) == c
    {
      if us[n].veth !in ports || us[n].patch !in ports {
        continue;
      }
      cs := cs + [Lookup(ports, us[n])];
    }
  }

  /** Row `id` is a container of this machine with an address; `dbc` is that container. */
  ghost predicate Local(table: map<int, ContainerRow>, myIP: IP, id: int, dbc: DBContainer) {
    id in table && table[id].minion == myIP && table[id].ip == Some(dbc.ip) && table[id].hostname == dbc.hostname
  }

  /** `dbcs` are all such containers, each once; `ids` are their rows. */
  ghost predicate ListsLocal(table: map<int, ContainerRow>, myIP: IP, ids: seq<int>, dbcs: seq<DBContainer>) {
    && |dbcs| == |ids| && NoDuplicates(ids)
    && (forall i :: 0 <= i < |ids| ==> Local(table, myIP, ids[i], dbcs[i]))
    && (forall id, dbc :: Local(table, myIP, id, dbc) ==> exists i :: 0 <= i < |ids| && ids[i] == id && dbcs[i] == dbc)
  }

  /** The containers of this machine that have an address, in the arbitrary order of a
      map iteration. */
  method SelectLocal(table: map<int, ContainerRow>, myIP: IP) returns (dbcs: seq<DBContainer>)
    ensures exists ids :: ListsLocal(table, myIP, ids, dbcs)
  {
    dbcs := [];
    ghost var ids := [];
    var todo := table.Keys;
    while todo != {}
      invariant todo <= table.Keys && |dbcs| == |ids| && NoDuplicates(ids)
      invariant forall i :: 0 <= i < |ids| ==> ids[i] !in todo && Local(table, myIP, ids[i], dbcs[i])
      invariant forall id :: id in table && table[id].minion == myIP && table[id].ip.Some? ==> id in todo || id in ids
      decreases |todo|
    {
      var id := PickAny(todo);
      todo := todo - {id};
      var row := table[id];
      if row.ip.Some? && row.minion == myIP {
        dbcs := dbcs + [DBContainer(row.ip.value, row.hostname)];
        ids := ids + [id];
      }
    }
    forall id, dbc | Local(table, myIP, id, dbc) ensures exists i :: 0 <= i < |ids| && ids[i] == id && dbcs[i] == dbc {
      var i :| 0 <= i < |ids| && ids[i] == id;
      assert Local(table, myIP, ids[i], dbcs[i]);
    }
    assert ListsLocal(table, myIP, ids, dbcs);
  }

  /** Switch container `c` stands for container `dbc` of the database, with the public
      ports that the connection table gives its hostname. */
  ghost predicate StandsFor(c: Container, dbc: DBContainer, conns: seq<Connection>) {
    c.ip == dbc.ip && Resolves(conns, dbc, c.toPub, true) && Resolves(conns, dbc, c.fromPub, false)
  }

  /** ... on the two switch ports that its interfaces have. */
  ghost predicate Plugged(c: Container, dbc: DBContainer, vethName: IP -> IfName, patchName: IP -> IfName,
                          ports: map<IfName, Port>)
  {
    && vethName(dbc.ip) in ports && c.veth == ports[vethName(dbc.ip)]
    && patchName(dbc.ip) in ports && c.patch == ports[patchName(dbc.ip)]
  }

  /** The flows that are installed for the containers of this machine: those that have
      an address and whose interfaces exist. */
  method UpdateOpenflow(table: map<int, ContainerRow>, myIP: IP, conns: seq<Connection>,
                        vethName: IP -> IfName, patchName: IP -> IfName, ports: map<IfName, Port>)
    returns (cs: seq<Container>, flows: seq<Flow>)
    ensures Installed(cs, Elements(flows))
    ensures forall c :: c in cs ==>
              exists id, dbc :: Local(table, myIP, id, dbc) && StandsFor(c, dbc, conns) && Plugged(c, dbc, vethName, patchName, ports)
    ensures forall id, dbc :: Local(table, myIP, id, dbc) && vethName(dbc.ip) in ports && patchName(dbc.ip) in ports ==>
              exists c :: c in cs && StandsFor(c, dbc, conns) && Plugged(c, dbc, vethName, patchName, ports)
  {
    var dbcs := SelectLocal(table, myIP);
    ghost var ids :| ListsLocal(table, myIP, ids, dbcs);
    var us := OpenflowContainers(dbcs, conns, vethName, patchName);
    cs := ResolveContainers(ports, us);
    flows := AllFlows(cs);
    forall c | c in cs
      ensures exists id, dbc :: Local(table, myIP, id, dbc) && StandsFor(c, dbc, conns) && Plugged(c, dbc, vethName, patchName, ports)
    {
      var i :| 0 <= i < |us| && Found(ports, us[i]) && Lookup(ports, us[i]) == c;
      assert Local(table, myIP, ids[i], dbcs[i]) && StandsFor(c, dbcs[i], conns);
    }
    forall id, dbc | Local(table, myIP, id, dbc) && vethName(dbc.ip) in ports && patchName(dbc.ip) in ports
      ensures exists c :: c in cs && StandsFor(c, dbc, conns) && Plugged(c, dbc, vethName, patchName, ports)
    {
      var i :| 0 <= i < |ids| && ids[i] == id && dbcs[i] == dbc;
      var c := Lookup(ports, us[i]);
      assert c in cs && StandsFor(c, dbc, conns);
    }
  }

  /** End to end: what the installed flows let a container send to the public
      internet is exactly what single-port public connections of its hostname
      allow, forwards or in reply. */
  lemma PublicTrafficIff(conns: seq<Connection>, dbc: DBContainer, cs: seq<Container>, i: nat, flows: set<Flow>,
                         p: Packet, outs: seq<Port>)
    requires Apart(cs) && Installed(cs, flows) && i < |cs| && cs[i].ip == dbc.ip
    requires Resolves(conns, dbc, cs[i].toPub, true) && Resolves(conns, dbc, cs[i].fromPub, false)
    requires p.inPort == cs[i].veth && Ported(p.body) && p.body.dst != GATEWAY && !p.ethDst.Broadcast?
    requires Runs(flows, 0, 0, p, outs)
    ensures LOCAL in outs <==>
      p.ethSrc == OfIP(dbc.ip) && p.ethDst == GATEWAY_MAC && p.body.src == dbc.ip &&
      (OpensTo(conns, dbc.hostname, p.body.dport) || OpensFrom(conns, dbc.hostname, p.body.sport))
  {
    FlowsMeanPseudocode(cs, flows, p, outs);
    ReachesLocalIff(cs, p, i);
  }
}
