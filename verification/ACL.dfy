/** Compiling hostname connections to access control rules, and what the rules
    let through. */
module ACL {
  import opened Prelude
  import opened AddressText
  import opened AddressSets
  import Connections
  import ConnectionPipeline

  type Hostname = Connections.Hostname
  type Connection = Connections.Conn
  const PUBLIC := Connections.PUBLIC

  type Hosts = map<Hostname, Addr>

  // ---------------------------------------------------------------- the policy

  datatype Packet = Packet(src: Addr, dst: Addr, body: Transport)
  datatype Transport = TCP(sport: int, dport: int) | UDP(sport: int, dport: int) | ICMP

  /** The addresses behind the hostnames of one end of a connection. */
  predicate Ends(hs: seq<Hostname>, hosts: Hosts, a: Addr) {
    exists h :: h in hs && h != PUBLIC && h in hosts && hosts[h] == a
  }

  /** The connection allows the packet forwards, or, by its port, as a response.  ICMP
      has no ports; replies to it are left to connection tracking. */
  predicate Permits(c: Connection, hosts: Hosts, p: Packet) {
    || (Ends(c.from, hosts, p.src) && Ends(c.to, hosts, p.dst) && (p.body.ICMP? || c.minPort <= p.body.dport <= c.maxPort))
    || (Ends(c.to, hosts, p.src) && Ends(c.from, hosts, p.dst) && !p.body.ICMP? && c.minPort <= p.body.sport <= c.maxPort)
  }

  ghost predicate Policy(conns: seq<Connection>, hosts: Hosts, p: Packet) {
    exists i :: 0 <= i < |conns| && Permits(conns[i], hosts, p)
  }

  // ----------------------------------------------------------- resolved endpoints

  /** One address, or a reference to an address set. */
  datatype Endpoint = Single(addr: Addr) | SetRef(name: Hash)
  datatype Resolved = Resolved(from: Endpoint, to: Endpoint, minPort: int, maxPort: int)
  type SetTable = map<Hash, seq<Addr>>

  predicate Known(e: Endpoint, sets: SetTable) {
    e.SetRef? ==> e.name in sets
  }

  predicate Denotes(e: Endpoint, sets: SetTable, a: Addr) {
    match e
    case Single(addr) => a == addr
    case SetRef(name) => name in sets && a in sets[name]
  }

  /** Every set is filed under the name of its own members. */
  ghost predicate WellNamed(sets: SetTable) {
    forall n :: n in sets ==> n == NameOf(sets[n])
  }

  ghost predicate Extends(sets: SetTable, more: SetTable) {
    forall n :: n in sets ==> n in more && more[n] == sets[n]
  }

  method FilterOut(s: seq<Hostname>, item: Hostname) returns (r: seq<Hostname>)
    ensures forall h :: h in r <==> h in s && h != item
  {
    r := [];
    for n := 0 to |s|
      invariant forall h :: h in r <==> h in s[..n] && h != item
    {
      TakeSnoc(s, n);
      if s[n] != item {
        r := r + [s[n]];
      }
    }
    TakeAll(s);
  }

  method Unique(s: seq<Hostname>) returns (r: seq<Hostname>)
    ensures NoDuplicates(r) && forall h :: h in r <==> h in s
  {
    r := [];
    var seen: set<Hostname> := {};
    for n := 0 to |s|
      invariant seen == Elements(r) && NoDuplicates(r) && forall h :: h in r <==> h in s[..n]
    {
      TakeSnoc(s, n);
      if s[n] !in seen {
        r := r + [s[n]];
        seen := seen + {s[n]};
      }
    }
    TakeAll(s);
  }

  /** Hostnames that have no address yet are skipped. */
  method ResolveHostnames(hs: seq<Hostname>, hosts: Hosts) returns (r: seq<Addr>)
    ensures forall a :: a in r <==> exists h :: h in hs && h in hosts && hosts[h] == a
  {
    r := [];
    for n := 0 to |hs|
      invariant forall a :: a in r <==> exists i :: 0 <= i < n && hs[i] in hosts && hosts[hs[i]] == a
    {
      if hs[n] !in hosts {
        continue;
      }
      r := r + [hosts[hs[n]]];
    }
  }

  method ResolveEnd(hs: seq<Hostname>, hosts: Hosts) returns (r: seq<Addr>)
    ensures forall a :: a in r <==> Ends(hs, hosts, a)
  {
    var own := FilterOut(hs, PUBLIC);
    var unique := Unique(own);
    r := ResolveHostnames(unique, hosts);
  }

  method EndpointName(members: seq<Addr>, sets: SetTable) returns (e: Endpoint, more: SetTable)
    requires WellNamed(sets)
    ensures WellNamed(more) && Extends(sets, more) && Known(e, more)
    ensures forall a :: Denotes(e, more, a) <==> a in members
  {
    if |members| == 1 {
      assert members == [members[0]];
      return Single(members[0]), sets;
    }
    var name;
    name, more := FileSet(members, sets);
    e := SetRef(name);
  }

  /** Files the members under their name, unless that name is there already. */
  method FileSet(members: seq<Addr>, sets: SetTable) returns (name: Hash, more: SetTable)
    requires WellNamed(sets)
    ensures WellNamed(more) && Extends(sets, more) && name in more
    ensures forall a :: a in more[name] <==> a in members
  {
    name := NameOf(members);
    more := sets;
    if name !in sets {
      var sorted := Sort(members);
      SortKeepsName(members);
      more := sets[name := sorted];
      assert WellNamed(more);
    }
    FiledMembers(more[name], members);
  }

  lemma SortKeepsName(members: seq<Addr>)
    ensures NameOf(Sort(members)) == NameOf(members)
  {
    NamesIdentifyMembers(Sort(members), members);
  }

  lemma FiledMembers(filed: seq<Addr>, members: seq<Addr>)
    requires NameOf(filed) == NameOf(members)
    ensures forall a :: a in filed <==> a in members
  {
    NamesIdentifyMembers(filed, members);
    forall a ensures a in filed <==> a in members {
      assert a in filed <==> a in multiset(filed);
      assert a in members <==> a in multiset(members);
    }
  }

  // --------------------------------------------------------- resolved connections

  predicate Leads(from: Endpoint, to: Endpoint, sets: SetTable, p: Packet) {
    Denotes(from, sets, p.src) && Denotes(to, sets, p.dst)
  }

  predicate Fits(r: Resolved, sets: SetTable, p: Packet) {
    if p.body.ICMP? then Leads(r.from, r.to, sets, p) else PortsFit(r, sets, p)
  }

  /** What the match string of a connection says. */
  predicate PortsFit(r: Resolved, sets: SetTable, p: Packet) {
    !p.body.ICMP? &&
    (|| (Leads(r.from, r.to, sets, p) && r.minPort <= p.body.dport <= r.maxPort)
     || (Leads(r.to, r.from, sets, p) && r.minPort <= p.body.sport <= r.maxPort))
  }

  ghost predicate AllKnown(rs: seq<Resolved>, sets: SetTable) {
    forall k :: 0 <= k < |rs| ==> Known(rs[k].from, sets) && Known(rs[k].to, sets)
  }

  ghost predicate SomeFits(rs: seq<Resolved>, sets: SetTable, p: Packet) {
    exists k :: 0 <= k < |rs| && Fits(rs[k], sets, p)
  }

  /** The resolved connections mean what the connections mean. */
  ghost predicate SameMeaning(conns: seq<Connection>, hosts: Hosts, rs: seq<Resolved>, sets: SetTable) {
    forall p :: SomeFits(rs, sets, p) <==> Policy(conns, hosts, p)
  }

  lemma ExtendFits(rs: seq<Resolved>, sets: SetTable, more: SetTable, p: Packet)
    requires AllKnown(rs, sets) && Extends(sets, more)
    ensures AllKnown(rs, more) && (SomeFits(rs, more, p) <==> SomeFits(rs, sets, p))
  {
    forall k | 0 <= k < |rs| ensures Fits(rs[k], more, p) <==> Fits(rs[k], sets, p) {
      assert Known(rs[k].from, sets) && Known(rs[k].to, sets);
    }
  }

  lemma PolicySnoc(conns: seq<Connection>, n: nat, hosts: Hosts, p: Packet)
    requires n < |conns|
    ensures Policy(conns[..n + 1], hosts, p) <==> Policy(conns[..n], hosts, p) || Permits(conns[n], hosts, p)
  {
    assert conns[..n + 1][n] == conns[n];
    assert forall i :: 0 <= i < n ==> conns[..n + 1][i] == conns[..n][i];
  }

  lemma FitsSnoc(rs: seq<Resolved>, r: Resolved, sets: SetTable, p: Packet)
    ensures SomeFits(rs + [r], sets, p) <==> SomeFits(rs, sets, p) || Fits(r, sets, p)
  {
    assert (rs + [r])[|rs|] == r;
    assert forall i :: 0 <= i < |rs| ==> (rs + [r])[i] == rs[i];
  }

  method ResolveConnections(conns: seq<Connection>, hosts: Hosts) returns (rs: seq<Resolved>, sets: SetTable)
    ensures AllKnown(rs, sets) && WellNamed(sets) && SameMeaning(conns, hosts, rs, sets)
  {
    rs, sets := [], map[];
    for n := 0 to |conns|
      invariant AllKnown(rs, sets) && WellNamed(sets) && SameMeaning(conns[..n], hosts, rs, sets)
    {
      var c := conns[n];
      var from := ResolveEnd(c.from, hosts);
      var to := ResolveEnd(c.to, hosts);
      if |from| == 0 || |to| == 0 {
        SkipKeepsMeaning(conns, n, hosts, rs, sets, from, to);
        continue;
      }
      var f, sets1 := EndpointName(from, sets);
      var t, sets2 := EndpointName(to, sets1);
      var r := Resolved(f, t, c.minPort, c.maxPort);
      AddKeepsMeaning(conns, n, hosts, rs, r, sets, sets1, sets2, from, to);
      rs, sets := rs + [r], sets2;
    }
    TakeAll(conns);
  }

  lemma SkipKeepsMeaning(conns: seq<Connection>, n: nat, hosts: Hosts, rs: seq<Resolved>, sets: SetTable, from: seq<Addr>, to: seq<Addr>)
    requires n < |conns| && SameMeaning(conns[..n], hosts, rs, sets) && (|from| == 0 || |to| == 0)
    requires forall a :: a in from <==> Ends(conns[n].from, hosts, a)
    requires forall a :: a in to <==> Ends(conns[n].to, hosts, a)
    ensures SameMeaning(conns[..n + 1], hosts, rs, sets)
  {
    forall p ensures SomeFits(rs, sets, p) <==> Policy(conns[..n + 1], hosts, p) {
      PolicySnoc(conns, n, hosts, p);
      assert !Permits(conns[n], hosts, p);
    }
  }

  lemma AddKeepsMeaning(conns: seq<Connection>, n: nat, hosts: Hosts, rs: seq<Resolved>, r: Resolved,
                        sets: SetTable, sets1: SetTable, sets2: SetTable, from: seq<Addr>, to: seq<Addr>)
    requires n < |conns| && SameMeaning(conns[..n], hosts, rs, sets) && AllKnown(rs, sets)
    requires Extends(sets, sets1) && Extends(sets1, sets2) && Known(r.from, sets1)
    requires forall a :: a in from <==> Ends(conns[n].from, hosts, a)
    requires forall a :: a in to <==> Ends(conns[n].to, hosts, a)
    requires forall a :: Denotes(r.from, sets1, a) <==> a in from
    requires forall a :: Denotes(r.to, sets2, a) <==> a in to
    requires r.minPort == conns[n].minPort && r.maxPort == conns[n].maxPort
    ensures SameMeaning(conns[..n + 1], hosts, rs + [r], sets2)
  {
    forall p ensures SomeFits(rs + [r], sets2, p) <==> Policy(conns[..n + 1], hosts, p) {
      PolicySnoc(conns, n, hosts, p);
      FitsSnoc(rs, r, sets2, p);
      ExtendFits(rs, sets, sets2, p);
      assert forall a :: Denotes(r.from, sets2, a) <==> Denotes(r.from, sets1, a);
      assert Fits(r, sets2, p) <==> Permits(conns[n], hosts, p);
    }
  }

  // ------------------------------------------------------------------- the rules

  datatype Direction = FromPort | ToPort
  datatype Action = Drop | Allow | AllowRelated
  datatype RuleMatch = AnyIP | PortsOf(conn: Resolved) | ICMPOf(from: Endpoint, to: Endpoint)
  datatype Rule = Rule(dir: Direction, action: Action, match_: RuleMatch, priority: nat)

  function Directed(action: Action, m: RuleMatch, priority: nat): seq<Rule> {
    [Rule(FromPort, action, m, priority), Rule(ToPort, action, m, priority)]
  }

  predicate IsRule(rs: seq<Resolved>, r: Rule) {
    || (r.action == Drop && r.match_ == AnyIP && r.priority == 0)
    || (exists k :: 0 <= k < |rs| && IsConnRule(rs[k], r))
  }

  predicate IsConnRule(c: Resolved, r: Rule) {
    r.priority == 1 &&
    ((r.action == Allow && r.match_ == PortsOf(c)) || (r.action == AllowRelated && r.match_ == ICMPOf(c.from, c.to)))
  }

  /** The rules for a list of resolved connections; ICMP rules that two of them
      share are made once. */
  method ExpectedACLs(rs: seq<Resolved>) returns (acls: seq<Rule>)
    ensures forall r :: r in acls <==> IsRule(rs, r)
  {
    acls := Directed(Drop, AnyIP, 0);
    forall r ensures r in acls <==> IsRule([], r) {
      DirectedHas(r);
    }
    var icmp: set<RuleMatch> := {};
    for n := 0 to |rs|
      invariant forall r :: r in acls <==> IsRule(rs[..n], r)
      invariant forall m :: m in icmp <==> exists k :: 0 <= k < n && m == ICMPOf(rs[k].from, rs[k].to)
    {
      var before := acls;
      acls := acls + Directed(Allow, PortsOf(rs[n]), 1);
      var m := ICMPOf(rs[n].from, rs[n].to);
      if m !in icmp {
        icmp := icmp + {m};
        acls := acls + Directed(AllowRelated, m, 1);
      } else {
        forall d: Direction ensures Rule(d, AllowRelated, m, 1) in before {
          var k :| 0 <= k < n && m == ICMPOf(rs[k].from, rs[k].to);
          assert IsConnRule(rs[..n][k], Rule(d, AllowRelated, m, 1));
        }
      }
      forall r ensures r in acls <==> IsRule(rs[..n + 1], r) {
        RuleSnoc(rs, n, r);
        DirectedHas(r);
      }
    }
    TakeAll(rs);
  }

  lemma RuleSnoc(rs: seq<Resolved>, n: nat, r: Rule)
    requires n < |rs|
    ensures IsRule(rs[..n + 1], r) <==> IsRule(rs[..n], r) || IsConnRule(rs[n], r)
  {
    assert rs[..n + 1][n] == rs[n];
    assert forall i :: 0 <= i < n ==> rs[..n + 1][i] == rs[..n][i];
  }

  lemma DirectedHas(r: Rule)
    ensures r in Directed(r.action, r.match_, r.priority)
  {
    assert Directed(r.action, r.match_, r.priority)[if r.dir.FromPort? then 0 else 1] == r;
  }

  predicate RuleFits(m: RuleMatch, sets: SetTable, p: Packet) {
    match m
    case AnyIP => true
    case PortsOf(c) => PortsFit(c, sets, p)
    case ICMPOf(f, t) => p.body.ICMP? && Leads(f, t, sets, p)
  }

  ghost predicate Applies(acls: seq<Rule>, sets: SetTable, d: Direction, p: Packet, r: Rule) {
    r in acls && r.dir == d && RuleFits(r.match_, sets, p)
  }

  /** A rule that may decide: of highest priority among those that apply. */
  ghost predicate Decides(acls: seq<Rule>, sets: SetTable, d: Direction, p: Packet, r: Rule) {
    Applies(acls, sets, d, p, r) && forall q :: Applies(acls, sets, d, p, q) ==> q.priority <= r.priority
  }

  ghost predicate MayPass(acls: seq<Rule>, sets: SetTable, d: Direction, p: Packet) {
    exists r :: Decides(acls, sets, d, p, r) && r.action != Drop
  }

  ghost predicate MayDrop(acls: seq<Rule>, sets: SetTable, d: Direction, p: Packet) {
    exists r :: Decides(acls, sets, d, p, r) && r.action == Drop
  }

  ghost predicate Compiled(rs: seq<Resolved>, acls: seq<Rule>) {
    forall r :: r in acls <==> IsRule(rs, r)
  }

  /** A packet passes, in either direction, exactly when some resolved connection
      fits; none is left to chance. */
  lemma RulesDecide(rs: seq<Resolved>, acls: seq<Rule>, sets: SetTable, d: Direction, p: Packet)
    requires Compiled(rs, acls)
    ensures MayPass(acls, sets, d, p) <==> SomeFits(rs, sets, p)
    ensures MayDrop(acls, sets, d, p) <==> !SomeFits(rs, sets, p)
  {
    var drop := Rule(d, Drop, AnyIP, 0);
    assert IsRule(rs, drop);
    assert Applies(acls, sets, d, p, drop);
    forall r | Applies(acls, sets, d, p, r) ensures r == drop || (r.action != Drop && r.priority == 1 && SomeFits(rs, sets, p)) {
      assert IsRule(rs, r);
      if r != drop {
        var k :| 0 <= k < |rs| && IsConnRule(rs[k], r);
        assert Fits(rs[k], sets, p);
      }
    }
    if SomeFits(rs, sets, p) {
      var k :| 0 <= k < |rs| && Fits(rs[k], sets, p);
      var r := if p.body.ICMP? then Rule(d, AllowRelated, ICMPOf(rs[k].from, rs[k].to), 1) else Rule(d, Allow, PortsOf(rs[k]), 1);
      assert IsConnRule(rs[k], r);
      assert IsRule(rs, r);
      assert Decides(acls, sets, d, p, r);
    } else {
      assert Decides(acls, sets, d, p, drop);
    }
  }

  /** The compiled rules enforce the policy: a packet is let through if and only if some
      connection permits it, and dropped otherwise. */
  lemma RulesEnforcePolicy(conns: seq<Connection>, hosts: Hosts, rs: seq<Resolved>, sets: SetTable, acls: seq<Rule>,
                           d: Direction, p: Packet)
    requires SameMeaning(conns, hosts, rs, sets) && Compiled(rs, acls)
    ensures MayPass(acls, sets, d, p) <==> Policy(conns, hosts, p)
    ensures MayDrop(acls, sets, d, p) <==> !Policy(conns, hosts, p)
  {
    RulesDecide(rs, acls, sets, d, p);
  }

  /** The whole compilation: the rules and address sets that are handed to OVN let a
      packet through exactly when the connection table permits it. */
  method CompileACLs(conns: seq<Connection>, hosts: Hosts) returns (acls: seq<Rule>, sets: SetTable)
    ensures forall d, p: Packet ::
      (MayPass(acls, sets, d, p) <==> Policy(conns, hosts, p)) && (MayDrop(acls, sets, d, p) <==> !Policy(conns, hosts, p))
  {
    var rs;
    rs, sets := ResolveConnections(conns, hosts);
    acls := ExpectedACLs(rs);
    forall d, p: Packet
      ensures (MayPass(acls, sets, d, p) <==> Policy(conns, hosts, p)) && (MayDrop(acls, sets, d, p) <==> !Policy(conns, hosts, p))
    {
      RulesEnforcePolicy(conns, hosts, rs, sets, acls, d, p);
    }
  }

  /** The connection allows the packet to or from the containers behind load balancer
      `j`, which it names, on its own ports. */
  ghost predicate PermitsThrough(c: Connection, lbs: seq<ConnectionPipeline.LoadBalancer>, j: nat, hosts: Hosts, p: Packet) {
    && ConnectionPipeline.LastOfName(lbs, j) && lbs[j].name in c.to
    && var behind := lbs[j].hostnames;
       || (Ends(c.from, hosts, p.src) && Ends(behind, hosts, p.dst) && (p.body.ICMP? || c.minPort <= p.body.dport <= c.maxPort))
       || (Ends(behind, hosts, p.src) && Ends(c.from, hosts, p.dst) && !p.body.ICMP? && c.minPort <= p.body.sport <= c.maxPort)
  }

  ghost predicate BlueprintPolicy(blueprint: seq<Connection>, lbs: seq<ConnectionPipeline.LoadBalancer>, hosts: Hosts, p: Packet) {
    || (exists i :: 0 <= i < |blueprint| && Permits(blueprint[i], hosts, p))
    || (exists i: nat, j: nat :: i < |blueprint| && PermitsThrough(blueprint[i], lbs, j, hosts, p))
  }

  /** From the blueprint to the table: a packet is permitted exactly if some connection of
      the blueprint permits it, directly or through a load balancer that it names. */
  lemma TableMeansBlueprint(
    blueprint: seq<Connection>, lbs: seq<ConnectionPipeline.LoadBalancer>, rows: Connections.Rows, conns: seq<Connection>,
    hosts: Hosts, p: Packet)
    requires ConnectionPipeline.Satisfies(rows, blueprint, lbs) && Elements(conns) == Connections.Conns(rows)
    ensures Policy(conns, hosts, p) <==> BlueprintPolicy(blueprint, lbs, hosts, p)
  {
    if Policy(conns, hosts, p) {
      var i :| 0 <= i < |conns| && Permits(conns[i], hosts, p);
      assert conns[i] in Elements(conns);
      WantedMeansBlueprint(blueprint, lbs, conns[i], hosts, p);
    }
    if BlueprintPolicy(blueprint, lbs, hosts, p) {
      var k := BlueprintWants(blueprint, lbs, hosts, p);
      assert k in Elements(conns);
      var i :| 0 <= i < |conns| && conns[i] == k;
    }
  }

  lemma WantedMeansBlueprint(blueprint: seq<Connection>, lbs: seq<ConnectionPipeline.LoadBalancer>, k: Connection,
                             hosts: Hosts, p: Packet)
    requires ConnectionPipeline.Wanted(blueprint, lbs, k) && Permits(k, hosts, p)
    ensures BlueprintPolicy(blueprint, lbs, hosts, p)
  {
    if k in blueprint {
      var i :| 0 <= i < |blueprint| && blueprint[i] == k;
    } else {
      var i: nat, j: nat :| i < |blueprint| && ConnectionPipeline.Through(blueprint[i], lbs, j, k);
      assert PermitsThrough(blueprint[i], lbs, j, hosts, p);
    }
  }

  lemma BlueprintWants(blueprint: seq<Connection>, lbs: seq<ConnectionPipeline.LoadBalancer>, hosts: Hosts, p: Packet)
    returns (k: Connection)
    requires BlueprintPolicy(blueprint, lbs, hosts, p)
    ensures ConnectionPipeline.Wanted(blueprint, lbs, k) && Permits(k, hosts, p)
  {
    if i :| 0 <= i < |blueprint| && Permits(blueprint[i], hosts, p) {
      k := blueprint[i];
    } else {
      var i: nat, j: nat :| i < |blueprint| && PermitsThrough(blueprint[i], lbs, j, hosts, p);
      var c := blueprint[i];
      k := Connections.Conn(c.from, lbs[j].hostnames, c.minPort, c.maxPort);
      assert ConnectionPipeline.Through(blueprint[i], lbs, j, k);
    }
  }

  /** From the blueprint to the rules: what the compiled rules let through is what the
      blueprint allows, load balancers included. */
  lemma RulesMeanBlueprint(
    blueprint: seq<Connection>, lbs: seq<ConnectionPipeline.LoadBalancer>, rows: Connections.Rows, conns: seq<Connection>,
    hosts: Hosts, rs: seq<Resolved>, sets: SetTable, acls: seq<Rule>, d: Direction, p: Packet)
    requires ConnectionPipeline.Satisfies(rows, blueprint, lbs) && Elements(conns) == Connections.Conns(rows)
    requires SameMeaning(conns, hosts, rs, sets) && Compiled(rs, acls)
    ensures MayPass(acls, sets, d, p) <==> BlueprintPolicy(blueprint, lbs, hosts, p)
    ensures MayDrop(acls, sets, d, p) <==> !BlueprintPolicy(blueprint, lbs, hosts, p)
  {
    RulesEnforcePolicy(conns, hosts, rs, sets, acls, d, p);
    TableMeansBlueprint(blueprint, lbs, rows, conns, hosts, p);
  }
}
