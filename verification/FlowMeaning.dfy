/** The installed flows do to every packet exactly what the pseudocode says. */
module FlowMeaning {
  import opened Prelude
  import opened Addresses
  import opened OpenFlow
  import opened FlowTables

  // ------------------------------------------------------------ the pseudocode

  predicate Ported(b: Payload) {
    b.IPv4? && (b.proto.TCP? || b.proto.UDP?)
  }

  function Table0(cs: seq<Container>, all: seq<Container>, p: Packet): seq<Port> {
    if cs == [] then
      if p.inPort == LOCAL then Table2(all, p) else []
    else
      var c := cs[0];
      if p.inPort == c.veth && p.ethSrc == MacOf(c) then Table1(all, c.patch, p)
      else if p.inPort == c.patch then [c.veth]
      else Table0(cs[1..], all, p)
  }

  function Table1(all: seq<Container>, reg0: Port, p: Packet): seq<Port> {
    if p.body.ARP? && p.ethDst.Broadcast? then [LOCAL, reg0]
    else if p.ethDst == GATEWAY_MAC then Table3(all, p)
    else [reg0]
  }

  function Table2(all: seq<Container>, p: Packet): seq<Port> {
    if p.ethDst.Broadcast? then Map(all, (c: Container) => c.veth) else Table2Loop(all, p)
  }

  function Table2Loop(cs: seq<Container>, p: Packet): seq<Port> {
    if cs == [] then [] else if Admits(cs[0], p) then [cs[0].veth] else Table2Loop(cs[1..], p)
  }

  /** The statements of one container in Table_2; all of them output to its veth. */
  predicate Admits(c: Container, p: Packet) {
    p.ethDst == MacOf(c) &&
    (|| p.body.ARP?
     || (p.body.IPv4? && p.body.src == GATEWAY)
     || (Ported(p.body) && p.body.dst == c.ip && (p.body.sport in c.toPub || p.body.dport in c.fromPub)))
  }

  function Table3(cs: seq<Container>, p: Packet): seq<Port> {
    if p.body.IPv4? && p.body.dst == GATEWAY then [LOCAL]
    else if p.body.ARP? then [LOCAL]
    else Table3Loop(cs, p)
  }

  function Table3Loop(cs: seq<Container>, p: Packet): seq<Port> {
    if cs == [] then [] else if Releases(cs[0], p) then [LOCAL] else Table3Loop(cs[1..], p)
  }

  predicate Releases(c: Container, p: Packet) {
    p.ethSrc == MacOf(c) && Ported(p.body) && p.body.src == c.ip &&
    (p.body.dport in c.toPub || p.body.sport in c.fromPub)
  }

  function Pseudocode(cs: seq<Container>, p: Packet): seq<Port> {
    Table0(cs, cs, p)
  }

  /** Distinct addresses, and distinct ports none of which is LOCAL. */
  ghost predicate Apart(cs: seq<Container>) {
    (forall i :: 0 <= i < |cs| ==> cs[i].veth != LOCAL && cs[i].patch != LOCAL && cs[i].veth != cs[i].patch) &&
    (forall i, j :: 0 <= i < j < |cs| ==>
       cs[i].ip != cs[j].ip && cs[i].veth != cs[j].veth && cs[i].patch != cs[j].patch &&
       cs[i].veth != cs[j].patch && cs[i].patch != cs[j].veth)
  }

  ghost predicate Installed(cs: seq<Container>, flows: set<Flow>) {
    forall f :: f in flows <==> IsFlow(cs, f)
  }

  // ------------------------------------------------------- tables one at a time

  /** Some container lets the packet out to the gateway. */
  ghost predicate SomeReleases(cs: seq<Container>, p: Packet) {
    exists i :: 0 <= i < |cs| && Releases(cs[i], p)
  }

  lemma {:induction false} Table3LoopIs(cs: seq<Container>, p: Packet)
    ensures Table3Loop(cs, p) == if SomeReleases(cs, p) then [LOCAL] else []
  {
    if cs != [] {
      Table3LoopIs(cs[1..], p);
      if i :| 0 <= i < |cs| && Releases(cs[i], p) && i > 0 {
        assert cs[1..][i - 1] == cs[i];
      }
    }
  }

  lemma {:induction false} Table2LoopIs(cs: seq<Container>, p: Packet, i: nat)
    requires Apart(cs) && i < |cs| && Admits(cs[i], p)
    ensures Table2Loop(cs, p) == [cs[i].veth]
  {
    if i > 0 {
      Table2LoopIs(cs[1..], p, i - 1);
    }
  }

  lemma {:induction false} Table2LoopNone(cs: seq<Container>, p: Packet)
    requires forall i :: 0 <= i < |cs| ==> !Admits(cs[i], p)
    ensures Table2Loop(cs, p) == []
  {
    if cs != [] {
      Table2LoopNone(cs[1..], p);
    }
  }

  lemma {:induction false} Table0Is(cs: seq<Container>, all: seq<Container>, p: Packet, i: nat)
    requires Apart(cs) && i < |cs| && (p.inPort == cs[i].veth || p.inPort == cs[i].patch)
    ensures Table0(cs, all, p) ==
      if p.inPort == cs[i].patch then [cs[i].veth]
      else if p.ethSrc == MacOf(cs[i]) then Table1(all, cs[i].patch, p) else []
  {
    if i > 0 {
      Table0Is(cs[1..], all, p, i - 1);
    } else if p.inPort == cs[0].veth && p.ethSrc != MacOf(cs[0]) {
      Table0None(cs[1..], all, p);
    }
  }

  lemma {:induction false} Table0None(cs: seq<Container>, all: seq<Container>, p: Packet)
    requires forall i :: 0 <= i < |cs| ==> p.inPort != cs[i].veth && p.inPort != cs[i].patch
    ensures Table0(cs, all, p) == if p.inPort == LOCAL then Table2(all, p) else []
  {
    if cs != [] {
      Table0None(cs[1..], all, p);
    }
  }

  /** The packet may go out to the gateway. */
  ghost predicate LetOut(cs: seq<Container>, p: Packet) {
    (p.body.IPv4? && p.body.dst == GATEWAY) || p.body.ARP? || SomeReleases(cs, p)
  }

  lemma Table3Is(cs: seq<Container>, p: Packet)
    ensures Table3(cs, p) == if LetOut(cs, p) then [LOCAL] else []
  {
    Table3LoopIs(cs, p);
  }

  lemma Outbound3(c: Container, k: Kind, tpSrc: Option<int>, tpDst: Option<int>, p: Packet)
    requires Matches(Outbound(c, k, tpSrc, tpDst).match_, p) && (k.IsTCP? || k.IsUDP?)
    requires (tpSrc.None? && tpDst.Some? && tpDst.value in c.toPub) || (tpDst.None? && tpSrc.Some? && tpSrc.value in c.fromPub)
    ensures Releases(c, p)
  {
  }

  lemma Container3(c: Container, f: Flow, p: Packet)
    requires IsContainerFlow(c, f) && f.table == 3 && Matches(f.match_, p)
    ensures f.actions == Emit([To(LOCAL)]) && Releases(c, p)
  {
    if n :| n in c.toPub && f in ToPubFlows(c, n) {
      Outbound3(c, f.match_.kind, None, Some(n), p);
    } else {
      var n :| n in c.fromPub && f in FromPubFlows(c, n);
      Outbound3(c, f.match_.kind, Some(n), None, p);
    }
  }

  lemma Hit3(cs: seq<Container>, f: Flow, p: Packet)
    requires IsFlow(cs, f) && f.table == 3 && Matches(f.match_, p)
    ensures f.actions == Emit([To(LOCAL)]) && LetOut(cs, p)
  {
    if f in STATIC {
      assert f == STATIC[4] || f == STATIC[5];
    } else {
      var i :| 0 <= i < |cs| && IsContainerFlow(cs[i], f);
      Container3(cs[i], f, p);
    }
  }

  lemma Hits3(cs: seq<Container>, flows: set<Flow>, p: Packet)
    requires Installed(cs, flows) && LetOut(cs, p)
    ensures exists f :: Hits(flows, 3, p, f)
  {
    if p.body.IPv4? && p.body.dst == GATEWAY {
      assert STATIC[4] in STATIC;
      assert Hits(flows, 3, p, STATIC[4]);
    } else if p.body.ARP? {
      assert STATIC[5] in STATIC;
      assert Hits(flows, 3, p, STATIC[5]);
    } else {
      var i :| 0 <= i < |cs| && Releases(cs[i], p);
      var k := if p.body.proto.TCP? then IsTCP else IsUDP;
      var f := if p.body.dport in cs[i].toPub then Outbound(cs[i], k, None, Some(p.body.dport))
               else Outbound(cs[i], k, Some(p.body.sport), None);
      assert f in ToPubFlows(cs[i], p.body.dport) || f in FromPubFlows(cs[i], p.body.sport);
      assert IsContainerFlow(cs[i], f);
      assert Hits(flows, 3, p, f);
    }
  }

  lemma Runs3(cs: seq<Container>, flows: set<Flow>, reg0: Port, p: Packet, outs: seq<Port>)
    requires Installed(cs, flows) && Runs(flows, 3, reg0, p, outs)
    ensures outs == Table3(cs, p)
  {
    Table3Is(cs, p);
    if LetOut(cs, p) {
      Hits3(cs, flows, p);
    }
    if exists f :: Hits(flows, 3, p, f) {
      var f :| Best(flows, 3, p, f) && Takes(flows, 3, f, reg0, p, outs);
      Hit3(cs, f, p);
    }
  }

  lemma Inbound2(c: Container, k: Kind, tpSrc: Option<int>, tpDst: Option<int>, p: Packet)
    requires Matches(Inbound(c, k, tpSrc, tpDst).match_, p) && (k.IsTCP? || k.IsUDP?)
    requires (tpDst.None? && tpSrc.Some? && tpSrc.value in c.toPub) || (tpSrc.None? && tpDst.Some? && tpDst.value in c.fromPub)
    ensures Admits(c, p)
  {
  }

  lemma Container2(c: Container, f: Flow, p: Packet)
    requires IsContainerFlow(c, f) && f.table == 2 && Matches(f.match_, p)
    ensures f.actions == Emit([To(c.veth)]) && Admits(c, p)
  {
    if f in FixedFlows(c) {
      assert f == FixedFlows(c)[2] || f == FixedFlows(c)[3];
    } else if n :| n in c.toPub && f in ToPubFlows(c, n) {
      Inbound2(c, f.match_.kind, Some(n), None, p);
    } else {
      var n :| n in c.fromPub && f in FromPubFlows(c, n);
      Inbound2(c, f.match_.kind, None, Some(n), p);
    }
  }

  lemma Hits2(cs: seq<Container>, flows: set<Flow>, p: Packet, i: nat)
    requires Installed(cs, flows) && i < |cs| && Admits(cs[i], p)
    ensures exists f :: Hits(flows, 2, p, f)
  {
    var c := cs[i];
    var f;
    if p.body.ARP? {
      f := FixedFlows(c)[2];
    } else if p.body.src == GATEWAY {
      f := FixedFlows(c)[3];
    } else {
      var k := if p.body.proto.TCP? then IsTCP else IsUDP;
      f := if p.body.sport in c.toPub then Inbound(c, k, Some(p.body.sport), None) else Inbound(c, k, None, Some(p.body.dport));
      assert f in ToPubFlows(c, p.body.sport) || f in FromPubFlows(c, p.body.dport);
    }
    assert IsContainerFlow(c, f);
    assert Hits(flows, 2, p, f);
  }

  lemma Hit2(cs: seq<Container>, f: Flow, p: Packet) returns (i: nat)
    requires IsFlow(cs, f) && f.table == 2 && Matches(f.match_, p)
    ensures if p.ethDst.Broadcast? then f == BroadcastFlow(cs)
            else i < |cs| && Admits(cs[i], p) && f.actions == Emit([To(cs[i].veth)])
  {
    i := 0;
    if f != BroadcastFlow(cs) {
      assert f !in STATIC;
      i :| 0 <= i < |cs| && IsContainerFlow(cs[i], f);
      Container2(cs[i], f, p);
    }
  }

  lemma Runs2(cs: seq<Container>, flows: set<Flow>, reg0: Port, p: Packet, outs: seq<Port>)
    requires Apart(cs) && Installed(cs, flows) && Runs(flows, 2, reg0, p, outs)
    ensures outs == Table2(cs, p)
  {
    if p.ethDst.Broadcast? {
      assert Hits(flows, 2, p, BroadcastFlow(cs));
    }
    if exists f :: Hits(flows, 2, p, f) {
      var f :| Best(flows, 2, p, f) && Takes(flows, 2, f, reg0, p, outs);
      var i := Hit2(cs, f, p);
      if !p.ethDst.Broadcast? {
        Table2LoopIs(cs, p, i);
      }
    } else {
      forall i | 0 <= i < |cs| ensures !Admits(cs[i], p) {
        if Admits(cs[i], p) {
          Hits2(cs, flows, p, i);
          assert false;
        }
      }
      Table2LoopNone(cs, p);
    }
  }

  lemma NoContainer1(c: Container, f: Flow)
    requires IsContainerFlow(c, f)
    ensures f.table != 1
  {
  }

  lemma Hit1(cs: seq<Container>, f: Flow)
    requires IsFlow(cs, f) && f.table == 1
    ensures f == STATIC[1] || f == STATIC[2] || f == STATIC[3]
  {
    if f !in STATIC {
      var i :| 0 <= i < |cs| && IsContainerFlow(cs[i], f);
      NoContainer1(cs[i], f);
      assert false;
    }
  }

  lemma Best1(cs: seq<Container>, flows: set<Flow>, p: Packet, f: Flow)
    requires Installed(cs, flows) && Best(flows, 1, p, f)
    ensures f == if p.body.ARP? && p.ethDst.Broadcast? then STATIC[1] else if p.ethDst == GATEWAY_MAC then STATIC[2] else STATIC[3]
  {
    assert STATIC[1] in STATIC && STATIC[2] in STATIC && STATIC[3] in STATIC;
    assert Hits(flows, 1, p, STATIC[3]);
    Hit1(cs, f);
    if p.body.ARP? && p.ethDst.Broadcast? {
      assert Hits(flows, 1, p, STATIC[1]);
    } else if p.ethDst == GATEWAY_MAC {
      assert Hits(flows, 1, p, STATIC[2]);
    }
  }

  lemma Takes1(cs: seq<Container>, flows: set<Flow>, reg0: Port, p: Packet, outs: seq<Port>, f: Flow)
    requires Installed(cs, flows) && Takes(flows, 1, f, reg0, p, outs)
    requires f == if p.body.ARP? && p.ethDst.Broadcast? then STATIC[1] else if p.ethDst == GATEWAY_MAC then STATIC[2] else STATIC[3]
    ensures outs == Table1(cs, reg0, p)
  {
    if p.ethDst == GATEWAY_MAC {
      Runs3(cs, flows, reg0, p, outs);
    }
  }

  lemma Runs1(cs: seq<Container>, flows: set<Flow>, reg0: Port, p: Packet, outs: seq<Port>)
    requires Installed(cs, flows) && Runs(flows, 1, reg0, p, outs)
    ensures outs == Table1(cs, reg0, p)
  {
    assert STATIC[3] in STATIC;
    assert Hits(flows, 1, p, STATIC[3]);
    var f :| Best(flows, 1, p, f) && Takes(flows, 1, f, reg0, p, outs);
    Best1(cs, flows, p, f);
    Takes1(cs, flows, reg0, p, outs, f);
  }

  lemma Container0(c: Container, f: Flow)
    requires IsContainerFlow(c, f) && f.table == 0
    ensures f == FixedFlows(c)[0] || f == FixedFlows(c)[1]
  {
  }

  /** What a packet can hit in the first table, by the port it came in on. */
  lemma Hit0(cs: seq<Container>, f: Flow, p: Packet) returns (i: int)
    requires IsFlow(cs, f) && f.table == 0 && Matches(f.match_, p)
    ensures if i < 0 then f == STATIC[0] && p.inPort == LOCAL
            else i < |cs| &&
                 (if f == FixedFlows(cs[i])[0] then p.inPort == cs[i].veth && p.ethSrc == MacOf(cs[i])
                  else f == FixedFlows(cs[i])[1] && p.inPort == cs[i].patch)
  {
    if f in STATIC {
      assert f == STATIC[0];
      i := -1;
    } else {
      i :| 0 <= i < |cs| && IsContainerFlow(cs[i], f);
      Container0(cs[i], f);
    }
  }

  lemma Hits0(cs: seq<Container>, flows: set<Flow>, p: Packet, i: nat)
    requires Installed(cs, flows) && i < |cs|
    ensures p.inPort == cs[i].veth && p.ethSrc == MacOf(cs[i]) ==> Hits(flows, 0, p, FixedFlows(cs[i])[0])
    ensures p.inPort == cs[i].patch ==> Hits(flows, 0, p, FixedFlows(cs[i])[1])
  {
    assert FixedFlows(cs[i])[0] in FixedFlows(cs[i]) && FixedFlows(cs[i])[1] in FixedFlows(cs[i]);
    assert IsContainerFlow(cs[i], FixedFlows(cs[i])[0]) && IsContainerFlow(cs[i], FixedFlows(cs[i])[1]);
  }

  lemma Runs0Miss(cs: seq<Container>, flows: set<Flow>, p: Packet)
    requires Apart(cs) && Installed(cs, flows) && !(exists f :: Hits(flows, 0, p, f))
    ensures Pseudocode(cs, p) == []
  {
    assert STATIC[0] in STATIC;
    assert p.inPort != LOCAL by {
      if p.inPort == LOCAL {
        assert Hits(flows, 0, p, STATIC[0]);
        assert false;
      }
    }
    if i :| 0 <= i < |cs| && (p.inPort == cs[i].veth || p.inPort == cs[i].patch) {
      Hits0(cs, flows, p, i);
      Table0Is(cs, cs, p, i);
    } else {
      Table0None(cs, cs, p);
    }
  }

  lemma Takes0(cs: seq<Container>, flows: set<Flow>, p: Packet, outs: seq<Port>, f: Flow)
    requires Apart(cs) && Installed(cs, flows) && Hits(flows, 0, p, f) && Takes(flows, 0, f, 0, p, outs)
    ensures outs == Pseudocode(cs, p)
  {
    var i := Hit0(cs, f, p);
    if i < 0 {
      Runs2(cs, flows, 0, p, outs);
      Table0None(cs, cs, p);
    } else {
      Table0Is(cs, cs, p, i);
      TakesPort(cs, flows, p, outs, f, i);
    }
  }

  lemma TakesPort(cs: seq<Container>, flows: set<Flow>, p: Packet, outs: seq<Port>, f: Flow, i: nat)
    requires Installed(cs, flows) && i < |cs| && Takes(flows, 0, f, 0, p, outs)
    requires f == FixedFlows(cs[i])[0] || f == FixedFlows(cs[i])[1]
    ensures outs == if f == FixedFlows(cs[i])[0] then Table1(cs, cs[i].patch, p) else [cs[i].veth]
  {
    if f == FixedFlows(cs[i])[0] {
      Runs1(cs, flows, cs[i].patch, p, outs);
    }
  }

  lemma Runs0(cs: seq<Container>, flows: set<Flow>, p: Packet, outs: seq<Port>)
    requires Apart(cs) && Installed(cs, flows) && Runs(flows, 0, 0, p, outs)
    ensures outs == Pseudocode(cs, p)
  {
    if exists f :: Hits(flows, 0, p, f) {
      var f :| Best(flows, 0, p, f) && Takes(flows, 0, f, 0, p, outs);
      Takes0(cs, flows, p, outs, f);
    } else {
      Runs0Miss(cs, flows, p);
    }
  }

  // ------------------------------------------------------------- main theorems

  lemma GeneratedGoUp(cs: seq<Container>, flows: set<Flow>)
    requires Installed(cs, flows)
    ensures GoesUp(flows)
  {
    forall f | f in flows && f.actions.Goto? ensures f.table < f.actions.table < TABLES {
      assert IsFlow(cs, f);
      if f !in STATIC {
        var i :| 0 <= i < |cs| && IsContainerFlow(cs[i], f);
        assert f == FixedFlows(cs[i])[0];
      }
    }
  }

  /** Whatever the switch picks among flows of equal priority, it does with every
      packet what the pseudocode says, and nothing else. */
  lemma FlowsMeanPseudocode(cs: seq<Container>, flows: set<Flow>, p: Packet, outs: seq<Port>)
    requires Apart(cs) && Installed(cs, flows)
    ensures Runs(flows, 0, 0, p, outs) <==> outs == Pseudocode(cs, p)
  {
    GeneratedGoUp(cs, flows);
    var some := RunsSomehow(flows, 0, 0, p);
    Runs0(cs, flows, p, some);
    if Runs(flows, 0, 0, p, outs) {
      Runs0(cs, flows, p, outs);
    }
  }

  /** A packet from a container leaves on LOCAL or on the container's own patch
      port, if at all. */
  lemma VethLeavesByItsOwnPorts(cs: seq<Container>, p: Packet, i: nat, out: Port)
    requires Apart(cs) && i < |cs| && p.inPort == cs[i].veth && out in Pseudocode(cs, p)
    ensures p.ethSrc == MacOf(cs[i])
    ensures out == LOCAL || out == cs[i].patch
  {
    Table0Is(cs, cs, p, i);
    Table3Is(cs, p);
  }

  /** Unicast TCP or UDP that is not for the gateway itself gets out exactly when
      the container sends it under its own addresses to the gateway's hardware
      address, and one of its public ports allows it. */
  lemma ReachesLocalIff(cs: seq<Container>, p: Packet, i: nat)
    requires Apart(cs) && i < |cs| && p.inPort == cs[i].veth
    requires Ported(p.body) && p.body.dst != GATEWAY && !p.ethDst.Broadcast?
    ensures LOCAL in Pseudocode(cs, p) <==>
      p.ethSrc == MacOf(cs[i]) && p.ethDst == GATEWAY_MAC && p.body.src == cs[i].ip &&
      (p.body.dport in cs[i].toPub || p.body.sport in cs[i].fromPub)
  {
    Table0Is(cs, cs, p, i);
    Table3Is(cs, p);
    if p.ethSrc == MacOf(cs[i]) {
      assert SomeReleases(cs, p) <==> Releases(cs[i], p);
    }
  }
}
