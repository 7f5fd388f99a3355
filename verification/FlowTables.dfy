/** The flows the code installs, and the pseudocode they implement. */
module FlowTables {
  import opened Prelude
  import opened Addresses
  import opened OpenFlow

  /** A container with its resolved switch ports. */
  datatype Container = Container(ip: IP, veth: Port, patch: Port, toPub: set<int>, fromPub: set<int>)

  function MacOf(c: Container): Mac {
    OfIP(c.ip)
  }

  const WILD := Match(None, None, None, AnyKind, None, None, None, None)

  /** What a flow gets when it states no priority. */
  const DEFAULT_PRIORITY := 32768

  const STATIC: seq<Flow> := [
    Flow(0, 1000, WILD.(inPort := Some(LOCAL)), Goto(None, 2)),
    Flow(1, 1000, WILD.(kind := IsARP, ethDst := Some(Broadcast)), Emit([To(LOCAL), Reg0])),
    Flow(1, 900, WILD.(ethDst := Some(GATEWAY_MAC)), Goto(None, 3)),
    Flow(1, 800, WILD, Emit([Reg0])),
    Flow(3, 1000, WILD.(kind := IsIP, nwDst := Some(GATEWAY)), Emit([To(LOCAL)])),
    Flow(3, 900, WILD.(kind := IsARP), Emit([To(LOCAL)]))]

  function FixedFlows(c: Container): seq<Flow> {
    [ Flow(0, DEFAULT_PRIORITY, WILD.(inPort := Some(c.veth), ethSrc := Some(MacOf(c))), Goto(Some(c.patch), 1)),
      Flow(0, DEFAULT_PRIORITY, WILD.(inPort := Some(c.patch)), Emit([To(c.veth)])),
      Flow(2, 900, WILD.(kind := IsARP, ethDst := Some(MacOf(c))), Emit([To(c.veth)])),
      Flow(2, 800, WILD.(kind := IsIP, ethDst := Some(MacOf(c)), nwSrc := Some(GATEWAY)), Emit([To(c.veth)]))]
  }

  /** Towards the container, and from it to the gateway. */
  function Inbound(c: Container, k: Kind, tpSrc: Option<int>, tpDst: Option<int>): Flow {
    Flow(2, 500, WILD.(kind := k, ethDst := Some(MacOf(c)), nwDst := Some(c.ip), tpSrc := tpSrc, tpDst := tpDst),
         Emit([To(c.veth)]))
  }

  function Outbound(c: Container, k: Kind, tpSrc: Option<int>, tpDst: Option<int>): Flow {
    Flow(3, 500, WILD.(kind := k, ethSrc := Some(MacOf(c)), nwSrc := Some(c.ip), tpSrc := tpSrc, tpDst := tpDst),
         Emit([To(LOCAL)]))
  }

  function ToPubFlows(c: Container, port: int): seq<Flow> {
    [ Inbound(c, IsTCP, Some(port), None), Inbound(c, IsUDP, Some(port), None),
      Outbound(c, IsTCP, None, Some(port)), Outbound(c, IsUDP, None, Some(port)) ]
  }

  function FromPubFlows(c: Container, port: int): seq<Flow> {
    [ Inbound(c, IsTCP, None, Some(port)), Inbound(c, IsUDP, None, Some(port)),
      Outbound(c, IsTCP, Some(port), None), Outbound(c, IsUDP, Some(port), None) ]
  }

  predicate IsContainerFlow(c: Container, f: Flow) {
    f in FixedFlows(c) ||
    (exists p :: p in c.toPub && f in ToPubFlows(c, p)) ||
    (exists p :: p in c.fromPub && f in FromPubFlows(c, p))
  }

  function Veths(cs: seq<Container>): seq<Target> {
    Map(cs, (c: Container) => To(c.veth))
  }

  function BroadcastFlow(cs: seq<Container>): Flow {
    Flow(2, 1000, WILD.(ethDst := Some(Broadcast)), Emit(Veths(cs)))
  }

  predicate IsFlow(cs: seq<Container>, f: Flow) {
    f in STATIC || f == BroadcastFlow(cs) || exists i :: 0 <= i < |cs| && IsContainerFlow(cs[i], f)
  }

  // ------------------------------------------------------------ the generators

  method PortFlows(c: Container, ports: set<int>, to: bool) returns (flows: seq<Flow>)
    ensures forall f :: f in flows <==>
      exists p :: p in ports && f in (if to then ToPubFlows(c, p) else FromPubFlows(c, p))
  {
    flows := [];
    var todo := ports;
    while todo != {}
      invariant todo <= ports
      invariant forall f :: f in flows <==>
        exists p :: p in ports - todo && f in (if to then ToPubFlows(c, p) else FromPubFlows(c, p))
      decreases |todo|
    {
      var p := PickAny(todo);
      flows := flows + if to then ToPubFlows(c, p) else FromPubFlows(c, p);
      todo := todo - {p};
    }
  }

  method ContainerFlows(c: Container) returns (flows: seq<Flow>)
    ensures forall f :: f in flows <==> IsContainerFlow(c, f)
  {
    var to := PortFlows(c, c.toPub, true);
    var from := PortFlows(c, c.fromPub, false);
    flows := FixedFlows(c) + to + from;
  }

  method AllContainerFlows(cs: seq<Container>) returns (flows: seq<Flow>)
    ensures forall f :: f in flows <==> exists i :: 0 <= i < |cs| && IsContainerFlow(cs[i], f)
  {
    flows := [];
    for n := 0 to |cs|
      invariant forall f :: f in flows <==> exists i :: 0 <= i < n && IsContainerFlow(cs[i], f)
    {
      var more := ContainerFlows(cs[n]);
      flows := flows + more;
    }
  }

  method AllFlows(cs: seq<Container>) returns (flows: seq<Flow>)
    ensures forall f :: f in flows <==> IsFlow(cs, f)
  {
    var actions: seq<Target> := [];
    for n := 0 to |cs|
      invariant actions == Veths(cs[..n])
    {
      assert cs[..n + 1] == cs[..n] + [cs[n]];
      actions := actions + [To(cs[n].veth)];
    }
    assert cs[..|cs|] == cs;
    var own := AllContainerFlows(cs);
    flows := STATIC + own + [Flow(2, 1000, WILD.(ethDst := Some(Broadcast)), Emit(actions))];
  }
}
