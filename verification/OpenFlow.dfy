/** The OpenFlow rules of one worker: what the switch does with a rule table
    (section 5.3 of the OpenFlow Switch Specification 1.3), the rules the code
    generates, and the pseudocode that documents them. */
module OpenFlow {
  import opened Prelude
  import opened Addresses

  type Port = nat
  const LOCAL: Port := 0xFFFF_FFFE

  /** A container's hardware address is 02:00 followed by its IP. */
  datatype Mac = Broadcast | OfIP(ip: IP) | OtherMac(n: nat)
  const GATEWAY_MAC := OfIP(GATEWAY)

  datatype Proto = TCP | UDP | OtherProto
  datatype Payload =
    | ARP
    | IPv4(src: IP, dst: IP, proto: Proto, sport: int, dport: int)
    | OtherPayload
  datatype Packet = Packet(inPort: Port, ethSrc: Mac, ethDst: Mac, body: Payload)

  // --------------------------------------------------------------- rule tables

  datatype Kind = AnyKind | IsARP | IsIP | IsTCP | IsUDP
  datatype Match = Match(inPort: Option<Port>, ethSrc: Option<Mac>, ethDst: Option<Mac>, kind: Kind,
                         nwSrc: Option<IP>, nwDst: Option<IP>, tpSrc: Option<int>, tpDst: Option<int>)

  datatype Target = To(port: Port) | Reg0

  /** Output to some ports, or go on in a later table after loading reg0. */
  datatype Actions = Emit(targets: seq<Target>) | Goto(load: Option<Port>, table: nat)
  datatype Flow = Flow(table: nat, priority: nat, match_: Match, actions: Actions)

  predicate Field<T(==)>(m: Option<T>, v: T) {
    m.None? || m.value == v
  }

  predicate KindMatches(k: Kind, b: Payload) {
    match k
    case AnyKind => true
    case IsARP => b.ARP?
    case IsIP => b.IPv4?
    case IsTCP => b.IPv4? && b.proto.TCP?
    case IsUDP => b.IPv4? && b.proto.UDP?
  }

  predicate Matches(m: Match, p: Packet) {
    Field(m.inPort, p.inPort) && Field(m.ethSrc, p.ethSrc) && Field(m.ethDst, p.ethDst) && KindMatches(m.kind, p.body) &&
    (p.body.IPv4? ==> Field(m.nwSrc, p.body.src) && Field(m.nwDst, p.body.dst) &&
                      Field(m.tpSrc, p.body.sport) && Field(m.tpDst, p.body.dport))
  }

  predicate Hits(flows: set<Flow>, table: nat, p: Packet, f: Flow) {
    f in flows && f.table == table && Matches(f.match_, p)
  }

  /** A flow the switch may pick: of highest priority among those that match.
      Which one it picks among equals is undefined. */
  ghost predicate Best(flows: set<Flow>, table: nat, p: Packet, f: Flow) {
    Hits(flows, table, p, f) && forall g :: Hits(flows, table, p, g) ==> g.priority <= f.priority
  }

  function Resolve(ts: seq<Target>, reg0: Port): (r: seq<Port>)
    ensures |r| == |ts|
  {
    seq(|ts|, i requires 0 <= i < |ts| => match ts[i] case To(p) => p case Reg0 => reg0)
  }

  const TABLES := 4

  /** The switch may emit the packet on exactly these ports, in this order. */
  ghost predicate Runs(flows: set<Flow>, table: nat, reg0: Port, p: Packet, outs: seq<Port>)
    decreases TABLES - table
  {
    if !(exists f :: Hits(flows, table, p, f)) then outs == []
    else exists f :: Best(flows, table, p, f) && Takes(flows, table, f, reg0, p, outs)
  }

  ghost predicate Takes(flows: set<Flow>, table: nat, f: Flow, reg0: Port, p: Packet, outs: seq<Port>)
    decreases TABLES - table, 0
  {
    match f.actions
    case Emit(ts) => outs == Resolve(ts, reg0)
    case Goto(load, next) =>
      table < next < TABLES && Runs(flows, next, if load.Some? then load.value else reg0, p, outs)
  }

  lemma {:induction false} HighestExists(some: set<Flow>) returns (best: Flow)
    requires some != {}
    ensures best in some && forall g :: g in some ==> g.priority <= best.priority
  {
    best :| best in some;
    var rest := some - {best};
    if rest != {} {
      var other := HighestExists(rest);
      best := if best.priority < other.priority then other else best;
    }
  }

  ghost predicate GoesUp(flows: set<Flow>) {
    forall f :: f in flows && f.actions.Goto? ==> f.table < f.actions.table < TABLES
  }

  /** As long as rules only ever go to later tables, the switch does something. */
  lemma {:induction false} RunsSomehow(flows: set<Flow>, table: nat, reg0: Port, p: Packet) returns (outs: seq<Port>)
    requires GoesUp(flows)
    ensures Runs(flows, table, reg0, p, outs)
    decreases TABLES - table
  {
    var hits := set f | f in flows && Hits(flows, table, p, f);
    if exists f :: Hits(flows, table, p, f) {
      var h :| Hits(flows, table, p, h);
      assert h in hits;
      var f := HighestExists(hits);
      assert Best(flows, table, p, f);
      match f.actions
      case Emit(ts) => outs := Resolve(ts, reg0);
      case Goto(load, next) => outs := RunsSomehow(flows, next, if load.Some? then load.value else reg0, p);
      assert Takes(flows, table, f, reg0, p, outs);
    } else {
      outs := [];
    }
  }
}
