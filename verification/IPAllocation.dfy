/** Allocation of container and load balancer addresses. */
module IPAllocation {
  import opened Prelude
  import opened Addresses

  /** Go's generator; nothing is known about what it returns. */
  method Rand32() returns (r: IP) {
    r := *;
  }

  /** The offsets tried so far: from zero on, each followed by the next, up to
      the one whose turn it is. */
  ghost predicate InTurn(tried: set<IP>, offset: IP) {
    (offset == 0 || 0 in tried) && forall k :: k in tried ==> Next(k) in tried || Next(k) == offset
  }

  lemma {:induction false} TurnsReach(tried: set<IP>, offset: IP, h: IP, k: IP)
    requires InTurn(tried, offset) && !Within(offset, h) && Within(k, h)
    ensures k in tried
    decreases k
  {
    ZeroWithin(h);
    if k != 0 {
      Predecessor(k, h);
      NextOfPredecessor(k);
      TurnsReach(tried, offset, h, k - 1);
    }
  }

  lemma TakeTurn(tried: set<IP>, offset: IP)
    requires InTurn(tried, offset)
    ensures InTurn(tried + {offset}, offset + 1)
  {
  }

  ghost predicate AllTaken(ips: set<IP>, tried: set<IP>, start: IP, p: IP, m: IP) {
    forall k :: k in tried ==> Candidate(start, k, p, m) in ips
  }

  /** Once around, every address of the subnet has been tried. */
  lemma NothingLeft(ips: set<IP>, tried: set<IP>, start: IP, offset: IP, subnet: Subnet, a: IP)
    requires Contiguous(subnet.mask) && InTurn(tried, offset) && !Within(offset, !subnet.mask)
    requires AllTaken(ips, tried, start, subnet.ip, subnet.mask) && Contains(subnet, a)
    ensures a in ips
  {
    var k := ProbesCover(subnet.ip, subnet.mask, start, a);
    TurnsReach(tried, offset, !subnet.mask, k);
  }

  /** All offsets up to the last host have been tried, and each candidate was taken. */
  ghost predicate AroundInVain(ips: set<IP>, tried: set<IP>, last: IP, p: IP, m: IP, hosts: IP, start: IP) {
    InTurn(tried, last) && !Within(last, hosts) && AllTaken(ips, tried, start, p, m)
  }

  lemma FirstTry(rand: IP, p: IP, m: IP)
    ensures InPrefix(rand, p, m) ==> Candidate(rand & !m, 0, p, m) == rand
  {
  }

  /** Tries the addresses under the prefix once around from `start`. */
  method Probe(ips: set<IP>, prefix: IP, mask: IP, hosts: IP, start: IP) returns (r: Option<IP>)
    requires hosts != 0xFFFF_FFFF
    ensures r.Some? ==> r.value !in ips && exists k :: r.value == Candidate(start, k, prefix, mask)
    ensures Candidate(start, 0, prefix, mask) !in ips ==> r == Some(Candidate(start, 0, prefix, mask))
    ensures r.None? ==> exists tried, last :: AroundInVain(ips, tried, last, prefix, mask, hosts, start)
  {
    var offset: IP := 0;
    ghost var tried: set<IP> := {};
    while Within(offset, hosts)
      invariant InTurn(tried, offset) && AllTaken(ips, tried, start, prefix, mask)
      decreases OffsetsLeft(offset, hosts)
    {
      var ip := Candidate(start, offset, prefix, mask);
      if ip !in ips {
        return Some(ip);
      }
      RunsOut(offset, hosts);
      TakeTurn(tried, offset);
      tried := tried + {offset};
      offset := offset + 1;
    }
    assert AroundInVain(ips, tried, offset, prefix, mask, hosts, start);
    return None;
  }

  lemma FoundInside(start: IP, offset: IP, subnet: Subnet)
    ensures Contains(subnet, Candidate(start, offset, subnet.ip, subnet.mask))
  {
    UnderInPrefix(start + offset, subnet.ip, subnet.mask);
  }

  method SearchFrom(ips: set<IP>, subnet: Subnet, start: IP) returns (r: Option<IP>)
    requires Contiguous(subnet.mask) && subnet.mask != 0
    ensures r.Some? ==> Contains(subnet, r.value) && r.value !in ips
    ensures r.None? <==> forall a :: Contains(subnet, a) ==> a in ips
    ensures var first := Candidate(start, 0, subnet.ip, subnet.mask); first !in ips ==> r == Some(first)
  {
    NotAllOnes(subnet.mask);
    r := Probe(ips, subnet.ip, subnet.mask, !subnet.mask, start);
    if r.Some? {
      ghost var k :| r.value == Candidate(start, k, subnet.ip, subnet.mask);
      FoundInside(start, k, subnet);
    } else {
      ghost var tried, last :| AroundInVain(ips, tried, last, subnet.ip, subnet.mask, !subnet.mask, start);
      forall a | Contains(subnet, a) ensures a in ips {
        NothingLeft(ips, tried, start, last, subnet, a);
      }
    }
  }

  /** A free address of the subnet, or None if there is none.  Any free address can be
      the result, since drawing it yields it. */
  method Search(ips: set<IP>, subnet: Subnet, rand: IP) returns (r: Option<IP>)
    requires Contiguous(subnet.mask) && subnet.mask != 0
    ensures r.Some? ==> Contains(subnet, r.value) && r.value !in ips
    ensures r.None? <==> forall a :: Contains(subnet, a) ==> a in ips
    ensures Contains(subnet, rand) && rand !in ips ==> r == Some(rand)
  {
    r := SearchFrom(ips, subnet, rand & !subnet.mask);
    FirstTry(rand, subnet.ip, subnet.mask);
  }

  class Reserved {
    var ips: set<IP>

    constructor (initial: set<IP>)
      ensures ips == initial
    {
      ips := initial;
    }

    /** Probes the subnet once around from a random start. It fails exactly when
        every address of the subnet is taken. */
    method AllocateIP(subnet: Subnet) returns (r: Option<IP>)
      requires Contiguous(subnet.mask) && subnet.mask != 0
      modifies this
      ensures r.Some? ==> Contains(subnet, r.value) && r.value !in old(ips) && ips == old(ips) + {r.value}
      ensures r.None? ==> ips == old(ips)
      ensures r.None? <==> forall a :: Contains(subnet, a) ==> a in old(ips)
    {
      var rand := Rand32();
      r := Search(ips, subnet, rand);
      if r.Some? {
        ips := ips + {r.value};
      }
    }
  }
}
