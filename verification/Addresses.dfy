/** IPv4 addresses as 32-bit words, and prefix subnets (section 3.1 of RFC 4632).
    Facts about bits are stated on plain words; subnets only wrap them. */
module Addresses {

  type IP = bv32

  datatype Subnet = Subnet(ip: IP, mask: IP)

  /** A mask of ones followed by zeros. */
  predicate Contiguous(mask: IP) {
    !mask & (!mask + 1) == 0
  }

  predicate InPrefix(a: IP, p: IP, m: IP) {
    a & m == p & m
  }

  predicate Contains(s: Subnet, a: IP) {
    InPrefix(a, s.ip, s.mask)
  }

  const KELDA := Subnet(0x0A00_0000, 0xFF00_0000)
  const GATEWAY: IP := 0x0A00_0001
  const LOAD_BALANCER: IP := 0x0A00_0002

  predicate SubnetIntersects(a: Subnet, b: Subnet) {
    Contains(a, b.ip) || Contains(b, a.ip)
  }

  ghost predicate ShareAddress(a: Subnet, b: Subnet) {
    exists x :: Contains(a, x) && Contains(b, x)
  }

  predicate Wider(m: IP, n: IP) {
    m & n == m
  }

  lemma MasksNest(m: IP, n: IP)
    requires Contiguous(m) && Contiguous(n)
    ensures Wider(m, n) || Wider(n, m)
  {
  }

  lemma AndChain(x: IP, n: IP, m: IP)
    requires Wider(m, n)
    ensures x & m == (x & n) & m
  {
  }

  lemma WiderContains(p: IP, m: IP, q: IP, n: IP, x: IP)
    requires Wider(m, n) && InPrefix(x, p, m) && InPrefix(x, q, n)
    ensures InPrefix(q, p, m)
  {
    AndChain(q, n, m);
    AndChain(x, n, m);
  }

  lemma ContainsItself(s: Subnet)
    ensures Contains(s, s.ip)
  {
  }

  lemma SharedWords(p: IP, m: IP, q: IP, n: IP, x: IP)
    requires Contiguous(m) && Contiguous(n) && InPrefix(x, p, m) && InPrefix(x, q, n)
    ensures InPrefix(q, p, m) || InPrefix(p, q, n)
  {
    MasksNest(m, n);
    if Wider(m, n) {
      WiderContains(p, m, q, n, x);
    } else {
      WiderContains(q, n, p, m, x);
    }
  }

  lemma IntersectionIsShared(a: Subnet, b: Subnet)
    requires SubnetIntersects(a, b)
    ensures ShareAddress(a, b)
  {
    ContainsItself(a);
    ContainsItself(b);
  }

  /** Two prefix subnets intersect, as the code tests it, exactly when some
      address is in both. */
  lemma IntersectsIffShared(a: Subnet, b: Subnet)
    requires Contiguous(a.mask) && Contiguous(b.mask)
    ensures SubnetIntersects(a, b) <==> ShareAddress(a, b)
  {
    if ShareAddress(a, b) {
      var x :| Contains(a, x) && Contains(b, x);
      SharedWords(a.ip, a.mask, b.ip, b.mask, x);
    } else if SubnetIntersects(a, b) {
      IntersectionIsShared(a, b);
    }
  }

  // ------------------------------------------------------------------- probing

  /** A word's low bits under the prefix's high bits. */
  function Under(w: IP, p: IP, m: IP): IP {
    (w & !m) | (p & m)
  }

  lemma UnderInPrefix(w: IP, p: IP, m: IP)
    ensures InPrefix(Under(w, p, m), p, m)
  {
  }

  lemma UnderSelf(a: IP, p: IP, m: IP)
    requires InPrefix(a, p, m)
    ensures Under(a, p, m) == a
  {
  }

  /** The address that the allocator tries at a given distance from its random
      start. */
  function Candidate(start: IP, offset: IP, p: IP, m: IP): IP {
    Under(start + offset, p, m)
  }

  predicate Low(h: IP) {
    h & (h + 1) == 0
  }

  function And(x: IP, h: IP): IP {
    x & h
  }

  lemma AndTwice(w: IP, h: IP)
    ensures And(And(w, h), h) == And(w, h)
    ensures And(w, h) <= h
  {
  }

  /** Adding a word whose low bits are clear does not change the low bits. */
  lemma NoCarry(x: IP, y: IP, h: IP)
    requires Low(h) && And(y, h) == 0
    ensures And(x + y, h) == And(x, h)
  {
  }

  lemma SameLowDiffer(x: IP, y: IP, h: IP)
    requires Low(h) && And(x, h) == And(y, h)
    ensures And(x - y, h) == 0
  {
  }

  /** `low` depends on the sum of two words as the low bits do: the argument about
      distances needs no more, and so compares sums as sums and not bit by bit. */
  ghost predicate LikeLowBits(low: IP -> IP) {
    && (forall x, y :: low(y) == 0 ==> low(x + y) == low(x))
    && (forall x, y :: low(x) == low(y) ==> low(x - y) == 0)
  }

  lemma LowBits(h: IP)
    requires Low(h)
    ensures LikeLowBits(w => And(w, h))
  {
    forall x, y | And(y, h) == 0 ensures And(x + y, h) == And(x, h) {
      NoCarry(x, y, h);
    }
    forall x, y | And(x, h) == And(y, h) ensures And(x - y, h) == 0 {
      SameLowDiffer(x, y, h);
    }
  }

  lemma DistanceReaches(low: IP -> IP, start: IP, a: IP, k: IP)
    requires LikeLowBits(low) && low(k) == low(a - start)
    ensures low(start + k) == low(a)
  {
    assert low(k - (a - start)) == 0;
    assert low(a + (k - (a - start))) == low(a);
  }

  lemma Distance(start: IP, a: IP, h: IP) returns (k: IP)
    requires Low(h)
    ensures And(start + k, h) == And(a, h) && k <= h
  {
    k := And(a - start, h);
    AndTwice(a - start, h);
    LowBits(h);
    DistanceReaches(w => And(w, h), start, a, k);
  }

  lemma UnderLow(v: IP, w: IP, p: IP, m: IP)
    requires And(v, !m) == And(w, !m)
    ensures Under(v, p, m) == Under(w, p, m)
  {
  }

  /** Every address of the subnet is tried at some offset within the subnet. */
  lemma ProbesCover(p: IP, m: IP, start: IP, a: IP) returns (offset: IP)
    requires Contiguous(m) && InPrefix(a, p, m)
    ensures Within(offset, !m) && Candidate(start, offset, p, m) == a
  {
    offset := Distance(start, a, !m);
    UnderLow(start + offset, a, p, m);
    UnderSelf(a, p, m);
  }

  predicate Within(k: IP, h: IP) {
    k <= h
  }

  function Next(k: IP): IP {
    k + 1
  }

  lemma Earlier(k: IP, h: IP)
    requires k != 0 && k <= h
    ensures k - 1 < k && k - 1 <= h
  {
  }

  lemma Predecessor(k: IP, h: IP)
    requires k != 0 && Within(k, h)
    ensures k - 1 < k && Within(k - 1, h)
  {
    Earlier(k, h);
  }

  lemma NextOfPredecessor(k: IP)
    ensures Next(k - 1) == k
  {
  }

  lemma ZeroWithin(h: IP)
    ensures Within(0, h)
  {
  }

  lemma NotAllOnes(m: IP)
    requires m != 0
    ensures !m != 0xFFFF_FFFF
  {
  }

  lemma Shrinks(k: IP)
    requires k != 0
    ensures k - 1 < k
  {
  }

  ghost function Countdown(k: IP): nat {
    if k == 0 then 0 else
      Shrinks(k);
      1 + Countdown(k - 1)
  }

  /** How many offsets are left to try. */
  ghost function OffsetsLeft(offset: IP, h: IP): nat {
    Countdown(h + 1 - offset)
  }

  lemma NotOver(offset: IP, h: IP)
    requires h != 0xFFFF_FFFF && offset <= h
    ensures h + 1 - offset != 0
  {
  }

  ghost predicate Drops(k: IP) {
    Countdown(k - 1) < Countdown(k)
  }

  lemma CountsDown()
    ensures forall k :: k != 0 ==> Drops(k)
  {
  }

  /** They run out before the offset can wrap around. */
  lemma RunsOut(offset: IP, h: IP)
    requires h != 0xFFFF_FFFF && Within(offset, h)
    ensures OffsetsLeft(offset + 1, h) < OffsetsLeft(offset, h)
  {
    NotOver(offset, h);
    CountsDown();
    assert Drops(h + 1 - offset);
  }
}
