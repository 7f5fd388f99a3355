/** The allocation round: up to three passes over the containers and load
    balancers, each giving a fresh address to every row that has none or whose
    address is blacklisted. */
module IPUpdate {
  import opened Prelude
  import opened Addresses
  import opened Blacklist
  import opened IPAllocation

  /** The rows of both tables, by which table and which row. */
  datatype Owner = Container(id: int) | LoadBalancer(id: int)
  type Rows = map<Owner, Option<IP>>

  /** A row that keeps its address. */
  predicate Settled(rows: Rows, bl: set<Subnet>, k: Owner) {
    k in rows && rows[k].Some? && !Blacklisted(rows[k].value, bl)
  }

  /** No two settled rows share an address. */
  ghost predicate DistinctSettled(rows: Rows, bl: set<Subnet>) {
    forall j, k :: Settled(rows, bl, j) && Settled(rows, bl, k) && rows[j] == rows[k] ==> j == k
  }

  /** Every row has an address and no two have the same. */
  ghost predicate AllDistinct(rows: Rows) {
    (forall k :: k in rows ==> rows[k].Some?) &&
    (forall j, k :: j in rows && k in rows && rows[j] == rows[k] ==> j == k)
  }

  const SPECIAL: set<IP> := {GATEWAY, LOAD_BALANCER, KELDA.ip}

  /** The addresses that a pass may not hand out. */
  function Base(rows: Rows, bl: set<Subnet>): set<IP> {
    SPECIAL + set k | k in rows && Settled(rows, bl, k) :: rows[k].value
  }

  /** The rows after the first `|given|` members of the list got an address. */
  function Granted(rows: Rows, list: seq<Owner>, given: seq<IP>): (r: Rows)
    requires |given| <= |list|
  {
    if given == [] then rows
    else
      var n := |given| - 1;
      Granted(rows, list, given[..n])[list[n] := Some(given[n])]
  }

  lemma {:induction false} GrantedAt(rows: Rows, list: seq<Owner>, given: seq<IP>, k: Owner)
    requires |given| <= |list| && NoDuplicates(list)
    ensures k in list[..|given|] ==> k in Granted(rows, list, given)
    ensures forall i :: 0 <= i < |given| && list[i] == k ==> Granted(rows, list, given)[k] == Some(given[i])
    ensures k !in list[..|given|] ==>
      (k in Granted(rows, list, given) <==> k in rows) && (k in rows ==> Granted(rows, list, given)[k] == rows[k])
  {
    if given != [] {
      var n := |given| - 1;
      GrantedAt(rows, list, given[..n], k);
      assert list[..n + 1] == list[..n] + [list[n]];
    }
  }

  lemma {:induction false} GrantedTwice(rows: Rows, first: seq<Owner>, second: seq<Owner>, a: seq<IP>, b: seq<IP>)
    requires |a| == |first| && |b| <= |second|
    ensures Granted(Granted(rows, first, a), second, b) == Granted(rows, first + second, a + b)
  {
    if b == [] {
      assert a + b == a;
      GrantedPrefix(rows, first, second, a);
    } else {
      var n := |b| - 1;
      GrantedTwice(rows, first, second, a, b[..n]);
      assert (a + b)[..|a| + n] == a + b[..n];
    }
  }

  lemma {:induction false} GrantedPrefix(rows: Rows, first: seq<Owner>, second: seq<Owner>, a: seq<IP>)
    requires |a| <= |first|
    ensures Granted(rows, first + second, a) == Granted(rows, first, a)
  {
    if a != [] {
      GrantedPrefix(rows, first, second, a[..|a| - 1]);
    }
  }

  // -------------------------------------------------------------- what a pass is

  /** Exactly the rows that need an address, each once. */
  ghost predicate Needy(rows: Rows, bl: set<Subnet>, list: seq<Owner>) {
    NoDuplicates(list) && forall k :: k in list <==> k in rows && !Settled(rows, bl, k)
  }

  /** Addresses inside the Kelda subnet, all different and all new. */
  ghost predicate FreshIPs(given: seq<IP>, base: set<IP>) {
    NoDuplicates(given) && forall a :: a in given ==> a !in base && Contains(KELDA, a)
  }

  ghost predicate Exhausted(ips: set<IP>) {
    forall a :: Contains(KELDA, a) ==> a in ips
  }

  /** A pass hands fresh addresses to the needy rows in some order; it stops
      early only when every address of the subnet is taken. */
  ghost predicate IsPass(rows: Rows, bl: set<Subnet>, list: seq<Owner>, given: seq<IP>, ok: bool) {
    Needy(rows, bl, list) && |given| <= |list| && FreshIPs(given, Base(rows, bl)) &&
    (ok <==> |given| == |list|) && (!ok ==> Exhausted(Base(rows, bl) + Elements(given)))
  }

  lemma InBase(rows: Rows, bl: set<Subnet>, k: Owner)
    requires Settled(rows, bl, k)
    ensures rows[k].value in Base(rows, bl)
  {
  }

  /** A pass never changes a settled row. */
  lemma PassKeepsSettled(rows: Rows, bl: set<Subnet>, list: seq<Owner>, given: seq<IP>, ok: bool, k: Owner)
    requires IsPass(rows, bl, list, given, ok) && Settled(rows, bl, k)
    ensures var r := Granted(rows, list, given); k in r && r[k] == rows[k] && Settled(r, bl, k)
  {
    GrantedAt(rows, list, given, k);
  }

  /** Where a row's address comes from. */
  lemma Origin(rows: Rows, bl: set<Subnet>, list: seq<Owner>, given: seq<IP>, ok: bool, k: Owner) returns (i: int)
    requires IsPass(rows, bl, list, given, ok) && k in rows
    ensures -1 <= i < |given|
    ensures var r := Granted(rows, list, given);
      k in r && (if i == -1 then r[k] == rows[k] && k !in list[..|given|] else list[i] == k && r[k] == Some(given[i]))
  {
    GrantedAt(rows, list, given, k);
    if k in list[..|given|] {
      i :| 0 <= i < |given| && list[i] == k;
    } else {
      i := -1;
    }
  }

  /** Nor does it make two settled rows share an address. */
  lemma PassKeepsDistinct(rows: Rows, bl: set<Subnet>, list: seq<Owner>, given: seq<IP>, ok: bool)
    requires IsPass(rows, bl, list, given, ok) && DistinctSettled(rows, bl)
    ensures DistinctSettled(Granted(rows, list, given), bl)
  {
    var r := Granted(rows, list, given);
    forall j, k | Settled(r, bl, j) && Settled(r, bl, k) && r[j] == r[k] ensures j == k {
      GrantedKeys(rows, list, given);
      var a := Origin(rows, bl, list, given, ok, j);
      var b := Origin(rows, bl, list, given, ok, k);
      if a == -1 { InBase(rows, bl, j); }
      if b == -1 { InBase(rows, bl, k); }
      assert a != -1 ==> given[a] in given;
      assert b != -1 ==> given[b] in given;
    }
  }

  lemma {:induction false} GrantedKeys(rows: Rows, list: seq<Owner>, given: seq<IP>)
    requires |given| <= |list| && forall k :: k in list ==> k in rows
    ensures Granted(rows, list, given).Keys == rows.Keys
  {
    if given != [] {
      GrantedKeys(rows, list, given[..|given| - 1]);
    }
  }

  /** A pass that does not run out leaves every row with an address of its own. */
  lemma PassSucceeds(rows: Rows, bl: set<Subnet>, list: seq<Owner>, given: seq<IP>)
    requires IsPass(rows, bl, list, given, true) && DistinctSettled(rows, bl)
    ensures AllDistinct(Granted(rows, list, given))
  {
    var r := Granted(rows, list, given);
    GrantedKeys(rows, list, given);
    assert list[..|given|] == list;
    forall k | k in r ensures r[k].Some? {
      var a := Origin(rows, bl, list, given, true, k);
    }
    forall j, k | j in r && k in r && r[j] == r[k] ensures j == k {
      var a := Origin(rows, bl, list, given, true, j);
      var b := Origin(rows, bl, list, given, true, k);
      if a == -1 { InBase(rows, bl, j); }
      if b == -1 { InBase(rows, bl, k); }
      assert a != -1 ==> given[a] in given;
      assert b != -1 ==> given[b] in given;
    }
  }

  ghost predicate Held(rows: Rows, a: IP) {
    exists k :: k in rows && rows[k] == Some(a)
  }

  /** A pass that runs out leaves no address of the subnet unheld. */
  lemma PassFails(rows: Rows, bl: set<Subnet>, list: seq<Owner>, given: seq<IP>, a: IP)
    requires IsPass(rows, bl, list, given, false) && Contains(KELDA, a)
    ensures a in SPECIAL || Held(Granted(rows, list, given), a)
  {
    var r := Granted(rows, list, given);
    assert a in Base(rows, bl) + Elements(given);
    if a in given {
      var i :| 0 <= i < |given| && given[i] == a;
      GrantedAt(rows, list, given, list[i]);
    } else if a !in SPECIAL {
      var k :| k in rows && Settled(rows, bl, k) && rows[k].value == a;
      PassKeepsSettled(rows, bl, list, given, false, k);
    }
  }

  // ------------------------------------------------------------ the code's round

  class View {
    var rows: Rows
  }

  function SettledIPs(rows: Rows, bl: set<Subnet>, owners: set<Owner>): set<IP> {
    set k | k in owners && Settled(rows, bl, k) :: rows[k].value
  }

  /** One of the two selections of `makeIPContext`: reserve the addresses of the
      rows that keep theirs, list the others. */
  method Classify(rows: Rows, owners: set<Owner>, blacklist: seq<Subnet>, ctx: Reserved) returns (list: seq<Owner>)
    requires owners <= rows.Keys
    modifies ctx
    ensures ctx.ips == old(ctx.ips) + SettledIPs(rows, Elements(blacklist), owners)
    ensures NoDuplicates(list) && forall k :: k in list <==> k in owners && !Settled(rows, Elements(blacklist), k)
  {
    list := [];
    var todo := owners;
    while todo != {}
      invariant todo <= owners
      invariant ctx.ips == old(ctx.ips) + SettledIPs(rows, Elements(blacklist), owners - todo)
      invariant NoDuplicates(list)
      invariant forall k :: k in list <==> k in owners - todo && !Settled(rows, Elements(blacklist), k)
      decreases |todo|
    {
      var k := PickAny(todo);
      assert owners - (todo - {k}) == (owners - todo) + {k};
      todo := todo - {k};
      var keep := false;
      if rows[k].Some? {
        var bad := IPBlacklisted(rows[k].value, blacklist);
        keep := !bad;
      }
      if keep {
        ctx.ips := ctx.ips + {rows[k].value};
      } else {
        list := list + [k];
      }
    }
    assert owners - todo == owners;
  }

  method MakeIPContext(rows: Rows, blacklist: seq<Subnet>)
    returns (ctx: Reserved, containers: seq<Owner>, loadBalancers: seq<Owner>)
    ensures fresh(ctx) && ctx.ips == Base(rows, Elements(blacklist))
    ensures Needy(rows, Elements(blacklist), containers + loadBalancers) && ContainersFirst(containers + loadBalancers)
  {
    ctx := new Reserved(SPECIAL);
    containers := Classify(rows, (set k | k in rows && k.Container?), blacklist, ctx);
    loadBalancers := Classify(rows, (set k | k in rows && k.LoadBalancer?), blacklist, ctx);
    NeedyParts(rows, Elements(blacklist), containers, loadBalancers);
  }

  lemma NeedyParts(rows: Rows, bl: set<Subnet>, a: seq<Owner>, b: seq<Owner>)
    requires NoDuplicates(a) && forall k :: k in a <==> k in rows && k.Container? && !Settled(rows, bl, k)
    requires NoDuplicates(b) && forall k :: k in b <==> k in rows && k.LoadBalancer? && !Settled(rows, bl, k)
    ensures Needy(rows, bl, a + b) && ContainersFirst(a + b)
  {
    assert forall i :: 0 <= i < |a| ==> a[i] in a && a[i].Container?;
    assert forall i :: 0 <= i < |b| ==> b[i] in b && b[i].LoadBalancer?;
    forall i, j | 0 <= i < j < |a + b| ensures (a + b)[i] != (a + b)[j] {
      if i < |a| <= j {
        assert (a + b)[i] in a && (a + b)[j] in b;
      }
    }
  }

  /** `allocateContainerIPs` and `allocateLoadBalancerIPs` are this same loop. */
  method AllocateIPs(view: View, ctx: Reserved, list: seq<Owner>) returns (ok: bool, ghost given: seq<IP>)
    modifies view, ctx
    ensures |given| <= |list| && view.rows == Granted(old(view.rows), list, given)
    ensures FreshIPs(given, old(ctx.ips)) && ctx.ips == old(ctx.ips) + Elements(given)
    ensures (ok <==> |given| == |list|) && (!ok ==> Exhausted(ctx.ips))
  {
    KeldaIsPrefix();
    given := [];
    for i := 0 to |list|
      invariant |given| == i && view.rows == Granted(old(view.rows), list, given)
      invariant FreshIPs(given, old(ctx.ips)) && ctx.ips == old(ctx.ips) + Elements(given)
    {
      var ip := ctx.AllocateIP(KELDA);
      if ip.None? {
        return false, given;
      }
      assert (given + [ip.value])[..i] == given;
      given := given + [ip.value];
      view.rows := view.rows[list[i] := ip];
    }
    return true, given;
  }

  lemma FreshConcat(a: seq<IP>, b: seq<IP>, base: set<IP>)
    requires FreshIPs(a, base) && FreshIPs(b, base + Elements(a))
    ensures FreshIPs(a + b, base) && Elements(a + b) == Elements(a) + Elements(b)
  {
    forall i, j | 0 <= i < j < |a + b| ensures (a + b)[i] != (a + b)[j] {
      if i < |a| <= j {
        assert (a + b)[i] in a && (a + b)[j] in b;
      }
    }
  }

  /** One pass: containers first, load balancers only if those went well. */
  method Pass(view: View, blacklist: seq<Subnet>) returns (idle: bool, ok: bool, ghost list: seq<Owner>, ghost given: seq<IP>)
    modifies view
    ensures IsPass(old(view.rows), Elements(blacklist), list, given, ok)
    ensures view.rows == Granted(old(view.rows), list, given)
    ensures (idle <==> list == []) && ContainersFirst(list)
  {
    var ctx, containers, loadBalancers := MakeIPContext(view.rows, blacklist);
    list := containers + loadBalancers;
    if containers == [] && loadBalancers == [] {
      return true, true, [], [];
    }
    ok, given := AllocateIPs(view, ctx, containers);
    idle := false;
    GrantedPrefix(old(view.rows), containers, loadBalancers, given);
    if ok {
      ghost var more;
      ok, more := AllocateIPs(view, ctx, loadBalancers);
      GrantedTwice(old(view.rows), containers, loadBalancers, given, more);
      FreshConcat(given, more, Base(old(view.rows), Elements(blacklist)));
      given := given + more;
    }
  }

  /** Which worker subnet failed to parse is not modelled. */
  datatype Outcome = Done | BadSubnet | PoolExhausted

  /** The settled rows of `before` are as they were, and still settled. */
  ghost predicate Kept(before: Rows, after: Rows, bl: set<Subnet>) {
    after.Keys == before.Keys && forall k :: Settled(before, bl, k) ==> after[k] == before[k]
  }

  lemma PassKeeps(rows0: Rows, rows: Rows, bl: set<Subnet>, list: seq<Owner>, given: seq<IP>, ok: bool)
    requires Kept(rows0, rows, bl) && IsPass(rows, bl, list, given, ok)
    ensures Kept(rows0, Granted(rows, list, given), bl)
  {
    GrantedKeys(rows, list, given);
    forall k | Settled(rows0, bl, k) ensures Granted(rows, list, given)[k] == rows0[k] {
      assert Settled(rows, bl, k);
      PassKeepsSettled(rows, bl, list, given, ok, k);
    }
  }

  /** An address of 10.0.0.0/8 other than 10.0.0.0 and those of the gateway, 10.0.0.1, and
      of the load balancer, 10.0.0.2. */
  predicate Usable(a: IP) {
    a & 0xFF00_0000 == 0x0A00_0000 && a != 0x0A00_0000 && a != 0x0A00_0001 && a != 0x0A00_0002
  }

  lemma InsideIsUsable(a: IP)
    requires Contains(KELDA, a) && a !in SPECIAL
    ensures Usable(a)
  {
  }

  /** A row that changed has a usable address. */
  ghost predicate ChangesInside(before: Rows, after: Rows) {
    after.Keys == before.Keys &&
    forall k :: k in before && after[k] != before[k] ==> after[k].Some? && Usable(after[k].value)
  }

  lemma PassChangesInside(rows0: Rows, rows: Rows, bl: set<Subnet>, list: seq<Owner>, given: seq<IP>, ok: bool)
    requires ChangesInside(rows0, rows) && IsPass(rows, bl, list, given, ok)
    ensures ChangesInside(rows0, Granted(rows, list, given))
  {
    GrantedKeys(rows, list, given);
    var r := Granted(rows, list, given);
    forall k | k in rows0 && r[k] != rows0[k] ensures r[k].Some? && Usable(r[k].value) {
      var i := Origin(rows, bl, list, given, ok, k);
      if i != -1 {
        assert given[i] in given;
        InsideIsUsable(given[i]);
      }
    }
  }

  /** Containers come before load balancers. */
  ghost predicate ContainersFirst(list: seq<Owner>) {
    forall i, j :: 0 <= i < j < |list| && list[i].LoadBalancer? ==> list[j].LoadBalancer?
  }

  /** With `left` passes to go and `r0` the result of the last one, the round may leave
      the rows `after` and report `r`. */
  ghost predicate RoundFrom(rows: Rows, bl: set<Subnet>, left: nat, r0: Outcome, after: Rows, r: Outcome)
    decreases left
  {
    if left == 0 then after == rows && r == r0
    else
      exists list, given, ok ::
        IsPass(rows, bl, list, given, ok) && ContainersFirst(list) &&
        if list == [] then after == rows && r == Done
        else RoundFrom(Granted(rows, list, given), bl, left - 1, if ok then Done else PoolExhausted, after, r)
  }

  /** What the rest of the round may do, the whole round may do. */
  ghost predicate Leads(rows0: Rows, bl: set<Subnet>, rows: Rows, left: nat, r0: Outcome) {
    forall after, r :: RoundFrom(rows, bl, left, r0, after, r) ==> RoundFrom(rows0, bl, 3, Done, after, r)
  }

  lemma PassLeads(rows0: Rows, bl: set<Subnet>, rows: Rows, left: nat, r0: Outcome, list: seq<Owner>, given: seq<IP>, ok: bool)
    requires Leads(rows0, bl, rows, left + 1, r0) && IsPass(rows, bl, list, given, ok) && ContainersFirst(list)
    ensures list == [] ==> RoundFrom(rows0, bl, 3, Done, rows, Done)
    ensures list != [] ==> Leads(rows0, bl, Granted(rows, list, given), left, if ok then Done else PoolExhausted)
  {
    if list == [] {
      assert RoundFrom(rows, bl, left + 1, r0, rows, Done);
    } else {
      var next, r1 := Granted(rows, list, given), if ok then Done else PoolExhausted;
      forall after, r | RoundFrom(next, bl, left, r1, after, r) ensures RoundFrom(rows0, bl, 3, Done, after, r) {
        assert RoundFrom(rows, bl, left + 1, r0, after, r);
      }
    }
  }

  /** Three passes at most, because a fresh address may be blacklisted itself.
      Whatever happens, settled rows keep their addresses and stay distinct; when
      the round reports no error, all rows have distinct addresses; when the pool
      is exhausted, every address of the subnet is special or held. */
  method UpdateIPsOnce(view: View, minions: seq<Minion>, parse: Parser) returns (r: Outcome)
    requires DistinctSettled(view.rows, Relevant(Parsed(Routed(minions), parse)))
    modifies view
    ensures r.BadSubnet? <==> !AllParse(Routed(minions), parse)
    ensures r.BadSubnet? ==> view.rows == old(view.rows)
    ensures var bl := Relevant(Parsed(Routed(minions), parse));
      Kept(old(view.rows), view.rows, bl) && DistinctSettled(view.rows, bl)
    ensures ChangesInside(old(view.rows), view.rows)
    ensures r.Done? ==> AllDistinct(view.rows)
    ensures r.PoolExhausted? ==> forall a :: Contains(KELDA, a) ==> a in SPECIAL || Held(view.rows, a)
    ensures !r.BadSubnet? ==>
              RoundFrom(old(view.rows), Relevant(Parsed(Routed(minions), parse)), 3, Done, view.rows, r)
  {
    var made := MakeSubnetBlacklist(minions, parse);
    if made.None? {
      return BadSubnet;
    }
    var blacklist := made.value;
    ghost var bl := Elements(blacklist);
    r := Done;
    for i := 0 to 3
      invariant Kept(old(view.rows), view.rows, bl) && DistinctSettled(view.rows, bl)
      invariant ChangesInside(old(view.rows), view.rows)
      invariant !r.BadSubnet? && (i > 0 && r.Done? ==> AllDistinct(view.rows))
      invariant r.PoolExhausted? ==> forall a :: Contains(KELDA, a) ==> a in SPECIAL || Held(view.rows, a)
      invariant Leads(old(view.rows), bl, view.rows, 3 - i, r)
    {
      ghost var rows := view.rows;
      var idle, ok, list, given := Pass(view, blacklist);
      PassLeads(old(view.rows), bl, rows, 2 - i, r, list, given, ok);
      PassKeeps(old(view.rows), rows, bl, list, given, ok);
      PassChangesInside(old(view.rows), rows, bl, list, given, ok);
      PassKeepsDistinct(rows, bl, list, given, ok);
      if ok {
        PassSucceeds(rows, bl, list, given);
        r := Done;
        if idle {
          return Done;
        }
      } else {
        forall a | Contains(KELDA, a) ensures a in SPECIAL || Held(view.rows, a) {
          PassFails(rows, bl, list, given, a);
        }
        r := PoolExhausted;
      }
    }
  }
}
