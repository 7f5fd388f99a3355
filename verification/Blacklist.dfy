/** The subnets in which no container address may lie, because a worker routes
    them elsewhere. */
module Blacklist {
  import opened Prelude
  import opened Addresses

  type SubnetText = nat

  datatype Minion = Minion(worker: bool, hostSubnets: seq<SubnetText>)

  /** `net.ParseCIDR`: a prefix subnet, or None for text that is not one. */
  type Parser = p: SubnetText -> Option<Subnet> | ParsesPrefixes(p) witness (t: SubnetText) => None

  ghost predicate ParsesPrefixes(p: SubnetText -> Option<Subnet>) {
    forall t :: p(t).Some? ==> Contiguous(p(t).value.mask)
  }

  predicate Blacklisted(ip: IP, subnets: set<Subnet>) {
    exists s :: s in subnets && Contains(s, ip)
  }

  /** Everything that workers route. */
  function Routed(minions: seq<Minion>): set<SubnetText> {
    set i, t | 0 <= i < |minions| && minions[i].worker && t in minions[i].hostSubnets :: t
  }

  function Parsed(texts: set<SubnetText>, parse: Parser): set<Subnet> {
    set t | t in texts && parse(t).Some? :: parse(t).value
  }

  function Relevant(subnets: set<Subnet>): set<Subnet> {
    set s | s in subnets && SubnetIntersects(KELDA, s)
  }

  predicate AllParse(texts: set<SubnetText>, parse: Parser) {
    forall t :: t in texts ==> parse(t).Some?
  }

  lemma KeldaIsPrefix()
    ensures Contiguous(KELDA.mask) && KELDA.mask != 0
  {
  }

  /** Dropping the subnets that miss the Kelda subnet changes nothing for the
      addresses in it. */
  lemma FilterIsHarmless(subnets: set<Subnet>, ip: IP)
    requires forall s :: s in subnets ==> Contiguous(s.mask)
    requires Contains(KELDA, ip)
    ensures Blacklisted(ip, Relevant(subnets)) <==> Blacklisted(ip, subnets)
  {
    if Blacklisted(ip, subnets) {
      var s :| s in subnets && Contains(s, ip);
      KeldaIsPrefix();
      IntersectsIffShared(KELDA, s);
      assert ShareAddress(KELDA, s);
      assert s in Relevant(subnets);
    }
  }

  /** None when some worker's subnet does not parse. */
  method MakeSubnetBlacklist(minions: seq<Minion>, parse: Parser) returns (r: Option<seq<Subnet>>)
    ensures r.Some? <==> AllParse(Routed(minions), parse)
    ensures r.Some? ==> Elements(r.value) == Relevant(Parsed(Routed(minions), parse))
  {
    var texts := CollectSubnets(minions);
    r := FilterSubnets(texts, parse);
  }

  method CollectSubnets(minions: seq<Minion>) returns (texts: set<SubnetText>)
    ensures texts == Routed(minions)
  {
    texts := {};
    for i := 0 to |minions|
      invariant texts == Routed(minions[..i])
    {
      RoutedSnoc(minions, i);
      if minions[i].worker {
        var before := texts;
        var list := minions[i].hostSubnets;
        for j := 0 to |list|
          invariant texts == before + Elements(list[..j])
        {
          assert list[..j + 1] == list[..j] + [list[j]];
          texts := texts + {list[j]};
        }
        assert list[..|list|] == list;
      }
    }
    assert minions[..|minions|] == minions;
  }

  lemma RoutedSnoc(minions: seq<Minion>, i: nat)
    requires i < |minions|
    ensures Routed(minions[..i + 1]) ==
      Routed(minions[..i]) + if minions[i].worker then Elements(minions[i].hostSubnets) else {}
  {
    var m, n := minions[..i], minions[..i + 1];
    assert n == m + [minions[i]];
    forall t ensures t in Routed(n) <==> t in Routed(m) || (minions[i].worker && t in minions[i].hostSubnets) {
      if t in Routed(m) {
        var k :| 0 <= k < |m| && m[k].worker && t in m[k].hostSubnets;
        assert n[k] == m[k];
      }
      if minions[i].worker && t in minions[i].hostSubnets {
        assert n[i] == minions[i];
      }
    }
  }

  /** Visits the texts in some order, and gives up at the first bad one. */
  method FilterSubnets(texts: set<SubnetText>, parse: Parser) returns (r: Option<seq<Subnet>>)
    ensures r.Some? <==> AllParse(texts, parse)
    ensures r.Some? ==> Elements(r.value) == Relevant(Parsed(texts, parse))
  {
    var todo, list := texts, [];
    while todo != {}
      invariant todo <= texts && AllParse(texts - todo, parse)
      invariant Elements(list) == Relevant(Parsed(texts - todo, parse))
      decreases |todo|
    {
      var t := PickAny(todo);
      if parse(t).None? {
        return None;
      }
      var s := parse(t).value;
      assert texts - (todo - {t}) == (texts - todo) + {t};
      assert Parsed(texts - (todo - {t}), parse) == Parsed(texts - todo, parse) + {s};
      if SubnetIntersects(KELDA, s) {
        list := list + [s];
      }
      todo := todo - {t};
    }
    assert texts - todo == texts;
    return Some(list);
  }

  method IPBlacklisted(ip: IP, subnets: seq<Subnet>) returns (r: bool)
    ensures r <==> Blacklisted(ip, Elements(subnets))
  {
    for i := 0 to |subnets|
      invariant forall j :: 0 <= j < i ==> !Contains(subnets[j], ip)
    {
      if Contains(subnets[i], ip) {
        return true;
      }
    }
    return false;
  }
}
