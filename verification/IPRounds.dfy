/** How an allocation round ends: when it succeeds, and when success means that no
    row is left with a blacklisted address. */
module IPRounds {
  import opened Prelude
  import opened Addresses
  import opened Blacklist
  import opened IPUpdate

  /** The rows in need of an address. */
  function Needs(rows: Rows, bl: set<Subnet>): set<Owner> {
    set k | k in rows && !Settled(rows, bl, k)
  }

  /** There are as many unreserved addresses as rows in need. */
  ghost predicate PoolSuffices(rows: Rows, bl: set<Subnet>) {
    exists given :: FreshIPs(given, Base(rows, bl)) && |given| == |Needs(rows, bl)|
  }

  ghost predicate AllSettled(rows: Rows, bl: set<Subnet>) {
    forall k :: k in rows ==> Settled(rows, bl, k)
  }

  /** No blacklisted address is up for allocation. */
  ghost predicate NothingBarred(bl: set<Subnet>) {
    forall a :: Contains(KELDA, a) && Blacklisted(a, bl) ==> a in SPECIAL
  }

  lemma NeedySize(rows: Rows, bl: set<Subnet>, list: seq<Owner>)
    requires Needy(rows, bl, list)
    ensures Elements(list) == Needs(rows, bl) && |list| == |Needs(rows, bl)|
  {
    DistinctSize(list);
  }

  // ------------------------------------------------------------- when a pass succeeds

  /** A pass runs out exactly if the pool is too small. */
  lemma PassOkIffPool(rows: Rows, bl: set<Subnet>, list: seq<Owner>, given: seq<IP>, ok: bool)
    requires IsPass(rows, bl, list, given, ok)
    ensures ok <==> PoolSuffices(rows, bl)
  {
    NeedySize(rows, bl, list);
    if !ok && PoolSuffices(rows, bl) {
      var g :| FreshIPs(g, Base(rows, bl)) && |g| == |Needs(rows, bl)|;
      DistinctSize(g);
      DistinctSize(given);
      forall a | a in Elements(g) ensures a in Elements(given) {
        assert a in Base(rows, bl) + Elements(given);
      }
      SubsetSize(Elements(g), Elements(given));
    }
  }

  lemma SubsetSize<T(!new)>(s: set<T>, t: set<T>)
    requires s <= t
    ensures |s| <= |t|
  {
    assert t == s + (t - s);
  }

  /** Reserved addresses stay reserved. */
  lemma BaseGrows(rows: Rows, bl: set<Subnet>, list: seq<Owner>, given: seq<IP>, ok: bool)
    requires IsPass(rows, bl, list, given, ok)
    ensures Base(rows, bl) <= Base(Granted(rows, list, given), bl)
  {
    var next := Granted(rows, list, given);
    forall a | a in Base(rows, bl) ensures a in Base(next, bl) {
      if a !in SPECIAL {
        var k :| k in rows && Settled(rows, bl, k) && rows[k].value == a;
        PassKeepsSettled(rows, bl, list, given, ok, k);
        InBase(next, bl, k);
      }
    }
  }

  /** An address handed out in an exhausted pool and free again afterwards is still with
      a row in need. */
  lemma FreeAgain(rows: Rows, bl: set<Subnet>, list: seq<Owner>, given: seq<IP>, a: IP) returns (i: nat)
    requires IsPass(rows, bl, list, given, false)
    requires Contains(KELDA, a) && a !in Base(Granted(rows, list, given), bl)
    ensures i < |given| && given[i] == a && list[i] in Needs(Granted(rows, list, given), bl)
  {
    var next := Granted(rows, list, given);
    BaseGrows(rows, bl, list, given, false);
    GrantedKeys(rows, list, given);
    assert a in Base(rows, bl) + Elements(given);
    i :| 0 <= i < |given| && given[i] == a;
    var k := list[i];
    GrantedAt(rows, list, given, k);
    if Settled(next, bl, k) {
      InBase(next, bl, k);
    }
  }

  ghost predicate HasIt(list: seq<Owner>, given: seq<IP>, a: IP, i: nat) {
    i < |given| && i < |list| && given[i] == a
  }

  ghost function HolderOf(list: seq<Owner>, given: seq<IP>, a: IP): (k: Owner)
    requires exists i: nat :: HasIt(list, given, a, i)
    ensures exists i: nat :: HasIt(list, given, a, i) && k == list[i]
  {
    var i: nat :| HasIt(list, given, a, i);
    list[i]
  }

  /** A pass in too small a pool leaves too small a pool. */
  lemma PoolStaysShort(rows: Rows, bl: set<Subnet>, list: seq<Owner>, given: seq<IP>)
    requires IsPass(rows, bl, list, given, false)
    ensures !PoolSuffices(Granted(rows, list, given), bl)
  {
    var next := Granted(rows, list, given);
    if PoolSuffices(next, bl) {
      var g :| FreshIPs(g, Base(next, bl)) && |g| == |Needs(next, bl)|;
      forall a | a in g ensures exists i: nat :: HasIt(list, given, a, i) && list[i] in Needs(next, bl) {
        var i := FreeAgain(rows, bl, list, given, a);
        assert HasIt(list, given, a, i);
      }
      LastStaysNeedy(rows, bl, list, given);
      HoldersBound(list, given, g, Needs(next, bl));
    }
  }

  lemma LastStaysNeedy(rows: Rows, bl: set<Subnet>, list: seq<Owner>, given: seq<IP>)
    requires IsPass(rows, bl, list, given, false)
    ensures list[|given|] in Needs(Granted(rows, list, given), bl)
  {
    var k := list[|given|];
    assert k in list && k !in list[..|given|];
    GrantedAt(rows, list, given, k);
  }

  lemma HoldersBound(list: seq<Owner>, given: seq<IP>, g: seq<IP>, needs: set<Owner>)
    requires |given| < |list| && NoDuplicates(list) && NoDuplicates(given) && NoDuplicates(g) && list[|given|] in needs
    requires forall a :: a in g ==> exists i: nat :: HasIt(list, given, a, i) && list[i] in needs
    ensures |g| < |needs|
  {
    var f := map a | a in Elements(g) :: HolderOf(list, given, a);
    assert f.Keys == Elements(g);
    DistinctSize(g);
    InjectionBoundsSize(f, needs - {list[|given|]});
  }

  // ------------------------------------------- a pass that hands out the same again

  /** Every row in need has an address of its own that is up for allocation. */
  ghost predicate Repeatable(rows: Rows, bl: set<Subnet>) {
    && (forall k :: k in Needs(rows, bl) ==>
          rows[k].Some? && Contains(KELDA, rows[k].value) && rows[k].value !in Base(rows, bl))
    && (forall j, k :: j in Needs(rows, bl) && k in Needs(rows, bl) && rows[j] == rows[k] ==> j == k)
  }

  /** So it is after a pass that did not run out. */
  lemma PassIsRepeatable(rows: Rows, bl: set<Subnet>, list: seq<Owner>, given: seq<IP>)
    requires IsPass(rows, bl, list, given, true)
    ensures Repeatable(Granted(rows, list, given), bl)
  {
    var next := Granted(rows, list, given);
    GrantedKeys(rows, list, given);
    forall k | k in Needs(next, bl)
      ensures next[k].Some? && Contains(KELDA, next[k].value) && next[k].value !in Base(next, bl)
    {
      var i := Granter(rows, bl, list, given, k);
      assert given[i] in given;
      BarredIsFree(next, bl, k);
    }
    forall j, k | j in Needs(next, bl) && k in Needs(next, bl) && next[j] == next[k] ensures j == k {
      var a := Granter(rows, bl, list, given, j);
      var b := Granter(rows, bl, list, given, k);
    }
  }

  /** A row that is still in need got its address in the pass. */
  lemma Granter(rows: Rows, bl: set<Subnet>, list: seq<Owner>, given: seq<IP>, k: Owner) returns (i: nat)
    requires IsPass(rows, bl, list, given, true) && k in Needs(Granted(rows, list, given), bl)
    ensures i < |given| && list[i] == k && k in Granted(rows, list, given) && Granted(rows, list, given)[k] == Some(given[i])
  {
    GrantedKeys(rows, list, given);
    if Settled(rows, bl, k) {
      PassKeepsSettled(rows, bl, list, given, true, k);
    }
    assert k in list;
    i :| 0 <= i < |list| && list[i] == k;
    GrantedAt(rows, list, given, k);
  }

  /** A blacklisted address is not reserved, unless it is special. */
  lemma BarredIsFree(rows: Rows, bl: set<Subnet>, k: Owner)
    requires k in Needs(rows, bl) && rows[k].Some? && rows[k].value !in SPECIAL
    ensures rows[k].value !in Base(rows, bl)
  {
  }

  /** The addresses that the listed rows have. */
  ghost function Again(rows: Rows, list: seq<Owner>): (given: seq<IP>)
    requires forall k :: k in list ==> k in rows && rows[k].Some?
    ensures |given| == |list| && forall i :: 0 <= i < |list| ==> given[i] == rows[list[i]].value
  {
    seq(|list|, i requires 0 <= i < |list| => assert list[i] in list; rows[list[i]].value)
  }

  /** Then a pass can hand out the same addresses again. */
  lemma RepeatIsPass(rows: Rows, bl: set<Subnet>, list: seq<Owner>)
    requires Repeatable(rows, bl) && Needy(rows, bl, list)
    ensures forall k :: k in list ==> k in rows && rows[k].Some?
    ensures IsPass(rows, bl, list, Again(rows, list), true) && Granted(rows, list, Again(rows, list)) == rows
  {
    assert forall k :: k in list <==> k in Needs(rows, bl);
    var given := Again(rows, list);
    forall i, j | 0 <= i < j < |given| ensures given[i] != given[j] {
      assert list[i] in Needs(rows, bl) && list[j] in Needs(rows, bl);
      assert rows[list[i]] != rows[list[j]];
    }
    forall a | a in given ensures a !in Base(rows, bl) && Contains(KELDA, a) {
      var i :| 0 <= i < |given| && given[i] == a;
      assert list[i] in Needs(rows, bl);
    }
    GrantsNothingNew(rows, list, given);
  }

  lemma {:induction false} GrantsNothingNew(rows: Rows, list: seq<Owner>, given: seq<IP>)
    requires |given| <= |list| && forall i :: 0 <= i < |given| ==> list[i] in rows && rows[list[i]] == Some(given[i])
    ensures Granted(rows, list, given) == rows
  {
    if given != [] {
      GrantsNothingNew(rows, list, given[..|given| - 1]);
    }
  }

  lemma {:induction false} ListSet<T(!new)>(s: set<T>) returns (list: seq<T>)
    ensures NoDuplicates(list) && Elements(list) == s
  {
    if s == {} {
      list := [];
    } else {
      var x :| x in s;
      var rest := ListSet(s - {x});
      assert forall y :: y in rest <==> y in Elements(rest);
      list := rest + [x];
    }
  }

  /** The rows in need, in an order in which a pass may serve them. */
  lemma ListNeedy(rows: Rows, bl: set<Subnet>) returns (list: seq<Owner>)
    ensures Needy(rows, bl, list) && ContainersFirst(list)
  {
    var a := ListSet(set k | k in Needs(rows, bl) && k.Container?);
    var b := ListSet(set k | k in Needs(rows, bl) && k.LoadBalancer?);
    assert forall k :: k in a <==> k in Elements(a);
    assert forall k :: k in b <==> k in Elements(b);
    NeedyParts(rows, bl, a, b);
    list := a + b;
  }

  /** So the pool stays large enough. */
  lemma PoolStaysLarge(rows: Rows, bl: set<Subnet>, list: seq<Owner>, given: seq<IP>)
    requires IsPass(rows, bl, list, given, true)
    ensures PoolSuffices(Granted(rows, list, given), bl)
  {
    var next := Granted(rows, list, given);
    PassIsRepeatable(rows, bl, list, given);
    var again := ListNeedy(next, bl);
    RepeatIsPass(next, bl, again);
    PassOkIffPool(next, bl, again, Again(next, again), true);
  }

  lemma PoolIsKept(rows: Rows, bl: set<Subnet>, list: seq<Owner>, given: seq<IP>, ok: bool)
    requires IsPass(rows, bl, list, given, ok)
    ensures (ok <==> PoolSuffices(rows, bl)) && (ok <==> PoolSuffices(Granted(rows, list, given), bl))
    ensures list == [] ==> ok
  {
    PassOkIffPool(rows, bl, list, given, ok);
    if ok {
      PoolStaysLarge(rows, bl, list, given);
    } else {
      PoolStaysShort(rows, bl, list, given);
    }
  }

  // --------------------------------------------------------------- how a round ends

  /** The next pass of a round. */
  lemma NextPass(rows: Rows, bl: set<Subnet>, left: nat, r0: Outcome, after: Rows, r: Outcome)
    returns (list: seq<Owner>, given: seq<IP>, ok: bool)
    requires RoundFrom(rows, bl, left, r0, after, r) && left > 0
    ensures IsPass(rows, bl, list, given, ok)
    ensures list == [] ==> after == rows && r == Done
    ensures list != [] ==>
              RoundFrom(Granted(rows, list, given), bl, left - 1, if ok then Done else PoolExhausted, after, r)
  {
    list, given, ok :| IsPass(rows, bl, list, given, ok) && ContainersFirst(list) &&
      if list == [] then after == rows && r == Done
      else RoundFrom(Granted(rows, list, given), bl, left - 1, if ok then Done else PoolExhausted, after, r);
  }

  /** A round succeeds exactly if the pool suffices at its start, whichever addresses
      are drawn. */
  lemma OutcomeIffPool(rows: Rows, bl: set<Subnet>, after: Rows, r: Outcome)
    requires RoundFrom(rows, bl, 3, Done, after, r)
    ensures r == if PoolSuffices(rows, bl) then Done else PoolExhausted
  {
    OutcomeFrom(rows, bl, 3, Done, after, r);
  }

  lemma {:induction false} OutcomeFrom(rows: Rows, bl: set<Subnet>, left: nat, r0: Outcome, after: Rows, r: Outcome)
    requires RoundFrom(rows, bl, left, r0, after, r)
    requires left == 0 ==> r0 == if PoolSuffices(rows, bl) then Done else PoolExhausted
    ensures r == if PoolSuffices(rows, bl) then Done else PoolExhausted
    decreases left
  {
    if left > 0 {
      var list, given, ok := NextPass(rows, bl, left, r0, after, r);
      PoolIsKept(rows, bl, list, given, ok);
      if list != [] {
        OutcomeFrom(Granted(rows, list, given), bl, left - 1, if ok then Done else PoolExhausted, after, r);
      }
    }
  }

  /** Success always means that no row is left with a blacklisted address. */
  ghost predicate DoneIsClean(rows: Rows, bl: set<Subnet>) {
    forall after :: RoundFrom(rows, bl, 3, Done, after, Done) ==> AllSettled(after, bl)
  }

  /** If no blacklisted address is up for allocation, a pass that does not run out settles
      every row. */
  lemma PassSettles(rows: Rows, bl: set<Subnet>, list: seq<Owner>, given: seq<IP>)
    requires IsPass(rows, bl, list, given, true) && NothingBarred(bl)
    ensures AllSettled(Granted(rows, list, given), bl)
  {
    var next := Granted(rows, list, given);
    GrantedKeys(rows, list, given);
    forall k | k in next ensures Settled(next, bl, k) {
      if k in Needs(next, bl) {
        var i := Granter(rows, bl, list, given, k);
        assert false;
      }
    }
  }

  lemma {:induction false} CleanFrom(rows: Rows, bl: set<Subnet>, left: nat, r0: Outcome, after: Rows)
    requires RoundFrom(rows, bl, left, r0, after, Done) && NothingBarred(bl)
    requires left == 0 && r0 == Done ==> AllSettled(rows, bl)
    ensures AllSettled(after, bl)
    decreases left
  {
    if left > 0 {
      var list, given, ok := NextPass(rows, bl, left, r0, after, Done);
      if list == [] {
        assert forall k :: k in rows ==> k in list || Settled(rows, bl, k);
      } else {
        if ok {
          PassSettles(rows, bl, list, given);
        }
        CleanFrom(Granted(rows, list, given), bl, left - 1, if ok then Done else PoolExhausted, after);
      }
    }
  }

  /** With nothing in need the round ends at once. */
  lemma NothingToDo(rows: Rows, bl: set<Subnet>, after: Rows, r: Outcome)
    requires Needs(rows, bl) == {} && RoundFrom(rows, bl, 3, Done, after, r)
    ensures after == rows
  {
    var list, given, ok := NextPass(rows, bl, 3, Done, after, r);
    NeedySize(rows, bl, list);
  }

  /** Fresh addresses, one of which is `a`. */
  lemma DrawWith(base: set<IP>, given: seq<IP>, a: IP) returns (g: seq<IP>)
    requires FreshIPs(given, base) && |given| > 0 && Contains(KELDA, a) && a !in base
    ensures FreshIPs(g, base) && |g| == |given| && a in g
  {
    if a in given {
      g := given;
    } else {
      g := given[0 := a];
      forall i, j | 0 <= i < j < |g| ensures g[i] != g[j] {
        assert given[i] in given && given[j] in given;
      }
      forall b | b in g ensures b !in base && Contains(KELDA, b) {
        assert b == a || b in given;
      }
      assert g[0] == a;
    }
  }

  /** From rows that can be given the same again, the rest of the round may stand still. */
  lemma StandStill(rows: Rows, bl: set<Subnet>)
    requires Repeatable(rows, bl) && Needs(rows, bl) != {}
    ensures RoundFrom(rows, bl, 2, Done, rows, Done)
  {
    var list := ListNeedy(rows, bl);
    NeedySize(rows, bl, list);
    RepeatIsPass(rows, bl, list);
    assert RoundFrom(rows, bl, 0, Done, rows, Done);
    assert RoundFrom(rows, bl, 1, Done, rows, Done);
  }

  /** A pass in which `a` is drawn. */
  lemma PassWith(rows: Rows, bl: set<Subnet>, a: IP) returns (list: seq<Owner>, given: seq<IP>)
    requires Needs(rows, bl) != {} && PoolSuffices(rows, bl)
    requires Contains(KELDA, a) && a !in Base(rows, bl)
    ensures IsPass(rows, bl, list, given, true) && ContainersFirst(list) && list != [] && a in given
  {
    var some :| FreshIPs(some, Base(rows, bl)) && |some| == |Needs(rows, bl)|;
    given := DrawWith(Base(rows, bl), some, a);
    list := ListNeedy(rows, bl);
    NeedySize(rows, bl, list);
  }

  lemma DrawnIsHeld(rows: Rows, bl: set<Subnet>, list: seq<Owner>, given: seq<IP>, a: IP)
    requires IsPass(rows, bl, list, given, true) && a in given && Blacklisted(a, bl)
    ensures Held(Granted(rows, list, given), a) && Needs(Granted(rows, list, given), bl) != {}
  {
    var i :| 0 <= i < |given| && given[i] == a;
    GrantedAt(rows, list, given, list[i]);
    GrantedKeys(rows, list, given);
    assert list[i] in Needs(Granted(rows, list, given), bl);
  }

  /** A blacklisted address that is up for allocation may be drawn three times. */
  lemma BarredMayStay(rows: Rows, bl: set<Subnet>, a: IP) returns (after: Rows)
    requires Needs(rows, bl) != {} && PoolSuffices(rows, bl)
    requires Contains(KELDA, a) && Blacklisted(a, bl) && a !in SPECIAL
    ensures RoundFrom(rows, bl, 3, Done, after, Done) && Held(after, a)
  {
    var list, given := PassWith(rows, bl, a);
    after := Granted(rows, list, given);
    DrawnIsHeld(rows, bl, list, given, a);
    PassIsRepeatable(rows, bl, list, given);
    StandStill(after, bl);
  }

  /** Success means that no row is left with a blacklisted address exactly if no row is
      in need, or the pool is too small for success, or no blacklisted address is up for
      allocation. */
  lemma DoneIsCleanIff(rows: Rows, bl: set<Subnet>)
    ensures DoneIsClean(rows, bl) <==> Needs(rows, bl) == {} || !PoolSuffices(rows, bl) || NothingBarred(bl)
  {
    if Needs(rows, bl) == {} || !PoolSuffices(rows, bl) || NothingBarred(bl) {
      forall after | RoundFrom(rows, bl, 3, Done, after, Done) ensures AllSettled(after, bl) {
        OutcomeIffPool(rows, bl, after, Done);
        if NothingBarred(bl) {
          CleanFrom(rows, bl, 3, Done, after);
        } else {
          NothingToDo(rows, bl, after, Done);
          assert forall k :: k in rows ==> k in Needs(rows, bl) || Settled(rows, bl, k);
        }
      }
    } else {
      var a :| Contains(KELDA, a) && Blacklisted(a, bl) && a !in SPECIAL;
      var after := BarredMayStay(rows, bl, a);
      var k :| k in after && after[k] == Some(a);
      assert !Settled(after, bl, k);
    }
  }

  // -------------------------------------------------------------------- an example

  /** A worker that routes the whole Kelda subnet. */
  const ROUTES_ALL := [Minion(true, [0])]

  const KELDA_PARSER: Parser := KeldaParser()

  function KeldaParser(): Parser {
    KeldaIsPrefix();
    (t: SubnetText) => if t == 0 then Some(KELDA) else None
  }

  /** One container then gets an address, and the round reports success, but the address
      is blacklisted. */
  lemma BlacklistedAddressCanStay()
    ensures var rows: Rows := map[Container(1) := None];
            var bl := Relevant(Parsed(Routed(ROUTES_ALL), KELDA_PARSER));
            exists after :: RoundFrom(rows, bl, 3, Done, after, Done) && !AllSettled(after, bl)
  {
    var rows: Rows := map[Container(1) := None];
    var bl := Relevant(Parsed(Routed(ROUTES_ALL), KELDA_PARSER));
    assert ROUTES_ALL[0].worker && 0 in ROUTES_ALL[0].hostSubnets;
    assert 0 in Routed(ROUTES_ALL);
    assert KELDA_PARSER(0) == Some(KELDA);
    assert KELDA in Parsed(Routed(ROUTES_ALL), KELDA_PARSER);
    assert KELDA in bl;
    var a: IP := 0x0A00_0003;
    assert Contains(KELDA, a) && a !in SPECIAL;
    assert Needs(rows, bl) == {Container(1)};
    assert Base(rows, bl) == SPECIAL;
    assert FreshIPs([a], Base(rows, bl)) && |[a]| == |Needs(rows, bl)|;
    DoneIsCleanIff(rows, bl);
  }
}
