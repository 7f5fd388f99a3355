/** Leader election as a timed step system: masters campaign for one expiring
    key, and copy the outcome of each round into their own leader flag.

    Requests may be answered, may time out, and may still be applied long after
    they timed out. Time advances only while nobody is late: a request ends
    within its timeout, the next round starts within a tick of the last one's
    commit, and each piece of local work takes at most `d`. */
module Election {
  import opened Prelude
  import opened TTLStore

  const TTL := 30.0
  const TICK := 15.0
  const TIMEOUT := 5.0
  const LEADER: Path := 0

  datatype Kind = Creating | Refreshing
  datatype Outcome = Won | Exists | Failed

  /** `result` is None until the store applies the request. */
  datatype Request = Request(from: nat, kind: Kind, result: Option<Outcome>)

  /** A campaign loop: waiting for the tick, waiting for the store, about to
      commit an outcome, or asleep after an error. */
  datatype Phase =
    | Off
    | Waiting(due: real)
    | Calling(req: nat, due: real)
    | Deciding(outcome: Outcome, due: real)
    | Sleeping(until: real)

  datatype Minion = Minion(ip: Value, leader: bool, phase: Phase)

  datatype State = State(clock: real, entries: Entries, reqs: seq<Request>, minions: seq<Minion>)

  datatype Action =
    | Boot(i: nat)
    | Crash(i: nat)
    | Start(i: nat)
    | Reply(i: nat)
    | Fail(i: nat)
    | Commit(i: nat)
    | Wake(i: nat)
    | Deliver(r: nat)
    | Advance(dt: real)

  /** The latest time at which a minion must take its next step. */
  predicate OnTime(ph: Phase, clock: real) {
    match ph
    case Waiting(due) => clock <= due
    case Calling(_, due) => clock <= due
    case Deciding(_, due) => clock <= due
    case _ => true
  }

  predicate MinionEnabled(s: State, a: Action)
    requires !a.Deliver? && !a.Advance?
  {
    a.i < |s.minions| &&
    var ph := s.minions[a.i].phase;
    match a
    case Boot(_) => ph.Off?
    case Crash(_) => true
    case Start(_) => ph.Waiting?
    case Reply(_) => ph.Calling? && ph.req < |s.reqs| && s.reqs[ph.req].result.Some?
    case Fail(_) => ph.Calling?
    case Commit(_) => ph.Deciding?
    case Wake(_) => ph.Sleeping? && s.clock >= ph.until
  }

  predicate Enabled(s: State, a: Action) {
    match a
    case Deliver(r) => r < |s.reqs| && s.reqs[r].result.None? && s.reqs[r].from < |s.minions|
    case Advance(dt) => dt >= 0.0 && forall m :: m in s.minions ==> OnTime(m.phase, s.clock + dt)
    case _ => MinionEnabled(s, a)
  }

  /** What the store answers, and what it holds afterwards. */
  function Answer(kind: Kind, live: Entries, ip: Value): Outcome {
    match kind
    case Creating => if LEADER in live then Exists else Won
    case Refreshing => if Refreshable(live, LEADER, ip) then Won else Failed
  }

  function AfterRequest(kind: Kind, live: Entries, ip: Value, now: real): Entries {
    match kind
    case Creating => AfterCreate(live, LEADER, ip, TTL, now)
    case Refreshing => AfterRefresh(live, LEADER, ip, TTL, now)
  }

  function Committed(m: Minion, outcome: Outcome, clock: real, d: real): Minion {
    match outcome
    case Won => m.(leader := true, phase := Waiting(clock + TICK + d))
    case Exists => m.(leader := false, phase := Waiting(clock + TICK + d))
    // An unexpected error: step down and let things settle.
    case Failed => m.(leader := false, phase := Sleeping(clock + TTL))
  }

  /** The minion after one of its own steps; a round that starts sends request
      number `fresh`. */
  function Moved(m: Minion, a: Action, s: State, d: real): Minion
    requires !a.Deliver? && !a.Advance? && MinionEnabled(s, a) && m == s.minions[a.i]
  {
    match a
    case Boot(_) => m.(leader := false, phase := Waiting(s.clock + TICK + d))
    case Crash(_) => m.(leader := false, phase := Off)
    case Start(_) => m.(phase := Calling(|s.reqs|, s.clock + TIMEOUT))
    case Reply(_) => m.(phase := Deciding(s.reqs[m.phase.req].result.value, s.clock + d))
    case Fail(_) => m.(phase := Deciding(Failed, s.clock + d))
    case Commit(_) => Committed(m, m.phase.outcome, s.clock, d)
    case Wake(_) => m.(phase := Waiting(s.clock + TICK + d))
  }

  function Apply(s: State, a: Action, d: real): State
    requires Enabled(s, a)
  {
    match a
    case Advance(dt) => s.(clock := s.clock + dt)
    case Deliver(r) =>
      var q, live := s.reqs[r], Live(s.entries, s.clock);
      var ip := s.minions[q.from].ip;
      s.(entries := AfterRequest(q.kind, live, ip, s.clock),
         reqs := s.reqs[r := q.(result := Some(Answer(q.kind, live, ip)))])
    case _ =>
      var m := s.minions[a.i];
      var s' := s.(minions := s.minions[a.i := Moved(m, a, s, d)]);
      if a.Start?
      then s'.(reqs := s.reqs + [Request(a.i, if m.leader then Refreshing else Creating, None)])
      else s'
  }

  function Run(s: State, acts: seq<Action>, d: real): Option<State> {
    if acts == [] then Some(s)
    else
      var before := Run(s, acts[..|acts| - 1], d);
      if before.Some? && Enabled(before.value, acts[|acts| - 1])
      then Some(Apply(before.value, acts[|acts| - 1], d)) else None
  }

  ghost predicate DistinctIPs(ms: seq<Minion>) {
    forall i, j :: 0 <= i < j < |ms| ==> ms[i].ip != ms[j].ip
  }

  /** Nobody campaigns yet; whatever else is in the store, the leader key is
      free. */
  ghost predicate Initial(s: State) {
    DistinctIPs(s.minions) && s.reqs == [] && LEADER !in s.entries &&
    forall i :: 0 <= i < |s.minions| ==> !s.minions[i].leader && s.minions[i].phase.Off?
  }

  ghost predicate AtMostOneLeader(s: State) {
    forall i, j :: 0 <= i < j < |s.minions| ==> !(s.minions[i].leader && s.minions[j].leader)
  }

  // --------------------------------------------------------------- the invariant

  /** Minion `i`'s address holds the key at least until time `x`. */
  predicate Secure(s: State, ip: Value, x: real) {
    LEADER in s.entries && s.entries[LEADER].value == ip &&
    s.entries[LEADER].until.Some? && s.entries[LEADER].until.value >= x
  }

  /** A leader's lease outlasts the worst case until it next commits. */
  predicate LeaseCovers(s: State, m: Minion, d: real) {
    m.leader ==>
      match m.phase
      case Waiting(due) => Secure(s, m.ip, due + TIMEOUT + d)
      case Calling(_, due) => Secure(s, m.ip, due + d)
      case Deciding(_, due) => Secure(s, m.ip, due)
      case _ => false
  }

  /** A win that is on its way, or about to be committed, comes with a lease
      that covers the whole next round. */
  predicate WinCovers(s: State, m: Minion, d: real) {
    match m.phase
    case Calling(r, due) => r < |s.reqs| ==> (s.reqs[r].result == Some(Won) ==> Secure(s, m.ip, due + TTL - TIMEOUT))
    case Deciding(o, due) => o.Won? ==> Secure(s, m.ip, due + TICK + TIMEOUT + 2.0 * d)
    case _ => true
  }

  predicate WellTimed(s: State, i: nat)
    requires i < |s.minions|
  {
    var ph := s.minions[i].phase;
    OnTime(ph, s.clock) && (ph.Calling? ==> ph.req < |s.reqs| && s.reqs[ph.req].from == i && ph.due <= s.clock + TIMEOUT)
  }

  /** Leases never reach further than one TTL ahead. */
  predicate LeaseBounded(s: State) {
    LEADER in s.entries ==> s.entries[LEADER].until.Some? && s.entries[LEADER].until.value <= s.clock + TTL
  }

  ghost predicate Invariant(s: State, d: real) {
    DistinctIPs(s.minions) && LeaseBounded(s) &&
    (forall i :: 0 <= i < |s.minions| ==> WellTimed(s, i)) &&
    (forall i :: 0 <= i < |s.minions| ==> LeaseCovers(s, s.minions[i], d) && WinCovers(s, s.minions[i], d)) &&
    (forall r :: 0 <= r < |s.reqs| ==> s.reqs[r].from < |s.minions|)
  }

  /** A minion that leads has the key right now. */
  lemma LeaderHoldsKey(s: State, d: real, i: nat)
    requires Invariant(s, d) && d >= 0.0 && i < |s.minions| && s.minions[i].leader
    ensures LEADER in Live(s.entries, s.clock) && s.entries[LEADER].value == s.minions[i].ip
  {
    assert WellTimed(s, i);
    assert LeaseCovers(s, s.minions[i], d);
  }

  lemma OneHolder(s: State, d: real)
    requires Invariant(s, d) && d >= 0.0
    ensures AtMostOneLeader(s)
  {
    forall i, j | 0 <= i < j < |s.minions| ensures !(s.minions[i].leader && s.minions[j].leader) {
      if s.minions[i].leader && s.minions[j].leader {
        LeaderHoldsKey(s, d, i);
        LeaderHoldsKey(s, d, j);
        assert false;
      }
    }
  }

  /** The slack that local work has: a round, a tick and another round fit in
      one lease. */
  predicate InSlack(d: real) {
    d >= 0.0 && 3.0 * d <= TTL - TICK - 2.0 * TIMEOUT
  }

  /** Nobody else's request, however late, shortens a lease that has not run
      out. */
  lemma DeliverKeepsLease(s: State, r: nat, d: real, ip: Value, x: real)
    requires LeaseBounded(s) && Enabled(s, Deliver(r)) && Secure(s, ip, x) && s.clock <= x
    ensures Secure(Apply(s, Deliver(r), d), ip, x)
  {
  }

  lemma DeliverKeepsInvariant(s: State, r: nat, d: real)
    requires InSlack(d) && Invariant(s, d) && Enabled(s, Deliver(r))
    ensures Invariant(Apply(s, Deliver(r), d), d)
  {
    var s' := Apply(s, Deliver(r), d);
    forall i | 0 <= i < |s.minions|
      ensures WellTimed(s', i) && LeaseCovers(s', s'.minions[i], d) && WinCovers(s', s'.minions[i], d)
    {
      assert WellTimed(s, i) && LeaseCovers(s, s.minions[i], d) && WinCovers(s, s.minions[i], d);
      DeliverCovers(s, r, d, i);
    }
  }

  lemma DeliverCovers(s: State, r: nat, d: real, i: nat)
    requires InSlack(d) && LeaseBounded(s) && Enabled(s, Deliver(r)) && i < |s.minions| && WellTimed(s, i)
    requires LeaseCovers(s, s.minions[i], d) && WinCovers(s, s.minions[i], d)
    ensures var s' := Apply(s, Deliver(r), d); LeaseCovers(s', s.minions[i], d) && WinCovers(s', s.minions[i], d)
  {
    var m := s.minions[i];
    match m.phase
    case Waiting(due) => if m.leader { DeliverKeepsLease(s, r, d, m.ip, due + TIMEOUT + d); }
    case Calling(q, due) =>
      if m.leader { DeliverKeepsLease(s, r, d, m.ip, due + d); }
      if q != r && s.reqs[q].result == Some(Won) { DeliverKeepsLease(s, r, d, m.ip, due + TTL - TIMEOUT); }
    case Deciding(o, due) =>
      if m.leader { DeliverKeepsLease(s, r, d, m.ip, due); }
      if o.Won? { DeliverKeepsLease(s, r, d, m.ip, due + TICK + TIMEOUT + 2.0 * d); }
    case _ =>
  }

  lemma MinionStepCovers(s: State, a: Action, d: real)
    requires InSlack(d) && !a.Deliver? && !a.Advance? && MinionEnabled(s, a) && WellTimed(s, a.i)
    requires LeaseCovers(s, s.minions[a.i], d) && WinCovers(s, s.minions[a.i], d)
    ensures var s' := Apply(s, a, d);
      WellTimed(s', a.i) && LeaseCovers(s', s'.minions[a.i], d) && WinCovers(s', s'.minions[a.i], d)
  {
  }

  lemma MinionStepKeepsInvariant(s: State, a: Action, d: real)
    requires InSlack(d) && Invariant(s, d) && !a.Deliver? && !a.Advance? && MinionEnabled(s, a)
    ensures Invariant(Apply(s, a, d), d)
  {
    var s' := Apply(s, a, d);
    MinionStepCovers(s, a, d);
    MinionStepBounded(s, a, d);
    forall i: nat | i < |s.minions|
      ensures WellTimed(s', i) && LeaseCovers(s', s'.minions[i], d) && WinCovers(s', s'.minions[i], d)
    {
      if i != a.i {
        OthersCovered(s, a, d, i);
      }
    }
  }

  lemma MinionStepBounded(s: State, a: Action, d: real)
    requires LeaseBounded(s) && !a.Deliver? && !a.Advance? && MinionEnabled(s, a)
    ensures LeaseBounded(Apply(s, a, d)) && |Apply(s, a, d).minions| == |s.minions|
  {
  }

  /** A minion's step leaves the other minions' leases alone. */
  lemma OthersCovered(s: State, a: Action, d: real, i: nat)
    requires InSlack(d) && !a.Deliver? && !a.Advance? && MinionEnabled(s, a) && i < |s.minions| && i != a.i
    requires WellTimed(s, i) && LeaseCovers(s, s.minions[i], d) && WinCovers(s, s.minions[i], d)
    ensures var s' := Apply(s, a, d);
      WellTimed(s', i) && LeaseCovers(s', s'.minions[i], d) && WinCovers(s', s'.minions[i], d)
  {
    assert Apply(s, a, d).minions[i] == s.minions[i];
  }

  lemma AdvanceKeepsInvariant(s: State, dt: real, d: real)
    requires Invariant(s, d) && Enabled(s, Advance(dt))
    ensures Invariant(Apply(s, Advance(dt), d), d)
  {
    var s' := Apply(s, Advance(dt), d);
    forall i | 0 <= i < |s.minions|
      ensures WellTimed(s', i) && LeaseCovers(s', s'.minions[i], d) && WinCovers(s', s'.minions[i], d)
    {
      assert WellTimed(s, i) && LeaseCovers(s, s.minions[i], d) && WinCovers(s, s.minions[i], d);
    }
  }

  lemma StepKeepsInvariant(s: State, a: Action, d: real)
    requires InSlack(d) && Invariant(s, d) && Enabled(s, a)
    ensures Invariant(Apply(s, a, d), d)
  {
    match a
    case Deliver(r) => DeliverKeepsInvariant(s, r, d);
    case Advance(dt) => AdvanceKeepsInvariant(s, dt, d);
    case _ => MinionStepKeepsInvariant(s, a, d);
  }

  lemma {:induction false} InvariantHolds(s0: State, acts: seq<Action>, d: real)
    requires InSlack(d) && Initial(s0) && Run(s0, acts, d).Some?
    ensures Invariant(Run(s0, acts, d).value, d)
  {
    if acts != [] {
      InvariantHolds(s0, acts[..|acts| - 1], d);
      StepKeepsInvariant(Run(s0, acts[..|acts| - 1], d).value, acts[|acts| - 1], d);
    }
  }

  /** Safety: with local work inside the slack, no run ever has two leaders, and
      whoever leads holds the key. */
  lemma AtMostOneLeaderEver(s0: State, acts: seq<Action>, d: real)
    requires InSlack(d) && Initial(s0) && Run(s0, acts, d).Some?
    ensures var s := Run(s0, acts, d).value;
      AtMostOneLeader(s) &&
      forall i :: 0 <= i < |s.minions| && s.minions[i].leader ==>
        LEADER in Live(s.entries, s.clock) && s.entries[LEADER].value == s.minions[i].ip
  {
    InvariantHolds(s0, acts, d);
    var s := Run(s0, acts, d).value;
    OneHolder(s, d);
    forall i | 0 <= i < |s.minions| && s.minions[i].leader
      ensures LEADER in Live(s.entries, s.clock) && s.entries[LEADER].value == s.minions[i].ip
    {
      LeaderHoldsKey(s, d, i);
    }
  }

  // ----------------------------------------------------------------- runs of steps

  lemma Then(s0: State, acts: seq<Action>, s: State, a: Action, d: real)
    requires Run(s0, acts, d) == Some(s) && Enabled(s, a)
    ensures Run(s0, acts + [a], d) == Some(Apply(s, a, d))
  {
    RunSnoc(s0, acts, a, d);
  }

  lemma RunSnoc(s: State, acts: seq<Action>, a: Action, d: real)
    ensures Run(s, acts + [a], d) ==
      var before := Run(s, acts, d);
      if before.Some? && Enabled(before.value, a) then Some(Apply(before.value, a, d)) else None
  {
    assert (acts + [a])[..|acts|] == acts;
  }

  lemma {:induction false} RunOn(s: State, first: seq<Action>, second: seq<Action>, d: real)
    requires Run(s, first, d).Some? && Run(Run(s, first, d).value, second, d).Some?
    ensures Run(s, first + second, d) == Run(Run(s, first, d).value, second, d)
  {
    if second == [] {
      assert first + second == first;
    } else {
      var n := |second| - 1;
      assert second == second[..n] + [second[n]];
      RunSnoc(Run(s, first, d).value, second[..n], second[n], d);
      RunOn(s, first, second[..n], d);
      assert first + second == (first + second[..n]) + [second[n]];
      RunSnoc(s, first + second[..n], second[n], d);
    }
  }

  // ------------------------------------------------------------ what a round achieves

  /** Everybody but minion `i` is as before. */
  ghost predicate OnlyMinion(s: State, s': State, i: nat) {
    |s'.minions| == |s.minions| && s'.clock == s.clock &&
    forall j :: 0 <= j < |s.minions| && j != i ==> s'.minions[j] == s.minions[j]
  }

  /** Minion `i` can have the key now: a leader if the key is its own, anybody else if
      nobody has it. */
  predicate CanHave(s: State, i: nat)
    requires i < |s.minions|
  {
    var live := Live(s.entries, s.clock);
    if s.minions[i].leader then LEADER in live && live[LEADER].value == s.minions[i].ip else LEADER !in live
  }

  function Round(s: State, i: nat): seq<Action> {
    [Start(i), Deliver(|s.reqs|), Reply(i), Commit(i)]
  }

  lemma RoundSteps(s: State, d: real, i: nat) returns (s1: State, s2: State, s3: State)
    requires i < |s.minions| && s.minions[i].phase.Waiting?
    ensures Enabled(s, Start(i)) && s1 == Apply(s, Start(i), d)
    ensures Enabled(s1, Deliver(|s.reqs|)) && s2 == Apply(s1, Deliver(|s.reqs|), d)
    ensures Enabled(s2, Reply(i)) && s3 == Apply(s2, Reply(i), d)
    ensures Enabled(s3, Commit(i)) && Run(s, Round(s, i), d) == Some(Apply(s3, Commit(i), d))
  {
    var r := |s.reqs|;
    s1 := Apply(s, Start(i), d);
    Then(s, [], s, Start(i), d);
    var acts := [Start(i)];
    s2 := Apply(s1, Deliver(r), d);
    Then(s, acts, s1, Deliver(r), d);
    acts := acts + [Deliver(r)];
    s3 := Apply(s2, Reply(i), d);
    Then(s, acts, s2, Reply(i), d);
    acts := acts + [Reply(i)];
    Then(s, acts, s3, Commit(i), d);
    assert acts + [Commit(i)] == Round(s, i);
  }

  /** A round that is answered at once makes the minion leader exactly if it can have the
      key, and then the key is its own for another TTL; otherwise the store keeps what it
      had.  A leader whose refresh is refused sleeps, a candidate tries again. */
  lemma RoundWinsIffCanHave(s: State, d: real, i: nat)
    requires i < |s.minions| && s.minions[i].phase.Waiting?
    ensures Run(s, Round(s, i), d).Some?
    ensures var s', m := Run(s, Round(s, i), d).value, s.minions[i];
            && OnlyMinion(s, s', i) && s'.minions[i].ip == m.ip
            && (s'.minions[i].leader <==> CanHave(s, i))
            && s'.entries == (if CanHave(s, i) then Live(s.entries, s.clock)[LEADER := Lease(m.ip, Some(s.clock + 30.0))]
                              else Live(s.entries, s.clock))
            && s'.minions[i].phase == (if m.leader && !CanHave(s, i) then Sleeping(s.clock + 30.0)
                                       else Waiting(s.clock + 15.0 + d))
  {
    var s1, s2, s3 := RoundSteps(s, d, i);
  }

  /** A round without an answer ends the leadership, and leaves the store alone. */
  lemma RoundWithoutAnswer(s: State, d: real, i: nat)
    requires i < |s.minions| && s.minions[i].phase.Waiting?
    ensures Run(s, [Start(i), Fail(i), Commit(i)], d).Some?
    ensures var s' := Run(s, [Start(i), Fail(i), Commit(i)], d).value;
            && OnlyMinion(s, s', i) && s'.entries == s.entries
            && s'.minions[i] == s.minions[i].(leader := false, phase := Sleeping(s.clock + 30.0))
  {
    var s1 := Apply(s, Start(i), d);
    Then(s, [], s, Start(i), d);
    var s2 := Apply(s1, Fail(i), d);
    Then(s, [Start(i)], s1, Fail(i), d);
    Then(s, [Start(i), Fail(i)], s2, Commit(i), d);
    assert [Start(i), Fail(i)] + [Commit(i)] == [Start(i), Fail(i), Commit(i)];
  }

  /** Out of and into the loop: a minion starts and restarts without leading, may crash at
      any time, and after an error comes back once its sleep is over. */
  lemma ComesAndGoes(s: State, d: real, i: nat)
    requires i < |s.minions|
    ensures Enabled(s, Crash(i)) && Apply(s, Crash(i), d).minions[i] == Minion(s.minions[i].ip, false, Off)
    ensures s.minions[i].phase.Off? ==>
              && Enabled(s, Boot(i))
              && Apply(s, Boot(i), d).minions[i] == Minion(s.minions[i].ip, false, Waiting(s.clock + 15.0 + d))
    ensures s.minions[i].phase.Sleeping? && s.clock >= s.minions[i].phase.until ==>
              && Enabled(s, Wake(i))
              && Apply(s, Wake(i), d).minions[i] == s.minions[i].(phase := Waiting(s.clock + 15.0 + d))
  {
  }

  /** A minion's leader flag changes only when it commits the outcome of a round, starts or
      crashes; its address never does. */
  lemma FlagChangesAtCommit(s: State, a: Action, d: real, i: nat)
    requires Enabled(s, a) && i < |s.minions|
    ensures |Apply(s, a, d).minions| == |s.minions| && Apply(s, a, d).minions[i].ip == s.minions[i].ip
    ensures a != Commit(i) && a != Boot(i) && a != Crash(i) ==>
              Apply(s, a, d).minions[i].leader == s.minions[i].leader
  {
  }

  /** A request that its sender has given up on may still be applied, and take the key. */
  lemma LateRequestCounts(s: State, d: real, i: nat)
    requires i < |s.minions| && s.minions[i].phase.Waiting? && !s.minions[i].leader && LEADER !in Live(s.entries, s.clock)
    ensures Run(s, [Start(i), Fail(i), Commit(i), Deliver(|s.reqs|)], d).Some?
    ensures var s' := Run(s, [Start(i), Fail(i), Commit(i), Deliver(|s.reqs|)], d).value;
            && i < |s'.minions| && !s'.minions[i].leader
            && LEADER in s'.entries && s'.entries[LEADER] == Lease(s.minions[i].ip, Some(s.clock + 30.0))
  {
    var s1 := Apply(s, Start(i), d);
    Then(s, [], s, Start(i), d);
    var acts := [Start(i)];
    var s2 := Apply(s1, Fail(i), d);
    Then(s, acts, s1, Fail(i), d);
    acts := acts + [Fail(i)];
    var s3 := Apply(s2, Commit(i), d);
    Then(s, acts, s2, Commit(i), d);
    acts := acts + [Commit(i)];
    Then(s, acts, s3, Deliver(|s.reqs|), d);
    assert acts + [Deliver(|s.reqs|)] == [Start(i), Fail(i), Commit(i), Deliver(|s.reqs|)];
  }

  /** A leader's request is a refresh, and is refused only by not being answered. */
  predicate AsksToStay(s: State, m: Minion) {
    m.leader ==>
      match m.phase
      case Calling(r, _) =>
        r < |s.reqs| && s.reqs[r].kind == Refreshing && (s.reqs[r].result == None || s.reqs[r].result == Some(Won))
      case Deciding(o, _) => !o.Exists?
      case _ => true
  }

  ghost predicate AllAskToStay(s: State) {
    forall i :: 0 <= i < |s.minions| ==> AsksToStay(s, s.minions[i])
  }

  lemma DeliverKeepsAsking(s: State, r: nat, d: real, i: nat)
    requires InSlack(d) && Invariant(s, d) && AllAskToStay(s) && Enabled(s, Deliver(r)) && i < |s.minions|
    ensures AsksToStay(Apply(s, Deliver(r), d), s.minions[i])
  {
    assert AsksToStay(s, s.minions[i]) && WellTimed(s, i);
    if s.minions[i].leader {
      LeaderHoldsKey(s, d, i);
    }
  }

  lemma StepKeepsAsking(s: State, a: Action, d: real)
    requires InSlack(d) && Invariant(s, d) && AllAskToStay(s) && Enabled(s, a)
    ensures AllAskToStay(Apply(s, a, d))
  {
    var s' := Apply(s, a, d);
    forall i: nat | i < |s'.minions| ensures AsksToStay(s', s'.minions[i]) {
      assert AsksToStay(s, s.minions[i]);
      if a.Deliver? {
        DeliverKeepsAsking(s, a.r, d, i);
      }
    }
  }

  lemma {:induction false} AskingHolds(s0: State, acts: seq<Action>, d: real)
    requires InSlack(d) && Initial(s0) && Run(s0, acts, d).Some?
    ensures AllAskToStay(Run(s0, acts, d).value)
  {
    if acts != [] {
      var before := acts[..|acts| - 1];
      AskingHolds(s0, before, d);
      InvariantHolds(s0, before, d);
      StepKeepsAsking(Run(s0, before, d).value, acts[|acts| - 1], d);
    }
  }

  /** Whatever has happened before, and whatever else is going on: when the store answers
      a leader, the leader stays, with a lease that covers its whole next round. */
  lemma AnsweredLeaderStays(s0: State, acts: seq<Action>, d: real, i: nat)
    requires InSlack(d) && Initial(s0) && Run(s0, acts, d).Some?
    requires var s := Run(s0, acts, d).value; i < |s.minions| && s.minions[i].leader && Enabled(s, Reply(i))
    ensures Run(s0, acts + [Reply(i)] + [Commit(i)], d).Some?
    ensures var s, s' := Run(s0, acts, d).value, Run(s0, acts + [Reply(i)] + [Commit(i)], d).value;
            && i < |s'.minions| && s'.minions[i].leader
            && Secure(s', s.minions[i].ip, s.clock + TICK + TIMEOUT + 3.0 * d)
  {
    var s := Run(s0, acts, d).value;
    AskingHolds(s0, acts, d);
    assert AsksToStay(s, s.minions[i]);
    var s1 := Apply(s, Reply(i), d);
    Then(s0, acts, s, Reply(i), d);
    Then(s0, acts + [Reply(i)], s1, Commit(i), d);
    InvariantHolds(s0, acts + [Reply(i)], d);
    assert WinCovers(s1, s1.minions[i], d);
  }

  lemma WaitingLeaderRenews(s: State, d: real, i: nat)
    requires InSlack(d) && Invariant(s, d) && i < |s.minions| && s.minions[i].leader && s.minions[i].phase.Waiting?
    ensures Run(s, Round(s, i), d).Some?
    ensures var s' := Run(s, Round(s, i), d).value;
            && OnlyMinion(s, s', i) && s'.minions[i].leader
            && LEADER in s'.entries && s'.entries[LEADER] == Lease(s.minions[i].ip, Some(s.clock + 30.0))
  {
    LeaderHoldsKey(s, d, i);
    RoundWinsIffCanHave(s, d, i);
  }

  /** From every reachable state a waiting leader can renew: its round is answered, it
      stays leader, and its key lasts a full TTL from now. */
  lemma LeaderRenews(s0: State, acts: seq<Action>, d: real, i: nat)
    requires InSlack(d) && Initial(s0) && Run(s0, acts, d).Some?
    requires var s := Run(s0, acts, d).value; i < |s.minions| && s.minions[i].leader && s.minions[i].phase.Waiting?
    ensures var s := Run(s0, acts, d).value;
            && Run(s0, acts + Round(s, i), d).Some?
            && var s' := Run(s0, acts + Round(s, i), d).value;
               && i < |s'.minions| && s'.minions[i].leader
               && LEADER in s'.entries && s'.entries[LEADER] == Lease(s.minions[i].ip, Some(s.clock + 30.0))
  {
    var s := Run(s0, acts, d).value;
    InvariantHolds(s0, acts, d);
    WaitingLeaderRenews(s, d, i);
    RunOn(s0, acts, Round(s, i), d);
  }

  // -------------------------------------------------------- the slack is exact

  /** Only minion 0 is up: it leads, and has just committed so. */
  ghost predicate FirstLeads(s: State, t: real, d: real) {
    |s.minions| >= 2 && |s.reqs| == 1 && s.clock == t + TIMEOUT + d &&
    s.minions[0].leader && s.minions[0].phase == Waiting(t + TIMEOUT + TICK + 2.0 * d) &&
    LEADER in s.entries && s.entries[LEADER].until == Some(t + TTL) &&
    forall i :: 1 <= i < |s.minions| ==> s.minions[i].phase.Off?
  }

  /** Minion 0 alone has called the store, which has given it the key. */
  ghost predicate FirstCalled(s: State, t: real) {
    |s.minions| >= 2 && |s.reqs| == 1 && s.clock == t && s.reqs[0] == Request(0, Creating, Some(Won)) &&
    s.minions[0].phase == Calling(0, t + TIMEOUT) &&
    LEADER in s.entries && s.entries[LEADER].until == Some(t + TTL) &&
    forall i :: 1 <= i < |s.minions| ==> s.minions[i].phase.Off?
  }

  lemma FirstCalls(s0: State, d: real) returns (acts: seq<Action>)
    requires Initial(s0) && |s0.minions| >= 2 && d >= 0.0
    ensures Run(s0, acts, d).Some? && FirstCalled(Run(s0, acts, d).value, s0.clock)
  {
    acts := [Boot(0)];
    Then(s0, [], s0, Boot(0), d);
    var s1 := Apply(s0, Boot(0), d);
    Then(s0, acts, s1, Start(0), d);
    acts := acts + [Start(0)];
    var s2 := Apply(s1, Start(0), d);
    Then(s0, acts, s2, Deliver(0), d);
    acts := acts + [Deliver(0)];
  }

  lemma FirstLetsTimePass(s: State, dt: real)
    requires |s.minions| > 0 && dt >= 0.0 && OnTime(s.minions[0].phase, s.clock + dt)
    requires forall i :: 1 <= i < |s.minions| ==> s.minions[i].phase.Off?
    ensures Enabled(s, Advance(dt))
  {
  }

  lemma FirstHears(s: State, t: real, d: real) returns (acts: seq<Action>)
    requires FirstCalled(s, t) && d >= 0.0
    ensures Run(s, acts, d).Some? && FirstLeads(Run(s, acts, d).value, t, d)
  {
    acts := [Advance(TIMEOUT)];
    FirstLetsTimePass(s, TIMEOUT);
    Then(s, [], s, Advance(TIMEOUT), d);
    var s1 := Apply(s, Advance(TIMEOUT), d);
    Then(s, acts, s1, Reply(0), d);
    acts := acts + [Reply(0)];
    var s2 := Apply(s1, Reply(0), d);
    FirstLetsTimePass(s2, d);
    Then(s, acts, s2, Advance(d), d);
    acts := acts + [Advance(d)];
    var s3 := Apply(s2, Advance(d), d);
    Then(s, acts, s3, Commit(0), d);
    acts := acts + [Commit(0)];
  }

  lemma FirstWins(s0: State, d: real) returns (acts: seq<Action>)
    requires Initial(s0) && |s0.minions| >= 2 && d >= 0.0
    ensures Run(s0, acts, d).Some? && FirstLeads(Run(s0, acts, d).value, s0.clock, d)
  {
    var a := FirstCalls(s0, d);
    var b := FirstHears(Run(s0, a, d).value, s0.clock, d);
    RunOn(s0, a, b, d);
    acts := a + b;
  }

  /** Minion 0 still leads; its second round failed and is about to be committed. */
  ghost predicate FirstLate(s: State, t: real, d: real) {
    |s.minions| >= 2 && s.clock == t + TICK + 2.0 * TIMEOUT + 3.0 * d &&
    s.minions[0].leader && s.minions[0].phase == Deciding(Failed, s.clock) &&
    LEADER in s.entries && s.entries[LEADER].until == Some(t + TTL) &&
    forall i :: 1 <= i < |s.minions| ==> s.minions[i].phase.Off?
  }

  /** Minion 0 still leads and waits for an answer that will not come. */
  ghost predicate FirstRefreshing(s: State, t: real, d: real) {
    |s.minions| >= 2 && s.clock == t + TICK + TIMEOUT + 2.0 * d &&
    s.minions[0].leader && s.minions[0].phase.Calling? && s.minions[0].phase.due == s.clock + TIMEOUT &&
    LEADER in s.entries && s.entries[LEADER].until == Some(t + TTL) &&
    forall i :: 1 <= i < |s.minions| ==> s.minions[i].phase.Off?
  }

  lemma FirstRefreshes(s: State, t: real, d: real) returns (acts: seq<Action>)
    requires FirstLeads(s, t, d) && d >= 0.0
    ensures Run(s, acts, d).Some? && FirstRefreshing(Run(s, acts, d).value, t, d)
  {
    acts := [Advance(TICK + d)];
    FirstLetsTimePass(s, TICK + d);
    Then(s, [], s, Advance(TICK + d), d);
    var s1 := Apply(s, Advance(TICK + d), d);
    Then(s, acts, s1, Start(0), d);
    acts := acts + [Start(0)];
  }

  lemma FirstTimesOut(s: State, t: real, d: real) returns (acts: seq<Action>)
    requires FirstRefreshing(s, t, d) && d >= 0.0
    ensures Run(s, acts, d).Some? && FirstLate(Run(s, acts, d).value, t, d)
  {
    acts := [Advance(TIMEOUT)];
    FirstLetsTimePass(s, TIMEOUT);
    Then(s, [], s, Advance(TIMEOUT), d);
    var s1 := Apply(s, Advance(TIMEOUT), d);
    Then(s, acts, s1, Fail(0), d);
    acts := acts + [Fail(0)];
    var s2 := Apply(s1, Fail(0), d);
    FirstLetsTimePass(s2, d);
    Then(s, acts, s2, Advance(d), d);
    acts := acts + [Advance(d)];
  }

  lemma FirstLosesTouch(s: State, t: real, d: real) returns (acts: seq<Action>)
    requires FirstLeads(s, t, d) && d >= 0.0
    ensures Run(s, acts, d).Some? && FirstLate(Run(s, acts, d).value, t, d)
  {
    var a := FirstRefreshes(s, t, d);
    var b := FirstTimesOut(Run(s, a, d).value, t, d);
    RunOn(s, a, b, d);
    acts := a + b;
  }

  /** Minion 1 finds the key expired and takes it at once. */
  lemma SecondWins(s: State, t: real, d: real) returns (acts: seq<Action>)
    requires FirstLate(s, t, d) && d >= 0.0 && !InSlack(d)
    ensures Run(s, acts, d).Some? && !AtMostOneLeader(Run(s, acts, d).value)
  {
    var s1 := Apply(s, Boot(1), d);
    Then(s, [], s, Boot(1), d);
    RoundWinsIffCanHave(s1, d, 1);
    acts := [Boot(1)] + Round(s1, 1);
    RunOn(s, [Boot(1)], Round(s1, 1), d);
    var s2 := Run(s1, Round(s1, 1), d).value;
    assert CanHave(s1, 1);
    assert 0 < 1 < |s2.minions| && s2.minions[0].leader && s2.minions[1].leader;
  }

  ghost predicate SafeForever(s0: State, d: real) {
    forall acts :: Run(s0, acts, d).Some? ==> AtMostOneLeader(Run(s0, acts, d).value)
  }

  /** The bound is exact: with two or more masters, every run is safe if and
      only if local work stays within the slack that the constants leave. */
  lemma SafeIffInSlack(s0: State, d: real)
    requires Initial(s0) && |s0.minions| >= 2 && d >= 0.0
    ensures SafeForever(s0, d) <==> 3.0 * d <= 5.0
  {
    if InSlack(d) {
      forall acts | Run(s0, acts, d).Some? ensures AtMostOneLeader(Run(s0, acts, d).value) {
        AtMostOneLeaderEver(s0, acts, d);
      }
    } else {
      var a := FirstWins(s0, d);
      var b := FirstLosesTouch(Run(s0, a, d).value, s0.clock, d);
      RunOn(s0, a, b, d);
      var c := SecondWins(Run(s0, a + b, d).value, s0.clock, d);
      RunOn(s0, a + b, c, d);
      assert !AtMostOneLeader(Run(s0, a + b + c, d).value);
    }
  }
}
