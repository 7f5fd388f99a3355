/** Bringing the machine table in line with the blueprint. */
module BlueprintSync {
  import opened Prelude
  import opened Matching
  import opened RoleMatching
  import opened Join
  import opened Machines
  import opened CloudSync
  import opened BlueprintPlan

  method RefreshPairs(view: View, pairs: seq<(Machine, Machine)>) returns (updateIPs: seq<Machine>)
    requires view.Valid() && IDs(RefreshAll(pairs)) <= view.rows.Keys
    modifies view`rows
    ensures view.Valid() && view.rows == Overlay(old(view.rows), RefreshAll(pairs))
    ensures updateIPs == IPUpdates(pairs)
  {
    updateIPs := [];
    for b := 0 to |pairs|
      invariant view.Valid() && view.rows == Overlay(old(view.rows), RefreshAll(pairs[..b]))
      invariant IDs(RefreshAll(pairs)) <= view.rows.Keys
      invariant updateIPs == IPUpdates(pairs[..b])
    {
      RefreshOne(old(view.rows), pairs, b);
      var dbm := Refresh(pairs[b]);
      assert dbm == RefreshAll(pairs)[b];
      view.Commit(dbm);
      if dbm.role != NoRole && pairs[b].0.floatingIP != dbm.floatingIP {
        updateIPs := updateIPs + [dbm.(floatingIP := pairs[b].0.floatingIP)];
      }
    }
    TakeAll(pairs);
  }

  lemma RefreshOne(rows: Rows, pairs: seq<(Machine, Machine)>, b: nat)
    requires b < |pairs|
    ensures var dbm := Refresh(pairs[b]);
            Overlay(rows, RefreshAll(pairs[..b + 1])) == Overlay(rows, RefreshAll(pairs[..b]))[dbm.id := dbm]
    ensures pairs[..b + 1][..b] == pairs[..b]
  {
    TakeSnoc(pairs, b);
    assert RefreshAll(pairs[..b + 1]) == RefreshAll(pairs[..b]) + [Refresh(pairs[b])];
    OverlaySnoc(rows, RefreshAll(pairs[..b]), Refresh(pairs[b]));
  }

  /** Draws an ID, requests the machine under it and stores it without a role. */
  method BootMachine(view: View, bpm: Machine) returns (request: Machine)
    requires view.Valid()
    modifies view
    ensures view.Valid() && view.curID == old(view.curID) + 1 && request == BootRequest(bpm, view.curID)
    ensures view.rows == old(view.rows)[view.curID := BootRow(bpm, view.curID)]
    ensures RowBooting(old(view.rows), view.rows, request, bpm)
  {
    ghost var before := view.rows;
    var dbm := view.InsertMachine();
    request := BootRequest(bpm, dbm.id);
    view.Commit(BootRow(bpm, dbm.id));
    UpdateTwice(before, dbm.id, dbm, BootRow(bpm, dbm.id));
  }

  /** The first `b` machines have been requested and stored. */
  ghost predicate Booted(rows0: Rows, cur0: int, missing: seq<Machine>, b: nat, rows: Rows, cur: int, boot: seq<Machine>) {
    b <= |missing| && cur == cur0 + b &&
    rows == Overlay(rows0, BootRows(cur0, missing[..b])) && boot == BootRequests(cur0, missing[..b])
  }

  lemma BootInOrder(rows0: Rows, cur0: int, missing: seq<Machine>, b: nat, rows: Rows, cur: int, boot: seq<Machine>)
    requires b < |missing| && Booted(rows0, cur0, missing, b, rows, cur, boot)
    ensures Booted(rows0, cur0, missing, b + 1, rows[cur + 1 := BootRow(missing[b], cur + 1)], cur + 1,
                   boot + [BootRequest(missing[b], cur + 1)])
  {
    BootOne(rows0, cur0, missing, b);
  }

  lemma BootStep(rows0: Rows, cur0: int, missing: seq<Machine>, b: nat, rows: Rows, cur: int, boot: seq<Machine>,
                 rows': Rows, boot': seq<Machine>)
    requires b < |missing| && Booted(rows0, cur0, missing, b, rows, cur, boot)
    requires rows' == rows[cur + 1 := BootRow(missing[b], cur + 1)] && boot' == boot + [BootRequest(missing[b], cur + 1)]
    ensures Booted(rows0, cur0, missing, b + 1, rows', cur + 1, boot')
  {
    BootInOrder(rows0, cur0, missing, b, rows, cur, boot);
  }

  lemma NoneBooted(rows: Rows, cur: int, missing: seq<Machine>)
    ensures Booted(rows, cur, missing, 0, rows, cur, [])
  {
  }

  lemma AllBooted(rows0: Rows, cur0: int, missing: seq<Machine>, rows: Rows, cur: int, boot: seq<Machine>)
    requires Booted(rows0, cur0, missing, |missing|, rows, cur, boot)
    ensures rows == Overlay(rows0, BootRows(cur0, missing)) && boot == BootRequests(cur0, missing)
  {
    TakeAll(missing);
  }

  method BootNext(view: View, missing: seq<Machine>, b: nat, boot0: seq<Machine>, ghost rows: Rows, ghost cur: int)
    returns (boot: seq<Machine>)
    requires view.Valid() && b < |missing| && Booted(rows, cur, missing, b, view.rows, view.curID, boot0)
    modifies view
    ensures view.Valid() && Booted(rows, cur, missing, b + 1, view.rows, view.curID, boot)
  {
    ghost var before, id := view.rows, view.curID;
    var request := BootMachine(view, missing[b]);
    boot := boot0 + [request];
    BootStep(rows, cur, missing, b, before, id, boot0, view.rows, boot);
  }

  method BootMissing(view: View, missing: seq<Machine>) returns (boot: seq<Machine>)
    requires view.Valid()
    modifies view
    ensures view.Valid() && view.curID == old(view.curID) + |missing|
    ensures view.rows == Overlay(old(view.rows), BootRows(old(view.curID), missing))
    ensures boot == BootRequests(old(view.curID), missing)
  {
    boot := [];
    ghost var rows, cur := view.rows, view.curID;
    NoneBooted(rows, cur, missing);
    for b := 0 to |missing|
      invariant view.Valid() && Booted(rows, cur, missing, b, view.rows, view.curID, boot)
    {
      boot := BootNext(view, missing, b, boot, rows, cur);
    }
    AllBooted(rows, cur, missing, view.rows, view.curID, boot);
  }

  lemma BootOne(rows: Rows, cur: int, missing: seq<Machine>, b: nat)
    requires b < |missing|
    ensures var row := BootRow(missing[b], cur + 1 + b);
            Overlay(rows, BootRows(cur, missing[..b + 1])) == Overlay(rows, BootRows(cur, missing[..b]))[row.id := row]
    ensures BootRequests(cur, missing[..b + 1])
         == BootRequests(cur, missing[..b]) + [BootRequest(missing[b], cur + 1 + b)]
  {
    var row := BootRow(missing[b], cur + 1 + b);
    TakeSnoc(missing, b);
    assert BootRows(cur, missing[..b + 1]) == BootRows(cur, missing[..b]) + [row];
    OverlaySnoc(rows, BootRows(cur, missing[..b]), row);
  }

  /** Pairs the blueprint's machines with the rows of the place; what cannot be
      paired is booted or stopped. */
  method SyncDBWithBlueprint(view: View, p: Place, bpms: seq<Machine>)
    returns (boot: seq<Machine>, terminate: seq<Machine>, updateIPs: seq<Machine>, isActive: bool, ghost order: seq<Machine>)
    requires view.Valid() && AllIn(bpms, p)
    modifies view
    ensures view.Valid() && Enumerates(order, old(view.rows), p)
    ensures var m := Pairing(bpms, order, p);
            && view.rows == Overlay(old(view.rows), PlannedRows(old(view.curID), bpms, order, m))
            && view.curID == old(view.curID) + |boot|
            && boot == BootRequests(old(view.curID), Missing(bpms, m))
            && terminate == StopAll(Surplus(order, m))
            && updateIPs == IPUpdates(PairUp(bpms, order, m))
    ensures var m := Pairing(bpms, order, p);
            && Applied(old(view.rows), p, bpms, order, m, view.rows, boot)
            && |terminate| == |Surplus(order, m)|
            && forall k :: 0 <= k < |terminate| ==> Stopped(terminate[k], Surplus(order, m)[k])
    ensures isActive <==> bpms != [] || order != []
  {
    var dbms := view.SelectMachines(p);
    order := dbms;
    isActive := |bpms| > 0 || |dbms| > 0;
    var pairs, missing, extra := Join.Join(bpms, dbms, SCORE);
    JoinMakesPairing(bpms, dbms, p);
    PairingIsPlan(bpms, dbms, p);
    PlanApplied(view.rows, view.curID, p, bpms, order, Pairing(bpms, order, p));
    boot, terminate, updateIPs := Apply(view, pairs, missing, extra, p, bpms, order, Pairing(bpms, order, p));
  }

  method Apply(view: View, pairs: seq<(Machine, Machine)>, missing: seq<Machine>, extra: seq<Machine>,
               ghost p: Place, ghost bpms: seq<Machine>, ghost order: seq<Machine>, ghost m: seq<Edge>)
    returns (boot: seq<Machine>, terminate: seq<Machine>, updateIPs: seq<Machine>)
    requires view.Valid() && Enumerates(order, view.rows, p) && InRange(m, |bpms|, |order|)
    requires pairs == PairUp(bpms, order, m) && missing == Missing(bpms, m) && extra == Surplus(order, m)
    modifies view
    ensures view.Valid() && view.curID == old(view.curID) + |missing|
    ensures view.rows == Overlay(old(view.rows), PlannedRows(old(view.curID), bpms, order, m))
    ensures boot == BootRequests(old(view.curID), missing)
    ensures terminate == StopAll(extra) && updateIPs == IPUpdates(pairs)
  {
    RowsPresent(view.rows, p, bpms, order, m);
    updateIPs := RefreshPairs(view, pairs);
    OverlayKeys(old(view.rows), RefreshAll(pairs));
    terminate := StopAll(extra);
    view.CommitAll(terminate);
    boot := BootMissing(view, missing);
    OverlayConcat(old(view.rows), RefreshAll(pairs), terminate);
    OverlayConcat(old(view.rows), RefreshAll(pairs) + terminate, BootRows(old(view.curID), missing));
  }

  lemma RowsPresent(rows: Rows, p: Place, bpms: seq<Machine>, order: seq<Machine>, m: seq<Edge>)
    requires Enumerates(order, rows, p) && InRange(m, |bpms|, |order|)
    ensures IDs(RefreshAll(PairUp(bpms, order, m))) <= rows.Keys
    ensures IDs(StopAll(Surplus(order, m))) <= rows.Keys
  {
    forall id | id in IDs(RefreshAll(PairUp(bpms, order, m))) ensures id in rows {
      var i := IDAt(RefreshAll(PairUp(bpms, order, m)), id);
      assert id == order[m[i].r].id;
    }
    forall id | id in IDs(StopAll(Surplus(order, m))) ensures id in rows {
      var i := IDAt(StopAll(Surplus(order, m)), id);
    }
  }

  lemma {:induction false} OverlayConcat(rows: Rows, a: seq<Machine>, b: seq<Machine>)
    ensures Overlay(rows, a + b) == Overlay(Overlay(rows, a), b)
  {
    if b == [] {
      assert a + b == a;
    } else {
      var n := |b| - 1;
      OverlayConcat(rows, a, b[..n]);
      TakeSnoc(b, n);
      TakeAll(b);
      assert a + b == (a + b[..n]) + [b[n]];
      OverlaySnoc(rows, a + b[..n], b[n]);
      OverlaySnoc(Overlay(rows, a), b[..n], b[n]);
    }
  }
}
