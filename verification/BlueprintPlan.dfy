/** What bringing the machine table in line with the blueprint should do: which rows
    are refreshed, stopped or added, and how each of them looks afterwards. */
module BlueprintPlan {
  import opened Prelude
  import opened Matching
  import opened RoleMatching
  import opened Join
  import opened Machines
  import opened CloudSync
  import opened CloudKeep

  function ConnectionStatus(m: Machine): Status {
    if m.publicIP != EMPTY && m.connected then Connected
    else if m.status == Connected || m.status == Reconnecting then Reconnecting
    else if m.publicIP != EMPTY then Connecting
    else NoStatus
  }

  /** The row of a paired machine afterwards: the blueprint's keys, a current status, and
      everything else as it was. */
  ghost predicate Refreshed(row: Machine, dbm: Machine, bpm: Machine) {
    var linked, once := dbm.publicIP != EMPTY && dbm.connected, dbm.status == Connected || dbm.status == Reconnecting;
    && Reports(row, dbm) && row.id == dbm.id && row.role == dbm.role && row.connected == dbm.connected
    && row.sshKeys == bpm.sshKeys
    && (linked ==> row.status == Connected)
    && (!linked && once ==> row.status == Reconnecting)
    && (!linked && !once && dbm.publicIP != EMPTY ==> row.status == Connecting)
    && (!linked && !once && dbm.publicIP == EMPTY ==> row.status == dbm.status)
  }

  /** A paired row takes the blueprint's keys and a current status. */
  function Refresh(pair: (Machine, Machine)): (row: Machine)
    ensures Refreshed(row, pair.1, pair.0)
  {
    var dbm := pair.1.(sshKeys := pair.0.sshKeys);
    var status := ConnectionStatus(dbm);
    if status != NoStatus then dbm.(status := status) else dbm
  }

  /** The row of an unpaired machine afterwards: it is stopping, and otherwise as it was. */
  ghost predicate Stopped(row: Machine, dbm: Machine) {
    && Reports(row, dbm) && row.id == dbm.id && row.role == dbm.role && row.connected == dbm.connected
    && row.sshKeys == dbm.sshKeys && row.status == Stopping
  }

  function Stop(dbm: Machine): (row: Machine)
    ensures Stopped(row, dbm)
  {
    dbm.(status := Stopping)
  }

  /** The machine `bpm` of the blueprint, booting, with the given role. */
  ghost predicate BootsAs(m: Machine, bpm: Machine, role: Role) {
    && Reports(m, bpm) && m.sshKeys == bpm.sshKeys && m.connected == bpm.connected
    && m.role == role && m.status == Booting
  }

  /** What is asked of the provider for a missing machine: that machine, with its role ... */
  function BootRequest(bpm: Machine, id: int): (m: Machine)
    ensures m.id == id && BootsAs(m, bpm, bpm.role)
  {
    bpm.(id := id, status := Booting)
  }

  /** ... and the row that stands for it: the role is left open until the foreman connects. */
  function BootRow(bpm: Machine, id: int): (m: Machine)
    ensures m.id == id && BootsAs(m, bpm, NoRole)
  {
    BootRequest(bpm, id).(role := NoRole)
  }

  function RefreshAll(pairs: seq<(Machine, Machine)>): (r: seq<Machine>)
    ensures |r| == |pairs| && forall i :: 0 <= i < |pairs| ==> r[i] == Refresh(pairs[i])
  {
    seq(|pairs|, i requires 0 <= i < |pairs| => Refresh(pairs[i]))
  }

  function StopAll(ms: seq<Machine>): (r: seq<Machine>)
    ensures |r| == |ms| && forall i :: 0 <= i < |ms| ==> r[i] == Stop(ms[i])
  {
    seq(|ms|, i requires 0 <= i < |ms| => Stop(ms[i]))
  }

  function BootRequests(cur: int, ms: seq<Machine>): (r: seq<Machine>)
    ensures |r| == |ms| && forall i :: 0 <= i < |ms| ==> r[i] == BootRequest(ms[i], cur + 1 + i)
  {
    seq(|ms|, i requires 0 <= i < |ms| => BootRequest(ms[i], cur + 1 + i))
  }

  function BootRows(cur: int, ms: seq<Machine>): (r: seq<Machine>)
    ensures |r| == |ms| && forall i :: 0 <= i < |ms| ==> r[i] == BootRow(ms[i], cur + 1 + i)
  {
    seq(|ms|, i requires 0 <= i < |ms| => BootRow(ms[i], cur + 1 + i))
  }

  /** The floating IPs to move: only for rows whose role is known. */
  function IPUpdates(pairs: seq<(Machine, Machine)>): (r: seq<Machine>) {
    if pairs == [] then []
    else
      var n := |pairs| - 1;
      var bpm, dbm := pairs[n].0, pairs[n].1;
      IPUpdates(pairs[..n])
        + if dbm.role != NoRole && bpm.floatingIP != dbm.floatingIP
          then [Refresh(pairs[n]).(floatingIP := bpm.floatingIP)] else []
  }

  /** The update for a pair, if there is one: the role of the row is known, and its
      address is not the one the blueprint asks for. */
  predicate MovesIP(pair: (Machine, Machine), u: Machine) {
    pair.1.role != NoRole && pair.1.floatingIP != pair.0.floatingIP &&
    u == Refresh(pair).(floatingIP := pair.0.floatingIP)
  }

  lemma IPUpdatesSnoc(pairs: seq<(Machine, Machine)>, pair: (Machine, Machine), u: Machine)
    ensures u in IPUpdates(pairs + [pair]) <==> u in IPUpdates(pairs) || MovesIP(pair, u)
  {
    assert (pairs + [pair])[..|pairs|] == pairs;
  }

  /** A floating IP is moved exactly for the pairs that call for it. */
  lemma {:induction false} IPUpdatesExact(pairs: seq<(Machine, Machine)>, u: Machine)
    ensures u in IPUpdates(pairs) <==> exists i :: 0 <= i < |pairs| && MovesIP(pairs[i], u)
  {
    if pairs != [] {
      var n := |pairs| - 1;
      IPUpdatesExact(pairs[..n], u);
      IPUpdatesSnoc(pairs[..n], pairs[n], u);
      TakeSnoc(pairs, n);
      TakeAll(pairs);
    }
  }

  ghost function Missing(bpms: seq<Machine>, m: seq<Edge>): seq<Machine> {
    Pick(bpms, Unused(|bpms|, Lefts(m)))
  }

  ghost function Surplus(order: seq<Machine>, m: seq<Edge>): seq<Machine> {
    Pick(order, Unused(|order|, Rights(m)))
  }

  /** The rows of the place afterwards: refreshed, stopped and booting ones. */
  ghost function PlannedRows(cur: int, bpms: seq<Machine>, order: seq<Machine>, m: seq<Edge>): (r: seq<Machine>)
    requires InRange(m, |bpms|, |order|)
  {
    RefreshAll(PairUp(bpms, order, m)) + StopAll(Surplus(order, m)) + BootRows(cur, Missing(bpms, m))
  }

  /** Row `i` of the plan: refreshed, stopped or booting. */
  lemma PlannedAt(cur: int, bpms: seq<Machine>, order: seq<Machine>, m: seq<Edge>, i: nat)
    requires InRange(m, |bpms|, |order|) && i < |PlannedRows(cur, bpms, order, m)|
    ensures var r, n := PlannedRows(cur, bpms, order, m)[i], |m| + |Surplus(order, m)|;
            if i < |m| then r == Refresh((bpms[m[i].l], order[m[i].r]))
            else if i < n then r == Stop(Surplus(order, m)[i - |m|])
            else i - n < |Missing(bpms, m)| && r == BootRow(Missing(bpms, m)[i - n], cur + 1 + i - n)
  {
    Concat3At(RefreshAll(PairUp(bpms, order, m)), StopAll(Surplus(order, m)), BootRows(cur, Missing(bpms, m)), i);
  }

  lemma OldRowKept(bpm: Machine, dbm: Machine)
    ensures Refresh((bpm, dbm)).id == dbm.id && PlaceOf(Refresh((bpm, dbm))) == PlaceOf(dbm)
    ensures Stop(dbm).id == dbm.id && PlaceOf(Stop(dbm)) == PlaceOf(dbm)
  {
  }

  /** Where row `i` of the plan comes from: an old row of the place, or a boot request. */
  lemma PlannedRow(cur: int, bpms: seq<Machine>, order: seq<Machine>, m: seq<Edge>, i: nat)
    requires InRange(m, |bpms|, |order|) && i < |PlannedRows(cur, bpms, order, m)|
    ensures var r, n := PlannedRows(cur, bpms, order, m), |m| + |Surplus(order, m)|;
            && (i < n ==> r[i].id == order[SlotMachine(|order|, m, i)].id
                          && PlaceOf(r[i]) == PlaceOf(order[SlotMachine(|order|, m, i)]))
            && (i < |m| ==> r[i] == Refresh((bpms[m[i].l], order[m[i].r])))
            && (n <= i ==> i - n < |Missing(bpms, m)| && r[i] == BootRow(Missing(bpms, m)[i - n], cur + 1 + i - n))
  {
    PlannedAt(cur, bpms, order, m, i);
    if i < |m| {
      OldRowKept(bpms[m[i].l], order[m[i].r]);
    } else if i < |m| + |Surplus(order, m)| {
      var extra := Surplus(order, m)[i - |m|];
      OldRowKept(extra, extra);
    }
  }

  lemma PlannedDistinct(rows: Rows, cur: int, p: Place, bpms: seq<Machine>, order: seq<Machine>, m: seq<Edge>)
    requires Coherent(rows, cur) && Enumerates(order, rows, p) && Plan(m, |bpms|, |order|)
    ensures DistinctIDs(PlannedRows(cur, bpms, order, m))
  {
    var r, n := PlannedRows(cur, bpms, order, m), |m| + |Surplus(order, m)|;
    forall i: nat, j: nat | i < j < |r| ensures r[i].id != r[j].id {
      PlannedRow(cur, bpms, order, m, i);
      PlannedRow(cur, bpms, order, m, j);
      if j < n {
        SlotsApart(|order|, m, i, j);
      }
    }
  }

  lemma PlannedCovers(cur: int, bpms: seq<Machine>, order: seq<Machine>, m: seq<Edge>)
    requires InRange(m, |bpms|, |order|)
    ensures IDs(order) <= IDs(PlannedRows(cur, bpms, order, m))
  {
    forall id | id in IDs(order) ensures id in IDs(PlannedRows(cur, bpms, order, m)) {
      var k := IDAt(order, id);
      var i := SlotFor(|bpms|, |order|, m, k);
      PlannedRow(cur, bpms, order, m, i);
    }
  }

  /** Writing rows of the place over all of its rows leaves exactly those rows there. */
  lemma OverlayEnumerates(rows: Rows, cur: int, p: Place, order: seq<Machine>, r: seq<Machine>)
    requires Coherent(rows, cur) && Enumerates(order, rows, p)
    requires DistinctIDs(r) && AllIn(r, p) && IDs(order) <= IDs(r)
    ensures Enumerates(r, Overlay(rows, r), p)
  {
    OverlayAt(rows, r);
  }

  /** The rows of the place after the blueprint has been applied. */
  lemma PlannedEnumerates(rows: Rows, cur: int, p: Place, bpms: seq<Machine>, order: seq<Machine>, m: seq<Edge>)
    requires Coherent(rows, cur) && Enumerates(order, rows, p) && AllIn(bpms, p) && Plan(m, |bpms|, |order|)
    ensures var r := PlannedRows(cur, bpms, order, m); Enumerates(r, Overlay(rows, r), p)
  {
    var r := PlannedRows(cur, bpms, order, m);
    PlannedDistinct(rows, cur, p, bpms, order, m);
    PlannedCovers(cur, bpms, order, m);
    forall i: nat | i < |r| ensures PlaceOf(r[i]) == p {
      PlannedRow(cur, bpms, order, m, i);
    }
    OverlayEnumerates(rows, cur, p, order, r);
  }

  lemma PlannedCoherent(rows: Rows, cur: int, p: Place, bpms: seq<Machine>, order: seq<Machine>, m: seq<Edge>)
    requires Coherent(rows, cur) && Enumerates(order, rows, p) && Plan(m, |bpms|, |order|)
    ensures Coherent(Overlay(rows, PlannedRows(cur, bpms, order, m)), cur + |Missing(bpms, m)|)
  {
    var r := PlannedRows(cur, bpms, order, m);
    PlannedDistinct(rows, cur, p, bpms, order, m);
    OverlayAt(rows, r);
    forall id | id in IDs(r) ensures Overlay(rows, r)[id].id == id <= cur + |Missing(bpms, m)| {
      var i := IDAt(r, id);
      PlannedRow(cur, bpms, order, m, i);
    }
  }

  // ------------------------------------------------ what the plan does, row by row

  /** What applying the blueprint does to the table, field by field: paired rows are
      refreshed, unpaired ones stopped, every unpaired machine of the blueprint is
      requested as it is and stored, under the ID of the request, without its role, and
      nothing else changes. */
  ghost predicate Applied(rows: Rows, p: Place, bpms: seq<Machine>, order: seq<Machine>, m: seq<Edge>,
                          rows': Rows, boot: seq<Machine>)
    requires InRange(m, |bpms|, |order|)
  {
    && (forall a :: 0 <= a < |m| ==> RowRefreshed(rows', order[m[a].r], bpms[m[a].l]))
    && (forall k :: 0 <= k < |order| && k !in Rights(m) ==> RowStopped(rows', order[k]))
    && |boot| == |Missing(bpms, m)|
    && (forall b :: 0 <= b < |boot| ==> RowBooting(rows, rows', boot[b], Missing(bpms, m)[b]))
    && DistinctIDs(boot)
    && (forall id :: id in rows && PlaceOf(rows[id]) != p ==> id in rows' && rows'[id] == rows[id])
    && (forall id :: id in rows' ==> id in rows || id in IDs(boot))
  }

  ghost predicate RowRefreshed(rows': Rows, dbm: Machine, bpm: Machine) {
    dbm.id in rows' && Refreshed(rows'[dbm.id], dbm, bpm)
  }

  ghost predicate RowStopped(rows': Rows, dbm: Machine) {
    dbm.id in rows' && Stopped(rows'[dbm.id], dbm)
  }

  ghost predicate RowBooting(rows: Rows, rows': Rows, request: Machine, bpm: Machine) {
    && BootsAs(request, bpm, bpm.role)
    && request.id !in rows && request.id in rows' && rows'[request.id].id == request.id
    && BootsAs(rows'[request.id], bpm, NoRole)
  }

  lemma PlanRefreshes(rows: Rows, cur: int, p: Place, bpms: seq<Machine>, order: seq<Machine>, m: seq<Edge>, a: nat)
    requires Coherent(rows, cur) && Enumerates(order, rows, p) && Plan(m, |bpms|, |order|) && a < |m|
    ensures RowRefreshed(Overlay(rows, PlannedRows(cur, bpms, order, m)), order[m[a].r], bpms[m[a].l])
  {
    var r := PlannedRows(cur, bpms, order, m);
    PlannedDistinct(rows, cur, p, bpms, order, m);
    PlannedAt(cur, bpms, order, m, a);
    OverlayWritten(rows, r, a);
  }

  lemma PlanStops(rows: Rows, cur: int, p: Place, bpms: seq<Machine>, order: seq<Machine>, m: seq<Edge>, k: nat)
    requires Coherent(rows, cur) && Enumerates(order, rows, p) && Plan(m, |bpms|, |order|) && k < |order| && k !in Rights(m)
    ensures RowStopped(Overlay(rows, PlannedRows(cur, bpms, order, m)), order[k])
  {
    var r, un := PlannedRows(cur, bpms, order, m), Unused(|order|, Rights(m));
    PlannedDistinct(rows, cur, p, bpms, order, m);
    var b := IndexOf(un, k);
    assert Surplus(order, m)[b] == order[k];
    var i := |m| + b;
    PlannedAt(cur, bpms, order, m, i);
    OverlayWritten(rows, r, i);
  }

  lemma PlanBoots(rows: Rows, cur: int, p: Place, bpms: seq<Machine>, order: seq<Machine>, m: seq<Edge>, b: nat)
    requires Coherent(rows, cur) && Enumerates(order, rows, p) && Plan(m, |bpms|, |order|) && b < |Missing(bpms, m)|
    ensures RowBooting(rows, Overlay(rows, PlannedRows(cur, bpms, order, m)), BootRequests(cur, Missing(bpms, m))[b],
                       Missing(bpms, m)[b])
  {
    var r := PlannedRows(cur, bpms, order, m);
    PlannedDistinct(rows, cur, p, bpms, order, m);
    var i := |m| + |Surplus(order, m)| + b;
    PlannedAt(cur, bpms, order, m, i);
    OverlayWritten(rows, r, i);
  }

  /** Other rows stay, and no row appears that was not requested. */
  lemma PlanSparesOthers(rows: Rows, cur: int, p: Place, bpms: seq<Machine>, order: seq<Machine>, m: seq<Edge>, id: int)
    requires Coherent(rows, cur) && Enumerates(order, rows, p) && Plan(m, |bpms|, |order|)
    ensures var rows' := Overlay(rows, PlannedRows(cur, bpms, order, m));
            && (id in rows && PlaceOf(rows[id]) != p ==> id in rows' && rows'[id] == rows[id])
            && (id in rows' ==> id in rows || id in IDs(BootRequests(cur, Missing(bpms, m))))
  {
    var r := PlannedRows(cur, bpms, order, m);
    OverlayKeys(rows, r);
    if id in IDs(r) {
      var i := IDAt(r, id);
      PlannedRow(cur, bpms, order, m, i);
      PlannedAt(cur, bpms, order, m, i);
      if i >= |m| + |Surplus(order, m)| {
        assert BootRequests(cur, Missing(bpms, m))[i - |m| - |Surplus(order, m)|].id == id;
      }
    } else if id in rows {
      OverlayKept(rows, r, id);
    }
  }

  lemma PlanApplied(rows: Rows, cur: int, p: Place, bpms: seq<Machine>, order: seq<Machine>, m: seq<Edge>)
    requires Coherent(rows, cur) && Enumerates(order, rows, p) && Plan(m, |bpms|, |order|)
    ensures Applied(rows, p, bpms, order, m, Overlay(rows, PlannedRows(cur, bpms, order, m)),
                    BootRequests(cur, Missing(bpms, m)))
  {
    var rows', boot := Overlay(rows, PlannedRows(cur, bpms, order, m)), BootRequests(cur, Missing(bpms, m));
    forall a: nat | a < |m| ensures RowRefreshed(rows', order[m[a].r], bpms[m[a].l]) {
      PlanRefreshes(rows, cur, p, bpms, order, m, a);
    }
    forall k: nat | k < |order| && k !in Rights(m) ensures RowStopped(rows', order[k]) {
      PlanStops(rows, cur, p, bpms, order, m, k);
    }
    forall b: nat | b < |boot| ensures RowBooting(rows, rows', boot[b], Missing(bpms, m)[b]) {
      PlanBoots(rows, cur, p, bpms, order, m, b);
    }
    forall id ensures (id in rows && PlaceOf(rows[id]) != p ==> id in rows' && rows'[id] == rows[id])
                   && (id in rows' ==> id in rows || id in IDs(boot))
    {
      PlanSparesOthers(rows, cur, p, bpms, order, m, id);
    }
  }
}
