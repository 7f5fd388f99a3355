/** A whole round of one region, as the code runs it. */
module CloudRuns {
  import opened Prelude
  import opened Matching
  import opened Join
  import opened Machines
  import opened DesiredMachines
  import opened CloudSync
  import opened CloudKeep
  import opened BlueprintPlan
  import opened BlueprintSync
  import opened CloudRounds

  datatype Blueprint = Blueprint(namespace: Name, machines: seq<Wish>)

  /** What the round asks of the provider, and whether the region has or wants any
      machine. */
  datatype Actions = Actions(boot: seq<Machine>, terminate: seq<Machine>, updateIPs: seq<Machine>, isActive: bool)

  /** A round from the table `before`: `read` is the order in which its merge read the
      table, `rows` the table after the merge, `order` the order in which that was read,
      and `after` the table at the end.  Each table comes with its ID counter. */
  ghost predicate RoundDone(before: Rows, cur0: int, p: Place, bpms: seq<Machine>, machines: seq<Machine>,
                            read: seq<Machine>, rows: Rows, cur: int, order: seq<Machine>, after: Rows, cur1: int)
  {
    && AllIn(bpms, p) && AllIn(machines, p) && Coherent(before, cur0) && Enumerates(read, before, p)
    && rows == Merged(before, cur0, read, machines, Pairing(read, machines, p))
    && Coherent(rows, cur) && Enumerates(order, rows, p)
    && (Listing(machines, p) ==> Mirrors(order, machines))
    && after == After(rows, cur, p, bpms, order)
    && cur1 == cur + |Missing(bpms, Pairing(bpms, order, p))|
  }

  /** The actions are those of the pairing with the blueprint. */
  ghost predicate ActsOn(actions: Actions, cur: int, p: Place, bpms: seq<Machine>, order: seq<Machine>)
    requires AllIn(bpms, p) && AllIn(order, p)
  {
    var m := Pairing(bpms, order, p);
    && actions.boot == BootRequests(cur, Missing(bpms, m))
    && actions.terminate == StopAll(Surplus(order, m))
    && actions.updateIPs == IPUpdates(PairUp(bpms, order, m))
    && (actions.isActive <==> bpms != [] || order != [])
  }

  /** One round: merge the provider's listing, then pair with the blueprint.  It fails,
      and leaves the table alone, if the machines cannot be listed, if there is no
      blueprint or if the blueprint is for another namespace. */
  method Round(view: View, p: Place, namespace: Name, adminKey: Name,
               listing: Option<seq<Machine>>, blueprint: Option<Blueprint>)
    returns (res: Option<Actions>, ghost read: seq<Machine>, ghost rows: Rows, ghost cur: int, ghost order: seq<Machine>)
    requires view.Valid() && (listing.Some? ==> AllIn(listing.value, p))
    modifies view
    ensures view.Valid()
    ensures res.Some? <==> listing.Some? && blueprint.Some? && blueprint.value.namespace == namespace
    ensures res.None? ==> view.rows == old(view.rows) && view.curID == old(view.curID)
    ensures res.Some? ==>
              var bpms := Desired(blueprint.value.machines, p, adminKey);
              && RoundDone(old(view.rows), old(view.curID), p, bpms, listing.value, read, rows, cur, order, view.rows, view.curID)
              && ActsOn(res.value, cur, p, bpms, order)
              && (forall id :: id in rows && PlaceOf(rows[id]) == p ==> MergedRow(old(view.rows), listing.value, rows[id]))
              && Applied(rows, p, bpms, order, Pairing(bpms, order, p), view.rows, res.value.boot)
  {
    res, read, rows, cur, order := None, [], view.rows, view.curID, [];
    if listing.None? || blueprint.None? || blueprint.value.namespace != namespace {
      return;
    }
    var bpms := SelectDesired(blueprint.value.machines, p, adminKey);
    DesiredIn(blueprint.value.machines, p, adminKey);
    ghost var before, cur0 := view.rows, view.curID;
    read := view.SyncDBWithCloud(p, listing.value);
    rows, cur := view.rows, view.curID;
    var boot, terminate, updateIPs, isActive;
    boot, terminate, updateIPs, isActive, order := SyncDBWithBlueprint(view, p, bpms);
    if Listing(listing.value, p) {
      SyncOneToOne(before, cur0, p, read, listing.value, order);
    }
    res := Some(Actions(boot, terminate, updateIPs, isActive));
  }

  /** The round after one whose actions the provider carried out, on the table that
      round left: if no stopped row has the kind of a requested machine, nothing is
      booted or stopped. */
  method NextRound(view: View, p: Place, adminKey: Name, second: seq<Machine>, blueprint: Blueprint,
                   ghost rows: Rows, ghost cur: int, ghost order: seq<Machine>,
                   ghost first: seq<Machine>, ghost home: seq<nat>, ghost d: int)
    returns (actions: Actions)
    requires view.Valid()
    requires FirstRound(rows, cur, p, Desired(blueprint.machines, p, adminKey), order, first, second, home, d)
    requires var bpms := Desired(blueprint.machines, p, adminKey);
             && KindsApart(bpms, order, Pairing(bpms, order, p))
             && view.rows == After(rows, cur, p, bpms, order)
             && view.curID == cur + |Missing(bpms, Pairing(bpms, order, p))|
    modifies view
    ensures view.Valid() && actions.boot == [] && actions.terminate == []
  {
    ghost var bpms, rows2, cur2 := Desired(blueprint.machines, p, adminKey), view.rows, view.curID;
    ghost var read, merged, cur3, final;
    var res;
    res, read, merged, cur3, final := Round(view, p, blueprint.namespace, adminKey, Some(second), Some(blueprint));
    NextRoundIsQuiet(rows, cur, p, bpms, order, first, second, home, d, rows2, cur2, read, final);
    actions := res.value;
  }
}
