/** From the machines of a blueprint to the rows that one cloud region should
    have. */
module DesiredMachines {
  import opened Prelude
  import opened RoleMatching
  import opened Machines

  /** A machine as the blueprint asks for it; the role is text. */
  datatype Wish = Wish(provider: Name, region: Name, role: Name, size: Name, diskSize: int,
                       sshKeys: seq<Name>, floatingIP: Name, preemptible: bool)

  const MASTER_TEXT: Name := 1
  const WORKER_TEXT: Name := 2

  function ParseRole(text: Name): Option<Role> {
    if text == MASTER_TEXT then Some(Master)
    else if text == WORKER_TEXT then Some(Worker)
    else if text == EMPTY then Some(NoRole)
    else None
  }

  predicate Selected(w: Wish, p: Place) {
    w.provider == p.provider && w.region == p.region && ParseRole(w.role).Some?
  }

  function Translate(w: Wish, adminKey: Name): (m: Machine)
    requires ParseRole(w.role).Some?
    ensures PlaceOf(m) == Place(w.provider, w.region) && KindOf(m) == Kind(w.preemptible, w.size)
    ensures m.cloudID == EMPTY && m.diskSize != 0
  {
    Machine(0, w.provider, w.region, w.size, if w.diskSize == 0 then DEFAULT_DISK_SIZE else w.diskSize,
            w.sshKeys + if adminKey == EMPTY then [] else [adminKey], w.floatingIP, w.preemptible,
            EMPTY, EMPTY, EMPTY, NoStatus, ParseRole(w.role).value, false)
  }

  /** Machine `m` is what wish `w` asks for: its place, size, role, preemptibility and
      floating IP, its disk or else one of 32 GB, its keys and the administrator's, and
      nothing that is not known yet. */
  ghost predicate Asks(w: Wish, adminKey: Name, m: Machine) {
    && m.provider == w.provider && m.region == w.region && m.size == w.size
    && m.preemptible == w.preemptible && m.floatingIP == w.floatingIP
    && (w.role == MASTER_TEXT ==> m.role == Master) && (w.role == WORKER_TEXT ==> m.role == Worker)
    && (w.role == EMPTY ==> m.role == NoRole)
    && m.diskSize == (if w.diskSize == 0 then 32 else w.diskSize)
    && m.sshKeys == (if adminKey == EMPTY then w.sshKeys else w.sshKeys + [adminKey])
    && m.cloudID == EMPTY && m.publicIP == EMPTY && m.privateIP == EMPTY
    && m.status == NoStatus && !m.connected
  }

  /** The wish is for this place, and its role can be read. */
  ghost predicate Concerns(w: Wish, p: Place) {
    w.provider == p.provider && w.region == p.region && w.role in {MASTER_TEXT, WORKER_TEXT, EMPTY}
  }

  /** The wishes at places `at`, in order. */
  ghost predicate Upwards(at: seq<nat>) {
    forall i, j :: 0 <= i < j < |at| ==> at[i] < at[j]
  }

  /** `ms` are exactly the machines asked for by the wishes that concern the place, in
      blueprint order; `at` says which wish each comes from. */
  ghost predicate Fulfils(ws: seq<Wish>, p: Place, adminKey: Name, ms: seq<Machine>, at: seq<nat>) {
    && |at| == |ms| && Upwards(at)
    && (forall i :: 0 <= i < |at| ==> at[i] < |ws| && Concerns(ws[at[i]], p) && Asks(ws[at[i]], adminKey, ms[i]))
    && (forall k: nat :: k < |ws| && Concerns(ws[k], p) ==> k in at)
  }

  /** The selected wishes, translated, in blueprint order. */
  function Desired(ws: seq<Wish>, p: Place, adminKey: Name): seq<Machine> {
    if ws == [] then []
    else
      var w := ws[|ws| - 1];
      Desired(ws[..|ws| - 1], p, adminKey) + if Selected(w, p) then [Translate(w, adminKey)] else []
  }

  lemma SelectedIffConcerns(w: Wish, p: Place, adminKey: Name)
    ensures Selected(w, p) <==> Concerns(w, p)
    ensures Selected(w, p) ==> Asks(w, adminKey, Translate(w, adminKey))
  {
  }

  lemma FulfilMore(ws: seq<Wish>, p: Place, adminKey: Name, n: nat, ms: seq<Machine>, at: seq<nat>)
    requires |ws| == n + 1 && Fulfils(ws[..n], p, adminKey, ms, at)
    ensures !Concerns(ws[n], p) ==> Fulfils(ws, p, adminKey, ms, at)
    ensures forall m :: Concerns(ws[n], p) && Asks(ws[n], adminKey, m) ==> Fulfils(ws, p, adminKey, ms + [m], at + [n])
  {
    assert forall k: nat :: k < n ==> ws[..n][k] == ws[k];
    forall m | Concerns(ws[n], p) && Asks(ws[n], adminKey, m) ensures Fulfils(ws, p, adminKey, ms + [m], at + [n]) {
      forall k: nat | k < |ws| && Concerns(ws[k], p) ensures k in at + [n] {
        assert k == n || k in at;
      }
    }
  }

  lemma {:induction false} DesiredFulfils(ws: seq<Wish>, p: Place, adminKey: Name) returns (at: seq<nat>)
    ensures Fulfils(ws, p, adminKey, Desired(ws, p, adminKey), at)
  {
    if ws == [] {
      at := [];
    } else {
      var n := |ws| - 1;
      var ms := Desired(ws[..n], p, adminKey);
      at := DesiredFulfils(ws[..n], p, adminKey);
      SelectedIffConcerns(ws[n], p, adminKey);
      FulfilMore(ws, p, adminKey, n, ms, at);
      if Selected(ws[n], p) {
        at := at + [n];
        assert Desired(ws, p, adminKey) == ms + [Translate(ws[n], adminKey)];
      } else {
        assert Desired(ws, p, adminKey) == ms;
      }
    }
  }

  method SelectDesired(ws: seq<Wish>, p: Place, adminKey: Name) returns (ms: seq<Machine>)
    ensures ms == Desired(ws, p, adminKey)
    ensures exists at :: Fulfils(ws, p, adminKey, ms, at)
  {
    ms := [];
    for n := 0 to |ws|
      invariant ms == Desired(ws[..n], p, adminKey)
    {
      assert ws[..n + 1][..n] == ws[..n];
      var w := ws[n];
      if w.provider != p.provider || w.region != p.region {
        continue;
      }
      if ParseRole(w.role).None? {
        continue;
      }
      ms := ms + [Translate(w, adminKey)];
    }
    TakeAll(ws);
    ghost var at := DesiredFulfils(ws, p, adminKey);
  }

  /** Each desired machine comes from a wish for this region. */
  lemma {:induction false} DesiredFrom(ws: seq<Wish>, p: Place, adminKey: Name, m: Machine) returns (w: Wish)
    requires m in Desired(ws, p, adminKey)
    ensures w in ws && Selected(w, p) && m == Translate(w, adminKey)
  {
    var n := |ws| - 1;
    if m in Desired(ws[..n], p, adminKey) {
      w := DesiredFrom(ws[..n], p, adminKey, m);
    } else {
      w := ws[n];
    }
  }

  /** The rows desired of a region are in that region, whatever the blueprint. */
  lemma DesiredIn(ws: seq<Wish>, p: Place, adminKey: Name)
    ensures AllIn(Desired(ws, p, adminKey), p)
  {
    var ms := Desired(ws, p, adminKey);
    forall i | 0 <= i < |ms| ensures PlaceOf(ms[i]) == p {
      var w := DesiredFrom(ws, p, adminKey, ms[i]);
    }
  }

  /** A blueprint that names the role of every machine gives machines for which the
      pairing falls short only through floating IPs. */
  lemma DesiredIsWished(ws: seq<Wish>, p: Place, adminKey: Name)
    requires forall w :: w in ws && Selected(w, p) ==> w.role != EMPTY
    ensures Wished(Desired(ws, p, adminKey))
  {
    var ms := Desired(ws, p, adminKey);
    forall i | 0 <= i < |ms| ensures ms[i].role != NoRole && ms[i].cloudID == EMPTY {
      var w := DesiredFrom(ws, p, adminKey, ms[i]);
    }
  }

  /** If it asks for no floating IP, none can spoil the pairing. */
  lemma DesiredIsUnanchored(ws: seq<Wish>, p: Place, adminKey: Name, dbms: seq<Machine>)
    requires forall w :: w in ws && Selected(w, p) ==> w.floatingIP == EMPTY
    ensures Unanchored(Desired(ws, p, adminKey), dbms)
  {
    var ms := Desired(ws, p, adminKey);
    forall i | 0 <= i < |ms| ensures ms[i].floatingIP == EMPTY {
      var w := DesiredFrom(ws, p, adminKey, ms[i]);
    }
  }
}
