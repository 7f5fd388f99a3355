/** A key-value store whose entries may carry an expiry time. An entry is gone
    once the clock is past its expiry; the store forgets it when it next looks. */
module TTLStore {
  import opened Prelude

  type Path = nat
  type Value = nat

  /** `until` is None for an entry that never expires. */
  datatype Lease = Lease(value: Value, until: Option<real>)
  type Entries = map<Path, Lease>

  predicate Expired(l: Lease, now: real) {
    l.until.Some? && now > l.until.value
  }

  /** What a reader can see. */
  function Live(m: Entries, now: real): (r: Entries)
    ensures forall p :: p in r <==> p in m && !Expired(m[p], now)
    ensures forall p :: p in r ==> r[p] == m[p]
  {
    map p | p in m && !Expired(m[p], now) :: m[p]
  }

  function NewLease(v: Value, ttl: real, now: real): Lease {
    Lease(v, if ttl <= 0.0 then None else Some(now + ttl))
  }

  /** Creation takes the key only if nobody has it. */
  function AfterCreate(live: Entries, p: Path, v: Value, ttl: real, now: real): Entries {
    if p in live then live else live[p := NewLease(v, ttl, now)]
  }

  /** A refresh renews the key only for the value that has it. */
  predicate Refreshable(live: Entries, p: Path, v: Value) {
    p in live && live[p].value == v
  }

  function AfterRefresh(live: Entries, p: Path, v: Value, ttl: real, now: real): Entries {
    if Refreshable(live, p, v) then live[p := NewLease(v, ttl, now)] else live
  }

  /** A key that is created while nobody has it can be read, with its value, for exactly its
      time to live, or for ever if that is not positive; while somebody has it, creation
      changes nothing; and other keys are never affected. */
  lemma CreatedLasts(live: Entries, p: Path, v: Value, ttl: real, now: real, later: real, q: Path)
    requires later >= now
    ensures var after := Live(AfterCreate(live, p, v, ttl, now), later);
            && (p !in live ==> (p in after <==> ttl <= 0.0 || later <= now + ttl))
            && (p !in live && p in after ==> after[p].value == v)
            && (p in live || q != p ==> (q in after <==> q in Live(live, later)) && (q in after ==> after[q] == live[q]))
  {
  }

  /** A refresh by the value that has the key gives it another time to live, by any other
      changes nothing; and other keys are never affected. */
  lemma RefreshedLasts(live: Entries, p: Path, v: Value, ttl: real, now: real, later: real, q: Path)
    requires later >= now
    ensures var after, own := Live(AfterRefresh(live, p, v, ttl, now), later), p in live && live[p].value == v;
            && (own ==> (p in after <==> ttl <= 0.0 || later <= now + ttl))
            && (own && p in after ==> after[p].value == v)
            && (!own || q != p ==> (q in after <==> q in Live(live, later)) && (q in after ==> after[q] == live[q]))
  {
  }

  lemma LiveTwice(m: Entries, now: real)
    ensures Live(Live(m, now), now) == Live(m, now)
  {
  }

  class Store {
    var entries: Entries
    var now: real

    function Visible(): Entries
      reads this
    {
      Live(entries, now)
    }

    method Expire()
      modifies this`entries
      ensures entries == old(Visible())
    {
      var todo := entries.Keys;
      while todo != {}
        invariant todo <= entries.Keys <= old(entries).Keys
        invariant forall p :: p in entries ==> entries[p] == old(entries)[p]
        invariant forall p :: p in old(entries) && p !in todo ==> (p in entries <==> !Expired(old(entries)[p], now))
        decreases |todo|
      {
        var p := PickAny(todo);
        todo := todo - {p};
        if Expired(entries[p], now) {
          entries := entries - {p};
        }
      }
    }

    method Create(p: Path, v: Value, ttl: real) returns (ok: bool)
      modifies this`entries
      ensures ok <==> p !in old(Visible())
      ensures Visible() == AfterCreate(old(Visible()), p, v, ttl, now)
    {
      Expire();
      LiveTwice(old(entries), now);
      ok := p !in entries;
      if ok {
        entries := entries[p := NewLease(v, ttl, now)];
      }
    }

    /** Reports the expired key before it looks at, and forgets, anything. */
    method Refresh(p: Path, v: Value, ttl: real) returns (ok: bool)
      modifies this`entries
      ensures ok <==> Refreshable(old(Visible()), p, v)
      ensures Visible() == AfterRefresh(old(Visible()), p, v, ttl, now)
    {
      if p in entries && Expired(entries[p], now) {
        return false;
      }
      Expire();
      LiveTwice(old(entries), now);
      if p !in entries || entries[p].value != v {
        return false;
      }
      entries := entries[p := NewLease(v, ttl, now)];
      ok := true;
    }

    method AdvanceTime(shift: real)
      requires shift >= 0.0
      modifies this`now
      ensures now == old(now) + shift
      ensures Visible() == Live(old(Visible()), now)
    {
      now := now + shift;
    }
  }
}
