/** The registry as the object that owns the dictionary, the sources' fields and the leases. */
module SourceRegistries {
  import opened Wrappers
  import opened Gates
  import R = Registry
  import opened RegistrySafety
  import RegistryRuns

  lemma {:induction false} KeptAppend(policy: R.Policy, table: seq<R.Record>, a: seq<R.Entry>, e: R.Entry, now: real)
    requires R.InTable(a + [e], |table|)
    ensures R.InTable(a, |table|) && e.source < |table|
    ensures R.Kept(policy, table, a + [e], now)
         == R.Kept(policy, table, a, now) + if R.Expired(policy, table[e.source], now) then [] else [e]
    decreases |a|
  {
    assert forall x :: x in a ==> x in a + [e];
    assert e in a + [e];
    if a != [] {
      assert (a + [e])[1..] == a[1..] + [e];
      KeptAppend(policy, table, a[1..], e, now);
    }
  }

  lemma {:induction false} DeleteMiddle(a: seq<R.Entry>, e: R.Entry, b: seq<R.Entry>)
    requires forall x :: x in a ==> x.key != e.key
    ensures R.Delete(a + [e] + b, e.key) == a + b
    decreases |a|
  {
    if a == [] {
      assert a + [e] + b == [e] + b;
    } else {
      assert (a + [e] + b)[1..] == a[1..] + [e] + b;
      DeleteMiddle(a[1..], e, b);
    }
  }

  // The sources an eviction hands back, in order.
  function Gone(policy: R.Policy, table: seq<R.Record>, entries: seq<R.Entry>, now: real): seq<nat>
    requires R.InTable(entries, |table|)
  {
    if entries == [] then []
    else
      var last := entries[|entries| - 1];
      Gone(policy, table, entries[..|entries| - 1], now)
      + if R.Expired(policy, table[last.source], now) then [last.source] else []
  }

  lemma {:induction false} GoneAreExpired(policy: R.Policy, table: seq<R.Record>, entries: seq<R.Entry>, now: real)
    requires R.InTable(entries, |table|)
    ensures forall id :: id in Gone(policy, table, entries, now) ==> id < |table| && R.Expired(policy, table[id], now)
    ensures forall e :: e in entries && R.Expired(policy, table[e.source], now) ==>
              e.source in Gone(policy, table, entries, now)
    decreases |entries|
  {
    if entries != [] { GoneAreExpired(policy, table, entries[..|entries| - 1], now); }
  }

  lemma PrefixDiffers(items: seq<R.Entry>, i: nat)
    requires R.Distinct(items) && i < |items|
    ensures R.Distinct(items[..i]) && forall x :: x in items[..i] ==> x.key != items[i].key
  {}

  // Deleting the entry after the kept ones leaves the kept ones and those not yet looked at.
  lemma EvictNext(policy: R.Policy, table: seq<R.Record>, items: seq<R.Entry>, i: nat, now: real)
    requires R.InTable(items, |table|) && R.Distinct(items) && i < |items|
    ensures R.InTable(items[..i], |table|) && items[i].source < |table|
    ensures var kept := R.Kept(policy, table, items[..i], now);
      R.Delete(kept + items[i..], items[i].key) == kept + items[i + 1..]
  {
    assert items[i] in items && forall x :: x in items[..i] ==> x in items;
    PrefixDiffers(items, i);
    KeptIsSub(policy, table, items[..i], now);
    var kept := R.Kept(policy, table, items[..i], now);
    assert kept + items[i..] == kept + [items[i]] + items[i + 1..];
    DeleteMiddle(kept, items[i], items[i + 1..]);
  }

  // One turn of the eviction loop.
  lemma EvictTurn(policy: R.Policy, table: seq<R.Record>, items: seq<R.Entry>, i: nat, now: real)
    requires R.InTable(items, |table|) && R.Distinct(items) && i < |items|
    ensures R.InTable(items[..i], |table|) && R.InTable(items[..i + 1], |table|) && items[i].source < |table|
    ensures var kept := R.Kept(policy, table, items[..i], now);
      R.Kept(policy, table, items[..i + 1], now) + items[i + 1..]
      == if R.Expired(policy, table[items[i].source], now) then R.Delete(kept + items[i..], items[i].key)
         else kept + items[i..]
    ensures Gone(policy, table, items[..i + 1], now)
         == Gone(policy, table, items[..i], now)
            + if R.Expired(policy, table[items[i].source], now) then [items[i].source] else []
  {
    EvictNext(policy, table, items, i, now);
    hide R.Distinct, R.Expired, R.Delete;
    assert items[..i + 1] == items[..i] + [items[i]] && items[..i + 1][..i] == items[..i];
    assert items[i..] == [items[i]] + items[i + 1..];
    KeptAppend(policy, table, items[..i], items[i], now);
  }

  class SourceRegistry {
    const policy: R.Policy
    var entries: seq<R.Entry>
    var table: seq<R.Record>
    var leases: seq<R.Lease>
    ghost var claims: seq<real>

    ghost function View(): R.State
      reads this
    {
      R.State(policy, entries, table, leases, claims)
    }

    ghost predicate Valid()
      reads this
    {
      R.Inv(View())
    }

    constructor (policy: R.Policy, now: real)
      requires policy.Valid()
      ensures Valid() && View() == RegistryRuns.Initial(policy, now)
    {
      this.policy := policy;
      var n := |policy.allowed|;
      entries := seq(n, i requires 0 <= i < n => R.Entry(policy.allowed[i], i));
      table := seq(n, i requires 0 <= i < n =>
                      R.Record(policy.allowed[i], SHUT, true, now, false, 0, 0, 0, policy.allowed[i], "cleartext"));
      leases := [];
      claims := seq(n, _ => now);
      new;
      RegistryRuns.InitialInv(policy, now);
    }

    // Drop the expired sources and return them, for their pipelines to be closed.
    method EvictExpired(now: real) returns (evicted: seq<nat>)
      requires Valid()
      modifies this
      ensures Valid() && View() == R.Evict(old(View()), now)
      ensures evicted == Gone(policy, old(table), old(entries), now)
    {
      EvictInv(View(), now);
      hide R.Inv, R.Expired;
      evicted := DropExpired(now);
    }

    method DropExpired(now: real) returns (evicted: seq<nat>)
      requires R.InTable(entries, |table|) && R.Distinct(entries)
      modifies this`entries
      ensures entries == R.Kept(policy, table, old(entries), now)
      ensures evicted == Gone(policy, table, old(entries), now)
    {
      hide R.Distinct, R.Expired, R.Delete;
      evicted := [];
      var items := entries;
      assert items[..0] == [] && items[0..] == items;
      for i := 0 to |items|
        invariant R.InTable(items[..i], |table|)
        invariant entries == R.Kept(policy, table, items[..i], now) + items[i..]
        invariant evicted == Gone(policy, table, items[..i], now)
      {
        EvictTurn(policy, table, items, i, now);
        hide R.Kept, Gone;
        if R.Expired(policy, table[items[i].source], now) {
          entries := R.Delete(entries, items[i].key);
          evicted := evicted + [items[i].source];
        }
      }
      assert items[..|items|] == items;
    }

    // The first source, in preference order, that may be given to this producer.
    method FindReusable(peer: string, atCapacity: bool) returns (found: Option<R.Key>)
      requires Valid()
      ensures found == R.FirstReusable(View(), R.Candidates(entries, peer), peer, atCapacity)
    {
      var candidates := R.Candidates(entries, peer);
      var i := 0;
      while i < |candidates|
        invariant i <= |candidates|
        invariant R.FirstReusable(View(), candidates[i..], peer, atCapacity)
               == R.FirstReusable(View(), candidates, peer, atCapacity)
      {
        var candidate := candidates[i];
        var id := R.Find(entries, candidate);
        assert candidates[i..][1..] == candidates[i + 1..];
        i := i + 1;
        if id.None? || table[id.value].connected || table[id.value].recordings != 0 {
          continue;
        }
        var source := table[id.value];
        if candidate == R.PENDING_KEY {
          return Some(candidate);
        }
        if candidate == peer && source.permanent {
          if source.pinnedClients != 0 {
            continue;
          }
          return Some(candidate);
        }
        if !atCapacity || source.httpClients != 0 {
          continue;
        }
        if candidate == peer || (!source.permanent && source.peer == peer) {
          return Some(candidate);
        }
      }
      return None;
    }

    method Create(key: R.Key, permanent: bool, peer: string, transport: string, now: real) returns (id: nat)
      modifies this
      ensures View() == R.Create(old(View()), key, permanent, peer, transport, now) && id == |old(table)|
    {
      id := |table|;
      entries := entries + [R.Entry(key, id)];
      table := table + [R.Record(key, SHUT, permanent, now, false, 0, 0, 0, peer, transport)];
      claims := claims + [now];
    }

    method Acquire(key: string, peer: string, transport: string, now: real) returns (r: Result<nat, R.Refusal>)
      requires Valid()
      modifies this
      ensures match R.Acquire(old(View()), key, peer, transport, now)
              case Acquired(state, id) => View() == state && r == Ok(id)
              case Denied(refusal) => View() == old(View()) && r == Err(refusal)
    {
      if policy.allowed != [] && peer !in policy.allowed {
        return Err(R.NotAllowed);
      }
      var canonical := policy.parse(key);
      if canonical.None? {
        return Err(R.BadIdentity);
      }
      var existing := R.Find(entries, canonical.value);
      if existing.Some? {
        table := table[existing.value := table[existing.value].(peer := peer, transport := transport)];
        return Ok(existing.value);
      }
      var full := |entries| >= policy.maxSources;
      var reusable := FindReusable(peer, full);
      if reusable.Some? {
        var id := R.Find(entries, reusable.value).value;
        entries := R.Delete(entries, reusable.value) + [R.Entry(canonical.value, id)];
        table := table[id := table[id].(key := canonical.value,
                                        permanent := R.IsPermanent(policy, canonical.value, peer),
                                        peer := peer, transport := transport)];
        return Ok(id);
      }
      if full {
        return Err(R.LimitReached);
      }
      var id := Create(canonical.value, R.IsPermanent(policy, canonical.value, peer), peer, transport, now);
      return Ok(id);
    }

    /** Atomically admit an identity and connect its producer. */
    method LeaseProducer(key: string, conn: Conn, peerIp: Option<string>, transport: string, now: real)
      returns (r: Result<nat, R.Refusal>, evicted: seq<nat>)
      requires Valid()
      modifies this
      ensures var peer := if peerIp.Some? && peerIp.value != "" then peerIp.value else key;
        View() == RegistryRuns.Perform(old(View()), R.LeaseProducer(key, conn, peer, transport), now)
      ensures Valid() && evicted == Gone(policy, old(table), old(entries), now)
      ensures var peer := if peerIp.Some? && peerIp.value != "" then peerIp.value else key;
        match RegistryRuns.Refusal(old(View()), R.LeaseProducer(key, conn, peer, transport), now)
        case Some(why) => r == Err(why)
        case None => r == Ok(|old(leases)|) && |leases| == |old(leases)| + 1
    {
      var peer := if peerIp.Some? && peerIp.value != "" then peerIp.value else key;
      RegistryRuns.PerformInv(View(), R.LeaseProducer(key, conn, peer, transport), now);
      evicted := EvictExpired(now);
      AcquireInv(View(), key, peer, transport, now);
      var source := Acquire(key, peer, transport, now);
      if source.Err? {
        return Err(source.error), evicted;
      }
      var id := source.value;
      var gate := Replace(table[id].gate, conn);
      table := table[id := table[id].(gate := gate, connected := true)];
      claims := claims[id := now];
      r := Ok(|leases|);
      leases := leases + [R.Lease(id, R.Producer, conn, gate.generation, false, false)];
    }

    method Select(requested: Option<string>, now: real) returns (r: Result<nat, R.Refusal>)
      requires Valid()
      modifies this
      ensures match R.Select(old(View()), requested, now)
              case Acquired(state, id) => View() == state && r == Ok(id)
              case Denied(refusal) => View() == old(View()) && r == Err(refusal)
    {
      if requested.Some? {
        var key := policy.parse(requested.value);
        if key.None? {
          return Err(R.BadIdentity);
        }
        var id := R.Find(entries, key.value);
        return if id.None? then Err(R.UnknownSource) else Ok(id.value);
      }
      if entries == [] {
        var id := Create(R.PENDING_KEY, false, "", "cleartext", now);
        return Ok(id);
      }
      if |entries| == 1 {
        return Ok(entries[0].source);
      }
      return Err(R.Ambiguous);
    }

    method LeaseConsumer(requested: Option<string>, kind: R.Kind, now: real)
      returns (r: Result<nat, R.Refusal>, evicted: seq<nat>)
      requires Valid() && !kind.Producer?
      modifies this
      ensures Valid() && View() == RegistryRuns.Subscribe(old(View()), requested, kind, now)
      ensures evicted == Gone(policy, old(table), old(entries), now)
      ensures var op := if kind.Http? then R.LeaseHttp(requested) else R.LeaseRecording(requested);
        match RegistryRuns.Refusal(old(View()), op, now)
        case Some(why) => r == Err(why)
        case None => r == Ok(|old(leases)|) && |leases| == |old(leases)| + 1
    {
      RegistryRuns.SubscribeInv(View(), requested, kind, now);
      evicted := EvictExpired(now);
      SelectInv(View(), requested, now);
      var source := Select(requested, now);
      if source.Err? {
        return Err(source.error), evicted;
      }
      r := Ok(|leases|);
      Count(source.value, kind, requested.Some?, now);
    }

    method Count(id: nat, kind: R.Kind, pinned: bool, now: real)
      requires id < |table| && id < |claims|
      modifies this
      ensures View() == R.Consume(old(View()), id, kind, pinned, now)
    {
      var source := table[id];
      if kind.Http? {
        source := source.(httpClients := source.httpClients + 1);
        if pinned {
          source := source.(pinnedClients := source.pinnedClients + 1);
        }
      } else {
        source := source.(recordings := source.recordings + 1);
      }
      table := table[id := source];
      claims := claims[id := now];
      leases := leases + [R.Lease(id, kind, 0, 0, pinned, false)];
    }

    method Release(lease: nat, now: real)
      requires Valid() && lease < |leases|
      modifies this
      ensures Valid() && View() == RegistryRuns.Perform(old(View()), R.ReleaseLease(lease), now)
    {
      ReleaseInv(View(), lease, now);
      var l := leases[lease];
      if l.closed {
        return;
      }
      leases := leases[lease := l.(closed := true)];
      var source := table[l.source];
      if l.kind.Producer? {
        if Current(source.gate, l.generation, l.conn) {
          source := source.(gate := Gates.Release(source.gate, l.generation, l.conn), connected := false,
                            disconnectedAt := now);
        }
      } else if l.kind.Http? {
        source := source.(httpClients := source.httpClients - 1);
        if l.pinned {
          source := source.(pinnedClients := source.pinnedClients - 1);
        }
      } else {
        source := source.(recordings := source.recordings - 1);
      }
      if !source.connected && source.httpClients == 0 && source.recordings == 0 {
        source := source.(disconnectedAt := now);
      }
      table := table[l.source := source];
      claims := claims[l.source := now];
    }

    // Retire every source.
    method Close() returns (retired: seq<R.Entry>)
      requires Valid()
      modifies this
      ensures Valid() && retired == old(entries)
      ensures View() == RegistryRuns.Perform(old(View()), R.Shutdown, 0.0)
    {
      RegistryRuns.ShutdownInv(View());
      retired := entries;
      entries := [];
    }
  }
}
