/**
 Who is let in, to which source, and what a lease is for: said in terms of the entries and
 the open leases, not of the functions that decide it.
 */
module RegistryAdmission {
  import opened Wrappers
  import opened Gates
  import opened Registry
  import opened RegistrySafety
  import opened RegistryRekeying
  import opened RegistryRuns

  // ----- keys ----------------------------------------------------------------------------------

  ghost predicate Registered(s: State, key: Key) { exists e :: e in s.entries && e.key == key }

  // The source is stored under the key, and its record says the same.
  ghost predicate StoredUnder(s: State, key: Key, id: nat) {
    Entry(key, id) in s.entries && id < |s.table| && s.table[id].key == key
  }

  lemma OneSourcePerKey(s: State, key: Key, a: nat, b: nat)
    requires Inv(s) && StoredUnder(s, key, a) && StoredUnder(s, key, b)
    ensures a == b
  {
    FindComplete(s.entries, Entry(key, a));
    FindComplete(s.entries, Entry(key, b));
  }

  lemma FindIs(s: State, key: Key)
    requires Inv(s)
    ensures Find(s.entries, key).Some? <==> Registered(s, key)
    ensures Find(s.entries, key).Some? ==> StoredUnder(s, key, Find(s.entries, key).value)
  {
    if Find(s.entries, key).Some? {
      assert Entry(key, Find(s.entries, key).value) in s.entries;
    } else {
      FindNone(s.entries, key);
    }
  }

  // ----- producers -------------------------------------------------------------------------------

  ghost predicate Outsider(s: State, peer: string) { s.policy.allowed != [] && peer !in s.policy.allowed }

  ghost predicate SomeMayMove(s: State, peer: string, full: bool)
    requires InTable(s.entries, |s.table|)
  {
    exists i :: 0 <= i < |s.entries| && MayMove(s, s.entries[i], peer, full)
  }

  ghost predicate Full(s: State) { |s.entries| >= s.policy.maxSources }

  lemma ReuseExactly(s: State, peer: string, full: bool) returns (i: nat)
    requires Inv(s)
    ensures var found := FirstReusable(s, Candidates(s.entries, peer), peer, full);
      && (found.Some? <==> SomeMayMove(s, peer, full))
      && (found.Some? ==> i < |s.entries| && s.entries[i].key == found.value && Chosen(s, peer, full, i)
                          && Find(s.entries, found.value) == Some(s.entries[i].source))
  {
    i := FoundIsChosen(s, peer, full);
    if FirstReusable(s, Candidates(s.entries, peer), peer, full).Some? {
      assert MayMove(s, s.entries[i], peer, full);
      FindComplete(s.entries, s.entries[i]);
    }
  }

  /**
   A producer is refused exactly when there is an allow list without its address, its key
   is not an identity, or the registry is full, the key is new and no source may move.
   */
  lemma RefusedExactly(s: State, key: string, peer: string, transport: string, now: real)
    requires Inv(s)
    ensures var a, k := Acquire(s, key, peer, transport, now), s.policy.parse(key);
      && (a == Denied(NotAllowed) <==> Outsider(s, peer))
      && (a == Denied(BadIdentity) <==> !Outsider(s, peer) && k.None?)
      && (a == Denied(LimitReached) <==>
            !Outsider(s, peer) && k.Some? && !Registered(s, k.value) && Full(s) && !SomeMayMove(s, peer, true))
      && (a.Denied? ==> a.refusal.NotAllowed? || a.refusal.BadIdentity? || a.refusal.LimitReached?)
  {
    var k := s.policy.parse(key);
    if k.Some? {
      FindIs(s, k.value);
      var i := ReuseExactly(s, peer, Full(s));
    }
    hide FirstReusable, Candidates, SomeMayMove, Registered, Chosen, Inv, Rekey, Create;
  }

  // What becomes of a source that is taken over: its key and its peer, nothing else.
  ghost predicate TakenOver(before: Record, after: Record, key: Key, permanent: bool, peer: string, transport: string) {
    after == Record(key, before.gate, permanent, before.disconnectedAt, before.connected,
                    before.httpClients, before.pinnedClients, before.recordings, peer, transport)
  }

  ghost predicate OnlyRecord(s: State, t: State, id: nat) {
    && |t.table| == |s.table| && id < |s.table|
    && forall i :: 0 <= i < |s.table| && i != id ==> t.table[i] == s.table[i]
  }

  /** A known key is the source stored under it, which only learns where the producer is now. */
  lemma KnownKey(s: State, key: string, peer: string, transport: string, now: real, id: nat)
    requires Inv(s) && !Outsider(s, peer) && s.policy.parse(key).Some?
    requires StoredUnder(s, s.policy.parse(key).value, id)
    ensures var a := Acquire(s, key, peer, transport, now);
      && a.Acquired? && a.source == id
      && a.state.entries == s.entries && a.state.leases == s.leases && a.state.claims == s.claims
      && OnlyRecord(s, a.state, id)
      && TakenOver(s.table[id], a.state.table[id], s.table[id].key, s.table[id].permanent, peer, transport)
  {
    FindComplete(s.entries, Entry(s.policy.parse(key).value, id));
  }

  /**
   A new key takes over the first source that may move, in the order of preference, and that
   source is then stored under the new key alone.
   */
  lemma MovedSource(s: State, key: string, peer: string, transport: string, now: real, i: nat)
    requires Inv(s) && !Outsider(s, peer) && s.policy.parse(key).Some?
    requires !Registered(s, s.policy.parse(key).value) && i < |s.entries| && Chosen(s, peer, Full(s), i)
    ensures var a, k, id := Acquire(s, key, peer, transport, now), s.policy.parse(key).value, s.entries[i].source;
      && a.Acquired? && a.source == id
      && (forall e :: e in a.state.entries <==> e == Entry(k, id) || (e in s.entries && e != s.entries[i]))
      && a.state.leases == s.leases && a.state.claims == s.claims
      && OnlyRecord(s, a.state, id)
      && TakenOver(s.table[id], a.state.table[id], k, k == peer && peer in s.policy.allowed, peer, transport)
  {
    var k := s.policy.parse(key).value;
    FindIs(s, k);
    var j := ReuseExactly(s, peer, Full(s));
    ChosenMoves(s, peer, i);
    ChosenOnce(s, peer, Full(s), i, j);
    MovedEntries(s, i);
    hide FirstReusable, Candidates, SomeMayMove, Registered, Chosen, Delete, Find;
  }

  lemma ChosenMoves(s: State, peer: string, i: nat)
    requires InTable(s.entries, |s.table|) && i < |s.entries| && Chosen(s, peer, Full(s), i)
    ensures SomeMayMove(s, peer, Full(s))
  {}

  lemma MovedEntries(s: State, i: nat)
    requires Inv(s) && i < |s.entries|
    ensures forall e :: e in Delete(s.entries, s.entries[i].key) <==> e in s.entries && e != s.entries[i]
  {
    FindComplete(s.entries, s.entries[i]);
    DeleteRemoves(s.entries, s.entries[i].key);
  }

  /** With nothing to take over, a new key gets a new source, permanent for its own listed address. */
  lemma NewSource(s: State, key: string, peer: string, transport: string, now: real)
    requires Inv(s) && !Outsider(s, peer) && s.policy.parse(key).Some?
    requires !Registered(s, s.policy.parse(key).value) && !Full(s) && !SomeMayMove(s, peer, false)
    ensures var a, k, n := Acquire(s, key, peer, transport, now), s.policy.parse(key).value, |s.table|;
      && a.Acquired? && a.source == n
      && a.state.entries == s.entries + [Entry(k, n)]
      && a.state.leases == s.leases && a.state.claims == s.claims + [now]
      && a.state.table
         == s.table + [Record(k, SHUT, k == peer && peer in s.policy.allowed, now, false, 0, 0, 0, peer, transport)]
  {
    FindIs(s, s.policy.parse(key).value);
    var i := ReuseExactly(s, peer, false);
    hide FirstReusable, Candidates, SomeMayMove, Registered, Chosen, Find;
  }

  /** However it comes about, an admitted producer's source is stored under its key, with its peer and transport. */
  lemma AdmittedUnderItsKey(s: State, key: string, peer: string, transport: string, now: real)
    requires Inv(s) && Acquire(s, key, peer, transport, now).Acquired?
    ensures var a, k := Acquire(s, key, peer, transport, now), s.policy.parse(key);
      && k.Some? && StoredUnder(a.state, k.value, a.source)
      && a.state.table[a.source].peer == peer && a.state.table[a.source].transport == transport
      && a.state.leases == s.leases
  {
    var k := s.policy.parse(key);
    RefusedExactly(s, key, peer, transport, now);
    FindIs(s, k.value);
    if Registered(s, k.value) {
      KnownKey(s, key, peer, transport, now, Find(s.entries, k.value).value);
    } else if SomeMayMove(s, peer, Full(s)) {
      var i := ReuseExactly(s, peer, Full(s));
      MovedSource(s, key, peer, transport, now, i);
    } else {
      NewSource(s, key, peer, transport, now);
    }
    hide Acquire, SomeMayMove, Registered, Inv;
  }

  // The source was last claimed now, every other one when it was before.
  ghost predicate ClaimedNow(s: State, t: State, id: nat, now: real) {
    && id < |t.claims| && t.claims[id] == now && |s.claims| <= |t.claims|
    && forall i :: 0 <= i < |s.claims| && i != id ==> t.claims[i] == s.claims[i]
  }

  /**
   A producer that is let in holds the last lease: of the source stored under its key, which
   its connection now feeds under a new generation. One that is not leaves what eviction left.
   */
  lemma ProducerLease(s: State, key: string, conn: Conn, peer: string, transport: string, now: real)
    requires Inv(s)
    ensures InTable(Evict(s, now).entries, |Evict(s, now).table|)
    ensures var op, v := LeaseProducer(key, conn, peer, transport), Evict(s, now);
      var t, n, a := Perform(s, op, now), |s.leases|, Acquire(v, key, peer, transport, now);
      if a.Denied? then t == v && RegistryRuns.Refusal(s, op, now) == Some(a.refusal)
      else
        && RegistryRuns.Refusal(s, op, now).None?
        && s.policy.parse(key).Some? && |t.leases| == n + 1 && t.leases[..n] == s.leases
        && var l := t.leases[n];
           && l.kind.Producer? && l.conn == conn && !l.closed
           && StoredUnder(t, s.policy.parse(key).value, l.source) && ClaimedNow(s, t, l.source, now)
           && var r := t.table[l.source];
              && r.connected && r.gate == Gate(l.generation, Some(conn)) && r.peer == peer && r.transport == transport
              && (l.source < |s.table| ==> l.generation == s.table[l.source].gate.generation + 1)
  {
    EvictInv(s, now);
    var v := Evict(s, now);
    AcquireInv(v, key, peer, transport, now);
    var a := Acquire(v, key, peer, transport, now);
    if a.Acquired? {
      AdmittedUnderItsKey(v, key, peer, transport, now);
      GatesStay(v, key, peer, transport, now);
    }
    hide Acquire, Inv, Kept;
  }

  // Admission leaves every source's gate and every claim as it was.
  lemma GatesStay(s: State, key: string, peer: string, transport: string, now: real)
    requires Inv(s) && Acquire(s, key, peer, transport, now).Acquired?
    ensures var t := Acquire(s, key, peer, transport, now).state;
      && |t.table| >= |s.table| && (forall id :: 0 <= id < |s.table| ==> t.table[id].gate == s.table[id].gate)
      && |t.claims| == |t.table| && s.claims == t.claims[..|s.claims|]
  {
    hide FirstReusable, Candidates, Delete;
  }

  // ----- consumers -----------------------------------------------------------------------------------

  /**
   A request by key gets the source stored under that key or none; one without a key gets
   the only source, a pending one if there is none, and is refused exactly for two or more.
   */
  lemma SelectedExactly(s: State, requested: Option<string>, now: real)
    requires Inv(s)
    ensures var a := Select(s, requested, now);
      match requested
      case Some(text) =>
        var k := s.policy.parse(text);
        && (a == Denied(BadIdentity) <==> k.None?)
        && (a == Denied(UnknownSource) <==> k.Some? && !Registered(s, k.value))
        && (a.Acquired? <==> k.Some? && Registered(s, k.value))
        && (a.Acquired? ==> a.state == s && StoredUnder(s, k.value, a.source))
      case None =>
        && (a == Denied(Ambiguous) <==> |s.entries| >= 2)
        && (a.Acquired? <==> |s.entries| < 2)
        && (|s.entries| == 1 ==> a.state == s && StoredUnder(s, s.entries[0].key, a.source))
        && (s.entries == [] ==> a.state.entries == [Entry(PENDING_KEY, a.source)]
                                && a.state.leases == s.leases && a.source == |s.table|
                                && |a.state.table| == a.source + 1 && a.state.table[a.source].key == PENDING_KEY)
  {
    if requested.Some? {
      if s.policy.parse(requested.value).Some? { FindIs(s, s.policy.parse(requested.value).value); }
    } else if |s.entries| == 1 {
      assert s.entries[0] in s.entries;
    }
    hide Registered;
  }

  // The source a consumer of this request listens to.
  ghost predicate Serves(t: State, requested: Option<string>, id: nat) {
    match requested
    case Some(text) => t.policy.parse(text).Some? && StoredUnder(t, t.policy.parse(text).value, id)
    case None => |t.entries| == 1 && StoredUnder(t, t.entries[0].key, id)
  }

  /** A consumer that is let in holds the last lease, pinned if it asked by key, of the source it asked for. */
  lemma ConsumerLease(s: State, requested: Option<string>, kind: Kind, now: real)
    requires Inv(s) && !kind.Producer?
    ensures var op := if kind.Http? then LeaseHttp(requested) else LeaseRecording(requested);
      var t, n, a := Perform(s, op, now), |s.leases|, Select(Evict(s, now), requested, now);
      if a.Denied? then t == Evict(s, now) && RegistryRuns.Refusal(s, op, now) == Some(a.refusal)
      else
        && RegistryRuns.Refusal(s, op, now).None?
        && |t.leases| == n + 1 && t.leases[..n] == s.leases
        && t.leases[n].kind == kind && !t.leases[n].closed && (t.leases[n].pinned <==> requested.Some?)
        && Serves(t, requested, t.leases[n].source) && ClaimedNow(s, t, t.leases[n].source, now)
  {
    hide Books, Distinct, KeysMatch, Kept, Registered, Serves, ClaimedNow, Consume, Select;
    EvictInv(s, now);
    var v := Evict(s, now);
    SelectInv(v, requested, now);
    SelectedServes(v, requested, now);
    var a := Select(v, requested, now);
    if a.Acquired? { Consumed(s, a.state, a.source, requested, kind, now); }
  }

  lemma SelectedServes(s: State, requested: Option<string>, now: real)
    requires Inv(s)
    ensures var a := Select(s, requested, now);
      a.Acquired? ==> Serves(a.state, requested, a.source) && a.source < |a.state.claims|
                      && a.state.leases == s.leases && s.claims <= a.state.claims
  {
    SelectInv(s, requested, now);
    SelectedExactly(s, requested, now);
    if requested.None? && s.entries == [] {
      var t := Select(s, requested, now).state;
      assert t.entries[0] == Entry(PENDING_KEY, |s.table|) && t.entries[0] in t.entries;
    }
    hide Registered, Distinct, KeysMatch;
  }

  lemma Consumed(s: State, m: State, id: nat, requested: Option<string>, kind: Kind, now: real)
    requires Serves(m, requested, id) && id < |m.table| && id < |m.claims|
    requires m.leases == s.leases && s.claims <= m.claims
    ensures var t, n := Consume(m, id, kind, requested.Some?, now), |s.leases|;
      && |t.leases| == n + 1 && t.leases[..n] == s.leases
      && t.leases[n] == Lease(id, kind, 0, 0, requested.Some?, false)
      && Serves(t, requested, id) && ClaimedNow(s, t, id, now)
  {}

  /** After the shutdown no key is known, until a producer registers it again; the leases stay to be released. */
  lemma NothingAfterShutdown(s: State, text: string, now: real, later: real)
    requires Inv(s) && s.policy.parse(text).Some?
    ensures Inv(Perform(s, Shutdown, now))
    ensures var t := Perform(s, Shutdown, now);
      && t.leases == s.leases && Select(t, Some(text), later) == Denied(UnknownSource)
      && !Registered(t, s.policy.parse(text).value)
  {
    PerformInv(s, Shutdown, now);
  }

  // ----- release ---------------------------------------------------------------------------------------

  /**
   Releasing closes that lease and no other, and shuts the gate exactly when the lease is
   the current producer's; the source stays registered, with its key and its peer.
   */
  lemma ReleaseCloses(s: State, lease: nat, now: real)
    requires Inv(s) && lease < |s.leases|
    ensures var t, l := Perform(s, ReleaseLease(lease), now), s.leases[lease];
      && t.entries == s.entries
      && |t.leases| == |s.leases| && t.leases[lease].closed && t.leases[lease].source == l.source
      && (forall i :: 0 <= i < |s.leases| && i != lease ==> t.leases[i] == s.leases[i])
      && OnlyRecord(s, t, l.source)
      && (if l.closed then t == s else ClaimedNow(s, t, l.source, now))
      && var r, b := t.table[l.source], s.table[l.source];
         && r.key == b.key && r.permanent == b.permanent && r.peer == b.peer && r.transport == b.transport
         && if !l.closed && l.kind.Producer? && l.generation == b.gate.generation then
              !r.connected && r.gate == Gate(b.gate.generation, None)
            else r.connected == b.connected && r.gate == b.gate
  {
    assert Sound(s, s.leases[lease]);
    ReleaseInv(s, lease, now);
  }
}
