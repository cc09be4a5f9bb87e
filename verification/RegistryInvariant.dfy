/** What every operation of the registry keeps, and what eviction and re-keying never touch. */
module RegistrySafety {
  import opened Wrappers
  import opened Gates
  import opened Registry

  // ----- the dictionary ----------------------------------------------------------------

  lemma {:induction false} DistinctTail(entries: seq<Entry>)
    requires Distinct(entries) && entries != []
    ensures Distinct(entries[1..])
    ensures forall e :: e in entries[1..] ==> e.key != entries[0].key && e.source != entries[0].source
  {}

  lemma {:induction false} FindComplete(entries: seq<Entry>, e: Entry)
    requires Distinct(entries) && e in entries
    ensures Find(entries, e.key) == Some(e.source)
    decreases |entries|
  {
    DistinctTail(entries);
    if e != entries[0] { FindComplete(entries[1..], e); }
  }

  lemma {:induction false} FindNone(entries: seq<Entry>, key: Key)
    requires Find(entries, key).None?
    ensures forall e :: e in entries ==> e.key != key
    decreases |entries|
  {
    if entries != [] { FindNone(entries[1..], key); }
  }

  lemma DistinctCons(e: Entry, rest: seq<Entry>)
    requires Distinct(rest) && forall x :: x in rest ==> x.key != e.key && x.source != e.source
    ensures Distinct([e] + rest)
  {}

  lemma DistinctAppend(entries: seq<Entry>, e: Entry)
    requires Distinct(entries) && forall x :: x in entries ==> x.key != e.key && x.source != e.source
    ensures Distinct(entries + [e])
  {}

  lemma {:induction false} DeleteRemoves(entries: seq<Entry>, key: Key)
    requires Distinct(entries) && Find(entries, key).Some?
    ensures Distinct(Delete(entries, key)) && |Delete(entries, key)| == |entries| - 1
    ensures forall e :: e in Delete(entries, key) <==> e in entries && e.key != key
    decreases |entries|
  {
    DistinctTail(entries);
    if entries[0].key != key {
      DeleteRemoves(entries[1..], key);
      DistinctCons(entries[0], Delete(entries[1..], key));
    }
  }

  lemma {:induction false} KeptIsSub(policy: Policy, table: seq<Record>, entries: seq<Entry>, now: real)
    requires InTable(entries, |table|) && Distinct(entries)
    ensures var kept := Kept(policy, table, entries, now);
      && |kept| <= |entries| && Distinct(kept)
      && forall e :: e in kept <==> e in entries && !Expired(policy, table[e.source], now)
    decreases |entries|
  {
    if entries != [] {
      DistinctTail(entries);
      KeptIsSub(policy, table, entries[1..], now);
      if !Expired(policy, table[entries[0].source], now) {
        DistinctCons(entries[0], Kept(policy, table, entries[1..], now));
      }
    }
  }

  // ----- eviction ----------------------------------------------------------------------------

  lemma EvictInv(s: State, now: real)
    requires Inv(s)
    ensures Inv(Evict(s, now))
  {
    KeptIsSub(s.policy, s.table, s.entries, now);
    BooksTransfer(s, Evict(s, now));
  }

  // The books do not depend on the dictionary.
  lemma BooksTransfer(s: State, t: State)
    requires Books(s) && t == s.(entries := t.entries)
    ensures Books(t)
  {
    forall id | 0 <= id < |t.table| ensures Counted(t, id) && IdleSince(t, id) {
      assert Counted(s, id) && IdleSince(s, id);
    }
    forall i | 0 <= i < |t.leases| ensures Sound(t, t.leases[i]) { assert Sound(s, s.leases[i]); }
  }

  ghost predicate InUse(s: State, id: nat)
    requires id < |s.table|
  {
    || Count(s.leases, id, AnyHttp) > 0
    || Count(s.leases, id, AnyRecording) > 0
    || Count(s.leases, id, Live(s.table[id].gate.generation)) > 0
  }

  /**
   Eviction removes exactly the sources that are not permanent, have no consumer
   lease and no producer lease of the current generation, and were last created,
   leased or released at least the idle period ago.
   */
  lemma EvictedExactly(s: State, now: real, e: Entry)
    requires Inv(s) && e in s.entries
    ensures e !in Evict(s, now).entries <==>
              !s.table[e.source].permanent && !InUse(s, e.source) && now - s.claims[e.source] >= s.policy.idleSeconds
  {
    KeptIsSub(s.policy, s.table, s.entries, now);
    assert Counted(s, e.source) && IdleSince(s, e.source);
  }

  // ----- creating and re-keying ------------------------------------------------------------------

  lemma CreateInv(s: State, key: Key, permanent: bool, peer: string, transport: string, now: real)
    requires Inv(s) && |s.entries| < s.policy.maxSources && Find(s.entries, key).None?
    ensures Inv(Create(s, key, permanent, peer, transport, now))
  {
    var t := Create(s, key, permanent, peer, transport, now);
    var n := |s.table|;
    FindNone(s.entries, key);
    DistinctAppend(s.entries, Entry(key, n));
    forall id | 0 <= id < |t.table| ensures Counted(t, id) && IdleSince(t, id) {
      if id < n {
        assert Counted(s, id) && IdleSince(s, id);
      } else {
        forall c ensures Count(t.leases, n, c) == 0 { UnleasedCount(s, n, c); }
      }
    }
    forall i | 0 <= i < |t.leases| ensures Sound(t, t.leases[i]) { assert Sound(s, s.leases[i]); }
  }

  lemma UnleasedCount(s: State, id: nat, c: Claimant)
    requires Books(s) && id >= |s.table|
    ensures Count(s.leases, id, c) == 0
  {
    forall i | 0 <= i < |s.leases| ensures !Holds(s.leases[i], id, c) { assert Sound(s, s.leases[i]); }
    CountNone(s.leases, id, c);
  }

  // A change of one record's names leaves the books as they are.
  ghost predicate Renamed(a: Record, b: Record) {
    b == a.(key := b.key, permanent := b.permanent, peer := b.peer, transport := b.transport)
  }

  lemma RenameBooks(s: State, id: nat, r: Record)
    requires Books(s) && id < |s.table| && Renamed(s.table[id], r) && r.key != PENDING_KEY
    ensures Books(Update(s, id, r))
  {
    var t := Update(s, id, r);
    forall j | 0 <= j < |t.table| ensures Counted(t, j) && IdleSince(t, j) { assert Counted(s, j) && IdleSince(s, j); }
    forall i | 0 <= i < |t.leases| ensures Sound(t, t.leases[i]) { assert Sound(s, s.leases[i]); }
  }

  lemma RenameExisting(s: State, key: Key, id: nat, peer: string, transport: string)
    requires Inv(s) && Find(s.entries, key) == Some(id) && key != PENDING_KEY
    ensures Inv(Update(s, id, s.table[id].(peer := peer, transport := transport)))
  {
    RenameBooks(s, id, s.table[id].(peer := peer, transport := transport));
  }

  lemma RekeyInv(s: State, before: Key, id: nat, key: Key, peer: string, transport: string)
    requires Inv(s) && Find(s.entries, before) == Some(id) && Find(s.entries, key).None? && key != PENDING_KEY
    ensures Inv(Rekey(s, before, id, key, peer, transport))
  {
    var t := Rekey(s, before, id, key, peer, transport);
    var fewer := Delete(s.entries, before);
    DeleteRemoves(s.entries, before);
    FindNone(s.entries, key);
    forall e | e in fewer ensures e.source != id && e.key != key {
      SourceOnce(s.entries, e, Entry(before, id));
    }
    DistinctAppend(fewer, Entry(key, id));
    RenameBooks(s, id, t.table[id]);
    BooksTransfer(Update(s, id, t.table[id]), t);
  }

  lemma SourceOnce(entries: seq<Entry>, a: Entry, b: Entry)
    requires Distinct(entries) && a in entries && b in entries && a != b
    ensures a.key != b.key && a.source != b.source
  {}

  lemma AcquireInv(s: State, key: string, peer: string, transport: string, now: real)
    requires Inv(s)
    ensures var a := Acquire(s, key, peer, transport, now);
      a.Acquired? ==> Inv(a.state) && a.source < |a.state.table| && a.state.leases == s.leases
  {
    var canonical := s.policy.parse(key);
    if !(s.policy.allowed != [] && peer !in s.policy.allowed) && canonical.Some? {
      var existing := Find(s.entries, canonical.value);
      if existing.Some? {
        RenameExisting(s, canonical.value, existing.value, peer, transport);
      } else {
        var full := |s.entries| >= s.policy.maxSources;
        var reusable := FirstReusable(s, Candidates(s.entries, peer), peer, full);
        if reusable.Some? {
          RekeyInv(s, reusable.value, Find(s.entries, reusable.value).value, canonical.value, peer, transport);
        } else if !full {
          CreateInv(s, canonical.value, IsPermanent(s.policy, canonical.value, peer), peer, transport, now);
        }
      }
    }
  }

  /**
   Only a source without pinned, recording or live producer leases is ever given
   another key; every other source keeps its key and its place in the registry.
   */
  lemma RekeyedIsUnbound(s: State, key: string, peer: string, transport: string, now: real, e: Entry)
    requires Inv(s) && e in s.entries
    ensures var a := Acquire(s, key, peer, transport, now);
      a.Acquired? && a.state.table[e.source].key != e.key ==>
        && Count(s.leases, e.source, PinnedHttp) == 0 && Count(s.leases, e.source, AnyRecording) == 0
        && Count(s.leases, e.source, Live(s.table[e.source].gate.generation)) == 0
    ensures var a := Acquire(s, key, peer, transport, now);
      a.Acquired? && a.state.table[e.source].key == e.key ==> e in a.state.entries
  {
    assert Counted(s, e.source);
    CountPinned(s.leases, e.source);
    var canonical := s.policy.parse(key);
    if canonical.Some? && Find(s.entries, canonical.value).None? {
      var full := |s.entries| >= s.policy.maxSources;
      var reusable := FirstReusable(s, Candidates(s.entries, peer), peer, full);
      if reusable.Some? {
        var id := Find(s.entries, reusable.value).value;
        DeleteRemoves(s.entries, reusable.value);
        FindNone(s.entries, canonical.value);
        if e.source == id { FindComplete(s.entries, e); SameSource(s.entries, e, Entry(reusable.value, id)); }
      }
    }
  }

  lemma SameSource(entries: seq<Entry>, a: Entry, b: Entry)
    requires Distinct(entries) && a in entries && b in entries && a.source == b.source
    ensures a == b
  {
    if a != b { SourceOnce(entries, a, b); }
  }

  // ----- leasing and releasing -----------------------------------------------------------------------

  lemma ConnectInv(s: State, id: nat, conn: Conn, now: real)
    requires Inv(s) && id < |s.table|
    ensures Inv(Connect(s, id, conn, now))
  {
    var t := Connect(s, id, conn, now);
    var g := t.table[id].gate.generation;
    var l := Lease(id, Producer, conn, g, false, false);
    forall j | 0 <= j < |t.table| ensures Counted(t, j) && IdleSince(t, j) {
      assert Counted(s, j) && IdleSince(s, j);
      forall c ensures Count(t.leases, j, c) == Count(s.leases, j, c) + if Holds(l, j, c) then 1 else 0 {
        CountAppend(s.leases, l, j, c);
      }
      if j == id { NewGeneration(s, id); }
    }
    forall i | 0 <= i < |t.leases| ensures Sound(t, t.leases[i]) {
      if i < |s.leases| { assert Sound(s, s.leases[i]); }
    }
    assert KeysMatch(t.entries, t.table);
  }

  lemma NewGeneration(s: State, id: nat)
    requires Books(s) && id < |s.table|
    ensures Count(s.leases, id, Live(s.table[id].gate.generation + 1)) == 0
  {
    var c := Live(s.table[id].gate.generation + 1);
    forall i | 0 <= i < |s.leases| ensures !Holds(s.leases[i], id, c) { assert Sound(s, s.leases[i]); }
    CountNone(s.leases, id, c);
  }

  lemma SelectInv(s: State, requested: Option<string>, now: real)
    requires Inv(s)
    ensures var a := Select(s, requested, now);
      a.Acquired? ==> Inv(a.state) && a.source < |a.state.table| && a.state.leases == s.leases
                      && (requested.Some? ==> a.state.table[a.source].key != PENDING_KEY)
  {
    if requested.None? {
      if s.entries == [] {
        CreateInv(s, PENDING_KEY, false, "", "cleartext", now);
      } else if |s.entries| == 1 {
        assert s.entries[0] in s.entries;
      }
    }
  }

  lemma ConsumeInv(s: State, id: nat, kind: Kind, pinned: bool, now: real)
    requires Inv(s) && id < |s.table| && !kind.Producer?
    requires pinned ==> s.table[id].key != PENDING_KEY
    ensures Inv(Consume(s, id, kind, pinned, now))
  {
    var t := Consume(s, id, kind, pinned, now);
    var l := Lease(id, kind, 0, 0, pinned, false);
    forall j | 0 <= j < |t.table| ensures Counted(t, j) && IdleSince(t, j) {
      assert Counted(s, j) && IdleSince(s, j);
      forall c ensures Count(t.leases, j, c) == Count(s.leases, j, c) + if Holds(l, j, c) then 1 else 0 {
        CountAppend(s.leases, l, j, c);
      }
    }
    forall i | 0 <= i < |t.leases| ensures Sound(t, t.leases[i]) {
      if i < |s.leases| { assert Sound(s, s.leases[i]); }
    }
  }

  lemma ReleaseInv(s: State, lease: nat, now: real)
    requires Inv(s) && lease < |s.leases|
    ensures s.leases[lease].source < |s.table|
    ensures Inv(Registry.Release(s, lease, now))
  {
    var l := s.leases[lease];
    assert Sound(s, l);
    if !l.closed {
      var t := Registry.Release(s, lease, now);
      var closed := l.(closed := true);
      forall j | 0 <= j < |t.table| ensures Counted(t, j) && IdleSince(t, j) {
        assert Counted(s, j) && IdleSince(s, j);
        forall c ensures Count(t.leases, j, c) == Count(s.leases, j, c) - if Holds(l, j, c) then 1 else 0 {
          CountReplace(s.leases, lease, closed, j, c);
        }
        if j == l.source && l.kind.Producer? && l.generation == s.table[j].gate.generation {
          CountSome(s.leases, j, Live(l.generation), lease);
        }
      }
      forall i | 0 <= i < |t.leases| ensures Sound(t, t.leases[i]) {
        assert Sound(s, s.leases[i]);
        if i != lease && Current(s.table[l.source].gate, l.generation, l.conn) && l.kind.Producer? {
          OnlyLive(s, lease, i);
        }
      }
    }
  }

  // Two open leases cannot both be of the current generation.
  lemma OnlyLive(s: State, a: nat, b: nat)
    requires Books(s) && a < |s.leases| && b < |s.leases| && a != b
    requires var l := s.leases[a];
      l.source < |s.table| && Holds(l, l.source, Live(s.table[l.source].gate.generation))
    ensures var l := s.leases[a]; !Holds(s.leases[b], l.source, Live(s.table[l.source].gate.generation))
  {
    var l := s.leases[a];
    var c := Live(s.table[l.source].gate.generation);
    assert Counted(s, l.source);
    if Holds(s.leases[b], l.source, c) {
      var closed := l.(closed := true);
      CountReplace(s.leases, a, closed, l.source, c);
      CountSome(s.leases[a := closed], l.source, c, b);
    }
  }
}
