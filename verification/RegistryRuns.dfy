/** Whole runs of the registry, and the registry as an object. */
module RegistryRuns {
  import opened Wrappers
  import opened Gates
  import opened Registry
  import opened RegistrySafety

  function Initial(policy: Policy, now: real): State {
    State(policy, seq(|policy.allowed|, i requires 0 <= i < |policy.allowed| => Entry(policy.allowed[i], i)),
          seq(|policy.allowed|, i requires 0 <= i < |policy.allowed| =>
                Record(policy.allowed[i], SHUT, true, now, false, 0, 0, 0, policy.allowed[i], "cleartext")),
          [], seq(|policy.allowed|, _ => now))
  }

  lemma InitialInv(policy: Policy, now: real)
    requires policy.Valid()
    ensures Inv(Initial(policy, now))
  {
    var s := Initial(policy, now);
    forall id | 0 <= id < |s.table| ensures Counted(s, id) && IdleSince(s, id) {}
  }

  function Perform(s: State, op: Operation, now: real): State
    requires Inv(s)
  {
    match op
    case LeaseProducer(key, conn, peer, transport) =>
      EvictInv(s, now);
      var e := Evict(s, now);
      AcquireInv(e, key, peer, transport, now);
      var a := Acquire(e, key, peer, transport, now);
      if a.Denied? then e else Connect(a.state, a.source, conn, now)
    case LeaseHttp(requested) => Subscribe(s, requested, Http, now)
    case LeaseRecording(requested) => Subscribe(s, requested, Recording, now)
    case ReleaseLease(lease) =>
      if lease < |s.leases| then
        ReleaseInv(s, lease, now);
        Registry.Release(s, lease, now)
      else s
    case Snapshot => Evict(s, now)
    case Shutdown => s.(entries := [])
  }

  function Subscribe(s: State, requested: Option<string>, kind: Kind, now: real): State
    requires Inv(s) && !kind.Producer?
  {
    EvictInv(s, now);
    var e := Evict(s, now);
    SelectInv(e, requested, now);
    var a := Select(e, requested, now);
    if a.Denied? then e else Consume(a.state, a.source, kind, requested.Some?, now)
  }

  // Why an operation is refused, after it has evicted what had expired.
  function Refusal(s: State, op: Operation, now: real): Option<Registry.Refusal>
    requires Inv(s)
  {
    EvictInv(s, now);
    var e := Evict(s, now);
    match op
    case LeaseProducer(key, _, peer, transport) =>
      (match Acquire(e, key, peer, transport, now) case Denied(why) => Some(why) case _ => None)
    case LeaseHttp(requested) => (match Select(e, requested, now) case Denied(why) => Some(why) case _ => None)
    case LeaseRecording(requested) => (match Select(e, requested, now) case Denied(why) => Some(why) case _ => None)
    case _ => None
  }

  lemma SubscribeInv(s: State, requested: Option<string>, kind: Kind, now: real)
    requires Inv(s) && !kind.Producer?
    ensures Inv(Subscribe(s, requested, kind, now))
  {
    EvictInv(s, now);
    var e := Evict(s, now);
    SelectInv(e, requested, now);
    var a := Select(e, requested, now);
    if a.Acquired? { ConsumeInv(a.state, a.source, kind, requested.Some?, now); }
  }

  /** Every operation keeps the registry's invariant. */
  lemma PerformInv(s: State, op: Operation, now: real)
    requires Inv(s)
    ensures Inv(Perform(s, op, now))
  {
    match op
    case LeaseProducer(key, conn, peer, transport) =>
      EvictInv(s, now);
      var e := Evict(s, now);
      AcquireInv(e, key, peer, transport, now);
      var a := Acquire(e, key, peer, transport, now);
      if a.Acquired? { ConnectInv(a.state, a.source, conn, now); }
    case LeaseHttp(requested) => SubscribeInv(s, requested, Http, now);
    case LeaseRecording(requested) => SubscribeInv(s, requested, Recording, now);
    case ReleaseLease(lease) => if lease < |s.leases| { ReleaseInv(s, lease, now); }
    case Snapshot => EvictInv(s, now);
    case Shutdown => ShutdownInv(s);
  }

  lemma ShutdownInv(s: State)
    requires Inv(s)
    ensures Inv(s.(entries := []))
  {
    BooksTransfer(s, s.(entries := []));
  }

  datatype Timed = Timed(op: Operation, now: real)

  function Run(s: State, ops: seq<Timed>): State
    requires Inv(s)
    decreases |ops|
  {
    if ops == [] then s
    else
      PerformInv(s, ops[0].op, ops[0].now);
      Run(Perform(s, ops[0].op, ops[0].now), ops[1..])
  }

  /**
   In every reachable state: at most `maxSources` entries, each stored under its own
   key; consumer counters are the open leases of each kind; and a source is connected
   exactly when an open producer lease has its current generation.
   */
  lemma {:induction false} ReachableStatesAreSound(s: State, ops: seq<Timed>, id: nat)
    requires Inv(s)
    ensures var t := Run(s, ops);
      && |t.entries| <= t.policy.maxSources
      && (forall e :: e in t.entries ==> e.source < |t.table| && t.table[e.source].key == e.key)
      && (id < |t.table| ==>
            && t.table[id].httpClients == Count(t.leases, id, AnyHttp)
            && t.table[id].pinnedClients == Count(t.leases, id, PinnedHttp)
            && t.table[id].recordings == Count(t.leases, id, AnyRecording)
            && (t.table[id].connected <==> Count(t.leases, id, Live(t.table[id].gate.generation)) == 1))
    ensures Inv(Run(s, ops))
    decreases |ops|
  {
    if ops == [] {
      if id < |s.table| { assert Counted(s, id); }
    } else {
      PerformInv(s, ops[0].op, ops[0].now);
      ReachableStatesAreSound(Perform(s, ops[0].op, ops[0].now), ops[1..], id);
    }
  }

  ghost predicate Bound(s: State, id: nat)
    requires id < |s.table|
  {
    || Count(s.leases, id, PinnedHttp) > 0
    || Count(s.leases, id, AnyRecording) > 0
    || Count(s.leases, id, Live(s.table[id].gate.generation)) > 0
  }

  /** Until shutdown, no operation evicts or re-keys a source with a pinned, recording or live producer lease. */
  lemma BoundSourceStays(s: State, op: Operation, now: real, e: Entry)
    requires Inv(s) && e in s.entries && !op.Shutdown?
    requires Bound(s, e.source)
    ensures e in Perform(s, op, now).entries
  {
    CountPinned(s.leases, e.source);
    EvictedExactly(s, now, e);
    EvictInv(s, now);
    var v := Evict(s, now);
    match op
    case LeaseProducer(key, conn, peer, transport) =>
      AcquireInv(v, key, peer, transport, now);
      RekeyedIsUnbound(v, key, peer, transport, now, e);
    case LeaseHttp(requested) => SelectInv(v, requested, now);
    case LeaseRecording(requested) => SelectInv(v, requested, now);
    case ReleaseLease(lease) => if lease < |s.leases| { ReleaseInv(s, lease, now); }
    case Snapshot =>
  }

  // The source is bound at every state of a run that has no shutdown.
  ghost predicate BoundThroughout(s: State, ops: seq<Timed>, id: nat)
    requires Inv(s)
    decreases |ops|
  {
    && id < |s.table| && Bound(s, id)
    && (ops == [] || (
          PerformInv(s, ops[0].op, ops[0].now);
          !ops[0].op.Shutdown? && BoundThroughout(Perform(s, ops[0].op, ops[0].now), ops[1..], id)))
  }

  /** Over any run, for as long as a source is bound it keeps its entry, under the same key. */
  lemma {:induction false} BoundSourceStaysThroughout(s: State, ops: seq<Timed>, e: Entry)
    requires Inv(s) && e in s.entries && BoundThroughout(s, ops, e.source)
    ensures e in Run(s, ops).entries
    decreases |ops|
  {
    if ops != [] {
      PerformInv(s, ops[0].op, ops[0].now);
      BoundSourceStays(s, ops[0].op, ops[0].now, e);
      hide Perform, Bound;
      BoundSourceStaysThroughout(Perform(s, ops[0].op, ops[0].now), ops[1..], e);
    }
  }

  // ----- a superseded lease holds nothing ------------------------------------------------------

  const LOOSE := Policy(1, [], 300.0, (x: string) => if x == PENDING_KEY then None else Some(x))

  const DEVICE := "10.0.0.2"

  // One source fed by one connection, then by a second one that superseded it.
  const ONCE := State(LOOSE, [Entry(DEVICE, 0)],
                      [Record(DEVICE, Gate(1, Some(1)), false, 0.0, true, 0, 0, 0, DEVICE, "cleartext")],
                      [Lease(0, Producer, 1, 1, false, false)], [0.0])
  const TWICE := State(LOOSE, [Entry(DEVICE, 0)],
                       [Record(DEVICE, Gate(2, Some(2)), false, 0.0, true, 0, 0, 0, DEVICE, "cleartext")],
                       [Lease(0, Producer, 1, 1, false, false), Lease(0, Producer, 2, 2, false, false)], [1.0])

  lemma FirstConnection()
    ensures Inv(Initial(LOOSE, 0.0))
    ensures Perform(Initial(LOOSE, 0.0), LeaseProducer(DEVICE, 1, DEVICE, "cleartext"), 0.0) == ONCE
  {
    InitialInv(LOOSE, 0.0);
    var s := Initial(LOOSE, 0.0);
    assert s.entries == [] && s.table == [] && s.claims == [];
    assert Others([], DEVICE) == [];
    assert Acquire(s, DEVICE, DEVICE, "cleartext", 0.0)
        == Acquired(Create(s, DEVICE, false, DEVICE, "cleartext", 0.0), 0);
  }

  lemma SecondConnection()
    requires Inv(ONCE)
    ensures Perform(ONCE, LeaseProducer(DEVICE, 2, DEVICE, "cleartext"), 1.0) == TWICE
  {
    assert Kept(LOOSE, ONCE.table, ONCE.entries, 1.0) == ONCE.entries;
    assert Find(ONCE.entries, DEVICE) == Some(0);
  }

  /**
   A producer lease of an older generation does not keep its source: in a state two
   connections lead to, once the current one is released and the idle period is over,
   the source is evicted while the superseded lease is still open.
   */
  lemma SupersededLeaseDoesNotHold()
    ensures Inv(Initial(LOOSE, 0.0)) && Inv(ONCE) && Inv(TWICE)
    ensures Perform(Initial(LOOSE, 0.0), LeaseProducer(DEVICE, 1, DEVICE, "cleartext"), 0.0) == ONCE
    ensures Perform(ONCE, LeaseProducer(DEVICE, 2, DEVICE, "cleartext"), 1.0) == TWICE
    ensures Inv(Perform(TWICE, ReleaseLease(1), 2.0))
    ensures var t := Perform(Perform(TWICE, ReleaseLease(1), 2.0), Snapshot, 302.0);
      t.entries == [] && !t.leases[0].closed
  {
    FirstConnection();
    PerformInv(Initial(LOOSE, 0.0), LeaseProducer(DEVICE, 1, DEVICE, "cleartext"), 0.0);
    SecondConnection();
    PerformInv(ONCE, LeaseProducer(DEVICE, 2, DEVICE, "cleartext"), 1.0);
    PerformInv(TWICE, ReleaseLease(1), 2.0);
    Expires();
  }

  lemma Expires()
    requires Inv(TWICE) && Inv(Perform(TWICE, ReleaseLease(1), 2.0))
    ensures var t := Perform(Perform(TWICE, ReleaseLease(1), 2.0), Snapshot, 302.0);
      t.entries == [] && t.leases != [] && !t.leases[0].closed
  {
    var s := Perform(TWICE, ReleaseLease(1), 2.0);
    assert s == Registry.Release(TWICE, 1, 2.0);
    assert s.entries == TWICE.entries;
    assert s.table[0].disconnectedAt == 2.0 && Unused(s.table[0]);
    assert Expired(LOOSE, s.table[0], 302.0);
    assert Kept(LOOSE, s.table, s.entries, 302.0) == [];
  }
}
