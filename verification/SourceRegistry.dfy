/**
 Source admission, selection, leases and eviction, as steps on a value. Sources
 and leases are records in tables, named by their position; the registry itself
 is a dictionary in insertion order from keys to sources.
 */
module Registry {
  import opened Wrappers
  import opened Gates

  type Key = string

  const PENDING_KEY: Key := "pending"

  datatype Kind = Producer | Http | Recording

  datatype Lease = Lease(source: nat, kind: Kind, conn: Conn, generation: nat, pinned: bool, closed: bool)

  datatype Record = Record(
    key: Key, gate: Gate, permanent: bool, disconnectedAt: real, connected: bool,
    httpClients: int, pinnedClients: int, recordings: int, peer: string, transport: string)

  datatype Entry = Entry(key: Key, source: nat)

  // `parse` is the canonical form of an IPv4 address or key id, or nothing.
  datatype Policy = Policy(maxSources: nat, allowed: seq<Key>, idleSeconds: real, parse: string -> Option<Key>) {
    ghost predicate Valid() {
      && 1 <= maxSources && |allowed| <= maxSources && idleSeconds > 0.0
      && PENDING_KEY !in allowed
      && (forall i, j :: 0 <= i < j < |allowed| ==> allowed[i] != allowed[j])
      && (forall x :: parse(x) != Some(PENDING_KEY))
    }
  }

  // `claims` is the history this model adds: when each source was last created, leased or released.
  datatype State = State(policy: Policy, entries: seq<Entry>, table: seq<Record>, leases: seq<Lease>, claims: seq<real>)

  datatype Refusal = NotAllowed | BadIdentity | LimitReached | UnknownSource | Ambiguous

  // ----- the dictionary -----------------------------------------------------------------

  function Find(entries: seq<Entry>, key: Key): (r: Option<nat>)
    ensures r.Some? ==> Entry(key, r.value) in entries
  {
    if entries == [] then None
    else if entries[0].key == key then Some(entries[0].source)
    else Find(entries[1..], key)
  }

  function Delete(entries: seq<Entry>, key: Key): seq<Entry> {
    if entries == [] then []
    else if entries[0].key == key then entries[1..]
    else [entries[0]] + Delete(entries[1..], key)
  }

  function Update(s: State, id: nat, r: Record): State
    requires id < |s.table|
  {
    s.(table := s.table[id := r])
  }

  function Claim(s: State, id: nat, now: real): State
    requires id < |s.claims|
  {
    s.(claims := s.claims[id := now])
  }

  // ----- eviction ------------------------------------------------------------------------

  predicate Unused(r: Record) { !r.connected && r.httpClients == 0 && r.recordings == 0 }

  predicate Expired(policy: Policy, r: Record, now: real) {
    !r.permanent && Unused(r) && now - r.disconnectedAt >= policy.idleSeconds
  }

  ghost predicate InTable(entries: seq<Entry>, size: nat) {
    forall e :: e in entries ==> e.source < size
  }

  function Kept(policy: Policy, table: seq<Record>, entries: seq<Entry>, now: real): seq<Entry>
    requires InTable(entries, |table|)
  {
    if entries == [] then []
    else if Expired(policy, table[entries[0].source], now) then Kept(policy, table, entries[1..], now)
    else [entries[0]] + Kept(policy, table, entries[1..], now)
  }

  function Evict(s: State, now: real): State
    requires InTable(s.entries, |s.table|)
  {
    s.(entries := Kept(s.policy, s.table, s.entries, now))
  }

  // ----- admission of a producer ------------------------------------------------------------

  function Create(s: State, key: Key, permanent: bool, peer: string, transport: string, now: real): State {
    s.(entries := s.entries + [Entry(key, |s.table|)],
       table := s.table + [Record(key, SHUT, permanent, now, false, 0, 0, 0, peer, transport)],
       claims := s.claims + [now])
  }

  predicate Suits(r: Record, candidate: Key, peer: string, atCapacity: bool) {
    !r.connected && r.recordings == 0 &&
    if candidate == PENDING_KEY then true
    else if candidate == peer && r.permanent then r.pinnedClients == 0
    else atCapacity && r.httpClients == 0 && (candidate == peer || (!r.permanent && r.peer == peer))
  }

  function Others(entries: seq<Entry>, peer: string): seq<Key> {
    if entries == [] then []
    else
      (if entries[0].key == peer || entries[0].key == PENDING_KEY then [] else [entries[0].key])
      + Others(entries[1..], peer)
  }

  function Candidates(entries: seq<Entry>, peer: string): seq<Key> {
    [peer, PENDING_KEY] + Others(entries, peer)
  }

  predicate Reusable(s: State, candidate: Key, peer: string, atCapacity: bool)
    requires InTable(s.entries, |s.table|)
  {
    var id := Find(s.entries, candidate);
    id.Some? && Suits(s.table[id.value], candidate, peer, atCapacity)
  }

  function FirstReusable(s: State, candidates: seq<Key>, peer: string, atCapacity: bool): (r: Option<Key>)
    requires InTable(s.entries, |s.table|)
    ensures r.Some? ==> Reusable(s, r.value, peer, atCapacity)
  {
    if candidates == [] then None
    else if Reusable(s, candidates[0], peer, atCapacity) then Some(candidates[0])
    else FirstReusable(s, candidates[1..], peer, atCapacity)
  }

  function IsPermanent(policy: Policy, key: Key, peer: string): bool { key == peer && peer in policy.allowed }

  function Rekey(s: State, before: Key, id: nat, key: Key, peer: string, transport: string): State
    requires id < |s.table|
  {
    var r := s.table[id];
    Update(s.(entries := Delete(s.entries, before) + [Entry(key, id)]), id,
           r.(key := key, permanent := IsPermanent(s.policy, key, peer), peer := peer, transport := transport))
  }

  datatype Acquired = Acquired(state: State, source: nat) | Denied(refusal: Refusal)

  function Acquire(s: State, key: string, peer: string, transport: string, now: real): Acquired
    requires InTable(s.entries, |s.table|)
  {
    if s.policy.allowed != [] && peer !in s.policy.allowed then Denied(NotAllowed)
    else
      var canonical := s.policy.parse(key);
      if canonical.None? then Denied(BadIdentity)
      else
        var existing := Find(s.entries, canonical.value);
        if existing.Some? then
          Acquired(Update(s, existing.value, s.table[existing.value].(peer := peer, transport := transport)),
                   existing.value)
        else
          var full := |s.entries| >= s.policy.maxSources;
          var reusable := FirstReusable(s, Candidates(s.entries, peer), peer, full);
          if reusable.Some? then
            var id := Find(s.entries, reusable.value).value;
            Acquired(Rekey(s, reusable.value, id, canonical.value, peer, transport), id)
          else if full then Denied(LimitReached)
          else
            Acquired(Create(s, canonical.value, IsPermanent(s.policy, canonical.value, peer), peer, transport, now),
                     |s.table|)
  }

  // Connect a producer to an acquired source.
  function Connect(s: State, id: nat, conn: Conn, now: real): State
    requires id < |s.table| && id < |s.claims|
  {
    var gate := Replace(s.table[id].gate, conn);
    Claim(Update(s, id, s.table[id].(gate := gate, connected := true)), id, now)
      .(leases := s.leases + [Lease(id, Producer, conn, gate.generation, false, false)])
  }

  // ----- consumers -----------------------------------------------------------------------------

  function Select(s: State, requested: Option<string>, now: real): Acquired {
    if requested.Some? then
      var key := s.policy.parse(requested.value);
      if key.None? then Denied(BadIdentity)
      else
        var id := Find(s.entries, key.value);
        if id.None? then Denied(UnknownSource) else Acquired(s, id.value)
    else if s.entries == [] then Acquired(Create(s, PENDING_KEY, false, "", "cleartext", now), |s.table|)
    else if |s.entries| == 1 then Acquired(s, s.entries[0].source)
    else Denied(Ambiguous)
  }

  function Consume(s: State, id: nat, kind: Kind, pinned: bool, now: real): State
    requires id < |s.table| && id < |s.claims|
  {
    var r := s.table[id];
    var counted := if kind.Http?
                   then r.(httpClients := r.httpClients + 1, pinnedClients := r.pinnedClients + if pinned then 1 else 0)
                   else r.(recordings := r.recordings + 1);
    Claim(Update(s, id, counted), id, now).(leases := s.leases + [Lease(id, kind, 0, 0, pinned, false)])
  }

  // ----- release ----------------------------------------------------------------------------------

  function Returned(r: Record, lease: Lease, now: real): Record {
    var freed :=
      if lease.kind.Producer? then
        if Current(r.gate, lease.generation, lease.conn)
        then r.(gate := Gates.Release(r.gate, lease.generation, lease.conn), connected := false, disconnectedAt := now)
        else r
      else if lease.kind.Http? then
        r.(httpClients := r.httpClients - 1, pinnedClients := r.pinnedClients - if lease.pinned then 1 else 0)
      else r.(recordings := r.recordings - 1);
    if Unused(freed) then freed.(disconnectedAt := now) else freed
  }

  function Release(s: State, lease: nat, now: real): State
    requires lease < |s.leases| && s.leases[lease].source < |s.table| && s.leases[lease].source < |s.claims|
  {
    var l := s.leases[lease];
    if l.closed then s
    else
      Claim(Update(s, l.source, Returned(s.table[l.source], l, now)), l.source, now)
        .(leases := s.leases[lease := l.(closed := true)])
  }

  // ----- operations ----------------------------------------------------------------------------------

  datatype Operation =
    | LeaseProducer(key: string, conn: Conn, peer: string, transport: string)
    | LeaseHttp(requested: Option<string>)
    | LeaseRecording(requested: Option<string>)
    | ReleaseLease(lease: nat)
    | Snapshot
    | Shutdown

  // ----- open leases ------------------------------------------------------------------------------------

  datatype Claimant = AnyHttp | PinnedHttp | AnyRecording | Live(generation: nat)

  predicate Holds(l: Lease, id: nat, c: Claimant) {
    !l.closed && l.source == id &&
    match c
    case AnyHttp => l.kind.Http?
    case PinnedHttp => l.kind.Http? && l.pinned
    case AnyRecording => l.kind.Recording?
    case Live(g) => l.kind.Producer? && l.generation == g
  }

  ghost function Count(leases: seq<Lease>, id: nat, c: Claimant): nat {
    if leases == [] then 0
    else Count(leases[..|leases| - 1], id, c) + if Holds(leases[|leases| - 1], id, c) then 1 else 0
  }

  lemma CountAppend(leases: seq<Lease>, l: Lease, id: nat, c: Claimant)
    ensures Count(leases + [l], id, c) == Count(leases, id, c) + if Holds(l, id, c) then 1 else 0
  {
    assert (leases + [l])[..|leases|] == leases;
  }

  lemma {:induction false} CountReplace(leases: seq<Lease>, i: nat, l: Lease, id: nat, c: Claimant)
    requires i < |leases|
    ensures Count(leases[i := l], id, c) == Count(leases, id, c)
              - (if Holds(leases[i], id, c) then 1 else 0) + (if Holds(l, id, c) then 1 else 0)
    decreases |leases|
  {
    var n := |leases| - 1;
    if i < n {
      assert leases[i := l][..n] == leases[..n][i := l];
      CountReplace(leases[..n], i, l, id, c);
    } else {
      assert leases[i := l][..n] == leases[..n];
    }
  }

  lemma {:induction false} CountPinned(leases: seq<Lease>, id: nat)
    ensures Count(leases, id, PinnedHttp) <= Count(leases, id, AnyHttp)
    decreases |leases|
  {
    if leases != [] { CountPinned(leases[..|leases| - 1], id); }
  }

  lemma {:induction false} CountNone(leases: seq<Lease>, id: nat, c: Claimant)
    requires forall i :: 0 <= i < |leases| ==> !Holds(leases[i], id, c)
    ensures Count(leases, id, c) == 0
    decreases |leases|
  {
    if leases != [] { CountNone(leases[..|leases| - 1], id, c); }
  }

  lemma {:induction false} CountSome(leases: seq<Lease>, id: nat, c: Claimant, i: nat)
    requires i < |leases| && Holds(leases[i], id, c)
    ensures Count(leases, id, c) >= 1
    decreases |leases|
  {
    if i < |leases| - 1 { CountSome(leases[..|leases| - 1], id, c, i); }
  }

  // ----- the invariant --------------------------------------------------------------------------------

  // No two entries share a key or a source.
  ghost predicate Distinct(entries: seq<Entry>) {
    forall i, j :: 0 <= i < j < |entries| ==> entries[i].key != entries[j].key && entries[i].source != entries[j].source
  }

  ghost predicate KeysMatch(entries: seq<Entry>, table: seq<Record>)
    requires InTable(entries, |table|)
  {
    forall e :: e in entries ==> table[e.source].key == e.key
  }

  // A source's counters are its open leases.
  ghost predicate Counted(s: State, id: nat)
    requires id < |s.table|
  {
    var r := s.table[id];
    && r.httpClients == Count(s.leases, id, AnyHttp)
    && r.pinnedClients == Count(s.leases, id, PinnedHttp)
    && r.recordings == Count(s.leases, id, AnyRecording)
    && Count(s.leases, id, Live(r.gate.generation)) == (if r.connected then 1 else 0)
    && (r.key == PENDING_KEY ==> r.pinnedClients == 0)
  }

  // An open lease names a source, a generation it has had, and its connection while that is current.
  ghost predicate Sound(s: State, l: Lease) {
    && l.source < |s.table|
    && (l.kind.Producer? ==> l.generation <= s.table[l.source].gate.generation)
    && (l.kind.Producer? && !l.closed && l.generation == s.table[l.source].gate.generation ==>
          s.table[l.source].gate.connection == Some(l.conn))
  }

  // An unused source's idle time runs from its last claim.
  ghost predicate IdleSince(s: State, id: nat)
    requires id < |s.table| && id < |s.claims|
  {
    Unused(s.table[id]) ==> s.table[id].disconnectedAt == s.claims[id]
  }

  ghost predicate Dictionary(s: State) {
    && |s.entries| <= s.policy.maxSources
    && InTable(s.entries, |s.table|)
    && Distinct(s.entries) && KeysMatch(s.entries, s.table)
  }

  ghost predicate Books(s: State) {
    && |s.claims| == |s.table|
    && (forall id {:trigger Counted(s, id)} :: 0 <= id < |s.table| ==> Counted(s, id))
    && (forall id {:trigger IdleSince(s, id)} :: 0 <= id < |s.table| ==> IdleSince(s, id))
    && (forall i {:trigger s.leases[i]} :: 0 <= i < |s.leases| ==> Sound(s, s.leases[i]))
  }

  ghost predicate Inv(s: State) { s.policy.Valid() && Dictionary(s) && Books(s) }
}
