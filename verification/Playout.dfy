/**
 Packet ordering, loss concealment and paced playout, as steps on a value. Each
 step takes the sequence space, so that the same policy can be read over uint32
 numbers (what runs) and over unbounded ones (what it should mean).
 */
module Playout {
  import opened Wrappers
  import opened SerialNumbers
  import opened Octets
  import opened Pcm
  import T = AdaptiveTarget
  import Q = Quality

  datatype Policy = Policy(payloadBytes: nat, maxRepeat: nat, maxBuffered: int, maxOutage: int) {
    predicate Valid() { payloadBytes % 2 == 0 && maxBuffered >= 1 && maxOutage >= 1 }
  }

  datatype Stats = Stats(
    packets: nat, missing: nat, silence: nat, late: nat, reordered: nat, duplicate: nat,
    underruns: nat, overflows: nat, expansions: nat, reductions: nat)

  const NO_STATS := Stats(0, 0, 0, 0, 0, 0, 0, 0, 0, 0)

  datatype State = State(
    policy: Policy,
    packets: map<int, Bytes>,
    ready: bool, closed: bool,
    lastPayload: Option<Bytes>, lossRun: nat, outage: nat,
    arrival: Option<int>, playout: Option<int>, highest: Option<int>,
    buffered: bool,   // buffer_ready_at is set
    applied: int,
    stats: Stats,
    adaptive: T.Adaptive,
    quality: Q.Window)

  function Fresh(policy: Policy, adaptive: T.Adaptive): State {
    State(policy, map[], false, false, None, 0, 0, None, None, None, false, adaptive.target,
          NO_STATS, adaptive, Q.EMPTY)
  }

  // ----- admission ---------------------------------------------------------------

  // The clock readings of one admission: for the arrival, a late count, an impairment.
  datatype IngestTimes = IngestTimes(observed: real, recorded: real, impaired: real)

  datatype Admission = Refused | Late | Duplicate | Overflow | Stored {
    predicate Accepted() { Late? || Duplicate? || Stored? }
  }

  function Classify(space: Space, s: State, number: int): Admission {
    if s.closed then Refused
    else if s.playout.Some? && Dist(space, s.playout.value, number) < 0 then Late
    else if number in s.packets then Duplicate
    else if |s.packets| >= s.policy.maxBuffered then Overflow
    else Stored
  }

  function ArrivalAdvance(space: Space, s: State, number: int): Option<int> {
    if s.arrival.None? then None else Some(Dist(space, s.arrival.value, number))
  }

  // What every packet does on an open buffer before it is classified.
  function Arrived(space: Space, s: State, number: int, now: real): State
    requires s.adaptive.Valid()
  {
    var advance := ArrivalAdvance(space, s, number);
    s.(stats := s.stats.(packets := s.stats.packets + 1),
       adaptive := T.Observe(s.adaptive, advance, now),
       arrival := if advance.None? || advance.value > 0 then Some(number) else s.arrival)
  }

  function Place(space: Space, s: State, number: int, payload: Bytes): State {
    var behind := s.highest.Some? && Dist(space, s.highest.value, number) < 0;
    var ahead := s.highest.None? || Dist(space, s.highest.value, number) > 0;
    s.(packets := s.packets[number := payload],
       stats := s.stats.(reordered := s.stats.reordered + if behind then 1 else 0),
       highest := if ahead then Some(number) else s.highest,
       playout := if s.playout.None? then Some(number) else s.playout)
  }

  // Playout may start once the target depth is held.
  function Settle(s: State): State {
    if |s.packets| < s.adaptive.target then s
    else s.(applied := if s.buffered then s.applied else s.adaptive.target, buffered := true, ready := true)
  }

  function Store(space: Space, s: State, number: int, payload: Bytes): State {
    Settle(Place(space, s, number, payload))
  }

  function Ingest(space: Space, s: State, number: int, payload: Bytes, t: IngestTimes): State
    requires s.adaptive.Valid()
  {
    match Classify(space, s, number)
    case Refused => s
    case Late =>
      var a := Arrived(space, s, number, t.observed);
      a.(stats := a.stats.(late := a.stats.late + 1),
         quality := Q.Record(a.quality, Q.LatePackets, t.recorded),
         adaptive := T.Impair(a.adaptive, t.impaired))
    case Duplicate =>
      var a := Arrived(space, s, number, t.observed);
      a.(stats := a.stats.(duplicate := a.stats.duplicate + 1))
    case Overflow =>
      var a := Arrived(space, s, number, t.observed);
      a.(stats := a.stats.(overflows := a.stats.overflows + 1))
    case Stored => Store(space, Arrived(space, s, number, t.observed), number, payload)
  }

  // ----- playout -------------------------------------------------------------------

  // The clock readings of one chunk: for its packet count, an impairment, an underrun.
  datatype ChunkTimes = ChunkTimes(recorded: real, impaired: real, underrun: real)

  datatype Emission =
    | Ended
    | Waiting                               // silence while the buffer fills
    | Expanded                              // one extra silence before a silent packet
    | Reduced(dropped: int, number: int)    // one silent packet skipped, the next one played
    | Played(number: int, payload: Bytes)
    | Concealed(number: int)

  predicate SilentAt(s: State, number: int) { number in s.packets && s.packets[number] == [] }

  function Emit(space: Space, s: State): Emission {
    if s.closed then Ended
    else if !s.ready || s.playout.None? then Waiting
    else
      var number := s.playout.value;
      var following := Next(space, number);
      if SilentAt(s, number) && s.applied < s.adaptive.target then Expanded
      else if SilentAt(s, number) && s.applied > s.adaptive.target && SilentAt(s, following)
        then Reduced(number, following)
      else if number in s.packets then Played(number, s.packets[number])
      else Concealed(number)
  }

  function Quiet(s: State): Bytes { Zeros(s.policy.payloadBytes) }

  function Conceal(s: State, lossRun: nat): Bytes
    requires s.lastPayload.Some? ==> |s.lastPayload.value| % 2 == 0
  {
    if s.lastPayload.Some? && lossRun <= s.policy.maxRepeat
    then Attenuate(s.lastPayload.value, s.policy.maxRepeat, lossRun)
    else Quiet(s)
  }

  function ChunkOf(s: State, e: Emission): Option<Bytes>
    requires s.lastPayload.Some? ==> |s.lastPayload.value| % 2 == 0
  {
    match e
    case Ended => None
    case Waiting => Some(Quiet(s))
    case Expanded => Some(Quiet(s))
    case Reduced(_, _) => Some(Quiet(s))
    case Played(_, payload) => Some(if payload == [] then Quiet(s) else payload)
    case Concealed(_) => Some(Conceal(s, s.lossRun + 1))
  }

  function ClearForRebuffer(s: State): State {
    s.(packets := map[], ready := s.closed && s.ready, playout := None, highest := None,
       adaptive := T.ResetArrivals(s.adaptive), arrival := None, buffered := false, lossRun := 0, outage := 0)
  }

  function PlayPacket(space: Space, s: State, number: int, now: real): State
    requires number in s.packets
  {
    var payload := s.packets[number];
    s.(packets := s.packets - {number},
       stats := s.stats.(silence := s.stats.silence + if payload == [] then 1 else 0),
       quality := Q.Record(s.quality, if payload == [] then Q.SilencePackets else Q.AudioPackets, now),
       lastPayload := Some(if payload == [] then Quiet(s) else payload),
       lossRun := 0, outage := 0,
       playout := Some(Next(space, number)))
  }

  function LosePacket(space: Space, s: State, number: int, t: ChunkTimes): State {
    var lost := s.(stats := s.stats.(missing := s.stats.missing + 1),
                   quality := Q.Record(s.quality, Q.MissingPackets, t.recorded),
                   adaptive := T.Impair(s.adaptive, t.impaired),
                   lossRun := s.lossRun + 1, outage := s.outage + 1,
                   playout := Some(Next(space, number)));
    if lost.outage > s.policy.maxOutage then
      var cleared := ClearForRebuffer(lost);
      cleared.(stats := cleared.stats.(underruns := cleared.stats.underruns + 1),
               quality := Q.Record(cleared.quality, Q.Underruns, t.underrun))
    else lost
  }

  function DropSilence(s: State, number: int): State {
    s.(packets := s.packets - {number}, applied := s.applied - 1,
       stats := s.stats.(reductions := s.stats.reductions + 1))
  }

  function NextChunk(space: Space, s: State, t: ChunkTimes): State {
    match Emit(space, s)
    case Ended => s
    case Waiting => s
    case Expanded => s.(applied := s.applied + 1, stats := s.stats.(expansions := s.stats.expansions + 1))
    case Reduced(dropped, number) =>
      NextIsNew(space, dropped);
      PlayPacket(space, DropSilence(s, dropped), number, t.recorded)
    case Played(number, _) => PlayPacket(space, s, number, t.recorded)
    case Concealed(number) => LosePacket(space, s, number, t)
  }

  // ----- the other operations --------------------------------------------------------

  function ResetSession(s: State): State {
    ClearForRebuffer(s).(lastPayload := None)
  }

  function Close(s: State): State {
    s.(closed := true, packets := map[], ready := true)
  }

  function Disconnected(s: State, recorded: real, impaired: real): State {
    s.(quality := Q.Record(s.quality, Q.Disconnects, recorded), adaptive := T.Impair(s.adaptive, impaired))
  }

  datatype Event =
    | Packet(number: int, payload: Bytes, arrived: IngestTimes)
    | Tick(played: ChunkTimes)
    | SessionReset
    | Disconnect(recorded: real, impaired: real)
    | Closing

  datatype Output = Admitted(ok: bool) | Chunk(pcm: Option<Bytes>) | Silent

  function Step(space: Space, s: State, e: Event): State
    requires s.adaptive.Valid()
  {
    match e
    case Packet(number, payload, t) => Ingest(space, s, number, payload, t)
    case Tick(t) => NextChunk(space, s, t)
    case SessionReset => ResetSession(s)
    case Disconnect(recorded, impaired) => Disconnected(s, recorded, impaired)
    case Closing => Close(s)
  }

  function Outcome(space: Space, s: State, e: Event): Output
    requires s.lastPayload.Some? ==> |s.lastPayload.value| % 2 == 0
  {
    match e
    case Packet(number, _, _) => Admitted(Classify(space, s, number).Accepted())
    case Tick(_) => Chunk(ChunkOf(s, Emit(space, s)))
    case SessionReset => Silent
    case Disconnect(_, _) => Silent
    case Closing => Silent
  }

  // ----- the invariant -----------------------------------------------------------------

  // A packet the framing can deliver: whole 16-bit samples, under a number of the space.
  ghost predicate WellFormed(space: Space, e: Event) {
    e.Packet? ==> |e.payload| % 2 == 0 && InSpace(space, e.number)
  }

  ghost predicate AllEven(packets: map<int, Bytes>) {
    forall k :: k in packets ==> |packets[k]| % 2 == 0
  }

  // Every buffered number is at or ahead of `from`; in uint32 space that is 0 to 2^31-1 ahead.
  ghost predicate NoneBehind(space: Space, packets: map<int, Bytes>, from: int) {
    forall k :: k in packets ==> InSpace(space, k) && Dist(space, from, k) >= 0
  }

  ghost predicate Inv(space: Space, s: State) {
    && s.policy.Valid() && s.adaptive.Valid()
    && (s.lastPayload.Some? ==> |s.lastPayload.value| % 2 == 0)
    && AllEven(s.packets)
    && |s.packets| <= s.policy.maxBuffered
    && s.outage <= s.policy.maxOutage
    && s.adaptive.minimum <= s.applied <= s.adaptive.maximum
    && (s.playout.None? ==> s.packets == map[] && s.highest.None?)
    && (s.playout.Some? ==> InSpace(space, s.playout.value) && NoneBehind(space, s.packets, s.playout.value))
    && (s.ready && !s.closed ==> s.playout.Some?)
    && (s.closed ==> s.packets == map[])
    && (s.buffered ==> s.ready)
  }

  ghost predicate SameBounds(a: T.Adaptive, b: T.Adaptive) {
    b.Valid() && b.minimum == a.minimum && b.maximum == a.maximum
  }

  lemma ObserveKeeps(a: T.Adaptive, advance: Option<int>, now: real)
    requires a.Valid()
    ensures SameBounds(a, T.Observe(a, advance, now))
  {
    if T.GoesOn(advance) { T.ObserveBounds(a, advance, now); }
  }

  lemma FreshInv(space: Space, policy: Policy, adaptive: T.Adaptive)
    requires policy.Valid() && adaptive.Valid()
    ensures Inv(space, Fresh(policy, adaptive))
  {}

  // The head of a wrapping window moves by one only past its own number.
  lemma NextKeepsAhead(space: Space, packets: map<int, Bytes>, from: int)
    requires InSpace(space, from) && NoneBehind(space, packets, from) && from !in packets
    ensures InSpace(space, Next(space, from)) && NoneBehind(space, packets, Next(space, from))
  {
    forall k | k in packets ensures Dist(space, Next(space, from), k) >= 0 {
      if space.Uint32? { NextDistance(from, k); }
    }
  }

  lemma StoreInv(space: Space, s: State, number: int, payload: Bytes)
    requires Inv(space, s) && InSpace(space, number) && |payload| % 2 == 0
    requires !s.closed && number !in s.packets && |s.packets| < s.policy.maxBuffered
    requires s.playout.Some? ==> Dist(space, s.playout.value, number) >= 0
    ensures Inv(space, Store(space, s, number, payload))
  {}

  lemma IngestInv(space: Space, s: State, number: int, payload: Bytes, t: IngestTimes)
    requires Inv(space, s) && InSpace(space, number) && |payload| % 2 == 0
    ensures Inv(space, Ingest(space, s, number, payload, t))
  {
    hide T.Observe, Q.Record;
    if !s.closed {
      ObserveKeeps(s.adaptive, ArrivalAdvance(space, s, number), t.observed);
      var a := Arrived(space, s, number, t.observed);
      assert Inv(space, a);
      if Classify(space, s, number).Stored? { StoreInv(space, a, number, payload); }
    }
  }

  lemma PlayInv(space: Space, s: State, number: int, now: real)
    requires Inv(space, s) && number in s.packets && s.playout == Some(number)
    ensures Inv(space, PlayPacket(space, s, number, now))
  {
    NextKeepsAhead(space, s.packets - {number}, number);
  }

  lemma LoseInv(space: Space, s: State, number: int, t: ChunkTimes)
    requires Inv(space, s) && !s.closed && number !in s.packets && s.playout == Some(number)
    ensures Inv(space, LosePacket(space, s, number, t))
  {
    NextKeepsAhead(space, s.packets, number);
  }

  // Dropping the silent head leaves a buffer whose head is the following number.
  lemma DropInv(space: Space, s: State, number: int)
    requires Inv(space, s) && number in s.packets && s.playout == Some(number)
    requires s.applied > s.adaptive.target
    ensures Inv(space, DropSilence(s, number).(playout := Some(Next(space, number))))
  {
    NextKeepsAhead(space, s.packets - {number}, number);
  }

  lemma ReduceInv(space: Space, s: State, dropped: int, now: real)
    requires Inv(space, s) && s.playout == Some(dropped) && s.applied > s.adaptive.target
    requires dropped in s.packets && Next(space, dropped) in s.packets
    ensures Next(space, dropped) in DropSilence(s, dropped).packets
    ensures Inv(space, PlayPacket(space, DropSilence(s, dropped), Next(space, dropped), now))
  {
    NextIsNew(space, dropped);
    DropInv(space, s, dropped);
    var d, number := DropSilence(s, dropped), Next(space, dropped);
    var moved := d.(playout := Some(number));
    PlayInv(space, moved, number, now);
    assert PlayPacket(space, d, number, now) == PlayPacket(space, moved, number, now);
  }

  lemma NextChunkInv(space: Space, s: State, t: ChunkTimes)
    requires Inv(space, s)
    ensures Inv(space, NextChunk(space, s, t))
  {
    hide T.Observe, Q.Record;
    match Emit(space, s)
    case Ended =>
    case Waiting =>
    case Expanded =>
    case Reduced(dropped, _) => ReduceInv(space, s, dropped, t.recorded);
    case Played(number, _) => PlayInv(space, s, number, t.recorded);
    case Concealed(number) => LoseInv(space, s, number, t);
  }

  /**
   Every operation keeps the invariant, in either space: the buffer never
   exceeds its cap, no buffered number is behind the playout number, and the
   applied depth stays within its bounds.
   */
  lemma StepInv(space: Space, s: State, e: Event)
    requires Inv(space, s) && WellFormed(space, e)
    ensures Inv(space, Step(space, s, e))
  {
    match e
    case Packet(number, payload, t) => IngestInv(space, s, number, payload, t);
    case Tick(t) => NextChunkInv(space, s, t);
    case SessionReset =>
    case Disconnect(_, _) =>
    case Closing =>
  }

  lemma IngestKeepsBounds(space: Space, s: State, number: int, payload: Bytes, t: IngestTimes)
    requires s.adaptive.Valid()
    ensures SameBounds(s.adaptive, Ingest(space, s, number, payload, t).adaptive)
  {
    hide T.Observe, Q.Record;
    ObserveKeeps(s.adaptive, ArrivalAdvance(space, s, number), t.observed);
    var a := Arrived(space, s, number, t.observed).adaptive;
    assert SameBounds(s.adaptive, a) && SameBounds(s.adaptive, T.Impair(a, t.impaired));
  }

  lemma StepKeepsBounds(space: Space, s: State, e: Event)
    requires s.adaptive.Valid()
    ensures SameBounds(s.adaptive, Step(space, s, e).adaptive)
  {
    hide T.Observe, Q.Record;
    match e
    case Packet(number, payload, t) => IngestKeepsBounds(space, s, number, payload, t);
    case Tick(_) =>
    case SessionReset =>
    case Disconnect(_, _) =>
    case Closing =>
  }

  function Run(space: Space, s: State, es: seq<Event>): State
    requires Inv(space, s)
    requires forall e :: e in es ==> WellFormed(space, e)
    decreases |es|
  {
    if es == [] then s
    else
      assert es[0] in es;
      StepInv(space, s, es[0]);
      Run(space, Step(space, s, es[0]), es[1..])
  }

  function Outputs(space: Space, s: State, es: seq<Event>): seq<Output>
    requires Inv(space, s)
    requires forall e :: e in es ==> WellFormed(space, e)
    decreases |es|
  {
    if es == [] then []
    else
      assert es[0] in es;
      StepInv(space, s, es[0]);
      [Outcome(space, s, es[0])] + Outputs(space, Step(space, s, es[0]), es[1..])
  }

  lemma {:induction false} RunInv(space: Space, s: State, es: seq<Event>)
    requires Inv(space, s)
    requires forall e :: e in es ==> WellFormed(space, e)
    ensures Inv(space, Run(space, s, es))
    decreases |es|
  {
    if es != [] {
      assert es[0] in es;
      StepInv(space, s, es[0]);
      RunInv(space, Step(space, s, es[0]), es[1..]);
    }
  }
}
