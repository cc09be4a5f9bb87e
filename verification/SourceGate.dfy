/**
 The one connection allowed to feed a source, by generation, and why sessions
 never mix: every chunk played is silence or comes from a packet of the current
 generation.
 */
module SourceGates {
  import opened Wrappers
  import opened SerialNumbers
  import opened Octets
  import opened Pcm
  import P = Playout
  import T = AdaptiveTarget
  import Q = Quality
  import opened PlayoutBuffers
  import opened Gates

  // ----- whole runs of one source ----------------------------------------------------

  datatype Source = Source(gate: Gate, hub: P.State)

  datatype Event =
    | Connected(conn: Conn)
    | Fed(generation: nat, number: int, payload: Bytes, arrived: P.IngestTimes)
    | Released(generation: nat, conn: Conn)
    | Played(t: P.ChunkTimes)
    | Disconnected(recorded: real, impaired: real)
    | Closed

  ghost predicate WellFormed(e: Event) { e.Fed? ==> |e.payload| % 2 == 0 && InSpace(Uint32, e.number) }

  function Admits(s: Source, e: Event): bool
    requires e.Fed?
  {
    e.generation == s.gate.generation && P.Classify(Uint32, s.hub, e.number).Accepted()
  }

  function Step(s: Source, e: Event): Source
    requires s.hub.adaptive.Valid()
  {
    match e
    case Connected(conn) => Source(Replace(s.gate, conn), P.ResetSession(s.hub))
    case Fed(generation, number, payload, t) =>
      if generation != s.gate.generation then s else s.(hub := P.Ingest(Uint32, s.hub, number, payload, t))
    case Released(generation, conn) => s.(gate := Release(s.gate, generation, conn))
    case Played(t) => s.(hub := P.NextChunk(Uint32, s.hub, t))
    case Disconnected(recorded, impaired) => s.(hub := P.Disconnected(s.hub, recorded, impaired))
    case Closed => s.(hub := P.Close(s.hub))
  }

  // What the current generation has sent since it connected.
  ghost function Heard(heard: set<Bytes>, s: Source, e: Event): set<Bytes> {
    match e
    case Connected(_) => {}
    case Fed(generation, _, payload, _) => if generation == s.gate.generation then heard + {payload} else heard
    case _ => heard
  }

  // Played as it came, faded, or silence.
  ghost predicate Derived(chunk: Bytes, heard: set<Bytes>, policy: P.Policy) {
    || chunk == Zeros(policy.payloadBytes)
    || chunk in heard
    || exists p, step: nat :: p in heard && |p| % 2 == 0 && chunk == Attenuate(p, policy.maxRepeat, step)
  }

  ghost predicate Owned(s: Source, heard: set<Bytes>) {
    && P.Inv(Uint32, s.hub)
    && (forall k :: k in s.hub.packets ==> s.hub.packets[k] in heard)
    && (s.hub.lastPayload.Some? ==>
          s.hub.lastPayload.value in heard || s.hub.lastPayload.value == Zeros(s.hub.policy.payloadBytes))
  }

  lemma HubStep(s: Source, e: Event)
    requires P.Inv(Uint32, s.hub) && WellFormed(e)
    ensures P.Inv(Uint32, Step(s, e).hub)
  {
    hide P.Inv;
    match e
    case Connected(_) => P.StepInv(Uint32, s.hub, P.SessionReset);
    case Fed(_, number, payload, t) => P.StepInv(Uint32, s.hub, P.Packet(number, payload, t));
    case Released(_, _) =>
    case Played(t) => P.StepInv(Uint32, s.hub, P.Tick(t));
    case Disconnected(recorded, impaired) => P.StepInv(Uint32, s.hub, P.Disconnect(recorded, impaired));
    case Closed => P.StepInv(Uint32, s.hub, P.Closing);
  }

  lemma FedOwned(s: Source, heard: set<Bytes>, e: Event)
    requires Owned(s, heard) && WellFormed(e) && e.Fed?
    ensures var t := Step(s, e).hub; var all := Heard(heard, s, e);
      (forall k :: k in t.packets ==> t.packets[k] in all) && t.lastPayload == s.hub.lastPayload
  {
    hide T.Observe, Q.Record;
  }

  lemma PlayedOwned(s: Source, heard: set<Bytes>, e: Event)
    requires Owned(s, heard) && e.Played?
    ensures var t := Step(s, e).hub;
      && (forall k :: k in t.packets ==> k in s.hub.packets && t.packets[k] == s.hub.packets[k])
      && t.policy == s.hub.policy
      && (t.lastPayload == s.hub.lastPayload
          || (t.lastPayload.Some?
              && (t.lastPayload.value in heard || t.lastPayload.value == Zeros(s.hub.policy.payloadBytes))))
  {
    hide T.Observe, T.Impair, Q.Record;
  }

  /** Every step keeps the buffer and the concealment payload within the current generation. */
  lemma OwnedStep(s: Source, heard: set<Bytes>, e: Event)
    requires Owned(s, heard) && WellFormed(e)
    ensures Owned(Step(s, e), Heard(heard, s, e))
  {
    HubStep(s, e);
    hide P.Ingest, P.NextChunk, P.Inv;
    match e
    case Connected(_) =>
    case Fed(_, _, _, _) => FedOwned(s, heard, e);
    case Released(_, _) =>
    case Played(_) => PlayedOwned(s, heard, e);
    case Disconnected(_, _) =>
    case Closed =>
  }

  lemma ChunkDerived(s: Source, heard: set<Bytes>)
    requires Owned(s, heard)
    ensures var c := P.ChunkOf(s.hub, P.Emit(Uint32, s.hub)); c.Some? ==> Derived(c.value, heard, s.hub.policy)
  {
    hide Attenuate;
    var hub, m := s.hub, P.Emit(Uint32, s.hub);
    if m.Concealed? && hub.lastPayload.Some? && hub.lossRun + 1 <= hub.policy.maxRepeat {
      var last := hub.lastPayload.value;
      if last !in heard {
        AttenuateToSilence(last, hub.policy.maxRepeat, hub.lossRun + 1);
      }
    }
  }

  ghost function HeardOver(heard: set<Bytes>, s: Source, es: seq<Event>): set<Bytes>
    requires P.Inv(Uint32, s.hub) && forall e :: e in es ==> WellFormed(e)
    decreases |es|
  {
    if es == [] then heard
    else
      assert es[0] in es;
      HubStep(s, es[0]);
      HeardOver(Heard(heard, s, es[0]), Step(s, es[0]), es[1..])
  }

  function Run(s: Source, es: seq<Event>): Source
    requires P.Inv(Uint32, s.hub) && forall e :: e in es ==> WellFormed(e)
    decreases |es|
  {
    if es == [] then s
    else
      assert es[0] in es;
      HubStep(s, es[0]);
      Run(Step(s, es[0]), es[1..])
  }

  /**
   Sessions never mix: after any run, whatever is played next is silence, a packet
   the current generation sent since it connected, or a fade of one.
   */
  lemma {:induction false} SessionsNeverMix(s: Source, heard: set<Bytes>, es: seq<Event>)
    requires Owned(s, heard) && forall e :: e in es ==> WellFormed(e)
    ensures var t := Run(s, es); var all := HeardOver(heard, s, es);
      && Owned(t, all)
      && var c := P.ChunkOf(t.hub, P.Emit(Uint32, t.hub)); c.Some? ==> Derived(c.value, all, t.hub.policy)
    decreases |es|
  {
    hide Step;
    if es == [] {
      ChunkDerived(s, heard);
    } else {
      assert es[0] in es;
      HubStep(s, es[0]);
      OwnedStep(s, heard, es[0]);
      SessionsNeverMix(Step(s, es[0]), Heard(heard, s, es[0]), es[1..]);
    }
  }

  lemma {:induction false} RunHub(s: Source, es: seq<Event>)
    requires P.Inv(Uint32, s.hub) && forall e :: e in es ==> WellFormed(e)
    ensures P.Inv(Uint32, Run(s, es).hub)
    decreases |es|
  {
    hide Step;
    if es != [] {
      assert es[0] in es;
      HubStep(s, es[0]);
      RunHub(Step(s, es[0]), es[1..]);
    }
  }

  lemma {:induction false} GenerationsRise(s: Source, es: seq<Event>)
    requires P.Inv(Uint32, s.hub) && forall e :: e in es ==> WellFormed(e)
    ensures Run(s, es).gate.generation >= s.gate.generation
    decreases |es|
  {
    if es != [] {
      assert es[0] in es;
      HubStep(s, es[0]);
      assert Step(s, es[0]).gate.generation >= s.gate.generation;
      GenerationsRise(Step(s, es[0]), es[1..]);
    }
  }

  /**
   Once a producer is replaced, no packet of its generation is accepted or changes
   anything, however long it goes on and whichever events lie between, further
   connections included.
   */
  lemma ReplacedProducerIsShutOut(s: Source, conn: Conn, es: seq<Event>, late: Event)
    requires P.Inv(Uint32, s.hub) && (forall e :: e in es ==> WellFormed(e))
    requires late.Fed? && WellFormed(late) && late.generation <= s.gate.generation
    ensures P.Inv(Uint32, Step(s, Connected(conn)).hub)
    ensures var t := Run(Step(s, Connected(conn)), es);
      t.hub.adaptive.Valid() && !Admits(t, late) && Step(t, late) == t
  {
    HubStep(s, Connected(conn));
    var after := Step(s, Connected(conn));
    GenerationsRise(after, es);
    RunHub(after, es);
  }

  /**
   A producer that has just connected is heard: on an open buffer its first packet is taken,
   is all that is held, and plays next once playout is ready.
   */
  lemma NewProducerIsHeard(s: Source, conn: Conn, first: Event)
    requires P.Inv(Uint32, s.hub) && !s.hub.closed && first.Fed? && WellFormed(first)
    requires first.generation == s.gate.generation + 1
    ensures P.Inv(Uint32, Step(s, Connected(conn)).hub)
    ensures var c := Step(s, Connected(conn));
      && c.gate == Gate(first.generation, Some(conn)) && c.hub.packets == map[] && Admits(c, first)
      && var t := Step(c, first);
         && t.hub.packets == map[first.number := first.payload] && t.hub.playout == Some(first.number)
         && (t.hub.ready <==> t.hub.adaptive.target <= 1)
  {
    HubStep(s, Connected(conn));
    hide T.Observe, Q.Record;
  }

  // ----- the object ---------------------------------------------------------------------

  class TcpSourceGate {
    const hub: PlayoutBuffer
    var connection: Option<Conn>
    var generation: nat

    ghost function View(): Source
      reads this, hub, hub.adaptive, hub.quality
    {
      Source(Gate(generation, connection), hub.View())
    }

    constructor (hub: PlayoutBuffer)
      ensures this.hub == hub && View() == Source(SHUT, hub.View())
    {
      this.hub, connection, generation := hub, None, 0;
    }

    // Returns the new generation and the connection to shut down.
    method Connect(conn: Conn) returns (current: nat, previous: Option<Conn>)
      requires hub.Valid()
      modifies this, hub, hub.adaptive
      ensures hub.Valid() && View() == Step(old(View()), Connected(conn))
      ensures current == generation && previous == old(connection)
    {
      previous := connection;
      generation := generation + 1;
      current := generation;
      connection := Some(conn);
      hub.ResetSourceSession();
    }

    method Ingest(fedBy: nat, number: int, payload: Bytes, t: P.IngestTimes) returns (ok: bool)
      requires hub.Valid() && InSpace(Uint32, number) && |payload| % 2 == 0
      modifies hub, hub.adaptive, hub.quality
      ensures hub.Valid() && View() == Step(old(View()), Fed(fedBy, number, payload, t))
      ensures ok == Admits(old(View()), Fed(fedBy, number, payload, t))
    {
      hide P.Ingest;
      if fedBy != generation {
        return false;
      }
      ok := hub.Ingest(number, payload, t);
    }

    method Release(releasedBy: nat, conn: Conn) returns (ok: bool)
      requires hub.Valid()
      modifies this
      ensures View() == Step(old(View()), Released(releasedBy, conn))
      ensures ok == Current(old(View()).gate, releasedBy, conn)
    {
      if releasedBy != generation || connection != Some(conn) {
        return false;
      }
      connection := None;
      return true;
    }
  }
}
