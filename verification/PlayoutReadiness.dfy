/**
 What each arrival and each tick does, said without the functions that do it: when
 playout starts, what a chunk is, and that a buffer holding its target plays.
 */
module PlayoutReadiness {
  import opened Wrappers
  import opened SerialNumbers
  import opened Octets
  import opened Pcm
  import opened Playout
  import opened PlayoutRefinement
  import L = PlayoutLedger
  import T = AdaptiveTarget
  import Q = Quality

  // ----- arrivals --------------------------------------------------------------------------

  // The packet is behind the number that plays next.
  ghost predicate TooLate(space: Space, s: State, number: int) {
    s.playout.Some? && Dist(space, s.playout.value, number) < 0
  }

  // An arrival for which there is a place.
  ghost predicate Welcome(space: Space, s: State, number: int) {
    !s.closed && !TooLate(space, s, number) && number !in s.packets && |s.packets| < s.policy.maxBuffered
  }

  lemma WelcomeIsStored(space: Space, s: State, number: int)
    ensures Classify(space, s, number).Stored? <==> Welcome(space, s, number)
  {}

  /**
   An open buffer keeps a packet that is not late, not a duplicate and not one too many, and
   no other; the producer is told to go exactly when the buffer is closed or full.
   */
  lemma ArrivalExactly(space: Space, s: State, e: Event)
    requires Inv(space, s) && WellFormed(space, e) && e.Packet?
    ensures var t := Step(space, s, e);
      && t.packets == (if Welcome(space, s, e.number) then s.packets[e.number := e.payload] else s.packets)
      && t.closed == s.closed
      && t.playout == (if Welcome(space, s, e.number) && s.playout.None? then Some(e.number) else s.playout)
    ensures Outcome(space, s, e) == Admitted(
      !s.closed && (TooLate(space, s, e.number) || e.number in s.packets || |s.packets| < s.policy.maxBuffered))
  {
    L.IngestMoves(space, s, e.number, e.payload, e.arrived);
    hide Ingest, Inv;
  }

  lemma ArrivedReady(space: Space, s: State, number: int, now: real)
    requires s.adaptive.Valid()
    ensures var a := Arrived(space, s, number, now);
      a.ready == s.ready && a.buffered == s.buffered && a.applied == s.applied && a.packets == s.packets
  {
    hide T.Observe;
  }

  lemma StoreReady(space: Space, s: State, number: int, payload: Bytes)
    requires number !in s.packets
    ensures var t := Store(space, s, number, payload);
      && t.adaptive == s.adaptive
      && (t.ready <==> s.ready || |s.packets| + 1 >= t.adaptive.target)
      && (t.buffered <==> s.buffered || |s.packets| + 1 >= t.adaptive.target)
      && t.applied == (if !s.buffered && t.buffered then t.adaptive.target else s.applied)
  {}

  /**
   Buffering ends with exactly the stored packet that brings the buffer to its target: then
   playout is ready and the applied depth is the target. Nothing else that arrives changes any of it.
   */
  lemma ReadyExactly(space: Space, s: State, e: Event)
    requires Inv(space, s) && e.Packet?
    ensures var t := Step(space, s, e);
      && (t.ready <==> s.ready || (Welcome(space, s, e.number) && |s.packets| + 1 >= t.adaptive.target))
      && (t.buffered <==> s.buffered || (Welcome(space, s, e.number) && |s.packets| + 1 >= t.adaptive.target))
      && t.applied == (if !s.buffered && t.buffered then t.adaptive.target else s.applied)
  {
    WelcomeIsStored(space, s, e.number);
    ArrivedReady(space, s, e.number, e.arrived.observed);
    if Welcome(space, s, e.number) {
      StoreReady(space, Arrived(space, s, e.number, e.arrived.observed), e.number, e.payload);
    }
    hide Arrived, Store, Inv, T.Impair, Q.Record;
  }

  // ----- ticks -------------------------------------------------------------------------------

  ghost predicate Playing(s: State) { !s.closed && s.ready && s.playout.Some? }

  /** Before playout is ready a chunk is silence and changes nothing; after a close there is none. */
  lemma IdleTick(space: Space, s: State, t: ChunkTimes)
    requires Inv(space, s) && !Playing(s)
    ensures Step(space, s, Tick(t)) == s
    ensures Outcome(space, s, Tick(t)) == Chunk(if s.closed then None else Some(Zeros(s.policy.payloadBytes)))
  {}

  /** A buffered packet with sound in it is the next chunk, once, and playout moves to the number after it. */
  lemma AudioTick(space: Space, s: State, t: ChunkTimes)
    requires Inv(space, s) && Playing(s) && s.playout.value in s.packets && s.packets[s.playout.value] != []
    ensures var n, r := s.playout.value, Step(space, s, Tick(t));
      && Outcome(space, s, Tick(t)) == Chunk(Some(s.packets[n]))
      && r.packets == s.packets - {n} && r.playout == Some(Next(space, n))
      && r.lastPayload == Some(s.packets[n]) && r.lossRun == 0 && r.outage == 0
      && r.applied == s.applied && r.ready && r.buffered == s.buffered && r.adaptive == s.adaptive
  {
    hide Q.Record;
  }

  // A packet of explicit silence is held under this number.
  ghost predicate Hush(s: State, number: int) { number in s.packets && s.packets[number] == [] }

  /**
   A silent packet is one chunk of silence; below the target it first stands for one chunk
   more, and above it two silent packets in a row stand for one.
   */
  lemma SilentTick(space: Space, s: State, t: ChunkTimes)
    requires Inv(space, s) && Playing(s) && Hush(s, s.playout.value)
    ensures var n, r := s.playout.value, Step(space, s, Tick(t));
      && Outcome(space, s, Tick(t)) == Chunk(Some(Zeros(s.policy.payloadBytes)))
      && r.adaptive == s.adaptive && r.ready
      && if s.applied < s.adaptive.target then
           r.packets == s.packets && r.playout == s.playout && r.applied == s.applied + 1
         else if s.applied > s.adaptive.target && Hush(s, Next(space, n)) then
           r.packets == s.packets - {n} - {Next(space, n)} && r.applied == s.applied - 1
           && r.playout == Some(Next(space, Next(space, n)))
         else r.packets == s.packets - {n} && r.applied == s.applied && r.playout == Some(Next(space, n))
  {
    NextIsNew(space, s.playout.value);
    hide Q.Record;
  }

  // The sample times the share of the steps that is left, to within half a unit.
  ghost predicate FadesTo(v: int, w: int, steps: nat, step: nat) {
    -(steps + 1) <= 2 * (w * (steps + 1) - v * (steps + 1 - step)) <= steps + 1
  }

  lemma FadeCurve(v: int, steps: nat, step: nat)
    requires IsSample(v) && step <= steps
    ensures FadesTo(v, Fade(v, steps, step), steps, step)
  {
    hide Gain, Round, Scale;
    GainRange(steps, step);
    GainTimes(steps, step);
    Bracket(v, Fade(v, steps, step), Gain(steps, step), steps + 1, steps + 1 - step);
  }

  // Products by name, so that comparing them is linear.
  function Times(a: real, b: real): real { a * b }

  lemma Bracket(v: int, w: int, gain: real, n: nat, left: nat)
    requires n > 0 && Times(gain, n as real) == left as real
    requires w as real - 0.5 <= Scale(v, gain) <= w as real + 0.5
    ensures -(n as int) <= 2 * (w * n - v * left) <= n
  {
    hide Times, Scale;
    var m := n as real;
    ScaleTimes(v, gain, m, left as real);
    TimesCompare(w as real - 0.5, Scale(v, gain), m);
    TimesCompare(Scale(v, gain), w as real + 0.5, m);
    TimesSpread(w as real, m);
    TimesWhole(w, n);
    TimesWhole(v, left);
  }

  lemma GainTimes(steps: nat, step: nat)
    requires step <= steps
    ensures Times(Gain(steps, step), (steps + 1) as real) == (steps + 1 - step) as real
  {
    var q := step as real / (steps + 1) as real;
    assert q * (steps + 1) as real == step as real;
    assert q <= 1.0;
  }

  lemma ScaleTimes(v: int, gain: real, n: real, left: real)
    requires Times(gain, n) == left
    ensures Times(Scale(v, gain), n) == Times(v as real, left)
  {
    assert v as real * gain * n == v as real * (gain * n);
  }

  lemma TimesCompare(a: real, b: real, n: real)
    requires a <= b && n > 0.0
    ensures Times(a, n) <= Times(b, n)
  {}

  lemma TimesSpread(w: real, n: real)
    ensures Times(w - 0.5, n) == Times(w, n) - 0.5 * n && Times(w + 0.5, n) == Times(w, n) + 0.5 * n
  {}

  lemma TimesWhole(w: int, n: int)
    ensures Times(w as real, n as real) == (w * n) as real
  {}

  /** A fade of a payload is, sample by sample, the linear fade of its samples. */
  lemma AttenuateCurve(payload: Bytes, steps: nat, step: nat, i: nat)
    requires |payload| % 2 == 0 && 2 * i + 1 < |payload| && step <= steps
    ensures FadesTo(SampleAt(payload, i), SampleAt(Attenuate(payload, steps, step), i), steps, step)
  {
    AttenuateAt(payload, steps, step, i);
    FadeCurve(SampleAt(payload, i), steps, step);
  }

  // The next loss is within those that are faded, and there is something to fade.
  ghost predicate Repeats(s: State) { s.lastPayload.Some? && s.lossRun + 1 <= s.policy.maxRepeat }

  /**
   A missing packet is concealed by the linear fade of the last chunk played, as many times
   as the policy repeats, and by silence from then on; playout moves past it and it counts
   as an impairment.
   */
  lemma MissingTick(space: Space, s: State, t: ChunkTimes)
    requires Inv(space, s) && Playing(s) && s.playout.value !in s.packets
    ensures var chunk := Outcome(space, s, Tick(t)).pcm;
      && chunk.Some?
      && (Repeats(s) ==>
            |chunk.value| == |s.lastPayload.value|
            && forall i :: 0 <= i < |s.lastPayload.value| / 2 ==>
                 FadesTo(SampleAt(s.lastPayload.value, i), SampleAt(chunk.value, i), s.policy.maxRepeat, s.lossRun + 1))
      && (!Repeats(s) ==> chunk.value == Zeros(s.policy.payloadBytes))
  {
    if Repeats(s) {
      forall i | 0 <= i < |s.lastPayload.value| / 2
        ensures FadesTo(SampleAt(s.lastPayload.value, i),
                        SampleAt(Attenuate(s.lastPayload.value, s.policy.maxRepeat, s.lossRun + 1), i),
                        s.policy.maxRepeat, s.lossRun + 1)
      {
        AttenuateCurve(s.lastPayload.value, s.policy.maxRepeat, s.lossRun + 1, i);
      }
    }
    hide Attenuate, FadesTo, Q.Record, T.Impair;
  }

  // The target after an impairment of `a`: a step up, at most to the maximum, once a second.
  ghost predicate Raised(a: T.Adaptive, now: real, target: int) {
    if a.lastImpairment.Some? && now - a.lastImpairment.value < 1.0 then target == a.target
    else target == Min(a.maximum, a.target + a.step)
  }

  /** A missing packet moves playout on and raises the target; one too many in a row starts buffering again. */
  lemma MissingMovesOn(space: Space, s: State, t: ChunkTimes)
    requires Inv(space, s) && Playing(s) && s.playout.value !in s.packets
    ensures var r := Step(space, s, Tick(t));
      && Raised(s.adaptive, t.impaired, r.adaptive.target) && r.adaptive.lastImpairment == Some(t.impaired)
      && if s.outage == s.policy.maxOutage then
           r.packets == map[] && !r.ready && !r.buffered && r.playout.None? && r.outage == 0 && r.lossRun == 0
         else
           && r.packets == s.packets && r.ready && r.playout == Some(Next(space, s.playout.value))
           && r.outage == s.outage + 1 && r.lossRun == s.lossRun + 1 && r.lastPayload == s.lastPayload
  {
    hide Q.Record;
  }

  /** A late packet is an impairment too, on top of what its arrival says about jitter. */
  lemma LateImpairs(space: Space, s: State, e: Event)
    requires Inv(space, s) && e.Packet? && !s.closed && TooLate(space, s, e.number)
    ensures var a := Arrived(space, s, e.number, e.arrived.observed).adaptive; var r := Step(space, s, e);
      && Raised(a, e.arrived.impaired, r.adaptive.target) && r.adaptive.lastImpairment == Some(e.arrived.impaired)
      && r.stats.late == s.stats.late + 1
  {
    hide Q.Record, T.Observe;
  }

  // ----- the other events ----------------------------------------------------------------------

  /** A session reset starts buffering again and forgets what was played; a close drops all and wakes the worker. */
  lemma OtherEvents(space: Space, s: State, e: Event)
    requires Inv(space, s) && !e.Packet? && !e.Tick?
    ensures var r := Step(space, s, e);
      && (e.SessionReset? && !s.closed ==>
            !r.ready && !r.buffered && r.packets == map[] && r.playout.None? && r.arrival.None? && r.lastPayload.None?)
      && (e.Disconnect? ==> r.ready == s.ready && r.packets == s.packets && r.playout == s.playout
                            && Raised(s.adaptive, e.impaired, r.adaptive.target))
      && (e.Closing? ==> r.closed && r.ready && r.packets == map[] && r.adaptive == s.adaptive)
  {}

  // ----- runs ------------------------------------------------------------------------------------

  /** A run answers every event, as its state then answers it. */
  lemma {:induction false} EveryEventIsAnswered(space: Space, s: State, es: seq<Event>, i: nat)
    requires Inv(space, s) && i < |es| && forall e :: e in es ==> WellFormed(space, e)
    ensures forall e :: e in es[..i] ==> WellFormed(space, e)
    ensures Inv(space, Run(space, s, es[..i])) && |Outputs(space, s, es)| == |es|
    ensures Outputs(space, s, es)[i] == Outcome(space, Run(space, s, es[..i]), es[i])
    decreases |es|
  {
    assert es[0] in es;
    StepInv(space, s, es[0]);
    var t, rest := Step(space, s, es[0]), es[1..];
    hide Step, Outcome, Inv, WellFormed;
    if i > 0 {
      EveryEventIsAnswered(space, t, rest, i - 1);
      assert es[..i][1..] == rest[..i - 1] && es[..i][0] == es[0];
    } else {
      assert es[..0] == [];
      if rest != [] { EveryEventIsAnswered(space, t, rest, 0); }
    }
  }

  // ----- a buffer that holds its target plays ------------------------------------------------------

  // Every number held has arrived, so none is ahead of the latest arrival.
  ghost predicate NoneAhead(s: State) {
    s.playout.Some? ==>
      && s.arrival.Some? && s.playout.value <= s.arrival.value
      && forall k :: k in s.packets ==> k <= s.arrival.value
  }

  ghost predicate Ripe(s: State) {
    && s.policy.maxBuffered >= s.adaptive.maximum
    && (!s.closed && !s.ready ==> |s.packets| < s.adaptive.target && NoneAhead(s))
  }

  lemma ArrivedTarget(s: State, number: int, now: real)
    requires Inv(Unbounded, s)
    ensures var a := Arrived(Unbounded, s, number, now);
      && (s.arrival.Some? && number <= s.arrival.value ==> a.adaptive == s.adaptive && a.arrival == s.arrival)
      && (s.arrival.None? || number > s.arrival.value ==> a.arrival == Some(number))
      && SameBounds(s.adaptive, a.adaptive)
  {}

  lemma RipeLate(s: State, e: Event)
    requires Inv(Unbounded, s) && WellFormed(Unbounded, e) && Ripe(s) && !s.closed
    requires e.Packet? && TooLate(Unbounded, s, e.number)
    ensures Ripe(Step(Unbounded, s, e))
  {
    LateImpairs(Unbounded, s, e);
    ArrivalExactly(Unbounded, s, e);
    ReadyExactly(Unbounded, s, e);
    ArrivedTarget(s, e.number, e.arrived.observed);
    LateFrame(s, e);
    hide Inv, Step, Arrived;
  }

  // What a late packet leaves as it was.
  lemma LateFrame(s: State, e: Event)
    requires Inv(Unbounded, s) && !s.closed && e.Packet? && TooLate(Unbounded, s, e.number)
    ensures var a, r := Arrived(Unbounded, s, e.number, e.arrived.observed), Step(Unbounded, s, e);
      && r.arrival == a.arrival && r.policy == s.policy
      && r.adaptive.maximum == a.adaptive.maximum && r.adaptive.target >= a.adaptive.target
  {
    ArrivedTarget(s, e.number, e.arrived.observed);
    hide T.Observe, Q.Record;
  }

  lemma RipeOther(s: State, e: Event)
    requires Inv(Unbounded, s) && Ripe(s) && !s.closed && e.Packet?
    requires !TooLate(Unbounded, s, e.number) && !Welcome(Unbounded, s, e.number)
    ensures Ripe(Step(Unbounded, s, e))
  {
    ArrivedTarget(s, e.number, e.arrived.observed);
    hide T.Observe, Q.Record, T.Impair;
  }

  lemma RipeWelcome(s: State, e: Event)
    requires Inv(Unbounded, s) && WellFormed(Unbounded, e) && Ripe(s) && e.Packet? && Welcome(Unbounded, s, e.number)
    ensures Ripe(Step(Unbounded, s, e))
  {
    ArrivedTarget(s, e.number, e.arrived.observed);
    ArrivalExactly(Unbounded, s, e);
    ReadyExactly(Unbounded, s, e);
    WelcomeFrame(s, e);
    hide Inv, Step, Arrived;
  }

  lemma WelcomeFrame(s: State, e: Event)
    requires Inv(Unbounded, s) && e.Packet? && Welcome(Unbounded, s, e.number)
    ensures var a, r := Arrived(Unbounded, s, e.number, e.arrived.observed), Step(Unbounded, s, e);
      r.arrival == a.arrival && r.policy == s.policy && r.adaptive == a.adaptive
  {
    hide T.Observe, Q.Record, T.Impair;
  }

  lemma RipeTick(s: State, t: ChunkTimes)
    requires Inv(Unbounded, s) && Ripe(s)
    ensures Ripe(Step(Unbounded, s, Tick(t)))
  {
    if !Playing(s) {
      IdleTick(Unbounded, s, t);
    } else if s.playout.value !in s.packets {
      MissingMovesOn(Unbounded, s, t);
    } else if s.packets[s.playout.value] == [] {
      SilentTick(Unbounded, s, t);
    } else {
      AudioTick(Unbounded, s, t);
    }
    StepKeepsBounds(Unbounded, s, Tick(t));
    TickFrame(s, t);
    NextChunkInv(Unbounded, s, t);
    hide NextChunk;
  }

  lemma TickFrame(s: State, t: ChunkTimes)
    ensures var r := NextChunk(Unbounded, s, t); r.policy == s.policy && r.closed == s.closed
  {
    hide Q.Record, T.Impair;
  }

  lemma RipeStep(s: State, e: Event)
    requires Inv(Unbounded, s) && WellFormed(Unbounded, e) && Ripe(s)
    ensures Ripe(Step(Unbounded, s, e))
  {
    match e
    case Packet(_, _, _) =>
      if s.closed {
      } else if TooLate(Unbounded, s, e.number) {
        RipeLate(s, e);
      } else if Welcome(Unbounded, s, e.number) {
        RipeWelcome(s, e);
      } else {
        RipeOther(s, e);
      }
    case Tick(t) => RipeTick(s, t);
    case _ => hide Q.Record;
  }

  lemma {:induction false} RipeRun(s: State, es: seq<Event>)
    requires Inv(Unbounded, s) && Ripe(s) && forall e :: e in es ==> WellFormed(Unbounded, e)
    ensures Ripe(Run(Unbounded, s, es)) && Inv(Unbounded, Run(Unbounded, s, es))
    decreases |es|
  {
    if es != [] {
      assert es[0] in es;
      StepInv(Unbounded, s, es[0]);
      RipeStep(s, es[0]);
      hide Step, Inv, Ripe;
      RipeRun(Step(Unbounded, s, es[0]), es[1..]);
    }
  }

  /**
   Over every run from a new buffer, once as many packets as the target are held the next
   chunk is no longer silence for want of packets: it plays, stretches or conceals. The cap
   is at least the maximum depth, as for every buffer that is opened.
   */
  lemma FullBufferPlays(policy: Policy, adaptive: T.Adaptive, es: seq<Event>)
    requires policy.Valid() && adaptive.Valid() && policy.maxBuffered >= adaptive.maximum
    requires forall e :: e in es ==> WellFormed(Unbounded, e)
    requires Inv(Unbounded, Fresh(policy, adaptive))
    ensures var t := Run(Unbounded, Fresh(policy, adaptive), es);
      !t.closed && |t.packets| >= t.adaptive.target ==> Playing(t) && !Emit(Unbounded, t).Waiting?
  {
    RipeRun(Fresh(policy, adaptive), es);
    hide Run;
  }

  /** And so does the buffer over wrapping numbers, for arrivals near enough to compare. */
  lemma FullWrappedBufferPlays(policy: Policy, adaptive: T.Adaptive, es: seq<Event>)
    requires policy.Valid() && adaptive.Valid() && policy.maxBuffered >= adaptive.maximum
    requires forall e :: e in es ==> WellFormed(Unbounded, e)
    requires Inv(Unbounded, Fresh(policy, adaptive)) && AllNear(Fresh(policy, adaptive), es)
    ensures Inv(Uint32, Fresh(policy, adaptive)) && forall e :: e in WrapEvents(es) ==> WellFormed(Uint32, e)
    ensures var t := Run(Uint32, Fresh(policy, adaptive), WrapEvents(es));
      !t.closed && |t.packets| >= t.adaptive.target ==> Playing(t) && !Emit(Uint32, t).Waiting?
  {
    var s := Fresh(policy, adaptive);
    FreshRefines(policy, adaptive);
    RunRefines(s, s, es);
    FullBufferPlays(policy, adaptive, es);
    hide Run, AllNear;
  }
}
