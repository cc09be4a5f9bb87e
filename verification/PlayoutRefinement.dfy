/**
 The buffer over wrapping uint32 numbers refines the buffer over unbounded
 numbers: through any number of wraps every admission and every chunk agree, as
 long as each arrival is within half the sequence space of the numbers it is
 compared with.
 */
module PlayoutRefinement {
  import opened Wrappers
  import opened SerialNumbers
  import opened Octets
  import opened Playout
  import T = AdaptiveTarget
  import Q = Quality

  ghost predicate Within(anchor: Option<int>, number: int) {
    anchor.Some? ==> -HALF <= number - anchor.value < HALF
  }

  // What the comparison of serial numbers needs of an arrival: nearness to each anchor it is compared with.
  ghost predicate NearBy(u: State, number: int) {
    !u.closed ==>
      && Within(u.playout, number) && Within(u.arrival, number)
      && (Classify(Unbounded, u, number).Stored? ==> Within(u.highest, number))
  }

  ghost predicate Near(u: State, e: Event) { e.Packet? ==> NearBy(u, e.number) }

  function WrapOption(n: Option<int>): Option<int> {
    if n.None? then None else Some(Wrap(n.value))
  }

  function WrapEvent(e: Event): Event {
    if e.Packet? then e.(number := Wrap(e.number)) else e
  }

  function WrapEvents(es: seq<Event>): seq<Event> {
    if es == [] then [] else [WrapEvent(es[0])] + WrapEvents(es[1..])
  }

  ghost predicate InWindow(from: int, k: int) { from <= k < from + HALF }

  // The number `k` is in the window, and its packet is held under the wrapped number.
  ghost predicate Held(c: map<int, Bytes>, u: map<int, Bytes>, from: int, k: int)
    requires k in u
  {
    InWindow(from, k) && Wrap(k) in c && c[Wrap(k)] == u[k]
  }

  function Unwrap(from: int, w: int): int { from + SeqDistance(Wrap(from), w) }

  // The wrapped number `w` stands for a number held from the window.
  ghost predicate Stands(u: map<int, Bytes>, from: int, w: int) {
    0 <= w < MODULUS && Unwrap(from, w) in u
  }

  // `c` holds the packets of `u`, all in the half window from `from`, under wrapped numbers.
  ghost predicate Matches(c: map<int, Bytes>, u: map<int, Bytes>, from: int) {
    && |c| == |u|
    && (forall k {:trigger Held(c, u, from, k)} :: k in u ==> Held(c, u, from, k))
    && (forall w {:trigger Stands(u, from, w)} :: w in c ==> Stands(u, from, w))
  }

  ghost predicate Refines(c: State, u: State) {
    && c == u.(packets := c.packets, playout := WrapOption(u.playout),
               highest := WrapOption(u.highest), arrival := WrapOption(u.arrival))
    && (u.playout.Some? ==> Matches(c.packets, u.packets, u.playout.value))
    && (u.playout.None? ==> c.packets == map[] && u.packets == map[])
  }

  lemma UnwrapInverse(from: int, k: int, w: int)
    requires InWindow(from, k) && 0 <= w < MODULUS
    ensures Unwrap(from, Wrap(k)) == k
    ensures 0 <= Wrap(k) < MODULUS
    ensures Wrap(k) == w ==> Unwrap(from, w) == k
    ensures Unwrap(from, w) == k ==> Wrap(k) == w
  {
    WrapKeepsDistance(from, k);
    var d := SeqDistance(Wrap(from), w);
    DistanceIsUnique(Wrap(from), w, d);
    WrapOfSum(from, d);
  }

  lemma MatchLookup(c: map<int, Bytes>, u: map<int, Bytes>, from: int, k: int)
    requires Matches(c, u, from) && InWindow(from, k)
    ensures Wrap(k) in c <==> k in u
    ensures k in u ==> c[Wrap(k)] == u[k]
  {
    UnwrapInverse(from, k, Wrap(k));
    if k in u { assert Held(c, u, from, k); }
    if Wrap(k) in c { assert Stands(u, from, Wrap(k)); }
  }

  lemma MatchInsert(c: map<int, Bytes>, u: map<int, Bytes>, from: int, k: int, payload: Bytes)
    requires Matches(c, u, from) && InWindow(from, k) && k !in u
    ensures Matches(c[Wrap(k) := payload], u[k := payload], from)
  {
    var c', u' := c[Wrap(k) := payload], u[k := payload];
    MatchLookup(c, u, from, k);
    UnwrapInverse(from, k, Wrap(k));
    forall j | j in u' ensures Held(c', u', from, j) {
      if j != k {
        assert Held(c, u, from, j);
        UnwrapInverse(from, j, Wrap(j));
      }
    }
    forall w | w in c' ensures Stands(u', from, w) {
      if w != Wrap(k) { assert Stands(u, from, w); }
    }
  }

  lemma MatchRemove(c: map<int, Bytes>, u: map<int, Bytes>, from: int, k: int)
    requires Matches(c, u, from) && InWindow(from, k) && k in u
    ensures Matches(c - {Wrap(k)}, u - {k}, from)
  {
    var c', u' := c - {Wrap(k)}, u - {k};
    MatchLookup(c, u, from, k);
    UnwrapInverse(from, k, Wrap(k));
    forall j | j in u' ensures Held(c', u', from, j) {
      assert Held(c, u, from, j);
      UnwrapInverse(from, j, Wrap(j));
    }
    forall w | w in c' ensures Stands(u', from, w) {
      assert Stands(u, from, w);
      UnwrapInverse(from, k, w);
    }
    assert c'.Keys == c.Keys - {Wrap(k)} && u'.Keys == u.Keys - {k};
    assert |c'| == |c'.Keys| && |c| == |c.Keys| && |u'| == |u'.Keys| && |u| == |u.Keys|;
  }

  // The window moves past a number that is not (or no longer) buffered.
  lemma MatchAdvance(c: map<int, Bytes>, u: map<int, Bytes>, from: int)
    requires Matches(c, u, from) && from !in u
    ensures Matches(c, u, from + 1)
  {
    forall j | j in u ensures Held(c, u, from + 1, j) { assert Held(c, u, from, j); }
    forall w | w in c ensures Stands(u, from + 1, w) {
      assert Stands(u, from, w);
      assert Held(c, u, from, Unwrap(from, w));
      assert Unwrap(from, w) != from;
      UnwrapAdvance(from, w);
    }
  }

  lemma UnwrapAdvance(from: int, w: int)
    requires 0 <= w < MODULUS && Unwrap(from, w) > from
    ensures Unwrap(from + 1, w) == Unwrap(from, w)
  {
    WrapOfSum(from, 1);
    DistanceIsUnique(Wrap(from), Wrap(from), 0);
    NextDistance(Wrap(from), w);
  }

  lemma WithinKeepsDistance(anchor: Option<int>, number: int)
    requires Within(anchor, number)
    ensures anchor.Some? ==> SeqDistance(Wrap(anchor.value), Wrap(number)) == number - anchor.value
  {
    if anchor.Some? { WrapKeepsDistance(anchor.value, number); }
  }

  lemma ClassifyRefines(c: State, u: State, number: int)
    requires Refines(c, u) && Inv(Unbounded, u) && NearBy(u, number)
    ensures Classify(Uint32, c, Wrap(number)) == Classify(Unbounded, u, number)
  {
    if !u.closed { WithinKeepsDistance(u.playout, number); }
    if !u.closed && u.playout.Some? && number >= u.playout.value {
      MatchLookup(c.packets, u.packets, u.playout.value, number);
    }
  }

  lemma StoreRefines(c: State, u: State, number: int, payload: Bytes)
    requires Refines(c, u)
    requires Within(u.playout, number) && Within(u.highest, number)
    requires u.playout.Some? ==> number >= u.playout.value
    requires number !in u.packets
    ensures Refines(Store(Uint32, c, Wrap(number), payload), Store(Unbounded, u, number, payload))
  {
    WithinKeepsDistance(u.highest, number);
    if u.playout.Some? {
      MatchInsert(c.packets, u.packets, u.playout.value, number, payload);
    } else {
      assert Matches(map[], map[], number);
      MatchInsert(map[], map[], number, number, payload);
    }
  }

  lemma ArrivedRefines(c: State, u: State, number: int, now: real)
    requires Refines(c, u) && u.adaptive.Valid() && Within(u.arrival, number)
    ensures Refines(Arrived(Uint32, c, Wrap(number), now), Arrived(Unbounded, u, number, now))
  {
    hide T.Observe, Q.Record;
    WithinKeepsDistance(u.arrival, number);
    assert ArrivalAdvance(Uint32, c, Wrap(number)) == ArrivalAdvance(Unbounded, u, number);
  }

  lemma IngestRefines(c: State, u: State, number: int, payload: Bytes, t: IngestTimes)
    requires Refines(c, u) && Inv(Unbounded, u) && NearBy(u, number)
    ensures Refines(Ingest(Uint32, c, Wrap(number), payload, t), Ingest(Unbounded, u, number, payload, t))
  {
    hide T.Observe, Q.Record;
    ClassifyRefines(c, u, number);
    if u.closed { return; }
    ArrivedRefines(c, u, number, t.observed);
    var a, b := Arrived(Uint32, c, Wrap(number), t.observed), Arrived(Unbounded, u, number, t.observed);
    match Classify(Unbounded, u, number)
    case Late =>
    case Duplicate =>
    case Overflow =>
    case Stored => StoreRefines(a, b, number, payload);
  }

  function WrapEmission(m: Emission): Emission {
    match m
    case Reduced(dropped, number) => Reduced(Wrap(dropped), Wrap(number))
    case Played(number, payload) => Played(Wrap(number), payload)
    case Concealed(number) => Concealed(Wrap(number))
    case _ => m
  }

  lemma EmitRefines(c: State, u: State)
    requires Refines(c, u) && Inv(Unbounded, u)
    ensures Emit(Uint32, c) == WrapEmission(Emit(Unbounded, u))
  {
    if !u.closed && u.ready && u.playout.Some? {
      var from := u.playout.value;
      WrapOfSum(from, 1);
      MatchLookup(c.packets, u.packets, from, from);
      MatchLookup(c.packets, u.packets, from, from + 1);
    }
  }

  lemma PlayRefines(c: State, u: State, number: int, now: real)
    requires Refines(c, u) && u.playout == Some(number) && number in u.packets
    ensures Wrap(number) in c.packets
    ensures Refines(PlayPacket(Uint32, c, Wrap(number), now), PlayPacket(Unbounded, u, number, now))
  {
    hide T.Observe, Q.Record;
    WrapOfSum(number, 1);
    MatchLookup(c.packets, u.packets, number, number);
    MatchRemove(c.packets, u.packets, number, number);
    MatchAdvance(c.packets - {Wrap(number)}, u.packets - {number}, number);
  }

  lemma LoseRefines(c: State, u: State, number: int, t: ChunkTimes)
    requires Refines(c, u) && u.playout == Some(number) && number !in u.packets
    ensures Refines(LosePacket(Uint32, c, Wrap(number), t), LosePacket(Unbounded, u, number, t))
  {
    hide T.Observe, Q.Record;
    WrapOfSum(number, 1);
    MatchAdvance(c.packets, u.packets, number);
  }

  lemma DropRefines(c: State, u: State, number: int)
    requires Refines(c, u) && u.playout == Some(number) && number in u.packets
    ensures Refines(DropSilence(c, Wrap(number)).(playout := Some(Wrap(number + 1))),
                    DropSilence(u, number).(playout := Some(number + 1)))
  {
    MatchRemove(c.packets, u.packets, number, number);
    MatchAdvance(c.packets - {Wrap(number)}, u.packets - {number}, number);
  }

  lemma ReduceRefines(c: State, u: State, dropped: int, t: ChunkTimes)
    requires Refines(c, u) && Inv(Unbounded, u) && Emit(Unbounded, u) == Reduced(dropped, dropped + 1)
    requires Emit(Uint32, c) == Reduced(Wrap(dropped), Wrap(dropped + 1))
    ensures Refines(NextChunk(Uint32, c, t), NextChunk(Unbounded, u, t))
  {
    hide T.Observe, Q.Record;
    DropRefines(c, u, dropped);
    var a, b := DropSilence(c, Wrap(dropped)), DropSilence(u, dropped);
    var a', b' := a.(playout := Some(Wrap(dropped + 1))), b.(playout := Some(dropped + 1));
    PlayRefines(a', b', dropped + 1, t.recorded);
    hide Inv, Matches, Wrap;
    assert PlayPacket(Uint32, a, Wrap(dropped + 1), t.recorded)
        == PlayPacket(Uint32, a', Wrap(dropped + 1), t.recorded);
    assert PlayPacket(Unbounded, b, dropped + 1, t.recorded) == PlayPacket(Unbounded, b', dropped + 1, t.recorded);
  }

  lemma TickRefines(c: State, u: State, t: ChunkTimes)
    requires Refines(c, u) && Inv(Unbounded, u)
    ensures Refines(NextChunk(Uint32, c, t), NextChunk(Unbounded, u, t))
  {
    hide T.Observe, Q.Record;
    EmitRefines(c, u);
    match Emit(Unbounded, u)
    case Ended =>
    case Waiting =>
    case Expanded =>
    case Reduced(dropped, _) => ReduceRefines(c, u, dropped, t);
    case Played(number, _) => PlayRefines(c, u, number, t.recorded);
    case Concealed(number) => LoseRefines(c, u, number, t);
  }

  lemma ChunkRefines(c: State, u: State)
    requires Refines(c, u) && Inv(Unbounded, u)
    ensures ChunkOf(c, Emit(Uint32, c)) == ChunkOf(u, Emit(Unbounded, u))
  {
    EmitRefines(c, u);
  }

  /** One step in both spaces: the same outcome, and states that still agree. */
  lemma StepRefines(c: State, u: State, e: Event)
    requires Refines(c, u) && Inv(Unbounded, u) && Near(u, e)
    ensures Refines(Step(Uint32, c, WrapEvent(e)), Step(Unbounded, u, e))
    ensures Outcome(Uint32, c, WrapEvent(e)) == Outcome(Unbounded, u, e)
  {
    hide T.Observe, Q.Record;
    match e
    case Packet(number, payload, t) => ClassifyRefines(c, u, number); IngestRefines(c, u, number, payload, t);
    case Tick(t) => TickRefines(c, u, t); ChunkRefines(c, u);
    case SessionReset =>
    case Disconnect(_, _) =>
    case Closing =>
  }

  ghost predicate AllNear(u: State, es: seq<Event>)
    requires Inv(Unbounded, u)
    requires forall e :: e in es ==> WellFormed(Unbounded, e)
    decreases |es|
  {
    es == [] || (
      assert es[0] in es;
      StepInv(Unbounded, u, es[0]);
      Near(u, es[0]) && AllNear(Step(Unbounded, u, es[0]), es[1..]))
  }

  lemma {:induction false} WrapEventsWellFormed(es: seq<Event>)
    requires forall e :: e in es ==> WellFormed(Unbounded, e)
    ensures |WrapEvents(es)| == |es|
    ensures forall e :: e in WrapEvents(es) ==> WellFormed(Uint32, e)
    decreases |es|
  {
    if es != [] {
      assert es[0] in es;
      WrapEventsWellFormed(es[1..]);
    }
  }

  /**
   The wrapping buffer's outputs over any run are those of the unbounded one,
   however often the numbers wrap on the way.
   */
  lemma {:induction false} RunRefines(c: State, u: State, es: seq<Event>)
    requires Refines(c, u) && Inv(Uint32, c) && Inv(Unbounded, u)
    requires forall e :: e in es ==> WellFormed(Unbounded, e)
    requires AllNear(u, es)
    ensures forall e :: e in WrapEvents(es) ==> WellFormed(Uint32, e)
    ensures Outputs(Uint32, c, WrapEvents(es)) == Outputs(Unbounded, u, es)
    ensures Refines(Run(Uint32, c, WrapEvents(es)), Run(Unbounded, u, es))
    decreases |es|
  {
    WrapEventsWellFormed(es);
    if es != [] {
      assert es[0] in es;
      var w := WrapEvents(es);
      assert w[0] in w && w[1..] == WrapEvents(es[1..]);
      StepRefines(c, u, es[0]);
      StepInv(Uint32, c, w[0]);
      StepInv(Unbounded, u, es[0]);
      RunRefines(Step(Uint32, c, w[0]), Step(Unbounded, u, es[0]), es[1..]);
    }
  }

  /** A fresh buffer matches itself, so every run from one has the unbounded buffer's outputs. */
  lemma FreshRefines(policy: Policy, adaptive: T.Adaptive)
    requires policy.Valid() && adaptive.Valid()
    ensures var s := Fresh(policy, adaptive); Refines(s, s) && Inv(Uint32, s) && Inv(Unbounded, s)
  {}
}
