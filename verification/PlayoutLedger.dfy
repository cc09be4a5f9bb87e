/**
 Where every packet goes and what becomes of every sequence number: conservation,
 serial order, silence stretching and the length of concealed runs.
 */
module PlayoutLedger {
  import opened Wrappers
  import opened SerialNumbers
  import opened Octets
  import opened Playout
  import T = AdaptiveTarget
  import Q = Quality

  // ----- conservation ------------------------------------------------------------

  type Parcel = (int, Bytes)

  ghost function Parcels(packets: map<int, Bytes>): set<Parcel> {
    set k | k in packets :: (k, packets[k])
  }

  ghost function Held(packets: map<int, Bytes>): multiset<Parcel> {
    multiset(Parcels(packets))
  }

  lemma HeldInsert(packets: map<int, Bytes>, k: int, payload: Bytes)
    requires k !in packets
    ensures Held(packets[k := payload]) == Held(packets) + multiset{(k, payload)}
  {
    var after := packets[k := payload];
    forall x | x in Parcels(packets) + {(k, payload)} ensures x in Parcels(after) {
      assert x.0 in after && after[x.0] == x.1;
    }
    assert Parcels(after) == Parcels(packets) + {(k, payload)};
    assert (k, payload) !in Parcels(packets);
  }

  lemma HeldRemove(packets: map<int, Bytes>, k: int)
    requires k in packets
    ensures Held(packets) == Held(packets - {k}) + multiset{(k, packets[k])}
    ensures |packets - {k}| == |packets| - 1
  {
    HeldInsert(packets - {k}, k, packets[k]);
    assert (packets - {k})[k := packets[k]] == packets;
  }

  datatype Ledger = Ledger(
    stored: multiset<Parcel>, played: multiset<Parcel>, reduced: multiset<Parcel>, discarded: multiset<Parcel>)

  const NOTHING := Ledger(multiset{}, multiset{}, multiset{}, multiset{})

  // The concealed chunk that exhausts the outage budget clears the buffer.
  ghost predicate Underruns(s: State) { s.outage + 1 > s.policy.maxOutage }

  ghost function Book(space: Space, l: Ledger, s: State, e: Event): Ledger {
    match e
    case Packet(number, payload, _) =>
      if Classify(space, s, number).Stored? then l.(stored := l.stored + multiset{(number, payload)}) else l
    case Tick(_) => (
      match Emit(space, s)
      case Played(number, payload) => l.(played := l.played + multiset{(number, payload)})
      case Reduced(dropped, number) =>
        l.(reduced := l.reduced + multiset{(dropped, [])}, played := l.played + multiset{(number, [])})
      case Concealed(_) =>
        if Underruns(s) then l.(discarded := l.discarded + Held(s.packets)) else l
      case _ => l)
    case SessionReset => l.(discarded := l.discarded + Held(s.packets))
    case Disconnect(_, _) => l
    case Closing => l.(discarded := l.discarded + Held(s.packets))
  }

  ghost predicate Balances(stats: Stats, packets: map<int, Bytes>, l: Ledger) {
    && stats.packets == stats.late + stats.duplicate + stats.overflows + |l.stored|
    && l.stored == Held(packets) + l.played + l.reduced + l.discarded
    && |l.reduced| == stats.reductions
    && |Held(packets)| == |packets|
  }

  ghost predicate Balanced(s: State, l: Ledger) { Balances(s.stats, s.packets, l) }

  lemma BalanceStored(stats: Stats, packets: map<int, Bytes>, l: Ledger, k: int, payload: Bytes)
    requires Balances(stats, packets, l) && k !in packets
    ensures Balances(stats.(packets := stats.packets + 1), packets[k := payload],
                     l.(stored := l.stored + multiset{(k, payload)}))
  {
    HeldInsert(packets, k, payload);
  }

  lemma BalancePlayed(stats: Stats, packets: map<int, Bytes>, l: Ledger, k: int)
    requires Balances(stats, packets, l) && k in packets
    ensures Balances(stats, packets - {k}, l.(played := l.played + multiset{(k, packets[k])}))
  {
    HeldRemove(packets, k);
  }

  lemma BalanceReduced(stats: Stats, packets: map<int, Bytes>, l: Ledger, k: int)
    requires Balances(stats, packets, l) && k in packets && packets[k] == []
    ensures Balances(stats.(reductions := stats.reductions + 1), packets - {k},
                     l.(reduced := l.reduced + multiset{(k, [])}))
  {
    HeldRemove(packets, k);
  }

  lemma BalanceDiscarded(stats: Stats, packets: map<int, Bytes>, l: Ledger)
    requires Balances(stats, packets, l)
    ensures Balances(stats, map[], l.(discarded := l.discarded + Held(packets)))
  {
    assert Parcels(map[]) == {};
  }

  // Only these counters enter the balance.
  ghost predicate SameTotals(a: Stats, b: Stats) {
    && a.packets == b.packets && a.late == b.late && a.duplicate == b.duplicate
    && a.overflows == b.overflows && a.reductions == b.reductions
  }

  lemma ArrivedCounts(space: Space, s: State, number: int, now: real)
    requires s.adaptive.Valid()
    ensures var a := Arrived(space, s, number, now);
      a.stats == s.stats.(packets := s.stats.packets + 1) && a.packets == s.packets
  {
    hide T.Observe;
  }

  lemma StoreCounts(space: Space, s: State, number: int, payload: Bytes)
    ensures var t := Store(space, s, number, payload);
      SameTotals(s.stats, t.stats) && t.packets == s.packets[number := payload]
  {}

  lemma BalanceCounted(a: Stats, b: Stats, packets: map<int, Bytes>, l: Ledger)
    requires Balances(a, packets, l)
    requires b.packets == a.packets + 1 && b.reductions == a.reductions
    requires b.late + b.duplicate + b.overflows == a.late + a.duplicate + a.overflows + 1
    ensures Balances(b, packets, l)
  {}

  lemma BookPacket(space: Space, s: State, l: Ledger, e: Event)
    requires Balanced(s, l) && s.adaptive.Valid() && e.Packet?
    ensures Balanced(Step(space, s, e), Book(space, l, s, e))
  {
    hide T.Observe, Q.Record, Held, Arrived, Store, Balances;
    if !s.closed { ArrivedCounts(space, s, e.number, e.arrived.observed); }
    var t := Step(space, s, e);
    match Classify(space, s, e.number)
    case Refused =>
    case Stored =>
      var a := Arrived(space, s, e.number, e.arrived.observed);
      BalanceStored(s.stats, s.packets, l, e.number, e.payload);
      StoreCounts(space, a, e.number, e.payload);
      BookSame(a.stats, t, a.packets[e.number := e.payload], Book(space, l, s, e));
    case _ => BalanceCounted(s.stats, t.stats, s.packets, l);
  }

  lemma BookPlayed(space: Space, s: State, l: Ledger, e: Event)
    requires Balanced(s, l) && Inv(space, s) && e.Tick? && Emit(space, s).Played?
    ensures Balanced(Step(space, s, e), Book(space, l, s, e))
  {
    hide T.Observe, Q.Record, Held, Balances;
    var t, number := Step(space, s, e), Emit(space, s).number;
    BalancePlayed(s.stats, s.packets, l, number);
    BookSame(s.stats, t, s.packets - {number}, Book(space, l, s, e));
  }

  lemma BookConcealed(space: Space, s: State, l: Ledger, e: Event)
    requires Balanced(s, l) && Inv(space, s) && e.Tick? && Emit(space, s).Concealed?
    ensures Balanced(Step(space, s, e), Book(space, l, s, e))
  {
    hide T.Observe, Q.Record, Held, Balances;
    var t := Step(space, s, e);
    if Underruns(s) {
      BalanceDiscarded(s.stats, s.packets, l);
      BookSame(s.stats, t, map[], Book(space, l, s, e));
    } else {
      BookSame(s.stats, t, s.packets, l);
    }
  }

  lemma BookReduced(space: Space, s: State, l: Ledger, e: Event)
    requires Balanced(s, l) && Inv(space, s) && e.Tick? && Emit(space, s).Reduced?
    ensures Balanced(Step(space, s, e), Book(space, l, s, e))
  {
    hide T.Observe, Q.Record, Held, Balances;
    var t, m := Step(space, s, e), Emit(space, s);
    NextIsNew(space, m.dropped);
    assert t == PlayPacket(space, DropSilence(s, m.dropped), m.number, e.played.recorded);
    var fewer, l' := s.packets - {m.dropped}, l.(reduced := l.reduced + multiset{(m.dropped, [])});
    var stats := s.stats.(reductions := s.stats.reductions + 1);
    BalanceReduced(s.stats, s.packets, l, m.dropped);
    BalancePlayed(stats, fewer, l', m.number);
    BookSame(stats, t, fewer - {m.number}, Book(space, l, s, e));
  }

  lemma BookTick(space: Space, s: State, l: Ledger, e: Event)
    requires Balanced(s, l) && Inv(space, s) && e.Tick?
    ensures Balanced(Step(space, s, e), Book(space, l, s, e))
  {
    hide T.Observe, Q.Record, Held, Balances;
    match Emit(space, s)
    case Played(_, _) => BookPlayed(space, s, l, e);
    case Concealed(_) => BookConcealed(space, s, l, e);
    case Reduced(_, _) => BookReduced(space, s, l, e);
    case Expanded => BookSame(s.stats, Step(space, s, e), s.packets, l);
    case _ =>
  }

  lemma BookSame(stats: Stats, t: State, packets: map<int, Bytes>, l: Ledger)
    requires Balances(stats, packets, l) && t.packets == packets && SameTotals(stats, t.stats)
    ensures Balanced(t, l)
  {}

  /** Every step keeps the books. */
  lemma BookStep(space: Space, s: State, l: Ledger, e: Event)
    requires Balanced(s, l) && Inv(space, s) && WellFormed(space, e)
    ensures Balanced(Step(space, s, e), Book(space, l, s, e))
  {
    match e
    case Packet(_, _, _) => BookPacket(space, s, l, e);
    case Tick(_) => BookTick(space, s, l, e);
    case SessionReset => BalanceDiscarded(s.stats, s.packets, l);
    case Disconnect(_, _) =>
    case Closing => BalanceDiscarded(s.stats, s.packets, l);
  }

  // The ledger of a whole run.
  ghost function Books(space: Space, l: Ledger, s: State, es: seq<Event>): Ledger
    requires Inv(space, s)
    requires forall e :: e in es ==> WellFormed(space, e)
    decreases |es|
  {
    if es == [] then l
    else
      assert es[0] in es;
      StepInv(space, s, es[0]);
      Books(space, Book(space, l, s, es[0]), Step(space, s, es[0]), es[1..])
  }

  // What a run delivers, whatever becomes of it.
  function Delivered(es: seq<Event>): multiset<Parcel> {
    if es == [] then multiset{}
    else (if es[0].Packet? then multiset{(es[0].number, es[0].payload)} else multiset{}) + Delivered(es[1..])
  }

  lemma FreshBalanced(policy: Policy, adaptive: T.Adaptive)
    ensures Balanced(Fresh(policy, adaptive), NOTHING)
  {
    assert Parcels(map[]) == {};
  }

  /**
   Conservation over any run. The packets received are those late, duplicate or over
   the cap and those stored; each one stored was delivered by the run, and is still
   buffered, or was played, removed by reduction, or discarded by a clear or close.
   */
  lemma {:induction false} EveryPacketAccountedFor(space: Space, s: State, l: Ledger, es: seq<Event>)
    requires Balanced(s, l) && Inv(space, s)
    requires forall e :: e in es ==> WellFormed(space, e)
    ensures var t, end := Run(space, s, es), Books(space, l, s, es);
      && t.stats.packets == t.stats.late + t.stats.duplicate + t.stats.overflows + |end.stored|
      && end.stored == Held(t.packets) + end.played + end.reduced + end.discarded
      && end.stored <= l.stored + Delivered(es)
      && |end.reduced| == t.stats.reductions && |Held(t.packets)| == |t.packets|
      && t.stats.packets == t.stats.late + t.stats.duplicate + t.stats.overflows
                          + |t.packets| + |end.played| + t.stats.reductions + |end.discarded|
    decreases |es|
  {
    if es != [] {
      assert es[0] in es;
      StepInv(space, s, es[0]);
      BookStep(space, s, l, es[0]);
      BookStored(space, s, l, es[0]);
      hide Book, Step, Held;
      EveryPacketAccountedFor(space, Step(space, s, es[0]), Book(space, l, s, es[0]), es[1..]);
    }
  }

  lemma BookStored(space: Space, s: State, l: Ledger, e: Event)
    ensures Book(space, l, s, e).stored <= l.stored + if e.Packet? then multiset{(e.number, e.payload)} else multiset{}
  {
    hide Held, Emit, Classify;
  }

  // ----- the sequence numbers of one stretch of playout ----------------------------------

  // What an arrival leaves as it was.
  ghost predicate Kept(s: State, r: State) {
    && r.closed == s.closed && r.policy == s.policy && r.outage == s.outage
    && r.stats.expansions == s.stats.expansions && r.stats.reductions == s.stats.reductions
  }

  lemma ArrivedKeeps(space: Space, s: State, number: int, now: real)
    requires s.adaptive.Valid()
    ensures var a := Arrived(space, s, number, now); Kept(s, a) && a.packets == s.packets && a.playout == s.playout
  {
    hide T.Observe;
  }

  lemma StoreKeeps(space: Space, s: State, number: int, payload: Bytes)
    ensures var r := Store(space, s, number, payload);
      && Kept(s, r) && r.packets == s.packets[number := payload]
      && r.playout == if s.playout.None? then Some(number) else s.playout
  {}

  // What an arrival does to the packets and to the number that plays next.
  lemma IngestMoves(space: Space, s: State, number: int, payload: Bytes, t: IngestTimes)
    requires s.adaptive.Valid()
    ensures var r, stored := Ingest(space, s, number, payload, t), Classify(space, s, number).Stored?;
      && Kept(s, r)
      && (stored ==> !s.closed && number !in s.packets)
      && r.packets == (if stored then s.packets[number := payload] else s.packets)
      && r.playout == (if stored && s.playout.None? then Some(number) else s.playout)
  {
    ArrivedKeeps(space, s, number, t.observed);
    StoreKeeps(space, Arrived(space, s, number, t.observed), number, payload);
    hide T.Impair, Q.Record, Arrived, Store;
  }

  // What stands for one sequence number, or comes out as one chunk.
  datatype Kind = Audio(pcm: Bytes) | Silence | Lost

  // From one clear of the buffer to the next: the numbers from `start` on, as consumed and as emitted.
  datatype Epoch = Epoch(
    start: Option<int>, consumed: seq<Kind>, emitted: seq<Kind>, stretching: bool, expansions: nat, reductions: nat)

  const UNSTARTED := Epoch(None, [], [], false, 0, 0)

  function KindOf(payload: Bytes): Kind { if payload == [] then Silence else Audio(payload) }

  function Extend(ep: Epoch, m: Emission): Epoch {
    match m
    case Expanded => ep.(emitted := ep.emitted + [Silence], stretching := true, expansions := ep.expansions + 1)
    case Reduced(_, _) =>
      ep.(consumed := ep.consumed + [Silence] + [Silence], emitted := ep.emitted + [Silence],
          stretching := false, reductions := ep.reductions + 1)
    case Played(_, payload) =>
      ep.(consumed := ep.consumed + [KindOf(payload)], emitted := ep.emitted + [KindOf(payload)], stretching := false)
    case Concealed(_) =>
      ep.(consumed := ep.consumed + [Lost], emitted := ep.emitted + [Lost], stretching := false)
    case _ => ep
  }

  datatype Chronicle = Chronicle(past: seq<Epoch>, current: Epoch)

  ghost function Chronicled(space: Space, c: Chronicle, s: State, e: Event): Chronicle {
    match e
    case Packet(number, _, _) =>
      if Classify(space, s, number).Stored? && s.playout.None?
      then c.(current := UNSTARTED.(start := Some(number))) else c
    case Tick(_) =>
      var m := Emit(space, s);
      if m.Concealed? && Underruns(s) then Chronicle(c.past + [Extend(c.current, m)], UNSTARTED)
      else c.(current := Extend(c.current, m))
    case SessionReset => Chronicle(c.past + [c.current], UNSTARTED)
    case Disconnect(_, _) => c
    case Closing => Chronicle(c.past + [c.current], UNSTARTED)
  }

  // Merge neighbouring silences.
  function Join(ks: seq<Kind>, k: Kind): seq<Kind> {
    if k.Silence? && ks != [] && ks[|ks| - 1].Silence? then ks else ks + [k]
  }

  function Squeeze(ks: seq<Kind>): seq<Kind> {
    if ks == [] then [] else Join(Squeeze(ks[..|ks| - 1]), ks[|ks| - 1])
  }

  lemma SqueezeAppend(ks: seq<Kind>, k: Kind)
    ensures Squeeze(ks + [k]) == Join(Squeeze(ks), k)
  {
    assert (ks + [k])[..|ks|] == ks;
  }

  // While a silence is being stretched, its packet is still to be consumed.
  function Due(ep: Epoch): seq<Kind> {
    if ep.stretching then ep.consumed + [Silence] else ep.consumed
  }

  // Adaptation only changes how long silences last.
  ghost predicate OnlySilenceStretched(ep: Epoch) {
    && |ep.emitted| + ep.reductions == |ep.consumed| + ep.expansions
    && Squeeze(ep.emitted) == Squeeze(Due(ep))
  }

  // The epoch describes the state: numbers are consumed one after another from `start`.
  ghost predicate Follows(space: Space, s: State, ep: Epoch) {
    && (s.closed || ep.start.Some? == s.playout.Some?)
    && (!s.closed && ep.start.Some? ==>
          && s.playout == Some(Ahead(space, ep.start.value, |ep.consumed|))
          && (ep.stretching ==> SilentAt(s, s.playout.value)))
    && (ep.start.None? ==> ep == UNSTARTED)
  }

  ghost predicate Faithful(space: Space, s: State, c: Chronicle) {
    && OnlySilenceStretched(c.current) && Follows(space, s, c.current)
    && forall i :: 0 <= i < |c.past| ==> OnlySilenceStretched(c.past[i])
  }

  // What `Extend` may do to an epoch without losing or inventing anything but silence.
  lemma Stretch(ep: Epoch, next: Epoch, k: Kind)
    requires OnlySilenceStretched(ep) && next.emitted == ep.emitted + [k] && (ep.stretching ==> k.Silence?)
    requires
      || (k.Silence? && next == ep.(emitted := next.emitted, stretching := true, expansions := ep.expansions + 1))
      || (k.Silence? && next == ep.(consumed := ep.consumed + [k] + [k], emitted := next.emitted,
                                    stretching := false, reductions := ep.reductions + 1))
      || next == ep.(consumed := ep.consumed + [k], emitted := next.emitted, stretching := false)
    ensures OnlySilenceStretched(next)
  {
    SqueezeAppend(ep.emitted, k);
    SqueezeAppend(ep.consumed, k);
    SqueezeAppend(ep.consumed + [k], k);
    SqueezeAppend(ep.consumed, Silence);
  }

  lemma ExtendStretches(space: Space, s: State, ep: Epoch)
    requires OnlySilenceStretched(ep) && Follows(space, s, ep)
    ensures OnlySilenceStretched(Extend(ep, Emit(space, s)))
  {
    var next := Extend(ep, Emit(space, s));
    match Emit(space, s)
    case Ended =>
    case Waiting =>
    case Expanded => Stretch(ep, next, Silence);
    case Reduced(_, _) => Stretch(ep, next, Silence);
    case Played(_, payload) => Stretch(ep, next, KindOf(payload));
    case Concealed(_) => Stretch(ep, next, Lost);
  }

  lemma ExtendFollows(space: Space, s: State, ep: Epoch, t: ChunkTimes)
    requires Inv(space, s) && Follows(space, s, ep)
    requires !(Emit(space, s).Concealed? && Underruns(s))
    ensures Follows(space, NextChunk(space, s, t), Extend(ep, Emit(space, s)))
  {
    hide T.Observe, T.Impair, Q.Record, Ahead, Inv;
    if !s.closed && ep.start.Some? {
      AheadNext(space, ep.start.value, |ep.consumed|);
      AheadNext(space, ep.start.value, |ep.consumed| + 1);
      var next, r := Extend(ep, Emit(space, s)), NextChunk(space, s, t);
      match Emit(space, s)
      case Reduced(dropped, number) =>
        assert |next.consumed| == |ep.consumed| + 2 && r.playout == Some(Next(space, number));
      case Played(number, _) => assert |next.consumed| == |ep.consumed| + 1;
      case Concealed(number) => assert |next.consumed| == |ep.consumed| + 1;
      case _ =>
    }
  }

  lemma IngestFollows(space: Space, s: State, c: Chronicle, e: Event)
    requires Inv(space, s) && WellFormed(space, e) && e.Packet? && Faithful(space, s, c)
    ensures Faithful(space, Step(space, s, e), Chronicled(space, c, s, e))
  {
    IngestMoves(space, s, e.number, e.payload, e.arrived);
    assert WellFormed(space, e) ==> Ahead(space, e.number, 0) == e.number;
    hide Inv, Ingest, Squeeze, Ahead;
  }

  lemma TickFollows(space: Space, s: State, c: Chronicle, e: Event)
    requires Inv(space, s) && e.Tick? && Faithful(space, s, c)
    ensures Faithful(space, Step(space, s, e), Chronicled(space, c, s, e))
  {
    hide T.Observe, Q.Record, Squeeze, Extend;
    ExtendStretches(space, s, c.current);
    if !(Emit(space, s).Concealed? && Underruns(s)) { ExtendFollows(space, s, c.current, e.played); }
  }

  /** Every step keeps the chronicle faithful. */
  lemma ChronicleStep(space: Space, s: State, c: Chronicle, e: Event)
    requires Inv(space, s) && WellFormed(space, e) && Faithful(space, s, c)
    ensures Faithful(space, Step(space, s, e), Chronicled(space, c, s, e))
  {
    hide NextChunk, Ingest;
    match e
    case Packet(_, _, _) => IngestFollows(space, s, c, e);
    case Tick(_) => TickFollows(space, s, c, e);
    case SessionReset =>
    case Disconnect(_, _) =>
    case Closing =>
  }

  ghost function Chronicles(space: Space, c: Chronicle, s: State, es: seq<Event>): Chronicle
    requires Inv(space, s)
    requires forall e :: e in es ==> WellFormed(space, e)
    decreases |es|
  {
    if es == [] then c
    else
      assert es[0] in es;
      StepInv(space, s, es[0]);
      Chronicles(space, Chronicled(space, c, s, es[0]), Step(space, s, es[0]), es[1..])
  }

  // What a chronicle counts over all its stretches.
  datatype Count = Count(consumed: nat, emitted: nat, expansions: nat, reductions: nat)

  function CountOf(ep: Epoch): Count { Count(|ep.consumed|, |ep.emitted|, ep.expansions, ep.reductions) }

  function Plus(a: Count, b: Count): Count {
    Count(a.consumed + b.consumed, a.emitted + b.emitted, a.expansions + b.expansions, a.reductions + b.reductions)
  }

  function PastCount(past: seq<Epoch>): Count {
    if past == [] then Count(0, 0, 0, 0) else Plus(PastCount(past[..|past| - 1]), CountOf(past[|past| - 1]))
  }

  function Total(c: Chronicle): Count { Plus(PastCount(c.past), CountOf(c.current)) }

  lemma PastOneMore(past: seq<Epoch>, ep: Epoch)
    ensures PastCount(past + [ep]) == Plus(PastCount(past), CountOf(ep))
  {
    assert (past + [ep])[..|past|] == past;
  }

  // The growth of the chronicle's counts is that of the buffer's own counters.
  ghost predicate CountsGrow(c: Chronicle, s: State, d: Chronicle, t: State) {
    && Total(d).expansions - Total(c).expansions == t.stats.expansions - s.stats.expansions
    && Total(d).reductions - Total(c).reductions == t.stats.reductions - s.stats.reductions
    && Total(d).emitted - Total(c).emitted
       == Total(d).consumed - Total(c).consumed
          + (t.stats.expansions - s.stats.expansions) - (t.stats.reductions - s.stats.reductions)
  }

  lemma TickCounts(space: Space, s: State, t: ChunkTimes)
    ensures var m, r := Emit(space, s), NextChunk(space, s, t);
      && r.stats.expansions == s.stats.expansions + (if m.Expanded? then 1 else 0)
      && r.stats.reductions == s.stats.reductions + (if m.Reduced? then 1 else 0)
  {
    hide Q.Record, T.Impair, T.ResetArrivals;
    match Emit(space, s)
    case Reduced(dropped, _) => NextIsNew(space, dropped);
    case _ =>
  }

  // A stretch that ends is counted as it was while it was current.
  lemma ClosingCounts(past: seq<Epoch>, ep: Epoch)
    ensures Total(Chronicle(past + [ep], UNSTARTED)) == Total(Chronicle(past, ep))
  {
    PastOneMore(past, ep);
  }

  lemma ExtendCounts(ep: Epoch, m: Emission)
    ensures var a, b := CountOf(ep), CountOf(Extend(ep, m));
      && b.expansions == a.expansions + (if m.Expanded? then 1 else 0)
      && b.reductions == a.reductions + (if m.Reduced? then 1 else 0)
      && b.emitted - a.emitted
         == b.consumed - a.consumed + (b.expansions - a.expansions) - (b.reductions - a.reductions)
  {}

  lemma TickChronicleCounts(space: Space, s: State, c: Chronicle, t: ChunkTimes)
    ensures CountsGrow(c, s, Chronicled(space, c, s, Tick(t)), NextChunk(space, s, t))
  {
    var m := Emit(space, s);
    TickCounts(space, s, t);
    ExtendCounts(c.current, m);
    ClosingCounts(c.past, Extend(c.current, m));
    hide Emit, NextChunk, Extend, CountOf, PastCount;
    var d := Chronicled(space, c, s, Tick(t));
    assert Total(d) == Total(Chronicle(c.past, Extend(c.current, m)));
  }

  lemma SameCounts(c: Chronicle, s: State, d: Chronicle, t: State)
    requires Total(d) == Total(c)
    requires t.stats.expansions == s.stats.expansions && t.stats.reductions == s.stats.reductions
    ensures CountsGrow(c, s, d, t)
  {}

  lemma PacketChronicleCounts(space: Space, s: State, c: Chronicle, e: Event)
    requires Inv(space, s) && Follows(space, s, c.current) && e.Packet?
    ensures Total(Chronicled(space, c, s, e)) == Total(c)
  {
    hide Inv, PastCount;
    assert Classify(space, s, e.number).Stored? ==> !s.closed;
  }

  lemma ChronicleCounts(space: Space, s: State, c: Chronicle, e: Event)
    requires Inv(space, s) && Follows(space, s, c.current)
    ensures CountsGrow(c, s, Chronicled(space, c, s, e), Step(space, s, e))
  {
    ClosingCounts(c.past, c.current);
    var d, t := Chronicled(space, c, s, e), Step(space, s, e);
    match e {
      case Packet(number, payload, times) =>
        IngestMoves(space, s, number, payload, times);
        PacketChronicleCounts(space, s, c, e);
        hide Ingest, Chronicled, Total, Inv, CountsGrow;
        SameCounts(c, s, d, t);
      case Tick(times) =>
        TickChronicleCounts(space, s, c, times);
        hide Chronicled, NextChunk, CountsGrow, Inv;
      case _ =>
        hide Total, Inv, CountsGrow;
        SameCounts(c, s, d, t);
    }
  }

  lemma CountsCompose(c: Chronicle, s: State, d: Chronicle, t: State, e: Chronicle, u: State)
    requires CountsGrow(c, s, d, t) && CountsGrow(d, t, e, u)
    ensures CountsGrow(c, s, e, u)
  {
    hide Total;
  }

  /**
   Over any run, chunks emitted are numbers consumed plus the buffer's expansions less its
   reductions; and in every stretch of playout, once neighbouring silences are merged,
   the emitted chunks are the consumed ones, so audio comes out unchanged and in order
   and no silence disappears.
   */
  lemma {:induction false} AdaptationOnlyStretchesSilence(space: Space, s: State, c: Chronicle, es: seq<Event>)
    requires Inv(space, s) && Faithful(space, s, c)
    requires forall e :: e in es ==> WellFormed(space, e)
    ensures Faithful(space, Run(space, s, es), Chronicles(space, c, s, es))
    ensures CountsGrow(c, s, Chronicles(space, c, s, es), Run(space, s, es))
    decreases |es|
  {
    if es != [] {
      assert es[0] in es;
      StepInv(space, s, es[0]);
      ChronicleStep(space, s, c, es[0]);
      ChronicleCounts(space, s, c, es[0]);
      hide Step, Chronicled, CountsGrow, Faithful, Inv;
      var d, t := Chronicled(space, c, s, es[0]), Step(space, s, es[0]);
      AdaptationOnlyStretchesSilence(space, t, d, es[1..]);
      CountsCompose(c, s, d, t, Chronicles(space, d, t, es[1..]), Run(space, t, es[1..]));
    }
  }

  lemma FreshFaithful(space: Space, policy: Policy, adaptive: T.Adaptive)
    ensures Faithful(space, Fresh(policy, adaptive), Chronicle([], UNSTARTED))
  {}

  // Within a stretch of playout, numbers are only ever added to those consumed.
  ghost predicate Grown(c: Chronicle, d: Chronicle) {
    && c.past <= d.past
    && (d.past == c.past ==> c.current.consumed <= d.current.consumed)
    && (d.past == c.past && c.current.start.Some? ==> d.current.start == c.current.start)
  }

  // The emissions that play a packet, and how far ahead of the stretch's first number it is.
  predicate Plays(m: Emission) { m.Played? || m.Reduced? }

  function Offset(ep: Epoch, m: Emission): nat { |ep.consumed| + if m.Reduced? then 1 else 0 }

  lemma ChronicleGrows(space: Space, s: State, c: Chronicle, e: Event)
    requires Inv(space, s) && Faithful(space, s, c)
    ensures Grown(c, Chronicled(space, c, s, e))
    ensures e.Tick? && Plays(Emit(space, s)) && Chronicled(space, c, s, e).past == c.past ==>
              Offset(c.current, Emit(space, s)) < |Chronicled(space, c, s, e).current.consumed|
  {
    hide Inv, OnlySilenceStretched;
  }

  lemma {:induction false} ChroniclesGrow(space: Space, s: State, c: Chronicle, es: seq<Event>)
    requires Inv(space, s) && Faithful(space, s, c)
    requires forall e :: e in es ==> WellFormed(space, e)
    ensures Grown(c, Chronicles(space, c, s, es))
    decreases |es|
  {
    if es != [] {
      assert es[0] in es;
      StepInv(space, s, es[0]);
      ChronicleStep(space, s, c, es[0]);
      ChronicleGrows(space, s, c, es[0]);
      hide Inv, Faithful, Step, Chronicled;
      ChroniclesGrow(space, Step(space, s, es[0]), Chronicled(space, c, s, es[0]), es[1..]);
    }
  }

  lemma PlayedIsNext(space: Space, s: State, c: Chronicle)
    requires Inv(space, s) && Faithful(space, s, c) && Plays(Emit(space, s))
    ensures c.current.start.Some?
    ensures var m := Emit(space, s); m.number == Ahead(space, c.current.start.value, Offset(c.current, m))
  {
    if c.current.start.Some? { AheadNext(space, c.current.start.value, |c.current.consumed|); }
    hide OnlySilenceStretched, Ahead;
  }

  /**
   Within a stretch of playout, packets are played in increasing serial order and so at
   most once: of two packets played, by a reduction or not, the later one is further
   ahead of the first number.
   */
  lemma PlayedInSerialOrder(space: Space, s: State, c: Chronicle, es: seq<Event>)
    requires Inv(space, s) && Faithful(space, s, c)
    requires forall e :: e in es ==> WellFormed(space, e)
    requires es != [] && es[0].Tick? && Plays(Emit(space, s)) && Plays(Emit(space, Run(space, s, es)))
    requires Chronicles(space, c, s, es).past == c.past
    ensures var d := Chronicles(space, c, s, es); var start := c.current.start;
      var m, n := Emit(space, s), Emit(space, Run(space, s, es));
      && start.Some? && d.current.start == start
      && m.number == Ahead(space, start.value, Offset(c.current, m))
      && n.number == Ahead(space, start.value, Offset(d.current, n))
      && Offset(c.current, m) < Offset(d.current, n)
  {
    assert es[0] in es;
    StepInv(space, s, es[0]);
    RunInv(space, s, es);
    PlayedIsNext(space, s, c);
    AdaptationOnlyStretchesSilence(space, s, c, es);
    PlayedIsNext(space, Run(space, s, es), Chronicles(space, c, s, es));
    ChronicleStep(space, s, c, es[0]);
    ChronicleGrows(space, s, c, es[0]);
    ChroniclesGrow(space, Step(space, s, es[0]), Chronicled(space, c, s, es[0]), es[1..]);
    hide Inv, Faithful, Step, Chronicled, Emit, Run;
  }

  /** The kind recorded for a chunk is what the listener gets, under the next number in serial order. */
  lemma KindIsTheChunk(space: Space, s: State, ep: Epoch)
    requires Inv(space, s) && Follows(space, s, ep) && !s.closed
    ensures var m := Emit(space, s); var k := Extend(ep, m).emitted;
      if m.Waiting? then k == ep.emitted && ChunkOf(s, m) == Some(Quiet(s))
      else
        && |k| == |ep.emitted| + 1 && ep.start.Some?
        && ChunkOf(s, m) == Some(match k[|ep.emitted|]
                                 case Audio(pcm) => pcm
                                 case Silence => Quiet(s)
                                 case Lost => Conceal(s, s.lossRun + 1))
        && (m.Played? ==>
              && m.number == Ahead(space, ep.start.value, |ep.consumed|)
              && m.number in s.packets && KindOf(s.packets[m.number]) == k[|ep.emitted|])
  {}

  // ----- the applied depth -------------------------------------------------------------

  function Gap(a: int, b: int): nat { if a <= b then b - a else a - b }

  lemma TickMovesApplied(space: Space, s: State, t: ChunkTimes)
    requires Inv(space, s)
    ensures var r := NextChunk(space, s, t);
      r.applied != s.applied ==> Gap(r.applied, s.adaptive.target) == Gap(s.applied, s.adaptive.target) - 1
  {
    hide T.Observe, Q.Record;
    match Emit(space, s)
    case Reduced(_, _) =>
    case Concealed(_) =>
    case _ =>
  }

  lemma IngestSetsApplied(space: Space, s: State, number: int, payload: Bytes, t: IngestTimes)
    requires Inv(space, s)
    ensures var r := Ingest(space, s, number, payload, t);
      r.applied == s.applied || (r.applied == r.adaptive.target && r.buffered && !s.buffered)
  {
    hide T.Observe, Q.Record;
    match Classify(space, s, number)
    case Stored =>
    case _ =>
  }

  /** The applied depth is set to the target when buffering ends and otherwise moves one packet toward it. */
  lemma AppliedMovesTowardTarget(space: Space, s: State, e: Event)
    requires Inv(space, s) && WellFormed(space, e)
    ensures var t := Step(space, s, e);
      && s.adaptive.minimum <= t.applied <= s.adaptive.maximum
      && (e.Packet? ==> t.applied == s.applied || (t.applied == t.adaptive.target && t.buffered && !s.buffered))
      && (e.Tick? && t.applied != s.applied ==>
            Gap(t.applied, s.adaptive.target) == Gap(s.applied, s.adaptive.target) - 1)
      && (!e.Packet? && !e.Tick? ==> t.applied == s.applied)
  {
    StepInv(space, s, e);
    StepKeepsBounds(space, s, e);
    match e
    case Packet(number, payload, t) => IngestSetsApplied(space, s, number, payload, t);
    case Tick(t) => TickMovesApplied(space, s, t);
    case _ =>
  }

  // ----- the length of a concealed run ----------------------------------------------------

  // Every chunk of the run is concealed, whatever else happens in between.
  ghost predicate AllConcealed(space: Space, s: State, es: seq<Event>)
    requires Inv(space, s)
    requires forall e :: e in es ==> WellFormed(space, e)
    decreases |es|
  {
    es == [] || (
      assert es[0] in es;
      StepInv(space, s, es[0]);
      (es[0].Tick? ==> Emit(space, s).Concealed?) && AllConcealed(space, Step(space, s, es[0]), es[1..]))
  }

  function Ticks(es: seq<Event>): nat {
    if es == [] then 0 else (if es[0].Tick? then 1 else 0) + Ticks(es[1..])
  }

  // After a clear, nothing can be concealed before a packet has been played; after a close, nothing at all.
  ghost predicate Rested(s: State) {
    s.closed || s.playout.None? || s.playout.value in s.packets
  }

  lemma RestedStays(space: Space, s: State, e: Event)
    requires Inv(space, s) && Rested(s) && !e.Tick?
    ensures Rested(Step(space, s, e))
  {
    hide Ingest, Q.Record, T.Impair, T.ResetArrivals;
    match e
    case Packet(number, payload, t) => IngestMoves(space, s, number, payload, t);
    case _ =>
  }

  lemma {:induction false} NothingToConceal(space: Space, s: State, es: seq<Event>)
    requires Inv(space, s) && Rested(s)
    requires forall e :: e in es ==> WellFormed(space, e)
    requires AllConcealed(space, s, es)
    ensures Ticks(es) == 0
    decreases |es|
  {
    hide Step;
    if es != [] {
      assert es[0] in es;
      StepInv(space, s, es[0]);
      assert !es[0].Tick?;
      RestedStays(space, s, es[0]);
      NothingToConceal(space, Step(space, s, es[0]), es[1..]);
    }
  }

  lemma ConcealStep(space: Space, s: State, e: Event)
    requires Inv(space, s) && (e.Tick? ==> Emit(space, s).Concealed?)
    ensures var t := Step(space, s, e);
      && t.policy == s.policy
      && (Rested(t) || t.outage == s.outage + (if e.Tick? then 1 else 0))
  {
    match e {
      case Packet(number, payload, t) =>
        IngestMoves(space, s, number, payload, t);
        hide Ingest, Inv;
      case _ =>
        hide Q.Record, T.Impair, T.ResetArrivals, Inv;
    }
  }

  /**
   A concealed run is at most `maxOutage` + 1 chunks long, then the buffer starts afresh:
   whatever packets arrive, and however often the producer leaves or is replaced meanwhile.
   */
  lemma {:induction false} ConcealedRunEnds(space: Space, s: State, es: seq<Event>)
    requires Inv(space, s)
    requires forall e :: e in es ==> WellFormed(space, e)
    requires AllConcealed(space, s, es)
    ensures Ticks(es) <= s.policy.maxOutage + 1 - s.outage
    decreases |es|
  {
    if es != [] {
      assert es[0] in es;
      StepInv(space, s, es[0]);
      ConcealStep(space, s, es[0]);
      assert s.outage <= s.policy.maxOutage;
      hide Step;
      var t := Step(space, s, es[0]);
      if Rested(t) {
        NothingToConceal(space, t, es[1..]);
      } else {
        ConcealedRunEnds(space, t, es[1..]);
      }
    }
  }
}
