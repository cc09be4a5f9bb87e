/** Which counters and which quality events each arrival, chunk and interruption adds, and no others. */
module PlayoutCounts {
  import opened Wrappers
  import opened SerialNumbers
  import opened Playout
  import opened PlayoutReadiness
  import T = AdaptiveTarget
  import Q = Quality

  // The packet comes after one that is numbered ahead of it.
  ghost predicate Reordered(space: Space, s: State, number: int) {
    Welcome(space, s, number) && s.highest.Some? && Dist(space, s.highest.value, number) < 0
  }

  function One(b: bool): nat { if b then 1 else 0 }

  /**
   On an open buffer every arrival counts as a packet, and at most once more: as late,
   duplicate, over the cap, or kept out of order. Only a late one is a quality event.
   */
  lemma ArrivalCounts(space: Space, s: State, e: Event)
    requires Inv(space, s) && e.Packet?
    ensures var t, n := Step(space, s, e), e.number;
      var late := !s.closed && TooLate(space, s, n);
      var again := !s.closed && !late && n in s.packets;
      && t.stats == s.stats.(
           packets := s.stats.packets + One(!s.closed),
           late := s.stats.late + One(late),
           duplicate := s.stats.duplicate + One(again),
           overflows := s.stats.overflows + One(!s.closed && !late && !again && !Welcome(space, s, n)),
           reordered := s.stats.reordered + One(Reordered(space, s, n)))
      && t.quality == (if late then Q.Record(s.quality, Q.LatePackets, e.arrived.recorded) else s.quality)
  {
    hide T.Observe, T.Impair, Q.Record;
  }

  /** The number others count as out of order against is the one furthest ahead of those kept. */
  lemma HighestIsKept(space: Space, s: State, e: Event)
    requires Inv(space, s) && e.Packet?
    ensures Step(space, s, e).highest ==
      if Welcome(space, s, e.number) && (s.highest.None? || Dist(space, s.highest.value, e.number) > 0)
      then Some(e.number) else s.highest
  {
    hide T.Observe, T.Impair, Q.Record;
  }

  // The silent head is stretched, or skipped together with a second silent packet.
  ghost predicate Stretches(s: State)
    requires s.playout.Some?
  {
    Hush(s, s.playout.value) && s.applied < s.adaptive.target
  }

  ghost predicate Squeezes(space: Space, s: State)
    requires s.playout.Some?
  {
    Hush(s, s.playout.value) && s.applied > s.adaptive.target && Hush(s, Next(space, s.playout.value))
  }

  /** A chunk counts what it was: sound, silence, silence stretched or skipped, or a loss; sound has no counter. */
  lemma ChunkCounts(space: Space, s: State, t: ChunkTimes)
    requires Inv(space, s) && Playing(s)
    ensures var r, head := Step(space, s, Tick(t)), s.playout.value;
      var held, quiet := head in s.packets, Hush(s, head) && !Stretches(s);
      var gone := !held && s.outage == s.policy.maxOutage;
      && r.stats == s.stats.(
           expansions := s.stats.expansions + One(Stretches(s)),
           reductions := s.stats.reductions + One(Squeezes(space, s)),
           silence := s.stats.silence + One(quiet),
           missing := s.stats.missing + One(!held),
           underruns := s.stats.underruns + One(gone))
      && r.quality ==
           if Stretches(s) then s.quality
           else if quiet then Q.Record(s.quality, Q.SilencePackets, t.recorded)
           else if held then Q.Record(s.quality, Q.AudioPackets, t.recorded)
           else
             var lost := Q.Record(s.quality, Q.MissingPackets, t.recorded);
             if gone then Q.Record(lost, Q.Underruns, t.underrun) else lost
  {
    NextIsNew(space, s.playout.value);
    hide T.Impair, Q.Record;
  }

  /** A disconnect is a quality event and nothing is counted; a reset or a close is neither. */
  lemma InterruptionCounts(space: Space, s: State, e: Event)
    requires Inv(space, s) && !e.Packet? && !e.Tick?
    ensures var t := Step(space, s, e);
      && t.stats == s.stats
      && t.quality == if e.Disconnect? then Q.Record(s.quality, Q.Disconnects, e.recorded) else s.quality
  {
    hide T.Impair, Q.Record;
  }
}
