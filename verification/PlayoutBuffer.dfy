/** The playout policy as the object that runs it, updating its fields in place. */
module PlayoutBuffers {
  import opened Wrappers
  import opened SerialNumbers
  import opened Octets
  import opened Pcm
  import P = Playout
  import T = AdaptiveTarget
  import Q = Quality
  import opened AdaptiveBuffers
  import opened QualityWindows

  const SLACK_SECONDS: real := 1.0

  // A duration in whole packets: the nearest count, at least one.
  function PacketsFor(seconds: real, interval: real): (count: int)
    requires interval > 0.0
    ensures count >= 1 && seconds / interval <= count as real + 0.5
    ensures count > 1 ==> count as real - 0.5 <= seconds / interval
  {
    Max(1, Round(seconds / interval))
  }

  class PlayoutBuffer {
    const policy: P.Policy
    const adaptive: AdaptiveBuffer
    const quality: QualityWindow
    var packets: map<int, Bytes>
    var ready: bool
    var closed: bool
    var lastPayload: Option<Bytes>
    var lossRun: nat
    var outage: nat
    var arrival: Option<int>
    var playout: Option<int>
    var highest: Option<int>
    var buffered: bool
    var applied: int
    var stats: P.Stats

    ghost function View(): P.State
      reads this, adaptive, quality
    {
      P.State(policy, packets, ready, closed, lastPayload, lossRun, outage, arrival, playout, highest, buffered,
              applied, stats, adaptive.View(), quality.View())
    }

    ghost predicate Valid()
      reads this, adaptive, quality
    {
      P.Inv(Uint32, View())
    }

    constructor (policy: P.Policy, adaptive: AdaptiveBuffer, quality: QualityWindow)
      requires policy.Valid() && adaptive.Valid() && quality.View() == Q.EMPTY
      ensures Valid() && View() == P.Fresh(policy, adaptive.View())
      ensures this.adaptive == adaptive && this.quality == quality
    {
      this.policy, this.adaptive, this.quality := policy, adaptive, quality;
      packets, ready, closed, lastPayload, lossRun, outage := map[], false, false, None, 0, 0;
      arrival, playout, highest, buffered, applied := None, None, None, false, adaptive.target;
      stats := P.NO_STATS;
    }

    // A buffer for these durations; a buffer time over the maximum is refused.
    static method Open(bufferSeconds: real, maximumSeconds: real, maxRepeat: nat, outageSeconds: real,
                       payloadBytes: nat, interval: real) returns (r: Result<PlayoutBuffer, ValueError>)
      requires interval > 0.0 && payloadBytes % 2 == 0
      ensures r.Ok? <==> PacketsFor(bufferSeconds, interval) <= PacketsFor(maximumSeconds, interval)
      ensures r.Ok? ==> fresh(r.value) && fresh(r.value.adaptive) && fresh(r.value.quality) && r.value.Valid()
      ensures r.Ok? ==> var maximum := PacketsFor(maximumSeconds, interval);
                r.value.View() == P.Fresh(
                  P.Policy(payloadBytes, maxRepeat, maximum + PacketsFor(SLACK_SECONDS, interval),
                           PacketsFor(outageSeconds, interval)),
                  T.Fresh(PacketsFor(bufferSeconds, interval), maximum, interval))
    {
      var maximum := PacketsFor(maximumSeconds, interval);
      var target := AdaptiveBuffer.Build(PacketsFor(bufferSeconds, interval), maximum, interval);
      match target
      case Err(e) => return Err(e);
      case Ok(adaptive) =>
        var policy := P.Policy(payloadBytes, maxRepeat, maximum + PacketsFor(SLACK_SECONDS, interval),
                               PacketsFor(outageSeconds, interval));
        var quality := new QualityWindow();
        var buffer := new PlayoutBuffer(policy, adaptive, quality);
        return Ok(buffer);
    }

    /** Admit one packet; `false` demands the producer's disconnect. */
    method Ingest(number: int, payload: Bytes, t: P.IngestTimes) returns (accepted: bool)
      requires Valid() && InSpace(Uint32, number) && |payload| % 2 == 0
      modifies this, adaptive, quality
      ensures Valid() && View() == P.Ingest(Uint32, old(View()), number, payload, t)
      ensures P.Outcome(Uint32, old(View()), P.Packet(number, payload, t)) == P.Admitted(accepted)
    {
      hide T.Observe, T.Impair, Q.Record, P.Inv, P.Place, P.Settle;
      ghost var before := View();
      P.IngestInv(Uint32, before, number, payload, t);
      if closed {
        return false;
      }
      AdaptiveIsValid();
      NoteArrival(number, t.observed);
      assert View() == P.Arrived(Uint32, before, number, t.observed);
      if playout.Some? && SeqDistance(playout.value, number) < 0 {
        stats := stats.(late := stats.late + 1);
        quality.Record(Q.LatePackets, t.recorded);
        adaptive.Impair(t.impaired);
        return true;
      }
      if number in packets {
        stats := stats.(duplicate := stats.duplicate + 1);
        return true;
      }
      if |packets| >= policy.maxBuffered {
        stats := stats.(overflows := stats.overflows + 1);
        return false;
      }
      Place(number, payload);
      Settle();
      return true;
    }

    lemma AdaptiveIsValid()
      requires Valid()
      ensures adaptive.Valid()
    {}

    method NoteArrival(number: int, now: real)
      requires adaptive.Valid()
      modifies this, adaptive
      ensures View() == P.Arrived(Uint32, old(View()), number, now) && adaptive.Valid()
    {
      hide T.Observe;
      stats := stats.(packets := stats.packets + 1);
      var advance := if arrival.None? then None else Some(SeqDistance(arrival.value, number));
      adaptive.Observe(advance, now);
      if advance.None? || advance.value > 0 {
        arrival := Some(number);
      }
    }

    method Place(number: int, payload: Bytes)
      modifies this
      ensures View() == P.Place(Uint32, old(View()), number, payload)
    {
      if highest.Some? && SeqDistance(highest.value, number) < 0 {
        stats := stats.(reordered := stats.reordered + 1);
      }
      packets := packets[number := payload];
      highest := if highest.None? || SeqDistance(highest.value, number) > 0 then Some(number) else highest;
      if playout.None? {
        playout := Some(number);
      }
    }

    method Settle()
      modifies this
      ensures View() == P.Settle(old(View()))
    {
      if |packets| >= adaptive.target {
        if !buffered {
          buffered := true;
          applied := adaptive.target;
        }
        ready := true;
      }
    }

    /** Play buffered PCM, or silence while buffering; only a close ends the output. */
    method NextChunk(t: P.ChunkTimes) returns (chunk: Option<Bytes>)
      requires Valid()
      modifies this, adaptive, quality
      ensures Valid() && View() == P.NextChunk(Uint32, old(View()), t)
      ensures P.Outcome(Uint32, old(View()), P.Tick(t)) == P.Chunk(chunk)
    {
      hide T.Observe, Q.Record, Attenuate;
      P.NextChunkInv(Uint32, View(), t);
      if closed {
        return None;
      }
      if !ready || playout.None? {
        return Some(Zeros(policy.payloadBytes));
      }
      var payload := PlayHead(t);
      return Some(payload);
    }

    // One chunk from a buffer that is playing.
    method PlayHead(t: P.ChunkTimes) returns (payload: Bytes)
      requires Valid() && !closed && ready && playout.Some?
      modifies this, adaptive, quality
      ensures View() == P.NextChunk(Uint32, old(View()), t)
      ensures P.ChunkOf(old(View()), P.Emit(Uint32, old(View()))) == Some(payload)
    {
      hide T.Observe, Q.Record, Attenuate;
      var number := playout.value;
      if number in packets && packets[number] == [] {
        if applied < adaptive.target {
          applied := applied + 1;
          stats := stats.(expansions := stats.expansions + 1);
          return Zeros(policy.payloadBytes);
        }
        var following := Wrap(number + 1);
        if applied > adaptive.target && following in packets && packets[following] == [] {
          NextIsNew(Uint32, number);
          Skip(number);
          payload := Play(following, t.recorded);
          return;
        }
      }
      if number in packets {
        payload := Play(number, t.recorded);
      } else {
        payload := Lose(number, t);
      }
    }

    // Remove a silent packet in favour of the silent one behind it.
    method Skip(number: int)
      modifies this
      ensures View() == P.DropSilence(old(View()), number)
    {
      packets := packets - {number};
      applied := applied - 1;
      stats := stats.(reductions := stats.reductions + 1);
    }

    method Play(number: int, now: real) returns (payload: Bytes)
      requires number in packets
      modifies this, quality
      ensures View() == P.PlayPacket(Uint32, old(View()), number, now)
      ensures payload == if old(packets)[number] == [] then Zeros(policy.payloadBytes) else old(packets)[number]
    {
      hide Q.Record;
      payload := packets[number];
      packets := packets - {number};
      if payload != [] {
        quality.Record(Q.AudioPackets, now);
      } else {
        stats := stats.(silence := stats.silence + 1);
        quality.Record(Q.SilencePackets, now);
        payload := Zeros(policy.payloadBytes);
      }
      lossRun, outage, lastPayload := 0, 0, Some(payload);
      playout := Some(Wrap(number + 1));
    }

    method Lose(number: int, t: P.ChunkTimes) returns (payload: Bytes)
      requires adaptive.Valid() && (lastPayload.Some? ==> |lastPayload.value| % 2 == 0)
      modifies this, adaptive, quality
      ensures View() == P.LosePacket(Uint32, old(View()), number, t)
      ensures payload == P.Conceal(old(View()), old(lossRun) + 1)
    {
      hide Q.Record, Attenuate;
      stats := stats.(missing := stats.missing + 1);
      quality.Record(Q.MissingPackets, t.recorded);
      adaptive.Impair(t.impaired);
      lossRun := lossRun + 1;
      outage := outage + 1;
      payload := if lastPayload.Some? && lossRun <= policy.maxRepeat
                 then Attenuate(lastPayload.value, policy.maxRepeat, lossRun)
                 else Zeros(policy.payloadBytes);
      playout := Some(Wrap(number + 1));
      if outage > policy.maxOutage {
        ClearForRebuffer();
        stats := stats.(underruns := stats.underruns + 1);
        quality.Record(Q.Underruns, t.underrun);
      }
    }

    // The buffer's own part of a clear.
    method Forget()
      modifies `packets, `ready, `playout, `highest, `arrival, `buffered, `lossRun, `outage
      ensures packets == map[] && ready == (closed && old(ready))
      ensures playout == highest == arrival == None && !buffered && lossRun == outage == 0
    {
      packets := map[];
      if !closed {
        ready := false;
      }
      playout, highest := None, None;
      arrival, buffered, lossRun, outage := None, false, 0, 0;
    }

    method ClearForRebuffer()
      requires adaptive.Valid()
      modifies this, adaptive
      ensures View() == P.ClearForRebuffer(old(View())) && adaptive.Valid()
    {
      hide T.ResetArrivals, P.Inv;
      Forget();
      adaptive.ClearArrivals();
    }

    method ResetSourceSession()
      requires Valid()
      modifies this, adaptive
      ensures Valid() && View() == P.ResetSession(old(View()))
    {
      ClearForRebuffer();
      lastPayload := None;
    }

    method NoteTcpDisconnect(recorded: real, impaired: real)
      requires Valid()
      modifies adaptive, quality
      ensures Valid() && View() == P.Disconnected(old(View()), recorded, impaired)
    {
      quality.Record(Q.Disconnects, recorded);
      adaptive.Impair(impaired);
    }

    method Close()
      requires Valid()
      modifies this
      ensures Valid() && View() == P.Close(old(View()))
    {
      closed, packets, ready := true, map[], true;
    }
  }
}
