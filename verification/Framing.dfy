/**
 Packets over a byte stream that accepts and delivers them in arbitrary pieces:
 complete writes, exact reads, and the receiving loop between them.
 */
module Framing {
  import opened Wrappers
  import opened Octets
  import opened Wire

  // ----- what a stream means, whatever its pieces -----------------------------------------

  datatype Ending = CleanEnd | CutShort | Malformed(why: Rejection)

  datatype Reading = Reading(packets: seq<Packet>, ending: Ending)

  function Frames(stream: Bytes): Reading
    decreases |stream|
  {
    if stream == [] then Reading([], CleanEnd)
    else if |stream| < HEADER_LEN then Reading([], CutShort)
    else
      var h := ParseHeader(stream[..HEADER_LEN], DEFAULT_FORMAT);
      if h.Err? then Reading([], Malformed(h.error))
      else
        var size := HEADER_LEN + h.value.payloadBytes;
        if |stream| < size then Reading([], CutShort)
        else
          var rest := Frames(stream[size..]);
          Reading([Packet(h.value.number, stream[HEADER_LEN..size])] + rest.packets, rest.ending)
  }

  function EncodeAll(ps: seq<Packet>): Bytes {
    if ps == [] then [] else PacketBytes(ps[0]) + EncodeAll(ps[1..])
  }

  ghost predicate AllValid(ps: seq<Packet>) { forall i :: 0 <= i < |ps| ==> Valid(ps[i]) }

  // How many whole packets the first `cut` bytes hold.
  function Whole(ps: seq<Packet>, cut: nat): (k: nat)
    ensures k <= |ps|
  {
    if ps == [] || cut < |PacketBytes(ps[0])| then 0 else 1 + Whole(ps[1..], cut - |PacketBytes(ps[0])|)
  }

  lemma FirstFrame(p: Packet, rest: Bytes)
    requires Valid(p)
    ensures Frames(PacketBytes(p) + rest) == Reading([p] + Frames(rest).packets, Frames(rest).ending)
  {
    HeaderParses(p.number, p.payload == []);
    var stream, h := PacketBytes(p) + rest, HeaderBytes(p.number, p.payload == []);
    assert stream[..HEADER_LEN] == h;
    assert stream[HEADER_LEN..HEADER_LEN + |p.payload|] == p.payload;
    assert stream[HEADER_LEN + |p.payload|..] == rest;
    hide HeaderBytes, ParseHeader;
  }

  lemma CutFrame(p: Packet, cut: nat)
    requires Valid(p) && cut < |PacketBytes(p)|
    ensures Frames(PacketBytes(p)[..cut]) == Reading([], if cut == 0 then CleanEnd else CutShort)
  {
    var stream := PacketBytes(p)[..cut];
    if cut >= HEADER_LEN {
      HeaderParses(p.number, p.payload == []);
      assert stream[..HEADER_LEN] == HeaderBytes(p.number, p.payload == []);
      hide HeaderBytes, ParseHeader;
    }
  }

  ghost predicate ReadsWhole(ps: seq<Packet>, cut: nat)
    requires cut <= |EncodeAll(ps)|
  {
    var k, r := Whole(ps, cut), Frames(EncodeAll(ps)[..cut]);
    && r.packets == ps[..k]
    && r.ending == (if cut == |EncodeAll(ps[..k])| then CleanEnd else CutShort)
    && |EncodeAll(ps[..k])| <= cut
    && (k < |ps| ==> cut < |EncodeAll(ps[..k + 1])|)
  }

  lemma EncodeCons(p: Packet, ps: seq<Packet>)
    ensures EncodeAll([p] + ps) == PacketBytes(p) + EncodeAll(ps)
  {
    assert ([p] + ps)[1..] == ps;
  }

  lemma CutInFirst(p: Packet, ps: seq<Packet>, cut: nat)
    requires Valid(p) && cut < |PacketBytes(p)|
    ensures cut <= |EncodeAll([p] + ps)| && ReadsWhole([p] + ps, cut)
  {
    hide PacketBytes, Frames;
    EncodeCons(p, ps);
    EncodeCons(p, []);
    CutFrame(p, cut);
    var none: seq<Packet> := [];
    assert ([p] + ps)[..0] == none && ([p] + ps)[..1] == [p] + none && EncodeAll(none) == [];
    assert EncodeAll([p] + ps)[..cut] == PacketBytes(p)[..cut];
  }

  lemma CutAfterFirst(p: Packet, ps: seq<Packet>, cut: nat)
    requires Valid(p) && |PacketBytes(p)| <= cut <= |PacketBytes(p)| + |EncodeAll(ps)|
    requires ReadsWhole(ps, cut - |PacketBytes(p)|)
    ensures cut <= |EncodeAll([p] + ps)| && ReadsWhole([p] + ps, cut)
  {
    hide PacketBytes, Frames;
    var n := |PacketBytes(p)|;
    var k := Whole(ps, cut - n);
    EncodeCons(p, ps);
    FirstFrame(p, EncodeAll(ps)[..cut - n]);
    assert EncodeAll([p] + ps)[..cut] == PacketBytes(p) + EncodeAll(ps)[..cut - n];
    assert ([p] + ps)[1..] == ps && ([p] + ps)[..k + 1] == [p] + ps[..k];
    EncodeCons(p, ps[..k]);
    if k < |ps| {
      assert ([p] + ps)[..k + 2] == [p] + ps[..k + 1];
      EncodeCons(p, ps[..k + 1]);
    }
  }

  /**
   A printed stream cut anywhere reads as exactly its complete packets; it ends
   cleanly exactly when the cut is between packets.
   */
  lemma {:induction false} CutStreamReads(ps: seq<Packet>, cut: nat)
    requires AllValid(ps) && cut <= |EncodeAll(ps)|
    ensures ReadsWhole(ps, cut)
    decreases |ps|
  {
    if ps != [] {
      assert ps == [ps[0]] + ps[1..];
      hide ReadsWhole, PacketBytes;
      if cut < |PacketBytes(ps[0])| {
        CutInFirst(ps[0], ps[1..], cut);
      } else {
        CutStreamReads(ps[1..], cut - |PacketBytes(ps[0])|);
        CutAfterFirst(ps[0], ps[1..], cut);
      }
    }
  }

  lemma {:induction false} WholeOfAll(ps: seq<Packet>)
    ensures Whole(ps, |EncodeAll(ps)|) == |ps|
    decreases |ps|
  {
    if ps != [] { WholeOfAll(ps[1..]); }
  }

  /** A whole printed stream reads back as the packets printed. */
  lemma WholeStreamReads(ps: seq<Packet>)
    requires AllValid(ps)
    ensures Frames(EncodeAll(ps)) == Reading(ps, CleanEnd)
  {
    var all := EncodeAll(ps);
    CutStreamReads(ps, |all|);
    WholeOfAll(ps);
    assert all[..|all|] == all && ps[..|ps|] == ps;
  }

  // ----- sending ---------------------------------------------------------------------------

  // So many bytes of a text have arrived behind what was there.
  ghost predicate Arrived(before: Bytes, text: Bytes, k: nat, after: Bytes) {
    k <= |text| && after == before + text[..k]
  }

  datatype WriteReply = Accepts(n: nat) | Fails

  datatype WriteError = WriteFailed | Closed

  // A stream that takes as much of each write as it likes; what it says is scripted.
  class ByteSink {
    var received: Bytes
    var script: seq<WriteReply>

    constructor (script: seq<WriteReply>)
      ensures received == [] && this.script == script
    {
      received, this.script := [], script;
    }

    method Write(bytes: Bytes) returns (reply: WriteReply)
      modifies this
      ensures old(script) == [] ==> reply.Fails?
      ensures old(script) != [] ==> reply == old(script)[0] && script == old(script)[1..]
      ensures reply.Accepts? ==> received == old(received) + bytes[..Min(reply.n, |bytes|)]
      ensures reply.Fails? ==> received == old(received)
    {
      if script == [] {
        return Fails;
      }
      reply := script[0];
      script := script[1..];
      if reply.Accepts? {
        received := received + bytes[..Min(reply.n, |bytes|)];
      }
    }
  }

  // The stream takes something of every write, never more than it was offered, until all is taken.
  ghost predicate Honest(script: seq<WriteReply>, left: nat)
    decreases |script|
  {
    left == 0 || (
      && script != [] && script[0].Accepts?
      && 1 <= script[0].n <= left && Honest(script[1..], left - script[0].n))
  }

  // What it has to say after that.
  ghost function Afterwards(script: seq<WriteReply>, left: nat): seq<WriteReply>
    requires Honest(script, left)
    decreases |script|
  {
    if left == 0 then script else Afterwards(script[1..], left - script[0].n)
  }

  ghost predicate HonestToAll(script: seq<WriteReply>, ps: seq<Packet>)
    decreases |ps|
  {
    ps == [] || (
      && Honest(script, |PacketBytes(ps[0])|)
      && HonestToAll(Afterwards(script, |PacketBytes(ps[0])|), ps[1..]))
  }

  /**
   Complete a write even when the transport accepts only a prefix at a time; `k` bytes get
   there. It succeeds exactly when the stream goes on taking.
   */
  method WriteAllWith(bytes: Bytes, sink: ByteSink) returns (r: Result<(), WriteError>, ghost k: nat)
    modifies sink
    ensures Arrived(old(sink.received), bytes, k, sink.received)
    ensures r.Ok? ==> k == |bytes|
    ensures r.Ok? <==> Honest(old(sink.script), |bytes|)
    ensures r.Ok? ==> sink.script == Afterwards(old(sink.script), |bytes|)
  {
    var sent: nat := 0;
    k := 0;
    assert bytes[..0] == [];
    while sent < |bytes|
      invariant sent <= |bytes| && k == sent && Arrived(old(sink.received), bytes, k, sink.received)
      invariant Honest(sink.script, |bytes| - sent) <==> Honest(old(sink.script), |bytes|)
      invariant Honest(old(sink.script), |bytes|) ==>
                  Afterwards(sink.script, |bytes| - sent) == Afterwards(old(sink.script), |bytes|)
    {
      var reply := sink.Write(bytes[sent..]);
      if reply.Fails? {
        return Err(WriteFailed), k;
      }
      k := sent + Min(reply.n, |bytes| - sent);
      assert bytes[..sent] + bytes[sent..][..k - sent] == bytes[..k];
      if reply.n == 0 || reply.n > |bytes| - sent {
        return Err(Closed), k;
      }
      sent := sent + reply.n;
    }
    return Ok(()), k;
  }

  lemma AllArrived(before: Bytes, text: Bytes, k: nat, after: Bytes)
    requires Arrived(before, text, k, after) && k == |text|
    ensures after == before + text
  {
    assert text[..k] == text;
  }

  lemma ArrivedLater(before: Bytes, first: Bytes, rest: Bytes, k: nat, after: Bytes)
    requires Arrived(before + first, rest, k, after)
    ensures Arrived(before, first + rest, |first| + k, after)
  {
    assert (first + rest)[..|first| + k] == first + rest[..k];
  }

  lemma ArrivedFirst(before: Bytes, first: Bytes, rest: Bytes, k: nat, after: Bytes)
    requires Arrived(before, first, k, after)
    ensures Arrived(before, first + rest, k, after)
  {
    assert (first + rest)[..k] == first[..k];
  }

  /** Send packets until one fails: all of them exactly when the stream goes on taking. */
  method SendPackets(ps: seq<Packet>, sink: ByteSink) returns (ok: bool, ghost k: nat)
    modifies sink
    ensures Arrived(old(sink.received), EncodeAll(ps), k, sink.received)
    ensures ok ==> k == |EncodeAll(ps)|
    ensures ok <==> HonestToAll(old(sink.script), ps)
    decreases |ps|
  {
    k := 0;
    if ps == [] {
      return true, 0;
    }
    ghost var first, rest := PacketBytes(ps[0]), EncodeAll(ps[1..]);
    ghost var start := sink.received;
    assert EncodeAll(ps) == first + rest;
    hide PacketBytes, EncodeAll, Arrived, Honest, Afterwards;
    var r;
    r, k := WriteAllWith(PacketBytes(ps[0]), sink);
    if r.Err? {
      ArrivedFirst(start, first, rest, k, sink.received);
      return false, k;
    }
    AllArrived(start, first, k, sink.received);
    ok, k := SendPackets(ps[1..], sink);
    ArrivedLater(start, first, rest, k, sink.received);
    k := |first| + k;
  }

  // ----- receiving -------------------------------------------------------------------------

  datatype ReadReply = Delivers(n: nat) | TimesOut | Breaks

  datatype Raised = ReadTimeout | ConnectionFailed | Truncated

  datatype Received = Got(bytes: Bytes) | EndOfStream | Raises(error: Raised)

  // A connection with bytes still to come; the size of each piece, and any trouble, is scripted.
  class Connection {
    var incoming: Bytes
    var script: seq<ReadReply>

    constructor (incoming: Bytes, script: seq<ReadReply>)
      ensures this.incoming == incoming && this.script == script
    {
      this.incoming, this.script := incoming, script;
    }

    // At least one byte unless the peer has closed; everything asked for once the script is over.
    method Recv(limit: nat) returns (chunk: Bytes, trouble: Option<Raised>)
      requires limit > 0
      modifies this
      ensures trouble.Some? ==> chunk == [] && incoming == old(incoming) && trouble.value != Truncated
      ensures trouble.Some? ==> |script| < |old(script)|
      ensures trouble.None? ==> old(incoming) == chunk + incoming && |chunk| <= limit
      ensures trouble.None? ==> (chunk == [] <==> old(incoming) == []) && |script| <= |old(script)|
      ensures script == (if old(script) == [] then [] else old(script)[1..])
      ensures trouble.Some? <==> old(script) != [] && !old(script)[0].Delivers?
      ensures trouble == Some(ReadTimeout) <==> old(script) != [] && old(script)[0].TimesOut?
    {
      var n: nat := Min(limit, |incoming|);
      if script != [] {
        var reply := script[0];
        script := script[1..];
        match reply {
          case TimesOut => return [], Some(ReadTimeout);
          case Breaks => return [], Some(ConnectionFailed);
          case Delivers(size) => n := Min(n, if size == 0 then 1 else size);
        }
      }
      chunk, trouble := incoming[..n], None;
      incoming := incoming[n..];
    }
  }

  // What an exact read of `size` bytes leaves of a stream, and what it may report.
  ghost predicate ExactRead(before: Bytes, size: nat, allowEof: bool, r: Received, after: Bytes) {
    match r
    case Got(bytes) => |bytes| == size && before == bytes + after
    case EndOfStream => allowEof && before == [] && size > 0
    case Raises(Truncated) => |before| < size && (allowEof ==> before != [])
    case Raises(_) => true
  }

  // The connection only delivers.
  ghost predicate Smooth(script: seq<ReadReply>) { forall i :: 0 <= i < |script| ==> script[i].Delivers? }

  // It only delivers, but may be idle for a while before it does.
  ghost predicate SmoothAfterIdling(script: seq<ReadReply>) {
    exists idle: nat :: idle <= |script| && Idling(script, idle) && Smooth(script[idle..])
  }

  ghost predicate Idling(script: seq<ReadReply>, idle: nat)
    requires idle <= |script|
  {
    forall i :: 0 <= i < idle ==> script[i].TimesOut?
  }

  lemma IdlesOn(script: seq<ReadReply>)
    requires script != []
    ensures SmoothAfterIdling(script) ==>
              if script[0].TimesOut? then SmoothAfterIdling(script[1..])
              else script[0].Delivers? && Smooth(script[1..])
  {
    if SmoothAfterIdling(script) {
      var idle: nat :| idle <= |script| && Idling(script, idle) && Smooth(script[idle..]);
      if idle > 0 {
        assert script[idle..] == script[1..][idle - 1..];
        assert Idling(script[1..], idle - 1);
      } else {
        assert script[0] == script[0..][0];
        forall i | 0 <= i < |script| - 1 ensures script[1..][i].Delivers? {
          assert script[1..][i] == script[0..][i + 1];
        }
      }
    }
  }

  /**
   Read a complete frame portion, telling a clean end from a truncated one. Over a connection
   that only delivers, once it does, nothing else is ever reported.
   */
  method RecvExact(conn: Connection, size: nat, allowEof: bool, allowIdle: bool) returns (r: Received)
    modifies conn
    ensures ExactRead(old(conn.incoming), size, allowEof, r, conn.incoming)
    ensures Smooth(old(conn.script)) ==> Smooth(conn.script)
    ensures Smooth(old(conn.script)) ==> !r.Raises? || r.error == Truncated
    ensures allowIdle && SmoothAfterIdling(old(conn.script)) ==> !r.Raises? || r.error == Truncated
  {
    var chunks := [];
    var remaining := size;
    while remaining != 0
      invariant 0 <= remaining <= size && |chunks| == size - remaining
      invariant old(conn.incoming) == chunks + conn.incoming
      invariant Smooth(old(conn.script)) ==> Smooth(conn.script)
      invariant allowIdle && SmoothAfterIdling(old(conn.script)) ==>
                  Smooth(conn.script) || (remaining == size && SmoothAfterIdling(conn.script))
      decreases |conn.script| + remaining, |conn.script|
    {
      if conn.script != [] { IdlesOn(conn.script); }
      var chunk, trouble := conn.Recv(remaining);
      if trouble.Some? {
        // Only a read deadline before the first byte counts as an idle producer.
        if allowIdle && remaining == size && trouble.value.ReadTimeout? {
          continue;
        }
        return Raises(trouble.value);
      }
      if chunk == [] {
        if allowEof && remaining == size {
          return EndOfStream;
        }
        return Raises(Truncated);
      }
      chunks := chunks + chunk;
      remaining := remaining - |chunk|;
    }
    return Got(chunks);
  }

  // How a receiving loop ends: with the stream, with trouble, or because a packet was refused.
  datatype Stopped = AtEnd(ending: Ending) | Troubled(error: Raised) | Refused

  lemma NextFrame(stream: Bytes, header: Bytes, rest: Bytes, h: Header)
    requires stream == header + rest && |header| == HEADER_LEN && ParseHeader(header, DEFAULT_FORMAT) == Ok(h)
    ensures Frames(stream) ==
              if |rest| < h.payloadBytes then Reading([], CutShort)
              else Reading([Packet(h.number, rest[..h.payloadBytes])] + Frames(rest[h.payloadBytes..]).packets,
                           Frames(rest[h.payloadBytes..]).ending)
  {
    assert stream[..HEADER_LEN] == header;
    if |rest| >= h.payloadBytes {
      assert stream[HEADER_LEN..HEADER_LEN + h.payloadBytes] == rest[..h.payloadBytes];
      assert stream[HEADER_LEN + h.payloadBytes..] == rest[h.payloadBytes..];
    }
  }

  function Behind(p: Packet, rest: Reading): Reading { Reading([p] + rest.packets, rest.ending) }

  datatype Next = Came(packet: Packet) | Over(stopped: Stopped)

  // One turn of the receiving loop: header, then payload.
  method ReadPacket(conn: Connection, established: bool) returns (next: Next)
    modifies conn
    ensures next.Came? ==> |conn.incoming| < |old(conn.incoming)|
    ensures next.Came? ==> Frames(old(conn.incoming)) == Behind(next.packet, Frames(conn.incoming))
    ensures next.Over? && next.stopped.AtEnd? ==> Frames(old(conn.incoming)) == Reading([], next.stopped.ending)
    ensures next.Over? ==> next.stopped != Refused && next.stopped != Troubled(Truncated)
    ensures Smooth(old(conn.script)) ==> Smooth(conn.script) && (next.Came? || next.stopped.AtEnd?)
  {
    ghost var stream := conn.incoming;
    var header := RecvExact(conn, HEADER_LEN, true, established);
    if header.EndOfStream? {
      return Over(AtEnd(CleanEnd));
    }
    if header.Raises? {
      return Over(if header.error.Truncated? then AtEnd(CutShort) else Troubled(header.error));
    }
    assert stream[..HEADER_LEN] == header.bytes;
    var h := ParseHeader(header.bytes, DEFAULT_FORMAT);
    hide ParseHeader;
    if h.Err? {
      return Over(AtEnd(Malformed(h.error)));
    }
    ghost var middle := conn.incoming;
    NextFrame(stream, header.bytes, middle, h.value);
    hide Frames;
    var payload := RecvExact(conn, h.value.payloadBytes, false, false);
    if payload.Raises? {
      return Over(if payload.error.Truncated? then AtEnd(CutShort) else Troubled(payload.error));
    }
    assert middle[..|payload.bytes|] == payload.bytes && middle[|payload.bytes|..] == conn.incoming;
    return Came(Packet(h.value.number, payload.bytes));
  }

  /**
   The receiving loop, for a lease that accepts so many packets and then refuses.
   However the connection delivers its bytes, the packets ingested are those of the
   stream, in order: all of them at its end, otherwise the first ones.
   */
  method ReceiveSource(conn: Connection, accepts: nat) returns (ingested: seq<Packet>, stopped: Stopped)
    modifies conn
    ensures ingested <= Frames(old(conn.incoming)).packets && |ingested| <= accepts
    ensures stopped.AtEnd? ==> Reading(ingested, stopped.ending) == Frames(old(conn.incoming))
    ensures stopped.Refused? ==> |ingested| == accepts < |Frames(old(conn.incoming)).packets|
    ensures stopped.Troubled? ==> stopped.error != Truncated
    ensures Smooth(old(conn.script)) ==> !stopped.Troubled?
  {
    hide Frames, Smooth;
    ingested := [];
    ghost var stream := Frames(conn.incoming);
    var established := false;
    while true
      invariant |ingested| <= accepts && (Smooth(old(conn.script)) ==> Smooth(conn.script))
      invariant stream == Reading(ingested + Frames(conn.incoming).packets, Frames(conn.incoming).ending)
      decreases |conn.incoming|
    {
      var next := ReadPacket(conn, established);
      if next.Over? {
        assert next.stopped.AtEnd? ==> ingested + [] == ingested;
        return ingested, next.stopped;
      }
      ghost var rest := Frames(conn.incoming).packets;
      assert ingested + ([next.packet] + rest) == ingested + [next.packet] + rest;
      if |ingested| == accepts {
        return ingested, Refused;
      }
      ingested := ingested + [next.packet];
      established := true;
    }
  }

  /**
   From the firmware's packets to the bridge's, over any short writes and any short
   reads: a sent stream that ends is ingested as exactly the packets that arrived
   whole, and a stream sent to its end as exactly the packets sent.
   */
  method Deliver(ps: seq<Packet>, sink: ByteSink, pieces: seq<ReadReply>, accepts: nat)
    returns (sent: bool, ingested: seq<Packet>, stopped: Stopped)
    requires AllValid(ps) && sink.received == [] && |ps| <= accepts
    modifies sink
    ensures ingested <= ps
    ensures stopped.AtEnd? ==> ingested == ps[..Whole(ps, |sink.received|)] && !stopped.ending.Malformed?
    ensures sent && stopped.AtEnd? ==> ingested == ps && stopped.ending == CleanEnd
    ensures Smooth(pieces) ==> stopped.AtEnd?
    ensures HonestToAll(old(sink.script), ps) && Smooth(pieces) ==> ingested == ps && stopped.ending == CleanEnd
  {
    hide Frames, Smooth, HonestToAll, ReadsWhole, EncodeAll;
    ghost var k;
    sent, k := SendPackets(ps, sink);
    var conn := new Connection(sink.received, pieces);
    ingested, stopped := ReceiveSource(conn, accepts);
    assert sink.received == EncodeAll(ps)[..k];
    CutStreamIngested(ps, k);
  }

  lemma CutStreamIngested(ps: seq<Packet>, cut: nat)
    requires AllValid(ps) && cut <= |EncodeAll(ps)|
    ensures var r := Frames(EncodeAll(ps)[..cut]);
      && |EncodeAll(ps)[..cut]| == cut
      && r.packets == ps[..Whole(ps, cut)] && r.packets <= ps && |r.packets| <= |ps|
      && !r.ending.Malformed?
      && (cut == |EncodeAll(ps)| ==> r == Reading(ps, CleanEnd))
  {
    CutStreamReads(ps, cut);
    WholeStreamReads(ps);
    if cut == |EncodeAll(ps)| { assert EncodeAll(ps)[..cut] == EncodeAll(ps); }
  }
}
