/**
 Buffered output over a sink that may take any part of a write, interrupt it, or fail.
 Nothing accepted is lost, repeated or reordered.
 */
module BufferedOutput {
  import opened Wrappers
  import opened Octets

  datatype IoError = WriteZero | Interruption | Broken

  // What the sink does with the next call: take at most so many bytes, be interrupted, or fail.
  datatype Reply = Takes(n: nat) | Interrupts | Breaks

  // The bytes the sink has, and how it will answer; at the end of the script it only fails.
  datatype Sink = Sink(received: Bytes, script: seq<Reply>)

  datatype SinkReply = SinkReply(sink: Sink, result: Result<nat, IoError>)

  function SinkWrite(s: Sink, bytes: Bytes): (r: SinkReply)
    ensures r.result.Ok? ==> r.result.value <= |bytes| && r.sink.received == s.received + bytes[..r.result.value]
    ensures r.result.Err? ==> r.sink.received == s.received
    ensures s.script != [] ==> |r.sink.script| < |s.script|
    ensures s.script == [] ==> r.result == Err(Broken)
  {
    if s.script == [] then SinkReply(s, Err(Broken))
    else
      var rest := s.script[1..];
      match s.script[0]
      case Takes(n) =>
        var k := Min(n, |bytes|);
        SinkReply(Sink(s.received + bytes[..k], rest), Ok(k))
      case Interrupts => SinkReply(s.(script := rest), Err(Interruption))
      case Breaks => SinkReply(s.(script := rest), Err(Broken))
  }

  function SinkFlush(s: Sink): SinkReply {
    SinkWrite(s, [])
  }

  // `start` is where the pending bytes begin in the buffer.
  datatype Writer = Writer(sink: Sink, start: nat, pending: Bytes) {
    function End(): nat { start + |pending| }

    // Every byte accepted so far.
    function Stream(): Bytes { sink.received + pending }
  }

  datatype Drained = Drained(writer: Writer, error: Option<IoError>)

  function Drain(w: Writer): Drained
    decreases |w.sink.script|
  {
    if w.pending == [] then Drained(w.(start := 0), None)
    else
      var r := SinkWrite(w.sink, w.pending);
      if r.result == Ok(0) then Drained(w.(sink := r.sink), Some(WriteZero))
      else if r.result.Ok? then Drain(Writer(r.sink, w.start + r.result.value, w.pending[r.result.value..]))
      else if r.result.error.Interruption? then Drain(w.(sink := r.sink))
      else Drained(w.(sink := r.sink), Some(r.result.error))
  }

  datatype Wrote = Wrote(writer: Writer, result: Result<nat, IoError>)

  function Write(w: Writer, capacity: nat, bytes: Bytes): Wrote {
    var d := if |bytes| > capacity - w.End() then Drain(w) else Drained(w, None);
    if d.error.Some? then Wrote(d.writer, Err(d.error.value))
    else if |bytes| >= capacity then
      var r := SinkWrite(d.writer.sink, bytes);
      Wrote(d.writer.(sink := r.sink), r.result)
    else Wrote(d.writer.(pending := d.writer.pending + bytes), Ok(|bytes|))
  }

  function Flush(w: Writer): Wrote {
    var d := Drain(w);
    if d.error.Some? then Wrote(d.writer, Err(d.error.value))
    else
      var r := SinkFlush(d.writer.sink);
      Wrote(d.writer.(sink := r.sink), r.result)
  }

  // ----- what any sink leaves true ---------------------------------------------------------

  ghost predicate Fits(w: Writer, capacity: nat) { w.End() <= capacity }

  // The sink goes on taking until so many bytes are taken; being interrupted only delays it.
  ghost predicate Willing(script: seq<Reply>, left: nat)
    decreases |script|
  {
    left == 0 || (
      && script != [] && !script[0].Breaks?
      && if script[0].Interrupts? then Willing(script[1..], left)
         else script[0].n >= 1 && (script[0].n >= left || Willing(script[1..], left - script[0].n)))
  }

  // What it has to say after that.
  ghost function Remaining(script: seq<Reply>, left: nat): seq<Reply>
    requires Willing(script, left)
    decreases |script|
  {
    if left == 0 then script
    else if script[0].Interrupts? then Remaining(script[1..], left)
    else if script[0].n >= left then script[1..]
    else Remaining(script[1..], left - script[0].n)
  }

  // It takes the next bytes offered, or some of them.
  ghost predicate Ready(script: seq<Reply>) { script != [] && script[0].Takes? }

  /**
   Draining moves bytes and changes none. It leaves some behind exactly when it fails, and
   fails exactly when the sink stops taking; an interruption is none of its errors.
   */
  lemma {:induction false} DrainKeeps(w: Writer)
    ensures var d := Drain(w);
      && d.writer.Stream() == w.Stream() && w.sink.received <= d.writer.sink.received
      && (d.error.None? <==> d.writer.pending == [])
      && (d.error.None? ==> d.writer.start == 0)
      && (d.error.Some? ==> d.writer.End() == w.End())
      && (d.error.None? <==> Willing(w.sink.script, |w.pending|)) && d.error != Some(Interruption)
      && (d.error.None? ==> d.writer.sink.script == Remaining(w.sink.script, |w.pending|))
    decreases |w.sink.script|
  {
    if w.pending != [] {
      var r := SinkWrite(w.sink, w.pending);
      if r.result.Ok? && r.result.value > 0 {
        var n := r.result.value;
        var next := Writer(r.sink, w.start + n, w.pending[n..]);
        DrainKeeps(next);
        assert next.Stream() == w.Stream() by { assert w.pending == w.pending[..n] + w.pending[n..]; }
      } else if r.result == Err(Interruption) {
        DrainKeeps(w.(sink := r.sink));
      }
    }
  }

  // What one call accepted joins the end of the stream; a failed call adds nothing.
  ghost predicate Appends(w: Writer, bytes: Bytes, o: Wrote) {
    && w.sink.received <= o.writer.sink.received
    && (o.result.Ok? ==> o.result.value <= |bytes| && o.writer.Stream() == w.Stream() + bytes[..o.result.value])
    && (o.result.Err? ==> o.writer.Stream() == w.Stream())
  }

  /**
   A write appends what it reports, in order, also when it goes straight to the sink: by
   then nothing is buffered. One that fits what is left of the buffer always succeeds; else
   it succeeds exactly when the buffer drains and, for more than the buffer holds, the sink
   then takes some of it. A write shorter than the buffer is taken whole or fails.
   */
  lemma WriteAppends(w: Writer, capacity: nat, bytes: Bytes)
    requires Fits(w, capacity) && capacity > 0
    ensures var o := Write(w, capacity, bytes);
      && Fits(o.writer, capacity) && Appends(w, bytes, o)
      && (o.result.Ok? && |bytes| < capacity ==> o.result.value == |bytes|)
      && (o.result.Ok? <==> if |bytes| <= capacity - w.End() then |bytes| < capacity || Ready(w.sink.script)
                            else && Willing(w.sink.script, |w.pending|)
                                 && (|bytes| < capacity || Ready(Remaining(w.sink.script, |w.pending|))))
      && (|bytes| < capacity && |bytes| <= capacity - w.End() ==> o.writer.sink == w.sink)
      && (o.result.Ok? && |bytes| >= capacity ==> o.writer.pending == [])
  {
    DrainKeeps(w);
    hide Drain;
    assert bytes[..|bytes|] == bytes;
    if |bytes| >= capacity && |bytes| <= capacity - w.End() {
      assert w.pending == [];
    }
    var d := if |bytes| > capacity - w.End() then Drain(w) else Drained(w, None);
    assert d.error.None? ==> d.writer.sink.received + (d.writer.pending + bytes) == d.writer.Stream() + bytes;
    if d.error.None? && |bytes| >= capacity {
      var r := SinkWrite(d.writer.sink, bytes);
      assert d.writer.pending == [];
      assert d.writer.(sink := r.sink).Stream() == r.sink.received;
      assert d.writer.Stream() == d.writer.sink.received;
    }
  }

  /**
   A flush that succeeds has handed over everything; one that fails has lost nothing, and it
   fails exactly when the sink stops taking or does not flush.
   */
  lemma FlushEmpties(w: Writer, capacity: nat)
    requires Fits(w, capacity)
    ensures var o := Flush(w);
      && Fits(o.writer, capacity) && o.writer.Stream() == w.Stream() && w.sink.received <= o.writer.sink.received
      && (o.result.Ok? ==> o.writer.pending == [] && o.writer.sink.received == w.Stream())
      && (o.result.Ok? <==>
            Willing(w.sink.script, |w.pending|) && Ready(Remaining(w.sink.script, |w.pending|)))
  {
    DrainKeeps(w);
    hide Drain;
    var d := Drain(w);
    assert SinkFlush(d.writer.sink).sink.received == d.writer.sink.received;
  }

  // ----- whole runs ---------------------------------------------------------------------------

  datatype Call = Put(bytes: Bytes) | FlushNow

  function Perform(w: Writer, capacity: nat, c: Call): Wrote {
    match c
    case Put(bytes) => Write(w, capacity, bytes)
    case FlushNow => Flush(w)
  }

  function After(w: Writer, capacity: nat, calls: seq<Call>): Writer
    decreases |calls|
  {
    if calls == [] then w else After(Perform(w, capacity, calls[0]).writer, capacity, calls[1..])
  }

  // The bytes each call reported as accepted, one after the other.
  function Accepted(w: Writer, capacity: nat, calls: seq<Call>): Bytes
    decreases |calls|
  {
    if calls == [] then []
    else
      var o := Perform(w, capacity, calls[0]);
      (if calls[0].Put? && o.result.Ok? && o.result.value <= |calls[0].bytes|
       then calls[0].bytes[..o.result.value] else [])
      + Accepted(o.writer, capacity, calls[1..])
  }

  /**
   Over any calls and any sink, what the sink has received followed by what is pending is
   all that was accepted, in order, failed calls included.
   */
  lemma {:induction false} StreamIsAccepted(w: Writer, capacity: nat, calls: seq<Call>)
    requires Fits(w, capacity) && capacity > 0
    ensures var e := After(w, capacity, calls);
      && Fits(e, capacity) && w.sink.received <= e.sink.received
      && e.Stream() == w.Stream() + Accepted(w, capacity, calls)
    decreases |calls|
  {
    if calls != [] {
      var o := Perform(w, capacity, calls[0]);
      match calls[0] {
        case Put(bytes) => WriteAppends(w, capacity, bytes);
        case FlushNow => FlushEmpties(w, capacity);
      }
      hide Perform;
      StreamIsAccepted(o.writer, capacity, calls[1..]);
    }
  }
}
