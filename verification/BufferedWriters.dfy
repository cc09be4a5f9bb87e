/** The writer as the object with its fixed buffer. */
module BufferedWriters {
  import opened Wrappers
  import opened Octets
  import O = BufferedOutput

  class Inner {
    var received: Bytes
    var script: seq<O.Reply>

    ghost function View(): O.Sink
      reads this
    {
      O.Sink(received, script)
    }

    constructor (script: seq<O.Reply>)
      ensures View() == O.Sink([], script)
    {
      received, this.script := [], script;
    }

    method Write(bytes: Bytes) returns (r: Result<nat, O.IoError>)
      modifies this
      ensures O.SinkReply(View(), r) == O.SinkWrite(old(View()), bytes)
    {
      if script == [] {
        return Err(O.Broken);
      }
      var reply := script[0];
      script := script[1..];
      match reply {
        case Takes(n) =>
          var k: nat := Min(n, |bytes|);
          received := received + bytes[..k];
          return Ok(k);
        case Interrupts => return Err(O.Interruption);
        case Breaks => return Err(O.Broken);
      }
    }

    method Flush() returns (r: Result<nat, O.IoError>)
      modifies this
      ensures O.SinkReply(View(), r) == O.SinkFlush(old(View()))
    {
      r := Write([]);
    }
  }

  class BufferedWriter {
    const inner: Inner
    const buffer: array<byte>
    var start: nat
    var end: nat

    ghost predicate Valid()
      reads this, inner, buffer
    {
      start <= end <= buffer.Length && buffer.Length > 0
    }

    ghost function View(): (w: O.Writer)
      reads this, inner, buffer
      requires Valid()
      ensures O.Fits(w, buffer.Length)
    {
      O.Writer(inner.View(), start, buffer[start..end])
    }

    constructor (inner: Inner, capacity: nat)
      requires capacity > 0
      ensures Valid() && fresh(buffer) && this.inner == inner && buffer.Length == capacity
      ensures View() == O.Writer(inner.View(), 0, [])
    {
      this.inner := inner;
      buffer := new byte[capacity](_ => 0);
      start, end := 0, 0;
    }

    method Drain() returns (error: Option<O.IoError>)
      requires Valid()
      modifies this, inner
      ensures Valid() && O.Drained(View(), error) == O.Drain(old(View()))
    {
      ghost var goal := O.Drain(View());
      while start < end
        invariant Valid() && O.Drain(View()) == goal && end == old(end)
        decreases |inner.script|, end - start
      {
        ghost var before := View();
        var r := inner.Write(buffer[start..end]);
        assert before.pending == buffer[start..end];
        if r == Ok(0) {
          return Some(O.WriteZero);
        } else if r.Ok? {
          assert buffer[start..end][r.value..] == buffer[start + r.value..end];
          start := start + r.value;
        } else if r.error.Interruption? {
          continue;
        } else {
          return Some(r.error);
        }
      }
      start := 0;
      end := 0;
      return None;
    }

    method Write(bytes: Bytes) returns (r: Result<nat, O.IoError>)
      requires Valid()
      modifies this, inner, buffer
      ensures Valid() && O.Wrote(View(), r) == O.Write(old(View()), buffer.Length, bytes)
      ensures O.Appends(old(View()), bytes, O.Wrote(View(), r))
    {
      O.WriteAppends(View(), buffer.Length, bytes);
      O.DrainKeeps(View());
      hide O.Drain, O.Appends;
      if |bytes| > buffer.Length - end {
        var error := Drain();
        if error.Some? {
          return Err(error.value);
        }
      }
      if |bytes| >= buffer.Length {
        r := inner.Write(bytes);
        return;
      }
      ghost var pending := buffer[start..end];
      CopyIn(bytes);
      assert buffer[start..end + |bytes|] == pending + bytes;
      end := end + |bytes|;
      return Ok(|bytes|);
    }

    method CopyIn(bytes: Bytes)
      requires Valid() && end + |bytes| <= buffer.Length
      modifies buffer
      ensures buffer[..end] == old(buffer[..end]) && buffer[end..end + |bytes|] == bytes
    {
      forall i | 0 <= i < |bytes| {
        buffer[end + i] := bytes[i];
      }
    }

    method Flush() returns (r: Result<nat, O.IoError>)
      requires Valid()
      modifies this, inner
      ensures Valid() && O.Wrote(View(), r) == O.Flush(old(View()))
      ensures r.Ok? ==> View().pending == [] && inner.received == old(View()).Stream()
    {
      O.FlushEmpties(View(), buffer.Length);
      hide O.Drain;
      var error := Drain();
      if error.Some? {
        return Err(error.value);
      }
      r := inner.Flush();
    }
  }
}
