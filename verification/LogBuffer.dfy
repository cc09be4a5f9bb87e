/** The bounded log as the byte array the firmware keeps, with the line history as its ghost. */
module LogBuffers {
  import opened Wrappers
  import opened Octets
  import opened LogLines
  import B = BoundedLog

  const LAYOUT_TAG: nat := 0x4C4F_4731

  // Copy `raw` into `line` keeping only what a reader can use.
  method Sanitize(raw: Bytes, line: array<byte>) returns (length: nat)
    requires line.Length == MAX_LINE_BYTES
    modifies line
    ensures length <= line.Length && line[..length] == Sanitized(raw)
  {
    length := 0;
    var remaining := raw;
    while remaining != []
      invariant length <= line.Length
      invariant Strip(raw) == line[..length] + Strip(remaining)
      decreases |remaining|
    {
      var b, rest := remaining[0], remaining[1..];
      if b == ESC {
        remaining := AfterEscape(rest);
        continue;
      }
      if Control(b) {
        remaining := rest;
        continue;
      }
      if length == MAX_LINE_BYTES {
        break;
      }
      ghost var before := line[..length];
      assert before + Strip(remaining) == before + [b] + Strip(rest);
      line[length] := b;
      assert line[..length + 1] == before + [b];
      length := length + 1;
      remaining := rest;
    }
    assert Take(Strip(raw), MAX_LINE_BYTES) == line[..length];
    length := Trimmed(line, length);
  }

  // The length without trailing spaces.
  method Trimmed(line: array<byte>, full: nat) returns (length: nat)
    requires full <= line.Length
    ensures length <= full && line[..length] == TrimRight(line[..full])
  {
    length := full;
    while length > 0 && line[length - 1] == SPACE
      invariant length <= full
      invariant TrimRight(line[..length]) == TrimRight(line[..full])
    {
      assert line[..length][..length - 1] == line[..length - 1];
      length := length - 1;
    }
  }

  // One turn of the loop below: past the next newline, one more line is dropped.
  lemma CutTurn(stored: Bytes, cut: nat, kept: seq<Line>, lines: nat, open: bool, limit: nat)
    requires cut <= |stored| && lines <= |kept| && AllClean(kept) && (open ==> lines < |kept|)
    requires stored[cut..] == Block(kept[lines..], open)
    requires limit >= MAX_LINE_BYTES && |stored| - cut > limit
    ensures lines < |kept| && (open ==> lines + 1 < |kept|)
    ensures var p := Position(stored[cut..], NEWLINE);
      p.Some? && stored[cut + p.value + 1..] == Block(kept[lines + 1..], open)
    ensures B.Surplus(kept[lines..], open, limit) == 1 + B.Surplus(kept[lines + 1..], open, limit)
  {
    var text, rest := stored[cut..], kept[lines..];
    assert AllClean(rest) && rest[1..] == kept[lines + 1..];
    BlockHead(rest, open);
    var p := Position(text, NEWLINE).value;
    assert text[p + 1..] == stored[cut + p + 1..];
  }

  // The byte and line counts of the whole lines to drop; the open line is never among them.
  method FindCut(stored: Bytes, keepBelow: nat, ghost kept: seq<Line>, ghost open: bool) returns (cut: nat, lines: nat)
    requires stored == Block(kept, open) && AllClean(kept) && (open ==> kept != [])
    requires keepBelow >= MAX_LINE_BYTES
    ensures lines == B.Surplus(kept, open, keepBelow)
    ensures cut <= |stored| && stored[cut..] == Block(kept[lines..], open)
  {
    cut, lines := 0, 0;
    assert stored[0..] == stored && kept[0..] == kept;
    while |stored| - cut > keepBelow
      invariant cut <= |stored| && lines <= |kept| && (open ==> lines < |kept|)
      invariant stored[cut..] == Block(kept[lines..], open)
      invariant lines + B.Surplus(kept[lines..], open, keepBelow) == B.Surplus(kept, open, keepBelow)
    {
      CutTurn(stored, cut, kept, lines, open, keepBelow);
      hide Block, AllClean;
      match Position(stored[cut..], NEWLINE) {
        case Some(offset) => cut := cut + offset + 1;
        case None => assert false;
      }
      lines := lines + 1;
    }
  }

  class LogBuffer {
    const capacity: nat
    const bytes: array<byte>
    var layout: nat
    var boot: nat
    var filled: nat
    var nextSequence: nat
    var dropped: nat
    ghost var h: History   // every line of this boot

    ghost function View(): B.Log
      reads this
    {
      B.Log(h, dropped)
    }

    ghost predicate Valid()
      reads this, bytes
    {
      && bytes.Length == capacity && capacity > 4 * MAX_LINE_BYTES
      && B.Fits(capacity, View())
      && filled <= capacity && bytes[..filled] == B.Stored(View())
      && nextSequence == |h.lines|
    }

    // An unwritten buffer reads as absent until it is claimed.
    constructor (capacity: nat)
      requires capacity > 4 * MAX_LINE_BYTES
      ensures Valid() && View() == B.EMPTY && this.capacity == capacity && layout == 0 && fresh(bytes)
    {
      this.capacity := capacity;
      bytes := new byte[capacity];
      layout, boot, filled, nextSequence, dropped, h := 0, 0, 0, 0, 0, NO_LINES;
    }

    method Reset(boot: nat)
      requires bytes.Length == capacity && capacity > 4 * MAX_LINE_BYTES
      modifies this
      ensures Valid() && View() == B.EMPTY && layout == LAYOUT_TAG && this.boot == boot
    {
      layout, this.boot, filled, nextSequence, dropped, h := LAYOUT_TAG, boot, 0, 0, 0, NO_LINES;
    }

    lemma Counts()
      requires Valid()
      ensures Reads(bytes[..filled], B.Kept(View()), h.open)
    {
      BlockReads(B.Kept(View()), h.open);
    }

    // What a reader is given, whatever the memory holds.
    function Surviving(): (r: Bytes)
      requires bytes.Length == capacity
      reads this, bytes
      ensures |r| <= capacity
    {
      bytes[..Min(filled, capacity)]
    }

    /**
     Whether the memory can be trusted. Every valid buffer that has been claimed passes;
     of anything that passes, the lines can be numbered up to the next ordinal.
     */
    method IsIntact() returns (ok: bool)
      requires bytes.Length == capacity
      ensures ok ==> layout == LAYOUT_TAG && filled == |Surviving()| && LineCount(Surviving()) <= nextSequence
      ensures !ok ==> layout != LAYOUT_TAG || filled != |Surviving()| || LineCount(Surviving()) > nextSequence
      ensures Valid() ==> ok == (layout == LAYOUT_TAG)
    {
      if Valid() { Counts(); }
      ok := layout == LAYOUT_TAG && filled <= capacity && nextSequence >= LineCount(Surviving());
    }

    /**
     The number of the first line held. In a buffer that passed the check above the lines
     from there on end at the next ordinal; in a valid one it is the number of lines dropped.
     */
    method FirstSequence() returns (first: nat)
      requires bytes.Length == capacity
      ensures LineCount(Surviving()) <= nextSequence ==> first + LineCount(Surviving()) == nextSequence
      ensures LineCount(Surviving()) > nextSequence ==> first == 0
      ensures Valid() ==> first == dropped == |h.lines| - |B.Kept(View())|
    {
      if Valid() { Counts(); }
      first := SaturatingSub(nextSequence, LineCount(Surviving()));
    }

    /** Add one chunk of output: its newlines end lines, and nothing else does. */
    method Append(chunk: Bytes)
      requires Valid() && capacity / 4 > MAX_LINE_BYTES
      modifies this, bytes
      ensures Valid() && View() == B.Append(capacity, old(View()), chunk)
      ensures h == Logged(old(h), chunk)
      ensures boot == old(boot) && layout == old(layout)
    {
      B.AppendFits(capacity, View(), chunk);
      var segments := Segments(chunk);
      Extend(segments[0]);
      var i := 1;
      while i < |segments|
        invariant 1 <= i <= |segments| && Valid()
        invariant B.ExtendAll(capacity, View(), segments[i..]) == B.Append(capacity, old(View()), chunk)
        invariant boot == old(boot) && layout == old(layout)
      {
        assert segments[i..][1..] == segments[i + 1..];
        Terminate();
        Extend(segments[i]);
        i := i + 1;
      }
    }

    // Continue the open line, or start one.
    method Extend(raw: Bytes)
      requires Valid() && capacity / 4 > MAX_LINE_BYTES
      modifies this, bytes
      ensures Valid() && View() == B.Extend(capacity, old(View()), raw)
      ensures boot == old(boot) && layout == old(layout)
    {
      var segment := new byte[MAX_LINE_BYTES];
      var sanitized := Sanitize(raw, segment);
      if sanitized == 0 {
        return;
      }
      Counts();
      var used := OpenLength(bytes[..filled]);
      assert used == OpenBytes(h);
      var length := Min(sanitized, SaturatingSub(MAX_LINE_BYTES, used));
      assert length == Room(h, raw);
      if length == 0 {
        return;
      }
      FreeFor(length, raw);
      Write(segment[..length], raw);
    }

    // Evict until the text and the newline it will take both fit.
    method FreeFor(length: nat, ghost raw: Bytes)
      requires Valid() && capacity / 4 > MAX_LINE_BYTES && length == Room(h, raw)
      modifies this, bytes
      ensures Valid() && View() == B.MakeRoom(capacity, old(View()), length)
      ensures filled + length + 1 <= capacity
      ensures boot == old(boot) && layout == old(layout)
    {
      ghost var before := View();
      B.EvictFits(capacity, before);
      while filled + length + 1 > capacity
        invariant Valid() && (View() == before || View() == B.Evict(capacity, before))
        invariant filled + length + 1 <= capacity || View() == before
        invariant View() != before ==> |B.Stored(before)| + length + 1 > capacity
        invariant View() == before ==> filled == |B.Stored(before)|
        invariant boot == old(boot) && layout == old(layout)
        decreases if filled + length + 1 > capacity then 1 else 0
      {
        Evict();
      }
    }

    method Write(piece: Bytes, ghost raw: Bytes)
      requires Valid() && piece != [] && filled + |piece| + 1 <= capacity
      requires piece == Sanitized(raw)[..Room(h, raw)]
      modifies this, bytes
      ensures Valid() && View() == old(View()).(h := Grow(old(h), raw))
      ensures boot == old(boot) && layout == old(layout)
    {
      Counts();
      var open := IsOpen(bytes[..filled]);
      B.GrowStored(View(), raw);
      GrowSound(h, raw);
      ghost var text := bytes[..filled];
      var start := filled;
      forall i | 0 <= i < |piece| {
        bytes[start + i] := piece[i];
      }
      assert bytes[..start + |piece|] == text + piece;
      filled := filled + |piece|;
      h := Grow(h, raw);
      if !open {
        nextSequence := nextSequence + 1;
      }
    }

    // End the open line; nothing when none is open, so blank lines are never stored.
    method Terminate()
      requires Valid()
      modifies this, bytes
      ensures Valid() && View() == B.Terminate(old(View()))
      ensures boot == old(boot) && layout == old(layout)
    {
      Counts();
      B.TerminateFits(capacity, View());
      if !IsOpen(bytes[..filled]) {
        return;
      }
      ghost var text := bytes[..filled];
      bytes[filled] := NEWLINE;
      assert bytes[..filled + 1] == text + [NEWLINE];
      filled := filled + 1;
      h := End(h);
    }

    // Drop whole lines from the front until a quarter of the capacity is free.
    method Evict()
      requires Valid()
      modifies this, bytes
      ensures Valid() && View() == B.Evict(capacity, old(View()))
      ensures boot == old(boot) && layout == old(layout)
    {
      ghost var before := View();
      B.EvictFits(capacity, before);
      var cut, lines := FindCut(bytes[..filled], B.KeepBelow(capacity), B.Kept(before), h.open);
      B.EvictDrops(before, capacity);
      ghost var after := B.Evict(capacity, before);
      assert bytes[..filled][cut..] == B.Stored(after);
      hide Block, B.Surplus, B.Fits, B.Evict, B.Kept, B.Stored;
      Shift(cut);
      filled := filled - cut;
      dropped := dropped + lines;
      assert View() == after;
    }

    // Move the bytes from `cut` on to the front.
    method Shift(cut: nat)
      requires bytes.Length == capacity && cut <= filled <= capacity
      modifies bytes
      ensures bytes[..filled - cut] == old(bytes[..filled][cut..])
    {
      forall i | cut <= i < filled {
        bytes[i - cut] := bytes[i];
      }
    }

    /** Keep the newest whole lines that fit another buffer. */
    method CopyInto(destination: LogBuffer)
      requires Valid() && destination != this && destination.bytes != bytes
      requires destination.bytes.Length == destination.capacity && destination.capacity > 4 * MAX_LINE_BYTES
      modifies destination, destination.bytes
      ensures destination.Valid() && destination.View() == B.Copy(destination.capacity, View())
      ensures destination.boot == boot && destination.layout == LAYOUT_TAG
      ensures destination.nextSequence == nextSequence
    {
      destination.Reset(boot);
      var stored := bytes[..filled];
      B.CopyFits(capacity, destination.capacity, View());
      hide Block, B.Surplus, B.Fits, B.Copy, B.CopyStart, B.Stored, Newlines;
      var start := B.CopyStart(stored, destination.capacity);
      destination.Fill(stored[start..]);
      destination.nextSequence := nextSequence;
      destination.dropped := dropped + Newlines(stored[..start]);
      destination.h := h;
    }

    method Fill(kept: Bytes)
      requires bytes.Length == capacity && |kept| <= capacity
      modifies this`filled, bytes
      ensures filled == |kept| && bytes[..filled] == kept
    {
      forall i | 0 <= i < |kept| {
        bytes[i] := kept[i];
      }
      filled := |kept|;
    }
  }
}
