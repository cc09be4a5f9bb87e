/**
 What the bounded log means: the history of every line since boot, of which the
 buffer holds the last ones as one block of text.
 */
module LogLines {
  import opened Wrappers
  import opened Octets

  const NEWLINE: byte := 10
  const ESC: byte := 27
  const BRACKET: byte := 91
  const SPACE: byte := 32
  const MAX_LINE_BYTES: nat := 240

  // ----- sanitising ------------------------------------------------------------------

  predicate Control(b: byte) { b < 32 || b == 127 }

  predicate Final(b: byte) { 0x40 <= b <= 0x7e }

  // What follows the control sequence whose parameters these are.
  function AfterSequence(parameters: Bytes): (r: Bytes)
    ensures |r| <= |parameters|
  {
    if parameters == [] then [] else if Final(parameters[0]) then parameters[1..] else AfterSequence(parameters[1..])
  }

  // What is left to read after an escape byte.
  function AfterEscape(rest: Bytes): (r: Bytes)
    ensures |r| <= |rest|
  {
    if rest != [] && rest[0] == BRACKET then AfterSequence(rest[1..]) else rest
  }

  function Strip(raw: Bytes): (r: Bytes)
    ensures forall b :: b in r ==> !Control(b)
    decreases |raw|
  {
    if raw == [] then []
    else if raw[0] == ESC then Strip(AfterEscape(raw[1..]))
    else if Control(raw[0]) then Strip(raw[1..])
    else [raw[0]] + Strip(raw[1..])
  }

  function Take(s: Bytes, n: nat): Bytes { if |s| <= n then s else s[..n] }

  function TrimRight(s: Bytes): (r: Bytes)
    ensures r <= s && (r != [] ==> r[|r| - 1] != SPACE)
    decreases |s|
  {
    if s == [] || s[|s| - 1] != SPACE then s else TrimRight(s[..|s| - 1])
  }

  // What one segment may add to a line.
  function Sanitized(raw: Bytes): (r: Bytes)
    ensures |r| <= MAX_LINE_BYTES && (r != [] ==> r[|r| - 1] != SPACE)
    ensures forall b :: b in r ==> !Control(b)
  {
    TrimRight(Take(Strip(raw), MAX_LINE_BYTES))
  }

  lemma {:induction false} StripClean(s: Bytes)
    requires forall b :: b in s ==> !Control(b)
    ensures Strip(s) == s
    decreases |s|
  {
    if s != [] {
      assert s[0] in s;
      StripClean(s[1..]);
    }
  }

  /** Sanitising what is already sanitised changes nothing. */
  lemma SanitizedTwice(raw: Bytes)
    ensures Sanitized(Sanitized(raw)) == Sanitized(raw)
  {
    StripClean(Sanitized(raw));
  }

  // ----- lines and blocks ----------------------------------------------------------------

  type Line = Bytes

  ghost predicate Clean(line: Line) {
    && 1 <= |line| <= MAX_LINE_BYTES
    && (forall b :: b in line ==> !Control(b))
    && (exists b :: b in line && b != SPACE)
  }

  ghost predicate AllClean(lines: seq<Line>) { forall i :: 0 <= i < |lines| ==> Clean(lines[i]) }

  // Lines as text: every one ended by a newline, but the last one when it is open.
  function Block(lines: seq<Line>, open: bool): Bytes {
    if lines == [] then []
    else if |lines| == 1 && open then lines[0]
    else lines[0] + [NEWLINE] + Block(lines[1..], open)
  }

  function Position(s: Bytes, b: byte): (r: Option<nat>)
    ensures r.Some? ==> r.value < |s| && s[r.value] == b && b !in s[..r.value]
    ensures r.None? ==> b !in s
  {
    if s == [] then None
    else if s[0] == b then Some(0)
    else
      var p := Position(s[1..], b);
      if p.None? then None
      else
        assert s[..p.value + 1] == [s[0]] + s[1..][..p.value];
        Some(p.value + 1)
  }

  function LastPosition(s: Bytes, b: byte): (r: Option<nat>)
    ensures r.Some? ==> r.value < |s| && s[r.value] == b && b !in s[r.value + 1..]
    ensures r.None? ==> b !in s
  {
    if s == [] then None
    else if s[|s| - 1] == b then Some(|s| - 1)
    else
      var p := LastPosition(s[..|s| - 1], b);
      if p.None? then None
      else
        assert s[p.value + 1..] == s[..|s| - 1][p.value + 1..] + [s[|s| - 1]];
        p
  }

  lemma {:induction false} PositionIs(s: Bytes, b: byte, i: nat)
    requires i < |s| && s[i] == b && b !in s[..i]
    ensures Position(s, b) == Some(i)
  {
    if i > 0 {
      assert s[0] in s[..i] && s[1..][..i - 1] == s[..i][1..];
      PositionIs(s[1..], b, i - 1);
    }
  }

  lemma {:induction false} LastPositionIs(s: Bytes, b: byte, i: nat)
    requires i < |s| && s[i] == b && b !in s[i + 1..]
    ensures LastPosition(s, b) == Some(i)
    decreases |s|
  {
    var n := |s| - 1;
    if i < n {
      assert s[n] in s[i + 1..] && s[..n][i + 1..] == s[i + 1..][..n - i - 1];
      LastPositionIs(s[..n], b, i);
    }
  }

  function Newlines(s: Bytes): nat {
    if s == [] then 0 else (if s[0] == NEWLINE then 1 else 0) + Newlines(s[1..])
  }

  predicate IsOpen(s: Bytes) { s != [] && s[|s| - 1] != NEWLINE }

  function OpenLength(s: Bytes): nat {
    var p := LastPosition(s, NEWLINE);
    if p.Some? then |s| - p.value - 1 else |s|
  }

  function LineCount(s: Bytes): nat { Newlines(s) + if IsOpen(s) then 1 else 0 }

  lemma {:induction false} NewlinesAppend(a: Bytes, b: Bytes)
    ensures Newlines(a + b) == Newlines(a) + Newlines(b)
    decreases |a|
  {
    if a == [] {
      assert a + b == b;
    } else {
      assert (a + b)[1..] == a[1..] + b;
      NewlinesAppend(a[1..], b);
    }
  }

  lemma {:induction false} NoNewlines(s: Bytes)
    requires NEWLINE !in s
    ensures Newlines(s) == 0
    decreases |s|
  {
    if s != [] {
      assert s[0] in s;
      NoNewlines(s[1..]);
    }
  }

  lemma CleanHasNoNewline(line: Line)
    requires Clean(line)
    ensures NEWLINE !in line && Newlines(line) == 0
  {
    assert Control(NEWLINE);
    NoNewlines(line);
  }

  // The text up to and including the first line's newline is that line.
  lemma BlockHead(lines: seq<Line>, open: bool)
    requires AllClean(lines) && lines != [] && !(|lines| == 1 && open)
    ensures var s := Block(lines, open);
      && s == lines[0] + [NEWLINE] + Block(lines[1..], open)
      && Position(s, NEWLINE) == Some(|lines[0]|)
      && s[|lines[0]| + 1..] == Block(lines[1..], open)
      && Newlines(s) == 1 + Newlines(Block(lines[1..], open))
  {
    var s, n := Block(lines, open), |lines[0]|;
    CleanHasNoNewline(lines[0]);
    assert s == lines[0] + ([NEWLINE] + Block(lines[1..], open));
    NewlinesAppend(lines[0], [NEWLINE] + Block(lines[1..], open));
    assert ([NEWLINE] + Block(lines[1..], open))[1..] == Block(lines[1..], open);
    assert s[n] == NEWLINE && s[..n] == lines[0];
    PositionIs(s, NEWLINE, n);
  }

  ghost predicate Reads(s: Bytes, lines: seq<Line>, open: bool)
    requires open ==> lines != []
  {
    && IsOpen(s) == open
    && LineCount(s) == |lines|
    && OpenLength(s) == (if open then |lines[|lines| - 1]| else 0)
  }

  lemma OneOpenLine(line: Line)
    requires Clean(line)
    ensures Reads(line, [line], true)
  {
    CleanHasNoNewline(line);
    assert line[|line| - 1] in line;
  }

  lemma OneMoreLine(lines: seq<Line>, open: bool)
    requires AllClean(lines) && lines != [] && !(|lines| == 1 && open)
    requires Reads(Block(lines[1..], open), lines[1..], open)
    ensures Reads(Block(lines, open), lines, open)
  {
    hide Newlines, OpenLength, IsOpen, Clean;
    BlockHead(lines, open);
    LastPositionAfter(lines[0] + [NEWLINE], Block(lines[1..], open));
  }

  /** The block says how many lines it holds and whether the last is open, and how long that is. */
  lemma {:induction false} BlockReads(lines: seq<Line>, open: bool)
    requires AllClean(lines) && (open ==> lines != [])
    ensures Reads(Block(lines, open), lines, open)
    decreases |lines|
  {
    if lines == [] {
    } else if |lines| == 1 && open {
      OneOpenLine(lines[0]);
      assert lines == [lines[0]];
    } else {
      hide Reads;
      BlockReads(lines[1..], open);
      OneMoreLine(lines, open);
    }
  }

  lemma LastPositionAfter(head: Bytes, rest: Bytes)
    requires head != [] && head[|head| - 1] == NEWLINE
    ensures OpenLength(head + rest) == OpenLength(rest)
    ensures IsOpen(head + rest) == IsOpen(rest)
  {
    var s, q := head + rest, LastPosition(rest, NEWLINE);
    var i := if q.Some? then |head| + q.value else |head| - 1;
    assert s[i + 1..] == if q.Some? then rest[q.value + 1..] else rest;
    LastPositionIs(s, NEWLINE, i);
  }

  // ----- the history ----------------------------------------------------------------------

  datatype History = History(lines: seq<Line>, open: bool)

  const NO_LINES := History([], false)

  ghost predicate Sound(h: History) { AllClean(h.lines) && (h.open ==> h.lines != []) }

  function OpenBytes(h: History): nat { if h.open && h.lines != [] then |h.lines[|h.lines| - 1]| else 0 }

  // How much of a segment the line it belongs to still takes.
  function Room(h: History, raw: Bytes): nat {
    var left := if OpenBytes(h) <= MAX_LINE_BYTES then MAX_LINE_BYTES - OpenBytes(h) else 0;
    if |Sanitized(raw)| <= left then |Sanitized(raw)| else left
  }

  function Grow(h: History, raw: Bytes): History {
    var n := Room(h, raw);
    if n == 0 then h
    else
      var piece := Sanitized(raw)[..n];
      if h.open && h.lines != []
      then h.(lines := h.lines[|h.lines| - 1 := h.lines[|h.lines| - 1] + piece])
      else History(h.lines + [piece], true)
  }

  function End(h: History): History { h.(open := false) }

  // A chunk cut at its newlines; always at least one segment.
  function Segments(chunk: Bytes): (r: seq<Bytes>)
    ensures r != []
    decreases |chunk|
  {
    var p := Position(chunk, NEWLINE);
    if p.None? then [chunk] else [chunk[..p.value]] + Segments(chunk[p.value + 1..])
  }

  function GrowAll(h: History, segments: seq<Bytes>): History
    decreases |segments|
  {
    if segments == [] then h else GrowAll(Grow(End(h), segments[0]), segments[1..])
  }

  // Everything ever logged, whatever the capacity that holds it.
  function Logged(h: History, chunk: Bytes): History {
    var s := Segments(chunk);
    GrowAll(Grow(h, s[0]), s[1..])
  }

  lemma GrowSound(h: History, raw: Bytes)
    requires Sound(h)
    ensures Sound(Grow(h, raw)) && (Room(h, raw) > 0 ==> Grow(h, raw).open)
  {
    var n := Room(h, raw);
    if n > 0 {
      var text := Sanitized(raw);
      var piece, g := text[..n], Grow(h, raw);
      assert forall b :: b in piece ==> b in text;
      var last := |g.lines| - 1;
      if h.open {
        var line := h.lines[last];
        assert forall b :: b in line + piece ==> b in line || b in piece;
        assert forall b :: b in line ==> b in line + piece;
        assert Clean(line + piece);
      } else {
        assert piece == text && text[n - 1] in piece;
        assert Clean(piece);
      }
    }
  }
}
