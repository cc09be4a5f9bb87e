/**
 The log within a capacity of `n` bytes: the history, less the lines dropped from
 its front. Eviction and copying both keep the longest run of whole last lines
 that fits a limit.
 */
module BoundedLog {
  import opened Wrappers
  import opened Octets
  import opened LogLines

  datatype Log = Log(h: History, dropped: nat)

  const EMPTY := Log(NO_LINES, 0)

  function Kept(l: Log): seq<Line>
    requires l.dropped <= |l.h.lines|
  {
    l.h.lines[l.dropped..]
  }

  function Stored(l: Log): Bytes
    requires l.dropped <= |l.h.lines|
  {
    Block(Kept(l), l.h.open)
  }

  // The open line is held, and there is room for the newline it will take.
  ghost predicate Fits(n: nat, l: Log) {
    && Sound(l.h) && l.dropped <= |l.h.lines|
    && (l.h.open ==> l.dropped < |l.h.lines|)
    && |Stored(l)| + (if l.h.open then 1 else 0) <= n
  }

  // How many lines go from the front before the rest is at most `limit` bytes.
  function Surplus(lines: seq<Line>, open: bool, limit: nat): (r: nat)
    ensures r <= |lines|
  {
    if |Block(lines, open)| <= limit then 0 else 1 + Surplus(lines[1..], open, limit)
  }

  function DropTo(l: Log, limit: nat): Log
    requires l.dropped <= |l.h.lines|
  {
    l.(dropped := l.dropped + Surplus(Kept(l), l.h.open, limit))
  }

  // Eviction frees a quarter of the capacity at once.
  function KeepBelow(n: nat): nat { var free := Max(n / 4, 1); if n >= free then n - free else 0 }

  function Evict(n: nat, l: Log): Log
    requires l.dropped <= |l.h.lines|
  {
    DropTo(l, KeepBelow(n))
  }

  lemma EvictDrops(l: Log, n: nat)
    requires l.dropped <= |l.h.lines|
    ensures var lines := Surplus(Kept(l), l.h.open, KeepBelow(n));
      Evict(n, l) == Log(l.h, l.dropped + lines) && Kept(Evict(n, l)) == Kept(l)[lines..]
  {}

  function MakeRoom(n: nat, l: Log, length: nat): Log
    requires l.dropped <= |l.h.lines|
  {
    if |Stored(l)| + length + 1 > n then Evict(n, l) else l
  }

  function Extend(n: nat, l: Log, raw: Bytes): (r: Log)
    requires l.dropped <= |l.h.lines|
    ensures r.dropped <= |r.h.lines|
  {
    var length := Room(l.h, raw);
    if length == 0 then l else MakeRoom(n, l, length).(h := Grow(l.h, raw))
  }

  function Terminate(l: Log): Log { l.(h := End(l.h)) }

  function ExtendAll(n: nat, l: Log, segments: seq<Bytes>): (r: Log)
    requires l.dropped <= |l.h.lines|
    ensures r.dropped <= |r.h.lines|
    decreases |segments|
  {
    if segments == [] then l else ExtendAll(n, Extend(n, Terminate(l), segments[0]), segments[1..])
  }

  function Append(n: nat, l: Log, chunk: Bytes): (r: Log)
    requires l.dropped <= |l.h.lines|
    ensures r.dropped <= |r.h.lines|
  {
    var s := Segments(chunk);
    ExtendAll(n, Extend(n, l, s[0]), s[1..])
  }

  // The copy keeps what fits a buffer of `m` bytes with one byte to spare.
  function Copy(m: nat, l: Log): Log
    requires l.dropped <= |l.h.lines| && m > 0
  {
    DropTo(l, m - 1)
  }

  // ----- what dropping keeps ----------------------------------------------------------

  /** Dropping to a limit of a line or more leaves the rest within it, and never drops the open line. */
  lemma {:induction false} SurplusFits(lines: seq<Line>, open: bool, limit: nat)
    requires AllClean(lines) && (open ==> lines != []) && limit >= MAX_LINE_BYTES
    ensures var k := Surplus(lines, open, limit);
      && |Block(lines[k..], open)| <= limit
      && (open ==> k < |lines|)
      && (k > 0 ==> |Block(lines[k - 1..], open)| > limit)
    decreases |lines|
  {
    if |Block(lines, open)| > limit {
      SurplusFits(lines[1..], open, limit);
      var k := Surplus(lines[1..], open, limit);
      assert lines[1..][k..] == lines[k + 1..];
      if k > 0 { assert lines[1..][k - 1..] == lines[k..]; }
    }
  }

  lemma {:induction false} BlockNewLine(lines: seq<Line>, piece: Line)
    ensures Block(lines + [piece], true) == Block(lines, false) + piece
    decreases |lines|
  {
    if lines != [] {
      assert (lines + [piece])[1..] == lines[1..] + [piece];
      BlockNewLine(lines[1..], piece);
    }
  }

  lemma {:induction false} BlockLongerLine(lines: seq<Line>, piece: Bytes)
    requires lines != []
    ensures Block(lines[|lines| - 1 := lines[|lines| - 1] + piece], true) == Block(lines, true) + piece
    decreases |lines|
  {
    if |lines| > 1 {
      var longer := lines[|lines| - 1 := lines[|lines| - 1] + piece];
      assert longer[1..] == lines[1..][|lines| - 2 := lines[|lines| - 1] + piece];
      BlockLongerLine(lines[1..], piece);
    }
  }

  lemma {:induction false} BlockClosed(lines: seq<Line>)
    requires lines != []
    ensures Block(lines, false) == Block(lines, true) + [NEWLINE]
    decreases |lines|
  {
    if |lines| > 1 { BlockClosed(lines[1..]); }
  }

  // ----- appending ------------------------------------------------------------------------

  lemma EvictFits(n: nat, l: Log)
    requires Fits(n, l) && n > 4 * MAX_LINE_BYTES
    ensures Fits(n, Evict(n, l)) && |Stored(Evict(n, l))| <= KeepBelow(n)
  {
    SurplusFits(Kept(l), l.h.open, KeepBelow(n));
    var k := Surplus(Kept(l), l.h.open, KeepBelow(n));
    assert Kept(l)[k..] == Kept(Evict(n, l));
  }

  // The text of a line grown by a piece is the old text and the piece.
  lemma GrowStored(l: Log, raw: Bytes)
    requires Sound(l.h) && l.dropped <= |l.h.lines| && (l.h.open ==> l.dropped < |l.h.lines|)
    requires Room(l.h, raw) > 0
    ensures var g := l.(h := Grow(l.h, raw));
      g.dropped <= |g.h.lines| && Stored(g) == Stored(l) + Sanitized(raw)[..Room(l.h, raw)]
  {
    var piece, g := Sanitized(raw)[..Room(l.h, raw)], l.(h := Grow(l.h, raw));
    var kept := Kept(l);
    if l.h.open {
      assert Kept(g) == kept[|kept| - 1 := kept[|kept| - 1] + piece];
      BlockLongerLine(kept, piece);
    } else {
      assert Kept(g) == kept + [piece];
      BlockNewLine(kept, piece);
    }
  }

  lemma ExtendFits(n: nat, l: Log, raw: Bytes)
    requires Fits(n, l) && n / 4 > MAX_LINE_BYTES
    ensures Fits(n, Extend(n, l, raw))
  {
    var length := Room(l.h, raw);
    if length > 0 {
      EvictFits(n, l);
      GrowSound(l.h, raw);
      GrowStored(MakeRoom(n, l, length), raw);
    }
  }

  lemma TerminateFits(n: nat, l: Log)
    requires Fits(n, l)
    ensures Fits(n, Terminate(l))
    ensures Stored(Terminate(l)) == Stored(l) + if l.h.open then [NEWLINE] else []
  {
    if l.h.open { BlockClosed(Kept(l)); }
  }

  lemma {:induction false} ExtendAllFits(n: nat, l: Log, segments: seq<Bytes>)
    requires Fits(n, l) && n / 4 > MAX_LINE_BYTES
    ensures Fits(n, ExtendAll(n, l, segments))
    ensures ExtendAll(n, l, segments).h == GrowAll(l.h, segments)
    decreases |segments|
  {
    if segments != [] {
      TerminateFits(n, l);
      ExtendFits(n, Terminate(l), segments[0]);
      ExtendAllFits(n, Extend(n, Terminate(l), segments[0]), segments[1..]);
    }
  }

  /**
   An append keeps the buffer well formed, and its history is everything logged,
   whatever has been dropped to make room.
   */
  lemma AppendFits(n: nat, l: Log, chunk: Bytes)
    requires Fits(n, l) && n / 4 > MAX_LINE_BYTES
    ensures Fits(n, Append(n, l, chunk))
    ensures Append(n, l, chunk).h == Logged(l.h, chunk)
  {
    var s := Segments(chunk);
    ExtendFits(n, l, s[0]);
    ExtendAllFits(n, Extend(n, l, s[0]), s[1..]);
  }

  function AppendAll(n: nat, l: Log, chunks: seq<Bytes>): (r: Log)
    requires l.dropped <= |l.h.lines|
    ensures r.dropped <= |r.h.lines|
    decreases |chunks|
  {
    if chunks == [] then l else AppendAll(n, Append(n, l, chunks[0]), chunks[1..])
  }

  function LoggedAll(h: History, chunks: seq<Bytes>): History
    decreases |chunks|
  {
    if chunks == [] then h else LoggedAll(Logged(h, chunks[0]), chunks[1..])
  }

  /**
   After any appends the buffer holds exactly the last lines of everything ever
   logged: each clean and not blank, numbered from the count of those dropped.
   */
  lemma {:induction false} HoldsTheLastLines(n: nat, l: Log, chunks: seq<Bytes>)
    requires Fits(n, l) && n / 4 > MAX_LINE_BYTES
    ensures var r := AppendAll(n, l, chunks); var all := LoggedAll(l.h, chunks);
      && Fits(n, r) && r.h == all
      && Stored(r) == Block(all.lines[r.dropped..], all.open)
      && LineCount(Stored(r)) == |all.lines| - r.dropped
      && (forall i :: 0 <= i < |all.lines| ==> Clean(all.lines[i]))
    decreases |chunks|
  {
    if chunks == [] {
      BlockReads(Kept(l), l.h.open);
    } else {
      AppendFits(n, l, chunks[0]);
      HoldsTheLastLines(n, Append(n, l, chunks[0]), chunks[1..]);
    }
  }

  // ----- when one eviction is enough ----------------------------------------------------------

  // One eviction makes room for whatever a line can still take.
  ghost predicate EvictionSuffices(n: nat, l: Log, length: nat) {
    Fits(n, l) && 1 <= length && OpenBytes(l.h) + length <= MAX_LINE_BYTES ==> |Stored(Evict(n, l))| + length + 1 <= n
  }

  function Letters(n: nat): Line { seq(n, _ => 65) }

  lemma LettersClean(n: nat)
    requires 1 <= n <= MAX_LINE_BYTES
    ensures Clean(Letters(n)) && Sanitized(Letters(n)) == Letters(n)
  {
    assert Letters(n)[n - 1] == 65 && Letters(n)[n - 1] in Letters(n);
    StripClean(Letters(n));
  }

  // Two full lines and a third that leave exactly 240 bytes free.
  function Stuck(n: nat): Log
    requires 961 <= n <= 963
  {
    Log(History([Letters(240), Letters(240), Letters(n - 723)], false), 0)
  }

  lemma BlockLength(line: Line, lines: seq<Line>)
    ensures |Block([line] + lines, false)| == |line| + 1 + |Block(lines, false)|
  {
    assert ([line] + lines)[1..] == lines;
  }

  lemma StuckBytes(n: nat)
    requires 961 <= n <= 963
    ensures Fits(n, Stuck(n)) && |Stored(Stuck(n))| == n - 240
  {
    hide Block;
    var a, c := Letters(240), Letters(n - 723);
    LettersClean(240);
    LettersClean(n - 723);
    BlockLength(c, []);
    BlockLength(a, [c]);
    BlockLength(a, [a, c]);
    EmptyBlock();
    assert [c] + [] == [c] && [a] + [c] == [a, c] && [a] + [a, c] == [a, a, c];
    assert Kept(Stuck(n)) == [a, a, c];
  }

  lemma EmptyBlock()
    ensures Block([], false) == []
  {}

  // A chunk of one line.
  function LineChunk(k: nat): Bytes { Letters(k) + [NEWLINE] }

  lemma LineSegments(k: nat)
    ensures Segments(LineChunk(k)) == [Letters(k), []]
  {
    assert LineChunk(k)[..k] == Letters(k) && LineChunk(k)[k + 1..] == [];
    PositionIs(LineChunk(k), NEWLINE, k);
    assert Segments([]) == [[]];
  }

  // A line that fits is stored behind the others.
  lemma LineAppends(n: nat, lines: seq<Line>, k: nat)
    requires 1 <= k <= MAX_LINE_BYTES && |Block(lines, false)| + k + 1 <= n
    ensures Append(n, Log(History(lines, false), 0), LineChunk(k)) == Log(History(lines + [Letters(k)], false), 0)
  {
    var l, a := Log(History(lines, false), 0), Letters(k);
    LettersClean(k);
    LineSegments(k);
    assert Sanitized([]) == [];
    hide Sanitized, Segments, Block, Evict;
    assert a[..k] == a && Kept(l) == lines;
    var grown := Extend(n, l, a);
    assert grown == Log(History(lines + [a], true), 0);
    assert [a, []][0] == a && [a, []][1..] == [[]];
    assert ExtendAll(n, grown, [[]]) == Extend(n, Terminate(grown), []);
  }

  function StuckChunks(n: nat): seq<Bytes>
    requires 961 <= n <= 963
  {
    [LineChunk(240), LineChunk(240), LineChunk(n - 723)]
  }

  lemma StuckIsReached(n: nat)
    requires 961 <= n <= 963
    ensures AppendAll(n, EMPTY, StuckChunks(n)) == Stuck(n)
  {
    hide Block, Append;
    var a, c := Letters(240), Letters(n - 723);
    var none: seq<Line> := [];
    EmptyBlock();
    BlockLength(a, []);
    BlockLength(a, [a]);
    assert none + [a] == [a] == [a] + none && [a] + [a] == [a, a] && [a, a] + [c] == [a, a, c];
    LineAppends(n, [], 240);
    LineAppends(n, [a], 240);
    LineAppends(n, [a, a], n - 723);
    var chunks := StuckChunks(n);
    var empty: seq<Bytes> := [];
    assert chunks[1..] == [LineChunk(240), LineChunk(n - 723)];
    assert chunks[1..][1..] == [LineChunk(n - 723)] && [LineChunk(n - 723)][1..] == empty;
    var l1, l2 := Log(History([a], false), 0), Log(History([a, a], false), 0);
    assert AppendAll(n, l2, [LineChunk(n - 723)]) == Stuck(n);
    assert AppendAll(n, l1, chunks[1..]) == Stuck(n);
  }

  /**
   In a buffer of 961 to 963 bytes, three lines lead to a state that a full-length
   line does not fit and that eviction leaves as it is: the append never ends.
   */
  lemma SmallBufferSticks(n: nat)
    requires 961 <= n <= 963
    ensures AppendAll(n, EMPTY, StuckChunks(n)) == Stuck(n)
    ensures Fits(n, Stuck(n)) && Room(Stuck(n).h, Letters(240)) == 240
    ensures |Stored(Stuck(n))| + 240 + 1 > n && Evict(n, Stuck(n)) == Stuck(n)
  {
    StuckIsReached(n);
    StuckBytes(n);
    LettersClean(240);
    hide Block, Sanitized, Append, StuckChunks;
    assert Surplus(Kept(Stuck(n)), false, KeepBelow(n)) == 0;
  }

  /** Eviction always makes room, so every append ends, exactly for capacities of 964 bytes and more. */
  lemma AppendEndsExactly(n: nat)
    requires n > 4 * MAX_LINE_BYTES
    ensures (forall l, length :: EvictionSuffices(n, l, length)) <==> n >= 964
  {
    if n >= 964 {
      forall l, length ensures EvictionSuffices(n, l, length) {
        if Fits(n, l) { EvictFits(n, l); }
      }
    } else {
      SmallBufferSticks(n);
      assert !EvictionSuffices(n, Stuck(n), 240);
    }
  }

  // ----- copying -------------------------------------------------------------------------------

  // Where the copy starts: after the first newline among the last `m` bytes.
  function CopyStart(s: Bytes, m: nat): (r: nat)
    ensures r <= |s|
  {
    if |s| < m then 0
    else
      var p := Position(s[|s| - m..], NEWLINE);
      if p.Some? then |s| - m + p.value + 1 else |s|
  }

  // The newline of the first line is the one the copy starts after, or lies before the last `m` bytes.
  lemma CopyPastNewline(s: Bytes, p: nat, m: nat)
    requires |s| >= m && Position(s, NEWLINE) == Some(p)
    ensures var rest := s[p + 1..]; CopyStart(s, m) == p + 1 + CopyStart(rest, m)
  {
    var rest, overflow := s[p + 1..], |s| - m;
    if overflow <= p {
      var tail := s[overflow..];
      assert tail[p - overflow] == NEWLINE && tail[..p - overflow] == s[..p][overflow..];
      PositionIs(tail, NEWLINE, p - overflow);
    } else {
      assert s[overflow..] == rest[|rest| - m..];
    }
  }

  // A text that begins with a whole line, cut `inner` bytes after it.
  lemma CutAfterLine(line: Line, rest: Bytes, inner: nat)
    requires Clean(line) && inner <= |rest|
    ensures var s := line + [NEWLINE] + rest;
      && s[|line| + 1 + inner..] == rest[inner..]
      && Newlines(s[..|line| + 1 + inner]) == 1 + Newlines(rest[..inner])
  {
    var s := line + [NEWLINE] + rest;
    assert s[..|line| + 1 + inner] == line + ([NEWLINE] + rest[..inner]);
    CleanHasNoNewline(line);
    NewlinesAppend(line, [NEWLINE] + rest[..inner]);
    assert ([NEWLINE] + rest[..inner])[1..] == rest[..inner];
  }

  ghost predicate CopiesWhole(lines: seq<Line>, open: bool, m: nat)
    requires m > 0
  {
    var s, k := Block(lines, open), Surplus(lines, open, m - 1);
    var start := CopyStart(s, m);
    s[start..] == Block(lines[k..], open) && Newlines(s[..start]) == k
  }

  lemma CopyOneMore(lines: seq<Line>, open: bool, m: nat)
    requires AllClean(lines) && m > 0 && lines != [] && !(|lines| == 1 && open) && |Block(lines, open)| >= m
    requires CopiesWhole(lines[1..], open, m)
    ensures CopiesWhole(lines, open, m)
  {
    hide Block, Newlines, Clean, Position;
    var s, rest := Block(lines, open), Block(lines[1..], open);
    assert Clean(lines[0]);
    BlockHead(lines, open);
    var inner := CopyStart(rest, m);
    CopyPastNewline(s, |lines[0]|, m);
    CutAfterLine(lines[0], rest, inner);
    assert CopyStart(s, m) == |lines[0]| + 1 + inner;
    var k := Surplus(lines[1..], open, m - 1);
    assert Surplus(lines, open, m - 1) == 1 + k;
    assert lines[1..][k..] == lines[k + 1..];
  }

  /** The copied bytes are the whole lines of the copy, and the newlines left behind are its dropped lines. */
  lemma {:induction false} CopyIsWholeLines(lines: seq<Line>, open: bool, m: nat)
    requires AllClean(lines) && m > MAX_LINE_BYTES && (open ==> lines != [])
    ensures CopiesWhole(lines, open, m)
    decreases |lines|
  {
    var s := Block(lines, open);
    if |s| >= m {
      CopyIsWholeLines(lines[1..], open, m);
      CopyOneMore(lines, open, m);
    } else {
      assert s[0..] == s && lines[0..] == lines && s[..0] == [];
    }
  }

  lemma CopyFits(n: nat, m: nat, l: Log)
    requires Fits(n, l) && m > 4 * MAX_LINE_BYTES
    ensures Fits(m, Copy(m, l))
    ensures var start := CopyStart(Stored(l), m);
      && Stored(Copy(m, l)) == Stored(l)[start..]
      && Copy(m, l).dropped == l.dropped + Newlines(Stored(l)[..start])
  {
    var k := Surplus(Kept(l), l.h.open, m - 1);
    SurplusFits(Kept(l), l.h.open, m - 1);
    CopyIsWholeLines(Kept(l), l.h.open, m);
    assert Kept(l)[k..] == Kept(Copy(m, l));
  }
}
