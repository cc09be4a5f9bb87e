/** The console's merged view of a device log it polls, and what every held line is. */
module ConsoleLog {
  import opened Wrappers
  import opened Octets
  import opened LogLines
  import B = BoundedLog

  const RETAINED_LINES: nat := 1000

  datatype Numbered = Numbered(sequence: nat, text: Line)

  // What the device answers: one boot's text and the number of its first line.
  datatype BootLog = BootLog(boot: nat, text: Bytes, firstSequence: nat, dropped: nat)

  datatype BootLogView = BootLogView(boot: nat, lines: seq<Numbered>, droppedByDevice: nat, trimmed: nat)

  const EMPTY_VIEW := BootLogView(0, [], 0, 0)

  function NonEmpty(segments: seq<Bytes>): seq<Bytes> {
    if segments == [] then [] else (if segments[0] == [] then [] else [segments[0]]) + NonEmpty(segments[1..])
  }

  function Number(texts: seq<Bytes>, first: nat): (r: seq<Numbered>)
    ensures |r| == |texts|
    ensures forall i :: 0 <= i < |r| ==> r[i] == Numbered(first + i, texts[i])
  {
    seq(|texts|, i requires 0 <= i < |texts| => Numbered(first + i, texts[i]))
  }

  function NumberedLines(boot: BootLog): seq<Numbered> {
    Number(NonEmpty(Segments(boot.text)), boot.firstSequence)
  }

  // The lines numbered above `since`; all of them when nothing is held yet.
  function After(lines: seq<Numbered>, since: int): (r: seq<Numbered>)
    ensures forall x :: x in r <==> x in lines && x.sequence > since
  {
    if lines == [] then [] else (if lines[0].sequence > since then [lines[0]] else []) + After(lines[1..], since)
  }

  function Last(lines: seq<Numbered>): int { if lines == [] then -1 else lines[|lines| - 1].sequence }

  function Joined(held: seq<Numbered>, incoming: seq<Numbered>): seq<Numbered> {
    held + After(incoming, Last(held))
  }

  function MergeBootLog(held: BootLogView, incoming: BootLog): BootLogView {
    var base := if incoming.boot == held.boot then held else EMPTY_VIEW;
    var lines := Joined(base.lines, NumberedLines(incoming));
    var excess := SaturatingSub(|lines|, RETAINED_LINES);
    BootLogView(incoming.boot, lines[excess..], incoming.dropped, base.trimmed + excess)
  }

  // What a device holding `l` answers.
  function Answer(boot: nat, l: B.Log): BootLog
    requires l.dropped <= |l.h.lines|
  {
    BootLog(boot, B.Stored(l), l.dropped, l.dropped)
  }

  // ----- the device's numbering survives the text ---------------------------------------

  lemma {:induction false} TextIsLines(lines: seq<Line>, open: bool)
    requires AllClean(lines) && (open ==> lines != [])
    ensures NonEmpty(Segments(Block(lines, open))) == lines
    decreases |lines|
  {
    var s := Block(lines, open);
    if lines == [] {
      assert Segments(s) == [[]];
    } else if |lines| == 1 && open {
      CleanHasNoNewline(lines[0]);
      assert Segments(s) == [lines[0]] && lines == [lines[0]];
    } else {
      BlockHead(lines, open);
      TextIsLines(lines[1..], open);
      assert s[..|lines[0]|] == lines[0];
      assert Segments(s) == [lines[0]] + Segments(Block(lines[1..], open));
    }
  }

  /** The lines read from an answer are the device's held lines under their ordinals. */
  lemma AnswerIsNumbered(boot: nat, l: B.Log, n: nat)
    requires B.Fits(n, l)
    ensures NumberedLines(Answer(boot, l)) == Number(B.Kept(l), l.dropped)
  {
    TextIsLines(B.Kept(l), l.h.open);
  }

  // ----- the invariant ------------------------------------------------------------------

  ghost predicate Increasing(lines: seq<Numbered>) {
    forall i, j :: 0 <= i < j < |lines| ==> lines[i].sequence < lines[j].sequence
  }

  // A held line is a line of the device, as far as it had been written when it was read.
  ghost predicate IsLineOf(x: Numbered, h: History) {
    x.sequence < |h.lines| && x.text <= h.lines[x.sequence]
  }

  ghost predicate LinesOf(lines: seq<Numbered>, h: History) {
    Increasing(lines) && forall i :: 0 <= i < |lines| ==> IsLineOf(lines[i], h)
  }

  ghost predicate Faithful(view: BootLogView, h: History) {
    |view.lines| <= RETAINED_LINES && LinesOf(view.lines, h)
  }

  ghost predicate Grew(a: History, b: History) {
    |a.lines| <= |b.lines| && forall i :: 0 <= i < |a.lines| ==> a.lines[i] <= b.lines[i]
  }

  lemma GrowGrew(h: History, raw: Bytes)
    ensures Grew(h, Grow(h, raw)) && Grew(h, Grow(End(h), raw))
  {}

  lemma {:induction false} GrowAllGrew(h: History, segments: seq<Bytes>)
    ensures Grew(h, GrowAll(h, segments))
    decreases |segments|
  {
    if segments != [] {
      GrowGrew(h, segments[0]);
      GrowAllGrew(Grow(End(h), segments[0]), segments[1..]);
    }
  }

  lemma LoggedGrew(h: History, chunk: Bytes)
    ensures Grew(h, Logged(h, chunk))
  {
    GrowGrew(h, Segments(chunk)[0]);
    GrowAllGrew(Grow(h, Segments(chunk)[0]), Segments(chunk)[1..]);
  }

  lemma IncreasingTail(lines: seq<Numbered>)
    requires Increasing(lines) && lines != []
    ensures Increasing(lines[1..]) && forall x :: x in lines[1..] ==> lines[0].sequence < x.sequence
  {}

  lemma IncreasingCons(x: Numbered, rest: seq<Numbered>)
    requires Increasing(rest) && forall y :: y in rest ==> x.sequence < y.sequence
    ensures Increasing([x] + rest)
  {}

  lemma {:induction false} AfterIncreasing(lines: seq<Numbered>, since: int)
    requires Increasing(lines)
    ensures Increasing(After(lines, since))
    decreases |lines|
  {
    if lines != [] {
      IncreasingTail(lines);
      AfterIncreasing(lines[1..], since);
      IncreasingCons(lines[0], After(lines[1..], since));
      assert [] + After(lines[1..], since) == After(lines[1..], since);
      hide Increasing;
    }
  }

  lemma JoinIncreasing(a: seq<Numbered>, b: seq<Numbered>)
    requires Increasing(a) && Increasing(b) && forall x :: x in b ==> x.sequence > Last(a)
    ensures Increasing(a + b)
  {
    forall i, j | 0 <= i < j < |a + b| ensures (a + b)[i].sequence < (a + b)[j].sequence {
      if i < |a| <= j {
        assert b[j - |a|] in b && a[i].sequence <= Last(a);
      }
    }
  }

  lemma HeldAreLines(l: B.Log, n: nat)
    requires B.Fits(n, l)
    ensures LinesOf(Number(B.Kept(l), l.dropped), l.h)
  {}

  lemma JoinedAreLines(held: seq<Numbered>, incoming: seq<Numbered>, h: History)
    requires LinesOf(held, h) && LinesOf(incoming, h)
    ensures LinesOf(Joined(held, incoming), h)
  {
    var more := After(incoming, Last(held));
    AfterIncreasing(incoming, Last(held));
    JoinIncreasing(held, more);
    forall i | 0 <= i < |held + more| ensures IsLineOf((held + more)[i], h) {
      if i >= |held| {
        assert more[i - |held|] in more && more[i - |held|] in incoming;
      }
    }
  }

  lemma SuffixAreLines(lines: seq<Numbered>, h: History, from: nat)
    requires LinesOf(lines, h) && from <= |lines|
    ensures LinesOf(lines[from..], h)
  {}

  /** A poll keeps the view faithful: new ordinals are added in order, and held ones are not renumbered. */
  lemma MergeFaithful(held: BootLogView, boot: nat, l: B.Log, n: nat)
    requires B.Fits(n, l) && (held.boot == boot ==> Faithful(held, l.h))
    ensures Faithful(MergeBootLog(held, Answer(boot, l)), l.h)
  {
    hide LinesOf;
    AnswerIsNumbered(boot, l, n);
    HeldAreLines(l, n);
    NothingIsLines(l.h);
    var base := if boot == held.boot then held else EMPTY_VIEW;
    var lines := Joined(base.lines, Number(B.Kept(l), l.dropped));
    JoinedAreLines(base.lines, Number(B.Kept(l), l.dropped), l.h);
    SuffixAreLines(lines, l.h, SaturatingSub(|lines|, RETAINED_LINES));
  }

  lemma NothingIsLines(h: History)
    ensures LinesOf([], h)
  {}

  // ----- runs ---------------------------------------------------------------------------

  datatype World = World(boot: nat, device: B.Log, view: BootLogView)

  datatype Event = Log(chunk: Bytes) | Poll | Restart(boot: nat)

  ghost predicate Allowed(w: World, e: Event) {
    e.Restart? ==> e.boot != w.view.boot
  }

  function Step(n: nat, w: World, e: Event): World
    requires w.device.dropped <= |w.device.h.lines|
  {
    match e
    case Log(chunk) => w.(device := B.Append(n, w.device, chunk))
    case Poll => w.(view := MergeBootLog(w.view, Answer(w.boot, w.device)))
    case Restart(boot) => World(boot, B.EMPTY, w.view)
  }

  ghost predicate Inv(n: nat, w: World) {
    && B.Fits(n, w.device)
    && |w.view.lines| <= RETAINED_LINES
    && (w.view.boot == w.boot ==> Faithful(w.view, w.device.h))
  }

  lemma FaithfulLater(view: BootLogView, a: History, b: History)
    requires Faithful(view, a) && Grew(a, b)
    ensures Faithful(view, b)
  {
    forall i | 0 <= i < |view.lines| ensures IsLineOf(view.lines[i], b) {
      assert IsLineOf(view.lines[i], a);
    }
  }

  lemma StepInv(n: nat, w: World, e: Event)
    requires Inv(n, w) && Allowed(w, e) && n / 4 > MAX_LINE_BYTES
    ensures Inv(n, Step(n, w, e))
  {
    match e
    case Log(chunk) =>
      B.AppendFits(n, w.device, chunk);
      LoggedGrew(w.device.h, chunk);
      if w.view.boot == w.boot { FaithfulLater(w.view, w.device.h, Logged(w.device.h, chunk)); }
    case Poll => MergeFaithful(w.view, w.boot, w.device, n);
    case Restart(_) =>
  }

  ghost predicate Runs(n: nat, w: World, es: seq<Event>)
    requires Inv(n, w) && n / 4 > MAX_LINE_BYTES
    decreases |es|
  {
    es == [] || (Allowed(w, es[0]) && (StepInv(n, w, es[0]); Runs(n, Step(n, w, es[0]), es[1..])))
  }

  ghost function Run(n: nat, w: World, es: seq<Event>): World
    requires Inv(n, w) && n / 4 > MAX_LINE_BYTES && Runs(n, w, es)
    decreases |es|
  {
    if es == [] then w
    else
      StepInv(n, w, es[0]);
      Run(n, Step(n, w, es[0]), es[1..])
  }

  /**
   Over any appends, polls and restarts, the view of the running boot has strictly
   increasing numbers that are device ordinals, at most `RETAINED_LINES` lines, and
   each held text begins the device's line of that number.
   */
  lemma {:induction false} ViewIsFaithful(n: nat, w: World, es: seq<Event>)
    requires Inv(n, w) && n / 4 > MAX_LINE_BYTES && Runs(n, w, es)
    ensures var t := Run(n, w, es);
      |t.view.lines| <= RETAINED_LINES && (t.view.boot == t.boot ==> Faithful(t.view, t.device.h))
    decreases |es|
  {
    if es != [] {
      StepInv(n, w, es[0]);
      ViewIsFaithful(n, Step(n, w, es[0]), es[1..]);
    }
  }

  lemma JoinedReaches(held: seq<Numbered>, incoming: seq<Numbered>, h: History)
    requires LinesOf(Joined(held, incoming), h)
    requires incoming != [] && incoming[|incoming| - 1].sequence == |h.lines| - 1
    ensures Joined(held, incoming) != [] && Last(Joined(held, incoming)) == |h.lines| - 1
  {
    var lines, newest := Joined(held, incoming), incoming[|incoming| - 1];
    assert newest in incoming;
    if |h.lines| - 1 > Last(held) {
      assert newest in After(incoming, Last(held)) && newest in lines;
      var i :| 0 <= i < |lines| && lines[i] == newest;
      assert IsLineOf(lines[|lines| - 1], h);
    } else {
      assert held != [] && lines[|held| - 1] == held[|held| - 1];
      assert IsLineOf(lines[|lines| - 1], h);
    }
  }

  lemma NumbersEnd(l: B.Log, n: nat)
    requires B.Fits(n, l) && l.dropped < |l.h.lines|
    ensures var incoming := Number(B.Kept(l), l.dropped);
      incoming != [] && incoming[|incoming| - 1].sequence == |l.h.lines| - 1
  {}

  lemma TailEnds(lines: seq<Numbered>, excess: nat)
    requires lines != [] && excess == SaturatingSub(|lines|, RETAINED_LINES)
    ensures lines[excess..] != [] && Last(lines[excess..]) == Last(lines)
  {}

  // What the merged lines are before the oldest are trimmed.
  lemma MergeReaches(base: seq<Numbered>, l: B.Log, n: nat)
    requires B.Fits(n, l) && l.dropped < |l.h.lines| && LinesOf(base, l.h)
    ensures var lines := Joined(base, Number(B.Kept(l), l.dropped));
      lines != [] && Last(lines) == |l.h.lines| - 1
  {
    HeldAreLines(l, n);
    NumbersEnd(l, n);
    hide B.Fits, LinesOf, Number, Joined, Last;
    JoinedAreLines(base, Number(B.Kept(l), l.dropped), l.h);
    JoinedReaches(base, Number(B.Kept(l), l.dropped), l.h);
  }

  /** After a poll the view ends with the device's newest line, unless it holds none. */
  lemma PollReachesTheEnd(n: nat, w: World)
    requires Inv(n, w) && w.device.dropped < |w.device.h.lines|
    ensures var view := Step(n, w, Poll).view;
      view.lines != [] && Last(view.lines) == |w.device.h.lines| - 1
  {
    NothingIsLines(w.device.h);
    hide B.Fits, B.Stored, B.Kept, Joined, NumberedLines, Number, Last, LinesOf;
    AnswerIsNumbered(w.boot, w.device, n);
    var base := if w.boot == w.view.boot then w.view else EMPTY_VIEW;
    MergeReaches(base.lines, w.device, n);
    var lines := Joined(base.lines, Number(B.Kept(w.device), w.device.dropped));
    TailEnds(lines, SaturatingSub(|lines|, RETAINED_LINES));
  }
}
