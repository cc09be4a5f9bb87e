/** A console that polls in time misses no line: its view is the newest thousand of all there ever were. */
module ConsoleCatchUp {
  import opened Wrappers
  import opened LogLines
  import opened ConsoleLog
  import B = BoundedLog

  // The view holds the last of so many lines, numbered without a gap, and has counted the others.
  ghost predicate Complete(view: BootLogView, count: nat) {
    && view.trimmed + |view.lines| == count && |view.lines| == Min(1000, count)
    && forall i :: 0 <= i < |view.lines| ==> view.lines[i].sequence == view.trimmed + i
  }

  function Held(view: BootLogView, boot: nat): BootLogView { if view.boot == boot then view else EMPTY_VIEW }

  lemma {:induction false} AfterIsRest(lines: seq<Numbered>, first: nat, since: int)
    requires forall i :: 0 <= i < |lines| ==> lines[i].sequence == first + i
    requires first - 1 <= since < first + |lines|
    ensures After(lines, since) == lines[since + 1 - first..]
    decreases |lines|
  {
    if lines != [] {
      var rest := lines[1..];
      if since >= first {
        AfterIsRest(rest, first + 1, since);
        assert [] + After(rest, since) == rest[since - first..] == lines[since + 1 - first..];
      } else {
        AllAfter(lines, since);
      }
    }
  }

  lemma {:induction false} AllAfter(lines: seq<Numbered>, since: int)
    requires forall i :: 0 <= i < |lines| ==> lines[i].sequence > since
    ensures After(lines, since) == lines
    decreases |lines|
  {
    if lines != [] { AllAfter(lines[1..], since); }
  }

  // What the poll adds: the device's lines from the first one not seen yet.
  lemma JoinedIsRest(base: seq<Numbered>, count: nat, l: B.Log)
    requires Last(base) == count - 1 && l.dropped <= count <= |l.h.lines|
    ensures Joined(base, Number(B.Kept(l), l.dropped)) == base + Number(l.h.lines[count..], count)
  {
    var incoming := Number(B.Kept(l), l.dropped);
    if incoming != [] { AfterIsRest(incoming, l.dropped, count - 1); }
    assert incoming[count - l.dropped..] == Number(l.h.lines[count..], count);
  }

  // The newest thousand of a complete view and the lines after it.
  lemma NewestAreComplete(base: BootLogView, count: nat, texts: seq<Line>, boot: nat, dropped: nat)
    requires Complete(base, count)
    ensures var lines := base.lines + Number(texts, count);
      var excess: nat := if |lines| >= RETAINED_LINES then |lines| - RETAINED_LINES else 0;
      var v := BootLogView(boot, lines[excess..], dropped, base.trimmed + excess);
      && Complete(v, count + |texts|)
      && forall i :: 0 <= i < |v.lines| && v.trimmed + i >= count ==> v.lines[i].text == texts[v.trimmed + i - count]
  {}

  lemma MergeAppends(view: BootLogView, boot: nat, l: B.Log, n: nat, count: nat)
    requires B.Fits(n, l) && Last(Held(view, boot).lines) == count - 1 && l.dropped <= count <= |l.h.lines|
    ensures var base := Held(view, boot);
      var lines := base.lines + Number(l.h.lines[count..], count);
      var excess: nat := if |lines| >= RETAINED_LINES then |lines| - RETAINED_LINES else 0;
      MergeBootLog(view, Answer(boot, l)) == BootLogView(boot, lines[excess..], l.dropped, base.trimmed + excess)
  {
    hide B.Stored, Number, Joined, NumberedLines;
    AnswerIsNumbered(boot, l, n);
    JoinedIsRest(Held(view, boot).lines, count, l);
  }

  lemma CompleteEnds(view: BootLogView, count: nat)
    requires Complete(view, count)
    ensures Last(view.lines) == count - 1
  {}

  /**
   A poll that comes before the device has dropped a line the console has not seen leaves
   nothing out: the view is the newest thousand lines of the boot, or all of them, under
   their numbers; the ones new to it with the text they have; the rest are counted.
   */
  lemma PollKeepsUp(view: BootLogView, boot: nat, l: B.Log, n: nat, count: nat)
    requires B.Fits(n, l) && Complete(Held(view, boot), count) && l.dropped <= count <= |l.h.lines|
    ensures var v := MergeBootLog(view, Answer(boot, l));
      && v.boot == boot && v.droppedByDevice == l.dropped && Complete(v, |l.h.lines|)
      && forall i :: 0 <= i < |v.lines| && v.trimmed + i >= count ==> v.lines[i].text == l.h.lines[v.trimmed + i]
  {
    hide MergeBootLog, Answer, Complete, B.Fits, Held, Number;
    var base, texts := Held(view, boot), l.h.lines[count..];
    CompleteEnds(base, count);
    MergeAppends(view, boot, l, n, count);
    NewestAreComplete(base, count, texts, boot, l.dropped);
    assert forall i :: 0 <= i < |texts| ==> texts[i] == l.h.lines[count + i];
  }

  // The view of the running boot has no gap and is not ahead of the device.
  ghost predicate Caught(w: World) {
    var held := Held(w.view, w.boot);
    Complete(held, held.trimmed + |held.lines|) && held.trimmed + |held.lines| <= |w.device.h.lines|
  }

  // Every poll of the run comes before the device has dropped a line that was not seen.
  ghost predicate Timely(n: nat, w: World, es: seq<Event>)
    requires Inv(n, w) && n / 4 > MAX_LINE_BYTES && Runs(n, w, es)
    decreases |es|
  {
    es == [] || (
      var held := Held(w.view, w.boot);
      StepInv(n, w, es[0]);
      && (es[0].Poll? ==> w.device.dropped <= held.trimmed + |held.lines|)
      && Timely(n, Step(n, w, es[0]), es[1..]))
  }

  lemma CaughtStep(n: nat, w: World, e: Event)
    requires Inv(n, w) && Allowed(w, e) && n / 4 > MAX_LINE_BYTES && Caught(w)
    requires e.Poll? ==> w.device.dropped <= Held(w.view, w.boot).trimmed + |Held(w.view, w.boot).lines|
    ensures Caught(Step(n, w, e))
  {
    match e {
      case Log(chunk) =>
        B.AppendFits(n, w.device, chunk);
        LoggedGrew(w.device.h, chunk);
      case Poll =>
        var held := Held(w.view, w.boot);
        PollKeepsUp(w.view, w.boot, w.device, n, held.trimmed + |held.lines|);
      case Restart(_) =>
    }
    hide B.Append, MergeBootLog, Answer, Complete, Logged, B.Fits;
  }

  /** Over any run of appends, restarts and timely polls the view has no gap. */
  lemma {:induction false} TimelyPollsMissNothing(n: nat, w: World, es: seq<Event>)
    requires Inv(n, w) && n / 4 > MAX_LINE_BYTES && Runs(n, w, es) && Timely(n, w, es) && Caught(w)
    ensures Caught(Run(n, w, es))
    decreases |es|
  {
    if es != [] {
      StepInv(n, w, es[0]);
      CaughtStep(n, w, es[0]);
      hide Step, Inv, Caught;
      TimelyPollsMissNothing(n, Step(n, w, es[0]), es[1..]);
    }
  }
}
