/**
 What the lines of the log are, said of the whole stream of chunks at once: which segments
 belong to one line, and what a line made of several keeps.
 */
module LoggedLines {
  import opened Octets
  import opened LogLines
  import opened BoundedLog

  // ----- chunks and their segments -----------------------------------------------------------

  // The segments of a chunk, which newlines separate.
  ghost predicate Segmented(segments: seq<Bytes>) {
    segments != [] && forall i :: 0 <= i < |segments| ==> 10 !in segments[i]
  }

  function Join(segments: seq<Bytes>): Bytes {
    if segments == [] then []
    else if |segments| == 1 then segments[0]
    else segments[0] + [10] + Join(segments[1..])
  }

  /** A chunk is cut at its newlines and nowhere else. */
  lemma {:induction false} CutAtNewlines(segments: seq<Bytes>)
    requires Segmented(segments)
    ensures Segments(Join(segments)) == segments
    decreases |segments|
  {
    var chunk := Join(segments);
    if |segments| > 1 {
      var rest := segments[1..];
      CutAtNewlines(rest);
      assert chunk[..|segments[0]|] == segments[0] && chunk[|segments[0]| + 1..] == Join(rest);
      PositionIs(chunk, NEWLINE, |segments[0]|);
    } else {
      assert segments == [segments[0]];
    }
  }

  lemma {:induction false} EveryChunkHasSegments(chunk: Bytes)
    ensures Segmented(Segments(chunk)) && Join(Segments(chunk)) == chunk
    decreases |chunk|
  {
    var p := Position(chunk, NEWLINE);
    if p.Some? {
      EveryChunkHasSegments(chunk[p.value + 1..]);
      assert chunk == chunk[..p.value] + [10] + chunk[p.value + 1..];
    }
  }

  // ----- segments and their lines ----------------------------------------------------------------

  // The segments of one line, oldest first.
  type Group = seq<Bytes>

  // A line of its own for each segment.
  function Singles(segments: seq<Bytes>): seq<Group> {
    if segments == [] then [] else [[segments[0]]] + Singles(segments[1..])
  }

  // The last line goes on with a segment.
  function Extended(groups: seq<Group>, segment: Bytes): (r: seq<Group>)
    requires groups != []
    ensures r != []
  {
    groups[..|groups| - 1] + [groups[|groups| - 1] + [segment]]
  }

  // One more chunk: its first segment continues the last line, each other one begins a line.
  function Continued(groups: seq<Group>, segments: seq<Bytes>): (r: seq<Group>)
    requires groups != [] && segments != []
    ensures r != []
  {
    Extended(groups, segments[0]) + Singles(segments[1..])
  }

  function Groups(chunks: seq<seq<Bytes>>): (r: seq<Group>)
    requires forall i :: 0 <= i < |chunks| ==> chunks[i] != []
    ensures r != []
  {
    if chunks == [] then [[]] else Continued(Groups(chunks[..|chunks| - 1]), chunks[|chunks| - 1])
  }

  // What the segments of a line say together, each without what a reader cannot use.
  function Wording(group: Group): Bytes {
    if group == [] then [] else Wording(group[..|group| - 1]) + Sanitized(group[|group| - 1])
  }

  // At most 240 bytes of it, and no line at all when there is nothing to say.
  function LineOf(wording: Bytes): seq<Line> {
    if wording == [] then [] else [if |wording| <= 240 then wording else wording[..240]]
  }

  function Lines(groups: seq<Group>): seq<Line> {
    if groups == [] then [] else Lines(groups[..|groups| - 1]) + LineOf(Wording(groups[|groups| - 1]))
  }

  // These lines, the last of them open if it has begun.
  ghost predicate Tells(h: History, groups: seq<Group>) {
    groups != [] && h.lines == Lines(groups) && (h.open <==> Wording(groups[|groups| - 1]) != [])
  }

  lemma LastOf(groups: seq<Group>, group: Group)
    ensures Lines(groups + [group]) == Lines(groups) + LineOf(Wording(group))
  {
    assert (groups + [group])[..|groups|] == groups;
  }

  // A history that ends in the line with this wording, or in none.
  ghost predicate EndsIn(h: History, before: seq<Line>, wording: Bytes) {
    h.lines == before + LineOf(wording) && (h.open <==> wording != [])
  }

  lemma CapAdds(wording: Bytes, text: Bytes)
    requires wording != []
    ensures var line := LineOf(wording)[0];
      var left := 240 - |line|;
      |line| <= 240 && LineOf(wording + text) == [line + text[..if |text| <= left then |text| else left]]
  {
    var w, both := |wording|, wording + text;
    if w > 240 {
      assert both[..240] == wording[..240] + text[..0];
    } else if |both| > 240 {
      assert both[..240] == wording + text[..240 - w];
    } else {
      assert text[..|text|] == text;
    }
  }

  lemma GrowEndsIn(h: History, before: seq<Line>, wording: Bytes, raw: Bytes)
    requires EndsIn(h, before, wording)
    ensures EndsIn(Grow(h, raw), before, wording + Sanitized(raw))
  {
    var text := Sanitized(raw);
    if wording == [] {
      assert wording + text == text && text[..|text|] == text;
    } else {
      var line := LineOf(wording)[0];
      var n := Room(h, raw);
      assert h.lines[|h.lines| - 1] == line;
      CapAdds(wording, text);
      assert h.lines[|h.lines| - 1 := line + text[..n]] == before + [line + text[..n]];
      if n == 0 { assert line + text[..n] == line; }
    }
  }

  lemma GrowTells(h: History, groups: seq<Group>, raw: Bytes)
    requires Tells(h, groups)
    ensures Tells(Grow(h, raw), Extended(groups, raw))
  {
    var last := |groups| - 1;
    var before, group := groups[..last], groups[last] + [raw];
    assert group[..|group| - 1] == groups[last];
    LastOf(before, group);
    GrowEndsIn(h, Lines(before), Wording(groups[last]), raw);
    hide Grow, Sanitized, Lines, LineOf;
  }

  lemma NextTells(h: History, groups: seq<Group>, raw: Bytes)
    requires Tells(h, groups)
    ensures Tells(Grow(End(h), raw), groups + [[raw]])
  {
    LastOf(groups, []);
    assert LineOf([]) == [] && Lines(groups) + [] == Lines(groups);
    assert Tells(End(h), groups + [[]]);
    GrowTells(End(h), groups + [[]], raw);
    assert [] + [raw] == [raw] && (groups + [[]])[..|groups|] == groups;
    hide Tells, Grow;
  }

  lemma {:induction false} GrowAllTells(h: History, groups: seq<Group>, segments: seq<Bytes>)
    requires Tells(h, groups)
    ensures Tells(GrowAll(h, segments), groups + Singles(segments))
    decreases |segments|
  {
    hide Tells, Grow;
    if segments == [] {
      assert groups + Singles(segments) == groups;
    } else {
      NextTells(h, groups, segments[0]);
      GrowAllTells(Grow(End(h), segments[0]), groups + [[segments[0]]], segments[1..]);
      assert groups + [[segments[0]]] + Singles(segments[1..]) == groups + Singles(segments);
    }
  }

  lemma LoggedTells(h: History, groups: seq<Group>, segments: seq<Bytes>)
    requires Tells(h, groups) && Segmented(segments)
    ensures Tells(Logged(h, Join(segments)), Continued(groups, segments))
  {
    CutAtNewlines(segments);
    GrowTells(h, groups, segments[0]);
    hide Tells, Segments, Grow;
    GrowAllTells(Grow(h, segments[0]), Extended(groups, segments[0]), segments[1..]);
  }

  function Texts(chunks: seq<seq<Bytes>>): seq<Bytes> {
    seq(|chunks|, i requires 0 <= i < |chunks| => Join(chunks[i]))
  }

  lemma {:induction false} LoggedAllLast(h: History, chunks: seq<Bytes>)
    requires chunks != []
    ensures LoggedAll(h, chunks) == Logged(LoggedAll(h, chunks[..|chunks| - 1]), chunks[|chunks| - 1])
    decreases |chunks|
  {
    if |chunks| > 1 {
      LoggedAllLast(Logged(h, chunks[0]), chunks[1..]);
      assert chunks[1..][..|chunks| - 2] == chunks[..|chunks| - 1][1..];
    }
  }

  lemma TextsLast(chunks: seq<seq<Bytes>>)
    requires chunks != []
    ensures var last := |chunks| - 1;
      Texts(chunks)[..last] == Texts(chunks[..last]) && Texts(chunks)[last] == Join(chunks[last])
  {}

  lemma NothingTells()
    ensures Tells(LoggedAll(NO_LINES, []), [[]])
  {
    LastOf([], []);
  }

  ghost predicate AllSegmented(chunks: seq<seq<Bytes>>) {
    forall i :: 0 <= i < |chunks| ==> Segmented(chunks[i]) && chunks[i] != []
  }

  /**
   The log of a stream of chunks is the lines of their segments: a chunk continues the line
   the chunk before it left off, a newline ends a line, a line without wording is none, and a
   line is what its segments say one after the other, up to 240 bytes.
   */
  lemma {:induction false} LogIsTheLines(chunks: seq<seq<Bytes>>)
    requires AllSegmented(chunks)
    ensures Tells(LoggedAll(NO_LINES, Texts(chunks)), Groups(chunks))
    decreases |chunks|
  {
    if chunks == [] {
      NothingTells();
    } else {
      hide Segmented, Logged, LoggedAll, Continued, Tells, Join;
      var last := |chunks| - 1;
      assert Segmented(chunks[last]);
      LogIsTheLines(chunks[..last]);
      LoggedTells(LoggedAll(NO_LINES, Texts(chunks[..last])), Groups(chunks[..last]), chunks[last]);
      TextsLast(chunks);
      LoggedAllLast(NO_LINES, Texts(chunks));
    }
  }
}
