/**
 What a segment of raw log text is made of, and what a reader gets to see of it: the
 visible bytes and nothing of the terminal sequences between them.
 */
module LogEscapes {
  import opened Wrappers
  import opened Octets
  import opened LogLines

  datatype Piece =
    | Visible(b: byte)
    | Invisible(b: byte)                              // a control byte other than an escape
    | LoneEscape                                      // one that no bracket follows
    | Sequence(parameters: Bytes, last: byte)         // escape, bracket, parameters, final byte

  // Pieces, then perhaps the parameters of a sequence that the text ends in.
  datatype Raw = Raw(pieces: seq<Piece>, unfinished: Option<Bytes>)

  ghost predicate Ends(b: byte) { 64 <= b <= 126 }

  ghost predicate NoneEnds(parameters: Bytes) { forall i :: 0 <= i < |parameters| ==> !Ends(parameters[i]) }

  ghost predicate Proper(p: Piece) {
    match p
    case Visible(b) => 32 <= b && b != 127
    case Invisible(b) => (b < 32 || b == 127) && b != 27
    case LoneEscape => true
    case Sequence(parameters, last) => NoneEnds(parameters) && Ends(last)
  }

  // The next piece would turn a lone escape into the beginning of a sequence.
  ghost predicate Joins(pieces: seq<Piece>) { pieces != [] && pieces[0] == Visible(91) }

  ghost predicate AllProper(pieces: seq<Piece>) {
    pieces == [] || (Proper(pieces[0]) && (pieces[0].LoneEscape? ==> !Joins(pieces[1..])) && AllProper(pieces[1..]))
  }

  ghost predicate Valid(raw: Raw) {
    AllProper(raw.pieces) && (raw.unfinished.Some? ==> NoneEnds(raw.unfinished.value))
  }

  function PrintPiece(p: Piece): Bytes {
    match p
    case Visible(b) => [b]
    case Invisible(b) => [b]
    case LoneEscape => [27]
    case Sequence(parameters, last) => [27, 91] + parameters + [last]
  }

  function Print(raw: Raw): Bytes
    decreases |raw.pieces|
  {
    if raw.pieces != [] then PrintPiece(raw.pieces[0]) + Print(raw.(pieces := raw.pieces[1..]))
    else if raw.unfinished.Some? then [27, 91] + raw.unfinished.value
    else []
  }

  // The visible bytes, in order.
  function Text(pieces: seq<Piece>): Bytes {
    if pieces == [] then []
    else (if pieces[0].Visible? then [pieces[0].b] else []) + Text(pieces[1..])
  }

  lemma {:induction false} AfterUnfinished(parameters: Bytes)
    requires NoneEnds(parameters)
    ensures AfterSequence(parameters) == []
  {
    if parameters != [] {
      assert !Ends(parameters[0]);
      AfterUnfinished(parameters[1..]);
    }
  }

  lemma {:induction false} AfterFinished(parameters: Bytes, last: byte, rest: Bytes)
    requires NoneEnds(parameters) && Ends(last)
    ensures AfterSequence(parameters + [last] + rest) == rest
  {
    var s := parameters + [last] + rest;
    if parameters == [] {
      assert s[1..] == rest;
    } else {
      assert !Ends(parameters[0]);
      assert s[1..] == parameters[1..] + [last] + rest;
      AfterFinished(parameters[1..], last, rest);
    }
  }

  lemma PrintStart(raw: Raw)
    requires Valid(raw) && !Joins(raw.pieces)
    ensures Print(raw) == [] || Print(raw)[0] != 91
  {}

  // A sequence in front of a text leaves nothing of itself.
  lemma StripSequence(parameters: Bytes, last: byte, rest: Bytes)
    requires NoneEnds(parameters) && Ends(last)
    ensures Strip([27, 91] + parameters + [last] + rest) == Strip(rest)
  {
    var s := [27, 91] + parameters + [last] + rest;
    assert s[1..] == [91] + parameters + [last] + rest;
    assert s[1..][1..] == parameters + [last] + rest;
    AfterFinished(parameters, last, rest);
  }

  // A byte in front of a text is kept, or dropped; an escape is dropped if no bracket follows.
  lemma StripByte(b: byte, rest: Bytes)
    requires b == 27 ==> rest == [] || rest[0] != 91
    ensures Strip([b] + rest) == (if 32 <= b && b != 127 then [b] else []) + Strip(rest)
  {
    assert ([b] + rest)[1..] == rest;
  }

  lemma StripUnfinished(parameters: Bytes)
    requires NoneEnds(parameters)
    ensures Strip([27, 91] + parameters) == []
  {
    var s := [27, 91] + parameters;
    assert s[1..] == [91] + parameters && s[1..][1..] == parameters;
    AfterUnfinished(parameters);
  }

  lemma {:induction false} StripPrinted(raw: Raw)
    requires Valid(raw)
    ensures Strip(Print(raw)) == Text(raw.pieces)
    decreases |raw.pieces|
  {
    hide Strip, AfterSequence;
    if raw.pieces == [] {
      StripNothing();
      if raw.unfinished.Some? { StripUnfinished(raw.unfinished.value); }
    } else {
      var p, tail := raw.pieces[0], raw.(pieces := raw.pieces[1..]);
      StripPrinted(tail);
      if p.Sequence? {
        StripSequence(p.parameters, p.last, Print(tail));
      } else {
        if p.LoneEscape? { PrintStart(tail); }
        StripByte(if p.LoneEscape? then 27 else p.b, Print(tail));
      }
    }
  }

  lemma StripNothing()
    ensures Strip([]) == []
  {}

  // What a line keeps: no more than 240 bytes, and no spaces at the end.
  ghost predicate KeptOf(kept: Bytes, text: Bytes) {
    var most := if |text| <= 240 then text else text[..240];
    && kept <= most
    && (forall i :: |kept| <= i < |most| ==> most[i] == 32)
    && (kept != [] ==> kept[|kept| - 1] != 32)
  }

  lemma {:induction false} TrimmedAreSpaces(s: Bytes)
    ensures forall i :: |TrimRight(s)| <= i < |s| ==> s[i] == SPACE
    decreases |s|
  {
    if s != [] && s[|s| - 1] == SPACE { TrimmedAreSpaces(s[..|s| - 1]); }
  }

  /**
   Whatever the pieces of a segment, the line gets its visible bytes, the first 240 of them
   and none of the spaces these end in: no escape, no bracket, parameter or final byte of a
   sequence, and nothing of an unfinished one.
   */
  lemma SeenText(raw: Raw)
    requires Valid(raw)
    ensures KeptOf(Sanitized(Print(raw)), Text(raw.pieces))
  {
    StripPrinted(raw);
    TrimmedAreSpaces(Take(Text(raw.pieces), MAX_LINE_BYTES));
  }

  // Where the first byte that ends a sequence stands, or the length.
  lemma {:induction false} FindEnd(s: Bytes) returns (i: nat)
    ensures i <= |s| && NoneEnds(s[..i]) && (i < |s| ==> Ends(s[i]))
  {
    i := 0;
    while i < |s| && !Ends(s[i])
      invariant i <= |s| && NoneEnds(s[..i])
    {
      i := i + 1;
    }
  }

  ghost function Prepend(p: Piece, tail: Raw): (r: Raw)
    requires Valid(tail) && Proper(p) && (p.LoneEscape? ==> !Joins(tail.pieces))
    ensures Valid(r) && Print(r) == PrintPiece(p) + Print(tail)
  {
    assert ([p] + tail.pieces)[1..] == tail.pieces;
    tail.(pieces := [p] + tail.pieces)
  }

  // A text that begins with an escape and a bracket begins with a sequence, or is one unfinished.
  lemma SequenceFirst(s: Bytes) returns (p: Option<Piece>, rest: Bytes)
    requires |s| >= 2 && s[0] == 27 && s[1] == 91
    ensures p.None? ==> NoneEnds(s[2..]) && s == [27, 91] + s[2..]
    ensures p.Some? ==> p.value.Sequence? && Proper(p.value) && s == PrintPiece(p.value) + rest && |rest| < |s|
  {
    var t := s[2..];
    var i := FindEnd(t);
    rest := [];
    if i == |t| {
      p := None;
      assert t[..i] == t;
    } else {
      p, rest := Some(Sequence(t[..i], t[i])), t[i + 1..];
      assert t == t[..i] + [t[i]] + rest;
    }
  }

  /** Every text is the print of some pieces, so `SeenText` speaks of all there are. */
  lemma {:induction false} EveryTextHasPieces(s: Bytes) returns (raw: Raw)
    ensures Valid(raw) && Print(raw) == s
    decreases |s|
  {
    if s == [] {
      raw := Raw([], None);
    } else if |s| >= 2 && s[0] == 27 && s[1] == 91 {
      var p, rest := SequenceFirst(s);
      if p.None? {
        raw := Raw([], Some(s[2..]));
      } else {
        raw := EveryTextHasPieces(rest);
        raw := Prepend(p.value, raw);
      }
    } else {
      var tail := EveryTextHasPieces(s[1..]);
      var p := if s[0] == 27 then LoneEscape else if s[0] < 32 || s[0] == 127 then Invisible(s[0]) else Visible(s[0]);
      assert s == [s[0]] + s[1..];
      if Joins(tail.pieces) { JoinsIsBracket(tail); }
      raw := Prepend(p, tail);
    }
  }

  lemma JoinsIsBracket(raw: Raw)
    requires Joins(raw.pieces)
    ensures Print(raw) != [] && Print(raw)[0] == 91
  {}
}
