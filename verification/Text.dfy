/** The few operations on text that the settings and the digest header rely on. */
module Text {
  // Unicode White_Space.
  predicate Whitespace(c: char) {
    var n := c as int;
    || 9 <= n <= 13 || n == 0x20 || n == 0x85 || n == 0xA0 || n == 0x1680
    || 0x2000 <= n <= 0x200A || n == 0x2028 || n == 0x2029 || n == 0x202F || n == 0x205F || n == 0x3000
  }

  function TrimStart(s: string): (r: string)
    ensures |r| <= |s|
  {
    if s != "" && Whitespace(s[0]) then TrimStart(s[1..]) else s
  }

  function TrimEnd(s: string): (r: string)
    ensures |r| <= |s|
  {
    if s != "" && Whitespace(s[|s| - 1]) then TrimEnd(s[..|s| - 1]) else s
  }

  function Trim(s: string): string { TrimEnd(TrimStart(s)) }

  predicate Solid(s: string) {
    s != "" ==> !Whitespace(s[0]) && !Whitespace(s[|s| - 1])
  }

  /** Trimming leaves exactly the text between outer whitespace. */
  lemma {:induction false} TrimIsSolid(s: string)
    ensures Solid(Trim(s)) && (Solid(s) ==> Trim(s) == s)
  {
    StartIsSolid(s);
    EndIsSolid(TrimStart(s));
  }

  lemma {:induction false} StartIsSolid(s: string)
    ensures TrimStart(s) != "" ==> !Whitespace(TrimStart(s)[0])
  {
    if s != "" && Whitespace(s[0]) { StartIsSolid(s[1..]); }
  }

  lemma {:induction false} EndIsSolid(s: string)
    ensures var t := TrimEnd(s); t <= s && (t != "" ==> !Whitespace(t[|t| - 1]))
  {
    if s != "" && Whitespace(s[|s| - 1]) {
      EndIsSolid(s[..|s| - 1]);
      assert s[..|s| - 1] <= s;
    }
  }

  ghost predicate Blank(s: string) { forall i :: 0 <= i < |s| ==> Whitespace(s[i]) }

  /** What trimming takes away is whitespace on either side, and nothing else. */
  lemma {:induction false} TrimParts(s: string) returns (before: string, after: string)
    ensures s == before + Trim(s) + after && Blank(before) && Blank(after)
  {
    before := StartParts(s);
    after := EndParts(TrimStart(s));
    assert before + (Trim(s) + after) == before + Trim(s) + after;
  }

  lemma {:induction false} StartParts(s: string) returns (before: string)
    ensures s == before + TrimStart(s) && Blank(before)
  {
    if s != "" && Whitespace(s[0]) {
      before := StartParts(s[1..]);
      before := [s[0]] + before;
    } else {
      before := "";
    }
  }

  lemma {:induction false} EndParts(s: string) returns (after: string)
    ensures s == TrimEnd(s) + after && Blank(after)
  {
    if s != "" && Whitespace(s[|s| - 1]) {
      after := EndParts(s[..|s| - 1]);
      after := after + [s[|s| - 1]];
    } else {
      after := "";
    }
  }

  function LowerChar(c: char): char {
    if 'A' <= c <= 'Z' then (c as int + 32) as char else c
  }

  // The same letter in either case.
  ghost predicate SameLetter(a: char, b: char) {
    a == b || ('A' <= a <= 'Z' && b as int == a as int + 32) || ('A' <= b <= 'Z' && a as int == b as int + 32)
  }

  function Lower(s: string): (r: string)
    ensures |r| == |s|
  {
    seq(|s|, i requires 0 <= i < |s| => LowerChar(s[i]))
  }

  /** Two texts are lowered to the same exactly when they are the same but for the case of letters. */
  lemma {:induction false} LowerIgnoresCase(a: string, b: string)
    ensures Lower(a) == Lower(b) <==> |a| == |b| && forall i :: 0 <= i < |a| ==> SameLetter(a[i], b[i])
    ensures forall i :: 0 <= i < |a| ==> SameLetter(a[i], Lower(a)[i]) && !('A' <= Lower(a)[i] <= 'Z')
  {
    if Lower(a) == Lower(b) {
      forall i | 0 <= i < |a| ensures SameLetter(a[i], b[i]) { assert Lower(a)[i] == Lower(b)[i]; }
    }
  }
}
