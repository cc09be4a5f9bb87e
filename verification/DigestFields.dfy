/** Digest header parameters: how they are printed and how the device takes them apart. */
module DigestFields {
  import opened Wrappers
  import opened Text

  const SCHEME: string := "Digest "

  type Fields = map<string, string>

  function Find(s: string, c: char): (r: Option<nat>)
    ensures r.Some? ==> r.value < |s| && s[r.value] == c && c !in s[..r.value]
    ensures r.None? <==> c !in s
  {
    if s == "" then None
    else if s[0] == c then Some(0)
    else
      var rest := Find(s[1..], c);
      if rest.None? then None else Some(rest.value + 1)
  }

  function TrimCommas(s: string): (r: string)
    ensures |r| <= |s|
  {
    if s != "" && s[0] == ',' then TrimCommas(s[1..]) else s
  }

  // A value and what follows it.
  datatype Cut = Cut(value: string, rest: string)

  function CutValue(after: string): (r: Option<Cut>)
    ensures r.Some? ==> |r.value.rest| <= |after|
  {
    if after != "" && after[0] == '"' then
      var end := Find(after[1..], '"');
      if end.None? then None else Some(Cut(after[1..][..end.value], after[1..][end.value + 1..]))
    else
      var comma := Find(after, ',');
      if comma.Some? then Some(Cut(Trim(after[..comma.value]), after[comma.value + 1..]))
      else Some(Cut(Trim(after), ""))
  }

  function Next(rest: string): (r: string)
    ensures |r| <= |rest|
  {
    TrimStart(TrimCommas(TrimStart(rest)))
  }

  function ParseParams(rest: string, fields: Fields): Option<Fields>
    decreases |rest|
  {
    if rest == "" then Some(fields)
    else
      var eq := Find(rest, '=');
      if eq.None? then None
      else
        var cut := CutValue(rest[eq.value + 1..]);
        if cut.None? then None
        else ParseParams(Next(cut.value.rest), fields[Lower(Trim(rest[..eq.value])) := cut.value.value])
  }

  function Parse(header: string): Option<Fields> {
    if SCHEME <= header then ParseParams(TrimStart(header[|SCHEME|..]), map[]) else None
  }

  lemma ParseTurn(rest: string, fields: Fields)
    requires rest != ""
    ensures var eq := Find(rest, '=');
      if eq.None? || CutValue(rest[eq.value + 1..]).None? then ParseParams(rest, fields) == None
      else
        var cut := CutValue(rest[eq.value + 1..]).value;
        ParseParams(rest, fields) == ParseParams(Next(cut.rest), fields[Lower(Trim(rest[..eq.value])) := cut.value])
  {}

  method ParseDigestFields(header: string) returns (r: Option<Fields>)
    ensures r == Parse(header)
  {
    if !(SCHEME <= header) {
      return None;
    }
    var fields: Fields := map[];
    var rest := TrimStart(header[|SCHEME|..]);
    hide Find, CutValue, TrimStart, TrimCommas, Lower, Trim, ParseParams, Next;
    while rest != ""
      invariant ParseParams(rest, fields) == Parse(header)
      decreases |rest|
    {
      ParseTurn(rest, fields);
      var eq := Find(rest, '=');
      if eq.None? {
        return None;
      }
      var after := rest[eq.value + 1..];
      var cut := CutValue(after);
      if cut.None? {
        return None;
      }
      fields := fields[Lower(Trim(rest[..eq.value])) := cut.value.value];
      rest := Next(cut.value.rest);
    }
    return Some(fields);
  }

  // ----- printing ------------------------------------------------------------------------

  datatype Param = Quoted(name: string, value: string) | Bare(name: string, value: string)

  function Show(p: Param): string {
    p.name + "=" + (if p.Quoted? then "\"" + p.value + "\"" else p.value)
  }

  function Join(ps: seq<Param>): string {
    if ps == [] then "" else if |ps| == 1 then Show(ps[0]) else Show(ps[0]) + ", " + Join(ps[1..])
  }

  predicate NameStands(name: string) { '=' !in name && Solid(name) && (name != "" ==> name[0] != ',') }

  // A parameter that can be told apart again: no quote in a quoted value, and a bare
  // value or a name that does not run into what is around it.
  predicate Printable(p: Param) {
    && NameStands(p.name)
    && if p.Quoted? then '"' !in p.value
       else ',' !in p.value && Solid(p.value) && (p.value != "" ==> p.value[0] != '"')
  }

  ghost predicate AllPrintable(ps: seq<Param>) { forall i :: 0 <= i < |ps| ==> Printable(ps[i]) }

  function Collect(ps: seq<Param>, fields: Fields): Fields
    decreases |ps|
  {
    if ps == [] then fields else Collect(ps[1..], fields[Lower(ps[0].name) := ps[0].value])
  }

  ghost predicate Told(ps: seq<Param>) {
    forall i, j :: 0 <= i < j < |ps| ==> Lower(ps[i].name) != Lower(ps[j].name)
  }

  lemma {:induction false} CollectKeeps(ps: seq<Param>, fields: Fields, key: string)
    requires forall i :: 0 <= i < |ps| ==> Lower(ps[i].name) != key
    ensures key in Collect(ps, fields) <==> key in fields
    ensures key in fields ==> Collect(ps, fields)[key] == fields[key]
    decreases |ps|
  {
    hide Lower;
    if ps != [] {
      CollectKeeps(ps[1..], fields[Lower(ps[0].name) := ps[0].value], key);
    }
  }

  lemma {:induction false} CollectHas(ps: seq<Param>, fields: Fields, i: nat)
    requires Told(ps) && i < |ps|
    ensures var key := Lower(ps[i].name); key in Collect(ps, fields) && Collect(ps, fields)[key] == ps[i].value
    decreases |ps|
  {
    hide Lower;
    var next := fields[Lower(ps[0].name) := ps[0].value];
    if i == 0 {
      CollectKeeps(ps[1..], next, Lower(ps[0].name));
    } else {
      CollectHas(ps[1..], next, i - 1);
    }
  }

  lemma {:induction false} FindAt(a: string, c: char, b: string)
    requires c !in a
    ensures Find(a + [c] + b, c) == Some(|a|)
  {
    if a != "" {
      FindAt(a[1..], c, b);
      assert (a + [c] + b)[1..] == a[1..] + [c] + b;
    }
  }

  lemma StartStays(s: string)
    requires s == "" || !Whitespace(s[0])
    ensures TrimStart(s) == s
  {}

  // What separates two parameters is skipped, and no more.
  lemma NextStarts(join: string)
    requires join != "" && !Whitespace(join[0]) && join[0] != ','
    ensures Next(", " + join) == join && Next(" " + join) == join
  {
    assert (" " + join)[1..] == join && (", " + join)[1..] == " " + join;
    assert TrimStart(" " + join) == TrimStart(join) == join;
    assert TrimStart(", " + join) == ", " + join;
    assert TrimCommas(", " + join) == TrimCommas(" " + join) == " " + join;
    assert TrimCommas(join) == join;
  }

  lemma ShownStarts(p: Param, tail: string)
    requires Printable(p)
    ensures var s := Show(p) + tail; s != "" && !Whitespace(s[0]) && s[0] != ','
  {
    if p.name != "" { assert (Show(p) + tail)[0] == p.name[0]; }
  }

  lemma NameParses(p: Param, tail: string)
    requires Printable(p)
    ensures var s := Show(p) + tail;
      && Find(s, '=') == Some(|p.name|) && Lower(Trim(s[..|p.name|])) == Lower(p.name)
      && s[|p.name| + 1..] == Show(p)[|p.name| + 1..] + tail
  {
    var value := Show(p)[|p.name| + 1..];
    assert Show(p) + tail == p.name + ['='] + (value + tail);
    FindAt(p.name, '=', value + tail);
    TrimIsSolid(p.name);
    assert (Show(p) + tail)[..|p.name|] == p.name;
  }

  lemma QuotedParses(value: string, tail: string)
    requires '"' !in value
    ensures CutValue("\"" + value + "\"" + tail) == Some(Cut(value, tail))
  {
    var after := "\"" + value + "\"" + tail;
    FindAt(value, '"', tail);
    hide Find;
    assert after[1..] == value + ['"'] + tail;
    assert after[1..][..|value|] == value && after[1..][|value| + 1..] == tail;
  }

  lemma BareParses(value: string, tail: string)
    requires ',' !in value && Solid(value) && (value != "" ==> value[0] != '"')
    requires tail == "" || tail[0] == ','
    ensures CutValue(value + tail) == Some(Cut(value, if tail == "" then "" else tail[1..]))
  {
    var after := value + tail;
    TrimIsSolid(value);
    if tail == "" {
      assert after == value;
    } else {
      FindAt(value, ',', tail[1..]);
      hide Find, Trim;
      assert after == value + [','] + tail[1..];
      assert after[..|value|] == value && after[|value| + 1..] == tail[1..];
      assert after[0] != '"';
    }
  }

  // One printed parameter and what comes after it.
  lemma ParamParses(p: Param, tail: string, fields: Fields)
    requires Printable(p) && (tail == "" || tail[0] == ',')
    ensures ParseParams(Show(p) + tail, fields) ==
      ParseParams(Next(if p.Quoted? || tail == "" then tail else tail[1..]), fields[Lower(p.name) := p.value])
  {
    var after := Show(p)[|p.name| + 1..] + tail;
    NameParses(p, tail);
    if p.Quoted? {
      QuotedParses(p.value, tail);
      assert after == "\"" + p.value + "\"" + tail;
    } else {
      BareParses(p.value, tail);
      assert after == p.value + tail;
    }
    hide Find, CutValue, Trim, Lower, Next;
  }

  lemma JoinStarts(ps: seq<Param>)
    requires AllPrintable(ps) && ps != []
    ensures Join(ps) != "" && !Whitespace(Join(ps)[0]) && Join(ps)[0] != ','
  {
    var tail := if |ps| == 1 then "" else ", " + Join(ps[1..]);
    assert Join(ps) == Show(ps[0]) + tail;
    ShownStarts(ps[0], tail);
  }

  lemma JoinStep(ps: seq<Param>, fields: Fields)
    requires AllPrintable(ps) && ps != []
    ensures ParseParams(Join(ps), fields) == ParseParams(Join(ps[1..]), fields[Lower(ps[0].name) := ps[0].value])
  {
    var more := ps[1..];
    var tail := if more == [] then "" else ", " + Join(more);
    assert Join(ps) == Show(ps[0]) + tail;
    if more == [] {
      assert Next("") == "" == Join(more);
    } else {
      JoinStarts(more);
      NextStarts(Join(more));
      assert tail[1..] == " " + Join(more);
    }
    hide Show, Join, Next, Lower, ParseParams;
    ParamParses(ps[0], tail, fields);
  }

  lemma {:induction false} JoinParses(ps: seq<Param>, fields: Fields)
    requires AllPrintable(ps)
    ensures ParseParams(Join(ps), fields) == Some(Collect(ps, fields))
    decreases |ps|
  {
    if ps != [] {
      JoinStep(ps, fields);
      JoinParses(ps[1..], fields[Lower(ps[0].name) := ps[0].value]);
      hide ParseParams, Join, Lower, Printable;
    }
  }

  /**
   A header printed from printable parameters is taken apart again: with names that
   differ, each name has its own value, and there are no others.
   */
  lemma PrintedHeaderParses(ps: seq<Param>)
    requires AllPrintable(ps) && Told(ps)
    ensures var r := Parse(SCHEME + Join(ps));
      && r.Some?
      && (forall i :: 0 <= i < |ps| ==> Lower(ps[i].name) in r.value && r.value[Lower(ps[i].name)] == ps[i].value)
      && (forall key :: key in r.value ==> exists i :: 0 <= i < |ps| && key == Lower(ps[i].name))
  {
    JoinParses(ps, map[]);
    if ps != [] { JoinStarts(ps); }
    StartStays(Join(ps));
    assert (SCHEME + Join(ps))[|SCHEME|..] == Join(ps);
    assert SCHEME <= SCHEME + Join(ps);
    hide Lower, ParseParams, Join, Printable;
    var all := Collect(ps, map[]);
    forall i | 0 <= i < |ps| ensures Lower(ps[i].name) in all && all[Lower(ps[i].name)] == ps[i].value {
      CollectHas(ps, map[], i);
    }
    forall key | key in all ensures exists i :: 0 <= i < |ps| && key == Lower(ps[i].name) {
      if forall i :: 0 <= i < |ps| ==> Lower(ps[i].name) != key { CollectKeeps(ps, map[], key); }
    }
  }
}
