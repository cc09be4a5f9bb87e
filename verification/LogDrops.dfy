/** When an append drops lines: exactly when it cannot keep them. */
module LogDrops {
  import opened Octets
  import opened LogLines
  import opened BoundedLog

  // The bytes of the lines from the given one on, the last one's newline included.
  function Bulk(h: History, from: nat): nat
    requires from <= |h.lines|
  {
    |Block(h.lines[from..], false)|
  }

  lemma {:induction false} BulkGrows(h: History, raw: Bytes, from: nat)
    requires Sound(h) && from <= |h.lines|
    ensures from <= |Grow(h, raw).lines| && Bulk(Grow(h, raw), from) >= Bulk(h, from)
  {
    var n := Room(h, raw);
    if n > 0 {
      var piece, lines := Sanitized(raw)[..n], h.lines[from..];
      if !h.open {
        assert Grow(h, raw).lines[from..] == lines + [piece];
        BlockNewLine(lines, piece);
        BlockClosed(lines + [piece]);
      } else if lines != [] {
        assert Grow(h, raw).lines[from..] == lines[|lines| - 1 := lines[|lines| - 1] + piece];
        BlockLongerLine(lines, piece);
        BlockClosed(lines);
        BlockClosed(lines[|lines| - 1 := lines[|lines| - 1] + piece]);
      }
    }
  }

  lemma {:induction false} BulkGrowsAll(h: History, segments: seq<Bytes>, from: nat)
    requires Sound(h) && from <= |h.lines|
    ensures from <= |GrowAll(h, segments).lines| && Bulk(GrowAll(h, segments), from) >= Bulk(h, from)
    decreases |segments|
  {
    if segments != [] {
      BulkGrows(End(h), segments[0], from);
      GrowSound(End(h), segments[0]);
      BulkGrowsAll(Grow(End(h), segments[0]), segments[1..], from);
    }
  }

  lemma ExtendDrops(n: nat, l: Log, raw: Bytes)
    requires Fits(n, l)
    ensures var g, e := Grow(l.h, raw), Extend(n, l, raw);
      && l.dropped <= e.dropped && e.h == g
      && (e.dropped > l.dropped ==> l.dropped <= |g.lines| && Bulk(g, l.dropped) > n)
  {
    var length := Room(l.h, raw);
    if length > 0 {
      var g := l.(h := Grow(l.h, raw));
      GrowSound(l.h, raw);
      GrowStored(l, raw);
      BlockClosed(Kept(g));
    }
  }

  lemma {:induction false} ExtendAllDrops(n: nat, l: Log, segments: seq<Bytes>)
    requires Fits(n, l) && n / 4 > MAX_LINE_BYTES
    ensures var g, e := GrowAll(l.h, segments), ExtendAll(n, l, segments);
      && l.dropped <= e.dropped
      && (e.dropped > l.dropped ==> l.dropped <= |g.lines| && Bulk(g, l.dropped) > n)
    decreases |segments|
  {
    if segments != [] {
      var t := Terminate(l);
      TerminateFits(n, l);
      ExtendDrops(n, t, segments[0]);
      ExtendFits(n, t, segments[0]);
      var e := Extend(n, t, segments[0]);
      if e.dropped > l.dropped { BulkGrowsAll(e.h, segments[1..], l.dropped); }
      ExtendAllDrops(n, e, segments[1..]);
    }
  }

  /**
   An append drops lines if and only if the lines held, with what it adds and a newline at
   the end, are more than the capacity.
   */
  lemma DropsExactly(n: nat, l: Log, chunk: Bytes)
    requires Fits(n, l) && n / 4 > MAX_LINE_BYTES
    ensures var all, r := Logged(l.h, chunk), Append(n, l, chunk);
      && l.dropped <= r.dropped && l.dropped <= |all.lines|
      && (r.dropped > l.dropped <==> Bulk(all, l.dropped) > n)
  {
    var s := Segments(chunk);
    var r := Append(n, l, chunk);
    AppendFits(n, l, chunk);
    ExtendDrops(n, l, s[0]);
    ExtendFits(n, l, s[0]);
    var e := Extend(n, l, s[0]);
    if e.dropped > l.dropped { BulkGrowsAll(e.h, s[1..], l.dropped); }
    ExtendAllDrops(n, e, s[1..]);
    if Kept(r) != [] { BlockClosed(Kept(r)); }
  }

  // The lines from the first one kept on are within the limit, and those from the one before it are not.
  ghost predicate KeepsMost(l: Log, r: Log, limit: nat) {
    && r.h == l.h && l.dropped <= r.dropped <= |l.h.lines|
    && |Block(l.h.lines[r.dropped..], l.h.open)| <= limit
    && (r.dropped > l.dropped ==> |Block(l.h.lines[r.dropped - 1..], l.h.open)| > limit)
  }

  lemma DropKeepsMost(l: Log, limit: nat)
    requires Sound(l.h) && l.dropped <= |l.h.lines| && (l.h.open ==> l.dropped < |l.h.lines|) && limit >= MAX_LINE_BYTES
    ensures KeepsMost(l, DropTo(l, limit), limit)
  {
    hide Block, Clean;
    var k := Surplus(Kept(l), l.h.open, limit);
    SurplusFits(Kept(l), l.h.open, limit);
    assert Kept(l)[k..] == l.h.lines[l.dropped + k..];
    if k > 0 { assert Kept(l)[k - 1..] == l.h.lines[l.dropped + k - 1..]; }
  }

  /** An eviction keeps as many of the last lines as three quarters of the capacity hold; a copy, as its own holds. */
  lemma DropsNoMore(n: nat, m: nat, l: Log)
    requires Fits(n, l) && n > 960 && m > 960
    ensures KeepsMost(l, Evict(n, l), n - n / 4) && KeepsMost(l, Copy(m, l), m - 1)
  {
    DropKeepsMost(l, n - n / 4);
    DropKeepsMost(l, m - 1);
    hide KeepsMost, Fits;
  }
}
