/** One-minute playout quality counts in one-second buckets, and the direct count they must equal. */
module Quality {
  import opened Wrappers
  import opened WallSeconds

  datatype QualityEvent = AudioPackets | SilencePackets | MissingPackets | LatePackets | Underruns | Disconnects

  type Counts = map<QualityEvent, nat>

  function Get(counts: Counts, e: QualityEvent): nat { if e in counts then counts[e] else 0 }

  datatype Tally = Tally(second: int, counts: Counts)

  datatype Window = Window(started: Option<real>, buckets: seq<Tally>)

  const EMPTY := Window(None, [])

  function Expire(buckets: seq<Tally>, second: int): seq<Tally> {
    if buckets != [] && buckets[0].second <= second - WINDOW then Expire(buckets[1..], second) else buckets
  }

  function Push(buckets: seq<Tally>, b: Tally): seq<Tally> {
    (if |buckets| >= WINDOW then buckets[|buckets| - WINDOW + 1..] else buckets) + [b]
  }

  // The bucket for `second` is the newest one, opened when it is not there yet.
  function Open(buckets: seq<Tally>, second: int): (r: seq<Tally>)
    ensures r != []
  {
    if buckets == [] || buckets[|buckets| - 1].second != second then Push(buckets, Tally(second, map[])) else buckets
  }

  function Bump(buckets: seq<Tally>, e: QualityEvent): seq<Tally>
    requires buckets != []
  {
    var last := |buckets| - 1;
    var b := buckets[last];
    buckets[last := b.(counts := b.counts[e := Get(b.counts, e) + 1])]
  }

  function Record(w: Window, e: QualityEvent, now: real): Window {
    Window(if w.started.None? then Some(now) else w.started,
           Bump(Open(Expire(w.buckets, Second(now)), Second(now)), e))
  }

  function Refresh(w: Window, now: real): Window {
    w.(buckets := Expire(w.buckets, Second(now)))
  }

  function Total(buckets: seq<Tally>, e: QualityEvent): nat {
    if buckets == [] then 0 else Total(buckets[..|buckets| - 1], e) + Get(buckets[|buckets| - 1].counts, e)
  }

  function ObservedSeconds(w: Window, now: real): real {
    if w.started.None? then 0.0 else MinR(WINDOW as real, MaxR(0.0, now - w.started.value))
  }

  // ----- the direct count -------------------------------------------------------

  datatype Noted = Noted(event: QualityEvent, at: real)

  ghost function DirectCount(log: seq<Noted>, e: QualityEvent, cutoff: int): nat {
    if log == [] then 0
    else
      var x := log[|log| - 1];
      DirectCount(log[..|log| - 1], e, cutoff) + (if x.event == e && Second(x.at) > cutoff then 1 else 0)
  }

  ghost function TotalAfter(buckets: seq<Tally>, e: QualityEvent, cutoff: int): nat {
    if buckets == [] then 0
    else
      var b := buckets[|buckets| - 1];
      TotalAfter(buckets[..|buckets| - 1], e, cutoff) + (if b.second > cutoff then Get(b.counts, e) else 0)
  }

  ghost predicate Increasing(buckets: seq<Tally>) {
    forall j, k :: 0 <= j < k < |buckets| ==> buckets[j].second < buckets[k].second
  }

  ghost predicate Within(buckets: seq<Tally>, low: int, high: int) {
    forall k :: 0 <= k < |buckets| ==> low < buckets[k].second <= high
  }

  ghost predicate SameCounts(buckets: seq<Tally>, log: seq<Noted>, from: int) {
    forall e, c :: c >= from ==> TotalAfter(buckets, e, c) == DirectCount(log, e, c)
  }

  ghost predicate Agrees(w: Window, log: seq<Noted>, clock: real) {
    && Increasing(w.buckets) && Within(w.buckets, Second(clock) - WINDOW, Second(clock))
    && SameCounts(w.buckets, log, Second(clock) - WINDOW)
  }

  lemma {:induction false} FrontSplit(buckets: seq<Tally>, e: QualityEvent, cutoff: int)
    requires buckets != []
    ensures TotalAfter(buckets, e, cutoff)
         == TotalAfter(buckets[1..], e, cutoff) + (if buckets[0].second > cutoff then Get(buckets[0].counts, e) else 0)
    decreases |buckets|
  {
    var n := |buckets|;
    if n > 1 {
      FrontSplit(buckets[..n - 1], e, cutoff);
      assert buckets[..n - 1][1..] == buckets[1..][..n - 2];
    }
  }

  lemma {:induction false} ExpireKeeps(buckets: seq<Tally>, second: int, clock: int)
    requires Increasing(buckets) && Within(buckets, clock - WINDOW, clock) && clock <= second
    ensures Increasing(Expire(buckets, second)) && Within(Expire(buckets, second), second - WINDOW, clock)
    ensures forall e, c :: c >= second - WINDOW ==>
              TotalAfter(Expire(buckets, second), e, c) == TotalAfter(buckets, e, c)
    decreases |buckets|
  {
    if buckets != [] && buckets[0].second <= second - WINDOW {
      forall e, c | c >= second - WINDOW ensures TotalAfter(buckets[1..], e, c) == TotalAfter(buckets, e, c) {
        FrontSplit(buckets, e, c);
      }
      ExpireKeeps(buckets[1..], second, clock);
    }
  }

  lemma {:induction false} BucketsFit(buckets: seq<Tally>, low: int, high: int)
    requires Increasing(buckets) && Within(buckets, low, high) && low <= high
    ensures |buckets| <= high - low
    decreases |buckets|
  {
    if buckets != [] {
      var n := |buckets|;
      BucketsFit(buckets[..n - 1], low, buckets[n - 1].second - 1);
    }
  }

  lemma OpenKeeps(buckets: seq<Tally>, second: int, clock: int)
    requires Increasing(buckets) && Within(buckets, second - WINDOW, clock) && clock <= second
    ensures var r := Open(buckets, second);
      && Increasing(r) && Within(r, second - WINDOW, second) && r[|r| - 1].second == second
      && forall e, c :: TotalAfter(r, e, c) == TotalAfter(buckets, e, c)
  {
    var r := Open(buckets, second);
    if r != buckets {
      forall k | 0 <= k < |buckets| ensures buckets[k].second < second {
        if k < |buckets| - 1 { assert buckets[k].second < buckets[|buckets| - 1].second; }
      }
      BucketsFit(buckets, second - WINDOW, second - 1);
      assert r == buckets + [Tally(second, map[])];
      assert r[..|r| - 1] == buckets;
    }
  }

  lemma BumpKeeps(buckets: seq<Tally>, e: QualityEvent, second: int)
    requires Increasing(buckets) && Within(buckets, second - WINDOW, second)
    requires buckets != [] && buckets[|buckets| - 1].second == second
    ensures var r := Bump(buckets, e);
      && Increasing(r) && Within(r, second - WINDOW, second)
      && forall f, c :: TotalAfter(r, f, c) == TotalAfter(buckets, f, c) + (if f == e && second > c then 1 else 0)
  {
    var r, last := Bump(buckets, e), |buckets| - 1;
    assert r[..last] == buckets[..last];
    assert forall f :: Get(r[last].counts, f) == Get(buckets[last].counts, f) + (if f == e then 1 else 0);
  }

  /** Recording an event adds it to the direct count and to the buckets alike. */
  lemma RecordAgrees(w: Window, log: seq<Noted>, clock: real, e: QualityEvent, now: real)
    requires Agrees(w, log, clock) && clock <= now
    ensures Agrees(Record(w, e, now), log + [Noted(e, now)], now)
  {
    var s := Second(now);
    SecondMonotone(clock, now);
    ExpireKeeps(w.buckets, s, Second(clock));
    var kept := Expire(w.buckets, s);
    OpenKeeps(kept, s, Second(clock));
    var newest := Open(kept, s);
    BumpKeeps(newest, e, s);
    var all := log + [Noted(e, now)];
    assert all[..|log|] == log;
    forall f, c | c >= s - WINDOW ensures TotalAfter(Bump(newest, e), f, c) == DirectCount(all, f, c) {
      assert TotalAfter(kept, f, c) == TotalAfter(w.buckets, f, c) == DirectCount(log, f, c);
    }
  }

  lemma RefreshAgrees(w: Window, log: seq<Noted>, clock: real, now: real)
    requires Agrees(w, log, clock) && clock <= now
    ensures Agrees(Refresh(w, now), log, now)
  {
    SecondMonotone(clock, now);
    ExpireKeeps(w.buckets, Second(now), Second(clock));
    forall e, c | c >= Second(now) - WINDOW
      ensures TotalAfter(Refresh(w, now).buckets, e, c) == DirectCount(log, e, c)
    {
      assert TotalAfter(Refresh(w, now).buckets, e, c) == TotalAfter(w.buckets, e, c);
    }
  }

  lemma {:induction false} TotalIsAfter(buckets: seq<Tally>, e: QualityEvent, low: int, high: int)
    requires Within(buckets, low, high)
    ensures Total(buckets, e) == TotalAfter(buckets, e, low)
    decreases |buckets|
  {
    if buckets != [] { TotalIsAfter(buckets[..|buckets| - 1], e, low, high); }
  }

  /** The reported total of each event is the number recorded in the last sixty whole seconds. */
  lemma SnapshotCounts(w: Window, log: seq<Noted>, clock: real, now: real, e: QualityEvent)
    requires Agrees(w, log, clock) && clock <= now
    ensures Total(Refresh(w, now).buckets, e) == DirectCount(log, e, Second(now) - WINDOW)
    ensures |Refresh(w, now).buckets| <= WINDOW
  {
    RefreshAgrees(w, log, clock, now);
    var buckets, s := Refresh(w, now).buckets, Second(now);
    TotalIsAfter(buckets, e, s - WINDOW, s);
    BucketsFit(buckets, s - WINDOW, s);
  }

  // The uses of a window: an event noted, or the totals asked for.
  datatype Use = Recorded(event: QualityEvent, at: real) | Polled(at: real)

  ghost function UseAll(w: Window, uses: seq<Use>): Window {
    if uses == [] then w
    else
      var before, x := UseAll(w, uses[..|uses| - 1]), uses[|uses| - 1];
      if x.Recorded? then Record(before, x.event, x.at) else Refresh(before, x.at)
  }

  // The events among them; what was asked in between does not count.
  ghost function EventsOf(uses: seq<Use>): seq<Noted> {
    if uses == [] then []
    else
      var before, x := EventsOf(uses[..|uses| - 1]), uses[|uses| - 1];
      if x.Recorded? then before + [Noted(x.event, x.at)] else before
  }

  ghost predicate Ordered(uses: seq<Use>) {
    forall i, j :: 0 <= i < j < |uses| ==> uses[i].at <= uses[j].at
  }

  /**
   Over any run with a monotone clock, every snapshot equals the direct count of the
   events recorded, however often the window was polled in between.
   */
  lemma {:induction false} RunCounts(uses: seq<Use>, now: real, e: QualityEvent)
    requires Ordered(uses) && (uses != [] ==> uses[|uses| - 1].at <= now)
    ensures Total(Refresh(UseAll(EMPTY, uses), now).buckets, e) == DirectCount(EventsOf(uses), e, Second(now) - WINDOW)
  {
    if uses == [] {
      assert Agrees(EMPTY, [], now);
      SnapshotCounts(EMPTY, [], now, now, e);
    } else {
      RunAgrees(uses);
      SnapshotCounts(UseAll(EMPTY, uses), EventsOf(uses), uses[|uses| - 1].at, now, e);
    }
  }

  lemma {:induction false} StartedAtFirst(uses: seq<Use>)
    ensures var log := EventsOf(uses);
      UseAll(EMPTY, uses).started == if log == [] then None else Some(log[0].at)
  {
    if uses != [] { StartedAtFirst(uses[..|uses| - 1]); }
  }

  /** The reported period is the time since the first event, at most a minute and never negative. */
  lemma ObservedSinceFirst(uses: seq<Use>, now: real)
    ensures var log, period := EventsOf(uses), ObservedSeconds(UseAll(EMPTY, uses), now);
      && (log == [] ==> period == 0.0)
      && (log != [] && 0.0 <= now - log[0].at <= 60.0 ==> period == now - log[0].at)
      && (log != [] && now - log[0].at > 60.0 ==> period == 60.0)
      && (log != [] && now < log[0].at ==> period == 0.0)
  {
    StartedAtFirst(uses);
    hide UseAll, EventsOf;
  }

  lemma {:induction false} RunAgrees(uses: seq<Use>)
    requires Ordered(uses) && uses != []
    ensures Agrees(UseAll(EMPTY, uses), EventsOf(uses), uses[|uses| - 1].at)
    decreases |uses|
  {
    var n := |uses|;
    var before, x := uses[..n - 1], uses[n - 1];
    var clock := if n == 1 then x.at else uses[n - 2].at;
    if n == 1 {
      assert Agrees(EMPTY, [], x.at);
    } else {
      RunAgrees(before);
    }
    var w, log := UseAll(EMPTY, before), EventsOf(before);
    hide Agrees, Record, Refresh;
    if x.Recorded? {
      RecordAgrees(w, log, clock, x.event, x.at);
    } else {
      RefreshAgrees(w, log, clock, x.at);
    }
  }
}
