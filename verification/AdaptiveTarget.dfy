/**
 The adaptive jitter target: one-second buckets of relative transit time over
 the last minute, raised at once and released one step per clean minute.
 */
module AdaptiveTarget {
  import opened Wrappers
  import opened WallSeconds

  const CLEAN_SECONDS: real := 60.0
  const STEP_SECONDS: real := 0.05
  const SLACK: real := 0.000000001

  function Ceil(x: real): int { -((-x).Floor) }

  datatype Bucket = Bucket(second: int, low: real, high: real)

  datatype Adaptive = Adaptive(
    minimum: int, maximum: int, target: int, interval: real, step: int,
    history: seq<Bucket>, transit: real,
    lastArrival: Option<real>, lastChange: Option<real>, lastImpairment: Option<real>)
  {
    predicate Valid() {
      1 <= minimum <= target <= maximum && interval > 0.0 && step >= 1
    }
  }

  function StepFor(interval: real): int
    requires interval > 0.0
  {
    Max(1, Ceil(STEP_SECONDS / interval))
  }

  function Fresh(minimum: int, maximum: int, interval: real): Adaptive
    requires interval > 0.0
  {
    Adaptive(minimum, maximum, minimum, interval, StepFor(interval), [], 0.0, None, None, None)
  }

  function ResetArrivals(a: Adaptive): Adaptive {
    a.(history := [], lastArrival := None, lastChange := None)
  }

  // Drop the buckets a minute or more older than `second`.
  function Expire(history: seq<Bucket>, second: int): seq<Bucket> {
    if history != [] && history[0].second <= second - WINDOW then Expire(history[1..], second) else history
  }

  // A bounded deque of WINDOW buckets loses its oldest bucket when a full one grows.
  function Push(history: seq<Bucket>, b: Bucket): seq<Bucket> {
    (if |history| >= WINDOW then history[|history| - WINDOW + 1..] else history) + [b]
  }

  function Tally(history: seq<Bucket>, second: int, transit: real): seq<Bucket> {
    if history != [] && history[|history| - 1].second == second then
      var b := history[|history| - 1];
      history[|history| - 1 := Bucket(second, MinR(b.low, transit), MaxR(b.high, transit))]
    else
      Push(history, Bucket(second, transit, transit))
  }

  function High(history: seq<Bucket>): real
    requires history != []
  {
    if |history| == 1 then history[0].high else MaxR(history[0].high, High(history[1..]))
  }

  function Low(history: seq<Bucket>): real
    requires history != []
  {
    if |history| == 1 then history[0].low else MinR(history[0].low, Low(history[1..]))
  }

  // How long so many packets play.
  function StreamTime(packets: int, interval: real): real { packets as real * interval }

  // Whole steps of `unit` that cover the delay beyond the rounding slack.
  function StepsFor(delay: real, unit: real): int
    requires unit > 0.0
  {
    Ceil(MaxR(0.0, delay - SLACK) / unit)
  }

  function Depth(minimum: int, maximum: int, step: int, interval: real, delay: real): int
    requires StreamTime(step, interval) > 0.0
  {
    Min(maximum, minimum + StepsFor(delay, StreamTime(step, interval)) * step)
  }

  lemma StepTime(step: int, interval: real)
    requires step >= 1 && interval > 0.0
    ensures StreamTime(step, interval) > 0.0
  {}

  function Required(a: Adaptive, delay: real): int
    requires a.Valid()
  {
    StepTime(a.step, a.interval);
    Depth(a.minimum, a.maximum, a.step, a.interval, delay)
  }

  predicate Clean(a: Adaptive, now: real) {
    && a.lastChange.Some? && now - a.lastChange.value >= CLEAN_SECONDS
    && (a.lastImpairment.None? || now - a.lastImpairment.value >= CLEAN_SECONDS)
  }

  predicate Ignored(advance: Option<int>) {
    advance.Some? && advance.value <= 0
  }

  // Stream time since the previous arrival; None starts a new window.
  function Passed(a: Adaptive, advance: Option<int>): Option<real> {
    if a.lastArrival.None? || advance.None? then None else Some(StreamTime(advance.value, a.interval))
  }

  // Fold one arrival into the window.
  function Land(a: Adaptive, passed: Option<real>, now: real): (r: Adaptive)
    requires passed.Some? ==> a.lastArrival.Some?
    ensures r.history != []
  {
    var b := if passed.None?
             then ResetArrivals(a).(transit := 0.0, lastChange := Some(now))
             else a.(transit := a.transit + (now - a.lastArrival.value - passed.value));
    b.(lastArrival := Some(now), history := Tally(Expire(b.history, Second(now)), Second(now), b.transit))
  }

  function Arrive(a: Adaptive, advance: Option<int>, now: real): (r: Adaptive)
    ensures r.history != []
  {
    Land(a, Passed(a, advance), now)
  }

  function Retarget(a: Adaptive, required: int, now: real): Adaptive {
    if required > a.target then a.(target := required, lastChange := Some(now))
    else if Clean(a, now) then a.(target := Max(required, a.target - a.step), lastChange := Some(now))
    else a
  }

  function Observe(a: Adaptive, advance: Option<int>, now: real): Adaptive
    requires a.Valid()
  {
    if Ignored(advance) then a
    else
      var b := Arrive(a, advance, now);
      Retarget(b, Required(b, High(b.history) - Low(b.history)), now)
  }

  function Impair(a: Adaptive, now: real): Adaptive {
    var target := if a.lastImpairment.None? || now - a.lastImpairment.value >= 1.0
                  then Min(a.maximum, a.target + a.step) else a.target;
    a.(target := target, lastImpairment := Some(now), lastChange := Some(now))
  }

  // ----- bounds and the jitter guarantee ------------------------------------

  lemma CeilCovers(x: real, unit: real)
    requires unit > 0.0 && x >= 0.0
    ensures Ceil(x / unit) >= 0
    ensures Ceil(x / unit) as real * unit >= x
  {
    var q := x / unit;
    assert q * unit == x;
    assert Ceil(q) as real >= q;
    assert (Ceil(q) as real - q) * unit >= 0.0;
  }

  lemma Regroup(steps: int, step: int, interval: real)
    ensures StreamTime(steps * step, interval) == steps as real * StreamTime(step, interval)
  {
    assert (steps * step) as real == steps as real * step as real;
  }

  lemma Scale(a: int, b: int, interval: real)
    requires a >= b && interval > 0.0
    ensures StreamTime(a, interval) >= StreamTime(b, interval)
  {}

  lemma AddScaled(a: int, b: int, interval: real)
    ensures StreamTime(a + b, interval) == StreamTime(a, interval) + StreamTime(b, interval)
  {}

  lemma StepsNonNegative(steps: int, step: int)
    requires steps >= 0 && step >= 1
    ensures steps * step >= 0
  {}

  // A depth counted in packets covers a delay in seconds, or is the whole budget.
  ghost predicate Deep(depth: int, minimum: int, maximum: int, interval: real, delay: real) {
    StreamTime(depth, interval) >= MinR(StreamTime(maximum, interval), StreamTime(minimum, interval) + delay - SLACK)
  }

  lemma RaisedCovers(minimum: int, maximum: int, raised: int, interval: real, delay: real)
    requires 1 <= minimum <= maximum && interval > 0.0 && raised >= 0
    requires StreamTime(raised, interval) >= MaxR(0.0, delay - SLACK)
    ensures minimum <= Min(maximum, minimum + raised) <= maximum
    ensures Deep(Min(maximum, minimum + raised), minimum, maximum, interval, delay)
  {
    hide StreamTime;
    AddScaled(minimum, raised, interval);
  }

  /** The required depth covers the delay, or is the maximum. */
  lemma RequiredCovers(a: Adaptive, delay: real)
    requires a.Valid()
    ensures a.minimum <= Required(a, delay) <= a.maximum
    ensures Deep(Required(a, delay), a.minimum, a.maximum, a.interval, delay)
  {
    hide Ceil, Deep, StreamTime;
    var unit := StreamTime(a.step, a.interval);
    StepTime(a.step, a.interval);
    CeilCovers(MaxR(0.0, delay - SLACK), unit);
    var steps := StepsFor(delay, unit);
    Regroup(steps, a.step, a.interval);
    StepsNonNegative(steps, a.step);
    RaisedCovers(a.minimum, a.maximum, steps * a.step, a.interval, delay);
  }

  lemma RetargetBounds(a: Adaptive, required: int, now: real, delay: real)
    requires a.Valid() && a.minimum <= required <= a.maximum
    requires Deep(required, a.minimum, a.maximum, a.interval, delay)
    ensures var b := Retarget(a, required, now);
      && b == a.(target := b.target, lastChange := b.lastChange)
      && a.minimum <= b.target <= a.maximum && b.target >= a.target - a.step
      && (b.target < a.target ==> Clean(a, now))
      && b.lastChange == (if b.target > a.target || Clean(a, now) then Some(now) else a.lastChange)
      && Deep(b.target, a.minimum, a.maximum, a.interval, delay)
  {
    Scale(Retarget(a, required, now).target, required, a.interval);
  }

  // What one counted arrival does to the target, after `c` has taken it into its window.
  ghost predicate Retargeted(c: Adaptive, now: real, b: Adaptive)
    requires c.history != []
  {
    && b.Valid()
    && b == c.(target := b.target, lastChange := b.lastChange)
    && b.target >= c.target - c.step
    && (b.target < c.target ==> Clean(c, now))
    && b.lastChange == (if b.target > c.target || Clean(c, now) then Some(now) else c.lastChange)
    && Deep(b.target, b.minimum, b.maximum, b.interval, High(b.history) - Low(b.history))
  }

  /**
   One arrival keeps the target in its bounds, covers the window's spread or
   reaches the maximum, and lowers the target only after a clean minute, by at
   most one step.
   */
  lemma ObserveBounds(a: Adaptive, advance: Option<int>, now: real)
    requires a.Valid() && GoesOn(advance)
    ensures Retargeted(Arrive(a, advance, now), now, Observe(a, advance, now))
  {
    var c := Arrive(a, advance, now);
    var delay := High(c.history) - Low(c.history);
    RequiredCovers(c, delay);
    RetargetBounds(c, Required(c, delay), now, delay);
  }

  // ----- the bucketed window against the arrivals themselves -----------------

  // One counted arrival: when it came, and how much stream time had passed.
  datatype Arrival = Arrival(at: real, streamed: real)

  ghost function TransitOf(obs: seq<Arrival>, i: nat): real
    requires i < |obs|
  {
    (obs[i].at - obs[0].at) - (obs[i].streamed - obs[0].streamed)
  }

  ghost predicate Monotone(obs: seq<Arrival>) {
    forall i, j :: 0 <= i < j < |obs| ==> obs[i].at <= obs[j].at
  }

  // An arrival as its bucket sees it.
  datatype Sample = Sample(second: int, transit: real)

  ghost function SampleOf(obs: seq<Arrival>, i: nat): Sample
    requires i < |obs|
  {
    Sample(Second(obs[i].at), TransitOf(obs, i))
  }

  ghost function Samples(obs: seq<Arrival>): set<Sample> {
    set i | 0 <= i < |obs| :: SampleOf(obs, i)
  }

  ghost predicate InBucket(history: seq<Bucket>, k: int, x: Sample) {
    0 <= k < |history| && history[k].second == x.second && history[k].low <= x.transit <= history[k].high
  }

  ghost predicate Increasing(history: seq<Bucket>) {
    forall j, k :: 0 <= j < k < |history| ==> history[j].second < history[k].second
  }

  ghost predicate Attained(history: seq<Bucket>, k: int, xs: set<Sample>)
    requires 0 <= k < |history|
  {
    Sample(history[k].second, history[k].high) in xs && Sample(history[k].second, history[k].low) in xs
  }

  // Buckets later than `cutoff` hold exactly the extremes of the samples later than `cutoff`.
  ghost predicate Covers(history: seq<Bucket>, xs: set<Sample>, cutoff: int) {
    && Increasing(history)
    && (forall k :: 0 <= k < |history| ==> history[k].second > cutoff)
    && (forall x :: x in xs && x.second > cutoff ==> exists k :: InBucket(history, k, x))
    && (forall k :: 0 <= k < |history| ==> Attained(history, k, xs))
  }

  // Expiry only moves the cutoff.
  lemma {:induction false} ExpireCovers(history: seq<Bucket>, xs: set<Sample>, cutoff: int, second: int)
    requires Covers(history, xs, cutoff) && cutoff <= second - WINDOW
    ensures Covers(Expire(history, second), xs, second - WINDOW)
    decreases |history|
  {
    if history != [] && history[0].second <= second - WINDOW {
      var rest, edge := history[1..], history[0].second;
      forall x | x in xs && x.second > edge ensures exists k :: InBucket(rest, k, x) {
        var k :| InBucket(history, k, x);
        assert InBucket(rest, k - 1, x);
      }
      forall k | 0 <= k < |rest| ensures Attained(rest, k, xs) { assert Attained(history, k + 1, xs); }
      ExpireCovers(rest, xs, edge, second);
    }
  }

  // Distinct whole seconds in a minute: the deque never has to drop a live bucket.
  lemma {:induction false} BucketsFit(history: seq<Bucket>, low: int, high: int)
    requires Increasing(history)
    requires forall k :: 0 <= k < |history| ==> low < history[k].second <= high
    requires low <= high
    ensures |history| <= high - low
    decreases |history|
  {
    if history != [] {
      var n := |history|;
      BucketsFit(history[..n - 1], low, history[n - 1].second - 1);
    }
  }

  lemma TallyMerges(history: seq<Bucket>, xs: set<Sample>, x: Sample)
    requires Covers(history, xs, x.second - WINDOW)
    requires history != [] && history[|history| - 1].second == x.second
    ensures Covers(Tally(history, x.second, x.transit), xs + {x}, x.second - WINDOW)
  {
    var after, last := Tally(history, x.second, x.transit), |history| - 1;
    forall y | y in xs + {x} && y.second > x.second - WINDOW ensures exists k :: InBucket(after, k, y) {
      if y == x {
        assert InBucket(after, last, y);
      } else {
        var k :| InBucket(history, k, y);
        assert InBucket(after, k, y);
      }
    }
    forall k | 0 <= k < |after| ensures Attained(after, k, xs + {x}) { assert Attained(history, k, xs); }
  }

  lemma TallyAppends(history: seq<Bucket>, xs: set<Sample>, x: Sample)
    requires Covers(history, xs, x.second - WINDOW)
    requires forall k :: 0 <= k < |history| ==> history[k].second < x.second
    ensures Covers(Tally(history, x.second, x.transit), xs + {x}, x.second - WINDOW)
  {
    BucketsFit(history, x.second - WINDOW, x.second - 1);
    var after := Tally(history, x.second, x.transit);
    assert after == history + [Bucket(x.second, x.transit, x.transit)];
    forall y | y in xs + {x} && y.second > x.second - WINDOW ensures exists k :: InBucket(after, k, y) {
      if y == x {
        assert InBucket(after, |history|, y);
      } else {
        var k :| InBucket(history, k, y);
        assert InBucket(after, k, y);
      }
    }
    forall k | 0 <= k < |after| ensures Attained(after, k, xs + {x}) {
      if k < |history| { assert Attained(history, k, xs); }
    }
  }

  lemma TallyCovers(history: seq<Bucket>, xs: set<Sample>, x: Sample)
    requires forall y :: y in xs ==> y.second <= x.second
    requires Covers(history, xs, x.second - WINDOW)
    ensures Covers(Tally(history, x.second, x.transit), xs + {x}, x.second - WINDOW)
  {
    if history != [] && history[|history| - 1].second == x.second {
      TallyMerges(history, xs, x);
    } else {
      forall k | 0 <= k < |history| ensures history[k].second < x.second {
        var last := |history| - 1;
        assert Attained(history, k, xs) && Attained(history, last, xs);
        assert k < last ==> history[k].second < history[last].second;
      }
      TallyAppends(history, xs, x);
    }
  }

  lemma {:induction false} ExtremesBound(history: seq<Bucket>, k: nat)
    requires k < |history|
    ensures history[k].high <= High(history) && Low(history) <= history[k].low
  {
    if k > 0 { ExtremesBound(history[1..], k - 1); }
  }

  lemma {:induction false} ExtremesAttained(history: seq<Bucket>) returns (h: nat, l: nat)
    requires history != []
    ensures h < |history| && history[h].high == High(history)
    ensures l < |history| && history[l].low == Low(history)
  {
    if |history| == 1 {
      h, l := 0, 0;
    } else {
      var h', l' := ExtremesAttained(history[1..]);
      h := if history[0].high >= High(history[1..]) then 0 else h' + 1;
      l := if history[0].low <= Low(history[1..]) then 0 else l' + 1;
    }
  }

  // ----- whole runs -----------------------------------------------------------

  datatype Event =
    | Observed(advance: Option<int>, now: real)
    | Impaired(now: real)
    | ArrivalsReset

  function Step(a: Adaptive, e: Event): Adaptive
    requires a.Valid()
  {
    match e
    case Observed(advance, now) => Observe(a, advance, now)
    case Impaired(now) => Impair(a, now)
    case ArrivalsReset => ResetArrivals(a)
  }

  // The buffer beside what it should know: every counted arrival since the last
  // reset, and when the target last changed or an impairment last happened.
  ghost predicate Counted(e: Event) { e.Observed? && GoesOn(e.advance) }

  // The first packet, or one that is numbered ahead of those before it.
  ghost predicate GoesOn(advance: Option<int>) { advance.None? || advance.value > 0 }

  ghost function Landed(obs: seq<Arrival>, passed: Option<real>, now: real): seq<Arrival> {
    if obs == [] || passed.None? then [Arrival(now, 0.0)]
    else obs + [Arrival(now, obs[|obs| - 1].streamed + passed.value)]
  }

  ghost function Arrivals(a: Adaptive, obs: seq<Arrival>, e: Event): seq<Arrival> {
    match e
    case Observed(advance, now) =>
      if advance.None? then Landed(obs, None, now)
      else if advance.value > 0 then Landed(obs, Some(StreamTime(advance.value, a.interval)), now)
      else obs
    case Impaired(_) => obs
    case ArrivalsReset => []
  }

  datatype Traced = Traced(buffer: Adaptive, obs: seq<Arrival>, touched: Option<real>, clock: Option<real>)

  ghost predicate OnTime(t: Traced, e: Event) {
    e.ArrivalsReset? || t.clock.None? || t.clock.value <= e.now
  }

  ghost function Advance(t: Traced, e: Event): Traced
    requires t.buffer.Valid()
  {
    var b := Step(t.buffer, e);
    Traced(b, Arrivals(t.buffer, t.obs, e),
           if !e.ArrivalsReset? && (e.Impaired? || b.target != t.buffer.target) then Some(e.now) else t.touched,
           if e.ArrivalsReset? then t.clock else Some(e.now))
  }

  ghost predicate WindowAgrees(b: Adaptive, obs: seq<Arrival>) {
    && Monotone(obs)
    && (obs == [] <==> b.lastArrival.None?)
    && (obs == [] ==> b.history == [])
    && (obs != [] ==>
          && b.lastArrival == Some(obs[|obs| - 1].at)
          && b.transit == TransitOf(obs, |obs| - 1)
          && b.history != [] && Covers(b.history, Samples(obs), Second(obs[|obs| - 1].at) - WINDOW))
  }

  ghost predicate ClockAgrees(b: Adaptive, touched: Option<real>, clock: Option<real>) {
    && (b.lastArrival.Some? ==> b.lastChange.Some? && clock.Some? && b.lastArrival.value <= clock.value)
    && (b.lastArrival.Some? && touched.Some? ==> touched.value <= b.lastChange.value)
    && (b.lastChange.Some? ==> clock.Some? && b.lastChange.value <= clock.value)
    && (touched.Some? ==> clock.Some? && touched.value <= clock.value)
  }

  ghost predicate Agrees(t: Traced) {
    t.buffer.Valid() && WindowAgrees(t.buffer, t.obs) && ClockAgrees(t.buffer, t.touched, t.clock)
  }

  lemma SamplesAppend(obs: seq<Arrival>, x: Arrival)
    requires obs != []
    ensures Samples(obs + [x]) == Samples(obs) + {SampleOf(obs + [x], |obs|)}
  {
    var all := obs + [x];
    assert forall i :: 0 <= i < |obs| ==> SampleOf(all, i) == SampleOf(obs, i);
    forall y | y in Samples(obs) ensures y in Samples(all) {
      var i :| 0 <= i < |obs| && SampleOf(obs, i) == y;
      assert SampleOf(all, i) == y;
    }
    assert SampleOf(all, |obs|) in Samples(all);
  }

  lemma FirstLandAgrees(a: Adaptive, obs: seq<Arrival>, now: real)
    ensures WindowAgrees(Land(a, None, now), Landed(obs, None, now))
  {
    var after, b := Landed(obs, None, now), Land(a, None, now);
    assert Expire([], Second(now)) == [];
    assert b.history == [Bucket(Second(now), 0.0, 0.0)];
    assert SampleOf(after, 0) == Sample(Second(now), 0.0);
    assert Samples(after) == {SampleOf(after, 0)};
    assert InBucket(b.history, 0, Sample(Second(now), 0.0));
    assert Attained(b.history, 0, Samples(after));
  }

  lemma NextLandCovers(a: Adaptive, obs: seq<Arrival>, x: Arrival)
    requires WindowAgrees(a, obs) && obs != [] && obs[|obs| - 1].at <= x.at
    ensures Covers(Tally(Expire(a.history, Second(x.at)), Second(x.at), TransitOf(obs + [x], |obs|)),
                   Samples(obs + [x]), Second(x.at) - WINDOW)
  {
    SamplesAppend(obs, x);
    var s := SampleOf(obs + [x], |obs|);
    forall y | y in Samples(obs) ensures y.second <= s.second {
      var i :| 0 <= i < |obs| && y == SampleOf(obs, i);
      SecondMonotone(obs[i].at, x.at);
    }
    SecondMonotone(obs[|obs| - 1].at, x.at);
    ExpireCovers(a.history, Samples(obs), Second(obs[|obs| - 1].at) - WINDOW, Second(x.at));
    TallyCovers(Expire(a.history, Second(x.at)), Samples(obs), s);
  }

  lemma LandAgrees(a: Adaptive, obs: seq<Arrival>, passed: Option<real>, now: real)
    requires WindowAgrees(a, obs)
    requires obs != [] ==> obs[|obs| - 1].at <= now
    requires passed.Some? ==> a.lastArrival.Some?
    ensures WindowAgrees(Land(a, passed, now), Landed(obs, passed, now))
  {
    if passed.None? {
      FirstLandAgrees(a, obs, now);
    } else {
      var x := Arrival(now, obs[|obs| - 1].streamed + passed.value);
      var after := obs + [x];
      assert Landed(obs, passed, now) == after;
      NextLandCovers(a, obs, x);
      assert Monotone(after);
      assert Land(a, passed, now).transit == TransitOf(after, |obs|);
    }
  }

  lemma RetargetAgrees(t: Traced, e: Event, b: Adaptive)
    requires Agrees(t) && OnTime(t, e) && Counted(e)
    requires Retargeted(Arrive(t.buffer, e.advance, e.now), e.now, b)
    ensures WindowAgrees(b, Arrivals(t.buffer, t.obs, e))
    ensures ClockAgrees(b, if b.target != t.buffer.target then Some(e.now) else t.touched, Some(e.now))
  {
    LandAgrees(t.buffer, t.obs, Passed(t.buffer, e.advance), e.now);
  }

  /** Every step of a run with a monotone clock keeps the window equal to its arrivals. */
  lemma AgreesStep(t: Traced, e: Event)
    requires Agrees(t) && OnTime(t, e)
    ensures Agrees(Advance(t, e))
  {
    if Counted(e) {
      ObserveBounds(t.buffer, e.advance, e.now);
      RetargetAgrees(t, e, Observe(t.buffer, e.advance, e.now));
    }
  }

  // Arrival `i` is among the last sixty whole seconds.
  ghost predicate Recent(obs: seq<Arrival>, i: nat) {
    i < |obs| && Second(obs[i].at) > Second(obs[|obs| - 1].at) - WINDOW
  }

  lemma SpreadBounds(b: Adaptive, obs: seq<Arrival>, i: nat)
    requires WindowAgrees(b, obs) && Recent(obs, i)
    ensures Low(b.history) <= TransitOf(obs, i) <= High(b.history)
  {
    var x := SampleOf(obs, i);
    assert x in Samples(obs);
    var k :| InBucket(b.history, k, x);
    ExtremesBound(b.history, k);
  }

  lemma DeepMonotone(depth: int, minimum: int, maximum: int, interval: real, delay: real, less: real)
    requires Deep(depth, minimum, maximum, interval, delay) && less <= delay
    ensures Deep(depth, minimum, maximum, interval, less)
  {}

  /**
   After any counted arrival, for any two arrivals of the last sixty whole
   seconds, the target covers the difference of their transit times, or is
   already the maximum: the bucketed window loses nothing of the true spread.
   */
  lemma TargetCoversTrueJitter(t: Traced, e: Event, i: nat, j: nat)
    requires Agrees(t) && OnTime(t, e) && Counted(e)
    requires Recent(Advance(t, e).obs, i) && Recent(Advance(t, e).obs, j)
    ensures var after := Advance(t, e); var b := after.buffer;
      Deep(b.target, b.minimum, b.maximum, b.interval, TransitOf(after.obs, i) - TransitOf(after.obs, j))
  {
    ObserveBounds(t.buffer, e.advance, e.now);
    AgreesStep(t, e);
    var after := Advance(t, e);
    var b := after.buffer;
    SpreadBounds(b, after.obs, i);
    SpreadBounds(b, after.obs, j);
    DeepMonotone(b.target, b.minimum, b.maximum, b.interval,
                 High(b.history) - Low(b.history), TransitOf(after.obs, i) - TransitOf(after.obs, j));
  }

  lemma ArrivalOf(obs: seq<Arrival>, x: Sample) returns (i: nat)
    requires x in Samples(obs)
    ensures i < |obs| && SampleOf(obs, i) == x
  {
    i :| 0 <= i < |obs| && SampleOf(obs, i) == x;
  }

  /** The spread is that of two recent arrivals, and the deque is never over its length. */
  lemma SpreadIsAttained(t: Traced) returns (i: nat, j: nat)
    requires Agrees(t) && t.obs != []
    ensures Recent(t.obs, i) && TransitOf(t.obs, i) == High(t.buffer.history)
    ensures Recent(t.obs, j) && TransitOf(t.obs, j) == Low(t.buffer.history)
    ensures |t.buffer.history| <= WINDOW
  {
    var h, obs := t.buffer.history, t.obs;
    var last := Second(obs[|obs| - 1].at);
    var hi, lo := ExtremesAttained(h);
    assert Attained(h, hi, Samples(obs)) && Attained(h, lo, Samples(obs));
    i := ArrivalOf(obs, Sample(h[hi].second, h[hi].high));
    j := ArrivalOf(obs, Sample(h[lo].second, h[lo].low));
    forall k | 0 <= k < |h| ensures last - WINDOW < h[k].second <= last {
      assert Attained(h, k, Samples(obs));
      var m := ArrivalOf(obs, Sample(h[k].second, h[k].high));
      SecondMonotone(obs[m].at, obs[|obs| - 1].at);
    }
    BucketsFit(h, last - WINDOW, last);
  }

  /** A step that lowers the target comes a clean minute after every change and impairment before it. */
  lemma DecayNeedsACleanMinute(t: Traced, e: Event)
    requires Agrees(t) && OnTime(t, e)
    requires Advance(t, e).buffer.target < t.buffer.target
    ensures e.Observed? && t.buffer.target - t.buffer.step <= Advance(t, e).buffer.target
    ensures t.touched.Some? ==> e.now - t.touched.value >= CLEAN_SECONDS
  {
    if Counted(e) { ObserveBounds(t.buffer, e.advance, e.now); }
  }

  ghost predicate Runs(t: Traced, es: seq<Event>)
    decreases |es|
  {
    t.buffer.Valid() && (es == [] || (OnTime(t, es[0]) && Runs(Advance(t, es[0]), es[1..])))
  }

  ghost function RunAll(t: Traced, es: seq<Event>): Traced
    requires Runs(t, es)
    decreases |es|
  {
    if es == [] then t else RunAll(Advance(t, es[0]), es[1..])
  }

  ghost function Start(minimum: int, maximum: int, interval: real): Traced
    requires interval > 0.0
  {
    Traced(Fresh(minimum, maximum, interval), [], None, None)
  }

  /** Over every run from a fresh buffer the window agrees with the arrivals. */
  lemma {:induction false} AgreesAlways(t: Traced, es: seq<Event>)
    requires Agrees(t) && Runs(t, es)
    ensures Agrees(RunAll(t, es))
    decreases |es|
  {
    if es != [] {
      AgreesStep(t, es[0]);
      AgreesAlways(Advance(t, es[0]), es[1..]);
    }
  }

  lemma StartAgrees(minimum: int, maximum: int, interval: real)
    requires 1 <= minimum <= maximum && interval > 0.0
    ensures Agrees(Start(minimum, maximum, interval))
  {}

  /** The same, at the end of any run of arrivals, impairments and resets from a fresh buffer. */
  lemma RunCoversTrueJitter(minimum: int, maximum: int, interval: real, es: seq<Event>, e: Event, i: nat, j: nat)
    requires 1 <= minimum <= maximum && interval > 0.0
    requires Runs(Start(minimum, maximum, interval), es)
    requires var t := RunAll(Start(minimum, maximum, interval), es);
      t.buffer.Valid() && OnTime(t, e) && Counted(e)
      && Recent(Advance(t, e).obs, i) && Recent(Advance(t, e).obs, j)
    ensures var after := Advance(RunAll(Start(minimum, maximum, interval), es), e); var b := after.buffer;
      Deep(b.target, b.minimum, b.maximum, b.interval, TransitOf(after.obs, i) - TransitOf(after.obs, j))
  {
    StartAgrees(minimum, maximum, interval);
    AgreesAlways(Start(minimum, maximum, interval), es);
    TargetCoversTrueJitter(RunAll(Start(minimum, maximum, interval), es), e, i, j);
  }
}
