/**
 The target is no deeper than the jitter asks for: exactly which depth an arrival and
 an impairment lead to, and that a calm stream never raises it.
 */
module AdaptiveExactness {
  import opened Wrappers
  import opened AdaptiveTarget

  // A depth in packets plays for as long as the minimum and the delay take, up to the slack.
  ghost predicate Enough(a: Adaptive, depth: int, delay: real) {
    StreamTime(depth, a.interval) >= StreamTime(a.minimum, a.interval) + delay - SLACK
  }

  // So many whole steps over the minimum are enough, and one fewer would not be.
  ghost predicate FewestSteps(a: Adaptive, n: nat, delay: real) {
    Enough(a, a.minimum + n * a.step, delay) && (n > 0 ==> !Enough(a, a.minimum + (n - 1) * a.step, delay))
  }

  ghost predicate LeastDepth(a: Adaptive, depth: int, delay: real) {
    exists n: nat :: FewestSteps(a, n, delay) && depth == Min(a.maximum, a.minimum + n * a.step)
  }

  lemma CeilIsLeast(x: real, unit: real)
    requires unit > 0.0 && x > 0.0
    ensures Ceil(x / unit) >= 1 && (Ceil(x / unit) - 1) as real * unit < x <= Ceil(x / unit) as real * unit
  {
    var q := x / unit;
    var n := Ceil(q);
    assert q * unit == x;
    if q <= 0.0 { Product(-q, unit); }
    assert (n - 1) as real < q <= n as real;
    Product(n as real - q, unit);
    Product(q - (n - 1) as real, unit);
  }

  lemma Product(p: real, unit: real)
    requires p >= 0.0 && unit > 0.0
    ensures p * unit >= 0.0 && (p > 0.0 ==> p * unit > 0.0)
  {}

  /** A step is the fewest whole packets, and at least one, that play for fifty milliseconds. */
  lemma StepIsLeast(interval: real)
    requires interval > 0.0
    ensures var n := StepFor(interval);
      n >= 1 && n as real * interval >= STEP_SECONDS && (n > 1 ==> (n - 1) as real * interval < STEP_SECONDS)
  {
    CeilIsLeast(STEP_SECONDS, interval);
  }

  lemma DepthTime(a: Adaptive, n: int)
    ensures StreamTime(a.minimum + n * a.step, a.interval)
         == StreamTime(a.minimum, a.interval) + n as real * StreamTime(a.step, a.interval)
  {
    AddScaled(a.minimum, n * a.step, a.interval);
    Regroup(n, a.step, a.interval);
  }

  /** The required depth is the least whole number of steps that covers the delay, capped at the maximum. */
  lemma RequiredIsLeast(a: Adaptive, delay: real)
    requires a.Valid()
    ensures LeastDepth(a, Required(a, delay), delay)
    ensures delay <= SLACK ==> Required(a, delay) == a.minimum
  {
    var unit := StreamTime(a.step, a.interval);
    StepTime(a.step, a.interval);
    if delay > SLACK {
      CeilIsLeast(delay - SLACK, unit);
      var n: nat := StepsFor(delay, unit);
      DepthTime(a, n);
      DepthTime(a, n - 1);
      hide StreamTime, Ceil;
      assert FewestSteps(a, n, delay);
    } else {
      assert 0.0 / unit == 0.0;
      assert StepsFor(delay, unit) == 0;
      hide StreamTime;
      assert FewestSteps(a, 0, delay);
    }
  }

  lemma LeastIsOne(a: Adaptive, m: nat, n: nat, delay: real)
    requires a.Valid() && FewestSteps(a, m, delay) && FewestSteps(a, n, delay)
    ensures m == n
  {
    if m < n {
      DepthOrder(a, m, n - 1);
    } else if n < m {
      DepthOrder(a, n, m - 1);
    }
  }

  lemma DepthOrder(a: Adaptive, m: nat, n: nat)
    requires a.Valid() && m <= n
    ensures StreamTime(a.minimum + m * a.step, a.interval) <= StreamTime(a.minimum + n * a.step, a.interval)
  {
    assert (n - m) * a.step >= 0;
    Scale(a.minimum + n * a.step, a.minimum + m * a.step, a.interval);
  }

  /** There is only one least depth. */
  lemma LeastDepthIsOne(a: Adaptive, d: int, e: int, delay: real)
    requires a.Valid() && LeastDepth(a, d, delay) && LeastDepth(a, e, delay)
    ensures d == e
  {
    var m: nat :| FewestSteps(a, m, delay) && d == Min(a.maximum, a.minimum + m * a.step);
    var n: nat :| FewestSteps(a, n, delay) && e == Min(a.maximum, a.minimum + n * a.step);
    LeastIsOne(a, m, n, delay);
  }

  // A minute without a change of the target and without an impairment, as the buffer knows it.
  ghost predicate CleanMinute(a: Adaptive, now: real) {
    && (a.lastChange.Some? ==> now - a.lastChange.value >= CLEAN_SECONDS) && a.lastChange.Some?
    && (a.lastImpairment.Some? ==> now - a.lastImpairment.value >= CLEAN_SECONDS)
  }

  /**
   A counted arrival leads to exactly one target. Let `least` be the least depth for the
   window's spread: a target below it rises to it; in a clean minute one above it comes
   down a step, though not below it; otherwise the target stays.
   */
  lemma ObservedTarget(a: Adaptive, advance: Option<int>, now: real, least: int)
    requires a.Valid() && GoesOn(advance)
    requires var c := Arrive(a, advance, now); LeastDepth(c, least, High(c.history) - Low(c.history))
    ensures var c := Arrive(a, advance, now);
      Observe(a, advance, now).target ==
        if a.target < least then least
        else if CleanMinute(c, now) then Max(least, a.target - a.step)
        else a.target
  {
    var c := Arrive(a, advance, now);
    var delay := High(c.history) - Low(c.history);
    RequiredIsLeast(c, delay);
    LeastDepthIsOne(c, least, Required(c, delay), delay);
    hide Required, LeastDepth;
  }

  /** A packet behind the latest one says nothing about jitter and changes nothing. */
  lemma StragglerIsIgnored(a: Adaptive, advance: int, now: real)
    requires a.Valid() && advance <= 0
    ensures Observe(a, Some(advance), now) == a
  {}

  /**
   An impairment raises the target by one step, up to the maximum, unless there was another
   within the second before; either way decay starts over.
   */
  lemma ImpairedTarget(a: Adaptive, now: real)
    requires a.Valid()
    ensures var b := Impair(a, now);
      && (a.lastImpairment.None? || now - a.lastImpairment.value >= 1.0 ==>
            b.target == a.maximum || b.target == a.target + a.step)
      && (a.lastImpairment.Some? && now - a.lastImpairment.value < 1.0 ==> b.target == a.target)
      && a.target <= b.target <= a.maximum
      && (b.target == a.maximum ==> a.target + a.step >= a.maximum || a.target == a.maximum)
      && (forall later: real :: later - now < CLEAN_SECONDS ==> !CleanMinute(b, later))
  {}

  function ImpairAll(a: Adaptive, times: seq<real>): Adaptive {
    if times == [] then a else Impair(ImpairAll(a, times[..|times| - 1]), times[|times| - 1])
  }

  // Bursts at least a second apart, the first as far from anything earlier.
  ghost predicate Apart(a: Adaptive, times: seq<real>) {
    && (forall i :: 0 < i < |times| ==> times[i] - times[i - 1] >= 1.0)
    && (times != [] && a.lastImpairment.Some? ==> times[0] - a.lastImpairment.value >= 1.0)
  }

  /** Every burst counts: after n of them the target is n steps up, or the maximum. */
  lemma {:induction false} BurstsAddUp(a: Adaptive, times: seq<real>)
    requires a.Valid() && Apart(a, times)
    ensures var b := ImpairAll(a, times);
      && b.Valid() && b.maximum == a.maximum && b.step == a.step
      && b.lastImpairment == (if times == [] then a.lastImpairment else Some(times[|times| - 1]))
      && b.target == Min(a.maximum, a.target + |times| * a.step)
  {
    if times != [] {
      var n := |times| - 1;
      BurstsAddUp(a, times[..n]);
      assert (n + 1) * a.step == n * a.step + a.step;
    }
  }

  // ----- a calm stream -------------------------------------------------------------------------

  // Nothing impaired, and whatever two recent arrivals there are, their transit differs by no more than the slack.
  ghost predicate CalmEvent(t: Traced, e: Event)
    requires t.buffer.Valid()
  {
    && !e.Impaired?
    && (Counted(e) ==>
          var obs := Advance(t, e).obs;
          forall i: nat, j: nat :: Recent(obs, i) && Recent(obs, j) ==> TransitOf(obs, i) - TransitOf(obs, j) <= SLACK)
  }

  ghost predicate Calm(t: Traced, es: seq<Event>)
    requires Runs(t, es)
    decreases |es|
  {
    es == [] || (CalmEvent(t, es[0]) && Calm(Advance(t, es[0]), es[1..]))
  }

  lemma CalmStep(t: Traced, e: Event)
    requires Agrees(t) && OnTime(t, e) && CalmEvent(t, e)
    ensures Advance(t, e).buffer.target <= t.buffer.target
  {
    if Counted(e) {
      AgreesStep(t, e);
      var after := Advance(t, e);
      var c := Arrive(t.buffer, e.advance, e.now);
      ObserveBounds(t.buffer, e.advance, e.now);
      var i, j := SpreadIsAttained(after);
      RequiredIsLeast(c, High(c.history) - Low(c.history));
      hide Required, Agrees, LeastDepth, TransitOf;
    }
  }

  /** Over every run: while transit times stay within the slack and nothing is impaired, the target never rises. */
  lemma {:induction false} CalmNeverRaises(t: Traced, es: seq<Event>)
    requires Agrees(t) && Runs(t, es) && Calm(t, es)
    ensures RunAll(t, es).buffer.target <= t.buffer.target
    decreases |es|
  {
    if es != [] {
      AgreesStep(t, es[0]);
      CalmStep(t, es[0]);
      hide Agrees, CalmEvent, Advance;
      CalmNeverRaises(Advance(t, es[0]), es[1..]);
    }
  }
}
