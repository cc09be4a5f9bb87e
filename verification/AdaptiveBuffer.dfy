/** The adaptive target as the object the playout buffer owns. */
module AdaptiveBuffers {
  import opened Wrappers
  import opened WallSeconds
  import opened T = AdaptiveTarget

  datatype ValueError = BoundsReversed

  class AdaptiveBuffer {
    const minimum: int
    const maximum: int
    const interval: real
    const step: int
    var target: int
    var history: seq<Bucket>
    var transit: real
    var lastArrival: Option<real>
    var lastChange: Option<real>
    var lastImpairment: Option<real>

    ghost function View(): Adaptive
      reads this
    {
      Adaptive(minimum, maximum, target, interval, step, history, transit, lastArrival, lastChange, lastImpairment)
    }

    ghost predicate Valid()
      reads this
    {
      View().Valid()
    }

    constructor (minimum: int, maximum: int, interval: real)
      requires 1 <= minimum <= maximum && interval > 0.0
      ensures Valid() && View() == Fresh(minimum, maximum, interval)
    {
      this.minimum, this.maximum, this.interval := minimum, maximum, interval;
      this.step := StepFor(interval);
      target, history, transit := minimum, [], 0.0;
      lastArrival, lastChange, lastImpairment := None, None, None;
    }

    // The constructor as its callers meet it: reversed bounds are refused.
    static method Build(minimum: int, maximum: int, interval: real) returns (r: Result<AdaptiveBuffer, ValueError>)
      requires interval > 0.0
      ensures r.Ok? <==> 1 <= minimum <= maximum
      ensures r.Ok? ==> fresh(r.value) && r.value.Valid() && r.value.View() == Fresh(minimum, maximum, interval)
    {
      if !(1 <= minimum <= maximum) {
        return Err(BoundsReversed);
      }
      var buffer := new AdaptiveBuffer(minimum, maximum, interval);
      return Ok(buffer);
    }

    method ClearArrivals()
      requires Valid()
      modifies this
      ensures Valid() && View() == ResetArrivals(old(View()))
    {
      history, lastArrival, lastChange := [], None, None;
    }

    method Observe(advance: Option<int>, now: real)
      requires Valid()
      modifies this
      ensures Valid() && View() == T.Observe(old(View()), advance, now)
    {
      if advance.Some? && advance.value <= 0 {
        return;
      }
      ObserveBounds(View(), advance, now);
      TakeArrival(advance, now);
      Reconsider(now);
    }

    // The window half of an observation.
    method TakeArrival(advance: Option<int>, now: real)
      requires Valid()
      modifies this
      ensures View() == Arrive(old(View()), advance, now)
    {
      ghost var passed := Passed(View(), advance);
      if lastArrival.None? || advance.None? {
        ClearArrivals();
        transit := 0.0;
        lastChange := Some(now);
      } else {
        var streamed := StreamTime(advance.value, interval);
        assert passed == Some(streamed);
        transit := transit + (now - lastArrival.value - streamed);
      }
      lastArrival := Some(now);
      var second := Second(now);
      ghost var before := View();
      assert Land(old(View()), passed, now)
          == before.(history := Tally(Expire(before.history, second), second, before.transit));
      while history != [] && history[0].second <= second - WINDOW
        invariant View() == before.(history := history)
        invariant Expire(history, second) == Expire(before.history, second)
        decreases |history|
      {
        history := history[1..];
      }
      history := Tally(history, second, transit);
    }

    // The target half of an observation.
    method Reconsider(now: real)
      requires Valid() && history != []
      modifies this
      ensures View() == Retarget(old(View()), Required(old(View()), High(old(history)) - Low(old(history))), now)
    {
      var delay := High(history) - Low(history);
      StepTime(step, interval);
      var required := Depth(minimum, maximum, step, interval, delay);
      if required > target {
        target := required;
        lastChange := Some(now);
      } else if && lastChange.Some? && now - lastChange.value >= CLEAN_SECONDS
                && (lastImpairment.None? || now - lastImpairment.value >= CLEAN_SECONDS) {
        target := Max(required, target - step);
        lastChange := Some(now);
      }
    }

    method Impair(now: real)
      requires Valid()
      modifies this
      ensures Valid() && View() == T.Impair(old(View()), now)
    {
      if lastImpairment.None? || now - lastImpairment.value >= 1.0 {
        target := Min(maximum, target + step);
      }
      lastImpairment := Some(now);
      lastChange := Some(now);
    }
  }
}
