/** The window as the object the playout buffer owns. */
module QualityWindows {
  import opened Wrappers
  import opened WallSeconds
  import opened Q = Quality

  class QualityWindow {
    var started: Option<real>
    var buckets: seq<Tally>

    ghost function View(): Window
      reads this
    {
      Window(started, buckets)
    }

    constructor ()
      ensures View() == EMPTY
    {
      started, buckets := None, [];
    }

    method Record(e: QualityEvent, now: real)
      modifies this
      ensures View() == Q.Record(old(View()), e, now)
    {
      if started.None? {
        started := Some(now);
      }
      var second := Second(now);
      Expire(second);
      if buckets == [] || buckets[|buckets| - 1].second != second {
        buckets := Push(buckets, Tally(second, map[]));
      }
      buckets := Bump(buckets, e);
    }

    method Snapshot(now: real) returns (observed: real, totals: Counts)
      modifies this
      ensures View() == Refresh(old(View()), now)
      ensures observed == ObservedSeconds(View(), now)
      ensures forall e :: Get(totals, e) == Total(buckets, e)
    {
      Expire(Second(now));
      totals := map[];
      for i := 0 to |buckets|
        invariant buckets == old(Refresh(View(), now)).buckets && started == old(started)
        invariant forall e :: Get(totals, e) == Total(buckets[..i], e)
      {
        var b := buckets[i];
        assert buckets[..i + 1][..i] == buckets[..i];
        totals := map e: QualityEvent | e in b.counts.Keys + totals.Keys :: Get(totals, e) + Get(b.counts, e);
      }
      assert buckets[..|buckets|] == buckets;
      observed := ObservedSeconds(Window(started, buckets), now);
    }

    method Expire(second: int)
      modifies this
      ensures started == old(started) && buckets == Q.Expire(old(buckets), second)
    {
      while buckets != [] && buckets[0].second <= second - WINDOW
        invariant started == old(started) && Q.Expire(buckets, second) == Q.Expire(old(buckets), second)
        decreases |buckets|
      {
        buckets := buckets[1..];
      }
    }
  }
}
