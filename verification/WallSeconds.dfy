/** Times are reals; one-second buckets are named by `int(now)`, which truncates toward zero. */
module WallSeconds {

  // Whole seconds covered by a sliding window.
  const WINDOW: int := 60

  function Second(now: real): int {
    if now >= 0.0 then now.Floor else -((-now).Floor)
  }

  function MaxR(a: real, b: real): real { if a >= b then a else b }

  function MinR(a: real, b: real): real { if a <= b then a else b }

  lemma SecondMonotone(a: real, b: real)
    requires a <= b
    ensures Second(a) <= Second(b)
  {}
}
