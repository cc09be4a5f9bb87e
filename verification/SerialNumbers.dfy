/**
 Sequence numbers as the wire carries them (32 bits, wrapping; compare RFC 1982,
 section 3.2) and as they would be if they never wrapped.
 */
module SerialNumbers {
  const MODULUS: int := 0x1_0000_0000
  const HALF: int := 0x8000_0000

  datatype Space = Uint32 | Unbounded

  function Wrap(n: int): int { n % MODULUS }

  // Signed forward distance in uint32 sequence space.
  function SeqDistance(base: int, number: int): int {
    var distance := (number - base) % MODULUS;
    if distance >= HALF then distance - MODULUS else distance
  }

  function Dist(space: Space, base: int, number: int): int {
    if space.Uint32? then SeqDistance(base, number) else number - base
  }

  function Next(space: Space, number: int): int {
    if space.Uint32? then Wrap(number + 1) else number + 1
  }

  predicate InSpace(space: Space, number: int) {
    space.Uint32? ==> 0 <= number < MODULUS
  }

  // The number `steps` after `start`.
  function Ahead(space: Space, start: int, steps: nat): int {
    if space.Uint32? then Wrap(start + steps) else start + steps
  }

  lemma ModStep(a: int, k: int)
    ensures (a + k * MODULUS) % MODULUS == a % MODULUS
  {}

  lemma WrapOfSum(a: int, b: int)
    ensures Wrap(Wrap(a) + b) == Wrap(a + b)
    ensures Wrap(b - Wrap(a)) == Wrap(b - a)
  {
    ModStep(a + b, -(a / MODULUS));
    ModStep(b - a, a / MODULUS);
  }

  /** The distance is the only value of the signed 32-bit range that leads from `base` to `number`. */
  lemma DistanceIsUnique(base: int, number: int, d: int)
    requires 0 <= number < MODULUS
    ensures -HALF <= SeqDistance(base, number) < HALF
    ensures -HALF <= d < HALF ==> (Wrap(base + d) == number <==> d == SeqDistance(base, number))
  {
    var m := (number - base) % MODULUS;
    var q := (number - base) / MODULUS;
    assert number - base == q * MODULUS + m;
    ModStep(number, -q);
    if -HALF <= d < HALF {
      var k := (base + d) / MODULUS;
      assert base + d == k * MODULUS + Wrap(base + d);
    }
  }

  /** Wrapped numbers keep their true distance exactly when it is within half the sequence space. */
  lemma WrapKeepsDistance(a: int, b: int)
    ensures SeqDistance(Wrap(a), Wrap(b)) == b - a <==> -HALF <= b - a < HALF
  {
    WrapOfSum(a, Wrap(b));
    WrapOfSum(b, -a);
    assert (Wrap(b) - Wrap(a)) % MODULUS == (b - a) % MODULUS;
    DistanceIsUnique(Wrap(a), Wrap(b), b - a);
  }

  lemma NextDistance(base: int, number: int)
    requires 0 <= base < MODULUS && 0 <= number < MODULUS && base != number
    requires SeqDistance(base, number) >= 0
    ensures SeqDistance(Wrap(base + 1), number) == SeqDistance(base, number) - 1
  {}

  lemma NextIsNew(space: Space, number: int)
    ensures Next(space, number) != number
  {}

  lemma AheadNext(space: Space, start: int, steps: nat)
    ensures Next(space, Ahead(space, start, steps)) == Ahead(space, start, steps + 1)
  {
    WrapOfSum(start + steps, 1);
  }
}
