/** Signed 16-bit little-endian PCM and the linear fade of the last packet over a loss. */
module Pcm {
  import opened WallSeconds
  import opened Octets

  predicate IsSample(v: int) { -0x8000 <= v < 0x8000 }

  function Decode(lo: byte, hi: byte): (v: int)
    ensures IsSample(v)
  {
    var u := lo + 256 * hi;
    if u >= 0x8000 then u - 0x1_0000 else u
  }

  function Encode(v: int): (r: Bytes)
    requires IsSample(v)
    ensures |r| == 2 && Decode(r[0], r[1]) == v
  {
    var u := if v < 0 then v + 0x1_0000 else v;
    [u % 256, u / 256]
  }

  // Round half to even.
  function Round(x: real): (n: int)
    ensures n as real - 0.5 <= x <= n as real + 0.5
  {
    var f := x.Floor;
    var d := x - f as real;
    if d < 0.5 || (d == 0.5 && f % 2 == 0) then f else f + 1
  }

  // The gain after `step` lost packets, of `maxSteps` that are faded.
  function Gain(maxSteps: nat, step: nat): real {
    MaxR(0.0, 1.0 - step as real / (maxSteps + 1) as real)
  }

  lemma GainRange(maxSteps: nat, step: nat)
    ensures 0.0 <= Gain(maxSteps, step) <= 1.0
    ensures step == 0 ==> Gain(maxSteps, step) == 1.0
    ensures step > maxSteps ==> Gain(maxSteps, step) == 0.0
  {
    var q := step as real / (maxSteps + 1) as real;
    assert q * (maxSteps + 1) as real == step as real;
    assert q >= 0.0;
    if step > maxSteps { assert q >= 1.0; }
  }

  lemma {:induction false} RoundWithin(x: real, v: int)
    ensures 0.0 <= x <= v as real ==> 0 <= Round(x) <= v
    ensures v as real <= x <= 0.0 ==> v <= Round(x) <= 0
    ensures x == v as real ==> Round(x) == v
  {}

  function Scale(v: int, gain: real): real { v as real * gain }

  lemma ScaleWithin(v: int, gain: real)
    requires 0.0 <= gain <= 1.0
    ensures v >= 0 ==> 0.0 <= Scale(v, gain) <= v as real
    ensures v <= 0 ==> v as real <= Scale(v, gain) <= 0.0
    ensures gain == 1.0 ==> Scale(v, gain) == v as real
    ensures gain == 0.0 ==> Scale(v, gain) == 0.0
  {}

  // A sample times a gain, rounded.
  function Faded(v: int, gain: real): (w: int)
    requires IsSample(v) && 0.0 <= gain <= 1.0
    ensures IsSample(w)
    ensures v >= 0 ==> 0 <= w <= v
    ensures v <= 0 ==> v <= w <= 0
    ensures gain == 1.0 ==> w == v
    ensures gain == 0.0 ==> w == 0
    ensures w as real - 0.5 <= Scale(v, gain) <= w as real + 0.5
  {
    ScaleWithin(v, gain);
    RoundWithin(Scale(v, gain), v);
    Round(Scale(v, gain))
  }

  function Fade(v: int, maxSteps: nat, step: nat): (w: int)
    requires IsSample(v)
    ensures IsSample(w)
    ensures v >= 0 ==> 0 <= w <= v
    ensures v <= 0 ==> v <= w <= 0
    ensures step == 0 ==> w == v
    ensures step > maxSteps ==> w == 0
  {
    GainRange(maxSteps, step);
    Faded(v, Gain(maxSteps, step))
  }

  function Attenuate(payload: Bytes, maxSteps: nat, step: nat): (r: Bytes)
    requires |payload| % 2 == 0
    ensures |r| == |payload|
  {
    if payload == [] then []
    else Encode(Fade(Decode(payload[0], payload[1]), maxSteps, step)) + Attenuate(payload[2..], maxSteps, step)
  }

  function SampleAt(payload: Bytes, i: nat): (v: int)
    requires 2 * i + 1 < |payload|
    ensures IsSample(v)
  {
    Decode(payload[2 * i], payload[2 * i + 1])
  }

  lemma {:induction false} AttenuateAt(payload: Bytes, maxSteps: nat, step: nat, i: nat)
    requires |payload| % 2 == 0 && 2 * i + 1 < |payload|
    ensures SampleAt(Attenuate(payload, maxSteps, step), i) == Fade(SampleAt(payload, i), maxSteps, step)
  {
    var w := Encode(Fade(SampleAt(payload, 0), maxSteps, step));
    var rest := Attenuate(payload[2..], maxSteps, step);
    assert Attenuate(payload, maxSteps, step) == w + rest;
    if i > 0 {
      AttenuateAt(payload[2..], maxSteps, step, i - 1);
      assert SampleAt(w + rest, i) == SampleAt(rest, i - 1);
    }
  }

  /** Fading keeps every sample's sign, never makes a sample louder, and ends in silence. */
  lemma AttenuateSamples(payload: Bytes, maxSteps: nat, step: nat, i: nat)
    requires |payload| % 2 == 0 && 2 * i + 1 < |payload|
    ensures var v, w := SampleAt(payload, i), SampleAt(Attenuate(payload, maxSteps, step), i);
      && (v >= 0 ==> 0 <= w <= v) && (v <= 0 ==> v <= w <= 0)
      && (step == 0 ==> w == v)
      && (step > maxSteps ==> w == 0)
  {
    AttenuateAt(payload, maxSteps, step, i);
  }

  lemma DecodeZero(lo: byte, hi: byte)
    ensures Decode(lo, hi) == 0 <==> lo == 0 && hi == 0
  {}

  /** Silence fades to silence, and every payload does once the fade is over. */
  lemma {:induction false} AttenuateToSilence(payload: Bytes, maxSteps: nat, step: nat)
    requires |payload| % 2 == 0
    requires step > maxSteps || forall i :: 0 <= i < |payload| ==> payload[i] == 0
    ensures Attenuate(payload, maxSteps, step) == Zeros(|payload|)
  {
    if payload != [] {
      AttenuateToSilence(payload[2..], maxSteps, step);
      var w := Fade(Decode(payload[0], payload[1]), maxSteps, step);
      DecodeZero(payload[0], payload[1]);
      DecodeZero(Encode(w)[0], Encode(w)[1]);
    }
  }
}
