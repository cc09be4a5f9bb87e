/** What the play detector takes for the level of an idle input, and what it does not learn from. */
module IdleLearning {
  import opened PlayDetection

  // How far the learned level is from the real one, in 1/256 units.
  function Gap(d: Detector, rms: Rms): nat {
    if d.idle >= rms * 256 then d.idle - rms * 256 else rms * 256 - d.idle
  }

  // Idle at a level no start threshold is below.
  ghost predicate Resting(d: Detector) { !d.playing && Inv(d) }

  /** Any packet that is not music, also one in a pause while playing, brings the level a quarter unit nearer. */
  lemma QuietPacketIsLearned(d: Detector, levels: Levels)
    requires Inv(d) && (d.playing ==> levels.Louder() < d.StopThreshold())
    ensures var rms, e := levels.Louder(), Update(d, levels);
      Gap(e, rms) <= if Gap(d, rms) > 64 then Gap(d, rms) - 64 else 64
  {
    StepInv(d, levels);
  }

  lemma RestStep(d: Detector, rms: Rms)
    requires Resting(d) && rms < 150
    ensures var e := Update(d, Levels(rms, rms));
      Resting(e) && Gap(e, rms) <= if Gap(d, rms) > 64 then Gap(d, rms) - 64 else 64
  {
    StepInv(d, Levels(rms, rms));
  }

  /**
   A quiet room is learned, whatever was believed before: a steady level below 150 never
   counts as playing, the error falls by a quarter unit with every packet, and once there it
   stays within that quarter unit.
   */
  lemma {:induction false} QuietRoomIsLearned(d: Detector, rms: Rms, n: nat)
    requires Resting(d) && rms < 150
    ensures var e := Feed(d, Steady(rms, n));
      && Resting(e)
      && (Gap(d, rms) >= 64 * (n + 1) ==> Gap(e, rms) <= Gap(d, rms) - 64 * n)
      && (Gap(d, rms) < 64 * (n + 1) && n > 0 ==> Gap(e, rms) <= 64)
      && (64 * n >= Gap(d, rms) && n > 0 ==> e.NoiseFloor() == rms || e.NoiseFloor() == rms - 1)
    decreases n
  {
    if n > 0 {
      QuietRoomIsLearned(d, rms, n - 1);
      SteadyOneMore(d, rms, n);
      RestStep(Feed(d, Steady(rms, n - 1)), rms);
      FloorFits(Feed(d, Steady(rms, n)));
      hide Feed, Update, Inv, Steady;
    } else {
      assert Steady(rms, 0) == [];
    }
  }

  ghost predicate AllBelow(ps: seq<Levels>, level: nat) {
    forall i :: 0 <= i < |ps| ==> ps[i].Louder() < level
  }

  /**
   Silence always stops playback: after 375 packets in a row below 60, whatever had been
   learned and whatever played before, and it does not start again in them.
   */
  lemma {:induction false} SilenceStops(d: Detector, ps: seq<Levels>)
    requires Inv(d) && d.warmup == 0 && AllBelow(ps, 60)
    ensures var e := Feed(d, ps);
      && Inv(e) && e.warmup == 0 && (!d.playing ==> !e.playing)
      && (e.playing ==> e.silenceCharge >= |ps|) && (|ps| >= 375 ==> !e.playing)
    decreases |ps|
  {
    if ps != [] {
      var shorter := ps[..|ps| - 1];
      SilenceStops(d, shorter);
      StepInv(Feed(d, shorter), ps[|ps| - 1]);
      assert Feed(d, ps) == Update(Feed(d, shorter), ps[|ps| - 1]);
      hide Feed;
    }
  }

  // Playing, with every packet at least as loud as the stop threshold.
  ghost predicate AllLoud(ps: seq<Levels>, level: nat) {
    forall i :: 0 <= i < |ps| ==> ps[i].Louder() >= level
  }

  /** Music is not learned: while it plays above the stop threshold, idle level and playing stay as they are. */
  lemma {:induction false} MusicIsNotLearned(d: Detector, ps: seq<Levels>)
    requires d.playing && Inv(d) && AllLoud(ps, d.StopThreshold())
    ensures var e := Feed(d, ps); e.playing && Inv(e) && e.idle == d.idle
    decreases |ps|
  {
    if ps != [] {
      var shorter := ps[..|ps| - 1];
      MusicIsNotLearned(d, shorter);
      StepInv(Feed(d, shorter), ps[|ps| - 1]);
      assert Feed(d, ps) == Update(Feed(d, shorter), ps[|ps| - 1]);
      hide Feed;
    }
  }
}
