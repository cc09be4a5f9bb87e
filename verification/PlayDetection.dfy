/**
 Deciding from packet levels whether the input is playing: a tracked idle level with
 hysteresis in amplitude and in time.
 */
module PlayDetection {
  import opened Wrappers

  const START_IDLE_FACTOR: nat := 3
  const START_RMS_MIN: nat := 150
  const STOP_IDLE_FACTOR: nat := 2
  const STOP_RMS_MIN: nat := 60
  const START_AFTER_PACKETS: nat := 24
  const STOP_AFTER_PACKETS: nat := 375
  const SILENCE_DISCHARGE: nat := 8
  const WARMUP_PACKETS: nat := 375
  const IDLE_STEP_X256: nat := 64
  const MAX_WORD: nat := 0xFFFF_FFFF

  type Rms = n: int | 0 <= n < 0x1_0000

  datatype Levels = Levels(left: Rms, right: Rms) {
    function Louder(): (r: Rms)
      ensures r >= left && r >= right && (r == left || r == right)
    {
      if left >= right then left else right
    }
  }

  datatype Detector = Detector(
    playing: bool,
    warmup: nat,
    relearnHold: nat,
    signalRun: nat,
    silenceCharge: nat,
    idle: nat)   // the idle level in 1/256 units
  {
    // What is reported: also playing while a relearn is held.
    predicate Reported() { playing || relearnHold > 0 }

    // The cast to sixteen bits drops what does not fit.
    function NoiseFloor(): nat { idle / 256 % 0x1_0000 }

    function StartThreshold(): nat { Max(NoiseFloor() * START_IDLE_FACTOR, START_RMS_MIN) }

    function StopThreshold(): nat { Max(NoiseFloor() * STOP_IDLE_FACTOR, STOP_RMS_MIN) }
  }

  const NEW := Detector(false, WARMUP_PACKETS, 0, 0, 0, 0)

  function Relearn(d: Detector): Detector {
    NEW.(relearnHold := if d.Reported() then WARMUP_PACKETS + START_AFTER_PACKETS else 0)
  }

  function LearnIdle(d: Detector, rms: Rms, stop: nat): nat {
    if d.playing && rms >= stop then d.idle
    else if rms * 256 > d.idle then d.idle + IDLE_STEP_X256
    else SaturatingSub(d.idle, IDLE_STEP_X256)
  }

  function Update(d: Detector, levels: Levels): Detector {
    var rms := levels.Louder();
    var e := d.(relearnHold := SaturatingSub(d.relearnHold, 1), idle := LearnIdle(d, rms, d.StopThreshold()));
    if d.warmup > 0 then e.(warmup := d.warmup - 1)
    else
      var run := if rms >= d.StartThreshold() then Min(d.signalRun + 1, MAX_WORD) else 0;
      var charge := if rms < d.StopThreshold() then Min(d.silenceCharge + 1, STOP_AFTER_PACKETS)
                    else SaturatingSub(d.silenceCharge, SILENCE_DISCHARGE);
      var starts := !d.playing && run >= START_AFTER_PACKETS;
      e.(signalRun := run,
         silenceCharge := if starts then 0 else charge,
         playing := if d.playing then charge < STOP_AFTER_PACKETS else starts)
  }

  function Feed(d: Detector, ps: seq<Levels>): Detector
    decreases |ps|
  {
    if ps == [] then d else Update(Feed(d, ps[..|ps| - 1]), ps[|ps| - 1])
  }

  // ----- every reachable state ------------------------------------------------------------------

  ghost predicate Inv(d: Detector) {
    && d.idle % IDLE_STEP_X256 == 0 && d.idle <= 0xFFFF * 256
    && d.warmup <= WARMUP_PACKETS && (d.warmup > 0 ==> !d.playing && d.signalRun == 0 && d.silenceCharge == 0)
    && (d.playing ==> d.silenceCharge < STOP_AFTER_PACKETS) && d.silenceCharge <= STOP_AFTER_PACKETS
    && (!d.playing ==> d.signalRun < START_AFTER_PACKETS) && d.signalRun <= MAX_WORD
    && d.relearnHold <= WARMUP_PACKETS + START_AFTER_PACKETS
  }

  lemma StepInv(d: Detector, levels: Levels)
    requires Inv(d)
    ensures Inv(Update(d, levels)) && Inv(Relearn(d)) && Inv(NEW)
  {
    var rms := levels.Louder();
    if rms * 256 > d.idle {
      assert rms * 256 % IDLE_STEP_X256 == 0;
      assert d.idle + IDLE_STEP_X256 <= rms * 256;
    }
  }

  /** The sixteen-bit noise floor never loses anything, and the thresholds never cross. */
  lemma FloorFits(d: Detector)
    requires Inv(d)
    ensures d.NoiseFloor() == d.idle / 256 < 0x1_0000 && d.StopThreshold() < d.StartThreshold()
  {}

  datatype Event = Packet(levels: Levels) | Relearned

  function After(d: Detector, events: seq<Event>): Detector
    decreases |events|
  {
    if events == [] then d
    else
      var e, last := After(d, events[..|events| - 1]), events[|events| - 1];
      if last.Relearned? then Relearn(e) else Update(e, last.levels)
  }

  lemma {:induction false} AlwaysInv(events: seq<Event>)
    ensures var d := After(NEW, events); Inv(d) && d.NoiseFloor() == d.idle / 256
    decreases |events|
  {
    if events != [] {
      AlwaysInv(events[..|events| - 1]);
      var d, last := After(NEW, events[..|events| - 1]), events[|events| - 1];
      StepInv(d, if last.Packet? then last.levels else Levels(0, 0));
    }
    FloorFits(After(NEW, events));
  }

  // ----- stopping is a best-suffix test -----------------------------------------------------------

  predicate Quiet(d: Detector, levels: Levels) { levels.Louder() < d.StopThreshold() }

  function Weight(quiet: bool): int { if quiet then 1 else -(SILENCE_DISCHARGE as int) }

  // Quiet packets from the i-th on, less eight for each other one.
  function Score(d: Detector, ps: seq<Levels>, i: nat): int
    requires i <= |ps|
    decreases |ps|
  {
    if i == |ps| then 0
    else
      var before := ps[..|ps| - 1];
      Score(d, before, i) + Weight(Quiet(Feed(d, before), ps[|ps| - 1]))
  }

  ghost predicate Onset(d: Detector) { d.playing && d.warmup == 0 && d.silenceCharge == 0 }

  ghost predicate PlayingUntil(d: Detector, ps: seq<Levels>) {
    forall j {:trigger Feed(d, ps[..j])} :: 0 <= j < |ps| ==> Feed(d, ps[..j]).playing
  }

  lemma PlayingUntilShorter(d: Detector, ps: seq<Levels>)
    requires ps != [] && PlayingUntil(d, ps)
    ensures PlayingUntil(d, ps[..|ps| - 1]) && Feed(d, ps[..|ps| - 1]).playing
  {
    hide Feed;
    var shorter := ps[..|ps| - 1];
    forall j {:trigger Feed(d, shorter[..j])} | 0 <= j < |shorter| ensures Feed(d, shorter[..j]).playing {
      assert shorter[..j] == ps[..j];
    }
  }

  // Since the onset the charge has been the best score of any suffix.
  lemma {:induction false} ChargeIsBest(d: Detector, ps: seq<Levels>) returns (best: nat)
    requires Onset(d) && PlayingUntil(d, ps)
    ensures var e := Feed(d, ps);
      && e.warmup == 0 && best <= |ps| && Score(d, ps, best) == e.silenceCharge <= STOP_AFTER_PACKETS
      && (e.playing <==> e.silenceCharge < STOP_AFTER_PACKETS)
      && forall i :: 0 <= i <= |ps| ==> Score(d, ps, i) <= e.silenceCharge
    decreases |ps|
  {
    best := 0;
    if ps != [] {
      var shorter := ps[..|ps| - 1];
      PlayingUntilShorter(d, ps);
      best := ChargeIsBest(d, shorter);
      var before, e := Feed(d, shorter), Feed(d, ps);
      assert e == Update(before, ps[|ps| - 1]);
      var step := Weight(Quiet(before, ps[|ps| - 1]));
      forall i | 0 <= i <= |ps| ensures Score(d, ps, i) <= e.silenceCharge {
        if i < |ps| { assert Score(d, ps, i) == Score(d, shorter, i) + step; }
      }
      if step < 0 && before.silenceCharge < SILENCE_DISCHARGE {
        best := |ps|;
      }
    }
  }

  /**
   Playback stops at exactly the first packet where, for some suffix of the packets since
   the onset, the quiet packets outweigh the others eight to one by 375.
   */
  lemma StopsExactly(d: Detector, ps: seq<Levels>)
    requires Onset(d) && PlayingUntil(d, ps)
    ensures Feed(d, ps).playing <==> forall i :: 0 <= i <= |ps| ==> Score(d, ps, i) < STOP_AFTER_PACKETS
  {
    var best := ChargeIsBest(d, ps);
  }

  // ----- starting needs an unbroken run ---------------------------------------------------------------

  predicate Loud(d: Detector, levels: Levels) { levels.Louder() >= d.StartThreshold() }

  ghost predicate LoudAt(d: Detector, ps: seq<Levels>, i: nat)
    requires i < |ps|
  {
    Loud(Feed(d, ps[..i]), ps[i])
  }

  ghost predicate IdleUntil(d: Detector, ps: seq<Levels>) {
    forall j {:trigger Feed(d, ps[..j])} :: 0 <= j < |ps| ==> !Feed(d, ps[..j]).playing
  }

  // The run counts the loud packets at the end.
  lemma {:induction false} RunIsSuffix(d: Detector, ps: seq<Levels>)
    requires !d.playing && d.warmup == 0 && d.signalRun == 0 && IdleUntil(d, ps)
    ensures var e := Feed(d, ps);
      && e.warmup == 0 && e.signalRun <= |ps| && e.signalRun <= START_AFTER_PACKETS
      && (e.playing <==> e.signalRun == START_AFTER_PACKETS)
      && (forall i :: |ps| - e.signalRun <= i < |ps| ==> LoudAt(d, ps, i))
      && (e.signalRun < |ps| ==> !LoudAt(d, ps, |ps| - 1 - e.signalRun))
    decreases |ps|
  {
    if ps != [] {
      var n := |ps| - 1;
      var shorter := ps[..n];
      assert IdleUntil(d, shorter) && !Feed(d, shorter).playing by {
        hide Feed;
        forall j {:trigger Feed(d, shorter[..j])} | 0 <= j < n ensures !Feed(d, shorter[..j]).playing {
          assert shorter[..j] == ps[..j];
        }
        assert shorter == ps[..n];
      }
      RunIsSuffix(d, shorter);
      var before, e := Feed(d, shorter), Feed(d, ps);
      assert e == Update(before, ps[n]);
      assert LoudAt(d, ps, n) == Loud(before, ps[n]);
      hide Feed, Update;
      forall i | 0 <= i < n ensures LoudAt(d, ps, i) == LoudAt(d, shorter, i) {
        assert shorter[..i] == ps[..i];
      }
      assert RunStep(before, ps[n], e) by { RunAfter(before, ps[n]); }
    }
  }

  ghost predicate RunStep(d: Detector, levels: Levels, e: Detector) {
    && e.warmup == 0 && e.signalRun == (if Loud(d, levels) then d.signalRun + 1 else 0)
    && (e.playing <==> e.signalRun >= START_AFTER_PACKETS)
  }

  lemma RunAfter(d: Detector, levels: Levels)
    requires !d.playing && d.warmup == 0 && d.signalRun <= START_AFTER_PACKETS
    ensures RunStep(d, levels, Update(d, levels))
  {}

  /** Playback starts at exactly the first packet that ends twenty-four loud ones in a row. */
  lemma StartsExactly(d: Detector, ps: seq<Levels>)
    requires !d.playing && d.warmup == 0 && d.signalRun == 0 && IdleUntil(d, ps)
    ensures Feed(d, ps).playing <==>
      |ps| >= START_AFTER_PACKETS && forall i :: |ps| - START_AFTER_PACKETS <= i < |ps| ==> LoudAt(d, ps, i)
  {
    RunIsSuffix(d, ps);
    hide Feed, LoudAt;
  }

  // ----- periods without a relearn -------------------------------------------------------------------

  ghost predicate TurnsOn(ps: seq<Levels>, i: nat)
    requires i < |ps|
  {
    !Feed(NEW, ps[..i]).Reported() && Feed(NEW, ps[..i + 1]).Reported()
  }

  ghost predicate TurnsOff(ps: seq<Levels>, i: nat)
    requires i < |ps|
  {
    Feed(NEW, ps[..i]).Reported() && !Feed(NEW, ps[..i + 1]).Reported()
  }

  lemma FedOneMore(d: Detector, ps: seq<Levels>, i: nat)
    requires i < |ps|
    ensures Feed(d, ps[..i + 1]) == Update(Feed(d, ps[..i]), ps[i])
  {
    assert ps[..i + 1][..i] == ps[..i];
  }

  lemma {:induction false} FedInv(ps: seq<Levels>, i: nat)
    requires i <= |ps|
    ensures var d := Feed(NEW, ps[..i]); Inv(d) && d.relearnHold == 0
    decreases i
  {
    if i > 0 {
      FedInv(ps, i - 1);
      FedOneMore(NEW, ps, i - 1);
      StepInv(Feed(NEW, ps[..i - 1]), ps[i - 1]);
    } else {
      StepInv(NEW, Levels(0, 0));
    }
  }

  lemma {:induction false} OnForAWhile(ps: seq<Levels>, i: nat, m: nat)
    requires i + m < |ps| && m < STOP_AFTER_PACKETS && TurnsOn(ps, i)
    ensures var d := Feed(NEW, ps[..i + 1 + m]); d.playing && d.warmup == 0 && d.silenceCharge <= m
    decreases m
  {
    var k := i + m;
    FedInv(ps, k);
    FedOneMore(NEW, ps, k);
    if m > 0 { OnForAWhile(ps, i, m - 1); }
    hide Feed;
  }

  lemma {:induction false} OffForAWhile(ps: seq<Levels>, i: nat, m: nat)
    requires i + m < |ps| && m < START_AFTER_PACKETS && TurnsOff(ps, i)
    ensures var d := Feed(NEW, ps[..i + 1 + m]); !d.playing && d.warmup == 0 && d.signalRun <= m
    decreases m
  {
    var k := i + m;
    FedInv(ps, k);
    FedOneMore(NEW, ps, k);
    FloorFits(Feed(NEW, ps[..k]));
    if m > 0 { OffForAWhile(ps, i, m - 1); }
    hide Feed;
  }

  lemma {:induction false} SilentAtFirst(ps: seq<Levels>, m: nat)
    requires m <= |ps| && m < WARMUP_PACKETS + START_AFTER_PACKETS
    ensures var d := Feed(NEW, ps[..m]);
      && !d.playing && d.relearnHold == 0
      && d.warmup == SaturatingSub(WARMUP_PACKETS, m) && d.signalRun <= SaturatingSub(m, WARMUP_PACKETS)
    decreases m
  {
    if m > 0 {
      SilentAtFirst(ps, m - 1);
      FedOneMore(NEW, ps, m - 1);
      hide Feed;
    }
  }

  /** However the input jumps, playback once started lasts 375 packets, and once stopped rests for 24. */
  lemma PeriodsAreLong(ps: seq<Levels>, i: nat, j: nat)
    requires i < j < |ps|
    ensures TurnsOn(ps, i) && TurnsOff(ps, j) ==> j - i >= STOP_AFTER_PACKETS
    ensures TurnsOff(ps, i) && TurnsOn(ps, j) ==> j - i >= START_AFTER_PACKETS
    ensures TurnsOn(ps, i) ==> i >= WARMUP_PACKETS + START_AFTER_PACKETS - 1
  {
    FedInv(ps, j);
    FedInv(ps, j + 1);
    if TurnsOn(ps, i) && TurnsOff(ps, j) && j - i < STOP_AFTER_PACKETS {
      OnForAWhile(ps, i, j - i);
    }
    if TurnsOff(ps, i) && TurnsOn(ps, j) && j - i < START_AFTER_PACKETS {
      OffForAWhile(ps, i, j - i);
    }
    if TurnsOn(ps, i) && i < WARMUP_PACKETS + START_AFTER_PACKETS - 1 {
      SilentAtFirst(ps, i + 1);
    }
  }

  // ----- relearning while playing ---------------------------------------------------------------------

  // A level no start threshold can pass while the idle level is learned anew.
  const SAFE_RMS: nat := 297

  ghost predicate LoudEnough(events: seq<Event>) {
    forall i :: 0 <= i < |events| && events[i].Packet? ==> events[i].levels.Louder() >= SAFE_RMS
  }

  ghost predicate Bridged(d: Detector) {
    if d.warmup > 0 then
      && !d.playing && d.signalRun == 0 && d.silenceCharge == 0 && d.warmup <= WARMUP_PACKETS
      && d.idle == IDLE_STEP_X256 * (WARMUP_PACKETS - d.warmup)
      && d.relearnHold == d.warmup + START_AFTER_PACKETS
    else if d.playing then
      d.silenceCharge == 0 && d.idle <= IDLE_STEP_X256 * (WARMUP_PACKETS + START_AFTER_PACKETS)
    else
      && d.silenceCharge == 0 && d.signalRun < START_AFTER_PACKETS
      && d.idle == IDLE_STEP_X256 * (WARMUP_PACKETS + d.signalRun)
      && d.relearnHold == START_AFTER_PACKETS - d.signalRun
  }

  lemma BridgedStep(d: Detector, levels: Levels)
    requires Bridged(d) && levels.Louder() >= SAFE_RMS
    ensures Bridged(Update(d, levels))
  {}

  /**
   A relearn during playback leaves no gap: as long as every packet is loud enough, the
   input is reported as playing throughout, even when relearning is asked for again.
   */
  lemma {:induction false} RelearnLeavesNoGap(d: Detector, events: seq<Event>)
    requires d.Reported() && LoudEnough(events)
    ensures var e := After(Relearn(d), events); Bridged(e) && e.Reported()
    decreases |events|
  {
    if events != [] {
      var shorter, last := events[..|events| - 1], events[|events| - 1];
      RelearnLeavesNoGap(d, shorter);
      if last.Packet? { BridgedStep(After(Relearn(d), shorter), last.levels); }
    }
  }

  function Steady(rms: Rms, n: nat): (ps: seq<Levels>)
    ensures |ps| == n && forall i :: 0 <= i < n ==> ps[i].Louder() == rms
  {
    seq(n, _ => Levels(rms, rms))
  }

  lemma SteadyOneMore(d: Detector, rms: Rms, n: nat)
    requires n > 0
    ensures Feed(d, Steady(rms, n)) == Update(Feed(d, Steady(rms, n - 1)), Levels(rms, rms))
  {
    assert Steady(rms, n)[..n - 1] == Steady(rms, n - 1);
    assert Steady(rms, n)[n - 1] == Levels(rms, rms);
  }

  ghost predicate NeverGaps(rms: Rms) {
    forall n: nat :: Feed(Relearn(NEW.(playing := true)), Steady(rms, n)).Reported()
  }

  // What a steady level short of the safe one leads to while the hold runs.
  ghost predicate Slipping(d: Detector, rms: Rms, n: nat) {
    && !d.playing && d.relearnHold == SaturatingSub(WARMUP_PACKETS + START_AFTER_PACKETS, n)
    && d.warmup == SaturatingSub(WARMUP_PACKETS, n) && d.signalRun <= SaturatingSub(n, WARMUP_PACKETS)
    && (rms >= START_RMS_MIN ==> d.idle == IDLE_STEP_X256 * n)
    && (rms < START_RMS_MIN ==> d.signalRun == 0)
  }

  lemma SlipStep(d: Detector, rms: Rms, n: nat)
    requires rms < SAFE_RMS && n < WARMUP_PACKETS + START_AFTER_PACKETS && Slipping(d, rms, n)
    ensures Slipping(Update(d, Levels(rms, rms)), rms, n + 1)
  {
    if n == WARMUP_PACKETS + START_AFTER_PACKETS - 1 && rms >= START_RMS_MIN {
      assert d.StartThreshold() == SAFE_RMS;
    }
  }

  lemma {:induction false} SteadySlips(rms: Rms, n: nat)
    requires rms < SAFE_RMS && n <= WARMUP_PACKETS + START_AFTER_PACKETS
    ensures Slipping(Feed(Relearn(NEW.(playing := true)), Steady(rms, n)), rms, n)
    decreases n
  {
    if n > 0 {
      var start := Relearn(NEW.(playing := true));
      SteadySlips(rms, n - 1);
      SteadyOneMore(start, rms, n);
      SlipStep(Feed(start, Steady(rms, n - 1)), rms, n - 1);
      hide Feed, Slipping, Update;
    } else {
      assert Steady(rms, 0) == [];
    }
  }

  lemma {:induction false} SteadyHolds(rms: Rms, n: nat)
    requires rms >= SAFE_RMS
    ensures var e := Feed(Relearn(NEW.(playing := true)), Steady(rms, n)); Bridged(e) && e.Reported()
    decreases n
  {
    if n > 0 {
      var start := Relearn(NEW.(playing := true));
      SteadyHolds(rms, n - 1);
      SteadyOneMore(start, rms, n);
      BridgedStep(Feed(start, Steady(rms, n - 1)), Levels(rms, rms));
      hide Feed;
    }
  }

  /** The bound is exact: a steady level survives a relearn without a gap if and only if it is at least 297. */
  lemma SafeLevelExactly(rms: Rms)
    ensures NeverGaps(rms) <==> rms >= SAFE_RMS
  {
    if rms >= SAFE_RMS {
      forall n: nat ensures Feed(Relearn(NEW.(playing := true)), Steady(rms, n)).Reported() {
        SteadyHolds(rms, n);
      }
    } else {
      SteadySlips(rms, WARMUP_PACKETS + START_AFTER_PACKETS);
    }
  }
}
