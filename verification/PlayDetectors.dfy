/** The detector as the object the capture task feeds. */
module PlayDetectors {
  import opened Wrappers
  import opened P = PlayDetection

  class PlayDetector {
    var playing: bool
    var warmup: nat
    var relearnHold: nat
    var signalRun: nat
    var silenceCharge: nat
    var idle: nat

    ghost function View(): Detector
      reads this
    {
      Detector(playing, warmup, relearnHold, signalRun, silenceCharge, idle)
    }

    constructor ()
      ensures View() == NEW
    {
      playing, warmup, relearnHold, signalRun, silenceCharge, idle := false, WARMUP_PACKETS, 0, 0, 0, 0;
    }

    predicate Playing()
      reads this
    {
      playing || relearnHold > 0
    }

    function NoiseFloor(): (r: nat)
      requires Inv(View())
      reads this
      ensures r == View().NoiseFloor() < 0x1_0000
    {
      idle / 256
    }

    method Relearn()
      modifies this
      ensures View() == P.Relearn(old(View()))
    {
      var hold := if Playing() then WARMUP_PACKETS + START_AFTER_PACKETS else 0;
      playing, warmup, signalRun, silenceCharge, idle := false, WARMUP_PACKETS, 0, 0, 0;
      relearnHold := hold;
    }

    method LearnIdle(rms: Rms, stop: nat)
      modifies `idle
      ensures idle == P.LearnIdle(old(View()), rms, stop)
    {
      if playing && rms >= stop {
        return;
      }
      var target := rms * 256;
      idle := if target > idle then idle + IDLE_STEP_X256 else SaturatingSub(idle, IDLE_STEP_X256);
    }

    /** Fold one packet's levels in and return whether the input is playing. */
    method Update(levels: Levels) returns (reported: bool)
      requires Inv(View())
      modifies this
      ensures View() == P.Update(old(View()), levels) && Inv(View())
      ensures reported == View().Reported()
    {
      StepInv(View(), levels);
      relearnHold := SaturatingSub(relearnHold, 1);
      var rms := levels.Louder();
      var stop := Max(NoiseFloor() * STOP_IDLE_FACTOR, STOP_RMS_MIN);
      var start := Max(NoiseFloor() * START_IDLE_FACTOR, START_RMS_MIN);
      LearnIdle(rms, stop);
      if warmup > 0 {
        warmup := warmup - 1;
        return Playing();
      }
      signalRun := if rms >= start then Min(signalRun + 1, MAX_WORD) else 0;
      silenceCharge := if rms < stop then Min(silenceCharge + 1, STOP_AFTER_PACKETS)
                       else SaturatingSub(silenceCharge, SILENCE_DISCHARGE);
      if playing {
        if silenceCharge >= STOP_AFTER_PACKETS {
          playing := false;
        }
      } else if signalRun >= START_AFTER_PACKETS {
        playing := true;
        // What was quiet before the start is no part of the way to the stop.
        silenceCharge := 0;
      }
      return Playing();
    }
  }
}
