/**
  The input debounce shared by every button block of the teleoperated tick:
  a `was…Pressed` latch turns a button that stays down over many ticks into
  exactly one "edge", and a released button re-arms it.
 */
module Debounce {

  /** One tick of one latch, written as the nested `if`s of `Robot.teleopPeriodic`.
      Returns the pair (edge fired on this tick, latch after the tick). */
  function Debounced(pressed: bool, latched: bool): (r: (bool, bool))
    ensures r.0 <==> pressed && !latched
    ensures r.1 == pressed
  {
    if pressed then
      if !latched then (true, true) else (false, latched)
    else
      (false, false)
  }

  /** The edges one latch reports over a run of ticks, starting from `latched`. */
  function Edges(samples: seq<bool>, latched: bool): (edges: seq<bool>)
    ensures |edges| == |samples|
  {
    if samples == [] then []
    else
      var (edge, latch) := Debounced(samples[0], latched);
      [edge] + Edges(samples[1..], latch)
  }

  /** The latch after a run of ticks, starting from `latched`. */
  function LatchAfter(samples: seq<bool>, latched: bool): bool
  {
    if samples == [] then latched
    else LatchAfter(samples[1..], Debounced(samples[0], latched).1)
  }

  /** An edge fires on tick k exactly when the sample is true there and was
      false on the tick before (or, on the first tick, the latch was clear). */
  lemma {:induction false} EdgeAt(samples: seq<bool>, latched: bool, k: nat)
    requires k < |samples|
    ensures Edges(samples, latched)[k] ==
            (samples[k] && !(if k == 0 then latched else samples[k - 1]))
  {
    if k > 0 {
      EdgeAt(samples[1..], samples[0], k - 1);
      assert samples[1..][k - 1] == samples[k];
      if k > 1 {
        assert samples[1..][k - 2] == samples[k - 1];
      }
    }
  }

  /** After a run of ticks the latch equals the last sample: it is set only
      while the button is still down and is cleared by any release. */
  lemma {:induction false} LatchFollowsLastSample(samples: seq<bool>, latched: bool)
    ensures LatchAfter(samples, latched) ==
            if samples == [] then latched else samples[|samples| - 1]
  {
    if samples != [] {
      LatchFollowsLastSample(samples[1..], samples[0]);
      if |samples| > 1 {
        assert samples[1..][|samples[1..]| - 1] == samples[|samples| - 1];
      }
    }
  }

  /** A button held down for n ticks gives one edge, on the first tick, and
      only if the latch was clear; every later tick of the hold is silent. */
  lemma HeldPress(samples: seq<bool>, latched: bool)
    requires forall k :: 0 <= k < |samples| ==> samples[k]
    ensures forall k :: 0 <= k < |samples| ==>
              Edges(samples, latched)[k] == (k == 0 && !latched)
  {
    forall k | 0 <= k < |samples|
      ensures Edges(samples, latched)[k] == (k == 0 && !latched)
    {
      EdgeAt(samples, latched, k);
    }
  }

  /** A release re-arms the latch: whatever came before, a false sample
      reports no edge and the true sample after it reports exactly one. */
  lemma Rearm(before: seq<bool>, latched: bool)
    ensures !Edges(before + [false, true], latched)[|before|]
    ensures Edges(before + [false, true], latched)[|before| + 1]
  {
    var samples := before + [false, true];
    EdgeAt(samples, latched, |before|);
    EdgeAt(samples, latched, |before| + 1);
  }

  /** Five ticks of one input: released, released, pressed, held, released. */
  lemma PressHoldRelease()
    ensures Edges([false, false, true, true, false], false) == [false, false, true, false, false]
  {
  }
}
