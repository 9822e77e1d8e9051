/** The update rules of the two behaviour strategies, as pure functions of the accumulator.
    Both source snapshots of the behaviours share these rules; they differ only in how the
    callback is invoked, which their own modules model. */
module BehaviorRules {
  import opened Common
  import CsFloat

  /** What one `Update(deltaTime)` decides: whether the callback fires, and the new `timePassed`. */
  datatype Step = Step(fires: bool, timePassed: real)

  /** The outcome of a sequence of updates: how many callbacks fired, and the final `timePassed`. */
  datatype Run = Run(fires: nat, timePassed: real)

  /** The Repeater's remainder is defined: a zero interval only matters when the update fires
      (C# would then produce NaN). */
  predicate RepeaterDefined(timePassed: real, interval: real, deltaTime: real)
  {
    timePassed + deltaTime > interval ==> interval != 0.0
  }

  /** Repeater update: accumulate; when strictly past the interval, fire once and keep
      `timePassed % interval`. */
  function RepeaterStep(timePassed: real, interval: real, deltaTime: real): Step
    requires RepeaterDefined(timePassed, interval, deltaTime)
  {
    var acc := timePassed + deltaTime;
    if acc > interval then Step(true, CsFloat.Rem(acc, interval)) else Step(false, acc)
  }

  /** Countdown update: accumulate; fire when strictly past the exit time. */
  function CountdownStep(timePassed: real, exitTime: real, deltaTime: real): Step
  {
    var acc := timePassed + deltaTime;
    Step(acc > exitTime, acc)
  }

  /** With a positive interval the accumulator never exceeds the interval after an update,
      and stays non-negative when it was, whatever the delta. */
  lemma RepeaterStepBounded(timePassed: real, interval: real, deltaTime: real)
    requires interval > 0.0
    ensures RepeaterStep(timePassed, interval, deltaTime).timePassed <= interval
    ensures timePassed + deltaTime >= 0.0 ==> RepeaterStep(timePassed, interval, deltaTime).timePassed >= 0.0
  {
    var acc := timePassed + deltaTime;
    if acc > interval {
      CsFloat.RemOfExceeding(acc, interval);
    }
  }

  /** A firing update removes k >= 1 whole intervals (k > 1 when several were crossed) but
      fires only once: the surplus intervals are dropped, not queued. */
  lemma RepeaterCarry(timePassed: real, interval: real, deltaTime: real) returns (k: nat)
    requires 0.0 < interval < timePassed + deltaTime
    ensures RepeaterStep(timePassed, interval, deltaTime).fires
    ensures k >= 1
    ensures timePassed + deltaTime == RepeaterStep(timePassed, interval, deltaTime).timePassed + (k as real) * interval
    ensures 0.0 <= RepeaterStep(timePassed, interval, deltaTime).timePassed < interval
    ensures k == 1 <==> timePassed + deltaTime < 2.0 * interval
  {
    var acc := timePassed + deltaTime;
    CsFloat.RemOfExceeding(acc, interval);
    k := CsFloat.Trunc(acc / interval);
    var r := CsFloat.Rem(acc, interval);
    if k == 1 {
      assert acc == r + interval;
    } else {
      assert (k as real) >= 2.0;
      assert (k as real) * interval >= 2.0 * interval;
    }
  }

  /** A sequence of Repeater updates driven by the frame deltas `ds`. */
  function RepeaterRun(timePassed: real, interval: real, ds: seq<real>): Run
    requires interval > 0.0
    decreases |ds|
  {
    if ds == [] then Run(0, timePassed)
    else
      var s := RepeaterStep(timePassed, interval, ds[0]);
      var rest := RepeaterRun(s.timePassed, interval, ds[1..]);
      Run(rest.fires + (if s.fires then 1 else 0), rest.timePassed)
  }

  /** One update with a delta below the interval moves exactly one interval out of the
      accumulator when it fires, and none when it does not. */
  lemma RepeaterStepSplits(timePassed: real, interval: real, deltaTime: real)
    requires interval > 0.0 && 0.0 <= timePassed <= interval && 0.0 <= deltaTime < interval
    ensures var s := RepeaterStep(timePassed, interval, deltaTime);
      && timePassed + deltaTime == s.timePassed + (if s.fires then interval else 0.0)
      && 0.0 <= s.timePassed <= interval
  {
    RepeaterStepBounded(timePassed, interval, deltaTime);
    if timePassed + deltaTime > interval {
      var k := RepeaterCarry(timePassed, interval, deltaTime);
    }
  }

  /** `n` whole intervals, written as repeated addition. */
  function Intervals(n: nat, interval: real): real
  {
    if n == 0 then 0.0 else Intervals(n - 1, interval) + interval
  }

  /** When no frame delta reaches a whole interval, every crossed boundary fires exactly once:
      the elapsed time splits into `fires` whole intervals plus the carried remainder. */
  lemma {:induction false} RepeaterRunCountsIntervals(timePassed: real, interval: real, ds: seq<real>)
    requires interval > 0.0 && 0.0 <= timePassed <= interval
    requires forall k :: 0 <= k < |ds| ==> 0.0 <= ds[k] < interval
    ensures timePassed + Sum(ds)
      == RepeaterRun(timePassed, interval, ds).timePassed + Intervals(RepeaterRun(timePassed, interval, ds).fires, interval)
    ensures 0.0 <= RepeaterRun(timePassed, interval, ds).timePassed <= interval
    decreases |ds|
  {
    if ds != [] {
      var tail := ds[1..];
      assert forall k :: 0 <= k < |tail| ==> 0.0 <= tail[k] < interval by {
        forall k | 0 <= k < |tail| ensures 0.0 <= tail[k] < interval {
          assert tail[k] == ds[k + 1];
        }
      }
      var s := RepeaterStep(timePassed, interval, ds[0]);
      RepeaterStepSplits(timePassed, interval, ds[0]);
      RepeaterRunCountsIntervals(s.timePassed, interval, tail);
    }
  }

  /** Countdown updates as the owning timer drives them: once `Completed` is set the timer is
      released instead of updated, so later deltas are not forwarded. */
  function GuardedCountdownRun(timePassed: real, exitTime: real, completed: bool, ds: seq<real>): Run
    decreases |ds|
  {
    if ds == [] || completed then Run(0, timePassed)
    else
      var s := CountdownStep(timePassed, exitTime, ds[0]);
      var rest := GuardedCountdownRun(s.timePassed, exitTime, s.fires, ds[1..]);
      Run(rest.fires + (if s.fires then 1 else 0), rest.timePassed)
  }

  /** A countdown that has not run out fires exactly once when the deltas fed to it add up to
      strictly more than the exit time, and not at all otherwise. */
  lemma {:induction false} GuardedCountdownFiresOnce(timePassed: real, exitTime: real, ds: seq<real>)
    requires timePassed <= exitTime && NonNegative(ds)
    ensures GuardedCountdownRun(timePassed, exitTime, false, ds).fires
      == if timePassed + Sum(ds) > exitTime then 1 else 0
    decreases |ds|
  {
    if ds != [] {
      var s := CountdownStep(timePassed, exitTime, ds[0]);
      assert NonNegative(ds[1..]);
      SumNonNegative(ds[1..]);
      if !s.fires {
        GuardedCountdownFiresOnce(s.timePassed, exitTime, ds[1..]);
      }
    }
  }

  /** Countdown updates with no completion guard, as `Update` itself behaves. */
  function UnguardedCountdownRun(timePassed: real, exitTime: real, ds: seq<real>): Run
    decreases |ds|
  {
    if ds == [] then Run(0, timePassed)
    else
      var s := CountdownStep(timePassed, exitTime, ds[0]);
      var rest := UnguardedCountdownRun(s.timePassed, exitTime, ds[1..]);
      Run(rest.fires + (if s.fires then 1 else 0), rest.timePassed)
  }

  /** `Update` has no guard of its own: once past the exit time, every further update with a
      non-negative delta fires the callback again. */
  lemma {:induction false} UnguardedCountdownRefires(timePassed: real, exitTime: real, ds: seq<real>)
    requires timePassed > exitTime && NonNegative(ds)
    ensures UnguardedCountdownRun(timePassed, exitTime, ds).fires == |ds|
    ensures UnguardedCountdownRun(timePassed, exitTime, ds).timePassed == timePassed + Sum(ds)
    decreases |ds|
  {
    if ds != [] {
      assert NonNegative(ds[1..]);
      UnguardedCountdownRefires(timePassed + ds[0], exitTime, ds[1..]);
    }
  }
}
