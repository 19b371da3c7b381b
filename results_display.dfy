/** The results panel: the count-up animation of the apple count and the
    frames-processed percentage. */
module ResultsDisplay {
  import opened ApiTypes

  /** a <= b implies a * c <= b * c for a non-negative factor. */
  lemma MulMono(a: int, b: int, c: nat)
    requires a <= b
    ensures a * c <= b * c
  {
  }

  /** `Math.max(1, Math.floor(target / 100))`: at least 1, otherwise one per cent
      of the target rounded down. */
  function CountStep(target: nat): (step: nat)
    ensures step >= 1
    ensures target >= 100 ==> step * 100 <= target < (step + 1) * 100
    ensures target < 100 ==> step == 1
  {
    if target / 100 > 1 then target / 100 else 1
  }

  /** The value on screen after the k-th timer callback: `count` is k * step, and
      the display is capped at the target. */
  function ShownAfter(target: nat, k: nat): nat {
    if k * CountStep(target) >= target then target else k * CountStep(target)
  }

  /** The number of timer callbacks before `clearInterval`: the first k >= 1 whose
      count reaches the target. */
  function FinishTick(target: nat): (n: nat)
    ensures n >= 1
    ensures n * CountStep(target) >= target
    ensures n == 1 || (n - 1) * CountStep(target) < target
  {
    var step := CountStep(target);
    if target == 0 then 1
    else
      var n := (target + step - 1) / step;
      assert n * step <= target + step - 1 < (n + 1) * step;
      MulMono(1, n, step);
      n
  }

  /** The displayed count never decreases from one callback to a later one. */
  lemma ShownMonotone(target: nat, i: nat, j: nat)
    requires i <= j
    ensures ShownAfter(target, i) <= ShownAfter(target, j) <= target
  {
    MulMono(i, j, CountStep(target));
  }

  /** The least tick whose count reaches the target is FinishTick. */
  lemma FinishTickIsFirst(target: nat, k: nat)
    requires k >= 1 && k * CountStep(target) >= target
    requires k == 1 || (k - 1) * CountStep(target) < target
    ensures k == FinishTick(target)
  {
    var n, step := FinishTick(target), CountStep(target);
    if k < n {
      MulMono(k, n - 1, step);
    } else if k > n {
      MulMono(n, k - 1, step);
    }
  }

  /** The count-up interval: each callback adds `step` to `count`; below the target
      the count is shown, otherwise the target is shown and the interval is cleared.
      `shown` lists the displayed value after each callback. */
  method CountUp(target: nat) returns (shown: seq<nat>)
    ensures |shown| == FinishTick(target)
    ensures forall k :: 0 <= k < |shown| ==> shown[k] == ShownAfter(target, k + 1)
    ensures shown[|shown| - 1] == target
    ensures forall k :: 0 <= k < |shown| - 1 ==> shown[k] < target
  {
    var step := if target / 100 > 1 then target / 100 else 1;
    var count := 0;
    var running := true;
    shown := [];
    while running
      invariant step == CountStep(target)
      invariant count == |shown| * step
      invariant running ==> shown == [] || count < target
      invariant !running ==> shown != [] && count >= target
      invariant forall k :: 0 <= k < |shown| ==> shown[k] == ShownAfter(target, k + 1)
      invariant forall k :: 0 <= k < |shown| - 1 ==> shown[k] < target
      invariant !running ==> |shown| == 1 || (|shown| - 1) * step < target
      decreases if running then target - count + 1 else 0
    {
      count := count + step;
      if count >= target {
        shown := shown + [target];
        running := false;
      } else {
        shown := shown + [count];
      }
    }
    FinishTickIsFirst(target, |shown|);
  }

  /** The animation is short: at most 199 callbacks, and at most 150 once the target
      reaches 200 (where the step is one per cent of it). */
  lemma CountUpIsBounded(target: nat)
    ensures FinishTick(target) <= 199
    ensures target >= 200 ==> FinishTick(target) <= 150
  {
    var step, n := CountStep(target), FinishTick(target);
    if target >= 200 {
      assert step >= 2;
      // target <= 100 * step + 99, so target + step - 1 < 151 * step
      assert n * step <= target + step - 1;
      if n > 150 {
        MulMono(151, n, step);
        assert false;
      }
    } else if target > 0 {
      assert step == 1;
    }
  }

  /** `Math.round(frames_processed / total_frames * 100)`, done on integers: the
      percentage rounded half up. */
  function FramesPercent(framesProcessed: nat, totalFrames: nat): (p: int)
    requires totalFrames > 0
    ensures totalFrames * (2 * p - 1) <= 200 * framesProcessed < totalFrames * (2 * p + 1)
  {
    var q := (200 * framesProcessed + totalFrames) / (2 * totalFrames);
    assert q * (2 * totalFrames) <= 200 * framesProcessed + totalFrames < (q + 1) * (2 * totalFrames);
    q
  }

  /** A quotient is pinned down by the multiples of the divisor around the dividend. */
  lemma QuotientBetween(a: nat, d: nat, k: nat)
    requires d > 0 && a < (k + 1) * d
    ensures a / d <= k
    ensures k * d <= a ==> a / d == k
  {
    var q := a / d;
    assert q * d <= a;
    if q > k {
      MulMono(k + 1, q, d);
    }
    if k * d <= a && q < k {
      MulMono(q + 1, k, d);
    }
  }

  /** With frames_processed <= total_frames the percentage is in [0, 100], and it is
      exactly 100 when every frame was processed. */
  lemma FramesPercentInRange(framesProcessed: nat, totalFrames: nat)
    requires 0 < totalFrames && framesProcessed <= totalFrames
    ensures 0 <= FramesPercent(framesProcessed, totalFrames) <= 100
    ensures framesProcessed == totalFrames ==> FramesPercent(framesProcessed, totalFrames) == 100
  {
    var a, d := 200 * framesProcessed + totalFrames, 2 * totalFrames;
    assert a < 101 * d;
    QuotientBetween(a, d, 100);
    assert FramesPercent(framesProcessed, totalFrames) == a / d;
  }

  /** What the panel shows for one result: the displayed counts, one per callback,
      and the frames percentage. */
  datatype Panel = Panel(countFrames: seq<nat>, framesPercent: int)

  /** The component: null results render nothing and start no animation; otherwise
      the count-up runs to the apple count. */
  method Render(results: Option<JobResult>) returns (panel: Option<Panel>)
    requires results.Some? ==> results.value.totalFrames > 0
    ensures panel.None? <==> results.None?
    ensures panel.Some? ==> |panel.value.countFrames| >= 1
    ensures panel.Some? ==> |panel.value.countFrames| == FinishTick(results.value.appleCount)
    ensures panel.Some? ==> forall k :: 0 <= k < |panel.value.countFrames| ==>
      panel.value.countFrames[k] == ShownAfter(results.value.appleCount, k + 1)
    ensures panel.Some? ==>
      panel.value.framesPercent == FramesPercent(results.value.framesProcessed, results.value.totalFrames)
    ensures panel.Some? ==> panel.value.countFrames[|panel.value.countFrames| - 1] == results.value.appleCount
    ensures panel.Some? && results.value.framesProcessed <= results.value.totalFrames ==>
      0 <= panel.value.framesPercent <= 100
  {
    if results.None? {
      return None;
    }
    var r := results.value;
    var frames := CountUp(r.appleCount);
    var percent := FramesPercent(r.framesProcessed, r.totalFrames);
    if r.framesProcessed <= r.totalFrames {
      FramesPercentInRange(r.framesProcessed, r.totalFrames);
    }
    panel := Some(Panel(frames, percent));
  }
}
