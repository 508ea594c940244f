/**
 * The easing curves of `easingFunctions.ts` and the per-frame duration the
 * preview derives from them. Progress values and durations are reals.
 */
module Easing {

  /** `linear`: progress unchanged. */
  function Linear(t: real): (r: real)
    ensures r == t
  {
    t
  }

  /** `easeIn`: slow start, `t * t`. */
  function EaseIn(t: real): real {
    t * t
  }

  /** `easeOut`: slow end, `t * (2 - t)`. */
  function EaseOut(t: real): real {
    t * (2.0 - t)
  }

  /** `easeInOut`: the ease-in parabola up to one half, the ease-out parabola after. */
  function EaseInOut(t: real): real {
    if t < 0.5 then 2.0 * t * t else -1.0 + (4.0 - 2.0 * t) * t
  }

  /** A product of two non-negative reals is non-negative. */
  lemma ProductNonneg(x: real, y: real)
    requires x >= 0.0 && y >= 0.0
    ensures x * y >= 0.0
  {
  }

  /** The ease-in curve fixes both ends, stays in [0, 1] and never decreases on [0, 1]. */
  lemma EaseInShape(a: real, b: real)
    requires 0.0 <= a <= b <= 1.0
    ensures EaseIn(0.0) == 0.0 && EaseIn(1.0) == 1.0
    ensures 0.0 <= EaseIn(a) <= EaseIn(b) <= 1.0
  {
    ProductNonneg(a, a);
    assert EaseIn(b) - EaseIn(a) == (b - a) * (b + a);
    ProductNonneg(b - a, b + a);
    assert 1.0 - EaseIn(b) == (1.0 - b) * (1.0 + b);
    ProductNonneg(1.0 - b, 1.0 + b);
  }

  /** The ease-out curve fixes both ends, stays in [0, 1] and never decreases on [0, 1]. */
  lemma EaseOutShape(a: real, b: real)
    requires 0.0 <= a <= b <= 1.0
    ensures EaseOut(0.0) == 0.0 && EaseOut(1.0) == 1.0
    ensures 0.0 <= EaseOut(a) <= EaseOut(b) <= 1.0
  {
    ProductNonneg(a, 2.0 - a);
    assert EaseOut(b) - EaseOut(a) == (b - a) * (2.0 - a - b);
    ProductNonneg(b - a, 2.0 - a - b);
    assert 1.0 - EaseOut(b) == (1.0 - b) * (1.0 - b);
    ProductNonneg(1.0 - b, 1.0 - b);
  }

  /** On [0, 1/2) ease-in-out takes values in [0, 1/2). */
  lemma EaseInOutLowHalf(a: real)
    requires 0.0 <= a < 0.5
    ensures 0.0 <= EaseInOut(a) < 0.5
  {
    var sq := a * a;
    ProductNonneg(a, a);
    assert EaseInOut(a) == 2.0 * sq;
    ProductNonneg(a, 0.5 - a);
    assert a * (0.5 - a) == 0.5 * a - sq;
    assert sq < 0.25;
  }

  /** On [1/2, 1] ease-in-out takes values in [1/2, 1]. */
  lemma EaseInOutHighHalf(b: real)
    requires 0.5 <= b <= 1.0
    ensures 0.5 <= EaseInOut(b) <= 1.0
  {
    assert EaseInOut(b) - 0.5 == 2.0 * ((b - 0.5) * (1.5 - b));
    ProductNonneg(b - 0.5, 1.5 - b);
    assert 1.0 - EaseInOut(b) == 2.0 * ((1.0 - b) * (1.0 - b));
    ProductNonneg(1.0 - b, 1.0 - b);
  }

  /**
   * Both halves of the ease-in-out curve are one half at one half; the ends
   * are fixed and the curve stays in [0, 1], never decreasing.
   */
  lemma EaseInOutShape(a: real, b: real)
    requires 0.0 <= a <= b <= 1.0
    ensures 2.0 * 0.5 * 0.5 == 0.5 && -1.0 + (4.0 - 2.0 * 0.5) * 0.5 == 0.5 && EaseInOut(0.5) == 0.5
    ensures EaseInOut(0.0) == 0.0 && EaseInOut(1.0) == 1.0
    ensures 0.0 <= EaseInOut(a) <= EaseInOut(b) <= 1.0
  {
    if b < 0.5 {
      EaseInOutLowHalf(a);
      EaseInOutLowHalf(b);
      assert EaseInOut(b) - EaseInOut(a) == 2.0 * ((b - a) * (b + a));
      ProductNonneg(b - a, b + a);
    } else if a < 0.5 {
      EaseInOutLowHalf(a);
      EaseInOutHighHalf(b);
    } else {
      EaseInOutHighHalf(a);
      EaseInOutHighHalf(b);
      assert EaseInOut(b) - EaseInOut(a) == 2.0 * ((b - a) * (2.0 - a - b));
      ProductNonneg(b - a, 2.0 - a - b);
    }
  }

  /** `applyEasing`: the curve named by `easing`; any other name leaves `t` as it is. */
  function ApplyEasing(easing: string, t: real): (r: real)
    ensures easing == "linear" ==> r == Linear(t)
    ensures easing == "ease-in" ==> r == EaseIn(t)
    ensures easing == "ease-out" ==> r == EaseOut(t)
    ensures easing == "ease-in-out" ==> r == EaseInOut(t)
    ensures easing != "linear" && easing != "ease-in" && easing != "ease-out" && easing != "ease-in-out" ==> r == t
  {
    match easing
    case "linear" => Linear(t)
    case "ease-in" => EaseIn(t)
    case "ease-out" => EaseOut(t)
    case "ease-in-out" => EaseInOut(t)
    case _ => t
  }

  /** Every curve, and the fallback, maps [0, 1] into [0, 1] with 0 going to 0 and 1 to 1. */
  lemma ApplyEasingRange(easing: string, t: real)
    requires 0.0 <= t <= 1.0
    ensures 0.0 <= ApplyEasing(easing, t) <= 1.0
    ensures ApplyEasing(easing, 0.0) == 0.0 && ApplyEasing(easing, 1.0) == 1.0
  {
    if easing == "ease-in" {
      EaseInShape(t, t);
    } else if easing == "ease-out" {
      EaseOutShape(t, t);
    } else if easing == "ease-in-out" {
      EaseInOutShape(t, t);
    }
  }

  /** The normalised position `frameIndex / (frameCount - 1)` of a frame of the animation. */
  lemma PositionInUnit(frameIndex: int, frameCount: int)
    requires frameCount > 1 && 0 <= frameIndex <= frameCount - 1
    ensures 0.0 <= frameIndex as real / (frameCount - 1) as real <= 1.0
    ensures frameIndex == 0 ==> frameIndex as real / (frameCount - 1) as real == 0.0
    ensures frameIndex == frameCount - 1 ==> frameIndex as real / (frameCount - 1) as real == 1.0
  {
    var d := (frameCount - 1) as real;
    var t := frameIndex as real / d;
    assert t * d == frameIndex as real;
    if t > 1.0 {
      assert t * d > d;
    }
  }

  /** `getFrameDuration`: the base duration scaled by one half plus the eased position of the frame. */
  function FrameDuration(easing: string, baseDuration: real, frameCount: int, frameIndex: int): (r: real)
    ensures easing == "linear" || frameCount <= 1 ==> r == baseDuration
  {
    if easing == "linear" || frameCount <= 1 then baseDuration
    else
      var t := frameIndex as real / (frameCount - 1) as real;
      baseDuration * (0.5 + ApplyEasing(easing, t))
  }

  /**
   * For a frame of the animation the duration is between one half and
   * three halves of the base duration; the first frame gets one half and
   * the last three halves, unless the easing is linear.
   */
  lemma FrameDurationBounds(easing: string, baseDuration: real, frameCount: int, frameIndex: int)
    requires baseDuration >= 0.0 && 0 <= frameIndex <= frameCount - 1
    ensures 0.5 * baseDuration <= FrameDuration(easing, baseDuration, frameCount, frameIndex) <= 1.5 * baseDuration
    ensures easing != "linear" && frameCount > 1 && frameIndex == 0 ==>
      FrameDuration(easing, baseDuration, frameCount, frameIndex) == 0.5 * baseDuration
    ensures easing != "linear" && frameCount > 1 && frameIndex == frameCount - 1 ==>
      FrameDuration(easing, baseDuration, frameCount, frameIndex) == 1.5 * baseDuration
  {
    if easing != "linear" && frameCount > 1 {
      var t := frameIndex as real / (frameCount - 1) as real;
      PositionInUnit(frameIndex, frameCount);
      ApplyEasingRange(easing, t);
      var m := 0.5 + ApplyEasing(easing, t);
      assert 0.5 <= m <= 1.5;
      assert baseDuration * m - 0.5 * baseDuration == baseDuration * (m - 0.5);
      ProductNonneg(baseDuration, m - 0.5);
      assert 1.5 * baseDuration - baseDuration * m == baseDuration * (1.5 - m);
      ProductNonneg(baseDuration, 1.5 - m);
    }
  }
}
