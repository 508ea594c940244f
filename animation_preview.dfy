/**
 * The playback of `AnimationPreview.tsx`: each animation-frame callback
 * (a tick) either advances the shown frame according to the animation type
 * or waits until the current frame's duration has elapsed. The component's
 * state (`direction`, `animationComplete`) and the last-advance timestamp
 * are the fields of `Preview`; `currentFrameIndex` stands for the parent's
 * index that `onFrameChange` sets.
 */
module AnimationPreview {
  import Easing
  import AnimationUtils

  datatype AnimationType = Loop | Bounce | Once | Reverse
  datatype Direction = Forward | Backward

  /** The outcome of one advance: the next index, direction and completion flag. */
  datatype Step = Step(index: int, direction: Direction, complete: bool)

  /** JavaScript's `%`, whose result takes the sign of the dividend. */
  function JsRem(a: int, n: int): (r: int)
    requires n > 0
    ensures a >= 0 ==> r == a % n
    ensures -n < r < n
  {
    if a >= 0 then a % n else -((-a) % n)
  }

  /**
   * The switch over animation types in `animate`, for `n` frames with frame
   * `current` showing.
   */
  function NextFrame(kind: AnimationType, direction: Direction, complete: bool, current: int, n: nat): (r: Step)
    requires n >= 2
  {
    match kind
    case Loop => Step(JsRem(current + 1, n), direction, complete)
    case Bounce =>
      if direction == Forward then
        (if current + 1 >= n - 1 then Step(n - 1, Backward, complete) else Step(current + 1, direction, complete))
      else
        (if current - 1 <= 0 then Step(0, Forward, complete) else Step(current - 1, direction, complete))
    case Once =>
      if current + 1 >= n then Step(n - 1, direction, true) else Step(current + 1, direction, complete)
    case Reverse =>
      if current - 1 < 0 then Step(n - 1, direction, complete) else Step(current - 1, direction, complete)
  }

  /**
   * For a frame of the animation the next frame is one of the animation's,
   * and each type moves as it promises: loop steps forward and wraps to 0,
   * reverse steps back and wraps to the last frame, bounce turns round at
   * either end, once stops on the last frame and marks the run complete.
   */
  lemma NextFrameFacts(kind: AnimationType, direction: Direction, complete: bool, current: int, n: nat)
    requires n >= 2 && 0 <= current < n
    ensures var r := NextFrame(kind, direction, complete, current, n);
      0 <= r.index < n
      && (kind == Loop ==> r.index == (if current == n - 1 then 0 else current + 1))
      && (kind == Reverse ==> r.index == (if current == 0 then n - 1 else current - 1))
      && (kind == Bounce && direction == Forward ==>
            r.index == (if current + 1 >= n - 1 then n - 1 else current + 1)
            && (r.direction == Backward <==> r.index == n - 1))
      && (kind == Bounce && direction == Backward ==>
            r.index == (if current <= 1 then 0 else current - 1)
            && (r.direction == Forward <==> r.index == 0))
      && (kind == Once ==>
            r.index == (if current == n - 1 then n - 1 else current + 1)
            && (r.complete <==> complete || current == n - 1))
      && (kind != Once ==> r.complete == complete)
      && (kind != Bounce ==> r.direction == direction)
  {
  }

  /** A loop step undone by a reverse step returns to the same frame. */
  lemma ReverseUndoesLoop(current: int, n: nat)
    requires n >= 2 && 0 <= current < n
    ensures var fwd := NextFrame(Loop, Forward, false, current, n);
      NextFrame(Reverse, Forward, false, fwd.index, n).index == current
  {
    NextFrameFacts(Loop, Forward, false, current, n);
  }

  /** The frame shown after `k` loop steps from `current`. */
  function LoopAfter(current: int, k: nat, n: nat): int
    requires n >= 2
  {
    if k == 0 then current else NextFrame(Loop, Forward, false, LoopAfter(current, k - 1, n), n).index
  }

  /** The remainder is determined by any quotient-remainder decomposition. */
  lemma ModUnique(a: int, n: int, q: int, r: int)
    requires n > 0 && 0 <= r < n && a == q * n + r
    ensures a % n == r
  {
    var d := q - a / n;
    assert d * n == a % n - r;
  }

  /** Counting one further modulo `n`. */
  lemma ModSucc(a: nat, n: int)
    requires n > 0
    ensures (a % n + 1) % n == (a + 1) % n
  {
    var q, r := a / n, a % n;
    if r + 1 < n {
      ModUnique(a + 1, n, q, r + 1);
      ModUnique(r + 1, n, 0, r + 1);
    } else {
      ModUnique(a + 1, n, q + 1, 0);
      ModUnique(r + 1, n, 1, 0);
    }
  }

  /** Looping is counting modulo the frame count: after `k` steps frame `(current + k) mod n` shows. */
  lemma {:induction false} LoopAfterCounts(current: int, k: nat, n: nat)
    requires n >= 2 && 0 <= current < n
    ensures LoopAfter(current, k, n) == (current + k) % n
  {
    if k > 0 {
      LoopAfterCounts(current, k - 1, n);
      var prev := (current + k - 1) % n;
      assert LoopAfter(current, k, n) == JsRem(prev + 1, n);
      ModSucc(current + k - 1, n);
    }
  }

  /** A full cycle of `n` loop steps returns to the starting frame. */
  lemma LoopCycle(current: int, n: nat)
    requires n >= 2 && 0 <= current < n
    ensures LoopAfter(current, n, n) == current
  {
    LoopAfterCounts(current, n, n);
    ModUnique(current + n, n, 1, current);
  }

  /** `baseDuration`: one second divided by the frame rate of the speed setting. */
  function BaseDuration(speed: real): (d: real)
    ensures 1000.0 / 24.0 <= d <= 1000.0
  {
    var fps := AnimationUtils.CalculateFps(speed);
    DivideBounds(fps);
    1000.0 / fps
  }

  lemma DivideBounds(fps: real)
    requires 1.0 <= fps <= 24.0
    ensures 1000.0 / 24.0 <= 1000.0 / fps <= 1000.0
  {
  }

  /** The preview's playback state. */
  class Preview {
    var direction: Direction
    var animationComplete: bool
    var lastFrameTime: real
    var currentFrameIndex: int

    /** A fresh preview plays forward, is not complete and has not advanced yet. */
    constructor (currentFrameIndex: int)
      ensures direction == Forward && !animationComplete && lastFrameTime == 0.0
      ensures this.currentFrameIndex == currentFrameIndex
    {
      direction := Forward;
      animationComplete := false;
      lastFrameTime := 0.0;
      this.currentFrameIndex := currentFrameIndex;
    }

    /** The effect on `isPlaying`: starting playback clears the completion flag. */
    method PlayingChanged(isPlaying: bool)
      modifies this
      ensures isPlaying ==> !animationComplete
      ensures !isPlaying ==> animationComplete == old(animationComplete)
      ensures direction == old(direction) && lastFrameTime == old(lastFrameTime)
      ensures currentFrameIndex == old(currentFrameIndex)
    {
      if isPlaying {
        animationComplete := false;
      }
    }

    /**
     * One `animate` callback at time `timestamp`. Nothing happens while
     * paused, with fewer than two frames or after a `once` run completed;
     * otherwise the frame advances once its eased duration has elapsed.
     */
    method Tick(timestamp: real, isPlaying: bool, frameCount: nat, kind: AnimationType, easing: string, speed: real)
      modifies this
      ensures !isPlaying || frameCount <= 1 || old(animationComplete)
        || timestamp - old(lastFrameTime) < Easing.FrameDuration(easing, BaseDuration(speed), frameCount, old(currentFrameIndex))
        ==> direction == old(direction) && animationComplete == old(animationComplete)
            && lastFrameTime == old(lastFrameTime) && currentFrameIndex == old(currentFrameIndex)
      ensures isPlaying && frameCount > 1 && !old(animationComplete)
        && timestamp - old(lastFrameTime) >= Easing.FrameDuration(easing, BaseDuration(speed), frameCount, old(currentFrameIndex))
        ==> lastFrameTime == timestamp
            && Step(currentFrameIndex, direction, animationComplete)
               == NextFrame(kind, old(direction), old(animationComplete), old(currentFrameIndex), frameCount)
    {
      if !isPlaying || frameCount <= 1 || animationComplete {
        return;
      }
      var frameDuration := Easing.FrameDuration(easing, BaseDuration(speed), frameCount, currentFrameIndex);
      if timestamp - lastFrameTime >= frameDuration {
        lastFrameTime := timestamp;
        var nextIndex := currentFrameIndex;
        match kind {
          case Loop =>
            nextIndex := JsRem(currentFrameIndex + 1, frameCount);
          case Bounce =>
            if direction == Forward {
              nextIndex := currentFrameIndex + 1;
              if nextIndex >= frameCount - 1 {
                nextIndex := frameCount - 1;
                direction := Backward;
              }
            } else {
              nextIndex := currentFrameIndex - 1;
              if nextIndex <= 0 {
                nextIndex := 0;
                direction := Forward;
              }
            }
          case Once =>
            nextIndex := currentFrameIndex + 1;
            if nextIndex >= frameCount {
              nextIndex := frameCount - 1;
              animationComplete := true;
            }
          case Reverse =>
            nextIndex := currentFrameIndex - 1;
            if nextIndex < 0 {
              nextIndex := frameCount - 1;
            }
        }
        currentFrameIndex := nextIndex;
      }
    }
  }

  /**
   * Playback never leaves the animation: from a frame of the animation, a
   * tick's next frame is again one of its frames.
   */
  lemma TickStaysInRange(kind: AnimationType, direction: Direction, complete: bool, current: int, n: nat)
    requires n >= 2 && 0 <= current < n
    ensures 0 <= NextFrame(kind, direction, complete, current, n).index < n
  {
    NextFrameFacts(kind, direction, complete, current, n);
  }
}
