/** The per-frame animation steps of the player window: the lyric scroll
    (`animate_lyrics`), the playlist drop-down (`animate_dropdown`) and the
    drifting background (`_animate_background`). Each function is one
    frame; the timers that repeat them are not modelled. */
module Easing {

  function Abs(x: real): real {
    if x < 0.0 then -x else x
  }

  function Max(a: real, b: real): real {
    if a < b then b else a
  }

  /** `b` to the power `n`. */
  function Pow(b: real, n: nat): real {
    if n == 0 then 1.0 else b * Pow(b, n - 1)
  }

  /** `y` lies between `x` and `z` (either way round). */
  predicate Between(x: real, y: real, z: real) {
    (x <= y <= z) || (z <= y <= x)
  }

  // ---------------------------------------------------------------------
  // Lyric scroll
  // ---------------------------------------------------------------------

  /** Distance below which the lyric scroll stops moving, in pixels. */
  const ScrollDeadZone: real := 0.5

  /** The fraction of its distance to the target that the scroll keeps
      after a moving frame. */
  function Retain(smoothing: real): real {
    1.0 - smoothing
  }

  /** One `animate_lyrics` frame: move the scroll offset by the fraction
      `smoothing` of its distance to the target, unless that distance is at
      most half a pixel. */
  function ScrollStep(offset: real, target: real, smoothing: real): real {
    var diff := target - offset;
    if Abs(diff) > ScrollDeadZone then offset + diff * smoothing else offset
  }

  /** For a smoothing factor in (0, 1] a frame never overshoots: the new
      offset lies between the old one and the target, and the distance
      shrinks to the fraction `1 - smoothing`; within half a pixel nothing
      moves. */
  lemma ScrollStepApproaches(offset: real, target: real, smoothing: real)
    requires 0.0 < smoothing <= 1.0
    ensures Abs(target - offset) <= ScrollDeadZone ==> ScrollStep(offset, target, smoothing) == offset
    ensures Abs(target - offset) > ScrollDeadZone ==>
      Between(offset, ScrollStep(offset, target, smoothing), target)
      && Abs(target - ScrollStep(offset, target, smoothing)) == Retain(smoothing) * Abs(target - offset)
  {
    var d := target - offset;
    if Abs(d) > ScrollDeadZone {
      var m := d * smoothing;
      assert ScrollStep(offset, target, smoothing) == offset + m;
      assert Retain(smoothing) * d == d - m;
      if d > 0.0 {
        assert 0.0 <= m <= d;
      } else {
        assert d <= m <= 0.0;
      }
    }
  }

  /** `k` frames of the lyric scroll towards a fixed target. */
  function ScrollRun(offset: real, target: real, smoothing: real, k: nat): real
    decreases k
  {
    if k == 0 then offset else ScrollRun(ScrollStep(offset, target, smoothing), target, smoothing, k - 1)
  }

  /** Once within the dead zone the scroll stays where it is. */
  lemma {:induction false} ScrollRunAtRest(offset: real, target: real, smoothing: real, k: nat)
    requires Abs(target - offset) <= ScrollDeadZone
    ensures ScrollRun(offset, target, smoothing, k) == offset
    ensures Abs(target - ScrollRun(offset, target, smoothing, k)) == Abs(target - offset)
    decreases k
  {
    if k > 0 {
      ScrollRunAtRest(offset, target, smoothing, k - 1);
    }
  }

  /** What is left of a distance `d` after `k` moving frames. */
  function Remaining(smoothing: real, k: nat, d: real): real {
    Pow(Retain(smoothing), k) * d
  }

  lemma RemainingNone(smoothing: real, d: real)
    ensures Remaining(smoothing, 0, d) == d
  {
  }

  lemma RemainingStep(smoothing: real, k: nat, a: real, d: real)
    requires k > 0 && d == Retain(smoothing) * a
    ensures Remaining(smoothing, k - 1, d) == Remaining(smoothing, k, a)
  {
    ScaleStep(Pow(Retain(smoothing), k - 1), d, Retain(smoothing), a, Pow(Retain(smoothing), k));
  }

  /** `p * d == q * a` once `d == r * a` and `q == r * p`. */
  lemma ScaleStep(p: real, d: real, r: real, a: real, q: real)
    requires d == r * a && q == r * p
    ensures p * d == q * a
  {
  }

  /** After `k` frames the scroll is within half a pixel of the target or
      has closed all but the fraction `(1 - smoothing)^k` of the distance. */
  lemma {:induction false} ScrollRunConverges(offset: real, target: real, smoothing: real, k: nat)
    requires 0.0 < smoothing <= 1.0
    ensures Abs(target - ScrollRun(offset, target, smoothing, k))
         <= Max(ScrollDeadZone, Remaining(smoothing, k, Abs(target - offset)))
    decreases k
  {
    var bound := Remaining(smoothing, k, Abs(target - offset));
    assert ScrollDeadZone <= Max(ScrollDeadZone, bound) && bound <= Max(ScrollDeadZone, bound);
    if k == 0 {
      RemainingNone(smoothing, Abs(target - offset));
    } else if Abs(target - offset) <= ScrollDeadZone {
      ScrollRunAtRest(offset, target, smoothing, k);
    } else {
      var next := ScrollStep(offset, target, smoothing);
      ScrollStepApproaches(offset, target, smoothing);
      ScrollRunConverges(next, target, smoothing, k - 1);
      RemainingStep(smoothing, k, Abs(target - offset), Abs(target - next));
    }
  }

  // ---------------------------------------------------------------------
  // Playlist drop-down
  // ---------------------------------------------------------------------

  /** The fraction of the remaining height the drop-down covers per frame. */
  const DropdownFactor: real := 0.3

  /** One `animate_dropdown` frame: close 30% of the gap while it exceeds
      one pixel, then snap exactly onto the target. */
  function DropdownStep(current: real, target: real): real {
    var diff := target - current;
    if Abs(diff) > 1.0 then current + diff * DropdownFactor else target
  }

  /** A frame never overshoots: the height stays between its old value and
      the target; a gap over one pixel shrinks to 70%, and a smaller one
      closes completely. */
  lemma DropdownStepApproaches(current: real, target: real)
    ensures Between(current, DropdownStep(current, target), target)
    ensures Abs(target - current) <= 1.0 ==> DropdownStep(current, target) == target
    ensures Abs(target - current) > 1.0 ==>
      Abs(target - DropdownStep(current, target)) == 0.7 * Abs(target - current)
  {
    if Abs(target - current) > 1.0 {
      assert target - DropdownStep(current, target) == 0.7 * (target - current);
    }
  }

  /** `k` drop-down frames towards a fixed target. */
  function DropdownRun(current: real, target: real, k: nat): real
    decreases k
  {
    if k == 0 then current else DropdownRun(DropdownStep(current, target), target, k - 1)
  }

  /** The animation ends: from a gap of at most `(10/7)^n` pixels the
      drop-down sits exactly on its target after `n + 1` frames, and stays
      there. */
  lemma {:induction false} DropdownSettles(current: real, target: real, n: nat)
    requires Abs(target - current) <= Pow(10.0 / 7.0, n)
    ensures DropdownRun(current, target, n + 1) == target
    decreases n
  {
    DropdownStepApproaches(current, target);
    var next := DropdownStep(current, target);
    if Abs(target - current) <= 1.0 {
      DropdownRunAtTarget(target, n);
    } else {
      assert n > 0;
      assert Abs(target - next) <= Pow(10.0 / 7.0, n - 1);
      DropdownSettles(next, target, n - 1);
    }
  }

  lemma {:induction false} DropdownRunAtTarget(target: real, k: nat)
    ensures DropdownRun(target, target, k) == target
    decreases k
  {
    if k > 0 {
      DropdownRunAtTarget(target, k - 1);
    }
  }

  // ---------------------------------------------------------------------
  // Background drift
  // ---------------------------------------------------------------------

  /** Phase gained per frame. */
  const PhaseSpeed: real := 0.01

  /** Length of one drift cycle. */
  const PhaseCycle: real := 4.0

  /** The phase after one frame: it advances and wraps to 0 at 4. */
  function PhaseStep(phase: real): real {
    var p := phase + PhaseSpeed;
    if p >= PhaseCycle then 0.0 else p
  }

  /** The background offset for a phase, each coordinate in [-1, 1]: four
      legs going down, right, up and left around the square. */
  function BgOffset(phase: real): (real, real) {
    var (x, y) :=
      if phase < 1.0 then (0.0, phase)
      else if phase < 2.0 then (phase - 1.0, 1.0)
      else if phase < 3.0 then (1.0, 1.0 - (phase - 2.0))
      else (1.0 - (phase - 3.0), 0.0);
    ((x - 0.5) * 2.0, (y - 0.5) * 2.0)
  }

  /** The phase stays in [0, 4). */
  lemma PhaseStepInRange(phase: real)
    requires 0.0 <= phase < PhaseCycle
    ensures 0.0 <= PhaseStep(phase) < PhaseCycle
  {
  }

  /** The offsets stay in [-1, 1], pass the four corners of the square at
      the phases 0, 1, 2 and 3, and the end of a cycle meets its start. */
  lemma BgOffsetPath(phase: real)
    requires 0.0 <= phase <= PhaseCycle
    ensures -1.0 <= BgOffset(phase).0 <= 1.0 && -1.0 <= BgOffset(phase).1 <= 1.0
    ensures BgOffset(0.0) == (-1.0, -1.0) && BgOffset(1.0) == (-1.0, 1.0)
    ensures BgOffset(2.0) == (1.0, 1.0) && BgOffset(3.0) == (1.0, -1.0)
    ensures BgOffset(PhaseCycle) == BgOffset(0.0)
  {
  }

  /** The drift has no jumps: between two phases of a cycle each offset
      moves by at most twice the phase difference. */
  lemma BgOffsetContinuous(p: real, q: real)
    requires 0.0 <= p <= PhaseCycle && 0.0 <= q <= PhaseCycle
    ensures Abs(BgOffset(p).0 - BgOffset(q).0) <= 2.0 * Abs(p - q)
    ensures Abs(BgOffset(p).1 - BgOffset(q).1) <= 2.0 * Abs(p - q)
  {
  }
}
