/** The numeric stepper of the settings page: two buttons that move a value
    by `step`, clamped to `[min, max]`. Values are integers here. */
module Stepper {

  /** `Math.max(min, value - step)`. */
  function Dec(value: int, min: int, step: int): (r: int)
    ensures r >= min
    ensures r == min || r == value - step
    ensures value - step >= min ==> r == value - step
  {
    if value - step >= min then value - step else min
  }

  /** `Math.min(max, value + step)`. */
  function Inc(value: int, max: int, step: int): (r: int)
    ensures r <= max
    ensures r == max || r == value + step
    ensures value + step <= max ==> r == value + step
  {
    if value + step <= max then value + step else max
  }

  /** With a non-negative step, neither button moves a value inside the
      range out of it, and each moves the value only in its own direction. */
  lemma StepsStayInRange(value: int, min: int, max: int, step: int)
    requires min <= value <= max && step >= 0
    ensures min <= Dec(value, min, step) <= value
    ensures value <= Inc(value, max, step) <= max
  {
  }

  /** At the bounds the buttons have no effect. */
  lemma StepsSaturate(min: int, max: int, step: int)
    requires step >= 0
    ensures Dec(min, min, step) == min
    ensures Inc(max, max, step) == max
  {
  }

  /** Pressing a button `k` times from `value`. */
  function DecTimes(value: int, min: int, step: int, k: nat): int {
    if k == 0 then value else Dec(DecTimes(value, min, step, k - 1), min, step)
  }

  /** Pressing "−" `k` times lands on `max(min, value - k * step)`: the clamp
      applied once at the end. */
  lemma {:induction false} DecTimesClamps(value: int, min: int, step: int, k: nat)
    requires value >= min && step >= 0
    ensures DecTimes(value, min, step, k) == if value - k * step >= min then value - k * step else min
  {
    if k > 0 {
      DecTimesClamps(value, min, step, k - 1);
      assert value - k * step == value - (k - 1) * step - step;
    }
  }
}
