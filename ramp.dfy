/**
 * The velocity ramp (slew-rate limit) of Robot::EnabledPeriodic: on every
 * enabled tick the commanded velocity moves toward the target by a fixed
 * up-step when below it and by a fixed, smaller down-step when above it,
 * and is clamped so that it never passes the target.
 */
module Ramp {

  /** Ramp rate the robot is constructed with, in RPM per second. */
  const DefaultRampRate: real := 50.0

  /** Per-tick increment used while the velocity is below the target. */
  function UpStep(rampRate: real): real { rampRate * 0.2 }

  /** Per-tick decrement used while the velocity is above the target. */
  function DownStep(rampRate: real): real { rampRate * 0.02 }

  function Min(a: real, b: real): real { if a <= b then a else b }

  function Max(a: real, b: real): real { if a >= b then a else b }

  function Abs(x: real): real { if x < 0.0 then -x else x }

  /**
   * One ramp step, in the order the tick performs it: add (or subtract) the
   * step first, then cap to the target if the step went past it.
   */
  function Advance(current: real, target: real, upStep: real, downStep: real): (next: real)
    // the result never passes the target, from either side
    ensures current <= target ==> next <= target
    ensures current >= target ==> next >= target
    // at the target the ramp is idempotent
    ensures current == target ==> next == current
    // below the target: one up-step, or the target itself if that is nearer
    ensures current < target ==> next == Min(current + upStep, target)
    // above the target: one down-step, or the target itself if that is nearer
    ensures current > target ==> next == Max(current - downStep, target)
    // with positive steps every tick off the target makes progress
    ensures upStep > 0.0 && current < target ==> next > current
    ensures downStep > 0.0 && current > target ==> next < current
    // with non-negative steps the distance to the target never grows
    ensures upStep >= 0.0 && downStep >= 0.0 ==> Abs(next - target) <= Abs(current - target)
  {
    if current < target then
      var raised := current + upStep;
      if raised > target then target else raised
    else if current > target then
      var lowered := current - downStep;
      if lowered < target then target else lowered
    else
      current
  }

  /** The velocity after `n` consecutive ticks toward a fixed target. */
  function Iterate(current: real, target: real, upStep: real, downStep: real, n: nat): (r: real)
    ensures current <= target ==> r <= target
    ensures current >= target ==> r >= target
    ensures upStep >= 0.0 && downStep >= 0.0 ==> Abs(r - target) <= Abs(current - target)
  {
    if n == 0 then current
    else Advance(Iterate(current, target, upStep, downStep, n - 1), target, upStep, downStep)
  }

  /** The least integer not below `x`. */
  function Ceil(x: real): (n: int)
    ensures n as real - 1.0 < x <= n as real
  {
    if x.Floor as real == x then x.Floor else x.Floor + 1
  }

  /**
   * The number of ticks the ramp needs to reach the target exactly:
   * ceil(distance / upStep) going up, ceil(distance / downStep) going down.
   */
  function TicksToReach(current: real, target: real, upStep: real, downStep: real): nat
    requires upStep > 0.0 && downStep > 0.0
  {
    if current < target then Ceil((target - current) / upStep)
    else if current > target then Ceil((current - target) / downStep)
    else 0
  }

  /** Peeling the first tick off instead of the last one. */
  lemma {:induction false} IterateFirst(current: real, target: real, upStep: real, downStep: real, n: nat)
    ensures Iterate(current, target, upStep, downStep, n + 1)
         == Iterate(Advance(current, target, upStep, downStep), target, upStep, downStep, n)
  {
    if n > 0 {
      IterateFirst(current, target, upStep, downStep, n - 1);
    }
  }

  /** Once the target is reached, every later tick stays on it. */
  lemma {:induction false} StaysAtTarget(current: real, target: real, upStep: real, downStep: real, m: nat, k: nat)
    requires m <= k
    requires Iterate(current, target, upStep, downStep, m) == target
    ensures Iterate(current, target, upStep, downStep, k) == target
  {
    if k > m {
      StaysAtTarget(current, target, upStep, downStep, m, k - 1);
    }
  }

  /** `k` whole steps laid end to end. */
  function Times(k: nat, step: real): real
  {
    if k == 0 then 0.0 else Times(k - 1, step) + step
  }

  lemma {:induction false} TimesIsProduct(k: nat, step: real)
    ensures Times(k, step) == k as real * step
  {
    if k > 0 {
      TimesIsProduct(k - 1, step);
    }
  }

  /** While the target is still at least `k` up-steps away, `k` ticks add exactly `k` up-steps. */
  lemma {:induction false} RisesLinearly(current: real, target: real, upStep: real, downStep: real, k: nat)
    requires upStep > 0.0
    requires current + Times(k, upStep) <= target
    ensures Iterate(current, target, upStep, downStep, k) == current + Times(k, upStep)
  {
    if k > 0 {
      var before := current + Times(k - 1, upStep);
      assert before + upStep <= target;
      RisesLinearly(current, target, upStep, downStep, k - 1);
      assert Iterate(current, target, upStep, downStep, k) == Advance(before, target, upStep, downStep);
    }
  }

  /** While the target is still at least `k` down-steps away, `k` ticks remove exactly `k` down-steps. */
  lemma {:induction false} FallsLinearly(current: real, target: real, upStep: real, downStep: real, k: nat)
    requires downStep > 0.0
    requires current - Times(k, downStep) >= target
    ensures Iterate(current, target, upStep, downStep, k) == current - Times(k, downStep)
  {
    if k > 0 {
      var before := current - Times(k - 1, downStep);
      assert before - downStep >= target;
      FallsLinearly(current, target, upStep, downStep, k - 1);
      assert Iterate(current, target, upStep, downStep, k) == Advance(before, target, upStep, downStep);
    }
  }

  lemma MulLess(a: real, b: real, c: real)
    requires a < b && c > 0.0
    ensures a * c < b * c
  {
    assert (b - a) * c > 0.0;
  }

  lemma MulAtMost(a: real, b: real, c: real)
    requires a <= b && c > 0.0
    ensures a * c <= b * c
  {
    assert (b - a) * c >= 0.0;
  }

  /** ceil(distance / step) is the least number of whole steps that cover `distance`. */
  lemma CeilSteps(distance: real, step: real)
    requires distance > 0.0 && step > 0.0
    ensures Ceil(distance / step) >= 1
    ensures Times(Ceil(distance / step) - 1, step) < distance
    ensures Times(Ceil(distance / step), step) >= distance
  {
    var q := distance / step;
    var N := Ceil(q);
    assert q * step == distance;
    MulLess(0.0, q, step);
    assert N >= 1;
    var below: nat := N - 1;
    assert below as real < q;
    MulLess(below as real, q, step);
    MulAtMost(q, N as real, step);
    assert below as real * step < distance;
    assert N as real * step >= distance;
    TimesIsProduct(below, step);
    TimesIsProduct(N, step);
    assert Times(below, step) < distance;
    assert Times(N, step) >= distance;
  }

  lemma {:induction false} TimesMono(a: nat, b: nat, step: real)
    requires a <= b && step > 0.0
    ensures Times(a, step) <= Times(b, step)
  {
    if a < b {
      TimesMono(a, b - 1, step);
    }
  }

  /** Below the target and `N` up-steps short of reaching it: on target after `n` ticks exactly when `n >= N`. */
  lemma RisesInSteps(current: real, target: real, upStep: real, downStep: real, N: nat, n: nat)
    requires upStep > 0.0 && N >= 1
    requires current + Times(N - 1, upStep) < target <= current + Times(N, upStep)
    ensures Iterate(current, target, upStep, downStep, n) == target <==> n >= N
  {
    RisesLinearly(current, target, upStep, downStep, N - 1);
    assert Iterate(current, target, upStep, downStep, N) == target;
    if n >= N {
      StaysAtTarget(current, target, upStep, downStep, N, n);
    } else {
      TimesMono(n, N - 1, upStep);
      RisesLinearly(current, target, upStep, downStep, n);
    }
  }

  /** Above the target and `N` down-steps short of reaching it: on target after `n` ticks exactly when `n >= N`. */
  lemma FallsInSteps(current: real, target: real, upStep: real, downStep: real, N: nat, n: nat)
    requires downStep > 0.0 && N >= 1
    requires current - Times(N, downStep) <= target < current - Times(N - 1, downStep)
    ensures Iterate(current, target, upStep, downStep, n) == target <==> n >= N
  {
    FallsLinearly(current, target, upStep, downStep, N - 1);
    assert Iterate(current, target, upStep, downStep, N) == target;
    if n >= N {
      StaysAtTarget(current, target, upStep, downStep, N, n);
    } else {
      TimesMono(n, N - 1, downStep);
      FallsLinearly(current, target, upStep, downStep, n);
    }
  }

  /**
   * Convergence and its exact tick count: starting anywhere, the ramp is on
   * the target after `n` ticks if and only if `n` is at least TicksToReach.
   */
  lemma Converges(current: real, target: real, upStep: real, downStep: real, n: nat)
    requires upStep > 0.0 && downStep > 0.0
    ensures Iterate(current, target, upStep, downStep, n) == target
        <==> n >= TicksToReach(current, target, upStep, downStep)
  {
    if current < target {
      CeilSteps(target - current, upStep);
      RisesInSteps(current, target, upStep, downStep, Ceil((target - current) / upStep), n);
    } else if current > target {
      CeilSteps(current - target, downStep);
      FallsInSteps(current, target, upStep, downStep, Ceil((current - target) / downStep), n);
    } else {
      assert Iterate(current, target, upStep, downStep, 0) == target;
      StaysAtTarget(current, target, upStep, downStep, 0, n);
    }
  }

  /** With the default rate one tick raises the velocity by 10 RPM or lowers it by 1 RPM, capped at the target. */
  lemma DefaultRateStep(current: real, target: real)
    ensures var next := Advance(current, target, UpStep(DefaultRampRate), DownStep(DefaultRampRate));
      && (current < target ==> next == Min(current + 10.0, target))
      && (current > target ==> next == Max(current - 1.0, target))
  {
  }

  /**
   * From rest toward 3000 RPM at the default rate: 10 RPM per tick, so 10 RPM
   * after the first tick and on target after exactly 300 ticks.
   */
  lemma RampUpFromRest(n: nat)
    ensures Iterate(0.0, 3000.0, UpStep(DefaultRampRate), DownStep(DefaultRampRate), n) == Min(10.0 * n as real, 3000.0)
    ensures TicksToReach(0.0, 3000.0, UpStep(DefaultRampRate), DownStep(DefaultRampRate)) == 300
  {
    assert UpStep(DefaultRampRate) == 10.0 && DownStep(DefaultRampRate) == 1.0;
    assert Ceil(3000.0 / 10.0) == 300;
    TimesIsProduct(299, 10.0);
    TimesIsProduct(300, 10.0);
    RisesInSteps(0.0, 3000.0, 10.0, 1.0, 300, n);
    if n < 300 {
      TimesIsProduct(n, 10.0);
      RisesLinearly(0.0, 3000.0, 10.0, 1.0, n);
    }
  }

  /**
   * From 3000 RPM toward rest at the default rate: 1 RPM per tick, so 2999 RPM
   * after the first tick and on target after exactly 3000 ticks, ten times as
   * many as the climb.
   */
  lemma RampDownToRest(n: nat)
    ensures Iterate(3000.0, 0.0, UpStep(DefaultRampRate), DownStep(DefaultRampRate), n) == Max(3000.0 - n as real, 0.0)
    ensures TicksToReach(3000.0, 0.0, UpStep(DefaultRampRate), DownStep(DefaultRampRate)) == 3000
    ensures TicksToReach(3000.0, 0.0, UpStep(DefaultRampRate), DownStep(DefaultRampRate))
         == 10 * TicksToReach(0.0, 3000.0, UpStep(DefaultRampRate), DownStep(DefaultRampRate))
  {
    assert UpStep(DefaultRampRate) == 10.0 && DownStep(DefaultRampRate) == 1.0;
    assert Ceil(3000.0 / 1.0) == 3000;
    assert Ceil(3000.0 / 10.0) == 300;
    TimesIsProduct(2999, 1.0);
    TimesIsProduct(3000, 1.0);
    FallsInSteps(3000.0, 0.0, 10.0, 1.0, 3000, n);
    if n < 3000 {
      TimesIsProduct(n, 1.0);
      FallsLinearly(3000.0, 0.0, 10.0, 1.0, n);
    }
  }
}
