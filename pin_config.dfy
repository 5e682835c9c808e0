/**
  The timing constants of esp32/pin_config.h and its green-time formula
  TOTAL_GREEN_TIME_MS(car count). The pin numbers are recorded where the
  outputs are modelled (traffic_light.dfy, motor.dfy).
 */
module PinConfig {
  import opened Wrappers

  /** MIN_GREEN_DURATION_MS */
  const MinGreenDurationMs := 30000
  /** EXTRA_TIME_PER_CAR_MS */
  const ExtraTimePerCarMs := 3000
  /** CAR_COUNT_THRESHOLD */
  const CarCountThreshold := 9

  /**
    TOTAL_GREEN_TIME_MS(carCount), as the macro is written: no clamp at either
    end. The minimum green time is met exactly at the threshold, and exceeded
    exactly above it.
   */
  function TotalGreenTimeMs(carCount: int): (ms: int)
    ensures ms == MinGreenDurationMs <==> carCount == CarCountThreshold
    ensures ms > MinGreenDurationMs <==> carCount > CarCountThreshold
  {
    MinGreenDurationMs + ExtraTimePerCarMs * (carCount - CarCountThreshold)
  }

  /** At the threshold the formula gives exactly the minimum green time. */
  lemma GreenAtThreshold()
    ensures TotalGreenTimeMs(CarCountThreshold) == MinGreenDurationMs
  {
  }

  /** Each further car adds exactly EXTRA_TIME_PER_CAR_MS. */
  lemma GreenPerCar(carCount: int)
    ensures TotalGreenTimeMs(carCount + 1) - TotalGreenTimeMs(carCount) == ExtraTimePerCarMs
  {
  }

  /** More cars always give a strictly longer green time. */
  lemma GreenStrictlyIncreasing(fewer: int, more: int)
    requires fewer < more
    ensures TotalGreenTimeMs(fewer) < TotalGreenTimeMs(more)
  {
  }

  /** There is no upper cap: every bound is exceeded by some car count. */
  lemma GreenUncapped(bound: nat)
    ensures TotalGreenTimeMs(CarCountThreshold + bound) > bound
  {
  }

  /**
    There is no lower clamp either: below the threshold the green time is
    3000 ms per car plus 3000 ms, under MIN_GREEN_DURATION_MS.
   */
  lemma GreenBelowMinimum(carCount: int)
    requires carCount < CarCountThreshold
    ensures TotalGreenTimeMs(carCount) == 3000 + 3000 * carCount
    ensures TotalGreenTimeMs(carCount) < MinGreenDurationMs
  {
  }

  /** An empty road gets a green time of only 3000 ms. */
  lemma GreenForEmptyRoad()
    ensures TotalGreenTimeMs(0) == 3000
  {
  }

  /** The formula with the clamp that its constant names call for: never below the minimum. */
  function ClampedGreenTimeMs(carCount: int): int
  {
    MinGreenDurationMs + ExtraTimePerCarMs * Max(0, carCount - CarCountThreshold)
  }

  /**
    The clamped formula never goes below MIN_GREEN_DURATION_MS, equals it up to
    the threshold, and agrees with the macro from the threshold on.
   */
  lemma ClampedGreenNeverBelowMinimum(carCount: int)
    ensures ClampedGreenTimeMs(carCount) >= MinGreenDurationMs
    ensures carCount <= CarCountThreshold ==> ClampedGreenTimeMs(carCount) == MinGreenDurationMs
    ensures carCount >= CarCountThreshold ==> ClampedGreenTimeMs(carCount) == TotalGreenTimeMs(carCount)
  {
  }
}
