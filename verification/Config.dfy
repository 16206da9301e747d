/** Constants of code/daemon/include/drs_sync_config.h and C's integer division. */
module Config {
  // Timing, nanoseconds
  const GROUND_DURATION_NS := 2_000_000_000
  const SYNC_EXCHANGE_NS := 50_000_000
  const FOLLOWER_TIMEOUT_NS := 300_000_000
  const HOLDOVER_MAX_NS := 10_000_000_000
  const ELECTION_MIN_NS := 250_000_000
  const ELECTION_MAX_NS := 500_000_000
  const SYNC_REQ_TIMEOUT_NS := 200_000_000
  const RETRY_STORM_THRESHOLD := 5
  const RETRY_STORM_RATE_NS := 200_000_000

  // Pulse engine
  const PULSE_PERIOD_NS := 1_000_000_000
  const PULSE_GUARD_NS := 1_000_000
  const STABLE_WINDOW_NS := 10_000_000_000
  const STABLE_OFFSET_THRESH_NS := 100_000

  // Min-delay filter
  const MIN_DELAY_WINDOW := 10
  const MIN_DELAY_TOLERANCE_NS := 200_000
  const SEQ_DISC_THRESHOLD := 1024
  const PHASE_STEP_RESET_NS := 5_000_000
  const INT64_MAX := 0x7FFF_FFFF_FFFF_FFFF

  // PI controller
  const PI_KP_Q16 := 6554
  const PI_KI_Q16 := 655
  const PI_UPDATE_PERIOD_NS := 50_000_000
  const STEP_THRESHOLD_NS := 1_000_000
  const STEP_CONFIRM_SAMPLES := 3

  // Virtual clock, Q32.32
  const TWO32 := 0x1_0000_0000
  const RATE_NOMINAL := 0x1_0000_0000
  const RATE_PPM := 4295
  const RATE_MAX_PPM := 1000
  const RATE_SPAN := 4_295_000
  const RATE_MIN := 0x1_0000_0000 - 4_295_000
  const RATE_MAX := 0x1_0000_0000 + 4_295_000

  const LOCK_TERM_BOOST := 1000

  /** C's signed division: truncates toward zero. */
  function CDiv(a: int, b: int): int
    requires b > 0
  {
    if a >= 0 then a / b else -((-a) / b)
  }

  lemma CDivOdd(a: int, b: int)
    requires b > 0
    ensures CDiv(-a, b) == -CDiv(a, b)
  {}

  lemma Quotient(n: nat, b: int)
    requires b > 0
    ensures n / b >= 0 && (n / b) * b <= n < (n / b) * b + b
  {}

  lemma NegatedProduct(q: int, b: int)
    ensures (-q) * b == -(q * b)
  {}

  lemma CDivBounds(a: int, b: int)
    requires b > 0
    ensures a >= 0 ==> 0 <= CDiv(a, b) && CDiv(a, b) * b <= a < CDiv(a, b) * b + b
    ensures a < 0 ==> CDiv(a, b) <= 0 && CDiv(a, b) * b - b < a <= CDiv(a, b) * b
  {
    if a >= 0 {
      Quotient(a, b);
    } else {
      Quotient(-a, b);
      NegatedProduct((-a) / b, b);
    }
  }

  function Abs(x: int): nat { if x < 0 then -x else x }
}
