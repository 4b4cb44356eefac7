/** Network constants (params/params.go). */
module Params {
  import opened Base

  const UNITS_PER_NEVEL: u64 := 100_000_000
  const MAX_SUPPLY: u64 := 21_000_000_000 * UNITS_PER_NEVEL
  const INITIAL_REWARD: u64 := 500 * UNITS_PER_NEVEL
  const HALVING_INTERVAL: u64 := 2_102_400
  const DIFFICULTY_WINDOW: u64 := 720
  const EXPECTED_RETARGET_SEC: i64 := 60 * 720
  const COINBASE_MATURITY: u64 := 100
  const MIN_RELAY_FEE_PER_BYTE: u64 := 1

  /** `x >> k` on an unsigned value. */
  function ShiftRight(x: nat, k: nat): (r: nat)
    ensures r <= x
  {
    if k == 0 then x else ShiftRight(x / 2, k - 1)
  }
}
