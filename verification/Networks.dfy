/**
 * The networks the node ships with (params/mainnet.go, params/testnet.go,
 * params/regtest.go) meet what the whole-run results ask of a network.
 */
module Networks {
  import opened Base
  import opened Difficulty
  import opened Compact

  const PRODUCTION_POW_BITS: u32 := 0x1d00_ffff
  const REGTEST_POW_BITS: u32 := 0x207f_ffff

  /** A mantissa moved to exponent 4 to 32 is positive and below 2^256. */
  lemma {:induction false} TargetInRange(bits: u32)
    requires 4 <= bits / 0x100_0000 <= 32 && 0 < bits % 0x100_0000 < 0x80_0000
    ensures 0 < CompactToBig(bits) < TWO256
  {
    hide ShiftUp;
    var size, word := bits / 0x100_0000, bits % 0x80_0000;
    assert word == bits % 0x100_0000;
    UpMonotone(0, word, size - 3);
    SmallShifts();
    UpMonotone(word, ShiftUp(1, 3), size - 3);
    UpAdd(1, 3, size - 3);
    UpGrows(1, size, 32);
    UpOfZero(size - 3);
  }

  lemma {:induction false} UpOfZero(k: nat)
    ensures ShiftUp(0, k) == 0
  {
    if k > 0 {
      UpOfZero(k - 1);
    }
  }

  /** The easiest targets of the main and test networks and of the regression network. */
  lemma {:induction false} ShippedTargets()
    ensures 0 < CompactToBig(PRODUCTION_POW_BITS) < CompactToBig(REGTEST_POW_BITS) < TWO256
    ensures Encodable(CompactToBig(REGTEST_POW_BITS)) && Encodable(CompactToBig(PRODUCTION_POW_BITS))
  {
    hide ShiftUp;
    TargetInRange(PRODUCTION_POW_BITS);
    TargetInRange(REGTEST_POW_BITS);
    UpGrows(0xffff, 26, 29);
    UpMonotone(0xffff, 0x7f_ffff, 29);
    UpGrows(1, 32, 254);
    UpMonotone(1, 128, 254);
  }
}
