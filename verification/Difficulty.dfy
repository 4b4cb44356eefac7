/**
 * Targets, retargeting, work and proof of work
 * (params/params.go, consensus/consensus.go).
 */
module Difficulty {
  import opened Base
  import opened Params
  import opened Blocks

  // ---------------------------------------------------------------- compact form

  /** `n` shifted left by `k` whole bytes. */
  function ShiftUp(n: nat, k: nat): nat {
    if k == 0 then n else 256 * ShiftUp(n, k - 1)
  }

  /** `n` shifted right by `k` whole bytes. */
  function ShiftDown(n: nat, k: nat): nat {
    if k == 0 then n else ShiftDown(n / 256, k - 1)
  }

  /** The number of bytes of `n` without leading zeros. */
  function ByteLen(n: nat): nat {
    if n == 0 then 0 else 1 + ByteLen(n / 256)
  }

  /** `CompactToBig`: an 8-bit exponent, a sign bit and a 23-bit mantissa. */
  function CompactToBig(compact: u32): int {
    var size, word := compact / 0x100_0000, compact % 0x80_0000;
    var bn := if size <= 3 then ShiftDown(word, 3 - size) else ShiftUp(word, size - 3);
    if compact / 0x80_0000 % 2 == 1 then -bn else bn
  }

  /** `BigToCompact` on a target; no caller passes a negative number. */
  function BigToCompact(n: int): u32 {
    if n <= 0 then 0
    else
      var size := ByteLen(n);
      var top := (if size <= 3 then ShiftUp(n, 3 - size) else ShiftDown(n, size - 3)) % TWO32;
      var (mantissa, exponent) := if top / 0x80_0000 % 2 == 1 then (top / 256, size + 1) else (top, size);
      (mantissa + exponent % 256 * 0x100_0000) % TWO32
  }

  // ---------------------------------------------------------------- retarget and work

  /** `Retarget`: scales by the actual over the expected time, clamped to a factor of four. */
  function Retarget(oldTarget: int, actualTime: i64, expectedTime: i64): int
    requires 0 < expectedTime < 0x2000_0000_0000_0000
  {
    var min, max := expectedTime / 4, expectedTime * 4;
    var clamped := if actualTime < min then min else if actualTime > max then max else actualTime;
    oldTarget * clamped / expectedTime
  }

  const TWO256: nat := ShiftUp(1, 32)

  function Floored(a: nat, b: nat): nat
    requires b > 0
  {
    a / b
  }

  /** `WorkForBits`: the expected number of hashes, 2^256 / (target + 1). */
  function WorkForBits(bits: u32): nat {
    var target := CompactToBig(bits);
    if target <= 0 then 0 else Floored(TWO256, target + 1)
  }

  /** A digest read as a big-endian number. */
  function DigestValue(d: seq<byte>): nat {
    if d == [] then 0 else 256 * DigestValue(d[..|d| - 1]) + d[|d| - 1]
  }

  /** `CheckProofOfWork` succeeds. */
  predicate ProofOfWork(h: Header, powLimit: nat) {
    var target := CompactToBig(h.bits);
    0 < target <= powLimit && DigestValue(HeaderHash(h)) <= target
  }

  /** `ExpectedBits`, where `headerAt` looks up the header at a height of the active chain. */
  function ExpectedBits(prev: Header, powLimit: nat, headerAt: u64 -> Option<Header>): Option<u32> {
    var nextHeight := AddU64(prev.height, 1);
    if nextHeight % DIFFICULTY_WINDOW != 0 || nextHeight == 0 then Some(prev.bits)
    else
      var first := headerAt(nextHeight - DIFFICULTY_WINDOW);
      if first.None? then None
      else
        var actual := SubI64(prev.timestamp, first.value.timestamp);
        var retargeted := Retarget(CompactToBig(prev.bits), actual, EXPECTED_RETARGET_SEC);
        Some(BigToCompact(if retargeted > powLimit then powLimit else retargeted))
  }

  /** A positive target below 2^256 stands for a positive amount of work. */
  lemma {:induction false} WorkIsPositive(bits: u32)
    requires 0 < CompactToBig(bits) < TWO256
    ensures WorkForBits(bits) > 0
  {
    var target := CompactToBig(bits);
    Quotient(TWO256, target + 1);
  }

  /** A harder target never stands for less work. */
  lemma {:induction false} HarderIsMoreWork(bits: u32, bits': u32)
    requires 0 < CompactToBig(bits) <= CompactToBig(bits')
    ensures WorkForBits(bits) >= WorkForBits(bits')
  {
    hide CompactToBig;
    QuotientFalls(TWO256, CompactToBig(bits) + 1, CompactToBig(bits') + 1);
  }

  lemma {:induction false} QuotientFalls(a: nat, b: nat, c: nat)
    requires 0 < b <= c
    ensures a / b >= a / c
  {
    var q, r := a / c, a / b;
    Floor(a, c, q);
    Floor(a, b, r);
    ProductRises(q, b, c);
    Swap(b, q);
    Swap(c, q);
    NextProduct(b, r);
    if r < q {
      ProductRises(b, r + 1, q);
    }
  }

  lemma {:induction false} Floor(a: nat, c: nat, q: nat)
    requires c > 0 && q == a / c
    ensures c * q <= a < c * q + c
  {
    assert a == c * (a / c) + a % c;
  }

  lemma {:induction false} ProductRises(q: nat, b: nat, c: nat)
    requires b <= c
    ensures q * b <= q * c
  {
  }

  lemma {:induction false} NextProduct(b: nat, r: nat)
    ensures b * (r + 1) == b * r + b
  {
  }

  lemma {:induction false} Swap(b: nat, q: nat)
    ensures b * q == q * b
  {
  }

  lemma {:induction false} Quotient(a: nat, b: nat)
    requires 0 < b <= a
    ensures a / b > 0
  {
  }
}
