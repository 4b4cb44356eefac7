/**
 * What the numbers of proof of work mean: a digest is read with its first byte
 * most significant, a new target is the old one scaled by time, and work is 2^256
 * over the target (consensus/consensus.go).
 */
module Targets {
  import opened Base
  import opened Params
  import opened Blocks
  import opened Difficulty
  import opened Compact

  // ---------------------------------------------------------------- digests

  lemma {:induction false} ShiftIsPow(k: nat)
    ensures ShiftUp(1, k) == Pow2(8 * k)
  {
    if k > 0 {
      ShiftIsPow(k - 1);
      Pow2Add(8, 8 * (k - 1));
      assert 8 + 8 * (k - 1) == 8 * k;
      PowEight();
    }
  }

  lemma {:induction false} PowEight()
    ensures Pow2(8) == 256
  {
    assert Pow2(4) == 16;
    Pow2Add(4, 4);
  }

  /** The first byte is the most significant. */
  lemma {:induction false} FirstByteLeads(d: seq<byte>)
    requires d != []
    ensures DigestValue(d) == d[0] * ShiftUp(1, |d| - 1) + DigestValue(d[1..])
  {
    if |d| > 1 {
      var front, last := d[..|d| - 1], d[|d| - 1];
      FirstByteLeads(front);
      assert d[1..][..|d| - 2] == front[1..];
      Times256(d[0], ShiftUp(1, |d| - 2));
    } else {
      assert d[1..] == [] && d[..0] == [];
    }
  }

  lemma {:induction false} Times256(a: nat, p: nat)
    ensures 256 * (a * p) == a * (256 * p)
  {
  }

  lemma {:induction false} DigestBelow(d: seq<byte>)
    ensures DigestValue(d) < ShiftUp(1, |d|)
  {
    if d != [] {
      DigestBelow(d[..|d| - 1]);
    }
  }

  lemma {:induction false} ShiftRises(i: nat, k: nat)
    requires i <= k
    ensures 0 < ShiftUp(1, i) <= ShiftUp(1, k)
    decreases k
  {
    if i < k {
      ShiftRises(i, k - 1);
    } else if k > 0 {
      ShiftRises(k - 1, k - 1);
    }
  }

  lemma {:induction false} AtLeastOnce(a: nat, p: nat)
    requires a >= 1
    ensures a * p >= p
  {
  }

  /** A digest is below 2^(8(n - k)) exactly if its first `k` of `n` bytes are zero. */
  lemma {:induction false} LeadingZeros(d: seq<byte>, k: nat)
    requires k <= |d|
    ensures DigestValue(d) < Pow2(8 * (|d| - k)) <==> forall i :: 0 <= i < k ==> d[i] == 0
    decreases |d|
  {
    hide DigestValue, ShiftUp, Pow2;
    ShiftIsPow(|d| - k);
    if k == 0 {
      DigestBelow(d);
    } else {
      FirstByteLeads(d);
      if d[0] == 0 {
        LeadingZeros(d[1..], k - 1);
        assert forall i :: 1 <= i < k ==> d[i] == d[1..][i - 1];
        assert forall i :: 0 <= i < k - 1 ==> d[1..][i] == d[i + 1];
      } else {
        AtLeastOnce(d[0], ShiftUp(1, |d| - 1));
        ShiftRises(|d| - k, |d| - 1);
      }
    }
  }

  // ---------------------------------------------------------------- work

  /**
   * The work of a positive target is the largest `w` with w * (target + 1) <= 2^256;
   * of any other target it is 0.
   */
  lemma {:induction false} WorkIsQuotient(bits: u32)
    ensures CompactToBig(bits) <= 0 ==> WorkForBits(bits) == 0
    ensures CompactToBig(bits) > 0 ==>
              var w, d := WorkForBits(bits), CompactToBig(bits) + 1;
              Product(w, d) <= Pow2(256) < Product(w + 1, d)
  {
    hide CompactToBig, ShiftUp, Pow2;
    ShiftIsPow(32);
    if CompactToBig(bits) > 0 {
      var d := CompactToBig(bits) + 1;
      FlooredBetween(TWO256, d);
    }
  }

  function Product(a: nat, b: nat): nat {
    a * b
  }

  lemma {:induction false} FlooredBetween(a: nat, d: nat)
    requires d > 0
    ensures Product(Floored(a, d), d) <= a < Product(Floored(a, d) + 1, d)
  {
    Floor(a, d, a / d);
  }

  /** The quotient is the only number between these bounds. */
  lemma {:induction false} FlooredLargest(a: nat, d: nat, w: nat)
    requires d > 0 && Product(w, d) <= a
    ensures w <= Floored(a, d)
  {
    FlooredBetween(a, d);
    ProductKeeps(Floored(a, d) + 1, w, d);
  }

  lemma {:induction false} ProductKeeps(a: nat, b: nat, d: nat)
    ensures a <= b ==> Product(a, d) <= Product(b, d)
  {
  }

  /** Halving target + 1 at least doubles the work. */
  lemma {:induction false} HalfTargetDoublesWork(bits: u32, half: u32)
    requires 0 < CompactToBig(half) && 2 * (CompactToBig(half) + 1) <= CompactToBig(bits) + 1
    ensures WorkForBits(half) >= 2 * WorkForBits(bits)
  {
    hide CompactToBig, ShiftUp;
    var w, d, d' := WorkForBits(bits), CompactToBig(bits) + 1, CompactToBig(half) + 1;
    FlooredBetween(TWO256, d);
    TwiceTimes(w, d', d);
    FlooredLargest(TWO256, d', 2 * w);
  }

  lemma {:induction false} TwiceTimes(w: nat, d': nat, d: nat)
    requires 2 * d' <= d
    ensures Product(2 * w, d') <= Product(w, d)
  {
    assert 2 * w * d' == w * (2 * d');
    ProductRises(w, 2 * d', d);
  }

  // ---------------------------------------------------------------- retarget

  /** The time that counts: at least a quarter and at most four times what is expected. */
  function CountedTime(actual: int, expected: nat): (c: nat)
    ensures expected / 4 <= c <= 4 * expected
    ensures expected / 4 <= actual <= 4 * expected ==> c == actual
  {
    if actual < expected / 4 then expected / 4 else if actual > 4 * expected then 4 * expected else actual
  }

  /**
   * The new target is the old one times actual over expected time, rounded down,
   * where the actual time counts as no less than a quarter and no more than four
   * times the expected time.
   */
  lemma {:induction false} RetargetScales(target: nat, actual: i64, expected: i64)
    requires 0 < expected < 0x2000_0000_0000_0000
    ensures var r := Retarget(target, actual, expected);
            r >= 0 &&
            if actual < expected / 4
            then Product(r, expected) <= Product(target, expected / 4) < Product(r + 1, expected)
            else if actual > 4 * expected then r == 4 * target
            else Product(r, expected) <= Product(target, actual) < Product(r + 1, expected)
  {
    var c := CountedTime(actual, expected);
    RetargetIsFloored(target, actual, expected);
    FlooredBetween(Product(target, c), expected);
    if actual > 4 * expected {
      Exact(target, expected);
    }
  }

  lemma {:induction false} RetargetIsFloored(target: nat, actual: i64, expected: i64)
    requires 0 < expected < 0x2000_0000_0000_0000
    ensures Retarget(target, actual, expected) == Floored(Product(target, CountedTime(actual, expected)), expected)
  {
  }

  lemma {:induction false} Exact(target: nat, e: nat)
    requires e > 0
    ensures Floored(Product(target, 4 * e), e) == 4 * target
  {
    assert Product(target, 4 * e) == Product(4 * target, e) by { assert target * (4 * e) == 4 * target * e; }
    FlooredLargest(Product(target, 4 * e), e, 4 * target);
    FlooredBetween(Product(target, 4 * e), e);
    ProductKeeps(4 * target + 1, Floored(Product(target, 4 * e), e), e);
    NextProduct(e, 4 * target);
  }

  /** A slower window never makes the next target harder. */
  lemma {:induction false} RetargetRises(target: nat, actual: i64, slower: i64, expected: i64)
    requires 0 < expected < 0x2000_0000_0000_0000 && actual <= slower
    ensures Retarget(target, actual, expected) <= Retarget(target, slower, expected)
  {
    RetargetIsFloored(target, actual, expected);
    RetargetIsFloored(target, slower, expected);
    var c, c' := CountedTime(actual, expected), CountedTime(slower, expected);
    ProductRises(target, c, c');
    FlooredBetween(Product(target, c), expected);
    FlooredLargest(Product(target, c'), expected, Floored(Product(target, c), expected));
  }

  /**
   * At a window boundary at which the limit does not cut in, the decoded new target
   * is within one part in 2^15 of the old target scaled by the time from the
   * window's first header to the tip's.
   */
  lemma {:induction false} BoundaryFollowsTime(prev: Header, powLimit: nat, headerAt: u64 -> Option<Header>)
    requires 0 < CompactToBig(prev.bits) && Encodable(powLimit)
    requires prev.height < U64_MAX && (prev.height + 1) % 720 == 0 && headerAt(prev.height - 719).Some?
    ensures var actual := SubI64(prev.timestamp, headerAt(prev.height - 719).value.timestamp);
            var scaled := Floored(Product(CompactToBig(prev.bits), CountedTime(actual, 43200)), 43200);
            ExpectedBits(prev, powLimit, headerAt).Some? &&
            var after := CompactToBig(ExpectedBits(prev, powLimit, headerAt).value);
            if scaled > powLimit then after == CompactToBig(BigToCompact(powLimit))
            else 0 <= after <= scaled && (scaled > 0 ==> (scaled - after) * 0x8000 < scaled)
  {
    hide CompactToBig, BigToCompact, ShiftUp, Floored, Product, CountedTime;
    var actual := SubI64(prev.timestamp, headerAt(prev.height - 719).value.timestamp);
    RetargetIsFloored(CompactToBig(prev.bits), actual, EXPECTED_RETARGET_SEC);
    var scaled := Retarget(CompactToBig(prev.bits), actual, EXPECTED_RETARGET_SEC);
    if scaled <= powLimit {
      CompactPrecision(scaled);
    }
  }
}
