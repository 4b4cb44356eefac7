/**
 * The precision of compact targets and the bounds of a retarget
 * (params/params.go, consensus/consensus.go).
 */
module Compact {
  import opened Base
  import opened Params
  import opened Blocks
  import opened Difficulty

  // ---------------------------------------------------------------- byte shifts

  lemma {:induction false} UpMonotone(a: nat, b: nat, k: nat)
    requires a <= b
    ensures ShiftUp(a, k) <= ShiftUp(b, k)
    ensures a < b ==> ShiftUp(a, k) < ShiftUp(b, k)
  {
    if k > 0 {
      UpMonotone(a, b, k - 1);
    }
  }

  lemma {:induction false} UpAdd(n: nat, a: nat, b: nat)
    ensures ShiftUp(ShiftUp(n, a), b) == ShiftUp(n, a + b)
  {
    if b > 0 {
      UpAdd(n, a, b - 1);
    }
  }

  lemma {:induction false} UpGrows(n: nat, a: nat, b: nat)
    requires a <= b
    ensures ShiftUp(n, a) <= ShiftUp(n, b)
  {
    if a < b {
      UpGrows(n, a, b - 1);
    }
  }

  lemma {:induction false} UpNext(n: nat, k: nat)
    ensures ShiftUp(n + 1, k) == ShiftUp(n, k) + ShiftUp(1, k)
  {
    if k > 0 {
      UpNext(n, k - 1);
    }
  }

  lemma {:induction false} UpThousands(k: nat)
    ensures ShiftUp(0x8000, k) == 0x8000 * ShiftUp(1, k)
  {
    if k > 0 {
      UpThousands(k - 1);
    }
  }

  /** Shifting down is division by the unit that shifting up multiplies by. */
  lemma {:induction false} DownBounds(n: nat, k: nat)
    ensures ShiftUp(ShiftDown(n, k), k) <= n < ShiftUp(ShiftDown(n, k) + 1, k)
  {
    if k > 0 {
      DownBounds(n / 256, k - 1);
    }
  }

  lemma {:induction false} DownUnique(n: nat, k: nat, q: nat)
    requires ShiftUp(q, k) <= n < ShiftUp(q + 1, k)
    ensures ShiftDown(n, k) == q
  {
    hide ShiftUp, ShiftDown;
    DownBounds(n, k);
    var p := ShiftDown(n, k);
    if p < q {
      UpMonotone(p + 1, q, k);
    } else if q < p {
      UpMonotone(q + 1, p, k);
    }
  }

  lemma {:induction false} DownUp(n: nat, k: nat)
    ensures ShiftDown(ShiftUp(n, k), k) == n
  {
    hide ShiftUp, ShiftDown;
    UpMonotone(n, n + 1, k);
    DownUnique(ShiftUp(n, k), k, n);
  }

  lemma {:induction false} DownMonotone(a: nat, b: nat, k: nat)
    requires a <= b
    ensures ShiftDown(a, k) <= ShiftDown(b, k)
  {
    hide ShiftUp, ShiftDown;
    DownBounds(a, k);
    DownBounds(b, k);
    if ShiftDown(b, k) < ShiftDown(a, k) {
      UpMonotone(ShiftDown(b, k) + 1, ShiftDown(a, k), k);
    }
  }

  lemma {:induction false} DownStep(n: nat, k: nat)
    ensures ShiftDown(n, k + 1) == ShiftDown(n, k) / 256
  {
    if k > 0 {
      DownStep(n / 256, k - 1);
    }
  }

  lemma {:induction false} ByteLenBounds(n: nat)
    requires n > 0
    ensures ByteLen(n) >= 1 && ShiftUp(1, ByteLen(n) - 1) <= n < ShiftUp(1, ByteLen(n))
  {
    if n >= 256 {
      ByteLenBounds(n / 256);
    } else {
      assert ByteLen(n / 256) == 0;
      assert ShiftUp(1, 0) == 1;
    }
  }

  // ---------------------------------------------------------------- mantissa and exponent

  /** `m` is `n` in units of the exponent `e`, rounded down, and has its top bit in one of the two leading bytes. */
  ghost predicate IsParts(n: nat, m: nat, e: nat) {
    && e >= 1 && 0x8000 <= m < 0x80_0000
    && (e >= 3 ==> m == ShiftDown(n, e - 3))
    && (e < 3 ==> m == ShiftUp(n, 3 - e))
  }

  /** The leading three bytes of `n`. */
  function TopBytes(n: nat): nat {
    if ByteLen(n) <= 3 then ShiftUp(n, 3 - ByteLen(n)) else ShiftDown(n, ByteLen(n) - 3)
  }

  lemma {:induction false} TopBytesBounds(n: nat)
    requires n > 0
    ensures 0x1_0000 <= TopBytes(n) < 0x100_0000
  {
    hide ShiftDown, ShiftUp, ByteLen;
    ByteLenBounds(n);
    SmallShifts();
    var size := ByteLen(n);
    if size <= 3 {
      UpMonotone(ShiftUp(1, size - 1), n, 3 - size);
      UpMonotone(n, ShiftUp(1, size), 3 - size);
      UpAdd(1, size - 1, 3 - size);
      UpAdd(1, size, 3 - size);
    } else {
      var k, q := size - 3, ShiftDown(n, size - 3);
      DownBounds(n, k);
      UpAdd(1, 2, k);
      UpAdd(1, 3, k);
      if q < 0x1_0000 {
        UpMonotone(q + 1, 0x1_0000, k);
      }
      if q >= 0x100_0000 {
        UpMonotone(0x100_0000, q, k);
      }
    }
  }

  lemma {:induction false} SmallShifts()
    ensures ShiftUp(1, 0) == 1 && ShiftUp(1, 1) == 0x100 && ShiftUp(1, 2) == 0x1_0000 && ShiftUp(1, 3) == 0x100_0000
  {
    assert ShiftUp(1, 1) == 256 * ShiftUp(1, 0);
    assert ShiftUp(1, 2) == 256 * ShiftUp(1, 1);
    assert ShiftUp(1, 3) == 256 * ShiftUp(1, 2);
  }

  function Exponent(n: nat): nat {
    if TopBytes(n) >= 0x80_0000 then ByteLen(n) + 1 else ByteLen(n)
  }

  function Mantissa(n: nat): nat {
    if TopBytes(n) >= 0x80_0000 then TopBytes(n) / 256 else TopBytes(n)
  }

  lemma {:induction false} PartsOf(n: nat)
    requires n > 0
    ensures IsParts(n, Mantissa(n), Exponent(n))
  {
    hide ShiftDown, ShiftUp, ByteLen;
    TopBytesBounds(n);
    ByteLenBounds(n);
    NoShift(n);
    var size := ByteLen(n);
    if TopBytes(n) >= 0x80_0000 {
      if size <= 2 {
        UpStep(n, 2 - size);
      } else {
        DownStep(n, size - 3);
      }
    }
  }

  lemma {:induction false} UpStep(n: nat, k: nat)
    ensures ShiftUp(n, k + 1) == 256 * ShiftUp(n, k)
  {
  }

  lemma {:induction false} NoShift(n: nat)
    ensures ShiftUp(n, 0) == n && ShiftDown(n, 0) == n
  {
  }

  // ---------------------------------------------------------------- bands

  /** The powers of two between which the numbers of one exponent lie. */
  ghost predicate InBand(n: nat, e: nat) {
    e >= 1 && 1 <= n < ShiftUp(128, e - 1) && (e >= 2 ==> ShiftUp(128, e - 2) <= n)
  }

  lemma {:induction false} BandOf(n: nat, m: nat, e: nat)
    requires n > 0 && IsParts(n, m, e)
    ensures InBand(n, e)
  {
    hide ShiftDown, ShiftUp;
    BandEdges();
    if e >= 3 {
      var k := e - 3;
      DownBounds(n, k);
      UpMonotone(0x8000, m, k);
      UpMonotone(m + 1, 0x80_0000, k);
      UpAdd(128, 1, k);
      UpAdd(128, 2, k);
    } else if e == 2 {
      UpStep(n, 0);
      NoShift(n);
    } else {
      UpStep(n, 1);
      UpStep(n, 0);
      NoShift(n);
    }
  }

  lemma {:induction false} BandEdges()
    ensures ShiftUp(128, 0) == 128 && ShiftUp(128, 1) == 0x8000 && ShiftUp(128, 2) == 0x80_0000
  {
    assert ShiftUp(128, 1) == 256 * ShiftUp(128, 0);
    assert ShiftUp(128, 2) == 256 * ShiftUp(128, 1);
  }

  lemma {:induction false} BandsAscend(n: nat, e: nat, n': nat, e': nat)
    requires InBand(n, e) && InBand(n', e') && n <= n'
    ensures e <= e'
  {
    hide ShiftUp;
    if e' < e {
      UpGrows(128, e' - 1, e - 2);
    }
  }

  /** The parts of a number are unique. */
  lemma {:induction false} PartsUnique(n: nat, m: nat, e: nat, m': nat, e': nat)
    requires n > 0 && IsParts(n, m, e) && IsParts(n, m', e')
    ensures m == m' && e == e'
  {
    hide ShiftUp, ShiftDown, InBand;
    BandOf(n, m, e);
    BandOf(n, m', e');
    BandsAscend(n, e, n, e');
    BandsAscend(n, e', n, e);
  }

  /** The range in which the exponent fits its eight bits. */
  ghost predicate Encodable(n: nat) {
    n < ShiftUp(128, 254)
  }

  lemma {:induction false} ExponentFits(n: nat, m: nat, e: nat)
    requires n > 0 && Encodable(n) && IsParts(n, m, e)
    ensures e <= 255
  {
    hide ShiftUp, ShiftDown, IsParts;
    BandOf(n, m, e);
    if e > 255 {
      UpGrows(128, 254, e - 2);
    }
  }

  // ---------------------------------------------------------------- words

  /** The word of an exponent and a positive mantissa. */
  function Word(m: nat, e: nat): u32
    requires m < 0x80_0000 && e <= 255
  {
    m + e * 0x100_0000
  }

  lemma {:induction false} SignBit(top: nat)
    requires top < 0x100_0000
    ensures top % TWO32 == top
    ensures top / 0x80_0000 % 2 == 1 <==> top >= 0x80_0000
  {
  }

  lemma {:induction false} SmallWord(m: nat, e: nat)
    requires m < 0x80_0000 && e <= 255
    ensures (m + e % 256 * 0x100_0000) % TWO32 == m + e * 0x100_0000
  {
  }

  /** `BigToCompact` packs the parts of its argument. */
  lemma {:induction false} EncodeIsWord(n: nat, m: nat, e: nat)
    requires n > 0 && Encodable(n) && IsParts(n, m, e)
    ensures e <= 255 && BigToCompact(n) == Word(m, e)
  {
    hide ShiftUp, ShiftDown, ByteLen, IsParts, Encodable;
    ExponentFits(n, m, e);
    PartsOf(n);
    PartsUnique(n, m, e, Mantissa(n), Exponent(n));
    TopBytesBounds(n);
    SignBit(TopBytes(n));
    PartsBound(n, m, e);
    SmallWord(m, e);
  }

  lemma {:induction false} PartsBound(n: nat, m: nat, e: nat)
    requires IsParts(n, m, e)
    ensures m < 0x80_0000 && e >= 1
  {
  }

  /** The value of a positive word. */
  function Value(m: nat, e: nat): nat {
    if e <= 3 then ShiftDown(m, 3 - e) else ShiftUp(m, e - 3)
  }

  lemma {:induction false} DecodeWord(m: nat, e: nat)
    requires m < 0x80_0000 && e <= 255
    ensures CompactToBig(Word(m, e)) == Value(m, e)
  {
    hide ShiftUp, ShiftDown;
    var w := Word(m, e);
    assert w / 0x100_0000 == e;
    assert w % 0x80_0000 == m;
    assert w / 0x80_0000 == 2 * e;
  }

  // ---------------------------------------------------------------- precision

  /** The value of its parts is the number itself below 2^23, and otherwise loses less than one part in 2^15. */
  lemma {:induction false} ValueOfParts(n: nat, m: nat, e: nat)
    requires n > 0 && IsParts(n, m, e)
    ensures 0 < Value(m, e) <= n
    ensures n < 0x80_0000 ==> Value(m, e) == n
    ensures (n - Value(m, e)) * 0x8000 < n
    ensures IsParts(Value(m, e), m, e)
  {
    hide ShiftUp, ShiftDown;
    BandOf(n, m, e);
    if e > 3 {
      var k := e - 3;
      DownBounds(n, k);
      UpNext(m, k);
      UpMonotone(0x8000, m, k);
      UpThousands(k);
      DownUp(m, k);
      BandEdges();
      UpGrows(128, 2, e - 2);
    } else if e == 3 {
      NoShift(n);
      NoShift(m);
    } else {
      DownUp(n, 3 - e);
    }
  }

  /** Encoding rounds down by less than one part in 2^15, and not at all below 2^23. */
  lemma {:induction false} CompactPrecision(n: nat)
    requires Encodable(n)
    ensures 0 <= CompactToBig(BigToCompact(n)) <= n
    ensures n < 0x80_0000 ==> CompactToBig(BigToCompact(n)) == n
    ensures n > 0 ==> 0 < CompactToBig(BigToCompact(n)) && (n - CompactToBig(BigToCompact(n))) * 0x8000 < n
  {
    if n > 0 {
      hide Word, Value, CompactToBig, BigToCompact, IsParts, Encodable, Mantissa, Exponent;
      var m, e := Mantissa(n), Exponent(n);
      PartsOf(n);
      PartsBound(n, m, e);
      EncodeIsWord(n, m, e);
      DecodeWord(m, e);
      ValueOfParts(n, m, e);
    } else {
      DecodeZero();
    }
  }

  lemma {:induction false} DecodeZero()
    ensures BigToCompact(0) == 0 && CompactToBig(0) == 0
  {
    DownUp(0, 3);
    assert ShiftUp(0, 3) == 256 * ShiftUp(0, 2);
    assert ShiftUp(0, 2) == 256 * ShiftUp(0, 1);
    assert ShiftUp(0, 1) == 256 * ShiftUp(0, 0);
  }

  /** Encoding a decoded target gives the same word. */
  lemma {:induction false} CompactIdempotent(n: nat)
    requires Encodable(n)
    ensures BigToCompact(CompactToBig(BigToCompact(n))) == BigToCompact(n)
  {
    if n > 0 {
      var m, e := Mantissa(n), Exponent(n);
      hide Word, Value, CompactToBig, BigToCompact, IsParts, Mantissa, Exponent, ShiftUp;
      PartsOf(n);
      PartsBound(n, m, e);
      EncodeIsWord(n, m, e);
      DecodeWord(m, e);
      ValueOfParts(n, m, e);
      EncodeIsWord(Value(m, e), m, e);
    } else {
      DecodeZero();
    }
  }

  /** Encoding keeps order. */
  lemma {:induction false} CompactMonotone(n: nat, n': nat)
    requires n <= n' && Encodable(n')
    ensures BigToCompact(n) <= BigToCompact(n')
  {
    if n > 0 {
      var m, e, m', e' := Mantissa(n), Exponent(n), Mantissa(n'), Exponent(n');
      hide BigToCompact, Mantissa, Exponent, ShiftUp, ShiftDown, InBand;
      PartsOf(n);
      PartsOf(n');
      EncodeIsWord(n, m, e);
      EncodeIsWord(n', m', e');
      BandOf(n, m, e);
      BandOf(n', m', e');
      BandsAscend(n, e, n', e');
      if e == e' {
        if e >= 3 {
          DownMonotone(n, n', e - 3);
        } else {
          UpMonotone(n, n', 3 - e);
        }
      }
    } else {
      DecodeZero();
    }
  }

  /** Decoded targets keep the order of what was encoded. */
  lemma {:induction false} DecodedMonotone(n: nat, n': nat)
    requires n <= n' && Encodable(n')
    ensures CompactToBig(BigToCompact(n)) <= CompactToBig(BigToCompact(n'))
  {
    if n > 0 {
      var m, e, m', e' := Mantissa(n), Exponent(n), Mantissa(n'), Exponent(n');
      hide BigToCompact, CompactToBig, Mantissa, Exponent, ShiftUp, ShiftDown, InBand, Value;
      PartsOf(n);
      PartsOf(n');
      EncodeIsWord(n, m, e);
      EncodeIsWord(n', m', e');
      DecodeWord(m, e);
      DecodeWord(m', e');
      ValueOfParts(n, m, e);
      ValueOfParts(n', m', e');
      BandOf(n, m, e);
      BandOf(n', m', e');
      BandsAscend(n, e, n', e');
      if e == e' {
        CompactMonotone(n, n');
        ValueMonotone(m, m', e);
      } else {
        BandOf(Value(m', e'), m', e');
        BandsApart(n, e, Value(m', e'), e');
      }
    } else {
      DecodeZero();
      CompactPrecision(n');
    }
  }

  lemma {:induction false} ValueMonotone(m: nat, m': nat, e: nat)
    requires m <= m'
    ensures Value(m, e) <= Value(m', e)
  {
    hide ShiftUp, ShiftDown;
    if e <= 3 {
      DownMonotone(m, m', 3 - e);
    } else {
      UpMonotone(m, m', e - 3);
    }
  }

  lemma {:induction false} BandsApart(n: nat, e: nat, n': nat, e': nat)
    requires InBand(n, e) && InBand(n', e') && e < e'
    ensures n < n'
  {
    hide ShiftUp;
    UpGrows(128, e - 1, e' - 2);
  }

  /** With the sign bit set, a compact number stands for the negation. */
  lemma {:induction false} NegativeWord(compact: u32)
    requires compact / 0x80_0000 % 2 == 1
    ensures CompactToBig(compact) == 0 - CompactToBig(compact - 0x80_0000) <= 0
  {
    hide ShiftUp, ShiftDown;
    var plain := compact - 0x80_0000;
    assert plain / 0x80_0000 % 2 == 0 && plain % 0x80_0000 == compact % 0x80_0000;
    assert plain / 0x100_0000 == compact / 0x100_0000;
  }

  // ---------------------------------------------------------------- retarget

  /** The clamp keeps the new target between a quarter, rounded down, and four times the old one. */
  lemma {:induction false} RetargetClamp(target: nat, actual: i64)
    ensures target / 4 <= Retarget(target, actual, EXPECTED_RETARGET_SEC) <= 4 * target
  {
    var expected := EXPECTED_RETARGET_SEC;
    var min, max := expected / 4, expected * 4;
    var clamped := if actual < min then min else if actual > max then max else actual;
    assert 10800 <= clamped <= 172800;
    ProductBetween(target, 10800, clamped, 172800);
    QuarterBounds(target, target * clamped);
  }

  lemma {:induction false} ProductBetween(t: nat, lo: nat, x: nat, hi: nat)
    requires lo <= x <= hi
    ensures t * lo <= t * x <= t * hi
  {
  }

  lemma {:induction false} QuarterBounds(t: nat, p: nat)
    requires 10800 * t <= p <= 172800 * t
    ensures t / 4 <= p / 43200 <= 4 * t
  {
  }

  /** The next height opens a new difficulty window. */
  predicate AtBoundary(prev: Header) {
    AddU64(prev.height, 1) % DIFFICULTY_WINDOW == 0 && AddU64(prev.height, 1) != 0
  }

  /**
   * After every block, for any timestamps: the required target is at most four
   * times the old one and the limit, at least a quarter less one part in 2^15, and
   * positive unless the old target was below four. It changes at a boundary only,
   * and only there can the lookup of the window's first header fail.
   */
  lemma {:induction false} RetargetBounds(prev: Header, powLimit: nat, headerAt: u64 -> Option<Header>)
    requires 0 < CompactToBig(prev.bits) <= powLimit && Encodable(powLimit)
    ensures ExpectedBits(prev, powLimit, headerAt).None? <==>
              AtBoundary(prev) && headerAt(AddU64(prev.height, 1) - DIFFICULTY_WINDOW).None?
    ensures ExpectedBits(prev, powLimit, headerAt).Some? ==>
              var bits := ExpectedBits(prev, powLimit, headerAt).value;
              var before, after := CompactToBig(prev.bits), CompactToBig(bits);
              && 0 <= after <= powLimit && after <= 4 * before
              && before / 4 * 0x7FFF <= after * 0x8000
              && (before >= 4 ==> after > 0)
              && (bits != prev.bits ==> AtBoundary(prev))
  {
    hide CompactToBig, BigToCompact, Retarget, ShiftUp;
    var before := CompactToBig(prev.bits);
    if AtBoundary(prev) {
      var first := headerAt(AddU64(prev.height, 1) - DIFFICULTY_WINDOW);
      if first.Some? {
        var actual := SubI64(prev.timestamp, first.value.timestamp);
        var r := Retarget(before, actual, EXPECTED_RETARGET_SEC);
        RetargetClamp(before, actual);
        var x := if r > powLimit then powLimit else r;
        CompactPrecision(x);
      }
    }
  }
}
