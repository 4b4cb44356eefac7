/**
 * The Bech32 checksum and string form (wallet/bech32.go), as in the "Bech32"
 * section of BIP 173. Strings are byte strings.
 */
module Bech32 {

  // ---------------------------------------------------------------- polymod

  const GEN: seq<bv32> := [0x3b6a57b2, 0x26508e6d, 0x1ea119fa, 0x3d4233dd, 0x2a1462b3]

  function Xor(a: bv32, b: bv32): bv32 {
    a ^ b
  }

  predicate BitAt(top: bv32, i: nat)
    requires i < 5
  {
    (top >> i) & 1 == 1
  }

  function Term(bit: bool, g: bv32): bv32 {
    if bit then g else 0
  }

  /** The generators selected by the first `n` bits that fall off the top. */
  function Feedback(top: bv32, n: nat): bv32
    requires n <= 5
  {
    if n == 0 then 0 else Xor(Feedback(top, n - 1), Term(BitAt(top, n - 1), GEN[n - 1]))
  }

  function Top(chk: bv32): bv32 {
    chk >> 25
  }

  /** The low 25 bits moved up by five, with the value in the gap. */
  function Shifted(chk: bv32, v: bv8): bv32 {
    ((chk & 0x1ffffff) << 5) ^ (v as bv32)
  }

  /** One round of the checksum register. */
  function Step(chk: bv32, v: bv8): bv32 {
    Xor(Shifted(chk, v), Feedback(Top(chk), 5))
  }

  /** The register after feeding it a list of values. */
  function Fold(chk: bv32, values: seq<bv8>): bv32
    decreases |values|
  {
    if values == [] then chk else Step(Fold(chk, values[..|values| - 1]), values[|values| - 1])
  }

  /** `bech32Polymod`. */
  method Polymod(values: seq<bv8>) returns (chk: bv32)
    ensures chk == Fold(1, values)
  {
    hide Step;
    chk := 1;
    for k := 0 to |values|
      invariant chk == Fold(1, values[..k])
    {
      assert values[..k + 1][..k] == values[..k];
      chk := Round(chk, values[k]);
    }
    assert values[..|values|] == values;
  }

  /** The body of the outer loop of `bech32Polymod`. */
  method Round(start: bv32, v: bv8) returns (chk: bv32)
    ensures chk == Step(start, v)
  {
    hide Term, BitAt, Xor, Top, Shifted;
    var top := Top(start);
    chk := Shifted(start, v);
    ghost var base := chk;
    XorZero(base);
    for i := 0 to 5
      invariant chk == Xor(base, Feedback(top, i))
    {
      XorAssociates(base, Feedback(top, i), Term(BitAt(top, i), GEN[i]));
      chk := Xor(chk, Term(BitAt(top, i), GEN[i]));
    }
  }

  lemma {:induction false} XorZero(a: bv32)
    ensures Xor(a, 0) == a && Xor(0, a) == a && Xor(a, a) == 0
  {
  }

  lemma {:induction false} XorAssociates(a: bv32, b: bv32, c: bv32)
    ensures Xor(Xor(a, b), c) == Xor(a, Xor(b, c))
  {
  }

  lemma {:induction false} XorShuffle(a: bv32, b: bv32, c: bv32, d: bv32)
    ensures Xor(Xor(a, b), Xor(c, d)) == Xor(Xor(a, c), Xor(b, d))
  {
    hide Xor;
    XorAssociates(a, b, Xor(c, d));
    XorAssociates(b, c, d);
    XorCommutes(b, c);
    XorAssociates(c, b, d);
    XorAssociates(a, c, Xor(b, d));
  }

  lemma {:induction false} XorCommutes(a: bv32, b: bv32)
    ensures Xor(a, b) == Xor(b, a)
  {
  }

  // ---------------------------------------------------------------- linearity

  predicate Bit0(x: bv32) {
    (x >> 0) & 1 == 1
  }

  predicate Bit1(x: bv32) {
    (x >> 1) & 1 == 1
  }

  predicate Bit2(x: bv32) {
    (x >> 2) & 1 == 1
  }

  predicate Bit3(x: bv32) {
    (x >> 3) & 1 == 1
  }

  predicate Bit4(x: bv32) {
    (x >> 4) & 1 == 1
  }

  lemma {:induction false} BitsAre(top: bv32)
    ensures BitAt(top, 0) == Bit0(top) && BitAt(top, 1) == Bit1(top) && BitAt(top, 2) == Bit2(top)
    ensures BitAt(top, 3) == Bit3(top) && BitAt(top, 4) == Bit4(top)
  {
  }

  lemma {:induction false} Bit0Xor(a: bv32, b: bv32)
    ensures Bit0(Xor(a, b)) <==> (Bit0(a) != Bit0(b))
  {
  }

  lemma {:induction false} Bit1Xor(a: bv32, b: bv32)
    ensures Bit1(Xor(a, b)) <==> (Bit1(a) != Bit1(b))
  {
  }

  lemma {:induction false} Bit2Xor(a: bv32, b: bv32)
    ensures Bit2(Xor(a, b)) <==> (Bit2(a) != Bit2(b))
  {
  }

  lemma {:induction false} Bit3Xor(a: bv32, b: bv32)
    ensures Bit3(Xor(a, b)) <==> (Bit3(a) != Bit3(b))
  {
  }

  lemma {:induction false} Bit4Xor(a: bv32, b: bv32)
    ensures Bit4(Xor(a, b)) <==> (Bit4(a) != Bit4(b))
  {
  }

  lemma {:induction false} BitXor(a: bv32, b: bv32, i: nat)
    requires i < 5
    ensures BitAt(Xor(a, b), i) <==> (BitAt(a, i) != BitAt(b, i))
  {
    hide BitAt, Bit0, Bit1, Bit2, Bit3, Bit4, Xor;
    BitsAre(a);
    BitsAre(b);
    BitsAre(Xor(a, b));
    Bit0Xor(a, b);
    Bit1Xor(a, b);
    Bit2Xor(a, b);
    Bit3Xor(a, b);
    Bit4Xor(a, b);
  }

  lemma {:induction false} TermXor(x: bool, y: bool, g: bv32)
    ensures Term(x != y, g) == Xor(Term(x, g), Term(y, g))
  {
    hide Xor;
    XorZero(g);
    XorZero(0);
  }

  lemma {:induction false} FeedbackXor(a: bv32, b: bv32, n: nat)
    requires n <= 5
    ensures Feedback(Xor(a, b), n) == Xor(Feedback(a, n), Feedback(b, n))
  {
    hide Term, BitAt, Xor;
    if n == 0 {
      XorZero(0);
    } else {
      FeedbackXor(a, b, n - 1);
      BitXor(a, b, n - 1);
      TermXor(BitAt(a, n - 1), BitAt(b, n - 1), GEN[n - 1]);
      XorShuffle(Feedback(a, n - 1), Feedback(b, n - 1), Term(BitAt(a, n - 1), GEN[n - 1]),
          Term(BitAt(b, n - 1), GEN[n - 1]));
    }
  }

  lemma {:induction false} ShiftXor(a: bv32, b: bv32, x: bv8, y: bv8)
    ensures Shifted(Xor(a, b), x ^ y) == Xor(Shifted(a, x), Shifted(b, y))
    ensures Top(Xor(a, b)) == Xor(Top(a), Top(b))
  {
  }

  /** One round is linear over GF(2). */
  lemma {:induction false} StepXor(a: bv32, b: bv32, x: bv8, y: bv8)
    ensures Step(Xor(a, b), x ^ y) == Xor(Step(a, x), Step(b, y))
  {
    hide Feedback, Xor, Shifted, Top;
    ShiftXor(a, b, x, y);
    FeedbackXor(Top(a), Top(b), 5);
    XorShuffle(Shifted(a, x), Shifted(b, y), Feedback(Top(a), 5), Feedback(Top(b), 5));
  }

  /** The element-wise difference of two lists. */
  function Diff(v: seq<bv8>, w: seq<bv8>): (d: seq<bv8>)
    requires |v| == |w|
    ensures |d| == |v|
    ensures forall i :: 0 <= i < |v| ==> d[i] == v[i] ^ w[i]
  {
    if v == [] then [] else Diff(v[..|v| - 1], w[..|w| - 1]) + [v[|v| - 1] ^ w[|w| - 1]]
  }

  /** Feeding lists is linear: the registers differ by what the difference of the lists alone produces. */
  lemma {:induction false} FoldXor(a: bv32, b: bv32, v: seq<bv8>, w: seq<bv8>)
    requires |v| == |w|
    ensures Xor(Fold(a, v), Fold(b, w)) == Fold(Xor(a, b), Diff(v, w))
    decreases |v|
  {
    hide Step, Xor;
    if v != [] {
      var n := |v| - 1;
      FoldXor(a, b, v[..n], w[..n]);
      DiffStep(v, w);
      StepXor(Fold(a, v[..n]), Fold(b, w[..n]), v[n], w[n]);
    }
  }

  lemma {:induction false} DiffStep(v: seq<bv8>, w: seq<bv8>)
    requires |v| == |w| > 0
    ensures Diff(v, w)[..|v| - 1] == Diff(v[..|v| - 1], w[..|v| - 1])
    ensures Diff(v, w)[|v| - 1] == v[|v| - 1] ^ w[|v| - 1]
  {
  }

  lemma {:induction false} FoldAppend(c: bv32, v: seq<bv8>, w: seq<bv8>)
    ensures Fold(c, v + w) == Fold(Fold(c, v), w)
    decreases |w|
  {
    hide Step;
    if w == [] {
      assert v + w == v;
    } else {
      var n := |w| - 1;
      FoldAppend(c, v, w[..n]);
      assert (v + w)[..|v| + n] == v + w[..n];
    }
  }

  // ---------------------------------------------------------------- injectivity

  function Five(a: bv32, b: bv32, c: bv32, d: bv32, e: bv32): bv32 {
    Xor(Xor(Xor(Xor(a, b), c), d), e)
  }

  lemma {:induction false} FiveXor(a: bv32, b: bv32, c: bv32, d: bv32, e: bv32)
    ensures Xor(Xor(Xor(Xor(Xor(0, a), b), c), d), e) == Five(a, b, c, d, e)
  {
    hide Xor;
    XorZero(a);
  }

  lemma {:induction false} FeedbackIs(top: bv32)
    ensures Feedback(top, 5) == Five(Term(BitAt(top, 0), 0x3b6a57b2), Term(BitAt(top, 1), 0x26508e6d),
              Term(BitAt(top, 2), 0x1ea119fa),
                                     Term(BitAt(top, 3), 0x3d4233dd), Term(BitAt(top, 4), 0x2a1462b3))
  {
    hide Term, Xor, BitAt, Five;
    FiveXor(Term(BitAt(top, 0), 0x3b6a57b2), Term(BitAt(top, 1), 0x26508e6d), Term(BitAt(top, 2), 0x1ea119fa),
            Term(BitAt(top, 3), 0x3d4233dd), Term(BitAt(top, 4), 0x2a1462b3));
    assert Feedback(top, 1) == Xor(Feedback(top, 0), Term(BitAt(top, 0), GEN[0]));
    assert Feedback(top, 2) == Xor(Feedback(top, 1), Term(BitAt(top, 1), GEN[1]));
    assert Feedback(top, 3) == Xor(Feedback(top, 2), Term(BitAt(top, 2), GEN[2]));
    assert Feedback(top, 4) == Xor(Feedback(top, 3), Term(BitAt(top, 3), GEN[3]));
    assert Feedback(top, 5) == Xor(Feedback(top, 4), Term(BitAt(top, 4), GEN[4]));
  }

  /** One round without the recursion. */
  function RawStep(c: bv32, v: bv8): bv32 {
    var top := Top(c);
    Xor(Shifted(c, v),
        Five(Term(Bit0(top), 0x3b6a57b2), Term(Bit1(top), 0x26508e6d), Term(Bit2(top), 0x1ea119fa),
             Term(Bit3(top), 0x3d4233dd), Term(Bit4(top), 0x2a1462b3)))
  }

  lemma {:induction false} StepIsRaw(c: bv32, v: bv8)
    ensures Step(c, v) == RawStep(c, v)
  {
    hide Feedback, Shifted, Five, Term, Xor, Top, BitAt, Bit0, Bit1, Bit2, Bit3, Bit4;
    FeedbackIs(Top(c));
    BitsAre(Top(c));
  }

  /** The register stays within 30 bits. */
  lemma {:induction false} StepBound(c: bv32, v: bv8)
    ensures Step(c, v) < 0x4000_0000
  {
    hide Step;
    StepIsRaw(c, v);
  }

  /** A round with a zero value is injective on the register. */
  lemma {:induction false} StepKernel(c: bv32)
    requires c < 0x4000_0000 && Step(c, 0) == 0
    ensures c == 0
  {
    hide Step;
    StepIsRaw(c, 0);
  }

  function Appended(c: bv32, v: bv8): bv32 {
    (c << 5) ^ (v as bv32)
  }

  /** While the register is short, a round just appends the value. */
  lemma {:induction false} StepShort(c: bv32, v: bv8)
    requires c < 0x200_0000
    ensures Step(c, v) == Appended(c, v)
  {
    hide Step;
    StepIsRaw(c, v);
  }

  /** Six five-bit values fed to an empty register are packed into 30 bits. */
  function Pack(d: seq<bv8>): bv32
    requires |d| == 6
  {
    PackSix(d[0], d[1], d[2], d[3], d[4], d[5])
  }

  function PackSix(a: bv8, b: bv8, c: bv8, d: bv8, e: bv8, f: bv8): bv32 {
    ((a as bv32) << 25) ^ ((b as bv32) << 20) ^ ((c as bv32) << 15) ^
    ((d as bv32) << 10) ^ ((e as bv32) << 5) ^ (f as bv32)
  }

  ghost predicate FiveBit(v: seq<bv8>) {
    forall i :: 0 <= i < |v| ==> v[i] < 32
  }

  lemma {:induction false} PackSteps(a: bv8, b: bv8, c: bv8, d: bv8, e: bv8, f: bv8)
    requires a < 32 && b < 32 && c < 32 && d < 32 && e < 32 && f < 32
    ensures Appended(0, a) < 0x20
    ensures Appended(Appended(0, a), b) < 0x400
    ensures Appended(Appended(Appended(0, a), b), c) < 0x8000
    ensures Appended(Appended(Appended(Appended(0, a), b), c), d) < 0x10_0000
    ensures Appended(Appended(Appended(Appended(Appended(0, a), b), c), d), e) < 0x200_0000
    ensures Appended(Appended(Appended(Appended(Appended(Appended(0, a), b), c), d), e), f) == PackSix(a, b, c, d, e, f)
  {
  }

  lemma {:induction false} FoldSix(d: seq<bv8>)
    requires |d| == 6 && FiveBit(d)
    ensures Fold(0, d) == Pack(d)
  {
    hide Step, Appended, PackSix;
    PackSteps(d[0], d[1], d[2], d[3], d[4], d[5]);
    FoldNext(d, 0);
    FoldNext(d, 1);
    FoldNext(d, 2);
    FoldNext(d, 3);
    FoldNext(d, 4);
    FoldNext(d, 5);
    assert d[..6] == d;
    StepShort(0, d[0]);
    StepShort(Appended(0, d[0]), d[1]);
    StepShort(Appended(Appended(0, d[0]), d[1]), d[2]);
    StepShort(Appended(Appended(Appended(0, d[0]), d[1]), d[2]), d[3]);
    StepShort(Appended(Appended(Appended(Appended(0, d[0]), d[1]), d[2]), d[3]), d[4]);
    StepShort(Appended(Appended(Appended(Appended(Appended(0, d[0]), d[1]), d[2]), d[3]), d[4]), d[5]);
  }

  lemma {:induction false} FoldNext(d: seq<bv8>, i: nat)
    requires i < |d|
    ensures Fold(0, d[..i + 1]) == Step(Fold(0, d[..i]), d[i])
    ensures Fold(0, d[..0]) == 0
  {
    hide Step;
    assert d[..i + 1][..i] == d[..i];
  }

  lemma {:induction false} PackZero(a: bv8, b: bv8, c: bv8, d: bv8, e: bv8, f: bv8)
    requires a < 32 && b < 32 && c < 32 && d < 32 && e < 32 && f < 32 && PackSix(a, b, c, d, e, f) == 0
    ensures a == 0 && b == 0 && c == 0 && d == 0 && e == 0 && f == 0
  {
  }

  function Zeros(n: nat): (z: seq<bv8>)
    ensures |z| == n && forall i :: 0 <= i < n ==> z[i] == 0
  {
    if n == 0 then [] else Zeros(n - 1) + [0]
  }

  lemma {:induction false} AppendNothing()
    ensures Appended(0, 0) == 0
  {
  }

  lemma {:induction false} ZerosFromZero(n: nat)
    ensures Fold(0, Zeros(n)) == 0
  {
    hide Step;
    if n > 0 {
      ZerosFromZero(n - 1);
      assert Zeros(n)[..n - 1] == Zeros(n - 1);
      StepShort(0, 0);
      AppendNothing();
    }
  }

  /** Zero values never bring a non-zero register to zero. */
  lemma {:induction false} ZerosKernel(c: bv32, n: nat)
    requires c < 0x4000_0000 && Fold(c, Zeros(n)) == 0
    ensures c == 0
  {
    hide Step;
    if n > 0 {
      assert Zeros(n)[..n - 1] == Zeros(n - 1);
      FoldBound(c, Zeros(n - 1));
      StepKernel(Fold(c, Zeros(n - 1)));
      ZerosKernel(c, n - 1);
    }
  }

  lemma {:induction false} FoldBound(c: bv32, v: seq<bv8>)
    requires c < 0x4000_0000
    ensures Fold(c, v) < 0x4000_0000
  {
    hide Step;
    if v != [] {
      StepBound(Fold(c, v[..|v| - 1]), v[|v| - 1]);
    }
  }

  lemma {:induction false} BurstForm(d: seq<bv8>, p: nat)
    requires p + 6 <= |d|
    requires forall i :: 0 <= i < |d| && !(p <= i < p + 6) ==> d[i] == 0
    ensures d == Zeros(p) + d[p..p + 6] + Zeros(|d| - p - 6)
  {
    hide Zeros;
  }

  /** A difference confined to six consecutive five-bit values always shows. */
  lemma {:induction false} BurstShows(d: seq<bv8>, p: nat)
    requires p + 6 <= |d| && FiveBit(d[p..p + 6])
    requires forall i :: 0 <= i < |d| && !(p <= i < p + 6) ==> d[i] == 0
    requires Fold(0, d) == 0
    ensures forall i :: 0 <= i < |d| ==> d[i] == 0
  {
    hide Step, Fold, PackSix, Zeros;
    var window, tail := d[p..p + 6], |d| - p - 6;
    BurstForm(d, p);
    FoldAppend(0, Zeros(p) + window, Zeros(tail));
    FoldAppend(0, Zeros(p), window);
    ZerosFromZero(p);
    FoldBound(0, window);
    ZerosKernel(Fold(0, window), tail);
    FoldSix(window);
    PackZero(window[0], window[1], window[2], window[3], window[4], window[5]);
    assert d[p] == 0 && d[p + 1] == 0 && d[p + 2] == 0 && d[p + 3] == 0 && d[p + 4] == 0 && d[p + 5] == 0;
  }

  // ---------------------------------------------------------------- checksum

  function High(hrp: seq<bv8>): (r: seq<bv8>)
    ensures |r| == |hrp|
  {
    if hrp == [] then [] else High(hrp[..|hrp| - 1]) + [hrp[|hrp| - 1] >> 5]
  }

  function Low(hrp: seq<bv8>): (r: seq<bv8>)
    ensures |r| == |hrp|
  {
    if hrp == [] then [] else Low(hrp[..|hrp| - 1]) + [hrp[|hrp| - 1] & 31]
  }

  function HrpExpand(hrp: seq<bv8>): seq<bv8> {
    High(hrp) + [0] + Low(hrp)
  }

  /** `bech32HrpExpand`. */
  method ExpandHrp(hrp: seq<bv8>) returns (ret: seq<bv8>)
    ensures ret == HrpExpand(hrp)
  {
    ret := [];
    for i := 0 to |hrp|
      invariant ret == High(hrp[..i])
    {
      assert hrp[..i + 1][..i] == hrp[..i];
      ret := ret + [hrp[i] >> 5];
    }
    assert hrp[..|hrp|] == hrp;
    ret := ret + [0];
    for i := 0 to |hrp|
      invariant ret == High(hrp) + [0] + Low(hrp[..i])
    {
      assert hrp[..i + 1][..i] == hrp[..i];
      ret := ret + [hrp[i] & 31];
    }
  }

  /** The five bits of `p` that start at bit 5 * (5 - `i`). */
  function Digit(p: bv32, i: nat): bv8
    requires i < 6
  {
    if i == 0 then ((p >> 25) & 31) as bv8
    else if i == 1 then ((p >> 20) & 31) as bv8
    else if i == 2 then ((p >> 15) & 31) as bv8
    else if i == 3 then ((p >> 10) & 31) as bv8
    else if i == 4 then ((p >> 5) & 31) as bv8
    else (p & 31) as bv8
  }

  function Digits(p: bv32): seq<bv8> {
    [Digit(p, 0), Digit(p, 1), Digit(p, 2), Digit(p, 3), Digit(p, 4), Digit(p, 5)]
  }

  function ChecksumValue(hrp: seq<bv8>, data: seq<bv8>): bv32 {
    Xor(Fold(1, HrpExpand(hrp) + data + Zeros(6)), 1)
  }

  function Checksum(hrp: seq<bv8>, data: seq<bv8>): seq<bv8> {
    Digits(ChecksumValue(hrp, data))
  }

  /** `bech32VerifyChecksum`. */
  predicate Verifies(hrp: seq<bv8>, data: seq<bv8>) {
    Fold(1, HrpExpand(hrp) + data) == 1
  }

  /** `bech32CreateChecksum`. */
  method CreateChecksum(hrp: seq<bv8>, data: seq<bv8>) returns (ret: seq<bv8>)
    ensures ret == Checksum(hrp, data)
  {
    hide Fold, Digit, Xor;
    var values := ExpandHrp(hrp);
    values := values + data + [0, 0, 0, 0, 0, 0];
    assert [0, 0, 0, 0, 0, 0] == Zeros(6);
    var chk := Polymod(values);
    var polymod := Xor(chk, 1);
    ret := [];
    for i := 0 to 6
      invariant |ret| == i
      invariant forall j :: 0 <= j < i ==> ret[j] == Digit(polymod, j)
    {
      ret := ret + [Digit(polymod, i)];
    }
    assert ret == Digits(polymod);
  }

  lemma {:induction false} RawPack(p: bv32)
    requires p < 0x4000_0000
    ensures PackSix(((p >> 25) & 31) as bv8, ((p >> 20) & 31) as bv8, ((p >> 15) & 31) as bv8,
                    ((p >> 10) & 31) as bv8, ((p >> 5) & 31) as bv8, (p & 31) as bv8) == p
    ensures ((p >> 25) & 31) as bv8 < 32 && ((p >> 20) & 31) as bv8 < 32 && ((p >> 15) & 31) as bv8 < 32
    ensures ((p >> 10) & 31) as bv8 < 32 && ((p >> 5) & 31) as bv8 < 32 && (p & 31) as bv8 < 32
  {
  }

  /** The six digits of a 30-bit value pack into it. */
  lemma {:induction false} DigitsPack(p: bv32)
    requires p < 0x4000_0000
    ensures FiveBit(Digits(p)) && Pack(Digits(p)) == p
  {
    hide PackSix;
    RawPack(p);
  }

  lemma {:induction false} XorBound(p: bv32)
    requires p < 0x4000_0000
    ensures Xor(p, 1) < 0x4000_0000
    ensures Xor(p, Xor(p, 1)) == 1
  {
  }

  /** Position by position, the expanded prefix holds the high bits, a zero and the low bits. */
  lemma {:induction false} HrpExpandAt(hrp: seq<bv8>, i: nat)
    requires i < |hrp|
    ensures |HrpExpand(hrp)| == 2 * |hrp| + 1 && HrpExpand(hrp)[|hrp|] == 0
    ensures HrpExpand(hrp)[i] == hrp[i] >> 5 && HrpExpand(hrp)[|hrp| + 1 + i] == hrp[i] & 31
  {
    HighAt(hrp, i);
    LowAt(hrp, i);
  }

  lemma {:induction false} HighAt(hrp: seq<bv8>, i: nat)
    requires i < |hrp|
    ensures High(hrp)[i] == hrp[i] >> 5
  {
    if i < |hrp| - 1 {
      HighAt(hrp[..|hrp| - 1], i);
    }
  }

  lemma {:induction false} LowAt(hrp: seq<bv8>, i: nat)
    requires i < |hrp|
    ensures Low(hrp)[i] == hrp[i] & 31
  {
    if i < |hrp| - 1 {
      LowAt(hrp[..|hrp| - 1], i);
    }
  }

  lemma {:induction false} KnownStep(v: seq<bv8>, i: nat, before: bv32, after: bv32)
    requires i < |v| && Fold(1, v[..i]) == before && RawStep(before, v[i]) == after
    ensures Fold(1, v[..i + 1]) == after
  {
    hide Step, RawStep;
    assert v[..i + 1][..i] == v[..i];
    StepIsRaw(before, v[i]);
  }

  /** The string A12UEL5L, the first valid one that BIP 173 lists, has a correct checksum. */
  lemma {:induction false} KnownString()
    ensures Verifies([97], [10, 28, 25, 31, 20, 31])
  {
    hide Fold, Step;
    var v: seq<bv8> := [3, 0, 1, 10, 28, 25, 31, 20, 31];
    assert HrpExpand([97]) == [3, 0, 1] by { ExpandA(); }
    assert HrpExpand([97]) + [10, 28, 25, 31, 20, 31] == v;
    NothingFed(v);
    assert Fold(1, v[..1]) == 0x23 by { KnownStep(v, 0, 0x1, 0x23); }
    assert Fold(1, v[..2]) == 0x460 by { KnownStep(v, 1, 0x23, 0x460); }
    assert Fold(1, v[..3]) == 0x8c01 by { KnownStep(v, 2, 0x460, 0x8c01); }
    assert Fold(1, v[..4]) == 0x11802a by { KnownStep(v, 3, 0x8c01, 0x11802a); }
    assert Fold(1, v[..5]) == 0x230055c by { KnownStep(v, 4, 0x11802a, 0x230055c); }
    assert Fold(1, v[..6]) == 0x3d6afc2b by { KnownStep(v, 5, 0x230055c, 0x3d6afc2b); }
    assert Fold(1, v[..7]) == 0x2f84386 by { KnownStep(v, 6, 0x3d6afc2b, 0x2f84386); }
    assert Fold(1, v[..8]) == 0x24622766 by { KnownStep(v, 7, 0x2f84386, 0x24622766); }
    assert Fold(1, v[..9]) == 0x1 by { KnownStep(v, 8, 0x24622766, 0x1); }
    assert v[..9] == v;
  }

  lemma {:induction false} NothingFed(v: seq<bv8>)
    ensures Fold(1, v[..0]) == 1
  {
  }

  lemma {:induction false} ExpandA()
    ensures HrpExpand([97]) == [3, 0, 1]
  {
    HrpExpandAt([97], 0);
  }

  /** The created checksum verifies, for any prefix and data. */
  lemma {:induction false} ChecksumVerifies(hrp: seq<bv8>, data: seq<bv8>)
    ensures Verifies(hrp, data + Checksum(hrp, data))
    ensures FiveBit(Checksum(hrp, data)) && |Checksum(hrp, data)| == 6
  {
    hide Fold, Xor, Pack, Digits, HrpExpand, Diff;
    var prefix := HrpExpand(hrp) + data;
    var c := Fold(1, prefix);
    FoldAppend(1, prefix, Zeros(6));
    var p := Fold(c, Zeros(6));
    FoldBound(1, prefix);
    FoldBound(c, Zeros(6));
    XorBound(p);
    var cs := Digits(Xor(p, 1));
    assert |cs| == 6 by { SixDigits(Xor(p, 1)); }
    DigitsPack(Xor(p, 1));
    FoldSix(cs);
    FoldXor(c, 0, Zeros(6), cs);
    XorZero(c);
    DiffZeros(cs);
    FoldAppend(1, prefix, cs);
    assert HrpExpand(hrp) + (data + cs) == prefix + cs;
  }

  lemma {:induction false} SixDigits(p: bv32)
    ensures |Digits(p)| == 6
  {
  }

  lemma {:induction false} DiffZeros(d: seq<bv8>)
    ensures Diff(Zeros(|d|), d) == d
  {
    forall i | 0 <= i < |d|
      ensures Diff(Zeros(|d|), d)[i] == d[i]
    {
      ByteXorZero(d[i]);
    }
  }

  lemma {:induction false} ByteXorZero(x: bv8)
    ensures 0 ^ x == x && x ^ x == 0
  {
  }

  lemma {:induction false} ByteXorEqual(x: bv8, y: bv8)
    ensures x ^ y == 0 <==> x == y
    ensures x < 32 && y < 32 ==> x ^ y < 32
  {
  }

  /** Two lists that verify under one prefix and differ only within six consecutive symbols are equal. */
  lemma {:induction false} BurstDetected(hrp: seq<bv8>, v: seq<bv8>, w: seq<bv8>, p: nat)
    requires |v| == |w| && FiveBit(v) && FiveBit(w) && p + 6 <= |v|
    requires forall i :: 0 <= i < |v| && !(p <= i < p + 6) ==> v[i] == w[i]
    requires Verifies(hrp, v) && Verifies(hrp, w)
    ensures v == w
  {
    hide Fold, Xor, HrpExpand;
    var e := HrpExpand(hrp);
    FoldXor(1, 1, e + v, e + w);
    XorZero(1);
    var d := Diff(e + v, e + w);
    forall i | 0 <= i < |d|
      ensures d[i] == 0 <==> (e + v)[i] == (e + w)[i]
    {
      ByteXorEqual((e + v)[i], (e + w)[i]);
    }
    var window := d[|e| + p..|e| + p + 6];
    forall i | 0 <= i < |window|
      ensures window[i] < 32
    {
      ByteXorEqual(v[p + i], w[p + i]);
    }
    BurstShows(d, |e| + p);
    forall i | 0 <= i < |v|
      ensures v[i] == w[i]
    {
      assert d[|e| + i] == 0;
      assert (e + v)[|e| + i] == v[i] && (e + w)[|e| + i] == w[i];
    }
  }
}
