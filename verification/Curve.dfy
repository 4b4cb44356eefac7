/**
 * Points of the curve y^2 = x^3 + 7 over a prime field (wallet/secp256k1.go).
 */
module Curves {
  import opened Base
  import opened Digits

  // ---------------------------------------------------------------- congruence

  function Scaled(p: int, k: int): int {
    p * k
  }

  /** `a` and `b` are equal modulo `p`. */
  ghost predicate Cong(p: int, a: int, b: int) {
    exists k :: a - b == Scaled(p, k)
  }

  lemma {:induction false} CongBy(p: int, a: int, b: int, k: int)
    requires a - b == p * k
    ensures Cong(p, a, b)
  {
    assert a - b == Scaled(p, k);
  }

  lemma {:induction false} CongRefl(p: int, a: int)
    ensures Cong(p, a, a)
  {
    CongBy(p, a, a, 0);
  }

  lemma {:induction false} CongSym(p: int, a: int, b: int)
    requires Cong(p, a, b)
    ensures Cong(p, b, a)
  {
    var k :| a - b == Scaled(p, k);
    CongBy(p, b, a, -k);
  }

  lemma {:induction false} CongTrans(p: int, a: int, b: int, c: int)
    requires Cong(p, a, b) && Cong(p, b, c)
    ensures Cong(p, a, c)
  {
    var k :| a - b == Scaled(p, k);
    var l :| b - c == Scaled(p, l);
    CongBy(p, a, c, k + l);
  }

  lemma {:induction false} CongAdd(p: int, a: int, b: int, c: int, d: int)
    requires Cong(p, a, b) && Cong(p, c, d)
    ensures Cong(p, a + c, b + d)
  {
    var k :| a - b == Scaled(p, k);
    var l :| c - d == Scaled(p, l);
    CongBy(p, a + c, b + d, k + l);
  }

  lemma {:induction false} CongSub(p: int, a: int, b: int, c: int, d: int)
    requires Cong(p, a, b) && Cong(p, c, d)
    ensures Cong(p, a - c, b - d)
  {
    var k :| a - b == Scaled(p, k);
    var l :| c - d == Scaled(p, l);
    CongBy(p, a - c, b - d, k - l);
  }

  lemma {:induction false} CongScale(p: int, a: int, b: int, c: int)
    requires Cong(p, a, b)
    ensures Cong(p, c * a, c * b)
  {
    var k :| a - b == Scaled(p, k);
    ScaleStep(p, a, b, c, k);
    CongBy(p, c * a, c * b, c * k);
  }

  lemma {:induction false} ScaleStep(p: int, a: int, b: int, c: int, k: int)
    requires a - b == p * k
    ensures c * a - c * b == p * (c * k)
  {
    calc {
      c * a - c * b;
    ==
      c * (a - b);
    ==
      c * (p * k);
    ==
      p * (c * k);
    }
  }

  lemma {:induction false} CongMul(p: int, a: int, b: int, c: int, d: int)
    requires Cong(p, a, b) && Cong(p, c, d)
    ensures Cong(p, a * c, b * d)
  {
    CongScale(p, a, b, c);
    CongScale(p, c, d, b);
    assert c * a == a * c && c * b == b * c;
    CongTrans(p, a * c, b * c, b * d);
  }

  lemma {:induction false} CongMod(p: int, a: int)
    requires p > 0
    ensures Cong(p, a % p, a)
  {
    assert a == p * (a / p) + a % p;
    assert p * -(a / p) == -(p * (a / p));
    CongBy(p, a % p, a, -(a / p));
  }

  /** Reduced numbers are congruent only if equal. */
  lemma {:induction false} CongSmall(p: int, a: int, b: int)
    requires Cong(p, a, b) && 0 <= a < p && 0 <= b < p
    ensures a == b
  {
    var k :| a - b == Scaled(p, k);
    if k > 0 {
      ScaleAtLeast(p, k);
    } else if k < 0 {
      ScaleAtMost(p, k);
    }
  }

  lemma {:induction false} ScaleAtLeast(p: int, k: int)
    requires p > 0 && k > 0
    ensures p * k >= p
  {
  }

  lemma {:induction false} ScaleAtMost(p: int, k: int)
    requires p > 0 && k < 0
    ensures p * k <= -p
  {
  }

  lemma {:induction false} ModSame(p: int, a: int, b: int)
    requires p > 0
    ensures a % p == b % p <==> Cong(p, a, b)
  {
    hide Cong;
    CongMod(p, a);
    CongMod(p, b);
    if a % p == b % p {
      CongSym(p, a % p, a);
      CongTrans(p, a, a % p, b);
    }
    if Cong(p, a, b) {
      CongTrans(p, a % p, a, b);
      CongSym(p, b % p, b);
      CongTrans(p, a % p, b, b % p);
      CongSmall(p, a % p, b % p);
    }
  }

  lemma {:induction false} MulSwap(a: int, b: int, c: int)
    ensures a * (b * c) == c * (b * a)
  {
  }

  lemma {:induction false} MulRotate(a: int, b: int, c: int)
    ensures a * (b * c) == b * (a * c)
  {
  }

  // ---------------------------------------------------------------- the field and the curve

  /** A modulus and what `ModInverse` computes for it. */
  datatype Field = Field(p: nat, inv: nat -> nat)

  ghost predicate FieldOk(f: Field) {
    f.p > 3 && forall a :: 0 < a < f.p ==> (a * f.inv(a)) % f.p == 1
  }

  /** A pair of coordinates, or the pair of nil pointers. */
  datatype Point = Infinity | Affine(x: nat, y: nat)

  const B: nat := 7

  predicate IsOnCurve(f: Field, a: Point)
    requires f.p > 0
  {
    a.Affine? && a.x < f.p && a.y < f.p && (a.y * a.y) % f.p == (a.x * a.x * a.x + B) % f.p
  }

  /** The point the line of slope `lambda` through `(x1, y1)` and `x2` leads to. */
  function ThirdPoint(f: Field, lambda: nat, x1: nat, y1: nat, x2: nat): (r: Point)
    requires f.p > 0
    ensures r.Affine? && r.x < f.p && r.y < f.p
  {
    var x3 := (lambda * lambda - x1 - x2) % f.p;
    Affine(x3, (lambda * (x1 - x3) - y1) % f.p)
  }

  function ChordSlope(f: Field, x1: nat, y1: nat, x2: nat, y2: nat): nat
    requires f.p > 0
  {
    ((y2 - y1) * f.inv((x2 - x1) % f.p)) % f.p
  }

  function TangentSlope(f: Field, x1: nat, y1: nat): nat
    requires f.p > 0
  {
    (3 * (x1 * x1) * f.inv((2 * y1) % f.p)) % f.p
  }

  function Double(f: Field, a: Point): Point
    requires f.p > 0
  {
    if a.Infinity? || a.y == 0 then Infinity else ThirdPoint(f, TangentSlope(f, a.x, a.y), a.x, a.y, a.x)
  }

  /** Adding two pairs of nil pointers dereferences nil. */
  function Add(f: Field, a: Point, b: Point): Point
    requires f.p > 0 && !(a.Infinity? && b.Infinity?)
  {
    if a.Infinity? then b
    else if b.Infinity? then a
    else if a.x == b.x then
      if (a.y + b.y) % f.p == 0 then Infinity else Double(f, a)
    else ThirdPoint(f, ChordSlope(f, a.x, a.y, b.x, b.y), a.x, a.y, b.x)
  }

  // ---------------------------------------------------------------- inverses

  lemma {:induction false} Inverse(f: Field, a: int)
    requires FieldOk(f) && a % f.p != 0
    ensures Cong(f.p, a * f.inv(a % f.p), 1)
  {
    hide Cong;
    var r := a % f.p;
    ModSame(f.p, r * f.inv(r), 1);
    assert 1 % f.p == 1;
    CongMod(f.p, a);
    CongSym(f.p, r, a);
    CongRefl(f.p, f.inv(r));
    CongMul(f.p, a, r, f.inv(r), f.inv(r));
    CongTrans(f.p, a * f.inv(r), r * f.inv(r), 1);
  }

  /** A non-zero factor can be cancelled. */
  lemma {:induction false} Cancel(f: Field, a: int, b: int)
    requires FieldOk(f) && a % f.p != 0 && Cong(f.p, a * b, 0)
    ensures Cong(f.p, b, 0)
  {
    hide Cong;
    var i := f.inv(a % f.p);
    Inverse(f, a);
    CongScale(f.p, a * i, 1, b);
    CongScale(f.p, a * b, 0, i);
    MulSwap(i, a, b);
    CongSym(f.p, b * (a * i), b);
    CongTrans(f.p, b, b * (a * i), 0);
  }

  /** A slope times its denominator is its numerator. */
  lemma {:induction false} Slope(f: Field, num: int, den: int)
    requires FieldOk(f) && den % f.p != 0
    ensures Cong(f.p, ((num * f.inv(den % f.p)) % f.p) * den, num)
  {
    hide Cong;
    var i := f.inv(den % f.p);
    Inverse(f, den);
    CongMod(f.p, num * i);
    CongScale(f.p, (num * i) % f.p, num * i, den);
    CongScale(f.p, den * i, 1, num);
    MulRotate(den, num, i);
    CongTrans(f.p, den * ((num * i) % f.p), den * (num * i), num);
  }

  lemma {:induction false} DifferentX(f: Field, x1: nat, x2: nat)
    requires f.p > 0 && x1 < f.p && x2 < f.p && x1 != x2
    ensures (x2 - x1) % f.p != 0
  {
    hide Cong;
    if (x2 - x1) % f.p == 0 {
      CongMod(f.p, x2 - x1);
      CongSym(f.p, 0, x2 - x1);
      CongRefl(f.p, x1);
      CongAdd(f.p, x2 - x1, 0, x1, x1);
      CongSmall(f.p, x2, x1);
    }
  }

  lemma {:induction false} TwoIsSmall(f: Field)
    requires FieldOk(f)
    ensures f.p > 0 && 2 % f.p != 0
  {
  }

  lemma {:induction false} TwiceY(f: Field, y: nat)
    requires FieldOk(f) && 0 < y < f.p
    ensures (2 * y) % f.p != 0
  {
    hide Cong;
    if (2 * y) % f.p == 0 {
      CongMod(f.p, 2 * y);
      hide FieldOk;
      CongSym(f.p, 0, 2 * y);
      TwoIsSmall(f);
      Cancel(f, 2, y);
      CongSmall(f.p, y, 0);
    }
  }

  // ---------------------------------------------------------------- the line through two points

  /** The cubic minus the square of the line. */
  function Gap(x1: int, y1: int, lambda: int, x: int): int {
    x * x * x + B - (lambda * (x - x1) + y1) * (lambda * (x - x1) + y1)
  }

  /** The quotient of the gap by `x - x1`. */
  function Quotient(x1: int, y1: int, lambda: int, x: int): int {
    x * x + x * x1 + x1 * x1 - lambda * lambda * (x - x1) - 2 * lambda * y1
  }

  lemma {:induction false} GapFactors(x1: int, y1: int, lambda: int, x: int)
    ensures Gap(x1, y1, lambda, x) == Gap(x1, y1, lambda, x1) + (x - x1) * Quotient(x1, y1, lambda, x)
  {
    var u := x - x1;
    assert x == x1 + u;
    assert Gap(x1, y1, lambda, x1) == x1 * x1 * x1 + B - y1 * y1;
    assert x * x * x - x1 * x1 * x1 == u * (x * x + x * x1 + x1 * x1);
    assert (lambda * u + y1) * (lambda * u + y1) - y1 * y1 == u * (lambda * lambda * u + 2 * lambda * y1);
  }

  /** The quotient takes the same value at `x2` and at the third abscissa. */
  lemma {:induction false} QuotientRepeats(x1: int, y1: int, lambda: int, x2: int)
    ensures Quotient(x1, y1, lambda, lambda * lambda - x1 - x2) == Quotient(x1, y1, lambda, x2)
  {
    var x3 := lambda * lambda - x1 - x2;
    assert x3 * x3 - x2 * x2 == (x3 - x2) * (x3 + x2);
    assert lambda * lambda == x1 + x2 + x3;
    assert Quotient(x1, y1, lambda, x3) - Quotient(x1, y1, lambda, x2) == (x3 - x2) * (x3 + x2 + x1 - lambda * lambda);
  }

  // ---------------------------------------------------------------- closure

  lemma {:induction false} OnCurveGap(f: Field, x: int, y: int)
    requires f.p > 0
    ensures (y * y) % f.p == (x * x * x + B) % f.p <==> Cong(f.p, x * x * x + B - y * y, 0)
  {
    hide Cong;
    var l, r := y * y, x * x * x + B;
    ModSame(f.p, l, r);
    if Cong(f.p, l, r) {
      CongSym(f.p, l, r);
      CongRefl(f.p, l);
      CongSub(f.p, r, l, l, l);
    }
    if Cong(f.p, r - l, 0) {
      CongRefl(f.p, l);
      CongAdd(f.p, r - l, 0, l, l);
      CongSym(f.p, r, l);
    }
  }

  lemma {:induction false} CongGap(p: int, x: int, y: int, x': int, y': int)
    requires Cong(p, x, x') && Cong(p, y, y')
    ensures Cong(p, x * x * x + B - y * y, x' * x' * x' + B - y' * y')
  {
    hide Cong;
    CongMul(p, x, x', x, x');
    CongMul(p, x * x, x' * x', x, x');
    CongRefl(p, B);
    CongAdd(p, x * x * x, x' * x' * x', B, B);
    CongMul(p, y, y', y, y');
    CongSub(p, x * x * x + B, x' * x' * x' + B, y * y, y' * y');
  }

  /** Where the gap vanishes at `x1` and the quotient at `x2`, the third point lies on the curve. */
  lemma {:induction false} ThirdIsOnCurve(f: Field, lambda: nat, x1: nat, y1: nat, x2: nat)
    requires f.p > 0
    requires Cong(f.p, Gap(x1, y1, lambda, x1), 0) && Cong(f.p, Quotient(x1, y1, lambda, x2), 0)
    ensures IsOnCurve(f, ThirdPoint(f, lambda, x1, y1, x2))
  {
    hide Cong, Quotient;
    var x3 := lambda * lambda - x1 - x2;
    var y3 := lambda * (x1 - x3) - y1;
    assert Cong(f.p, x3 * x3 * x3 + B - y3 * y3, 0) by {
      GapFactors(x1, y1, lambda, x3);
      QuotientRepeats(x1, y1, lambda, x2);
      CongScale(f.p, Quotient(x1, y1, lambda, x3), 0, x3 - x1);
      CongAdd(f.p, Gap(x1, y1, lambda, x1), 0, (x3 - x1) * Quotient(x1, y1, lambda, x3), 0);
      NegatedSquare(lambda, x1, x3, y1);
    }
    var r := ThirdPoint(f, lambda, x1, y1, x2);
    ThirdReduced(f, lambda, x1, y1, x2);
    CongGap(f.p, r.x, r.y, x3, y3);
    CongTrans(f.p, r.x * r.x * r.x + B - r.y * r.y, x3 * x3 * x3 + B - y3 * y3, 0);
    OnCurveGap(f, r.x, r.y);
  }

  lemma {:induction false} NegatedSquare(lambda: int, x1: int, x3: int, y1: int)
    ensures (lambda * (x3 - x1) + y1) * (lambda * (x3 - x1) + y1) ==
              (lambda * (x1 - x3) - y1) * (lambda * (x1 - x3) - y1)
  {
    assert lambda * (x1 - x3) - y1 == -(lambda * (x3 - x1) + y1);
  }

  /** The third point is the unreduced one modulo `p`. */
  lemma {:induction false} ThirdReduced(f: Field, lambda: nat, x1: nat, y1: nat, x2: nat)
    requires f.p > 0
    ensures var x3 := lambda * lambda - x1 - x2;
            var r := ThirdPoint(f, lambda, x1, y1, x2);
            Cong(f.p, r.x, x3) && Cong(f.p, r.y, lambda * (x1 - x3) - y1)
  {
    hide Cong;
    var x3 := lambda * lambda - x1 - x2;
    var r := ThirdPoint(f, lambda, x1, y1, x2);
    CongMod(f.p, x3);
    CongMod(f.p, lambda * (x1 - r.x) - y1);
    CongRefl(f.p, x1);
    CongRefl(f.p, y1);
    CongSub(f.p, x1, x1, r.x, x3);
    CongScale(f.p, x1 - r.x, x1 - x3, lambda);
    CongSub(f.p, lambda * (x1 - r.x), lambda * (x1 - x3), y1, y1);
    CongTrans(f.p, r.y, lambda * (x1 - r.x) - y1, lambda * (x1 - x3) - y1);
  }

  lemma {:induction false} ChordQuotient(f: Field, a: Point, b: Point)
    requires FieldOk(f) && IsOnCurve(f, a) && IsOnCurve(f, b) && a.x != b.x
    ensures var lambda := ChordSlope(f, a.x, a.y, b.x, b.y);
            Cong(f.p, Gap(a.x, a.y, lambda, a.x), 0) && Cong(f.p, Quotient(a.x, a.y, lambda, b.x), 0)
  {
    hide Cong, Quotient, FieldOk, ChordSlope;
    var lambda := ChordSlope(f, a.x, a.y, b.x, b.y);
    var at := lambda * (b.x - a.x) + a.y;
    OnCurveGap(f, a.x, a.y);
    OnCurveGap(f, b.x, b.y);
    ChordMeets(f, a, b);
    CongRefl(f.p, b.x);
    CongGap(f.p, b.x, at, b.x, b.y);
    CongTrans(f.p, Gap(a.x, a.y, lambda, b.x), b.x * b.x * b.x + B - b.y * b.y, 0);
    GapFactors(a.x, a.y, lambda, b.x);
    CongSub(f.p, Gap(a.x, a.y, lambda, b.x), 0, Gap(a.x, a.y, lambda, a.x), 0);
    DifferentX(f, a.x, b.x);
    Cancel(f, b.x - a.x, Quotient(a.x, a.y, lambda, b.x));
  }

  /** The chord passes through the second point. */
  lemma {:induction false} ChordMeets(f: Field, a: Point, b: Point)
    requires FieldOk(f) && IsOnCurve(f, a) && IsOnCurve(f, b) && a.x != b.x
    ensures var lambda := ChordSlope(f, a.x, a.y, b.x, b.y);
            Cong(f.p, lambda * (b.x - a.x), b.y - a.y) && Cong(f.p, lambda * (b.x - a.x) + a.y, b.y)
  {
    hide Cong;
    var lambda := ChordSlope(f, a.x, a.y, b.x, b.y);
    DifferentX(f, a.x, b.x);
    Slope(f, b.y - a.y, b.x - a.x);
    CongRefl(f.p, a.y);
    CongAdd(f.p, lambda * (b.x - a.x), b.y - a.y, a.y, a.y);
  }

  lemma {:induction false} TangentQuotient(f: Field, a: Point)
    requires FieldOk(f) && IsOnCurve(f, a) && a.y != 0
    ensures var lambda := TangentSlope(f, a.x, a.y);
            Cong(f.p, Gap(a.x, a.y, lambda, a.x), 0) && Cong(f.p, Quotient(a.x, a.y, lambda, a.x), 0)
  {
    hide Cong, Quotient, FieldOk, TangentSlope;
    var lambda := TangentSlope(f, a.x, a.y);
    var num, den := 3 * (a.x * a.x), 2 * a.y;
    OnCurveGap(f, a.x, a.y);
    TangentMeets(f, a);
    CongRefl(f.p, num);
    CongSub(f.p, num, num, lambda * den, num);
    QuotientAtTangent(a.x, a.y, lambda);
  }

  lemma {:induction false} TangentMeets(f: Field, a: Point)
    requires FieldOk(f) && IsOnCurve(f, a) && a.y != 0
    ensures Cong(f.p, TangentSlope(f, a.x, a.y) * (2 * a.y), 3 * (a.x * a.x))
  {
    hide Cong, IsOnCurve;
    YBelow(f, a);
    TwiceY(f, a.y);
    Slope(f, 3 * (a.x * a.x), 2 * a.y);
  }

  lemma {:induction false} YBelow(f: Field, a: Point)
    requires f.p > 0 && IsOnCurve(f, a)
    ensures a.Affine? && a.y < f.p
  {
  }

  lemma {:induction false} QuotientAtTangent(x: int, y: int, lambda: int)
    ensures Quotient(x, y, lambda, x) == 3 * (x * x) - lambda * (2 * y)
  {
    assert lambda * lambda * (x - x) == 0;
    assert lambda * (2 * y) == 2 * lambda * y;
  }

  /** On the curve, or the point at infinity. */
  predicate OnCurveOrInfinity(f: Field, a: Point)
    requires f.p > 0
  {
    a.Infinity? || IsOnCurve(f, a)
  }

  lemma {:induction false} DoubleOnCurve(f: Field, a: Point)
    requires FieldOk(f) && OnCurveOrInfinity(f, a)
    ensures OnCurveOrInfinity(f, Double(f, a))
  {
    hide Cong, FieldOk, ThirdPoint, TangentSlope;
    if a.Affine? && a.y != 0 {
      TangentQuotient(f, a);
      ThirdIsOnCurve(f, TangentSlope(f, a.x, a.y), a.x, a.y, a.x);
    }
  }

  lemma {:induction false} AddOnCurve(f: Field, a: Point, b: Point)
    requires FieldOk(f) && OnCurveOrInfinity(f, a) && OnCurveOrInfinity(f, b) && !(a.Infinity? && b.Infinity?)
    ensures OnCurveOrInfinity(f, Add(f, a, b))
  {
    hide Cong, FieldOk, ThirdPoint, ChordSlope, Double;
    if a.Affine? && b.Affine? {
      DoubleOnCurve(f, a);
      if a.x != b.x {
        ChordQuotient(f, a, b);
        ThirdIsOnCurve(f, ChordSlope(f, a.x, a.y, b.x, b.y), a.x, a.y, b.x);
      }
    }
  }

  // ---------------------------------------------------------------- the group law

  /** Points with one abscissa are equal or each other's reflection. */
  lemma {:induction false} SameAbscissa(f: Field, a: Point, b: Point)
    requires FieldOk(f) && IsOnCurve(f, a) && IsOnCurve(f, b) && a.x == b.x
    ensures a == b || (a.y + b.y) % f.p == 0
  {
    hide Cong;
    if (a.y + b.y) % f.p != 0 {
      ModSame(f.p, a.y * a.y, b.y * b.y);
      CongRefl(f.p, b.y * b.y);
      CongSub(f.p, a.y * a.y, b.y * b.y, b.y * b.y, b.y * b.y);
      assert a.y * a.y - b.y * b.y == (a.y + b.y) * (a.y - b.y);
      Cancel(f, a.y + b.y, a.y - b.y);
      CongRefl(f.p, b.y);
      CongAdd(f.p, a.y - b.y, 0, b.y, b.y);
      CongSmall(f.p, a.y, b.y);
    }
  }

  /** A sum is the point at infinity exactly if the points are each other's reflection. */
  lemma {:induction false} SumIsInfinity(f: Field, a: Point, b: Point)
    requires FieldOk(f) && IsOnCurve(f, a) && IsOnCurve(f, b)
    ensures Add(f, a, b) == Infinity <==> a.x == b.x && (a.y + b.y) % f.p == 0
  {
    hide FieldOk, ThirdPoint, TangentSlope, ChordSlope;
    if a.x == b.x {
      SameAbscissa(f, a, b);
      assert 0 % f.p == 0;
    }
  }

  lemma {:induction false} AddCommutes(f: Field, a: Point, b: Point)
    requires FieldOk(f) && OnCurveOrInfinity(f, a) && OnCurveOrInfinity(f, b) && !(a.Infinity? && b.Infinity?)
    ensures Add(f, a, b) == Add(f, b, a)
  {
    hide FieldOk, ThirdPoint, ChordSlope, Double;
    if a.Affine? && b.Affine? {
      if a.x == b.x {
        SameAbscissa(f, a, b);
      } else {
        SlopeCommutes(f, a, b);
        ThirdCommutes(f, a, b);
      }
    }
  }

  lemma {:induction false} SlopeCommutes(f: Field, a: Point, b: Point)
    requires FieldOk(f) && IsOnCurve(f, a) && IsOnCurve(f, b) && a.x != b.x
    ensures ChordSlope(f, a.x, a.y, b.x, b.y) == ChordSlope(f, b.x, b.y, a.x, a.y)
  {
    hide Cong, FieldOk;
    var l, m := ChordSlope(f, a.x, a.y, b.x, b.y), ChordSlope(f, b.x, b.y, a.x, a.y);
    ChordMeets(f, a, b);
    ChordMeets(f, b, a);
    var dx, dy := b.x - a.x, b.y - a.y;
    CongAdd(f.p, l * dx, dy, m * (a.x - b.x), a.y - b.y);
    assert l * dx + m * (a.x - b.x) == dx * (l - m);
    DifferentX(f, a.x, b.x);
    Cancel(f, dx, l - m);
    CongRefl(f.p, m);
    CongAdd(f.p, l - m, 0, m, m);
    CongSmall(f.p, l, m);
  }

  lemma {:induction false} ThirdCommutes(f: Field, a: Point, b: Point)
    requires FieldOk(f) && IsOnCurve(f, a) && IsOnCurve(f, b) && a.x != b.x
    ensures var lambda := ChordSlope(f, a.x, a.y, b.x, b.y);
            ThirdPoint(f, lambda, a.x, a.y, b.x) == ThirdPoint(f, lambda, b.x, b.y, a.x)
  {
    hide Cong, FieldOk, ChordSlope;
    var lambda := ChordSlope(f, a.x, a.y, b.x, b.y);
    var x3 := (lambda * lambda - a.x - b.x) % f.p;
    assert lambda * lambda - a.x - b.x == lambda * lambda - b.x - a.x;
    ChordMeets(f, a, b);
    CongSym(f.p, lambda * (b.x - a.x), b.y - a.y);
    var l, r := lambda * (a.x - x3) - a.y, lambda * (b.x - x3) - b.y;
    CongRefl(f.p, lambda * (a.x - x3) - b.y);
    CongAdd(f.p, b.y - a.y, lambda * (b.x - a.x), lambda * (a.x - x3) - b.y, lambda * (a.x - x3) - b.y);
    assert lambda * (b.x - a.x) + lambda * (a.x - x3) == lambda * (b.x - x3);
    ModSame(f.p, l, r);
  }

  /** Three points on one line. */
  ghost predicate Collinear(p: int, x1: int, y1: int, x2: int, y2: int, x3: int, y3: int) {
    Cong(p, (y3 - y1) * (x2 - x1), (y2 - y1) * (x3 - x1))
  }

  /** Both rises follow from one slope. */
  lemma {:induction false} LineBy(p: int, ey: int, ex: int, dx: int, dy: int, lambda: int)
    requires Cong(p, ey, lambda * ex) && Cong(p, lambda * dx, dy)
    ensures Cong(p, ey * dx, dy * ex)
  {
    hide Cong;
    CongScale(p, ey, lambda * ex, dx);
    CongScale(p, lambda * dx, dy, ex);
    MulSwap(dx, lambda, ex);
    CongTrans(p, dx * ey, ex * (lambda * dx), ex * dy);
    MulCommutes(dx, ey);
    MulCommutes(ex, dy);
  }

  lemma {:induction false} MulCommutes(a: int, b: int)
    ensures a * b == b * a
  {
  }

  lemma {:induction false} CollinearBy(p: int, x1: int, y1: int, x2: int, y2: int, x3: int, y3: int, lambda: int)
    requires Cong(p, y3 - y1, lambda * (x3 - x1)) && Cong(p, lambda * (x2 - x1), y2 - y1)
    ensures Collinear(p, x1, y1, x2, y2, x3, y3)
  {
    hide Cong;
    LineBy(p, y3 - y1, x3 - x1, x2 - x1, y2 - y1, lambda);
  }

  /** The sum of the roots of a cubic is the square of the slope. */
  lemma {:induction false} RootSum(p: int, sum: int, lambda: int, den: int, num: int)
    requires Cong(p, sum, lambda * lambda) && Cong(p, lambda * den, num)
    ensures Cong(p, den * den * sum, num * num)
  {
    hide Cong;
    CongScale(p, sum, lambda * lambda, den * den);
    CongMul(p, lambda * den, num, lambda * den, num);
    Squares(den, lambda);
    CongTrans(p, den * den * sum, lambda * den * (lambda * den), num * num);
  }

  lemma {:induction false} Squares(a: int, b: int)
    ensures a * a * (b * b) == b * a * (b * a)
  {
  }

  lemma {:induction false} AbscissaSum(f: Field, lambda: nat, x1: nat, y1: nat, x2: nat)
    requires f.p > 0
    ensures Cong(f.p, x1 + x2 + ThirdPoint(f, lambda, x1, y1, x2).x, lambda * lambda)
  {
    hide Cong;
    var third := lambda * lambda - x1 - x2;
    CongMod(f.p, third);
    CongRefl(f.p, x1 + x2);
    CongAdd(f.p, x1 + x2, x1 + x2, third % f.p, third);
  }

  /**
   * The reflection of a sum is on the line through the points, and the three
   * abscissas add up to the square of the slope.
   */
  lemma {:induction false} SumIsOnChord(f: Field, a: Point, b: Point)
    requires FieldOk(f) && IsOnCurve(f, a) && IsOnCurve(f, b) && a.x != b.x
    ensures var r := Add(f, a, b);
            r.Affine? && r.x < f.p && r.y < f.p && IsThird(f, a, b, r)
  {
    hide Cong, Collinear, ChordSlope, ThirdPoint;
    var lambda := ChordSlope(f, a.x, a.y, b.x, b.y);
    ChordMeets(f, a, b);
    ThirdOnLine(f, lambda, a.x, a.y, b.x);
    AbscissaSum(f, lambda, a.x, a.y, b.x);
    var r := ThirdPoint(f, lambda, a.x, a.y, b.x);
    CollinearBy(f.p, a.x, a.y, b.x, b.y, r.x, 0 - r.y, lambda);
    RootSum(f.p, a.x + b.x + r.x, lambda, b.x - a.x, b.y - a.y);
  }

  /** Two numbers with the same non-zero multiple are congruent. */
  lemma {:induction false} CancelSame(f: Field, d: int, u: int, v: int, w: int)
    requires FieldOk(f) && d % f.p != 0 && Cong(f.p, d * u, w) && Cong(f.p, d * v, w)
    ensures Cong(f.p, u, v)
  {
    hide Cong, FieldOk;
    CongSub(f.p, d * u, w, d * v, w);
    Distributes(d, u, v);
    Cancel(f, d, u - v);
    CongRefl(f.p, v);
    CongAdd(f.p, u - v, 0, v, v);
  }

  lemma {:induction false} Distributes(d: int, u: int, v: int)
    ensures d * u - d * v == d * (u - v)
  {
  }

  lemma {:induction false} Regroup(d: int, u: int)
    ensures d * d * u == d * (d * u)
  {
  }

  /** Two points that the chord and the sum of abscissas allow have the same coordinates. */
  lemma {:induction false} ThirdIsUnique(f: Field, a: Point, b: Point, r: Point, c: Point)
    requires FieldOk(f) && IsOnCurve(f, a) && IsOnCurve(f, b) && a.x != b.x
    requires r.Affine? && r.x < f.p && r.y < f.p && IsThird(f, a, b, r)
    requires c.Affine? && c.x < f.p && c.y < f.p && IsThird(f, a, b, c)
    ensures r == c
  {
    hide Cong, FieldOk;
    var dx, dy, s := b.x - a.x, b.y - a.y, a.x + b.x;
    DifferentX(f, a.x, b.x);
    Regroup(dx, s + r.x);
    Regroup(dx, s + c.x);
    CancelSame(f, dx, dx * (s + r.x), dx * (s + c.x), dy * dy);
    CongRefl(f.p, dx * (s + c.x));
    CancelSame(f, dx, s + r.x, s + c.x, dx * (s + c.x));
    CongRefl(f.p, s);
    CongSub(f.p, s + r.x, s + c.x, s, s);
    CongSmall(f.p, r.x, c.x);
    MulCommutes(0 - r.y - a.y, dx);
    MulCommutes(0 - c.y - a.y, dx);
    CancelSame(f, dx, 0 - r.y - a.y, 0 - c.y - a.y, dy * (r.x - a.x));
    CongRefl(f.p, 0 - a.y);
    CongSub(f.p, 0 - a.y, 0 - a.y, 0 - r.y - a.y, 0 - c.y - a.y);
    CongSmall(f.p, r.y, c.y);
  }

  ghost predicate IsThird(f: Field, a: Point, b: Point, c: Point)
    requires a.Affine? && b.Affine? && c.Affine?
  {
    && Collinear(f.p, a.x, a.y, b.x, b.y, c.x, 0 - c.y)
    && Cong(f.p, (b.x - a.x) * (b.x - a.x) * (a.x + b.x + c.x), (b.y - a.y) * (b.y - a.y))
  }

  /** Addition without inverses: the sum of two points is the one point that these two facts allow. */
  lemma {:induction false} SumIs(f: Field, a: Point, b: Point, c: Point)
    requires FieldOk(f) && IsOnCurve(f, a) && IsOnCurve(f, b) && a.x != b.x
    requires c.Affine? && c.x < f.p && c.y < f.p
    ensures Add(f, a, b) == c <==> IsThird(f, a, b, c)
  {
    hide Cong, Collinear, FieldOk, ChordSlope, ThirdPoint;
    SumIsOnChord(f, a, b);
    if IsThird(f, a, b, c) {
      ThirdIsUnique(f, a, b, Add(f, a, b), c);
    }
  }

  /** The reflection of a double is on the tangent, and the abscissas add up to the square of its slope. */
  lemma {:induction false} DoubleIsOnTangent(f: Field, a: Point)
    requires FieldOk(f) && IsOnCurve(f, a) && a.y != 0
    ensures var r := Double(f, a);
            && r.Affine?
            && Cong(f.p, (0 - r.y - a.y) * (2 * a.y), 3 * (a.x * a.x) * (r.x - a.x))
            && Cong(f.p, 2 * a.y * (2 * a.y) * (a.x + a.x + r.x), 3 * (a.x * a.x) * (3 * (a.x * a.x)))
  {
    hide Cong, Collinear, TangentSlope, ThirdPoint;
    var lambda := TangentSlope(f, a.x, a.y);
    TangentMeets(f, a);
    ThirdOnLine(f, lambda, a.x, a.y, a.x);
    AbscissaSum(f, lambda, a.x, a.y, a.x);
    var r := ThirdPoint(f, lambda, a.x, a.y, a.x);
    LineBy(f.p, 0 - r.y - a.y, r.x - a.x, 2 * a.y, 3 * (a.x * a.x), lambda);
    RootSum(f.p, a.x + a.x + r.x, lambda, 2 * a.y, 3 * (a.x * a.x));
  }

  lemma {:induction false} ThirdOnLine(f: Field, lambda: nat, x1: nat, y1: nat, x2: nat)
    requires f.p > 0
    ensures var r := ThirdPoint(f, lambda, x1, y1, x2);
            Cong(f.p, 0 - r.y - y1, lambda * (r.x - x1))
  {
    hide Cong;
    var r := ThirdPoint(f, lambda, x1, y1, x2);
    var rise := lambda * (x1 - r.x) - y1;
    CongMod(f.p, rise);
    CongRefl(f.p, 0 - y1);
    CongSub(f.p, 0 - y1, 0 - y1, r.y, rise);
    assert lambda * (x1 - r.x) == -(lambda * (r.x - x1));
  }

  // ---------------------------------------------------------------- multiples

  /** One bit of double-and-add. */
  function Bit(f: Field, base: Point, acc: Point, isSet: bool): Point
    requires f.p > 0 && base.Affine?
  {
    var doubled := if acc.Infinity? then Infinity else Double(f, acc);
    if isSet then Add(f, doubled, base) else doubled
  }

  /** The multiple of a point by a number. */
  function Multiple(f: Field, base: Point, n: nat): Point
    requires f.p > 0 && base.Affine?
  {
    if n == 0 then Infinity else Bit(f, base, Multiple(f, base, n / 2), n % 2 == 1)
  }

  /** `ScalarMult`: the multiple by the number the bytes stand for, most significant first. */
  method ScalarMult(f: Field, base: Point, k: seq<byte>) returns (r: Point)
    requires f.p > 0 && base.Affine?
    ensures r == Multiple(f, base, Val(k, 8))
    ensures FieldOk(f) && IsOnCurve(f, base) ==> OnCurveOrInfinity(f, r)
  {
    hide Bit, Val, Up, Down, FieldOk, IsOnCurve;
    r := Infinity;
    assert Val([], 8) == 0 by { ValEmpty(); }
    for i := 0 to |k|
      invariant r == Multiple(f, base, Val(k[..i], 8))
    {
      ghost var v := Val(k[..i], 8);
      var bitNum := 8;
      NoShift(v);
      DownByte(k[i]);
      while bitNum > 0
        invariant 0 <= bitNum <= 8
        invariant r == Multiple(f, base, Up(v, 8 - bitNum) + Down(k[i], bitNum))
      {
        bitNum := bitNum - 1;
        BitStep(f, base, v, k[i], bitNum);
        r := Bit(f, base, r, Down(k[i], bitNum) % 2 == 1);
      }
      NoShift(k[i]);
      assert k[..i + 1] == k[..i] + [k[i]];
      ValAppend(k[..i], k[i], 8);
    }
    assert k[..|k|] == k;
    if FieldOk(f) && IsOnCurve(f, base) {
      MultipleOnCurve(f, base, Val(k, 8));
    }
  }

  lemma {:induction false} ValEmpty()
    ensures Val([], 8) == 0
  {
  }

  lemma {:induction false} DownByte(b: byte)
    ensures Down(b, 8) == 0
  {
    hide Down;
    UpEight();
    assert Up(0, 8) == 0 by { UpZero(0, 8); }
    DownPlaced(0, 8, b);
  }

  lemma {:induction false} BitStep(f: Field, base: Point, v: nat, b: byte, bitNum: nat)
    requires f.p > 0 && base.Affine? && bitNum < 8
    ensures Multiple(f, base, Up(v, 8 - bitNum) + Down(b, bitNum))
         == Bit(f, base, Multiple(f, base, Up(v, 8 - bitNum - 1) + Down(b, bitNum + 1)), Down(b, bitNum) % 2 == 1)
  {
    hide Bit;
    var n := Up(v, 8 - bitNum) + Down(b, bitNum);
    assert Up(v, 8 - bitNum) == 2 * Up(v, 8 - bitNum - 1);
    DownAdd(b, bitNum, 1);
    assert Down(Down(b, bitNum), 1) == Down(b, bitNum) / 2;
    assert n / 2 == Up(v, 8 - bitNum - 1) + Down(b, bitNum + 1);
    assert n % 2 == Down(b, bitNum) % 2;
    if n == 0 {
      NoBits(f, base);
    }
  }

  lemma {:induction false} NoBits(f: Field, base: Point)
    requires f.p > 0 && base.Affine?
    ensures Bit(f, base, Infinity, false) == Infinity
  {
  }

  lemma {:induction false} BitOnCurve(f: Field, base: Point, acc: Point, isSet: bool)
    requires FieldOk(f) && IsOnCurve(f, base) && OnCurveOrInfinity(f, acc)
    ensures OnCurveOrInfinity(f, Bit(f, base, acc, isSet))
  {
    hide Double, Add;
    DoubleOnCurve(f, acc);
    AddOnCurve(f, if acc.Infinity? then Infinity else Double(f, acc), base);
  }

  /** Multiples of a point of the curve stay on the curve. */
  lemma {:induction false} MultipleOnCurve(f: Field, base: Point, n: nat)
    requires FieldOk(f) && IsOnCurve(f, base)
    ensures OnCurveOrInfinity(f, Multiple(f, base, n))
  {
    hide Bit;
    if n > 0 {
      MultipleOnCurve(f, base, n / 2);
      BitOnCurve(f, base, Multiple(f, base, n / 2), n % 2 == 1);
    }
  }

  // ---------------------------------------------------------------- multiples are repeated sums

  /** `Add`, with the sum that it does not define. */
  function Sum(f: Field, a: Point, b: Point): Point
    requires f.p > 0
  {
    if a.Infinity? && b.Infinity? then Infinity else Add(f, a, b)
  }

  /** The sum of points of the curve does not depend on how it is bracketed. */
  ghost predicate Associative(f: Field)
    requires f.p > 0
  {
    forall a, b, c :: OnCurveOrInfinity(f, a) && OnCurveOrInfinity(f, b) && OnCurveOrInfinity(f, c) ==>
        Sum(f, Sum(f, a, b), c) == Sum(f, a, Sum(f, b, c))
  }

  lemma {:induction false} SumOnCurve(f: Field, a: Point, b: Point)
    requires FieldOk(f) && OnCurveOrInfinity(f, a) && OnCurveOrInfinity(f, b)
    ensures OnCurveOrInfinity(f, Sum(f, a, b)) && Sum(f, a, b) == Sum(f, b, a)
  {
    hide FieldOk, Add, IsOnCurve;
    if !(a.Infinity? && b.Infinity?) {
      AddOnCurve(f, a, b);
      AddCommutes(f, a, b);
    }
  }

  /** Doubling is adding a point to itself. */
  lemma {:induction false} DoubleIsSum(f: Field, a: Point)
    requires FieldOk(f) && OnCurveOrInfinity(f, a)
    ensures Double(f, a) == Sum(f, a, a)
  {
    hide FieldOk, ThirdPoint, TangentSlope;
    if a.Affine? {
      if a.y > 0 {
        TwiceY(f, a.y);
      } else {
        assert 0 % f.p == 0;
      }
    }
  }

  lemma {:induction false} BitIsSum(f: Field, base: Point, acc: Point, isSet: bool)
    requires FieldOk(f) && IsOnCurve(f, base) && OnCurveOrInfinity(f, acc)
    ensures Bit(f, base, acc, isSet) == if isSet then Sum(f, Sum(f, acc, acc), base) else Sum(f, acc, acc)
  {
    hide FieldOk, Add, Double;
    DoubleIsSum(f, acc);
    assert acc.Infinity? ==> Sum(f, acc, acc) == Infinity;
  }

  lemma {:induction false} MultipleStep(f: Field, base: Point, n: nat)
    requires FieldOk(f) && IsOnCurve(f, base)
    ensures var half := Multiple(f, base, n / 2);
            Multiple(f, base, n) == if n % 2 == 1 then Sum(f, Sum(f, half, half), base) else Sum(f, half, half)
  {
    hide FieldOk, Bit, Add;
    MultipleOnCurve(f, base, n / 2);
    if n > 0 {
      BitIsSum(f, base, Multiple(f, base, n / 2), n % 2 == 1);
    }
  }

  /** (a + c) + (a + c) = ((a + a) + c) + c. */
  lemma {:induction false} TwiceSum(f: Field, a: Point, c: Point)
    requires FieldOk(f) && Associative(f) && OnCurveOrInfinity(f, a) && OnCurveOrInfinity(f, c)
    ensures Sum(f, Sum(f, a, c), Sum(f, a, c)) == Sum(f, Sum(f, Sum(f, a, a), c), c)
  {
    hide FieldOk, Sum, IsOnCurve;
    assert f.p > 0 by { TwoIsSmall(f); }
    var ac, aa := Sum(f, a, c), Sum(f, a, a);
    SumOnCurve(f, a, c);
    SumOnCurve(f, a, a);
    calc {
      Sum(f, ac, ac);
    ==
      Sum(f, Sum(f, ac, a), c);
    == { SumOnCurve(f, ac, a); }
      Sum(f, Sum(f, a, ac), c);
    ==
      Sum(f, Sum(f, aa, c), c);
    }
  }

  lemma {:induction false} Usable(f: Field, base: Point)
    requires FieldOk(f) && IsOnCurve(f, base)
    ensures f.p > 0 && base.Affine?
  {
  }

  /** One more: if sums may be bracketed freely, the next multiple adds the point once more. */
  lemma {:induction false} NextMultiple(f: Field, base: Point, n: nat)
    requires FieldOk(f) && Associative(f) && IsOnCurve(f, base)
    ensures Multiple(f, base, n + 1) == Sum(f, Multiple(f, base, n), base)
  {
    hide FieldOk, Sum, Multiple, Associative, IsOnCurve;
    Usable(f, base);
    var k := n / 2;
    var half := Multiple(f, base, k);
    MultipleStep(f, base, n);
    MultipleStep(f, base, n + 1);
    if n % 2 == 0 {
      assert (n + 1) / 2 == k;
    } else {
      assert (n + 1) / 2 == k + 1;
      NextMultiple(f, base, k);
      MultipleOnCurve(f, base, k);
      TwiceSum(f, half, base);
    }
  }

  /**
   * Double-and-add computes multiples: the multiple by 0 is the point at infinity,
   * by 1 the point, and by m + n, if sums may be bracketed freely, the sum of the
   * multiples by m and by n.
   */
  lemma {:induction false} MultiplesAdd(f: Field, base: Point, m: nat, n: nat)
    requires FieldOk(f) && IsOnCurve(f, base)
    ensures Multiple(f, base, 0) == Infinity && Multiple(f, base, 1) == base
    ensures Associative(f) ==> Multiple(f, base, m + n) == Sum(f, Multiple(f, base, m), Multiple(f, base, n))
    decreases n
  {
    hide FieldOk, Associative, IsOnCurve, Sum, Multiple;
    Usable(f, base);
    OneIsBase(f, base);
    if Associative(f) {
      MultipleOnCurve(f, base, m);
      if n == 0 {
        NothingMore(f, Multiple(f, base, m));
      } else {
        MultiplesAdd(f, base, m, n - 1);
        AddLast(f, base, m, n);
      }
    }
  }

  lemma {:induction false} OneIsBase(f: Field, base: Point)
    requires f.p > 0 && base.Affine?
    ensures Multiple(f, base, 0) == Infinity && Multiple(f, base, 1) == base
  {
    assert Multiple(f, base, 0) == Infinity;
  }

  lemma {:induction false} NothingMore(f: Field, a: Point)
    requires f.p > 0
    ensures Sum(f, a, Infinity) == a
  {
  }

  lemma {:induction false} AddLast(f: Field, base: Point, m: nat, n: nat)
    requires FieldOk(f) && Associative(f) && IsOnCurve(f, base) && n > 0
    requires Multiple(f, base, m + (n - 1)) == Sum(f, Multiple(f, base, m), Multiple(f, base, n - 1))
    ensures Multiple(f, base, m + n) == Sum(f, Multiple(f, base, m), Multiple(f, base, n))
  {
    hide FieldOk, Sum, Multiple, IsOnCurve;
    NextMultiple(f, base, m + (n - 1));
    assert m + (n - 1) + 1 == m + n;
    NextMultiple(f, base, n - 1);
    MultipleOnCurve(f, base, m);
    MultipleOnCurve(f, base, n - 1);
  }
}
