/**
 * Numbers as sequences of fixed-width digits, with shifts defined bit by bit.
 */
module Digits {
  import opened Base

  /** `n << k`. */
  function Up(n: nat, k: nat): nat {
    if k == 0 then n else 2 * Up(n, k - 1)
  }

  /** `n >> k`. */
  function Down(n: nat, k: nat): nat {
    if k == 0 then n else Down(n / 2, k - 1)
  }

  /** The low `k` bits of `n`: `n & ((1 << k) - 1)`. */
  function Low(n: nat, k: nat): nat {
    if k == 0 then 0 else n % 2 + 2 * Low(n / 2, k - 1)
  }

  lemma {:induction false} UpSum(a: nat, b: nat, k: nat)
    ensures Up(a + b, k) == Up(a, k) + Up(b, k)
  {
    if k > 0 {
      UpSum(a, b, k - 1);
    }
  }

  lemma {:induction false} UpAdd(n: nat, a: nat, b: nat)
    ensures Up(Up(n, a), b) == Up(n, a + b)
  {
    if b > 0 {
      UpAdd(n, a, b - 1);
    }
  }

  lemma {:induction false} UpInner(n: nat, k: nat)
    ensures Up(n, k + 1) == Up(2 * n, k)
  {
    if k > 0 {
      UpInner(n, k - 1);
    }
  }

  /** A number is its high part shifted up plus its low part. */
  lemma {:induction false} Split(n: nat, k: nat)
    ensures n == Up(Down(n, k), k) + Low(n, k)
    ensures Low(n, k) < Up(1, k)
  {
    if k > 0 {
      Split(n / 2, k - 1);
    }
  }

  lemma {:induction false} DownAdd(n: nat, a: nat, b: nat)
    ensures Down(Down(n, a), b) == Down(n, a + b)
  {
    if a > 0 {
      DownAdd(n / 2, a - 1, b);
    }
  }

  lemma {:induction false} HalfOfSum(h: nat, x: nat)
    ensures (2 * h + x) / 2 == h + x / 2 && (2 * h + x) % 2 == x % 2
  {
  }

  /** Shifting down a sum whose first part ends in `j` zero bits. */
  lemma {:induction false} DownOfSum(h: nat, j: nat, x: nat, k: nat)
    requires k <= j
    ensures Down(Up(h, j) + x, k) == Up(h, j - k) + Down(x, k)
  {
    if k > 0 {
      HalfOfSum(Up(h, j - 1), x);
      DownOfSum(h, j - 1, x / 2, k - 1);
    }
  }

  lemma {:induction false} LowOfSum(h: nat, j: nat, x: nat, k: nat)
    requires k <= j
    ensures Low(Up(h, j) + x, k) == Low(x, k)
  {
    if k > 0 {
      HalfOfSum(Up(h, j - 1), x);
      LowOfSum(h, j - 1, x / 2, k - 1);
    }
  }

  lemma {:induction false} LowOfSmall(x: nat, k: nat)
    requires x < Up(1, k)
    ensures Low(x, k) == x && Down(x, k) == 0
  {
    if k > 0 {
      LowOfSmall(x / 2, k - 1);
    }
  }

  /** Putting `v` into the gap below a shifted number and shifting back. */
  lemma {:induction false} DownPlaced(n: nat, k: nat, v: nat)
    requires v < Up(1, k)
    ensures Down(Up(n, k) + v, k) == n && Low(Up(n, k) + v, k) == v
  {
    hide Up, Down, Low;
    DownOfSum(n, k, v, k);
    LowOfSum(n, k, v, k);
    LowOfSmall(v, k);
    NoShift(n);
  }

  lemma {:induction false} NoShift(n: nat)
    ensures Up(n, 0) == n && Down(n, 0) == n && Low(n, 0) == 0
  {
  }

  lemma {:induction false} UpMonotone(a: nat, b: nat, k: nat)
    requires a < b
    ensures Up(a, k) < Up(b, k)
  {
    if k > 0 {
      UpMonotone(a, b, k - 1);
    }
  }

  lemma {:induction false} UpEight()
    ensures Up(1, 5) == 32 && Up(1, 8) == 256
  {
    assert Up(1, 0) == 1 && Up(1, 1) == 2 && Up(1, 2) == 4 && Up(1, 3) == 8;
    assert Up(1, 4) == 16 && Up(1, 5) == 32 && Up(1, 6) == 64 && Up(1, 7) == 128;
  }

  lemma {:induction false} UpZero(n: nat, k: nat)
    ensures Up(n, k) == 0 <==> n == 0
  {
    if k > 0 {
      UpZero(n, k - 1);
    }
  }

  // ---------------------------------------------------------------- products

  /** `n` groups of `w` bits. */
  function Times(n: nat, w: nat): nat {
    if n == 0 then 0 else Times(n - 1, w) + w
  }

  lemma {:induction false} TimesUnique(a: nat, r: nat, b: nat, s: nat, w: nat)
    requires r < w && s < w && Times(a, w) + r == Times(b, w) + s
    ensures a == b && r == s
  {
    if a > 0 && b > 0 {
      TimesUnique(a - 1, r, b - 1, s, w);
    }
  }

  // ---------------------------------------------------------------- digit sequences

  /** The number whose digits of width `w` are `d`, most significant first. */
  function Val(d: seq<byte>, w: nat): nat
    decreases |d|
  {
    if d == [] then 0 else Up(Val(d[..|d| - 1], w), w) + d[|d| - 1]
  }

  ghost predicate DigitsOk(d: seq<byte>, w: nat) {
    forall i :: 0 <= i < |d| ==> d[i] < Up(1, w)
  }

  /** Digits are determined by their number, value and width. */
  lemma {:induction false} ValInjective(d: seq<byte>, e: seq<byte>, w: nat)
    requires |d| == |e| && DigitsOk(d, w) && DigitsOk(e, w) && Val(d, w) == Val(e, w)
    ensures d == e
    decreases |d|
  {
    hide Up;
    if d != [] {
      var n := |d| - 1;
      DownPlaced(Val(d[..n], w), w, d[n]);
      DownPlaced(Val(e[..n], w), w, e[n]);
      ValInjective(d[..n], e[..n], w);
      assert d == d[..n] + [d[n]] && e == e[..n] + [e[n]];
    }
  }

  lemma {:induction false} ValAppend(d: seq<byte>, x: byte, w: nat)
    ensures Val(d + [x], w) == Up(Val(d, w), w) + x
  {
    hide Up;
    assert (d + [x])[..|d|] == d;
  }
}
