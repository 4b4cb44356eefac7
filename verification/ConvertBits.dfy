/**
 * Regrouping bits, as between bytes and five-bit symbols (wallet/bech32.go).
 */
module ConvertBits {
  import opened Base
  import opened Digits

  datatype ConvertError = InvalidGroup | InvalidPadding

  /** The variables of the regrouping loop. */
  datatype Regroup = Regroup(acc: nat, bits: nat, ret: seq<byte>)

  lemma {:induction false} ByteWidth(to: nat)
    requires to <= 8
    ensures Up(1, to) <= 256
  {
    assert Up(1, 0) == 1;
    if to >= 1 { assert Up(1, 1) == 2; }
    if to >= 2 { assert Up(1, 2) == 2 * Up(1, 1); }
    if to >= 3 { assert Up(1, 3) == 2 * Up(1, 2); }
    if to >= 4 { assert Up(1, 4) == 2 * Up(1, 3); }
    if to >= 5 { assert Up(1, 5) == 2 * Up(1, 4); }
    if to >= 6 { assert Up(1, 6) == 2 * Up(1, 5); }
    if to >= 7 { assert Up(1, 7) == 2 * Up(1, 6); }
    if to >= 8 { assert Up(1, 8) == 2 * Up(1, 7); }
  }

  /** `byte(x & maxv)`. */
  function LowByte(x: nat, to: nat): (r: byte)
    requires to <= 8
    ensures r == Low(x, to) && r < Up(1, to)
  {
    Split(x, to);
    ByteWidth(to);
    Low(x, to)
  }

  /** The inner loop: takes whole groups off the accumulator. */
  function Drain(g: Regroup, to: nat): (r: Regroup)
    requires 1 <= to <= 8
    ensures r.bits < to
    decreases g.bits
  {
    if g.bits < to then g
    else Drain(Regroup(g.acc, g.bits - to, g.ret + [LowByte(Down(g.acc, g.bits - to), to)]), to)
  }

  /** One value of the outer loop. */
  function Feed(g: Regroup, v: byte, from: nat, to: nat): (r: Regroup)
    requires 1 <= from <= 8 && 1 <= to <= 8
    ensures r.bits < to
  {
    Drain(Regroup(Low(Up(g.acc, from) + v, from + to - 1), g.bits + from, g.ret), to)
  }

  /** The loop over the first `n` values. */
  function FeedAll(data: seq<byte>, from: nat, to: nat, n: nat): (r: Regroup)
    requires 1 <= from <= 8 && 1 <= to <= 8 && n <= |data|
    ensures r.bits < to
  {
    if n == 0 then Regroup(0, 0, []) else Feed(FeedAll(data, from, to, n - 1), data[n - 1], from, to)
  }

  /** What `convertBits` returns. */
  ghost function Converted(data: seq<byte>, from: nat, to: nat, pad: bool): Result<seq<byte>, ConvertError>
    requires 1 <= from <= 8 && 1 <= to <= 8
  {
    if !DigitsOk(data, from) then Err(InvalidGroup)
    else
      var g := FeedAll(data, from, to, |data|);
      var last := LowByte(Up(g.acc, to - g.bits), to);
      if pad then Ok(if g.bits > 0 then g.ret + [last] else g.ret)
      else if g.bits >= from || last != 0 then Err(InvalidPadding)
      else Ok(g.ret)
  }

  /** `convertBits`. */
  method ConvertBits(data: seq<byte>, from: nat, to: nat, pad: bool) returns (r: Result<seq<byte>, ConvertError>)
    requires 1 <= from <= 8 && 1 <= to <= 8
    ensures r == Converted(data, from, to, pad)
  {
    hide Up, Down, Low;
    var acc: nat, bits: nat, ret: seq<byte> := 0, 0, [];
    for i := 0 to |data|
      invariant Regroup(acc, bits, ret) == FeedAll(data, from, to, i)
      invariant forall j :: 0 <= j < i ==> data[j] < Up(1, from)
    {
      if data[i] >= Up(1, from) {
        return Err(InvalidGroup);
      }
      ghost var before := FeedAll(data, from, to, i);
      acc := Low(Up(acc, from) + data[i], from + to - 1);
      bits := bits + from;
      while bits >= to
        invariant Drain(Regroup(acc, bits, ret), to) == Feed(before, data[i], from, to)
      {
        bits := bits - to;
        ret := ret + [LowByte(Down(acc, bits), to)];
      }
    }
    var last := LowByte(Up(acc, to - bits), to);
    if pad {
      if bits > 0 {
        ret := ret + [last];
      }
    } else if bits >= from || last != 0 {
      return Err(InvalidPadding);
    }
    return Ok(ret);
  }

  // ---------------------------------------------------------------- what the loop computes

  /** The groups taken so far are the top bits of the number read so far, and the accumulator holds its low bits. */
  ghost predicate Tracks(g: Regroup, v: nat, used: nat, from: nat, to: nat)
    requires 1 <= from && 1 <= to
  {
    && g.acc == Low(v, from + to - 1)
    && Val(g.ret, to) == Down(v, g.bits)
    && DigitsOk(g.ret, to)
    && used == Times(|g.ret|, to) + g.bits
  }

  /** A group read from the accumulator is the group of the whole number. */
  lemma {:induction false} GroupOf(v: nat, m: nat, b: nat, t: nat)
    requires b + t <= m
    ensures Low(Down(Low(v, m), b), t) == Low(Down(v, b), t)
  {
    hide Up, Down, Low;
    Split(v, m);
    DownOfSum(Down(v, m), m, Low(v, m), b);
    LowOfSum(Down(v, m), m - b, Down(Low(v, m), b), t);
  }

  lemma {:induction false} DrainTracks(g: Regroup, v: nat, used: nat, from: nat, to: nat)
    requires 1 <= from <= 8 && 1 <= to <= 8 && Tracks(g, v, used, from, to) && g.bits <= from + to - 1
    ensures Tracks(Drain(g, to), v, used, from, to)
    decreases g.bits
  {
    hide Up, Down, Low;
    if g.bits >= to {
      var b := g.bits - to;
      var x := LowByte(Down(g.acc, b), to);
      var next := Regroup(g.acc, b, g.ret + [x]);
      GroupOf(v, from + to - 1, b, to);
      ValAppend(g.ret, x, to);
      DownAdd(v, b, to);
      Split(Down(v, b), to);
      TimesStep(|g.ret|, to);
      assert Tracks(next, v, used, from, to);
      DrainTracks(next, v, used, from, to);
      assert Drain(g, to) == Drain(next, to);
    }
  }

  lemma {:induction false} TimesStep(n: nat, w: nat)
    ensures Times(n + 1, w) == Times(n, w) + w
  {
  }

  lemma {:induction false} AccumulatorOf(v: nat, m: nat, from: nat, x: nat)
    ensures Low(Up(Low(v, m), from) + x, m) == Low(Up(v, from) + x, m)
  {
    hide Up, Down, Low;
    Split(v, m);
    var h, l := Down(v, m), Low(v, m);
    UpSum(Up(h, m), l, from);
    UpAdd(h, m, from);
    LowOfSum(h, m + from, Up(l, from) + x, m);
  }

  lemma {:induction false} FeedTracks(g: Regroup, v: nat, used: nat, x: byte, from: nat, to: nat)
    requires 1 <= from <= 8 && 1 <= to <= 8 && Tracks(g, v, used, from, to) && g.bits < to && x < Up(1, from)
    ensures Tracks(Feed(g, x, from, to), Up(v, from) + x, used + from, from, to)
  {
    hide Up, Down, Low;
    AccumulatorOf(v, from + to - 1, from, x);
    DownPlaced(v, from, x);
    DownAdd(Up(v, from) + x, from, g.bits);
    var fed := Regroup(Low(Up(g.acc, from) + x, from + to - 1), g.bits + from, g.ret);
    DrainTracks(fed, Up(v, from) + x, used + from, from, to);
  }

  lemma {:induction false} FeedAllTracks(data: seq<byte>, from: nat, to: nat, n: nat)
    requires 1 <= from <= 8 && 1 <= to <= 8 && n <= |data| && DigitsOk(data, from)
    ensures Tracks(FeedAll(data, from, to, n), Val(data[..n], from), Times(n, from), from, to)
  {
    hide Up, Down, Low, Feed;
    if n == 0 {
      LowOfZero(from + to - 1);
      NoShift(0);
    } else {
      FeedAllTracks(data, from, to, n - 1);
      FeedTracks(FeedAll(data, from, to, n - 1), Val(data[..n - 1], from), Times(n - 1, from), data[n - 1], from, to);
      assert data[..n][..n - 1] == data[..n - 1];
      TimesStep(n - 1, from);
    }
  }

  lemma {:induction false} LowOfZero(k: nat)
    ensures Low(0, k) == 0
  {
    if k > 0 {
      LowOfZero(k - 1);
    }
  }

  /** The last group holds the left-over bits, moved to its top. */
  lemma {:induction false} LastGroup(v: nat, m: nat, b: nat, to: nat)
    requires b <= to && b <= m
    ensures Low(Up(Low(v, m), to - b), to) == Up(Low(v, b), to - b)
  {
    hide Up, Down, Low;
    var a := Low(v, m);
    GroupOf(v, m, 0, b);
    NoShift(a);
    NoShift(v);
    Split(a, b);
    UpSum(Up(Down(a, b), b), Low(a, b), to - b);
    UpAdd(Down(a, b), b, to - b);
    LowOfSum(Down(a, b), to, Up(Low(a, b), to - b), to);
    UpAdd(1, b, to - b);
    UpMonotone(Low(a, b), Up(1, b), to - b);
    LowOfSmall(Up(Low(a, b), to - b), to);
  }

  /** With padding: all bits, followed by fewer than `to` zero bits. */
  lemma {:induction false} PaddedValue(data: seq<byte>, from: nat, to: nat) returns (left: nat)
    requires 1 <= from <= 8 && 1 <= to <= 8 && DigitsOk(data, from)
    ensures Converted(data, from, to, true).Ok?
    ensures var ret := Converted(data, from, to, true).value;
            && DigitsOk(ret, to) && left < to
            && Times(|ret|, to) == Times(|data|, from) + left
            && Val(ret, to) == Up(Val(data, from), left)
  {
    hide Up, Down, Low, FeedAll;
    FeedAllTracks(data, from, to, |data|);
    assert data[..|data|] == data;
    var g, v := FeedAll(data, from, to, |data|), Val(data, from);
    if g.bits == 0 {
      left := 0;
      NoShift(v);
    } else {
      left := to - g.bits;
      var last := LowByte(Up(g.acc, left), to);
      LastGroup(v, from + to - 1, g.bits, to);
      ValAppend(g.ret, last, to);
      TimesStep(|g.ret|, to);
      Split(v, g.bits);
      UpSum(Up(Down(v, g.bits), g.bits), Low(v, g.bits), left);
      UpAdd(Down(v, g.bits), g.bits, left);
    }
  }

  /** Without padding: accepted exactly if fewer than `from` bits are left over and all are zero. */
  lemma {:induction false} ExactValue(data: seq<byte>, from: nat, to: nat) returns (left: nat)
    requires 1 <= from <= 8 && 1 <= to <= 8 && DigitsOk(data, from)
    ensures left == FeedAll(data, from, to, |data|).bits && left < to
    ensures Converted(data, from, to, false).Ok? <==> left < from && Low(Val(data, from), left) == 0
    ensures Converted(data, from, to, false).Ok? ==>
              var ret := Converted(data, from, to, false).value;
              && DigitsOk(ret, to)
              && Times(|data|, from) == Times(|ret|, to) + left
              && Val(ret, to) == Down(Val(data, from), left)
    ensures Times(|data|, from) == Times(|FeedAll(data, from, to, |data|).ret|, to) + left
  {
    hide Up, Down, Low, FeedAll;
    FeedAllTracks(data, from, to, |data|);
    assert data[..|data|] == data;
    var g, v := FeedAll(data, from, to, |data|), Val(data, from);
    left := g.bits;
    LastGroup(v, from + to - 1, left, to);
    UpZero(Low(v, left), to - left);
  }

  // ---------------------------------------------------------------- round trips

  /** Regrouping with padding and back gives the same values, for every sequence. */
  lemma {:induction false} RegroupAndBack(data: seq<byte>, from: nat, to: nat)
    requires 1 <= to <= from <= 8 && DigitsOk(data, from)
    ensures Converted(data, from, to, true).Ok?
    ensures Converted(Converted(data, from, to, true).value, to, from, false) == Ok(data)
  {
    hide Up, Down, Low, FeedAll, Converted;
    var pad := PaddedValue(data, from, to);
    var mid := Converted(data, from, to, true).value;
    var left := ExactValue(mid, to, from);
    var v := Val(data, from);
    TimesUnique(|data|, pad, |FeedAll(mid, to, from, |mid|).ret|, left, from);
    NoShift(v);
    PlacedZero(v, pad);
    var back := Converted(mid, to, from, false).value;
    TimesUnique(|data|, pad, |back|, left, from);
    ValInjective(back, data, from);
  }

  lemma {:induction false} PlacedZero(v: nat, k: nat)
    ensures Down(Up(v, k), k) == v && Low(Up(v, k), k) == 0
  {
    hide Up, Down, Low;
    UpZero(1, k);
    DownPlaced(v, k, 0);
  }

  /** Conversely, what regroups without padding comes back from regrouping with padding. */
  lemma {:induction false} BackAndRegroup(data: seq<byte>, from: nat, to: nat)
    requires 1 <= to <= from <= 8 && DigitsOk(data, to)
    requires Converted(data, to, from, false).Ok?
    ensures Converted(Converted(data, to, from, false).value, from, to, true) == Ok(data)
  {
    hide Up, Down, Low, FeedAll, Converted;
    var left := ExactValue(data, to, from);
    var mid := Converted(data, to, from, false).value;
    var pad := PaddedValue(mid, from, to);
    var back := Converted(mid, from, to, true).value;
    PadMatches(|back|, pad, |mid|, |data|, left, from, to);
    Split(Val(data, to), left);
    ValInjective(back, data, to);
  }

  lemma {:induction false} PadMatches(back: nat, pad: nat, mid: nat, data: nat, left: nat, from: nat, to: nat)
    requires pad < to && left < to
    requires Times(back, to) == Times(mid, from) + pad && Times(data, to) == Times(mid, from) + left
    ensures back == data && pad == left
  {
    if pad <= left {
      TimesUnique(back, left - pad, data, 0, to);
    } else {
      TimesUnique(data, pad - left, back, 0, to);
    }
  }
}
