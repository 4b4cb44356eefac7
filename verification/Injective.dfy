/**
 * Serialization is self-delimiting, so equal bytes mean equal transactions, and
 * hashes that do not collide tell transactions and headers apart.
 */
module Injective {
  import opened Base
  import opened Tx
  import opened Blocks
  import opened Codec
  import opened Chains
  import opened FirstSeen

  lemma {:induction false} SplitNat(a: nat, b: nat, k: nat, x: seq<byte>, y: seq<byte>)
    requires a < Span(k) && b < Span(k) && LE(a, k) + x == LE(b, k) + y
    ensures a == b && x == y
  {
    hide LE, ParseNat, Span;
    ParseNatOf(a, k, x);
    ParseNatOf(b, k, y);
  }

  lemma {:induction false} SplitSame(f: seq<byte>, g: seq<byte>, x: seq<byte>, y: seq<byte>)
    requires |f| == |g| && f + x == g + y
    ensures f == g && x == y
  {
    assert (f + x)[..|f|] == f && (g + y)[..|f|] == g;
    assert (f + x)[|f|..] == x && (g + y)[|f|..] == y;
  }

  lemma {:induction false} SplitBytes(f: seq<byte>, g: seq<byte>, x: seq<byte>, y: seq<byte>)
    requires |f| < TWO64 && |g| < TWO64 && WireBytes(f) + x == WireBytes(g) + y
    ensures f == g && x == y
  {
    hide LE, Span;
    SpanValues();
    assert WireBytes(f) + x == LE(|f|, 8) + (f + x);
    assert WireBytes(g) + y == LE(|g|, 8) + (g + y);
    SplitNat(|f|, |g|, 8, f + x, g + y);
    SplitSame(f, g, x, y);
  }

  lemma {:induction false} SplitInput(i: Input, j: Input, x: seq<byte>, y: seq<byte>)
    requires SizedInput(i) && SizedInput(j) && WireInput(i) + x == WireInput(j) + y
    ensures i == j && x == y
  {
    hide LE, Span, WireBytes;
    SpanValues();
    InputUnfolded(i, x);
    InputUnfolded(j, y);
    SplitSame(i.prevTxHash, j.prevTxHash, InputTail(i, x), InputTail(j, y));
    SplitNat(i.outputIdx, j.outputIdx, 4, WireBytes(i.signature) + (WireBytes(i.publicKey) + x),
        WireBytes(j.signature) + (WireBytes(j.publicKey) + y));
    SplitBytes(i.signature, j.signature, WireBytes(i.publicKey) + x, WireBytes(j.publicKey) + y);
    SplitBytes(i.publicKey, j.publicKey, x, y);
  }

  function InputTail(i: Input, x: seq<byte>): seq<byte> {
    LE(i.outputIdx, 4) + (WireBytes(i.signature) + (WireBytes(i.publicKey) + x))
  }

  lemma {:induction false} InputUnfolded(i: Input, x: seq<byte>)
    ensures WireInput(i) + x == i.prevTxHash + InputTail(i, x)
  {
    hide LE, WireBytes;
  }

  lemma {:induction false} SplitOutput(o: Output, p: Output, x: seq<byte>, y: seq<byte>)
    requires SizedOutput(o) && SizedOutput(p) && WireOutput(o) + x == WireOutput(p) + y
    ensures o == p && x == y
  {
    hide LE, Span, WireBytes;
    SpanValues();
    assert WireOutput(o) + x == LE(o.amount, 8) + (WireBytes(o.lockingScript) + x);
    assert WireOutput(p) + y == LE(p.amount, 8) + (WireBytes(p.lockingScript) + y);
    SplitNat(o.amount, p.amount, 8, WireBytes(o.lockingScript) + x, WireBytes(p.lockingScript) + y);
    SplitBytes(o.lockingScript, p.lockingScript, x, y);
  }

  lemma {:induction false} SplitInputs(a: seq<Input>, b: seq<Input>, x: seq<byte>, y: seq<byte>)
    requires |a| == |b| && WireInputs(a) + x == WireInputs(b) + y
    requires forall i :: 0 <= i < |a| ==> SizedInput(a[i]) && SizedInput(b[i])
    ensures a == b && x == y
  {
    hide WireInput, SizedInput;
    if a == [] {
      assert WireInputs(a) + x == x && WireInputs(b) + y == y;
    } else {
      assert WireInputs(a) + x == WireInput(a[0]) + (WireInputs(a[1..]) + x);
      assert WireInputs(b) + y == WireInput(b[0]) + (WireInputs(b[1..]) + y);
      SplitInput(a[0], b[0], WireInputs(a[1..]) + x, WireInputs(b[1..]) + y);
      SplitInputs(a[1..], b[1..], x, y);
      assert a == [a[0]] + a[1..] && b == [b[0]] + b[1..];
    }
  }

  lemma {:induction false} SplitOutputs(a: seq<Output>, b: seq<Output>, x: seq<byte>, y: seq<byte>)
    requires |a| == |b| && WireOutputs(a) + x == WireOutputs(b) + y
    requires forall i :: 0 <= i < |a| ==> SizedOutput(a[i]) && SizedOutput(b[i])
    ensures a == b && x == y
  {
    hide WireOutput, SizedOutput;
    if a == [] {
      assert WireOutputs(a) + x == x && WireOutputs(b) + y == y;
    } else {
      assert WireOutputs(a) + x == WireOutput(a[0]) + (WireOutputs(a[1..]) + x);
      assert WireOutputs(b) + y == WireOutput(b[0]) + (WireOutputs(b[1..]) + y);
      SplitOutput(a[0], b[0], WireOutputs(a[1..]) + x, WireOutputs(b[1..]) + y);
      SplitOutputs(a[1..], b[1..], x, y);
      assert a == [a[0]] + a[1..] && b == [b[0]] + b[1..];
    }
  }

  /** No serialization is a prefix of another, for transactions of any size. */
  lemma {:induction false} SerializationIsInjective(t: Transaction, u: Transaction, x: seq<byte>, y: seq<byte>)
    requires Sized(t) && Sized(u) && SerializeTransaction(t) + x == SerializeTransaction(u) + y
    ensures t == u && x == y
  {
    hide LE, Span, WireInputs, WireOutputs, SerializeTransaction, SizedInput, SizedOutput;
    SpanValues();
    Unfolded(t, x);
    Unfolded(u, y);
    var t4, u4 := LE(t.lockTime, 8) + x, LE(u.lockTime, 8) + y;
    var t3, u3 := WireOutputs(t.outputs) + t4, WireOutputs(u.outputs) + u4;
    var t2, u2 := LE(|t.outputs|, 8) + t3, LE(|u.outputs|, 8) + u3;
    var t1, u1 := WireInputs(t.inputs) + t2, WireInputs(u.inputs) + u2;
    SplitNat(t.version, u.version, 4, LE(|t.inputs|, 8) + t1, LE(|u.inputs|, 8) + u1);
    SplitNat(|t.inputs|, |u.inputs|, 8, t1, u1);
    SplitInputs(t.inputs, u.inputs, t2, u2);
    SplitNat(|t.outputs|, |u.outputs|, 8, t3, u3);
    SplitOutputs(t.outputs, u.outputs, t4, u4);
    SplitNat(t.lockTime, u.lockTime, 8, x, y);
  }

  /** If the hash does not collide on the serializations, transaction identifiers tell transactions apart. */
  lemma {:induction false} IdsFromHash(txs: set<Transaction>)
    requires forall t :: t in txs ==> Sized(t)
    requires CollisionFree(set t | t in txs :: SerializeTransaction(t))
    ensures IdsDistinguish(txs)
  {
    hide SerializeTransaction, Sized;
    forall t, u | t in txs && u in txs && TxId(t) == TxId(u)
      ensures t == u
    {
      assert SerializeTransaction(t) == SerializeTransaction(u);
      SerializationIsInjective(t, u, [], []);
    }
  }

  /** If the hash does not collide on the header bytes, header hashes tell headers apart. */
  lemma {:induction false} HeadersFromHash(headers: set<Header>)
    requires CollisionFree(set h | h in headers :: HeaderBytes(h))
    ensures HeadersDistinguish(headers)
  {
    hide HeaderBytes;
    forall h, g | h in headers && g in headers && HeaderHash(h) == HeaderHash(g)
      ensures h == g
    {
      assert HeaderBytes(h) == HeaderBytes(g);
      HeaderBytesInjective(h, g);
    }
  }
}
