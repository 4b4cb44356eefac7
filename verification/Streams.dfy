/**
 * The writing and reading loops of the codec, with the stream as a value that
 * each step extends or shortens (tx/transaction.go, blockchain/block.go).
 */
module Streams {
  import opened Base
  import opened Tx
  import opened Blocks
  import opened Codec

  // ---------------------------------------------------------------- writers

  lemma {:induction false} WireInputsAppend(a: seq<Input>, x: Input)
    ensures WireInputs(a + [x]) == WireInputs(a) + WireInput(x)
  {
    hide WireInput;
    if a == [] {
      assert [x][1..] == [];
    } else {
      assert (a + [x])[1..] == a[1..] + [x];
      WireInputsAppend(a[1..], x);
    }
  }

  lemma {:induction false} WireOutputsAppend(a: seq<Output>, x: Output)
    ensures WireOutputs(a + [x]) == WireOutputs(a) + WireOutput(x)
  {
    hide WireOutput;
    if a == [] {
      assert [x][1..] == [];
    } else {
      assert (a + [x])[1..] == a[1..] + [x];
      WireOutputsAppend(a[1..], x);
    }
  }

  lemma {:induction false} WireTransactionsAppend(a: seq<Transaction>, x: Transaction)
    ensures WireTransactions(a + [x]) == WireTransactions(a) + SerializeTransaction(x)
  {
    hide SerializeTransaction;
    if a == [] {
      assert [x][1..] == [];
    } else {
      assert (a + [x])[1..] == a[1..] + [x];
      WireTransactionsAppend(a[1..], x);
    }
  }

  lemma {:induction false} WireInputPieces(w: seq<byte>, i: Input)
    ensures w + i.prevTxHash + LE(i.outputIdx, 4) + (LE(|i.signature|, 8) + i.signature) +
              (LE(|i.publicKey|, 8) + i.publicKey)
         == w + WireInput(i)
  {
    hide LE;
  }

  method WriteInputs(w: seq<byte>, ins: seq<Input>) returns (out: seq<byte>)
    ensures out == w + WireInputs(ins)
  {
    hide LE, WireInput;
    out := w;
    for i := 0 to |ins|
      invariant out == w + WireInputs(ins[..i])
    {
      assert ins[..i + 1] == ins[..i] + [ins[i]];
      WireInputsAppend(ins[..i], ins[i]);
      WireInputPieces(out, ins[i]);
      out := out + ins[i].prevTxHash;
      out := out + LE(ins[i].outputIdx, 4);
      out := out + (LE(|ins[i].signature|, 8) + ins[i].signature);
      out := out + (LE(|ins[i].publicKey|, 8) + ins[i].publicKey);
      assert out == w + WireInputs(ins[..i]) + WireInput(ins[i]);
    }
    assert ins[..|ins|] == ins;
  }

  method WriteOutputs(w: seq<byte>, outs: seq<Output>) returns (out: seq<byte>)
    ensures out == w + WireOutputs(outs)
  {
    hide LE;
    out := w;
    for i := 0 to |outs|
      invariant out == w + WireOutputs(outs[..i])
    {
      assert outs[..i + 1] == outs[..i] + [outs[i]];
      WireOutputsAppend(outs[..i], outs[i]);
      out := out + LE(outs[i].amount, 8);
      out := out + LE(|outs[i].lockingScript|, 8) + outs[i].lockingScript;
      assert out == w + WireOutputs(outs[..i]) + WireOutput(outs[i]);
    }
    assert outs[..|outs|] == outs;
  }

  /** `WriteTransaction` appends the serialization to the stream. */
  method WriteTransaction(w: seq<byte>, t: Transaction) returns (out: seq<byte>)
    ensures out == w + SerializeTransaction(t)
  {
    hide LE, WireInputs, WireOutputs;
    out := w + LE(t.version, 4) + LE(|t.inputs|, 8);
    out := WriteInputs(out, t.inputs);
    out := out + LE(|t.outputs|, 8);
    out := WriteOutputs(out, t.outputs);
    out := out + LE(t.lockTime, 8);
    assert out == w + SerializeTransaction(t);
  }

  /** `WriteBlock` appends header, count and transactions. */
  method WriteBlock(w: seq<byte>, b: Block) returns (out: seq<byte>)
    ensures out == w + SerializeBlock(b)
  {
    hide LE, SerializeTransaction, HeaderBytes;
    var start := w + HeaderBytes(b.header) + LE(|b.txs|, 8);
    out := start;
    for i := 0 to |b.txs|
      invariant out == start + WireTransactions(b.txs[..i])
    {
      assert b.txs[..i + 1] == b.txs[..i] + [b.txs[i]];
      WireTransactionsAppend(b.txs[..i], b.txs[i]);
      out := WriteTransaction(out, b.txs[i]);
    }
    assert b.txs[..|b.txs|] == b.txs;
    assert out == w + SerializeBlock(b);
  }

  // ---------------------------------------------------------------- readers

  /** Puts what was read already in front of what is read from here on. */
  function Resume<T>(done: seq<T>, later: Parsed<seq<T>>): Parsed<seq<T>> {
    if later.Fail? then Fail else Got(done + later.value, later.rest)
  }

  lemma {:induction false} ResumeStart<T>(later: Parsed<seq<T>>)
    ensures Resume([], later) == later
  {
    if later.Got? {
      assert [] + later.value == later.value;
    }
  }

  lemma {:induction false} ResumeMore<T>(done: seq<T>, x: T, later: Parsed<seq<T>>)
    ensures Resume(done, Resume([x], later)) == Resume(done + [x], later)
  {
    if later.Got? {
      assert done + ([x] + later.value) == done + [x] + later.value;
    }
  }

  method ReadInputs(r: seq<byte>, n: nat) returns (p: Parsed<seq<Input>>)
    ensures p == ParseInputs(r, n)
  {
    hide ParseInput;
    var done: seq<Input>, rest := [], r;
    ResumeStart(ParseInputs(r, n));
    for i := 0 to n
      invariant ParseInputs(r, n) == Resume(done, ParseInputs(rest, n - i))
    {
      var first := ParseInput(rest);
      if first.Fail? {
        return Fail;
      }
      ResumeMore(done, first.value, ParseInputs(first.rest, n - i - 1));
      assert ParseInputs(rest, n - i) == Resume([first.value], ParseInputs(first.rest, n - i - 1));
      done, rest := done + [first.value], first.rest;
    }
    assert ParseInputs(rest, 0) == Got([], rest) && done + [] == done;
    p := Got(done, rest);
  }

  method ReadOutputs(r: seq<byte>, n: nat) returns (p: Parsed<seq<Output>>)
    ensures p == ParseOutputs(r, n)
  {
    hide ParseOutput;
    var done: seq<Output>, rest := [], r;
    ResumeStart(ParseOutputs(r, n));
    for i := 0 to n
      invariant ParseOutputs(r, n) == Resume(done, ParseOutputs(rest, n - i))
    {
      var first := ParseOutput(rest);
      if first.Fail? {
        return Fail;
      }
      ResumeMore(done, first.value, ParseOutputs(first.rest, n - i - 1));
      assert ParseOutputs(rest, n - i) == Resume([first.value], ParseOutputs(first.rest, n - i - 1));
      done, rest := done + [first.value], first.rest;
    }
    assert ParseOutputs(rest, 0) == Got([], rest) && done + [] == done;
    p := Got(done, rest);
  }

  /** `ReadTransaction`. */
  method ReadTransaction(r: seq<byte>) returns (p: Parsed<Transaction>)
    ensures p == ParseTransaction(r)
  {
    hide ParseInputs, ParseOutputs, ParseNat;
    var version := ParseNat(r, 4);
    if version.Fail? {
      return Fail;
    }
    var nIn := ParseCount(version.rest, MAX_INPUTS);
    if nIn.Fail? {
      return Fail;
    }
    var ins := ReadInputs(nIn.rest, nIn.value);
    if ins.Fail? {
      return Fail;
    }
    var nOut := ParseCount(ins.rest, MAX_OUTPUTS);
    if nOut.Fail? {
      return Fail;
    }
    var outs := ReadOutputs(nOut.rest, nOut.value);
    if outs.Fail? {
      return Fail;
    }
    var lockTime := ParseNat(outs.rest, 8);
    if lockTime.Fail? {
      return Fail;
    }
    return Got(Transaction(version.value % TWO32, ins.value, outs.value, lockTime.value % TWO64), lockTime.rest);
  }

  /** `ReadBlock`. */
  method ReadBlock(r: seq<byte>) returns (p: Parsed<Block>)
    ensures p == ParseBlock(r)
  {
    hide ParseTransaction, ParseHeader, ParseNat;
    var header := ParseHeader(r);
    if header.Fail? {
      return Fail;
    }
    var n := ParseNat(header.rest, 8);
    if n.Fail? || n.value > MAX_BLOCK_TXS {
      return Fail;
    }
    var done: seq<Transaction>, rest := [], n.rest;
    ResumeStart(ParseTransactions(n.rest, n.value));
    for i := 0 to n.value
      invariant ParseTransactions(n.rest, n.value) == Resume(done, ParseTransactions(rest, n.value - i))
    {
      var first := ReadTransaction(rest);
      if first.Fail? {
        return Fail;
      }
      ResumeMore(done, first.value, ParseTransactions(first.rest, n.value - i - 1));
      assert ParseTransactions(rest, n.value - i) ==
             Resume([first.value], ParseTransactions(first.rest, n.value - i - 1));
      done, rest := done + [first.value], first.rest;
    }
    assert ParseTransactions(rest, 0) == Got([], rest) && done + [] == done;
    p := Got(Block(header.value, done), rest);
  }
}
