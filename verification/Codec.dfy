/**
 * The binary codec of transactions and blocks (tx/transaction.go,
 * blockchain/block.go): bounded readers that invert the writers.
 */
module Codec {
  import opened Base
  import opened Tx
  import opened Blocks

  /** What a reader makes of a stream: a value and what is left of the stream. */
  datatype Parsed<+T> = Fail | Got(value: T, rest: seq<byte>)

  // ---------------------------------------------------------------- little-endian numbers

  function UnLE(s: seq<byte>): nat {
    if s == [] then 0 else s[0] + 256 * UnLE(s[1..])
  }

  function Span(k: nat): (r: nat)
    ensures r > 0
  {
    if k == 0 then 1 else 256 * Span(k - 1)
  }

  lemma {:induction false} UnLEofLE(n: nat, k: nat)
    requires n < Span(k)
    ensures UnLE(LE(n, k)) == n
  {
    if k > 0 {
      UnLEofLE(n / 256, k - 1);
      assert LE(n, k)[1..] == LE(n / 256, k - 1);
    }
  }

  lemma {:induction false} LEofUnLE(s: seq<byte>)
    ensures LE(UnLE(s), |s|) == s
    ensures UnLE(s) < Span(|s|)
  {
    if s != [] {
      LEofUnLE(s[1..]);
      assert s == [s[0]] + s[1..];
    }
  }

  /** The last byte is the most significant. */
  lemma {:induction false} LastByteLeads(s: seq<byte>)
    requires s != []
    ensures UnLE(s) == UnLE(s[..|s| - 1]) + s[|s| - 1] * Span(|s| - 1)
  {
    if |s| == 1 {
      assert s[1..] == [] && s[..0] == [];
    } else {
      LastByteLeads(s[1..]);
      assert s[1..][..|s| - 2] == s[..|s| - 1][1..];
      Weight(s[|s| - 1], Span(|s| - 2));
    }
  }

  lemma {:induction false} Weight(b: nat, w: nat)
    ensures 256 * (b * w) == b * (256 * w)
  {
  }

  lemma {:induction false} SpanValues()
    ensures Span(4) == TWO32 && Span(8) == TWO64
  {
    assert Span(1) == 256;
    assert Span(2) == 256 * Span(1);
    assert Span(3) == 256 * Span(2);
    assert Span(4) == 256 * Span(3);
    assert Span(5) == 256 * Span(4);
    assert Span(6) == 256 * Span(5);
    assert Span(7) == 256 * Span(6);
    assert Span(8) == 256 * Span(7);
  }

  /** `binary.Read` of an unsigned number of `k` bytes. */
  function ParseNat(s: seq<byte>, k: nat): (p: Parsed<nat>)
    ensures p.Got? <==> |s| >= k
    ensures p.Got? ==> p.rest == s[k..]
  {
    if |s| < k then Fail else Got(UnLE(s[..k]), s[k..])
  }

  lemma {:induction false} ParseNatOf(n: nat, k: nat, suffix: seq<byte>)
    requires n < Span(k)
    ensures ParseNat(LE(n, k) + suffix, k) == Got(n, suffix)
  {
    hide LE, UnLE, Span;
    UnLEofLE(n, k);
    assert (LE(n, k) + suffix)[..k] == LE(n, k);
    assert (LE(n, k) + suffix)[k..] == suffix;
  }

  lemma {:induction false} ParseNatBack(s: seq<byte>, k: nat)
    requires ParseNat(s, k).Got?
    ensures s == LE(ParseNat(s, k).value, k) + ParseNat(s, k).rest
    ensures ParseNat(s, k).value < Span(k)
  {
    hide LE, UnLE, Span;
    LEofUnLE(s[..k]);
    assert s == s[..k] + s[k..];
  }

  // ---------------------------------------------------------------- byte fields

  /** `readBytes`: a length of at most a million and that many bytes. */
  function ParseBytes(s: seq<byte>): Parsed<seq<byte>> {
    var n := ParseNat(s, 8);
    if n.Fail? || n.value > MAX_FIELD || |n.rest| < n.value then Fail
    else Got(n.rest[..n.value], n.rest[n.value..])
  }

  lemma {:induction false} ParseBytesOf(f: seq<byte>, suffix: seq<byte>)
    requires |f| < TWO64
    ensures ParseBytes(WireBytes(f) + suffix) == if |f| <= MAX_FIELD then Got(f, suffix) else Fail
  {
    hide LE, ParseNat, Span;
    SpanValues();
    ParseNatOf(|f|, 8, f + suffix);
    assert WireBytes(f) + suffix == LE(|f|, 8) + (f + suffix);
    assert (f + suffix)[..|f|] == f && (f + suffix)[|f|..] == suffix;
  }

  lemma {:induction false} ParseBytesBack(s: seq<byte>)
    requires ParseBytes(s).Got?
    ensures s == WireBytes(ParseBytes(s).value) + ParseBytes(s).rest
    ensures |ParseBytes(s).value| <= MAX_FIELD
  {
    hide LE, ParseNat, Span;
    ParseNatBack(s, 8);
    var n := ParseNat(s, 8);
    assert n.rest == n.rest[..n.value] + n.rest[n.value..];
  }

  // ---------------------------------------------------------------- inputs and outputs

  function ParseDigest(s: seq<byte>): Parsed<Digest> {
    if |s| < 32 then Fail else Got(s[..32], s[32..])
  }

  function ParseInput(s: seq<byte>): Parsed<Input> {
    var hash := ParseDigest(s);
    if hash.Fail? then Fail else
    var idx := ParseNat(hash.rest, 4);
    if idx.Fail? then Fail else
    var sig := ParseBytes(idx.rest);
    if sig.Fail? then Fail else
    var pub := ParseBytes(sig.rest);
    if pub.Fail? then Fail else
    Got(Input(hash.value, idx.value % TWO32, sig.value, pub.value), pub.rest)
  }

  function ParseOutput(s: seq<byte>): Parsed<Output> {
    var amount := ParseNat(s, 8);
    if amount.Fail? then Fail else
    var script := ParseBytes(amount.rest);
    if script.Fail? then Fail else
    Got(Output(amount.value % TWO64, script.value), script.rest)
  }

  /** A Go slice cannot have 2^63 elements or more. */
  predicate SizedInput(i: Input) {
    |i.signature| < TWO63 && |i.publicKey| < TWO63
  }

  predicate SizedOutput(o: Output) {
    |o.lockingScript| < TWO63
  }

  predicate Sized(t: Transaction) {
    && |t.inputs| < TWO63 && (forall i :: 0 <= i < |t.inputs| ==> SizedInput(t.inputs[i]))
    && |t.outputs| < TWO63 && (forall i :: 0 <= i < |t.outputs| ==> SizedOutput(t.outputs[i]))
  }

  lemma {:induction false} ParseInputOf(i: Input, suffix: seq<byte>)
    requires SizedInput(i)
    ensures ParseInput(WireInput(i) + suffix) == if InputInLimits(i) then Got(i, suffix) else Fail
  {
    hide LE, ParseNat, Span, ParseBytes, WireBytes;
    SpanValues();
    var tail3 := WireBytes(i.publicKey) + suffix;
    var tail2 := WireBytes(i.signature) + tail3;
    var tail1 := LE(i.outputIdx, 4) + tail2;
    assert WireInput(i) + suffix == i.prevTxHash + tail1;
    assert (i.prevTxHash + tail1)[..32] == i.prevTxHash && (i.prevTxHash + tail1)[32..] == tail1;
    ParseNatOf(i.outputIdx, 4, tail2);
    ParseBytesOf(i.signature, tail3);
    ParseBytesOf(i.publicKey, suffix);
  }

  lemma {:induction false} ParseInputBack(s: seq<byte>)
    requires ParseInput(s).Got?
    ensures s == WireInput(ParseInput(s).value) + ParseInput(s).rest
    ensures InputInLimits(ParseInput(s).value)
  {
    hide LE, ParseNat, Span, ParseBytes, WireBytes;
    SpanValues();
    var hash := ParseDigest(s);
    assert s == hash.value + hash.rest;
    ParseNatBack(hash.rest, 4);
    var idx := ParseNat(hash.rest, 4);
    ParseBytesBack(idx.rest);
    var sig := ParseBytes(idx.rest);
    ParseBytesBack(sig.rest);
  }

  lemma {:induction false} ParseOutputOf(o: Output, suffix: seq<byte>)
    requires SizedOutput(o)
    ensures ParseOutput(WireOutput(o) + suffix) == if OutputInLimits(o) then Got(o, suffix) else Fail
  {
    hide LE, ParseNat, Span, ParseBytes, WireBytes;
    SpanValues();
    var tail := WireBytes(o.lockingScript) + suffix;
    assert WireOutput(o) + suffix == LE(o.amount, 8) + tail;
    ParseNatOf(o.amount, 8, tail);
    ParseBytesOf(o.lockingScript, suffix);
  }

  lemma {:induction false} ParseOutputBack(s: seq<byte>)
    requires ParseOutput(s).Got?
    ensures s == WireOutput(ParseOutput(s).value) + ParseOutput(s).rest
    ensures OutputInLimits(ParseOutput(s).value)
  {
    hide LE, ParseNat, Span, ParseBytes, WireBytes;
    SpanValues();
    ParseNatBack(s, 8);
    ParseBytesBack(ParseNat(s, 8).rest);
  }

  function ParseInputs(s: seq<byte>, n: nat): Parsed<seq<Input>>
    decreases n
  {
    if n == 0 then Got([], s) else
    var first := ParseInput(s);
    if first.Fail? then Fail else
    var others := ParseInputs(first.rest, n - 1);
    if others.Fail? then Fail else Got([first.value] + others.value, others.rest)
  }

  function ParseOutputs(s: seq<byte>, n: nat): Parsed<seq<Output>>
    decreases n
  {
    if n == 0 then Got([], s) else
    var first := ParseOutput(s);
    if first.Fail? then Fail else
    var others := ParseOutputs(first.rest, n - 1);
    if others.Fail? then Fail else Got([first.value] + others.value, others.rest)
  }

  lemma {:induction false} ParseInputsOf(ins: seq<Input>, suffix: seq<byte>)
    requires forall i :: 0 <= i < |ins| ==> SizedInput(ins[i])
    ensures ParseInputs(WireInputs(ins) + suffix, |ins|) ==
              if forall i :: 0 <= i < |ins| ==> InputInLimits(ins[i]) then Got(ins, suffix) else Fail
  {
    hide ParseInput, WireInput;
    if ins == [] {
      assert WireInputs(ins) + suffix == suffix;
    } else {
      ParseInputsOf(ins[1..], suffix);
      ParseInputOf(ins[0], WireInputs(ins[1..]) + suffix);
      assert WireInputs(ins) + suffix == WireInput(ins[0]) + (WireInputs(ins[1..]) + suffix);
      assert ins == [ins[0]] + ins[1..];
    }
  }

  lemma {:induction false} ParseOutputsOf(outs: seq<Output>, suffix: seq<byte>)
    requires forall i :: 0 <= i < |outs| ==> SizedOutput(outs[i])
    ensures ParseOutputs(WireOutputs(outs) + suffix, |outs|) ==
              if forall i :: 0 <= i < |outs| ==> OutputInLimits(outs[i]) then Got(outs, suffix) else Fail
  {
    hide ParseOutput, WireOutput;
    if outs == [] {
      assert WireOutputs(outs) + suffix == suffix;
    } else {
      ParseOutputsOf(outs[1..], suffix);
      ParseOutputOf(outs[0], WireOutputs(outs[1..]) + suffix);
      assert WireOutputs(outs) + suffix == WireOutput(outs[0]) + (WireOutputs(outs[1..]) + suffix);
      assert outs == [outs[0]] + outs[1..];
    }
  }

  lemma {:induction false} ParseInputsBack(s: seq<byte>, n: nat)
    requires ParseInputs(s, n).Got?
    ensures s == WireInputs(ParseInputs(s, n).value) + ParseInputs(s, n).rest
    ensures |ParseInputs(s, n).value| == n
    ensures forall i :: 0 <= i < n ==> InputInLimits(ParseInputs(s, n).value[i])
    decreases n
  {
    hide ParseInput, WireInput;
    if n > 0 {
      ParseInputBack(s);
      ParseInputsBack(ParseInput(s).rest, n - 1);
      var ins := ParseInputs(s, n).value;
      assert ins[1..] == ParseInputs(ParseInput(s).rest, n - 1).value;
    }
  }

  lemma {:induction false} ParseOutputsBack(s: seq<byte>, n: nat)
    requires ParseOutputs(s, n).Got?
    ensures s == WireOutputs(ParseOutputs(s, n).value) + ParseOutputs(s, n).rest
    ensures |ParseOutputs(s, n).value| == n
    ensures forall i :: 0 <= i < n ==> OutputInLimits(ParseOutputs(s, n).value[i])
    decreases n
  {
    hide ParseOutput, WireOutput;
    if n > 0 {
      ParseOutputBack(s);
      ParseOutputsBack(ParseOutput(s).rest, n - 1);
      var outs := ParseOutputs(s, n).value;
      assert outs[1..] == ParseOutputs(ParseOutput(s).rest, n - 1).value;
    }
  }

  // ---------------------------------------------------------------- transactions

  const MAX_COUNT: nat := 1_000_000

  /** `readCount` and the tighter limit its caller checks. */
  function ParseCount(s: seq<byte>, limit: nat): Parsed<nat> {
    var n := ParseNat(s, 8);
    if n.Fail? || n.value > MAX_COUNT || n.value > limit then Fail else n
  }

  lemma {:induction false} ParseCountOf(n: nat, limit: nat, suffix: seq<byte>)
    requires n < TWO64 && limit <= MAX_COUNT
    ensures ParseCount(LE(n, 8) + suffix, limit) == if n <= limit then Got(n, suffix) else Fail
  {
    hide LE, ParseNat, Span;
    SpanValues();
    ParseNatOf(n, 8, suffix);
  }

  /** `ReadTransaction`. */
  function ParseTransaction(s: seq<byte>): Parsed<Transaction> {
    var version := ParseNat(s, 4);
    if version.Fail? then Fail else
    var nIn := ParseCount(version.rest, MAX_INPUTS);
    if nIn.Fail? then Fail else
    var ins := ParseInputs(nIn.rest, nIn.value);
    if ins.Fail? then Fail else
    var nOut := ParseCount(ins.rest, MAX_OUTPUTS);
    if nOut.Fail? then Fail else
    var outs := ParseOutputs(nOut.rest, nOut.value);
    if outs.Fail? then Fail else
    var lockTime := ParseNat(outs.rest, 8);
    if lockTime.Fail? then Fail else
    Got(Transaction(version.value % TWO32, ins.value, outs.value, lockTime.value % TWO64), lockTime.rest)
  }

  /** Reading back a written transaction, whatever follows it: exactly the transactions within the limits survive. */
  lemma {:induction false} TransactionRoundTrip(t: Transaction, suffix: seq<byte>)
    requires Sized(t)
    ensures ParseTransaction(SerializeTransaction(t) + suffix) == if InLimits(t) then Got(t, suffix) else Fail
  {
    hide LE, ParseNat, Span, ParseInputs, ParseOutputs, WireInputs, WireOutputs, ParseCount, InputInLimits,
         OutputInLimits, SizedInput, SizedOutput;
    SpanValues();
    var tail5 := LE(t.lockTime, 8) + suffix;
    var tail4 := WireOutputs(t.outputs) + tail5;
    var tail3 := LE(|t.outputs|, 8) + tail4;
    var tail2 := WireInputs(t.inputs) + tail3;
    var tail1 := LE(|t.inputs|, 8) + tail2;
    assert SerializeTransaction(t) + suffix == LE(t.version, 4) + tail1;
    ParseNatOf(t.version, 4, tail1);
    ParseCountOf(|t.inputs|, MAX_INPUTS, tail2);
    ParseInputsOf(t.inputs, tail3);
    ParseCountOf(|t.outputs|, MAX_OUTPUTS, tail4);
    ParseOutputsOf(t.outputs, tail5);
    ParseNatOf(t.lockTime, 8, suffix);
  }

  /** Conversely, a successful read has consumed exactly the serialization of its result. */
  lemma {:induction false} TransactionReadBack(s: seq<byte>)
    requires ParseTransaction(s).Got?
    ensures s == SerializeTransaction(ParseTransaction(s).value) + ParseTransaction(s).rest
    ensures InLimits(ParseTransaction(s).value)
  {
    hide LE, ParseNat, Span, ParseInputs, ParseOutputs, WireInputs, WireOutputs, InputInLimits, OutputInLimits,
         SerializeTransaction;
    SpanValues();
    ParseNatBack(s, 4);
    var version := ParseNat(s, 4);
    ParseNatBack(version.rest, 8);
    var nIn := ParseCount(version.rest, MAX_INPUTS);
    ParseInputsBack(nIn.rest, nIn.value);
    var ins := ParseInputs(nIn.rest, nIn.value);
    ParseNatBack(ins.rest, 8);
    var nOut := ParseCount(ins.rest, MAX_OUTPUTS);
    ParseOutputsBack(nOut.rest, nOut.value);
    var outs := ParseOutputs(nOut.rest, nOut.value);
    ParseNatBack(outs.rest, 8);
    var t, rest := ParseTransaction(s).value, ParseTransaction(s).rest;
    hide InLimits, ParseTransaction, ParseCount;
    Unfolded(t, rest);
    assert outs.rest == LE(t.lockTime, 8) + rest;
    assert nOut.rest == WireOutputs(t.outputs) + outs.rest;
    assert ins.rest == LE(|t.outputs|, 8) + nOut.rest;
    assert nIn.rest == WireInputs(t.inputs) + ins.rest;
  }

  lemma {:induction false} Unfolded(t: Transaction, suffix: seq<byte>)
    ensures SerializeTransaction(t) + suffix ==
              LE(t.version, 4) + (LE(|t.inputs|, 8) +
                  (WireInputs(t.inputs) + (LE(|t.outputs|, 8) +
                      (WireOutputs(t.outputs) + (LE(t.lockTime, 8) + suffix)))))
  {
    hide LE, WireInputs, WireOutputs;
  }

  // ---------------------------------------------------------------- blocks

  /** Two's complement back to a signed number. */
  function Signed(n: nat): i64 {
    var m := n % TWO64;
    if m >= TWO63 then m - TWO64 else m
  }

  /** The seven header fields read one after the other. */
  function ParseHeader(s: seq<byte>): Parsed<Header> {
    if |s| < 96 then Fail
    else Got(Header(UnLE(s[..4]) % TWO32, s[4..36], s[36..68], Signed(UnLE(s[68..76])), UnLE(s[76..80]) % TWO32,
                    UnLE(s[80..88]) % TWO64, UnLE(s[88..96]) % TWO64), s[96..])
  }

  lemma {:induction false} HeaderSlices(h: Header, suffix: seq<byte>)
    ensures var s := HeaderBytes(h) + suffix;
            && s[..4] == LE(h.version, 4) && s[4..36] == h.prevHash && s[36..68] == h.merkleRoot
            && s[68..76] == LE(Unsigned(h.timestamp), 8) && s[76..80] == LE(h.bits, 4)
            && s[80..88] == LE(h.nonce, 8) && s[88..96] == LE(h.height, 8) && s[96..] == suffix
  {
    hide LE;
  }

  lemma {:induction false} HeaderRoundTrip(h: Header, suffix: seq<byte>)
    ensures ParseHeader(HeaderBytes(h) + suffix) == Got(h, suffix)
  {
    hide LE, UnLE, Span, HeaderBytes;
    HeaderSlices(h, suffix);
    SpanValues();
    UnLEofLE(h.version, 4);
    UnLEofLE(Unsigned(h.timestamp), 8);
    UnLEofLE(h.bits, 4);
    UnLEofLE(h.nonce, 8);
    UnLEofLE(h.height, 8);
  }

  lemma {:induction false} HeaderReadBack(s: seq<byte>)
    requires ParseHeader(s).Got?
    ensures s == HeaderBytes(ParseHeader(s).value) + ParseHeader(s).rest
  {
    hide LE, UnLE, Span;
    SpanValues();
    LEofUnLE(s[..4]);
    LEofUnLE(s[68..76]);
    LEofUnLE(s[76..80]);
    LEofUnLE(s[80..88]);
    LEofUnLE(s[88..96]);
    assert s == s[..4] + s[4..36] + s[36..68] + s[68..76] + s[76..80] + s[80..88] + s[88..96] + s[96..];
  }

  /** Different headers are hashed from different bytes. */
  lemma {:induction false} HeaderBytesInjective(h: Header, h': Header)
    requires HeaderBytes(h) == HeaderBytes(h')
    ensures h == h'
  {
    hide HeaderBytes, ParseHeader;
    HeaderRoundTrip(h, []);
    HeaderRoundTrip(h', []);
  }

  function WireTransactions(txs: seq<Transaction>): seq<byte> {
    if txs == [] then [] else SerializeTransaction(txs[0]) + WireTransactions(txs[1..])
  }

  function SerializeBlock(b: Block): seq<byte> {
    HeaderBytes(b.header) + LE(|b.txs|, 8) + WireTransactions(b.txs)
  }

  function ParseTransactions(s: seq<byte>, n: nat): Parsed<seq<Transaction>>
    decreases n
  {
    if n == 0 then Got([], s) else
    var first := ParseTransaction(s);
    if first.Fail? then Fail else
    var others := ParseTransactions(first.rest, n - 1);
    if others.Fail? then Fail else Got([first.value] + others.value, others.rest)
  }

  /** `ReadBlock`. */
  function ParseBlock(s: seq<byte>): Parsed<Block> {
    var header := ParseHeader(s);
    if header.Fail? then Fail else
    var n := ParseNat(header.rest, 8);
    if n.Fail? || n.value > MAX_BLOCK_TXS then Fail else
    var txs := ParseTransactions(n.rest, n.value);
    if txs.Fail? then Fail else Got(Block(header.value, txs.value), txs.rest)
  }

  lemma {:induction false} ParseTransactionsOf(txs: seq<Transaction>, suffix: seq<byte>)
    requires forall i :: 0 <= i < |txs| ==> Sized(txs[i])
    ensures ParseTransactions(WireTransactions(txs) + suffix, |txs|) ==
              if forall i :: 0 <= i < |txs| ==> InLimits(txs[i]) then Got(txs, suffix) else Fail
  {
    hide ParseTransaction, SerializeTransaction, Sized, InLimits;
    if txs == [] {
      assert WireTransactions(txs) + suffix == suffix;
    } else {
      ParseTransactionsOf(txs[1..], suffix);
      TransactionRoundTrip(txs[0], WireTransactions(txs[1..]) + suffix);
      assert WireTransactions(txs) + suffix == SerializeTransaction(txs[0]) + (WireTransactions(txs[1..]) + suffix);
      assert txs == [txs[0]] + txs[1..];
    }
  }

  lemma {:induction false} ParseTransactionsBack(s: seq<byte>, n: nat)
    requires ParseTransactions(s, n).Got?
    ensures s == WireTransactions(ParseTransactions(s, n).value) + ParseTransactions(s, n).rest
    ensures |ParseTransactions(s, n).value| == n
    ensures forall i :: 0 <= i < n ==> InLimits(ParseTransactions(s, n).value[i])
    decreases n
  {
    hide ParseTransaction, SerializeTransaction, InLimits;
    if n > 0 {
      TransactionReadBack(s);
      ParseTransactionsBack(ParseTransaction(s).rest, n - 1);
      var txs := ParseTransactions(s, n).value;
      assert txs[1..] == ParseTransactions(ParseTransaction(s).rest, n - 1).value;
    }
  }

  predicate SizedBlock(b: Block) {
    |b.txs| < TWO63 && forall i :: 0 <= i < |b.txs| ==> Sized(b.txs[i])
  }

  /**
   * A block comes back from its serialization exactly if it is storable; this is what
   * `GetBlock` of the store model says.
   */
  lemma {:induction false} BlockRoundTrip(b: Block, suffix: seq<byte>)
    requires SizedBlock(b)
    ensures ParseBlock(SerializeBlock(b) + suffix) == if Storable(b) then Got(b, suffix) else Fail
  {
    hide LE, ParseNat, Span, ParseHeader, HeaderBytes, ParseTransactions, WireTransactions, InLimits, Sized;
    SpanValues();
    var tail2 := WireTransactions(b.txs) + suffix;
    var tail1 := LE(|b.txs|, 8) + tail2;
    assert SerializeBlock(b) + suffix == HeaderBytes(b.header) + tail1;
    HeaderRoundTrip(b.header, tail1);
    ParseNatOf(|b.txs|, 8, tail2);
    ParseTransactionsOf(b.txs, suffix);
  }

  /** A successful read of a block has consumed exactly the serialization of its result. */
  lemma {:induction false} BlockReadBack(s: seq<byte>)
    requires ParseBlock(s).Got?
    ensures s == SerializeBlock(ParseBlock(s).value) + ParseBlock(s).rest
    ensures Storable(ParseBlock(s).value)
  {
    hide LE, ParseNat, Span, ParseHeader, HeaderBytes, ParseTransactions, WireTransactions, InLimits;
    SpanValues();
    HeaderReadBack(s);
    var header := ParseHeader(s);
    ParseNatBack(header.rest, 8);
    var n := ParseNat(header.rest, 8);
    ParseTransactionsBack(n.rest, n.value);
  }
}
