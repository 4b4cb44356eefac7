/**
 * Transactions and their wire form (tx/transaction.go).
 */
module Tx {
  import opened Base

  datatype Input = Input(prevTxHash: Digest, outputIdx: u32, signature: seq<byte>, publicKey: seq<byte>)

  datatype Output = Output(amount: u64, lockingScript: seq<byte>)

  datatype Transaction = Transaction(version: u32, inputs: seq<Input>, outputs: seq<Output>, lockTime: u64)

  /** An output of some transaction, as the storage keys and `OutpointKey` name it. */
  datatype Outpoint = Outpoint(hash: Digest, idx: u32)

  function OutpointOf(i: Input): Outpoint {
    Outpoint(i.prevTxHash, i.outputIdx)
  }

  predicate IsCoinbase(t: Transaction) {
    |t.inputs| == 1 && t.inputs[0].prevTxHash == ZERO_DIGEST && t.inputs[0].outputIdx == U32_MAX
  }

  function NewCoinbase(message: seq<byte>, amount: u64, script: seq<byte>): (t: Transaction)
    ensures IsCoinbase(t)
  {
    Transaction(1, [Input(ZERO_DIGEST, U32_MAX, message, [])], [Output(amount, script)], 0)
  }

  // ---------------------------------------------------------------- wire form

  /** The `k` low bytes of `n`, least significant first. */
  function LE(n: nat, k: nat): (s: seq<byte>)
    ensures |s| == k
  {
    if k == 0 then [] else [n % 256] + LE(n / 256, k - 1)
  }

  function WireBytes(s: seq<byte>): seq<byte> {
    LE(|s|, 8) + s
  }

  function WireInput(i: Input): seq<byte> {
    i.prevTxHash + LE(i.outputIdx, 4) + WireBytes(i.signature) + WireBytes(i.publicKey)
  }

  function WireOutput(o: Output): seq<byte> {
    LE(o.amount, 8) + WireBytes(o.lockingScript)
  }

  function WireInputs(ins: seq<Input>): seq<byte> {
    if ins == [] then [] else WireInput(ins[0]) + WireInputs(ins[1..])
  }

  function WireOutputs(outs: seq<Output>): seq<byte> {
    if outs == [] then [] else WireOutput(outs[0]) + WireOutputs(outs[1..])
  }

  function SerializeTransaction(t: Transaction): seq<byte> {
    LE(t.version, 4) + LE(|t.inputs|, 8) + WireInputs(t.inputs)
    + LE(|t.outputs|, 8) + WireOutputs(t.outputs) + LE(t.lockTime, 8)
  }

  function TxId(t: Transaction): Digest {
    Sha256d(SerializeTransaction(t))
  }

  /** A transaction with an input takes at least 80 bytes, so it is never mistaken for a pair of digests. */
  lemma {:induction false} SerializedSize(t: Transaction)
    ensures |SerializeTransaction(t)| >= 28
    ensures |t.inputs| > 0 ==> |SerializeTransaction(t)| >= 80
  {
    if |t.inputs| > 0 {
      assert |WireInput(t.inputs[0])| >= 52;
    }
  }

  // ---------------------------------------------------------------- limits of the reader

  const MAX_INPUTS: nat := 10_000
  const MAX_OUTPUTS: nat := 10_000
  const MAX_FIELD: nat := 1_000_000

  predicate InputInLimits(i: Input) {
    |i.signature| <= MAX_FIELD && |i.publicKey| <= MAX_FIELD
  }

  predicate OutputInLimits(o: Output) {
    |o.lockingScript| <= MAX_FIELD
  }

  /** The transactions that `ReadTransaction` can return. */
  predicate InLimits(t: Transaction) {
    && |t.inputs| <= MAX_INPUTS && (forall i :: 0 <= i < |t.inputs| ==> InputInLimits(t.inputs[i]))
    && |t.outputs| <= MAX_OUTPUTS && (forall i :: 0 <= i < |t.outputs| ==> OutputInLimits(t.outputs[i]))
  }
}
