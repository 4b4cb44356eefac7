/**
 * What a signature stands for: the hash that is signed commits to the whole
 * payment, and every coin spent on a valid chain was released by the key its
 * script names (wallet/wallet.go, consensus/consensus.go).
 */
module Signatures {
  import opened Base
  import opened Tx
  import opened Blocks
  import opened Validation
  import opened Chains
  import opened Addresses
  import opened Builder
  import opened Spending
  import opened Injective
  import Codec

  // ---------------------------------------------------------------- what is hashed

  lemma {:induction false} MarkedSized(t: Transaction, index: int, script: seq<byte>)
    requires Codec.Sized(t) && |script| < TWO63
    ensures Codec.Sized(Transaction(t.version, Marked(t.inputs, index, script), t.outputs, t.lockTime))
  {
  }

  /**
   * The hash commits to the payment: two inputs with the same hash are inputs of the
   * same payment, spend the same script, and are the same input unless that script is
   * empty.
   */
  lemma {:induction false} SignatureHashCommits(t: Transaction, index: nat, script: seq<byte>,
                                                u: Transaction, index': nat, script': seq<byte>)
    requires index < |t.inputs| && index' < |u.inputs|
    requires Codec.Sized(t) && Codec.Sized(u) && |script| < TWO63 && |script'| < TWO63
    requires CollisionFree({SignedBytes(t, index, script), SignedBytes(u, index', script')})
    requires SignatureHash(t, index, script) == SignatureHash(u, index', script')
    ensures SamePayment(t, u) && script == script' && (script != [] ==> index == index')
  {
    hide SerializeTransaction, SignatureHash, Codec.SizedInput, Codec.SizedOutput;
    HashIsOfSignedBytes(t, index, script);
    HashIsOfSignedBytes(u, index', script');
    var x := Transaction(t.version, Marked(t.inputs, index, script), t.outputs, t.lockTime);
    var y := Transaction(u.version, Marked(u.inputs, index', script'), u.outputs, u.lockTime);
    assert SignedBytes(t, index, script) == SignedBytes(u, index', script');
    MarkedSized(t, index, script);
    MarkedSized(u, index', script');
    assert SerializeTransaction(x) + [] == SerializeTransaction(y) + [];
    SerializationIsInjective(x, y, [], []);
    SameMarks(t.inputs, index, script, u.inputs, index', script');
  }

  lemma {:induction false} SameMarks(ins: seq<Input>, index: nat, script: seq<byte>,
                                     ins': seq<Input>, index': nat, script': seq<byte>)
    requires index < |ins| && index' < |ins'| && Marked(ins, index, script) == Marked(ins', index', script')
    ensures |ins| == |ins'| && script == script' && (script != [] ==> index == index')
    ensures forall i :: 0 <= i < |ins| ==> OutpointOf(ins[i]) == OutpointOf(ins'[i])
  {
    var r := Marked(ins, index, script);
    assert r[index].signature == script && r[index'].signature == script';
    forall i | 0 <= i < |ins|
      ensures OutpointOf(ins[i]) == OutpointOf(ins'[i])
    {
      assert r[i].prevTxHash == ins[i].prevTxHash && r[i].outputIdx == ins[i].outputIdx;
    }
  }

  // ---------------------------------------------------------------- spends are verified

  /** With a verifier in place, every input of an accepted block after the coinbase was verified against its coin. */
  lemma {:induction false} AcceptedIsVerified(b: Block, m: Utxos, v: (Transaction, nat, seq<byte>) -> bool,
                                              spendHeight: u64, x: nat, i: nat)
    requires BlockAccepted(b, m, Some(v), spendHeight) && 1 <= x < |b.txs| && i < |b.txs[x].inputs|
    ensures OutpointOf(b.txs[x].inputs[i]) in m && v(b.txs[x], i, m[OutpointOf(b.txs[x].inputs[i])].script)
  {
    hide BlockAccepted, SoundSpend;
    AcceptedBlockMeans(b, m, Some(v), spendHeight);
    SoundInputs(b.txs[x], m, Some(v), spendHeight, i);
  }

  /**
   * On a chain valid under the wallet's verifier, every input after the coinbase
   * spends a coin whose script is the hash of the input's public key, and that key
   * verifies the input's 64-byte signature over the payment.
   */
  lemma {:induction false} ChainIsSigned(chain: seq<Block>, n: nat, x: nat, i: nat)
    requires ValidChain(chain, Some(Verified))
    requires n < |chain| && 1 <= x < |chain[n].txs| && i < |chain[n].txs[x].inputs|
    ensures var t, m := chain[n].txs[x], Replay(chain[..n]);
            var o, key := OutpointOf(t.inputs[i]), t.inputs[i].publicKey;
            && o in m
            && m[o].script == [112, 50, 112, 107, 104, 58] + Hash160(key)
            && |t.inputs[i].signature| == 64
            && KeyVerifies(key, Sha256d(SignedBytes(t, i, m[o].script)), t.inputs[i].signature)
  {
    hide ValidChain, Replay, SoundSpend, SignatureHash, SignedBytes;
    HeightIsPosition(chain, n, Some(Verified));
    ChainSpendsSoundly(chain, n, x, Some(Verified));
    var t, m := chain[n].txs[x], Replay(chain[..n]);
    SoundInputs(t, m, Some(Verified), n, i);
    var script := m[OutpointOf(t.inputs[i])].script;
    assert Verified(t, i, script);
    ScriptRoundTrip(Hash160(t.inputs[i].publicKey), script);
    HashIsOfSignedBytes(t, i, script);
  }
}
