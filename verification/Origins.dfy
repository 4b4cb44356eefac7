/**
 * Where coins come from: every coin of a replay is an output of one block of the
 * chain, and carries that block's height and whether it is of the block's first
 * transaction (storage/storage.go).
 */
module Origins {
  import opened Base
  import opened Tx
  import opened Blocks
  import opened Validation
  import opened Ledger
  import opened Chains

  /** `u`, under `o`, is output `k` of transaction `j` of block `i`. */
  ghost predicate OutputOf(chain: seq<Block>, i: nat, j: nat, k: nat, o: Outpoint, u: UTXO) {
    && i < |chain| && j < |chain[i].txs| && k < |chain[i].txs[j].outputs|
    && var t := chain[i].txs[j];
       && o == Outpoint(TxId(t), ToU32(k)) && u.txHash == TxId(t) && u.outputIdx == ToU32(k)
       && u.amount == t.outputs[k].amount && u.script == t.outputs[k].lockingScript
       && u.height == chain[i].header.height && (u.coinbase <==> j == 0)
  }

  lemma {:induction false} CreateOrigin(m: Utxos, t: Transaction, height: u64, coinbase: bool, n: nat, o: Outpoint)
    returns (k: nat)
    requires n <= |t.outputs| && o in Create(m, t, height, coinbase, n)
    ensures var u := Create(m, t, height, coinbase, n)[o];
            (k < n && o == OutpointAt(t, k) && u == CoinOf(t, k, height, coinbase)) || (o in m && u == m[o])
  {
    hide OutpointAt, CoinOf;
    k := 0;
    if n > 0 {
      if o == OutpointAt(t, n - 1) {
        k := n - 1;
      } else {
        k := CreateOrigin(m, t, height, coinbase, n - 1, o);
      }
    }
  }

  lemma {:induction false} ApplyOrigin(m: Utxos, txs: seq<Transaction>, n: nat, height: u64, o: Outpoint)
    returns (j: nat, k: nat)
    requires n <= |txs| && o in ApplyTxs(m, txs, n, height)
    ensures var u := ApplyTxs(m, txs, n, height)[o];
            || (j < n && k < |txs[j].outputs| && o == OutpointAt(txs[j], k) && u == CoinOf(txs[j], k, height, j == 0))
            || (o in m && u == m[o])
  {
    hide OutpointAt, CoinOf, Create, SpentBy;
    j, k := 0, 0;
    if n > 0 {
      var before, t := ApplyTxs(m, txs, n - 1, height), txs[n - 1];
      k := CreateOrigin(before - SpentBy(t), t, height, n - 1 == 0, |t.outputs|, o);
      if k < |t.outputs| && o == OutpointAt(t, k) &&
          ApplyTxs(m, txs, n, height)[o] == CoinOf(t, k, height, n - 1 == 0) {
        j := n - 1;
      } else {
        j, k := ApplyOrigin(m, txs, n - 1, height, o);
      }
    }
  }

  /** Every coin of a replay is an output of a block of the chain, with that block's height. */
  lemma {:induction false} CoinOrigin(chain: seq<Block>, o: Outpoint) returns (i: nat, j: nat, k: nat)
    requires o in Replay(chain)
    ensures OutputOf(chain, i, j, k, o, Replay(chain)[o])
    decreases |chain|
  {
    hide TxId, ToU32, ApplyTxs;
    var b, before := Last(chain), Replay(Init(chain));
    j, k := ApplyOrigin(before, b.txs, |b.txs|, b.header.height, o);
    i := |chain| - 1;
    if !OutputOf(chain, i, j, k, o, Replay(chain)[o]) {
      i, j, k := CoinOrigin(Init(chain), o);
    }
  }

  lemma {:induction false} InChainTxs(chain: seq<Block>, i: nat, j: nat)
    requires i < |chain| && j < |chain[i].txs|
    ensures chain[i].txs[j] in ChainTxs(chain)
    decreases |chain|
  {
    if i < |chain| - 1 {
      InChainTxs(Init(chain), i, j);
    }
  }
}
