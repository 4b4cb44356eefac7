/**
 * What a block accepted at the coins of one chain needs to be accepted at those
 * of another: the coins it spends must be there and mature, and nothing else,
 * because amount and script of a coin do not depend on the chain.
 */
module OwnCoins {
  import opened Base
  import opened Tx
  import opened Blocks
  import opened Validation
  import opened Ledger
  import opened Conservation
  import opened Chains
  import opened Origins

  // ---------------------------------------------------------------- coins come from outputs

  /** The coin is output `i` of `t`. */
  ghost predicate IsOutput(t: Transaction, i: nat, o: Outpoint, u: UTXO) {
    && i < |t.outputs| && o == OutpointAt(t, i)
    && u.amount == t.outputs[i].amount && u.script == t.outputs[i].lockingScript
  }

  /** Every coin is an output of one of the transactions. */
  ghost predicate ComesFrom(m: Utxos, txs: set<Transaction>) {
    forall o :: o in m ==> exists t, i: nat :: t in txs && IsOutput(t, i, o, m[o])
  }

  lemma {:induction false} FromMore(m: Utxos, txs: set<Transaction>, more: set<Transaction>)
    requires ComesFrom(m, txs) && txs <= more
    ensures ComesFrom(m, more)
  {
    hide IsOutput;
    forall o | o in m
      ensures exists t, i: nat :: t in more && IsOutput(t, i, o, m[o])
    {
      var t, i: nat :| t in txs && IsOutput(t, i, o, m[o]);
      assert t in more && IsOutput(t, i, o, m[o]);
    }
  }

  /** Every coin of a replay is an output of a transaction of the chain. */
  lemma {:induction false} ReplayFrom(chain: seq<Block>)
    ensures ComesFrom(Replay(chain), ChainTxs(chain))
  {
    hide Replay, ChainTxs, TxId, ToU32;
    forall o | o in Replay(chain)
      ensures exists t, k: nat :: t in ChainTxs(chain) && IsOutput(t, k, o, Replay(chain)[o])
    {
      var i, j, k := CoinOrigin(chain, o);
      InChainTxs(chain, i, j);
      assert IsOutput(chain[i].txs[j], k, o, Replay(chain)[o]);
    }
  }

  /** Where both hold an outpoint, they agree on amount and script. */
  ghost predicate Agree(m: Utxos, m': Utxos) {
    forall o :: o in m && o in m' ==> m[o].amount == m'[o].amount && m[o].script == m'[o].script
  }

  /** Coins that come from transactions told apart by their identifiers agree, whatever their heights. */
  lemma {:induction false} SameOutputs(m: Utxos, m': Utxos, txs: set<Transaction>)
    requires ComesFrom(m, txs) && ComesFrom(m', txs) && IdsDistinguish(txs)
    requires forall t :: t in txs ==> |t.outputs| <= TWO32
    ensures Agree(m, m')
  {
    hide TxId;
    forall o | o in m && o in m'
      ensures m[o].amount == m'[o].amount && m[o].script == m'[o].script
    {
      var t, i: nat :| t in txs && IsOutput(t, i, o, m[o]);
      var t', i': nat :| t' in txs && IsOutput(t', i', o, m'[o]);
      assert TxId(t) == TxId(t') && ToU32(i) == ToU32(i');
    }
  }

  // ---------------------------------------------------------------- one transaction

  /** The coins that `t` spends are there and mature. */
  ghost predicate SpendsOwn(t: Transaction, m: Utxos, spendHeight: u64) {
    forall o :: o in AllOutpoints(t) ==> o in m && MatureAt(m, o, spendHeight)
  }

  lemma {:induction false} SameTotals(t: Transaction, m: Utxos, m': Utxos, n: nat)
    requires n <= |t.inputs| && Agree(m, m') && AllOutpoints(t) <= m.Keys && AllOutpoints(t) <= m'.Keys
    ensures InputTotal(t, m, n) == InputTotal(t, m', n)
  {
    if n > 0 {
      SameTotals(t, m, m', n - 1);
      assert OutpointOf(t.inputs[n - 1]) in AllOutpoints(t);
    }
  }

  /** An input that is sound at `m` is sound at `m'` exactly if its coin is there and mature. */
  lemma {:induction false} InputElsewhere(t: Transaction, i: nat, m: Utxos, m': Utxos, verifier: Verifier,
                                          pending: set<Outpoint>,
                                          spendHeight: u64)
    requires i < |t.inputs| && Agree(m, m') && AllOutpoints(t) <= m.Keys && AllOutpoints(t) <= m'.Keys
    requires InputFault(t, i, m, verifier, pending, spendHeight).None?
    ensures InputFault(t, i, m', verifier, pending, spendHeight).None? <==>
              MatureAt(m', OutpointOf(t.inputs[i]), spendHeight)
  {
    hide InputTotal, AddU64;
    SameTotals(t, m, m', i);
    assert OutpointOf(t.inputs[i]) in AllOutpoints(t);
  }

  lemma {:induction false} InputNeeds(t: Transaction, i: nat, m: Utxos, verifier: Verifier, pending: set<Outpoint>,
                                      spendHeight: u64)
    requires i < |t.inputs| && InputFault(t, i, m, verifier, pending, spendHeight).None?
    ensures OutpointOf(t.inputs[i]) in m && MatureAt(m, OutpointOf(t.inputs[i]), spendHeight)
  {
    hide InputTotal;
  }

  /** A transaction accepted at `m` is accepted at `m'` exactly if the coins it spends are there and mature. */
  lemma {:induction false} AcceptedElsewhere(t: Transaction, m: Utxos, m': Utxos, verifier: Verifier,
                                             pending: set<Outpoint>, spendHeight: u64)
    requires Accepts(t, m, verifier, pending, spendHeight) && Agree(m, m')
    ensures Accepts(t, m', verifier, pending, spendHeight) <==> SpendsOwn(t, m', spendHeight)
    ensures SpendsOwn(t, m', spendHeight) ==> Spends(t, m') == Spends(t, m)
  {
    hide Agree, InputFault, InputTotal, MatureAt, MinFee, IsCoinbase, OutputFault;
    AcceptedInputs(t, m, verifier, pending, spendHeight);
    if Accepts(t, m', verifier, pending, spendHeight) {
      forall i | 0 <= i < |t.inputs|
        ensures OutpointOf(t.inputs[i]) in m' && MatureAt(m', OutpointOf(t.inputs[i]), spendHeight)
      {
        InputNeeds(t, i, m', verifier, pending, spendHeight);
      }
    }
    if SpendsOwn(t, m', spendHeight) {
      SameTotals(t, m, m', |t.inputs|);
      forall i | 0 <= i < |t.inputs|
        ensures InputFault(t, i, m', verifier, pending, spendHeight).None?
      {
        assert OutpointOf(t.inputs[i]) in AllOutpoints(t);
        InputElsewhere(t, i, m, m', verifier, pending, spendHeight);
      }
    }
  }

  // ---------------------------------------------------------------- one block

  /** The first `n` transactions after the coinbase spend coins that are there and mature. */
  ghost predicate SpendersOwn(txs: seq<Transaction>, n: nat, m: Utxos, spendHeight: u64)
    requires n <= |txs|
  {
    forall i :: 1 <= i < n ==> SpendsOwn(txs[i], m, spendHeight)
  }

  lemma {:induction false} SpendersElsewhere(txs: seq<Transaction>, n: nat, m: Utxos, m': Utxos, verifier: Verifier,
                                             spendHeight: u64)
    requires n <= |txs| && SpendersFine(txs, n, m, verifier, spendHeight) && Agree(m, m')
    ensures SpendersFine(txs, n, m', verifier, spendHeight) <==> SpendersOwn(txs, n, m', spendHeight)
    ensures SpendersOwn(txs, n, m', spendHeight) ==> FeesBefore(txs, m', n) == FeesBefore(txs, m, n)
  {
    hide Agree, Accepts, SpendsOwn, Spends, Pays, SpentBefore;
    if n > 1 {
      SpendersElsewhere(txs, n - 1, m, m', verifier, spendHeight);
      AcceptedElsewhere(txs[n - 1], m, m', verifier, SpentBefore(txs, n - 1), spendHeight);
      assert SpendersOwn(txs, n, m', spendHeight) <==>
             SpendersOwn(txs, n - 1, m', spendHeight) && SpendsOwn(txs[n - 1], m', spendHeight);
    }
  }

  /** Every coin that the block spends is in `m` and mature at `spendHeight`. */
  ghost predicate SpendsOnly(b: Block, m: Utxos, spendHeight: u64) {
    SpendersOwn(b.txs, |b.txs|, m, spendHeight)
  }

  /**
   * A block accepted at the coins of one chain is accepted at those of another if
   * and only if every coin it spends is there and mature.
   */
  lemma {:induction false} BlockElsewhere(b: Block, m: Utxos, m': Utxos, verifier: Verifier, spendHeight: u64)
    requires BlockAccepted(b, m, verifier, spendHeight) && Agree(m, m')
    ensures BlockAccepted(b, m', verifier, spendHeight) <==> SpendsOnly(b, m', spendHeight)
  {
    hide Agree, SpendersFine, SpendersOwn, FeesBefore, Pays, BlockReward, IsCoinbase;
    SpendersElsewhere(b.txs, |b.txs|, m, m', verifier, spendHeight);
  }
}
