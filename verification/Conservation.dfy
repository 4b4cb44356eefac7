/**
 * Value conservation: a block accepted by `ValidateBlockTransactionsAt` adds at
 * most its reward to the total of all unspent outputs.
 */
module Conservation {
  import opened Base
  import opened Tx
  import opened Blocks
  import opened Validation
  import opened Ledger

  /** The value of all coins. */
  ghost function Total(m: Utxos): nat {
    if m == map[] then 0
    else
      var o :| o in m;
      m[o].amount + Total(m - {o})
  }

  lemma {:induction false} TotalRemove(m: Utxos, o: Outpoint)
    requires o in m
    ensures Total(m) == m[o].amount + Total(m - {o})
    decreases |m|
  {
    var p :| p in m && Total(m) == m[p].amount + Total(m - {p});
    if p != o {
      TotalRemove(m - {p}, o);
      TotalRemove(m - {o}, p);
      assert m - {p} - {o} == m - {o} - {p};
    }
  }

  lemma {:induction false} TotalUpdate(m: Utxos, o: Outpoint, u: UTXO)
    ensures Total(m[o := u]) == Total(m - {o}) + u.amount
    ensures Total(m[o := u]) <= Total(m) + u.amount
    ensures o !in m ==> Total(m[o := u]) == Total(m) + u.amount
  {
    TotalRemove(m[o := u], o);
    assert m[o := u] - {o} == m - {o};
    if o in m {
      TotalRemove(m, o);
    } else {
      assert m - {o} == m;
    }
  }

  // ---------------------------------------------------------------- inputs

  /** What acceptance says about the inputs of a transaction. */
  lemma {:induction false} AcceptedInputs(t: Transaction, utxos: Utxos, verifier: Verifier, pending: set<Outpoint>,
                                          spendHeight: u64)
    requires Accepts(t, utxos, verifier, pending, spendHeight)
    ensures |t.inputs| >= 1
    ensures AllOutpoints(t) <= utxos.Keys
    ensures AllOutpoints(t) !! pending
    ensures forall i :: 0 <= i < |t.inputs| ==> OutpointOf(t.inputs[i]) !in Outpoints(t, i)
  {
    SerializedSize(t);
    forall i | 0 <= i < |t.inputs|
      ensures OutpointOf(t.inputs[i]) !in Outpoints(t, i) && OutpointOf(t.inputs[i]) in utxos &&
                OutpointOf(t.inputs[i]) !in pending
    {
      assert InputFault(t, i, utxos, verifier, pending, spendHeight).None?;
    }
  }

  lemma {:induction false} InputsLeave(t: Transaction, m: Utxos, n: nat)
    requires n <= |t.inputs| && AllOutpoints(t) <= m.Keys
    requires forall i :: 0 <= i < |t.inputs| ==> OutpointOf(t.inputs[i]) !in Outpoints(t, i)
    ensures Total(m - Outpoints(t, n)) + InputTotal(t, m, n) == Total(m)
  {
    if n == 0 {
      assert m - Outpoints(t, n) == m;
    } else {
      InputsLeave(t, m, n - 1);
      var o := OutpointOf(t.inputs[n - 1]);
      assert o in AllOutpoints(t);
      TotalRemove(m - Outpoints(t, n - 1), o);
      assert Outpoints(t, n) == Outpoints(t, n - 1) + {o};
      assert m - Outpoints(t, n) == m - Outpoints(t, n - 1) - {o};
    }
  }

  lemma {:induction false} InputTotalAgrees(t: Transaction, m: Utxos, gone: set<Outpoint>, n: nat)
    requires n <= |t.inputs| && AllOutpoints(t) !! gone
    ensures InputTotal(t, m, n) == InputTotal(t, m - gone, n)
  {
    if n > 0 {
      InputTotalAgrees(t, m, gone, n - 1);
      assert OutpointOf(t.inputs[n - 1]) in AllOutpoints(t);
    }
  }

  /** The value paid by transactions `lo` to `n` - 1. */
  function PaysBetween(txs: seq<Transaction>, lo: nat, n: nat): nat
    requires lo <= n <= |txs|
  {
    if n == lo then 0 else PaysBetween(txs, lo, n - 1) + Pays(txs[n - 1])
  }

  lemma {:induction false} PaysStep(txs: seq<Transaction>, n: nat)
    requires 0 < n <= |txs|
    ensures PaysBetween(txs, 0, n) == PaysBetween(txs, 0, n - 1) + OutputTotal(txs[n - 1], |txs[n - 1].outputs|)
  {
  }

  /** Taking away what transactions 1 to `n` - 1 spend takes away what they pay plus their fees. */
  lemma {:induction false} SpendersLeave(txs: seq<Transaction>, n: nat, m: Utxos, verifier: Verifier, spendHeight: u64)
    requires 1 <= n <= |txs| && SpendersFine(txs, n, m, verifier, spendHeight)
    ensures SpentBefore(txs, n) <= m.Keys
    ensures 0 <= FeesBefore(txs, m, n)
    ensures Total(m - SpentBefore(txs, n)) + PaysBetween(txs, 1, n) + FeesBefore(txs, m, n) == Total(m)
  {
    if n == 1 {
      assert m - SpentBefore(txs, n) == m;
    } else {
      SpendersLeave(txs, n - 1, m, verifier, spendHeight);
      SpenderLeaves(txs[n - 1], SpentBefore(txs, n - 1), m, verifier, spendHeight);
      hide Accepts, AllOutpoints, Spends, Pays;
      assert m - SpentBefore(txs, n) == m - SpentBefore(txs, n - 1) - AllOutpoints(txs[n - 1]);
    }
  }

  lemma {:induction false} SpenderLeaves(t: Transaction, gone: set<Outpoint>, m: Utxos, verifier: Verifier,
                                         spendHeight: u64)
    requires Accepts(t, m, verifier, gone, spendHeight)
    ensures AllOutpoints(t) <= m.Keys
    ensures Spends(t, m) >= Pays(t)
    ensures Total(m - gone - AllOutpoints(t)) + Spends(t, m) == Total(m - gone)
  {
    AcceptedInputs(t, m, verifier, gone, spendHeight);
    InputTotalAgrees(t, m, gone, |t.inputs|);
    InputsLeave(t, m - gone, |t.inputs|);
  }

  // ---------------------------------------------------------------- outputs

  /** The outpoints spent by transactions `i` and later. */
  function SpentFrom(txs: seq<Transaction>, i: nat): set<Outpoint>
    requires i <= |txs|
    decreases |txs| - i
  {
    if i == |txs| then {} else SpentBy(txs[i]) + SpentFrom(txs, i + 1)
  }

  lemma {:induction false} SpentSplit(txs: seq<Transaction>, i: nat)
    requires i <= |txs|
    ensures AllSpent(txs, i) + SpentFrom(txs, i) == SpentFrom(txs, 0)
  {
    hide SpentBy;
    if i > 0 {
      SpentSplit(txs, i - 1);
    }
  }

  /** Writing outputs adds at most their value to what lies outside `gone`, and exactly their value at new places. */
  lemma {:induction false} CreateTotal(m: Utxos, t: Transaction, height: u64, coinbase: bool, n: nat,
                                       gone: set<Outpoint>)
    requires n <= |t.outputs|
    ensures Total(Create(m, t, height, coinbase, n) - gone) <= Total(m - gone) + OutputTotal(t, n)
    ensures |t.outputs| <= TWO32 && Created(t) !! m.Keys && Created(t) !! gone ==>
              Total(Create(m, t, height, coinbase, n) - gone) == Total(m - gone) + OutputTotal(t, n)
  {
    hide Total, OutpointAt, CoinOf, Created;
    if n > 0 {
      CreateTotal(m, t, height, coinbase, n - 1, gone);
      var before := Create(m, t, height, coinbase, n - 1);
      var o, u := OutpointAt(t, n - 1), CoinOf(t, n - 1, height, coinbase);
      CoinAt(t, n - 1, height, coinbase);
      if o in gone {
        assert before[o := u] - gone == before - gone;
      } else {
        assert before[o := u] - gone == (before - gone)[o := u];
        TotalUpdate(before - gone, o, u);
        if |t.outputs| <= TWO32 && Created(t) !! m.Keys {
          NotYetCreated(m, t, height, coinbase, n - 1);
        }
      }
    }
  }

  lemma {:induction false} CoinAt(t: Transaction, i: nat, height: u64, coinbase: bool)
    requires i < |t.outputs|
    ensures OutpointAt(t, i) in Created(t) && CoinOf(t, i, height, coinbase).amount == t.outputs[i].amount
  {
  }

  lemma {:induction false} NotYetCreated(m: Utxos, t: Transaction, height: u64, coinbase: bool, n: nat)
    requires n < |t.outputs| <= TWO32 && Created(t) !! m.Keys
    ensures OutpointAt(t, n) !in Create(m, t, height, coinbase, n)
  {
    hide TxId, Create;
    CreateKeys(m, t, height, coinbase, n);
    CoinAt(t, n, height, coinbase);
  }

  lemma {:induction false} CreateKeys(m: Utxos, t: Transaction, height: u64, coinbase: bool, n: nat)
    requires n <= |t.outputs|
    ensures forall o :: o in Create(m, t, height, coinbase, n) <==>
              o in m || exists i :: 0 <= i < n && o == OutpointAt(t, i)
  {
    if n > 0 {
      CreateKeys(m, t, height, coinbase, n - 1);
      var before, after := Create(m, t, height, coinbase, n - 1), Create(m, t, height, coinbase, n);
      forall o
        ensures o in after <==> o in m || exists i :: 0 <= i < n && o == OutpointAt(t, i)
      {
        if o == OutpointAt(t, n - 1) {
          assert o in after;
        }
      }
    }
  }

  /** Every transaction writes to outpoints that neither the old coins nor the earlier transactions hold. */
  ghost predicate FreshOutputs(m: Utxos, txs: seq<Transaction>) {
    forall i :: 0 <= i < |txs| ==>
      |txs[i].outputs| <= TWO32 && Created(txs[i]) !! m.Keys && Created(txs[i]) !! AllCreated(txs, i)
  }

  lemma {:induction false} FreshAt(m: Utxos, txs: seq<Transaction>, n: nat, height: u64)
    requires n < |txs| && FreshOutputs(m, txs)
    ensures |txs[n].outputs| <= TWO32
    ensures Created(txs[n]) !! ApplyTxs(m, txs, n, height).Keys
    ensures Created(txs[n]) !! m.Keys
  {
    hide Created, ApplyTxs, AllCreated;
    ApplyTxsFrame(m, txs, n, height);
  }

  lemma {:induction false} ApplyTotal(m: Utxos, txs: seq<Transaction>, n: nat, height: u64)
    requires n <= |txs|
    ensures Total(ApplyTxs(m, txs, n, height) - SpentFrom(txs, n)) <= Total(m - SpentFrom(txs, 0)) +
              PaysBetween(txs, 0, n)
    ensures FreshOutputs(m, txs) && SpentFrom(txs, 0) <= m.Keys ==>
              Total(ApplyTxs(m, txs, n, height) - SpentFrom(txs, n)) ==
                  Total(m - SpentFrom(txs, 0)) + PaysBetween(txs, 0, n)
  {
    hide SpentBy, Created, Create, Total, Pays, AllCreated, AllSpent;
    if n > 0 {
      ApplyTotal(m, txs, n - 1, height);
      var t, before := txs[n - 1], ApplyTxs(m, txs, n - 1, height);
      CreateTotal(before - SpentBy(t), t, height, n - 1 == 0, |t.outputs|, SpentFrom(txs, n));
      assert OutputTotal(t, |t.outputs|) == PaysBetween(txs, 0, n) - PaysBetween(txs, 0, n - 1) by { PaysStep(txs, n); }
      assert before - SpentBy(t) - SpentFrom(txs, n) == before - SpentFrom(txs, n - 1);
      if FreshOutputs(m, txs) && SpentFrom(txs, 0) <= m.Keys {
        SpentSplit(txs, n);
        FreshAt(m, txs, n - 1, height);
      }
    }
  }

  // ---------------------------------------------------------------- blocks

  function Fees(b: Block, m: Utxos): int {
    FeesBefore(b.txs, m, |b.txs|)
  }

  lemma {:induction false} SpendersAreNotCoinbases(txs: seq<Transaction>, n: nat, m: Utxos, verifier: Verifier,
                                                   spendHeight: u64)
    requires 1 <= n <= |txs| && IsCoinbase(txs[0]) && SpendersFine(txs, n, m, verifier, spendHeight)
    ensures AllSpent(txs, n) == SpentBefore(txs, n)
    ensures forall i :: 1 <= i < n ==> !IsCoinbase(txs[i])
  {
    hide AllOutpoints, InputsFine, OutputsFine, Pays, Spends, MinFee;
    if n > 1 {
      SpendersAreNotCoinbases(txs, n - 1, m, verifier, spendHeight);
    } else {
      assert AllSpent(txs, 0) == {};
    }
  }

  lemma {:induction false} PaysSplit(txs: seq<Transaction>, n: nat)
    requires 1 <= n <= |txs|
    ensures PaysBetween(txs, 0, n) == Pays(txs[0]) + PaysBetween(txs, 1, n)
  {
    hide Pays;
    if n > 1 {
      PaysSplit(txs, n - 1);
    } else {
      assert PaysBetween(txs, 0, 0) == 0;
    }
  }

  /**
   * The balance sheet of an accepted block: coins move from inputs to outputs and
   * fees, and the coinbase adds its outputs.
   */
  lemma {:induction false} BlockBalance(m: Utxos, b: Block, verifier: Verifier, spendHeight: u64)
    requires BlockAccepted(b, m, verifier, spendHeight)
    ensures BlockSpends(b) <= m.Keys
    ensures 0 <= Fees(b, m) <= Total(m)
    ensures Total(ApplyUtxos(m, b)) <= Total(m) - Fees(b, m) + Pays(b.txs[0])
    ensures FreshOutputs(m, b.txs) ==> Total(ApplyUtxos(m, b)) == Total(m) - Fees(b, m) + Pays(b.txs[0])
  {
    hide Pays, IsCoinbase, SpendersFine, FreshOutputs, AllSpent, ApplyTxs, Total, FeesBefore, SpentBefore,
         BlockReward;
    var n := |b.txs|;
    SpendersLeave(b.txs, n, m, verifier, spendHeight);
    SpendersAreNotCoinbases(b.txs, n, m, verifier, spendHeight);
    SpentSplit(b.txs, n);
    assert SpentFrom(b.txs, n) == {};
    ApplyTotal(m, b.txs, n, b.header.height);
    PaysSplit(b.txs, n);
    assert ApplyTxs(m, b.txs, n, b.header.height) - SpentFrom(b.txs, n) == ApplyUtxos(m, b);
    assert SpentFrom(b.txs, 0) == SpentBefore(b.txs, n);
  }

  /** Inflation is bounded by the reward, as long as reward plus fees does not wrap. */
  lemma {:induction false} BlockAddsAtMostReward(m: Utxos, b: Block, verifier: Verifier, spendHeight: u64)
    requires BlockAccepted(b, m, verifier, spendHeight)
    requires Total(m) + BlockReward(b.header.height) <= U64_MAX
    ensures BlockReward(b.header.height) + Fees(b, m) <= U64_MAX
    ensures Total(ApplyUtxos(m, b)) <= Total(m) + BlockReward(b.header.height)
  {
    hide Pays, SpendersFine, IsCoinbase, ApplyUtxos, Total, FeesBefore, BlockReward;
    BlockBalance(m, b, verifier, spendHeight);
  }
}
