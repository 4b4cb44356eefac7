/**
 * What an accepted transaction and an accepted block are, said without the order
 * in which the code looks, and what follows for every spend on a valid chain
 * (consensus/consensus.go).
 */
module Spending {
  import opened Base
  import opened Tx
  import opened Blocks
  import opened Validation
  import opened Ledger
  import opened Conservation
  import opened Chains
  import opened Origins

  // ---------------------------------------------------------------- one transaction

  /** Input `i` names a coin that is there, has its 100 confirmations if it needs them, and verifies. */
  ghost predicate MaySpend(t: Transaction, i: nat, m: Utxos, verifier: Verifier, spendHeight: u64)
    requires i < |t.inputs|
  {
    var o := OutpointOf(t.inputs[i]);
    && o in m
    && (m[o].coinbase && spendHeight < U64_MAX ==> AddU64(m[o].height, 100) <= spendHeight)
    && (verifier.Some? ==> verifier.value(t, i, m[o].script))
  }

  /**
   * The transaction is not of the coinbase form, names no coin twice, may spend each
   * one it names, pays something with every output, and leaves one unit of fee per
   * serialized byte.
   */
  ghost predicate SoundSpend(t: Transaction, m: Utxos, verifier: Verifier, spendHeight: u64) {
    && !(|t.inputs| == 1 && OutpointOf(t.inputs[0]) == Outpoint(ZERO_DIGEST, 0xFFFF_FFFF))
    && NoInputTwice(t)
    && (forall i :: 0 <= i < |t.inputs| ==> MaySpend(t, i, m, verifier, spendHeight))
    && (forall i :: 0 <= i < |t.outputs| ==> t.outputs[i].amount > 0)
    && Pays(t) + |SerializeTransaction(t)| <= Spends(t, m) <= U64_MAX
  }

  lemma {:induction false} InputTotalRises(t: Transaction, m: Utxos, i: nat, n: nat)
    requires i <= n <= |t.inputs|
    ensures InputTotal(t, m, i) <= InputTotal(t, m, n)
  {
    if i < n {
      InputTotalRises(t, m, i, n - 1);
    }
  }

  /** One input passes its checks exactly if its coin is new to the block and the transaction and may be spent. */
  lemma {:induction false} InputPasses(t: Transaction, i: nat, m: Utxos, verifier: Verifier, pending: set<Outpoint>,
                                       spendHeight: u64)
    requires i < |t.inputs|
    ensures InputFault(t, i, m, verifier, pending, spendHeight).None? <==>
              && OutpointOf(t.inputs[i]) !in pending
              && (forall k :: 0 <= k < i ==> OutpointOf(t.inputs[k]) != OutpointOf(t.inputs[i]))
              && MaySpend(t, i, m, verifier, spendHeight)
              && InputTotal(t, m, i + 1) <= U64_MAX
  {
    var o := OutpointOf(t.inputs[i]);
    assert o in Outpoints(t, i) <==> exists k :: 0 <= k < i && OutpointOf(t.inputs[k]) == o;
  }

  lemma {:induction false} InputsPass(t: Transaction, m: Utxos, verifier: Verifier, pending: set<Outpoint>,
                                      spendHeight: u64)
    requires Spends(t, m) <= U64_MAX
    ensures InputsFine(t, |t.inputs|, m, verifier, pending, spendHeight) <==>
              && AllOutpoints(t) !! pending && NoInputTwice(t)
              && forall i :: 0 <= i < |t.inputs| ==> MaySpend(t, i, m, verifier, spendHeight)
  {
    hide InputFault, InputTotal, MaySpend;
    forall i | 0 <= i < |t.inputs|
      ensures OutpointOf(t.inputs[i]) in AllOutpoints(t) && InputTotal(t, m, i + 1) <= U64_MAX
      ensures InputFault(t, i, m, verifier, pending, spendHeight).None? <==>
                && OutpointOf(t.inputs[i]) !in pending
                && (forall k :: 0 <= k < i ==> OutpointOf(t.inputs[k]) != OutpointOf(t.inputs[i]))
                && MaySpend(t, i, m, verifier, spendHeight)
    {
      InputTotalRises(t, m, i + 1, |t.inputs|);
      InputPasses(t, i, m, verifier, pending, spendHeight);
    }
  }

  lemma {:induction false} InputsBound(t: Transaction, m: Utxos, verifier: Verifier, pending: set<Outpoint>,
                                       spendHeight: u64)
    requires InputsFine(t, |t.inputs|, m, verifier, pending, spendHeight)
    ensures Spends(t, m) <= U64_MAX
  {
    hide InputFault, MaySpend;
    if |t.inputs| > 0 {
      InputPasses(t, |t.inputs| - 1, m, verifier, pending, spendHeight);
    }
  }

  lemma {:induction false} OutputsPass(t: Transaction)
    requires Pays(t) <= U64_MAX
    ensures OutputsFine(t, |t.outputs|) <==> forall i :: 0 <= i < |t.outputs| ==> t.outputs[i].amount > 0
  {
    forall i | 0 <= i < |t.outputs|
      ensures OutputFault(t, i).None? <==> t.outputs[i].amount > 0
    {
      OutputTotalMonotone(t, i + 1, |t.outputs|);
    }
  }

  /** A transaction is accepted exactly if it is a sound spend of coins not yet spent in the block. */
  lemma {:induction false} AcceptedMeans(t: Transaction, m: Utxos, verifier: Verifier, pending: set<Outpoint>,
                                         spendHeight: u64)
    ensures Accepts(t, m, verifier, pending, spendHeight) <==>
              AllOutpoints(t) !! pending && SoundSpend(t, m, verifier, spendHeight)
  {
    hide InputFault, OutputFault, InputTotal, OutputTotal, MaySpend, InputsFine, OutputsFine, AllOutpoints,
         NoInputTwice, SerializeTransaction;
    if Accepts(t, m, verifier, pending, spendHeight) {
      InputsBound(t, m, verifier, pending, spendHeight);
    }
    if Pays(t) + MinFee(t) <= Spends(t, m) <= U64_MAX {
      InputsPass(t, m, verifier, pending, spendHeight);
      OutputsPass(t);
    }
  }

  /** The error that is reported names something that is wrong with the transaction. */
  lemma {:induction false} RejectionMeans(t: Transaction, m: Utxos, verifier: Verifier, pending: set<Outpoint>,
                                          spendHeight: u64, e: TxError)
    requires Rejects(t, m, verifier, pending, spendHeight, e)
    ensures match e
            case InvalidCoinbase => |t.inputs| == 1 && OutpointOf(t.inputs[0]) == Outpoint(ZERO_DIGEST, 0xFFFF_FFFF)
            case DoubleSpend => !NoInputTwice(t) || !(AllOutpoints(t) !! pending)
            case MissingUtxo => exists i :: 0 <= i < |t.inputs| && OutpointOf(t.inputs[i]) !in m
            case ImmatureCoinbase =>
              exists i :: 0 <= i < |t.inputs| && OutpointOf(t.inputs[i]) in m && m[OutpointOf(t.inputs[i])].coinbase
                          && spendHeight < AddU64(m[OutpointOf(t.inputs[i])].height, 100)
            case InvalidSignature =>
              exists i :: 0 <= i < |t.inputs| && OutpointOf(t.inputs[i]) in m && verifier.Some?
                          && !verifier.value(t, i, m[OutpointOf(t.inputs[i])].script)
            case Inflation => Spends(t, m) > U64_MAX || Pays(t) > U64_MAX || Pays(t) > Spends(t, m)
            case DustOutput => exists i :: 0 <= i < |t.outputs| && t.outputs[i].amount == 0
            case FeeTooLow => Pays(t) <= Spends(t, m) < Pays(t) + |SerializeTransaction(t)|
  {
    hide InputTotal, OutputTotal, SerializeTransaction, AddU64, Outpoints;
    if IsCoinbase(t) {
    } else if !InputsFine(t, |t.inputs|, m, verifier, pending, spendHeight) {
      var i :| 0 <= i < |t.inputs| && InputFault(t, i, m, verifier, pending, spendHeight) == Some(e);
      InputRejectionMeans(t, i, m, verifier, pending, spendHeight, e);
    } else if !OutputsFine(t, |t.outputs|) {
      var i :| 0 <= i < |t.outputs| && OutputFault(t, i) == Some(e);
      OutputTotalMonotone(t, i + 1, |t.outputs|);
      assert OutputTotal(t, i + 1) == OutputTotal(t, i) + t.outputs[i].amount by { NextOutput(t, i); }
    }
  }

  lemma {:induction false} NextOutput(t: Transaction, i: nat)
    requires i < |t.outputs|
    ensures OutputTotal(t, i + 1) == OutputTotal(t, i) + t.outputs[i].amount
  {
  }

  lemma {:induction false} InputRejectionMeans(t: Transaction, i: nat, m: Utxos, verifier: Verifier,
                                               pending: set<Outpoint>, spendHeight: u64, e: TxError)
    requires i < |t.inputs| && InputFault(t, i, m, verifier, pending, spendHeight) == Some(e)
    ensures var o := OutpointOf(t.inputs[i]);
            || (e == DoubleSpend && (!NoInputTwice(t) || !(AllOutpoints(t) !! pending)))
            || (e == MissingUtxo && o !in m)
            || (e == ImmatureCoinbase && o in m && m[o].coinbase && spendHeight < AddU64(m[o].height, 100))
            || (e == InvalidSignature && o in m && verifier.Some? && !verifier.value(t, i, m[o].script))
            || (e == Inflation && Spends(t, m) > U64_MAX)
  {
    var o := OutpointOf(t.inputs[i]);
    InputTotalRises(t, m, i + 1, |t.inputs|);
    assert o in AllOutpoints(t);
    assert o in Outpoints(t, i) ==> !NoInputTwice(t);
  }

  // ---------------------------------------------------------------- one block

  /** No two of the transactions after the first spend the same coin. */
  ghost predicate SpendApart(txs: seq<Transaction>, n: nat)
    requires n <= |txs|
  {
    forall x, y :: 1 <= x < y < n ==> AllOutpoints(txs[x]) !! AllOutpoints(txs[y])
  }

  lemma {:induction false} SpentBeforeIs(txs: seq<Transaction>, n: nat, o: Outpoint)
    requires n <= |txs|
    ensures o in SpentBefore(txs, n) <==> exists x :: 1 <= x < n && o in AllOutpoints(txs[x])
  {
    hide AllOutpoints;
    if n > 1 {
      SpentBeforeIs(txs, n - 1, o);
    }
  }

  lemma {:induction false} ApartFromBefore(txs: seq<Transaction>, y: nat)
    requires y < |txs|
    ensures AllOutpoints(txs[y]) !! SpentBefore(txs, y) <==>
              forall x :: 1 <= x < y ==> AllOutpoints(txs[x]) !! AllOutpoints(txs[y])
  {
    hide AllOutpoints, SpentBefore;
    forall o
      ensures o in SpentBefore(txs, y) <==> exists x :: 1 <= x < y && o in AllOutpoints(txs[x])
    {
      SpentBeforeIs(txs, y, o);
    }
  }

  lemma {:induction false} SpendersMean(txs: seq<Transaction>, n: nat, m: Utxos, verifier: Verifier, spendHeight: u64)
    requires n <= |txs|
    ensures SpendersFine(txs, n, m, verifier, spendHeight) <==>
              && SpendApart(txs, n) && (forall x :: 1 <= x < n ==> SoundSpend(txs[x], m, verifier, spendHeight))
              && FeesBefore(txs, m, n) <= U64_MAX
    ensures (forall x :: 1 <= x < n ==> SoundSpend(txs[x], m, verifier, spendHeight)) ==>
              forall i :: 0 <= i <= n ==> FeesBefore(txs, m, i) <= FeesBefore(txs, m, n)
  {
    hide Accepts, AllOutpoints, SpentBefore, Spends, Pays, MaySpend, SerializeTransaction;
    if n > 1 {
      var t := txs[n - 1];
      SpendersMean(txs, n - 1, m, verifier, spendHeight);
      AcceptedMeans(t, m, verifier, SpentBefore(txs, n - 1), spendHeight);
      ApartFromBefore(txs, n - 1);
    }
  }

  /**
   * A block is accepted exactly if its first transaction is a coinbase, the others
   * are sound spends of coins apart, and the coinbase pays at most reward and fees.
   */
  lemma {:induction false} AcceptedBlockMeans(b: Block, m: Utxos, verifier: Verifier, spendHeight: u64)
    ensures BlockAccepted(b, m, verifier, spendHeight) <==>
              && |b.txs| > 0
              && |b.txs[0].inputs| == 1 && OutpointOf(b.txs[0].inputs[0]) == Outpoint(ZERO_DIGEST, 0xFFFF_FFFF)
              && SpendApart(b.txs, |b.txs|)
              && (forall x :: 1 <= x < |b.txs| ==> SoundSpend(b.txs[x], m, verifier, spendHeight))
              && Fees(b, m) <= U64_MAX
              && Pays(b.txs[0]) <= (BlockReward(b.header.height) + Fees(b, m)) % TWO64
  {
    hide SpendersFine, SoundSpend, SpendApart, FeesBefore, Pays, BlockReward;
    SpendersMean(b.txs, |b.txs|, m, verifier, spendHeight);
  }

  // ---------------------------------------------------------------- spends on a valid chain

  /** Every transaction after the first of a block on a valid chain is a sound spend of the coins before the block. */
  lemma {:induction false} ChainSpendsSoundly(chain: seq<Block>, n: nat, x: nat, verifier: Verifier)
    requires ValidChain(chain, verifier) && n < |chain| && 1 <= x < |chain[n].txs|
    ensures SoundSpend(chain[n].txs[x], Replay(chain[..n]), verifier, n)
  {
    hide ValidChain, Replay, SoundSpend, BlockAccepted;
    GenesisIsAlone(chain, verifier);
    BlockAt(chain, n, verifier);
    AcceptedBlockMeans(chain[n], Replay(chain[..n]), verifier, n);
  }

  lemma {:induction false} HeightIsPosition(chain: seq<Block>, i: nat, verifier: Verifier)
    requires ValidChain(chain, verifier) && i < |chain|
    ensures chain[i].header.height == i
    decreases |chain|
  {
    hide Replay, BlockAccepted;
    if i < |chain| - 1 {
      HeightIsPosition(Init(chain), i, verifier);
    }
  }

  /**
   * Maturity as a law of chains: output `k` of the first transaction of block `i` is
   * spent by no block fewer than 100 heights above it.
   */
  lemma {:induction false} CoinbaseMatures(chain: seq<Block>, verifier: Verifier, i: nat, k: nat, n: nat, x: nat,
                                           q: nat)
    requires ValidChain(chain, verifier) && DistinctCoinbases(chain) && IdsDistinguish(ChainTxs(chain))
    requires i < |chain| && |chain[i].txs| > 0 && k < |chain[i].txs[0].outputs|
    requires n < |chain| && 1 <= x < |chain[n].txs| && q < |chain[n].txs[x].inputs|
    requires OutpointOf(chain[n].txs[x].inputs[q]) == OutpointAt(chain[i].txs[0], k)
    ensures i < n
    ensures n < U64_MAX - 100 ==> n >= i + 100
  {
    hide ValidChain, Replay, SoundSpend, ChainTxs, IdsDistinguish, DistinctCoinbases, BlockCreates;
    var m, o := Replay(chain[..n]), OutpointAt(chain[i].txs[0], k);
    HeightIsPosition(chain, n, verifier);
    ChainSpendsSoundly(chain, n, x, verifier);
    SoundInputs(chain[n].txs[x], m, verifier, n, q);
    var i', j', k' := CoinOrigin(chain[..n], o);
    assert chain[..n][i'] == chain[i'];
    SameOrigin(chain, verifier, o, i, k, i', j', k');
    HeightIsPosition(chain, i, verifier);
  }

  lemma {:induction false} SoundInputs(t: Transaction, m: Utxos, verifier: Verifier, spendHeight: u64, q: nat)
    requires SoundSpend(t, m, verifier, spendHeight) && q < |t.inputs|
    ensures MaySpend(t, q, m, verifier, spendHeight)
  {
    hide MaySpend;
  }

  /** An outpoint has one origin on a chain without reuse. */
  lemma {:induction false} SameOrigin(chain: seq<Block>, verifier: Verifier, o: Outpoint, i: nat, k: nat, i': nat,
                                      j': nat, k': nat)
    requires ValidChain(chain, verifier) && DistinctCoinbases(chain) && IdsDistinguish(ChainTxs(chain))
    requires i < |chain| && |chain[i].txs| > 0 && k < |chain[i].txs[0].outputs| && o == OutpointAt(chain[i].txs[0], k)
    requires i' < |chain| && j' < |chain[i'].txs| && k' < |chain[i'].txs[j'].outputs|
    requires o == OutpointAt(chain[i'].txs[j'], k')
    ensures i == i' && j' == 0
  {
    hide ValidChain, Replay, ChainTxs, IdsDistinguish, DistinctCoinbases, BlockSpends, SpentBy, NoInputTwice, TxId,
         ToU32, IsCoinbase, AllCreated;
    OutpointsAreUnique(chain, verifier);
    assert o in Created(chain[i].txs[0]) && o in Created(chain[i'].txs[j']);
    CreatedWithin(chain[i].txs, 0, |chain[i].txs|);
    CreatedWithin(chain[i'].txs, j', |chain[i'].txs|);
  }
}
