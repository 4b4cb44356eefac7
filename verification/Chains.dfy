/**
 * Chains of blocks as values: replay from genesis, validity, the supply bound
 * and the uniqueness of outpoints along a chain.
 */
module Chains {
  import opened Base
  import opened Params
  import opened Tx
  import opened Blocks
  import opened Validation
  import opened Ledger
  import opened Conservation
  import opened Supply

  function Init(chain: seq<Block>): seq<Block>
    requires chain != []
  {
    chain[..|chain| - 1]
  }

  function Last(chain: seq<Block>): Block
    requires chain != []
  {
    chain[|chain| - 1]
  }

  /** The unspent outputs after all blocks of the chain, from the empty set. */
  function Replay(chain: seq<Block>): Utxos
    decreases |chain|
  {
    if chain == [] then map[] else ApplyUtxos(Replay(Init(chain)), Last(chain))
  }

  /** A block of one coinbase that pays at most the first reward. */
  predicate GenesisLike(b: Block) {
    b.header.height == 0 && |b.txs| == 1 && IsCoinbase(b.txs[0]) && Pays(b.txs[0]) <= INITIAL_REWARD
  }

  lemma {:induction false} GenesisIsGenesisLike(message: seq<byte>, script: seq<byte>, bits: u32, nonce: u64)
    ensures GenesisLike(GenesisBlock(message, script, INITIAL_REWARD, bits, nonce))
  {
    hide MerkleRoot;
    var t := NewCoinbase(message, INITIAL_REWARD, script);
    assert Pays(t) == OutputTotal(t, 0) + INITIAL_REWARD;
  }

  /** Every block after the first is accepted at the replay of the blocks before it. */
  ghost predicate ValidChain(chain: seq<Block>, verifier: Verifier)
    decreases |chain|
  {
    && |chain| >= 1
    && Last(chain).header.height == |chain| - 1
    && if |chain| == 1 then GenesisLike(chain[0])
       else ValidChain(Init(chain), verifier)
            && BlockAccepted(Last(chain), Replay(Init(chain)), verifier, Last(chain).header.height)
  }

  lemma {:induction false} ReplayWellKeyed(chain: seq<Block>)
    ensures WellKeyed(Replay(chain))
    decreases |chain|
  {
    if chain != [] {
      ReplayWellKeyed(Init(chain));
      ApplyTxsFrame(Replay(Init(chain)), Last(chain).txs, |Last(chain).txs|, Last(chain).header.height);
    }
  }

  // ---------------------------------------------------------------- supply

  lemma {:induction false} GenesisTotal(b: Block)
    requires GenesisLike(b)
    ensures Total(ApplyUtxos(map[], b)) <= INITIAL_REWARD
  {
    hide Total, IsCoinbase;
    var t, none: Utxos := b.txs[0], map[];
    CreateTotal(none - SpentBy(t), t, b.header.height, true, |t.outputs|, {});
    var after := ApplyTx(none, t, b.header.height, true);
    assert ApplyTxs(none, b.txs, 0, b.header.height) == none;
    assert after == ApplyUtxos(none, b);
    assert after - {} == after;
    TotalEmpty();
    assert none - SpentBy(t) - {} == none;
  }

  lemma {:induction false} TotalEmpty()
    ensures Total(map[]) == 0
  {
  }

  /** All coins of a valid chain are worth at most the rewards of its blocks. */
  lemma {:induction false} ChainSupply(chain: seq<Block>, verifier: Verifier)
    requires ValidChain(chain, verifier)
    ensures Total(Replay(chain)) <= RewardSum(|chain|)
    decreases |chain|
  {
    hide Total, GenesisLike, BlockAccepted, ApplyUtxos, BlockReward, Subsidy;
    if |chain| == 1 {
      GenesisTotal(chain[0]);
      assert Replay(Init(chain)) == map[];
      FirstReward();
    } else {
      ChainSupply(Init(chain), verifier);
      RewardIsSubsidy(Last(chain).header.height);
      RewardSumBound(|chain|);
      BlockAddsAtMostReward(Replay(Init(chain)), Last(chain), verifier, Last(chain).header.height);
    }
  }

  lemma {:induction false} FirstReward()
    ensures RewardSum(1) == INITIAL_REWARD
  {
    assert RewardSum(0) == 0;
    assert Subsidy(0) == INITIAL_REWARD;
  }

  /**
   * Total supply stays below the cap, and no block whose spenders pass wraps `reward
   * + fees`, whatever its coinbase claims.
   */
  lemma {:induction false} SupplyCap(chain: seq<Block>, verifier: Verifier)
    requires ValidChain(chain, verifier)
    ensures Total(Replay(chain)) <= RewardSum(|chain|) <= 2 * INITIAL_REWARD * HALVING_INTERVAL < MAX_SUPPLY
    ensures forall b: Block, h: u64 :: |b.txs| > 0 && SpendersFine(b.txs, |b.txs|, Replay(chain), verifier, h) ==>
              0 <= Fees(b, Replay(chain)) && BlockReward(b.header.height) + Fees(b, Replay(chain)) <= U64_MAX
  {
    ChainSupply(chain, verifier);
    RewardSumBound(|chain|);
    hide Total, ValidChain, SpendersFine, BlockReward, FeesBefore, Replay;
    forall b: Block, h: u64 | |b.txs| > 0 && SpendersFine(b.txs, |b.txs|, Replay(chain), verifier, h)
      ensures 0 <= Fees(b, Replay(chain)) && BlockReward(b.header.height) + Fees(b, Replay(chain)) <= U64_MAX
    {
      RewardIsSubsidy(b.header.height);
      SubsidyMonotone(0, b.header.height / HALVING_INTERVAL);
      assert Subsidy(0) == INITIAL_REWARD;
      SpendersLeave(b.txs, |b.txs|, Replay(chain), verifier, h);
    }
  }

  // ---------------------------------------------------------------- uniqueness

  function TxSet(txs: seq<Transaction>): set<Transaction> {
    set i | 0 <= i < |txs| :: txs[i]
  }

  function ChainTxs(chain: seq<Block>): set<Transaction>
    decreases |chain|
  {
    if chain == [] then {} else ChainTxs(Init(chain)) + TxSet(Last(chain).txs)
  }

  function ChainCreates(chain: seq<Block>): set<Outpoint>
    decreases |chain|
  {
    if chain == [] then {} else ChainCreates(Init(chain)) + BlockCreates(Last(chain))
  }

  function ChainSpends(chain: seq<Block>): set<Outpoint>
    decreases |chain|
  {
    if chain == [] then {} else ChainSpends(Init(chain)) + BlockSpends(Last(chain))
  }

  /** Transaction identifiers tell the given transactions apart. */
  ghost predicate IdsDistinguish(txs: set<Transaction>) {
    forall t, t' :: t in txs && t' in txs && TxId(t) == TxId(t') ==> t == t'
  }

  /** The coinbase of the last block differs from all earlier ones, and so on down the chain. */
  ghost predicate DistinctCoinbases(chain: seq<Block>) {
    forall i, j :: 0 <= i < j < |chain| && |chain[i].txs| > 0 && |chain[j].txs| > 0 ==>
        chain[i].txs[0] != chain[j].txs[0]
  }

  /** What holds along a chain on which no transaction repeats. */
  ghost predicate NoReuse(chain: seq<Block>) {
    && Replay(chain).Keys == ChainCreates(chain) - ChainSpends(chain)
    && ChainSpends(chain) <= ChainCreates(chain)
    && (forall t :: t in ChainTxs(chain) && !IsCoinbase(t) ==> AllOutpoints(t) <= ChainSpends(chain))
    && (forall t :: t in ChainTxs(chain) && IsCoinbase(t) ==>
          exists j :: 0 <= j < |chain| && |chain[j].txs| > 0 && chain[j].txs[0] == t)
    && (forall o :: o in ChainCreates(chain) ==> exists t :: t in ChainTxs(chain) && TxId(t) == o.hash)
  }

  lemma {:induction false} AcceptedSpender(txs: seq<Transaction>, i: nat, n: nat, m: Utxos, verifier: Verifier,
                                           spendHeight: u64)
    requires 1 <= i < n <= |txs| && SpendersFine(txs, n, m, verifier, spendHeight)
    ensures Accepts(txs[i], m, verifier, SpentBefore(txs, i), spendHeight)
  {
    hide Accepts;
    if i < n - 1 {
      AcceptedSpender(txs, i, n - 1, m, verifier, spendHeight);
    }
  }

  lemma {:induction false} SpentBeforeContains(txs: seq<Transaction>, i: nat, n: nat)
    requires 1 <= i < n <= |txs|
    ensures AllOutpoints(txs[i]) <= SpentBefore(txs, n)
  {
    hide AllOutpoints;
    if i < n - 1 {
      SpentBeforeContains(txs, i, n - 1);
    }
  }

  /** An accepted block holds no transaction twice. */
  lemma {:induction false} AcceptedDistinct(b: Block, m: Utxos, verifier: Verifier, spendHeight: u64, i: nat, j: nat)
    requires BlockAccepted(b, m, verifier, spendHeight) && i < j < |b.txs|
    ensures b.txs[i] != b.txs[j]
  {
    AcceptedSpender(b.txs, j, |b.txs|, m, verifier, spendHeight);
    AcceptedInputs(b.txs[j], m, verifier, SpentBefore(b.txs, j), spendHeight);
    if i >= 1 {
      SpentBeforeContains(b.txs, i, j);
      assert OutpointOf(b.txs[j].inputs[0]) in AllOutpoints(b.txs[j]);
    }
  }

  /** An accepted block repeats no transaction of a chain without reuse, if its coinbase is new. */
  lemma {:induction false} AcceptedNew(chain: seq<Block>, b: Block, verifier: Verifier, spendHeight: u64, i: nat)
    requires NoReuse(chain) && BlockAccepted(b, Replay(chain), verifier, spendHeight)
    requires forall j :: 0 <= j < |chain| && |chain[j].txs| > 0 ==> chain[j].txs[0] != b.txs[0]
    requires i < |b.txs|
    ensures b.txs[i] !in ChainTxs(chain)
  {
    hide Replay, ChainTxs, ChainCreates, ChainSpends;
    if i >= 1 {
      AcceptedSpender(b.txs, i, |b.txs|, Replay(chain), verifier, spendHeight);
      AcceptedInputs(b.txs[i], Replay(chain), verifier, SpentBefore(b.txs, i), spendHeight);
      assert OutpointOf(b.txs[i].inputs[0]) in AllOutpoints(b.txs[i]);
    }
  }

  lemma {:induction false} CreatedByTx(txs: seq<Transaction>, n: nat)
    requires n <= |txs|
    ensures forall o :: o in AllCreated(txs, n) ==>
              exists i :: 0 <= i < n && o in Created(txs[i]) && o.hash == TxId(txs[i])
  {
    if n > 0 {
      CreatedByTx(txs, n - 1);
    }
  }

  /** What a block creates and does not spend is there afterwards. */
  lemma {:induction false} CreatedStays(m: Utxos, txs: seq<Transaction>, n: nat, height: u64)
    requires n <= |txs|
    ensures AllCreated(txs, n) - AllSpent(txs, n) <= ApplyTxs(m, txs, n, height).Keys
  {
    hide Created, SpentBy, ApplyTx;
    if n > 0 {
      CreatedStays(m, txs, n - 1, height);
      ApplyTxFrame(ApplyTxs(m, txs, n - 1, height), txs[n - 1], height, n - 1 == 0);
    }
  }

  /** Every output of the block is new to the chain and to the block. */
  lemma {:induction false} FreshBlock(chain: seq<Block>, b: Block, verifier: Verifier, spendHeight: u64)
    requires NoReuse(chain) && BlockAccepted(b, Replay(chain), verifier, spendHeight)
    requires forall j :: 0 <= j < |chain| && |chain[j].txs| > 0 ==> chain[j].txs[0] != b.txs[0]
    requires IdsDistinguish(ChainTxs(chain) + TxSet(b.txs))
    ensures BlockCreates(b) !! ChainCreates(chain)
    ensures forall i :: 0 <= i < |b.txs| ==> Created(b.txs[i]) !! AllCreated(b.txs, i)
  {
    var n := |b.txs|;
    forall o | o in AllCreated(b.txs, n)
      ensures o !in ChainCreates(chain)
    {
      CreatedByTx(b.txs, n);
      var i :| 0 <= i < n && o.hash == TxId(b.txs[i]);
      AcceptedNew(chain, b, verifier, spendHeight, i);
      assert b.txs[i] in TxSet(b.txs);
    }
    forall i | 0 <= i < n
      ensures Created(b.txs[i]) !! AllCreated(b.txs, i)
    {
      forall o | o in AllCreated(b.txs, i)
        ensures o !in Created(b.txs[i])
      {
        CreatedByTx(b.txs, i);
        var j :| 0 <= j < i && o.hash == TxId(b.txs[j]);
        AcceptedDistinct(b, Replay(chain), verifier, spendHeight, j, i);
        assert b.txs[i] in TxSet(b.txs) && b.txs[j] in TxSet(b.txs);
      }
    }
  }

  /** The coins after a fresh block: what was there or is created, less what is spent. */
  lemma {:induction false} FreshKeys(chain: seq<Block>, b: Block)
    requires NoReuse(chain) && BlockCreates(b) !! ChainCreates(chain) && BlockSpends(b) <= Replay(chain).Keys
    ensures ApplyUtxos(Replay(chain), b).Keys ==
              ChainCreates(chain) + BlockCreates(b) - (ChainSpends(chain) + BlockSpends(b))
  {
    hide Replay, ChainCreates, ChainSpends, ChainTxs, AllCreated, AllSpent, ApplyTxs;
    ApplyTxsFrame(Replay(chain), b.txs, |b.txs|, b.header.height);
    CreatedStays(Replay(chain), b.txs, |b.txs|, b.header.height);
  }

  lemma {:induction false} SpentWithin(txs: seq<Transaction>, i: nat, n: nat)
    requires i < n <= |txs|
    ensures SpentBy(txs[i]) <= AllSpent(txs, n)
  {
    hide SpentBy;
    if i < n - 1 {
      SpentWithin(txs, i, n - 1);
    }
  }

  lemma {:induction false} NoReuseStep(chain: seq<Block>, b: Block, verifier: Verifier, spendHeight: u64)
    requires NoReuse(chain) && BlockAccepted(b, Replay(chain), verifier, spendHeight)
    requires forall j :: 0 <= j < |chain| && |chain[j].txs| > 0 ==> chain[j].txs[0] != b.txs[0]
    requires IdsDistinguish(ChainTxs(chain) + TxSet(b.txs))
    ensures NoReuse(chain + [b])
  {
    hide BlockAccepted, BlockCreates, BlockSpends, ApplyUtxos, IsCoinbase, AllOutpoints, TxId, IdsDistinguish, TxSet;
    var next := chain + [b];
    assert Init(next) == chain && Last(next) == b;
    AcceptedShape(b, Replay(chain), verifier, spendHeight);
    BlockBalance(Replay(chain), b, verifier, spendHeight);
    FreshBlock(chain, b, verifier, spendHeight);
    FreshKeys(chain, b);
    assert Replay(next).Keys == ChainCreates(next) - ChainSpends(next);
    forall t | t in ChainTxs(next) && !IsCoinbase(t)
      ensures AllOutpoints(t) <= ChainSpends(next)
    {
      if t in TxSet(b.txs) {
        SpentByBlock(b, t);
      }
    }
    forall t | t in ChainTxs(next) && IsCoinbase(t)
      ensures exists j :: 0 <= j < |next| && |next[j].txs| > 0 && next[j].txs[0] == t
    {
      if t in ChainTxs(chain) {
        var j :| 0 <= j < |chain| && |chain[j].txs| > 0 && chain[j].txs[0] == t;
        assert next[j].txs[0] == t;
      } else {
        assert next[|chain|].txs[0] == t;
      }
    }
    forall o | o in ChainCreates(next)
      ensures exists t :: t in ChainTxs(next) && TxId(t) == o.hash
    {
      if o in BlockCreates(b) {
        CreatorInBlock(b, o);
      }
    }
  }

  /** Only the first transaction of an accepted block is a coinbase. */
  lemma {:induction false} AcceptedShape(b: Block, m: Utxos, verifier: Verifier, spendHeight: u64)
    requires BlockAccepted(b, m, verifier, spendHeight)
    ensures |b.txs| > 0 && IsCoinbase(b.txs[0])
    ensures forall t :: t in TxSet(b.txs) && IsCoinbase(t) ==> t == b.txs[0]
  {
    hide IsCoinbase;
    SpendersAreNotCoinbases(b.txs, |b.txs|, m, verifier, spendHeight);
  }

  lemma {:induction false} SpentByBlock(b: Block, t: Transaction)
    requires t in TxSet(b.txs) && !IsCoinbase(t)
    ensures AllOutpoints(t) <= BlockSpends(b)
  {
    var i :| 0 <= i < |b.txs| && b.txs[i] == t;
    SpentWithin(b.txs, i, |b.txs|);
  }

  lemma {:induction false} CreatorInBlock(b: Block, o: Outpoint)
    requires o in BlockCreates(b)
    ensures exists t :: t in TxSet(b.txs) && TxId(t) == o.hash
  {
    CreatedByTx(b.txs, |b.txs|);
    var i :| 0 <= i < |b.txs| && o.hash == TxId(b.txs[i]);
    assert b.txs[i] in TxSet(b.txs);
  }

  lemma {:induction false} NoReuseGenesis(b: Block)
    requires GenesisLike(b)
    ensures NoReuse([b])
  {
    hide IsCoinbase;
    var chain := [b];
    assert Init(chain) == [] && Last(chain) == b;
    assert AllSpent(b.txs, 0) == {} && AllCreated(b.txs, 0) == {};
    assert BlockSpends(b) == {};
    assert ChainCreates([]) == {} && ChainSpends([]) == {} && ChainTxs([]) == {} && Replay([]) == map[];
    assert ChainCreates(chain) == BlockCreates(b) && ChainSpends(chain) == {} && ChainTxs(chain) == TxSet(b.txs);
    ApplyTxsFrame(map[], b.txs, |b.txs|, b.header.height);
    CreatedStays(map[], b.txs, |b.txs|, b.header.height);
    assert chain[0].txs[0] in TxSet(b.txs);
    forall o | o in ChainCreates(chain)
      ensures exists t :: t in ChainTxs(chain) && TxId(t) == o.hash
    {
      CreatorInBlock(b, o);
    }
  }

  lemma {:induction false} ChainNoReuse(chain: seq<Block>, verifier: Verifier)
    requires ValidChain(chain, verifier) && DistinctCoinbases(chain) && IdsDistinguish(ChainTxs(chain))
    ensures NoReuse(chain)
    decreases |chain|
  {
    hide NoReuse, BlockAccepted, Replay;
    if |chain| == 1 {
      NoReuseGenesis(chain[0]);
      assert chain == [chain[0]];
    } else {
      ChainNoReuse(Init(chain), verifier);
      assert chain == Init(chain) + [Last(chain)];
      AcceptedShape(Last(chain), Replay(Init(chain)), verifier, Last(chain).header.height);
      NoReuseStep(Init(chain), Last(chain), verifier, Last(chain).header.height);
    }
  }

  lemma {:induction false} PrefixValid(chain: seq<Block>, n: nat, verifier: Verifier)
    requires ValidChain(chain, verifier) && 1 <= n <= |chain|
    ensures ValidChain(chain[..n], verifier)
    ensures ChainTxs(chain[..n]) <= ChainTxs(chain)
    ensures ChainCreates(chain[..n]) <= ChainCreates(chain)
    ensures ChainSpends(chain[..n]) <= ChainSpends(chain)
    decreases |chain|
  {
    hide BlockAccepted, Replay, BlockCreates, BlockSpends, TxSet, GenesisLike;
    if n == |chain| {
      assert chain[..n] == chain;
    } else {
      PrefixValid(Init(chain), n, verifier);
      assert Init(chain)[..n] == chain[..n];
    }
  }

  /** The last block of a prefix is accepted at the replay of the blocks before it. */
  lemma {:induction false} BlockAt(chain: seq<Block>, i: nat, verifier: Verifier)
    requires ValidChain(chain, verifier) && 1 <= i < |chain|
    ensures ValidChain(chain[..i], verifier)
    ensures chain[i].header.height == i
    ensures BlockAccepted(chain[i], Replay(chain[..i]), verifier, i)
  {
    hide BlockAccepted, Replay;
    PrefixValid(chain, i, verifier);
    PrefixValid(chain, i + 1, verifier);
    assert Init(chain[..i + 1]) == chain[..i];
  }

  /**
   * On a valid chain with distinct coinbases no outpoint is created twice and
   * none is spent twice, neither in two blocks nor in one, and the coins are what
   * was created and not spent.
   */
  lemma {:induction false} OutpointsAreUnique(chain: seq<Block>, verifier: Verifier)
    requires ValidChain(chain, verifier) && DistinctCoinbases(chain) && IdsDistinguish(ChainTxs(chain))
    ensures Replay(chain).Keys == ChainCreates(chain) - ChainSpends(chain)
    ensures forall i, j :: 0 <= i < j < |chain| ==> BlockCreates(chain[i]) !! BlockCreates(chain[j])
    ensures forall i, j :: 0 <= i < j < |chain| ==> BlockSpends(chain[i]) !! BlockSpends(chain[j])
    ensures forall j :: 0 <= j < |chain| ==> BlockCreates(chain[j]) !! Replay(chain[..j]).Keys
    ensures forall j, x, y :: 0 <= j < |chain| && 0 <= x < y < |chain[j].txs| ==>
              Created(chain[j].txs[x]) !! Created(chain[j].txs[y]) &&
                  SpentBy(chain[j].txs[x]) !! SpentBy(chain[j].txs[y])
    ensures forall j, x :: 0 <= j < |chain| && 0 <= x < |chain[j].txs| && !IsCoinbase(chain[j].txs[x]) ==>
              NoInputTwice(chain[j].txs[x])
  {
    hide ValidChain, Replay, BlockCreates, BlockSpends, ChainTxs, IdsDistinguish;
    ChainNoReuse(chain, verifier);
    forall i, j | 0 <= i < j < |chain|
      ensures BlockCreates(chain[i]) !! BlockCreates(chain[j])
      ensures BlockSpends(chain[i]) !! BlockSpends(chain[j])
    {
      FreshPosition(chain, j, verifier);
      Contains(chain[..j], i);
    }
    forall j | 0 <= j < |chain|
      ensures BlockCreates(chain[j]) !! Replay(chain[..j]).Keys
    {
      if j == 0 {
        assert Replay(chain[..0]) == map[] by { EmptyReplay(); }
      } else {
        FreshPosition(chain, j, verifier);
      }
    }
    hide Created, SpentBy, IsCoinbase, NoInputTwice;
    forall j, x, y | 0 <= j < |chain| && 0 <= x < y < |chain[j].txs|
      ensures Created(chain[j].txs[x]) !! Created(chain[j].txs[y]) &&
                SpentBy(chain[j].txs[x]) !! SpentBy(chain[j].txs[y])
    {
      UniqueInBlock(chain, j, x, y, verifier);
    }
    forall j, x | 0 <= j < |chain| && 0 <= x < |chain[j].txs| && !IsCoinbase(chain[j].txs[x])
      ensures NoInputTwice(chain[j].txs[x])
    {
      UniqueInTransaction(chain, j, x, verifier);
    }
  }

  /** No two inputs name the same outpoint. */
  ghost predicate NoInputTwice(t: Transaction) {
    forall i, k :: 0 <= i < k < |t.inputs| ==> OutpointOf(t.inputs[i]) != OutpointOf(t.inputs[k])
  }

  lemma {:induction false} UniqueInBlock(chain: seq<Block>, j: nat, x: nat, y: nat, verifier: Verifier)
    requires ValidChain(chain, verifier) && DistinctCoinbases(chain) && IdsDistinguish(ChainTxs(chain))
    requires j < |chain| && x < y < |chain[j].txs|
    ensures Created(chain[j].txs[x]) !! Created(chain[j].txs[y]) && SpentBy(chain[j].txs[x]) !! SpentBy(chain[j].txs[y])
  {
    hide Replay, ChainTxs, IdsDistinguish, DistinctCoinbases, Created, AllCreated;
    assert j > 0 by { GenesisIsAlone(chain, verifier); }
    hide ValidChain;
    FreshPosition(chain, j, verifier);
    CreatedWithin(chain[j].txs, x, y);
    BlockAt(chain, j, verifier);
    SpendersAreApart(chain[j], x, y, Replay(chain[..j]), verifier, j);
  }

  lemma {:induction false} GenesisIsAlone(chain: seq<Block>, verifier: Verifier)
    requires ValidChain(chain, verifier)
    ensures |chain[0].txs| == 1 && IsCoinbase(chain[0].txs[0])
    decreases |chain|
  {
    hide BlockAccepted, IsCoinbase, Pays;
    if |chain| > 1 {
      GenesisIsAlone(Init(chain), verifier);
    }
  }

  lemma {:induction false} SpendersAreApart(b: Block, x: nat, y: nat, m: Utxos, verifier: Verifier, spendHeight: u64)
    requires BlockAccepted(b, m, verifier, spendHeight) && x < y < |b.txs|
    ensures SpentBy(b.txs[x]) !! SpentBy(b.txs[y])
  {
    hide Accepts, IsCoinbase;
    if x >= 1 {
      AcceptedSpender(b.txs, y, |b.txs|, m, verifier, spendHeight);
      AcceptedInputs(b.txs[y], m, verifier, SpentBefore(b.txs, y), spendHeight);
      SpentBeforeContains(b.txs, x, y);
    }
  }

  lemma {:induction false} UniqueInTransaction(chain: seq<Block>, j: nat, x: nat, verifier: Verifier)
    requires ValidChain(chain, verifier) && j < |chain| && x < |chain[j].txs| && !IsCoinbase(chain[j].txs[x])
    ensures NoInputTwice(chain[j].txs[x])
  {
    hide Replay, Accepts, IsCoinbase;
    GenesisIsAlone(chain, verifier);
    hide ValidChain;
    BlockAt(chain, j, verifier);
    var b, m := chain[j], Replay(chain[..j]);
    AcceptedSpender(b.txs, x, |b.txs|, m, verifier, j);
    AcceptedInputs(b.txs[x], m, verifier, SpentBefore(b.txs, x), j);
  }

  lemma {:induction false} EmptyReplay()
    ensures Replay([]) == map[]
  {
  }

  lemma {:induction false} Contains(chain: seq<Block>, i: nat)
    requires i < |chain|
    ensures BlockCreates(chain[i]) <= ChainCreates(chain)
    ensures BlockSpends(chain[i]) <= ChainSpends(chain)
    decreases |chain|
  {
    hide BlockCreates, BlockSpends;
    if i < |chain| - 1 {
      Contains(Init(chain), i);
    }
  }

  lemma {:induction false} FreshPosition(chain: seq<Block>, j: nat, verifier: Verifier)
    requires ValidChain(chain, verifier) && DistinctCoinbases(chain) && IdsDistinguish(ChainTxs(chain))
    requires 1 <= j < |chain|
    ensures BlockCreates(chain[j]) !! ChainCreates(chain[..j])
    ensures BlockSpends(chain[j]) !! ChainSpends(chain[..j])
    ensures Replay(chain[..j]).Keys <= ChainCreates(chain[..j])
    ensures forall i :: 0 <= i < |chain[j].txs| ==> Created(chain[j].txs[i]) !! AllCreated(chain[j].txs, i)
  {
    hide BlockAccepted, Replay, BlockCreates, BlockSpends, ValidChain, AllCreated, Created, TxId, TxSet, ChainCreates,
         ChainSpends;
    var before := chain[..j];
    BlockAt(chain, j, verifier);
    PrefixValid(chain, j, verifier);
    PrefixValid(chain, j + 1, verifier);
    assert Init(chain[..j + 1]) == before && Last(chain[..j + 1]) == chain[j];
    ChainNoReuse(before, verifier);
    AcceptedShape(chain[j], Replay(before), verifier, j);
    FreshBlock(before, chain[j], verifier, j);
    BlockBalance(Replay(before), chain[j], verifier, j);
  }

  /** Conservation to the unit: each block changes the total by its coinbase outputs less the fees it collects. */
  lemma {:induction false} ExactConservation(chain: seq<Block>, j: nat, verifier: Verifier)
    requires ValidChain(chain, verifier) && DistinctCoinbases(chain) && IdsDistinguish(ChainTxs(chain))
    requires 1 <= j < |chain|
    requires forall i :: 0 <= i < |chain[j].txs| ==> |chain[j].txs[i].outputs| <= TWO32
    ensures |chain[j].txs| > 0
    ensures Total(Replay(chain[..j + 1])) ==
              Total(Replay(chain[..j])) + Pays(chain[j].txs[0]) - Fees(chain[j], Replay(chain[..j]))
  {
    hide BlockAccepted, ValidChain, Created, Fees, Pays, Total, ApplyUtxos, ChainTxs, IdsDistinguish,
         DistinctCoinbases;
    var before := chain[..j];
    FreshPosition(chain, j, verifier);
    BlockAt(chain, j, verifier);
    AcceptedShape(chain[j], Replay(before), verifier, j);
    BlockBalance(Replay(before), chain[j], verifier, j);
    assert Init(chain[..j + 1]) == before && Last(chain[..j + 1]) == chain[j];
    forall i | 0 <= i < |chain[j].txs|
      ensures Created(chain[j].txs[i]) !! Replay(before).Keys
    {
      CreatedWithin(chain[j].txs, i, |chain[j].txs|);
    }
  }

  lemma {:induction false} CreatedWithin(txs: seq<Transaction>, i: nat, n: nat)
    requires i < n <= |txs|
    ensures Created(txs[i]) <= AllCreated(txs, n)
  {
    hide Created;
    if i < n - 1 {
      CreatedWithin(txs, i, n - 1);
    }
  }
}
