/**
 * The chain manager (chain/chain.go): the loops that drive the store and the
 * memory pool, proved against the functions of `Node`.
 */
module Managers {
  import opened Base
  import opened Tx
  import opened Blocks
  import opened Validation
  import opened Ledger
  import opened Difficulty
  import opened Storage
  import opened Node
  import opened Mempools
  import opened ForkChoice

  /** The pool after removing the first `n` blocks of a list. */
  function WithoutBlocks(p: Pool, blocks: seq<Block>, n: nat): Pool
    requires n <= |blocks|
  {
    if n == 0 then p
    else
      var b := blocks[n - 1];
      WithoutMined(WithoutBlocks(p, blocks, n - 1), b.txs, |b.txs|)
  }

  /** The identifiers of the transactions of some blocks, but for the coinbases. */
  function MinedIds(blocks: seq<Block>): set<Digest> {
    set i, j | 0 <= i < |blocks| && 0 <= j < |blocks[i].txs| && !IsCoinbase(blocks[i].txs[j]) ::
      TxId(blocks[i].txs[j])
  }

  /** The transactions of all the blocks are gone, every other entry stays as it was. */
  lemma {:induction false} WithoutBlocksKeeps(p: Pool, blocks: seq<Block>, n: nat, maxBytes: int)
    requires PoolOk(p) && n <= |blocks|
    ensures PoolOk(WithoutBlocks(p, blocks, n))
    ensures Bounded(p, maxBytes) ==> Bounded(WithoutBlocks(p, blocks, n), maxBytes)
    ensures WithoutBlocks(p, blocks, n).txs == p.txs - MinedIds(blocks[..n])
  {
    hide PoolOk, IsCoinbase, TxId, Bounded, WithoutMined;
    if n > 0 {
      WithoutBlocksKeeps(p, blocks, n - 1, maxBytes);
      var b := blocks[n - 1];
      WithoutMinedKeeps(WithoutBlocks(p, blocks, n - 1), b.txs, |b.txs|, maxBytes);
      MinedIdsStep(blocks[..n - 1], b);
      assert blocks[..n] == blocks[..n - 1] + [b];
    }
  }

  lemma {:induction false} MinedIdsStep(before: seq<Block>, b: Block)
    ensures MinedIds(before + [b]) ==
              MinedIds(before) + set j | 0 <= j < |b.txs| && !IsCoinbase(b.txs[j]) :: TxId(b.txs[j])
  {
    hide IsCoinbase, TxId;
    var now := before + [b];
    assert forall i :: 0 <= i < |before| ==> now[i] == before[i];
    assert now[|before|] == b;
  }

  /** The list in reverse order of use: from position `i` on, the blocks still to be found and those found. */
  lemma {:induction false} ApplySideStep(st: State, side: seq<Block>, i: nat)
    requires i < |side|
    ensures ApplySide(st, side[i..]) == ApplyWithWork(ApplySide(st, side[i + 1..]), side[i])
  {
    assert side[i..][1..] == side[i + 1..];
  }

  /** `side` ends in `cur` and holds what the walk from `newTip` has found on the way there. */
  ghost predicate Walked(st: State, newTip: Block, side: seq<Block>, cur: Block)
    requires StoreOk(st) && ParentOk(st, newTip) && ParentOk(st, cur)
  {
    && side != [] && side[|side| - 1] == cur
    && WalkBack(st, newTip) == if WalkBack(st,
        cur).None? then None else Some(side[..|side| - 1] + WalkBack(st, cur).value)
  }

  lemma {:induction false} WalkedStart(st: State, newTip: Block)
    requires StoreOk(st) && ParentOk(st, newTip)
    ensures Walked(st, newTip, [newTip], newTip)
  {
    hide WalkBack, StoreOk, ParentOk;
    var walk := WalkBack(st, newTip);
    assert walk.Some? ==> [newTip][..0] + walk.value == walk.value;
  }

  lemma {:induction false} WalkedStep(st: State, newTip: Block, side: seq<Block>, cur: Block)
    requires StoreOk(st) && ParentOk(st, newTip) && ParentOk(st, cur) && Walked(st, newTip, side, cur)
    requires cur.header.height > 0 && cur.header.height - 1 in st.index
    requires st.index[cur.header.height - 1] != cur.header.prevHash
    ensures var p := st.blocks[cur.header.prevHash];
            ParentOk(st, p) && p.header.height < cur.header.height && Walked(st, newTip, side + [p], p)
  {
    hide BlockHash, Storable;
    var p := st.blocks[cur.header.prevHash];
    var rest := WalkBack(st, p);
    assert (side + [p])[..|side|] == side;
    if rest.Some? {
      assert side[..|side| - 1] + ([cur] + rest.value) == side + rest.value;
    }
  }

  lemma {:induction false} WalkedEnd(st: State, newTip: Block, side: seq<Block>, cur: Block)
    requires StoreOk(st) && ParentOk(st, newTip) && ParentOk(st, cur) && Walked(st, newTip, side, cur)
    ensures cur.header.height == 0 ||
              (cur.header.height - 1 in st.index && st.index[cur.header.height - 1] == cur.header.prevHash) ==>
              WalkBack(st, newTip) == Some(side)
    ensures cur.header.height > 0 && cur.header.height - 1 !in st.index ==> WalkBack(st, newTip) == None
  {
    hide BlockHash, Storable, StoreOk, ParentOk;
    assert side == side[..|side| - 1] + [cur];
  }

  lemma {:induction false} ReorgIs(st: State, b: Block, side: seq<Block>, back: State, ok: bool)
    requires StoreOk(st) && ParentOk(st, b) && WalkBack(st, b) == Some(side) && side != []
    requires Rollback(st, ForkHeight(side[|side| - 1])) == (back, ok)
    ensures Reorg(st, b) == if ok then (ApplySide(back, side), true) else (back, false)
  {
    hide WalkBack, Rollback, ApplySide, StoreOk, ParentOk;
  }

  lemma {:induction false} ReorgLost(st: State, b: Block)
    requires StoreOk(st) && ParentOk(st, b) && WalkBack(st, b).None?
    ensures Reorg(st, b) == (st, false)
  {
  }

  /** The memory pool after `ValidateAndApplyBlock`: it loses the transactions of the blocks that became active. */
  ghost function PoolAfter(p: Pool, st: State, b: Block, cfg: Config, now: int): Pool
    requires StoreOk(st)
  {
    if !Admissible(st, b, cfg, now) then p
    else
      AdmissibleParent(st, b, cfg, now);
      if TriggersReorg(st, b) then
        if Reorg(st, b).1 then var side := WalkBack(st, b).value; WithoutBlocks(p, side, |side|) else p
      else if st.tip == Some(b.header.prevHash) then WithoutMined(p, b.txs, |b.txs|)
      else p
  }

  /**
   * After a successful reorganisation the pool holds what it held, less the
   * transactions of the blocks that were applied.
   */
  lemma {:induction false} ReorgForgetsMined(p: Pool, st: State, b: Block, cfg: Config, now: int)
    requires PoolOk(p) && StoreOk(st) && Admissible(st, b, cfg, now) && TriggersReorg(st, b)
    requires ParentOk(st, b) && Reorg(st, b).1
    ensures WalkBack(st, b).Some? && PoolOk(PoolAfter(p, st, b, cfg, now))
    ensures PoolAfter(p, st, b, cfg, now).txs == p.txs - MinedIds(WalkBack(st, b).value)
  {
    hide PoolOk, Admissible, TriggersReorg, WithoutBlocks, StoreOk, ParentOk, MinedIds, Rollback, WalkBack;
    var side := WalkBack(st, b).value;
    WithoutBlocksKeeps(p, side, |side|, 0);
    assert side[..|side|] == side;
  }

  class Manager {
    const store: DB
    const mempool: Mempool?
    const cfg: Config

    constructor (store: DB, mempool: Mempool?, cfg: Config)
      ensures this.store == store && this.mempool == mempool && this.cfg == cfg
    {
      this.store, this.mempool, this.cfg := store, mempool, cfg;
    }

    /** The objects the manager changes. */
    ghost function Parts(): set<object> {
      {store} + if mempool == null then {} else {mempool}
    }

    ghost predicate Valid()
      reads Parts()
    {
      && StoreOk(store.View())
      && (mempool != null ==> PoolOk(mempool.View()))
    }

    /** `InitGenesis`: keeps an initialised store, otherwise applies the genesis block that mining produced. */
    method InitGenesis(mined: Option<Block>) returns (r: Option<Block>)
      requires Valid()
      modifies store
      ensures old(store.tip).Some? ==> store.View() == old(store.View()) && r == TipBlock(store.View())
      ensures old(store.tip).None? && mined.None? ==> store.View() == old(store.View()) && r.None?
      ensures old(store.tip).None? && mined.Some? ==>
                r == mined
                && store.View() == PutTotalWork(ApplyBlock(old(store.View()), mined.value), BlockHash(mined.value),
                    WorkForBits(mined.value.header.bits))
      ensures old(store.View()) == EMPTY && mined.Some? ==> store.View() == Initialized(mined.value)
    {
      if store.tip.Some? {
        return TipBlock(store.View());
      }
      if mined.None? {
        return None;
      }
      store.Apply(mined.value);
      store.SetTotalWork(BlockHash(mined.value), WorkForBits(mined.value.header.bits));
      r := mined;
    }

    /** `RollbackToHeight`: disconnects tips while they are too high; the tip height is its measure. */
    method RollbackToHeight(height: u64) returns (ok: bool)
      requires StoreOk(store.View())
      modifies store
      ensures (store.View(), ok) == Rollback(old(store.View()), height)
      ensures StoreOk(store.View()) && store.blocks == old(store.blocks) && store.work == old(store.work)
    {
      while true
        invariant StoreOk(store.View())
        invariant store.blocks == old(store.blocks) && store.work == old(store.work)
        invariant Rollback(store.View(), height) == Rollback(old(store.View()), height)
        decreases if TipBlock(store.View()).Some? then TipBlock(store.View()).value.header.height + 1 else 0
      {
        var tip := TipBlock(store.View());
        if tip.None? {
          return false;
        }
        if tip.value.header.height <= height {
          return true;
        }
        ghost var before := store.View();
        var b := store.Disconnect();
        if b.None? {
          return false;
        }
        SameBlocks(before, store.View());
      }
    }

    /** The walk of `reorg` back to a parent that the height index names. */
    method CollectSide(newTip: Block) returns (r: Option<seq<Block>>)
      requires StoreOk(store.View()) && ParentOk(store.View(), newTip)
      ensures r == WalkBack(store.View(), newTip)
      ensures r.Some? ==> r.value != []
    {
      hide WalkBack, StoreOk, Walked, ParentOk;
      ghost var st := store.View();
      var sideChain, cur := [newTip], newTip;
      WalkedStart(st, newTip);
      while true
        invariant ParentOk(st, cur) && Walked(st, newTip, sideChain, cur) && sideChain != []
        decreases cur.header.height
      {
        WalkedEnd(st, newTip, sideChain, cur);
        if cur.header.height == 0 {
          return Some(sideChain);
        }
        if cur.header.height - 1 !in store.index {
          return None;
        }
        if store.index[cur.header.height - 1] == cur.header.prevHash {
          return Some(sideChain);
        }
        WalkedStep(st, newTip, sideChain, cur);
        var parentBlock := ParentOf(cur);
        sideChain := sideChain + [parentBlock];
        cur := parentBlock;
      }
    }

    /** The stored parent of a linked block. */
    function ParentOf(b: Block): Block
      reads store
      requires ParentOk(store.View(), b) && b.header.height > 0
    {
      store.blocks[b.header.prevHash]
    }

    /** Applies a block and records the total work of the chain that ends in it. */
    method ApplyAndRecord(b: Block)
      modifies store
      ensures store.View() == ApplyWithWork(old(store.View()), b)
    {
      hide BlockHash, WorkForBits, ApplyUtxos, UndoLog;
      var work := WorkForBits(b.header.bits);
      if b.header.height > 0 && b.header.prevHash in store.work {
        work := work + store.work[b.header.prevHash];
      }
      store.Apply(b);
      store.SetTotalWork(BlockHash(b), work);
    }

    /** The second loop of `reorg`: side blocks from oldest to newest, each with its total work. */
    method ApplySideChain(side: seq<Block>)
      modifies store
      ensures store.View() == ApplySide(old(store.View()), side)
    {
      hide ApplyWithWork;
      ghost var base := store.View();
      var i := |side|;
      assert side[i..] == [];
      while i > 0
        invariant 0 <= i <= |side|
        invariant store.View() == ApplySide(base, side[i..])
      {
        i := i - 1;
        ApplySideStep(base, side, i);
        ApplyAndRecord(side[i]);
      }
      assert side[0..] == side;
    }

    /** The last loop of `reorg`: the applied blocks leave the memory pool. */
    method ForgetMined(blocks: seq<Block>)
      requires mempool != null && PoolOk(mempool.View())
      modifies mempool
      ensures PoolOk(mempool.View())
      ensures mempool.View() == WithoutBlocks(old(mempool.View()), blocks, |blocks|)
    {
      for i := 0 to |blocks|
        invariant PoolOk(mempool.View())
        invariant mempool.View() == WithoutBlocks(old(mempool.View()), blocks, i)
      {
        mempool.RemoveMinedBlock(blocks[i]);
      }
    }

    /** `reorg`. */
    method SwitchTo(newTip: Block) returns (ok: bool)
      requires Valid() && ParentOk(store.View(), newTip)
      modifies Parts()
      ensures (store.View(), ok) == Reorg(old(store.View()), newTip)
      ensures mempool != null ==> PoolOk(mempool.View())
      ensures mempool != null && ok ==>
                WalkBack(old(store.View()), newTip).Some?
                && var side := WalkBack(old(store.View()), newTip).value;
                   mempool.View() == WithoutBlocks(old(mempool.View()), side, |side|)
      ensures mempool != null && !ok ==> mempool.View() == old(mempool.View())
    {
      hide StoreOk, ParentOk, PoolOk, Reorg, WithoutBlocks;
      var sideChain := CollectSide(newTip);
      if sideChain.None? {
        ReorgLost(store.View(), newTip);
        return false;
      }
      var side := sideChain.value;
      var cur := side[|side| - 1];
      var forkHeight := if cur.header.height == 0 then 0 else cur.header.height - 1;
      ghost var st := store.View();
      ok := RollbackToHeight(forkHeight);
      ReorgIs(st, newTip, side, store.View(), ok);
      if !ok {
        return false;
      }
      ApplySideChain(side);
      if mempool != null {
        ForgetMined(side);
      }
    }

    /** `ValidateBlockHeaderWithDifficulty`. */
    method ValidateHeader(b: Block, prev: Option<Header>, now: int) returns (r: Option<ChainError>)
      ensures r == HeaderFault(b, prev, cfg.net, HeaderLookup(store.View()), now)
      ensures r != Some(ReorgFailed)
      ensures r.None? ==> b.header.merkleRoot == MerkleRoot(b.txs) && b.header.timestamp - now <= 7200
      ensures r.None? ==> DigestValue(HeaderHash(b.header)) <= CompactToBig(b.header.bits) <= cfg.net.powLimit
    {
      var root := BuildMerkleRoot(b.txs);
      if b.header.merkleRoot != root {
        return Some(BadMerkleRoot);
      }
      if !ProofOfWork(b.header, cfg.net.powLimit) {
        return Some(BadProofOfWork);
      }
      if b.header.timestamp > now + TWO_HOURS {
        return Some(BadTimestamp);
      }
      if prev.Some? {
        if b.header.height != AddU64(prev.value.height, 1) {
          return Some(BadHeight);
        }
        if b.header.prevHash != HeaderHash(prev.value) {
          return Some(BadPrevHash);
        }
        var expected := ExpectedBits(prev.value, cfg.net.powLimit, HeaderLookup(store.View()));
        if expected.None? {
          return Some(NoRetargetHeader);
        }
        if b.header.bits != expected.value {
          return Some(BadDifficulty);
        }
      }
      return None;
    }

    /** The checks of `ValidateAndApplyBlock`, in order. */
    method Check(b: Block, now: int) returns (r: Option<ChainError>)
      ensures r.None? <==> Admissible(store.View(), b, cfg, now)
      ensures r != Some(ReorgFailed)
      ensures AdmissionFault(store.View(), b, cfg, now).Some? ==> r == AdmissionFault(store.View(), b, cfg, now)
      ensures AdmissionFault(store.View(), b, cfg, now).None? && r.Some? ==>
                r.value.BadTransaction? && BlockRejected(b, store.utxo, cfg.verifier, b.header.height, r.value.reason)
    {
      hide HeaderFault, BlockAccepted, BlockRejected, BlockHash, Storable, HeaderLookup;
      if GetBlock(store.View(), BlockHash(b)).Some? {
        return Some(AlreadyKnown);
      }
      var prevHeader: Option<Header> := None;
      if b.header.height > 0 {
        var prev := GetBlock(store.View(), b.header.prevHash);
        if prev.None? {
          return Some(PreviousNotFound);
        }
        prevHeader := Some(prev.value.header);
      }
      r := ValidateHeader(b, prevHeader, now);
      if r.Some? {
        return r;
      }
      var verdict := ValidateBlockTransactionsAt(b, store.utxo, cfg.verifier, b.header.height);
      if verdict.Err? {
        return Some(BadTransaction(verdict.error));
      }
    }

    /** `ValidateAndApplyBlock`. */
    method ValidateAndApplyBlock(b: Block, now: int) returns (r: Result<(), ChainError>)
      requires Valid()
      modifies Parts()
      ensures Valid()
      ensures (store.View(), r.Ok?) == Submit(old(store.View()), b, cfg, now)
      ensures r.Err? ==> (r.error == ReorgFailed <==> Admissible(old(store.View()), b, cfg, now))
      ensures r == Err(ReorgFailed) ==> TriggersReorg(old(store.View()), b)
      ensures mempool != null ==> mempool.View() == PoolAfter(old(mempool.View()), old(store.View()), b, cfg, now)
    {
      hide BlockHash, Storable, BlockAccepted, AdmissionFault, WorkForBits, StoreOk, ParentOk, Reorg, PoolOk,
           ApplyWithWork;
      ghost var st := store.View();
      SubmitKeepsStore(st, b, cfg, now);
      var fault := Check(b, now);
      if fault.Some? {
        return Err(fault.value);
      }
      AdmissibleParent(st, b, cfg, now);
      var incomingWork := WorkForBits(b.header.bits);
      if b.header.height > 0 && b.header.prevHash in store.work {
        incomingWork := incomingWork + store.work[b.header.prevHash];
      }
      assert incomingWork == IncomingWork(st, b);
      if store.tip.None? {
        ApplyAndRecord(b);
        return Ok(());
      }
      var currentWork := if store.tip.value in store.work then store.work[store.tip.value] else 0;
      if b.header.prevHash == store.tip.value {
        ApplyAndRecord(b);
        if mempool != null {
          mempool.RemoveMinedBlock(b);
        }
        return Ok(());
      }
      if incomingWork <= currentWork {
        store.SetTotalWork(BlockHash(b), incomingWork);
        return Ok(());
      }
      var ok := SwitchTo(b);
      return if ok then Ok(()) else Err(ReorgFailed);
    }
  }
}
