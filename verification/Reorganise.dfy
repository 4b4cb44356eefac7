/**
 * `reorg`: from the active chain to a heavier stored branch.
 */
module Reorganise {
  import opened Base
  import opened Tx
  import opened Blocks
  import opened Ledger
  import opened Storage
  import opened Node
  import opened Chains
  import opened Refinement

  /** A branch is linked, and every block of it below the top is stored. */
  lemma {:induction false} BranchAt(st: State, b: Block, i: nat)
    requires StoreOk(st) && ParentOk(st, b) && i <= b.header.height
    ensures var r := Branch(st, b);
            && r[i].header.height == i && ParentOk(st, r[i]) && Branch(st, r[i]) == r[..i + 1]
            && (i > 0 ==> r[i].header.prevHash == BlockHash(r[i - 1]))
            && (i < b.header.height ==> BlockHash(r[i]) in st.blocks && st.blocks[BlockHash(r[i])] == r[i])
    decreases b.header.height
  {
    hide BlockHash, Storable;
    var r := Branch(st, b);
    if i == b.header.height {
      assert r[..i + 1] == r;
      if i > 0 {
        var p := st.blocks[b.header.prevHash];
        BranchAt(st, p, i - 1);
        assert r[i - 1] == p;
      }
    } else {
      var p := st.blocks[b.header.prevHash];
      BranchAt(st, p, i);
      var q := Branch(st, p);
      assert r == q + [b];
      assert r[i] == q[i] && r[..i + 1] == q[..i + 1];
    }
  }

  /** The active chain is the branch of each of its blocks. */
  lemma {:induction false} ActiveBranch(st: State, chain: seq<Block>, i: nat)
    requires StoreOk(st) && Represents(st, chain) && i < |chain|
    ensures ParentOk(st, chain[i]) && Branch(st, chain[i]) == chain[..i + 1]
  {
    hide BlockHash, Storable, Replay, UndoLog;
    assert HoldsAt(st, chain, i);
    if i > 0 {
      ActiveBranch(st, chain, i - 1);
      assert HoldsAt(st, chain, i - 1);
      assert chain[..i + 1] == chain[..i] + [chain[i]];
    } else {
      assert chain[..1] == [chain[0]];
    }
  }

  /** Two branches that share a block share everything below it. */
  lemma {:induction false} SharedPrefix(st: State, chain: seq<Block>, b: Block, f: nat)
    requires StoreOk(st) && Represents(st, chain) && ParentOk(st, b)
    requires f < |chain| && f <= b.header.height && Branch(st, b)[f] == chain[f]
    ensures Branch(st, b)[..f + 1] == chain[..f + 1]
  {
    BranchAt(st, b, f);
    ActiveBranch(st, chain, f);
  }

  /** Blocks `c` down to `f` + 1 of a branch, newest first. */
  function Down(r: seq<Block>, f: nat, c: nat): (s: seq<Block>)
    requires f <= c < |r|
    ensures |s| == c - f
    ensures c > f ==> s[0] == r[c] && s[|s| - 1] == r[f + 1]
  {
    if c == f then [] else [r[c]] + Down(r, f, c - 1)
  }

  /** No index entry left over above the active tip is missing or names a block of the branch. */
  ghost predicate NoStaleEntry(st: State, chain: seq<Block>, branch: seq<Block>) {
    forall k :: |chain| <= k < |branch| - 1 ==> k in st.index && st.index[k] != BlockHash(branch[k])
  }

  /** The walk from block `c` of the branch `r` stops at the highest block that is on the active chain. */
  lemma {:induction false} WalkFinds(st: State, chain: seq<Block>, b: Block, r: seq<Block>, c: nat) returns (f: nat)
    requires StoreOk(st) && Represents(st, chain) && ParentOk(st, b) && r == Branch(st, b)
    requires 1 <= c <= b.header.height && r[0] == chain[0]
    requires NoStaleEntry(st, chain, r)
    ensures f < c && f < |chain| && r[f] == chain[f]
    ensures forall k :: f < k < c && k < |chain| ==> r[k] != chain[k]
    ensures ParentOk(st, r[c])
    ensures WalkBack(st, r[c]) == Some(Down(r, f, c))
  {
    hide BlockHash, Storable, Represents, NoStaleEntry, Branch, WalkBack, StoreOk;
    BranchAt(st, b, c);
    BranchAt(st, b, c - 1);
    StopsAt(st, chain, b, c);
    WalkStep(st, r[c]);
    if st.index[c - 1] == r[c].header.prevHash {
      f := c - 1;
      assert Down(r, f, c) == [r[c]] + Down(r, f, f) == [r[c]];
    } else {
      f := WalkFinds(st, chain, b, r, c - 1);
      assert WalkBack(st, r[c]) == Some([r[c]] + Down(r, f, c - 1));
    }
  }

  /** One step of the walk. */
  lemma {:induction false} WalkStep(st: State, cur: Block)
    requires StoreOk(st) && ParentOk(st, cur) && cur.header.height > 0 && cur.header.height - 1 in st.index
    ensures cur.header.prevHash in st.blocks && ParentOk(st, st.blocks[cur.header.prevHash])
    ensures WalkBack(st, cur) ==
              if st.index[cur.header.height - 1] == cur.header.prevHash then Some([cur])
              else
                var rest := WalkBack(st, st.blocks[cur.header.prevHash]);
                if rest.None? then None else Some([cur] + rest.value)
  {
    hide BlockHash, Storable;
  }

  /** Within the active range the index matches exactly when the branch and the chain hold the same block. */
  lemma {:induction false} StopsAt(st: State, chain: seq<Block>, b: Block, c: nat)
    requires StoreOk(st) && Represents(st, chain) && ParentOk(st, b)
    requires 1 <= c <= b.header.height && Branch(st, b)[0] == chain[0]
    requires NoStaleEntry(st, chain, Branch(st, b))
    ensures c - 1 in st.index
    ensures st.index[c - 1] == Branch(st, b)[c].header.prevHash ==>
              c - 1 < |chain| && Branch(st, b)[c - 1] == chain[c - 1]
    ensures st.index[c - 1] != Branch(st, b)[c].header.prevHash && c - 1 < |chain| ==>
              Branch(st, b)[c - 1] != chain[c - 1]
    ensures c == 1 ==> st.index[c - 1] == Branch(st, b)[c].header.prevHash
  {
    hide BlockHash, Storable, Replay, UndoLog;
    BranchAt(st, b, c);
    BranchAt(st, b, c - 1);
    if c - 1 < |chain| {
      assert HoldsAt(st, chain, c - 1);
    }
  }

  /** Heights count up, parents are named, and no two blocks share a hash. */
  ghost predicate ChainLike(r: seq<Block>) {
    forall i :: 0 <= i < |r| ==> ChainLikeAt(r, i)
  }

  ghost predicate ChainLikeAt(r: seq<Block>, i: nat)
    requires i < |r|
  {
    && r[i].header.height == i
    && (i > 0 ==> r[i].header.prevHash == BlockHash(r[i - 1]))
    && (forall j :: 0 <= j < i ==> BlockHash(r[j]) != BlockHash(r[i]))
  }

  lemma {:induction false} ApplyOneRefines(st: State, r: seq<Block>, c: nat)
    requires 0 < c < |r| && Represents(st, r[..c]) && ChainLike(r)
    ensures Represents(ApplyWithWork(st, r[c]), r[..c + 1])
  {
    hide BlockHash, HoldsAt, Replay, ApplyBlock, Represents;
    assert ChainLikeAt(r, c);
    assert r[..c + 1] == r[..c] + [r[c]];
    ExtendRefines(st, r[..c], r[c]);
    WorkIsApart(ApplyBlock(st, r[c]), r[..c + 1], BlockHash(r[c]), IncomingWork(st, r[c]));
  }

  /** Applying a newest-first stretch applies its top block last. */
  lemma {:induction false} ApplySideDown(st: State, r: seq<Block>, f: nat, c: nat)
    requires f <= c < |r|
    ensures c == f ==> ApplySide(st, Down(r, f, c)) == st
    ensures c > f ==> ApplySide(st, Down(r, f, c)) == ApplyWithWork(ApplySide(st, Down(r, f, c - 1)), r[c])
  {
    hide ApplyWithWork;
    if c > f {
      assert Down(r, f, c)[1..] == Down(r, f, c - 1);
    }
  }

  /** Applying a stretch of the branch on top of its lower part represents the longer part. */
  lemma {:induction false} ApplySideRefines(st: State, r: seq<Block>, f: nat, c: nat)
    requires f <= c < |r| && Represents(st, r[..f + 1]) && ChainLike(r)
    ensures Represents(ApplySide(st, Down(r, f, c)), r[..c + 1])
  {
    hide Represents, ChainLike, ApplyWithWork, ApplySide, Down;
    ApplySideDown(st, r, f, c);
    if c > f {
      ApplySideRefines(st, r, f, c - 1);
      ApplyOneRefines(ApplySide(st, Down(r, f, c - 1)), r, c);
    }
  }

  lemma {:induction false} WorkIsApart(st: State, chain: seq<Block>, hash: Digest, work: nat)
    requires Represents(st, chain)
    ensures Represents(PutTotalWork(st, hash, work), chain)
  {
    forall i | 0 <= i < |chain|
      ensures HoldsAt(PutTotalWork(st, hash, work), chain, i)
    {
      assert HoldsAt(st, chain, i);
    }
  }

  /** A branch is chain-like if its top block is not stored. */
  lemma {:induction false} BranchChainLike(st: State, b: Block)
    requires StoreOk(st) && ParentOk(st, b) && BlockHash(b) !in st.blocks
    ensures ChainLike(Branch(st, b))
  {
    hide BlockHash, Branch, Storable;
    var r := Branch(st, b);
    forall i | 0 <= i < |r|
      ensures ChainLikeAt(r, i)
    {
      BranchAt(st, b, i);
      forall j | 0 <= j < i
        ensures BlockHash(r[j]) != BlockHash(r[i])
      {
        BranchAt(st, b, j);
      }
    }
  }

  /**
   * A reorganisation ends with the new block as tip and the whole branch as
   * active chain: coins, index, undo logs and stored blocks are those of its
   * replay from genesis.
   */
  lemma {:induction false} ReorgRefines(st: State, chain: seq<Block>, b: Block)
    requires StoreOk(st) && Represents(st, chain) && ParentOk(st, b)
    requires b.header.height >= 1 && BlockHash(b) !in st.blocks
    requires Storable(Last(chain))
    requires forall i :: 0 < i < |chain| ==> UndoableAt(chain, i)
    requires Branch(st, b)[0] == chain[0]
    requires NoStaleEntry(st, chain, Branch(st, b))
    ensures Reorg(st, b).1
    ensures Represents(Reorg(st, b).0, Branch(st, b))
  {
    hide BlockHash, Storable, Represents, StoreOk, ParentOk, ApplySide, UndoableAt, NoStaleEntry, ChainLike, WalkBack,
         Reorg, Rollback;
    var r, top := Branch(st, b), b.header.height;
    var f := WalkFinds(st, chain, b, r, top);
    hide Branch;
    SharedPrefix(st, chain, b, f);
    BranchAt(st, b, f + 1);
    RollbackRefines(st, chain, f);
    ReorgSteps(st, b, Down(r, f, top), f);
    BranchChainLike(st, b);
    assert chain[..Kept(chain, f)] == r[..f + 1];
    ApplySideRefines(Rollback(st, f).0, r, f, top);
    assert r[..top + 1] == r;
  }

  lemma {:induction false} ReorgSteps(st: State, b: Block, side: seq<Block>, f: u64)
    requires StoreOk(st) && ParentOk(st, b) && WalkBack(st, b) == Some(side)
    requires side != [] && side[|side| - 1].header.height == f + 1
    requires Rollback(st, f).1
    ensures Reorg(st, b) == (ApplySide(Rollback(st, f).0, side), true)
  {
    hide StoreOk, ParentOk, ApplySide, WalkBack, Rollback;
  }

  // ---------------------------------------------------------------- stale index entries

  /** Above block `k` the index has entries and none of them names a branch block. */
  ghost predicate ClearAbove(st: State, r: seq<Block>, k: nat) {
    forall j :: k < j < |r| - 1 ==> j in st.index && st.index[j] != BlockHash(r[j])
  }

  /** The walk goes down to the first block whose parent height has no index entry or one that names the parent. */
  lemma {:induction false} WalkStops(st: State, b: Block, r: seq<Block>, k: nat, c: nat)
    requires StoreOk(st) && ParentOk(st, b) && r == Branch(st, b)
    requires k < c <= b.header.height && ClearAbove(st, r, k)
    requires k in st.index ==> st.index[k] == BlockHash(r[k])
    ensures ParentOk(st, r[c])
    ensures WalkBack(st, r[c]) == if k in st.index then Some(Down(r, k, c)) else None
  {
    hide BlockHash, Storable, Branch, StoreOk, ParentOk;
    BranchAt(st, b, c);
    BranchAt(st, b, c - 1);
    if c - 1 == k {
      assert Down(r, k, c) == [r[c]] + Down(r, k, k) == [r[c]];
    } else {
      WalkStops(st, b, r, k, c - 1);
      assert k in st.index ==> WalkBack(st, r[c]) == Some([r[c]] + Down(r, k, c - 1));
    }
  }

  /** The highest offending index entry. */
  lemma {:induction false} HighestStale(st: State, chain: seq<Block>, r: seq<Block>, c: nat) returns (k: nat)
    requires !NoStaleEntry(st, chain, r) && |chain| <= c < |r| - 1 && ClearAbove(st, r, c)
    ensures |chain| <= k < |r| - 1 && ClearAbove(st, r, k)
    ensures k in st.index ==> st.index[k] == BlockHash(r[k])
  {
    hide BlockHash;
    k := c;
    if c in st.index && st.index[c] != BlockHash(r[c]) {
      k := HighestStale(st, chain, r, c - 1);
    }
  }

  /** The walk finds a fork point on the active chain if and only if no stale index entry misleads it. */
  lemma {:induction false} ForkPointIsActive(st: State, chain: seq<Block>, b: Block)
    requires StoreOk(st) && Represents(st, chain) && ParentOk(st, b)
    requires b.header.height >= 1 && Branch(st, b)[0] == chain[0]
    ensures NoStaleEntry(st, chain, Branch(st, b)) <==>
            (WalkBack(st, b).Some? && WalkBack(st, b).value != []
             && ForkHeight(WalkBack(st, b).value[|WalkBack(st, b).value| - 1]) < |chain|)
  {
    hide BlockHash, Storable, Represents, WalkBack, StoreOk, ParentOk;
    var r, top := Branch(st, b), b.header.height;
    hide Branch;
    if NoStaleEntry(st, chain, r) {
      var f := WalkFinds(st, chain, b, r, top);
      BranchAt(st, b, f + 1);
    } else {
      var k := HighestStale(st, chain, r, top - 1);
      WalkStops(st, b, r, k, top);
      BranchAt(st, b, k + 1);
    }
  }

  lemma {:induction false} CoinsAfter(st: State, b: Block)
    ensures ApplyWithWork(st, b).utxo == ApplyUtxos(st.utxo, b)
  {
  }

  /** The blocks of a newest-first stretch, oldest first, change the coins as in a replay. */
  lemma {:induction false} ApplySideUtxos(st: State, base: seq<Block>, r: seq<Block>, f: nat, c: nat)
    requires f <= c < |r| && st.utxo == Replay(base)
    ensures ApplySide(st, Down(r, f, c)).utxo == Replay(base + r[f + 1..c + 1])
  {
    hide ApplyWithWork, ApplyUtxos, Replay, ApplySide, Down;
    ApplySideDown(st, r, f, c);
    if c == f {
      assert base + r[f + 1..c + 1] == base;
    } else {
      ApplySideUtxos(st, base, r, f, c - 1);
      assert base + r[f + 1..c + 1] == base + r[f + 1..c] + [r[c]];
      ReplayExtend(base + r[f + 1..c], r[c]);
      CoinsAfter(ApplySide(st, Down(r, f, c - 1)), r[c]);
    }
  }

  /**
   * If the walk stops at an index entry left over above the tip, nothing is
   * rolled back and the blocks above it are applied to the wrong coins: those
   * of the old chain, without the branch blocks in between.
   */
  lemma {:induction false} StaleReorg(st: State, chain: seq<Block>, b: Block, k: nat)
    requires StoreOk(st) && Represents(st, chain) && ParentOk(st, b) && Storable(Last(chain))
    requires |chain| <= k < b.header.height && ClearAbove(st, Branch(st, b), k)
    requires k in st.index && st.index[k] == BlockHash(Branch(st, b)[k])
    ensures Reorg(st, b).1
    ensures Reorg(st, b).0.utxo == Replay(chain + Branch(st, b)[k + 1..])
  {
    hide BlockHash, Storable, ApplySide, WalkBack, Reorg, Replay, ClearAbove, StoreOk, ParentOk, Represents, Rollback;
    var r, top := Branch(st, b), b.header.height;
    hide Branch;
    WalkStops(st, b, r, k, top);
    BranchAt(st, b, k + 1);
    NothingToRollBack(st, chain, k);
    ReorgSteps(st, b, Down(r, k, top), k);
    RepresentsCoins(st, chain);
    ApplySideUtxos(st, chain, r, k, top);
    assert r[k + 1..top + 1] == r[k + 1..];
  }

  lemma {:induction false} NothingToRollBack(st: State, chain: seq<Block>, k: u64)
    requires StoreOk(st) && Represents(st, chain) && Storable(Last(chain)) && |chain| <= k
    ensures Rollback(st, k) == (st, true)
  {
    hide BlockHash, Storable, Replay, UndoLog;
    assert HoldsAt(st, chain, |chain| - 1);
  }

  lemma {:induction false} RepresentsCoins(st: State, chain: seq<Block>)
    requires Represents(st, chain)
    ensures st.utxo == Replay(chain)
  {
  }

  /** If the index still names `a` above the tip, a child of `a` revives the branch without the coins of `a`. */
  lemma {:induction false} StaleReorgLosesCoin(st: State, chain: seq<Block>, a: Block, b: Block, o: Outpoint)
    requires StoreOk(st) && Represents(st, chain) && Storable(Last(chain))
    requires BlockHash(a) in st.blocks && st.blocks[BlockHash(a)] == a && Storable(a)
    requires a.header.height == |chain| && a.header.prevHash == BlockHash(Last(chain))
    requires a.header.height in st.index && st.index[a.header.height] == BlockHash(a)
    requires b.header.height == |chain| + 1 && b.header.prevHash == BlockHash(a)
    requires o in BlockCreates(a) && o !in BlockSpends(a) && o !in Replay(chain)
    requires o !in BlockCreates(b) && o !in BlockSpends(b)
    ensures ParentOk(st, b) && Branch(st, b) == chain + [a, b]
    ensures o in Replay(chain + [a, b])
    ensures Reorg(st, b).1 && o !in Reorg(st, b).0.utxo
  {
    hide BlockHash, Storable, Reorg, ApplyTxs, AllCreated, AllSpent;
    ActiveBranch(st, chain, |chain| - 1);
    assert HoldsAt(st, chain, |chain| - 1);
    assert chain[..|chain|] == chain;
    assert Branch(st, a) == chain + [a];
    assert Branch(st, b) == chain + [a] + [b] == chain + [a, b];
    hide Replay, Branch;
    StaleReorg(st, chain, b, |chain|);
    assert chain + (chain + [a, b])[|chain| + 1..] == chain + [b];
    ReplayExtend(chain, b);
    ReplayExtend(chain, a);
    ReplayExtend(chain + [a], b);
    assert chain + [a, b] == chain + [a] + [b];
    CreatedStays(Replay(chain), a.txs, |a.txs|, a.header.height);
    ApplyTxsFrame(Replay(chain + [a]), b.txs, |b.txs|, b.header.height);
    ApplyTxsFrame(Replay(chain), b.txs, |b.txs|, b.header.height);
  }
}
