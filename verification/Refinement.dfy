/**
 * The store refines a replay of the active chain: extending, disconnecting,
 * rolling back and reorganising all keep its fast indexes in agreement with it.
 */
module Refinement {
  import opened Base
  import opened Tx
  import opened Blocks
  import opened Validation
  import opened Ledger
  import opened Storage
  import opened Node
  import opened Chains

  /** The block at each height is stored, indexed, and has the undo log of the replay below it. */
  ghost predicate HoldsAt(st: State, chain: seq<Block>, i: nat)
    requires i < |chain|
  {
    var hash := BlockHash(chain[i]);
    && hash in st.blocks && st.blocks[hash] == chain[i]
    && chain[i].header.height == i
    && (i > 0 ==> chain[i].header.prevHash == BlockHash(chain[i - 1]))
    && i in st.index && st.index[i] == hash
    && hash in st.undo && st.undo[hash] == UndoLog(Replay(chain[..i]), chain[i])
  }

  /** The store holds `chain` as its active chain. */
  ghost predicate Represents(st: State, chain: seq<Block>) {
    && chain != []
    && (forall i :: 0 <= i < |chain| ==> HoldsAt(st, chain, i))
    && st.tip == Some(BlockHash(Last(chain)))
    && st.utxo == Replay(chain)
  }

  /** Disconnecting block `i` of the chain loses no coin. */
  ghost predicate UndoableAt(chain: seq<Block>, i: nat)
    requires i < |chain|
  {
    BlockCreates(chain[i]) * Replay(chain[..i]).Keys <= BlockSpends(chain[i])
  }

  lemma {:induction false} HoldsAtSame(st: State, st': State, chain: seq<Block>, chain': seq<Block>, i: nat)
    requires i < |chain| && i < |chain'| && chain[..i + 1] == chain'[..i + 1]
    requires HoldsAt(st, chain, i)
    requires BlockHash(chain[i]) in st'.blocks && st'.blocks[BlockHash(chain[i])] == chain[i]
    requires i in st'.index && st'.index[i] == st.index[i]
    requires BlockHash(chain[i]) in st'.undo && st'.undo[BlockHash(chain[i])] == st.undo[BlockHash(chain[i])]
    ensures HoldsAt(st', chain', i)
  {
    hide Replay, UndoLog, BlockHash;
    assert chain[..i + 1][i] == chain'[..i + 1][i];
    assert chain[..i] == chain[..i + 1][..i] == chain'[..i];
    if i > 0 {
      assert chain[..i + 1][i - 1] == chain'[..i + 1][i - 1];
    }
  }

  /** Applying a child of the tip extends the active chain by it. */
  lemma {:induction false} ExtendRefines(st: State, chain: seq<Block>, b: Block)
    requires Represents(st, chain)
    requires b.header.height == |chain| && b.header.prevHash == BlockHash(Last(chain))
    requires forall i :: 0 <= i < |chain| ==> BlockHash(chain[i]) != BlockHash(b)
    ensures Represents(ApplyBlock(st, b), chain + [b])
  {
    hide Replay, UndoLog, BlockHash, ApplyUtxos;
    var st', next := ApplyBlock(st, b), chain + [b];
    forall i | 0 <= i < |next|
      ensures HoldsAt(st', next, i)
    {
      if i < |chain| {
        assert HoldsAt(st, chain, i);
        assert next[..i + 1] == chain[..i + 1];
        HoldsAtSame(st, st', chain, next, i);
      } else {
        assert next[..i] == chain;
      }
    }
    assert Init(next) == chain && Last(next) == b;
    ReplayExtend(chain, b);
  }

  lemma {:induction false} ReplayExtend(chain: seq<Block>, b: Block)
    ensures Replay(chain + [b]) == ApplyUtxos(Replay(chain), b)
  {
    assert Init(chain + [b]) == chain;
  }

  /** Disconnecting the tip gives the replay without it, tip and coins, if the tip is readable and overwrote no coin. */
  lemma {:induction false} DisconnectRefines(st: State, chain: seq<Block>)
    requires Represents(st, chain) && |chain| >= 2
    requires Storable(Last(chain)) && UndoableAt(chain, |chain| - 1)
    ensures DisconnectTip(st).Some? && DisconnectTip(st).value.0 == Last(chain)
    ensures Represents(DisconnectTip(st).value.1, Init(chain))
    ensures DisconnectTip(st).value.1 == st.(utxo := Replay(Init(chain)), tip := Some(Last(chain).header.prevHash))
  {
    hide Replay, UndoLog, BlockHash, ApplyUtxos, DisconnectUtxos, BlockCreates, BlockSpends, Storable;
    var before, b := Init(chain), Last(chain);
    assert HoldsAt(st, chain, |chain| - 1);
    assert chain == before + [b];
    ReplayExtend(before, b);
    ReplayWellKeyed(before);
    UndoIsExact(Replay(before), b);
    var st' := DisconnectTip(st).value.1;
    forall i | 0 <= i < |before|
      ensures HoldsAt(st', before, i)
    {
      assert HoldsAt(st, chain, i);
      assert before[..i + 1] == chain[..i + 1];
      HoldsAtSame(st, st', chain, before, i);
    }
  }

  /**
   * A coinbase that repeats one with an unspent output writes over that coin:
   * after disconnecting the block again, the coin is there if and only if the
   * block itself had spent it.
   */
  lemma {:induction false} RepeatedCoinbaseIsLost(st: State, chain: seq<Block>, b: Block, verifier: Verifier, i: nat,
                                                  o: Outpoint)
    requires Represents(st, chain) && ValidChain(chain, verifier) && Storable(b)
    requires BlockAccepted(b, Replay(chain), verifier, b.header.height) && i < |chain| && |chain[i].txs| > 0
    requires b.txs[0] == chain[i].txs[0] && o in Created(chain[i].txs[0]) && o in st.utxo
    ensures var back := DisconnectTip(ApplyBlock(st, b));
            back.Some? && (o in back.value.1.utxo <==> o in BlockSpends(b))
  {
    hide Replay, ValidChain, BlockAccepted, BlockHash, Storable, Created, UndoLog, ApplyUtxos, DisconnectUtxos,
         BlockSpends, AllCreated;
    ReplayWellKeyed(chain);
    UndoResult(Replay(chain), b);
    AcceptedShape(b, Replay(chain), verifier, b.header.height);
    CreatedWithin(b.txs, 0, |b.txs|);
  }

  /** Every block below the tip is readable, because its child names it as parent. */
  lemma {:induction false} InnerReadable(st: State, chain: seq<Block>, i: nat)
    requires StoreOk(st) && Represents(st, chain) && i < |chain| - 1
    ensures Storable(chain[i])
  {
    hide Replay, UndoLog, BlockHash, Storable;
    assert HoldsAt(st, chain, i);
    assert HoldsAt(st, chain, i + 1);
    assert ParentOk(st, chain[i + 1]);
  }

  lemma {:induction false} PrefixUndoable(chain: seq<Block>, n: nat, i: nat)
    requires i < n <= |chain| && UndoableAt(chain, i)
    ensures UndoableAt(chain[..n], i)
  {
    assert chain[..n][..i] == chain[..i];
  }

  /** The number of blocks left by a rollback to `height`. */
  function Kept(chain: seq<Block>, height: u64): nat {
    if height + 1 < |chain| then height + 1 else |chain|
  }

  lemma {:induction false} TipReadable(st: State, chain: seq<Block>)
    requires Represents(st, chain) && Storable(Last(chain))
    ensures TipBlock(st) == Some(Last(chain)) && Last(chain).header.height == |chain| - 1
    ensures st.tip == Some(BlockHash(Last(chain)))
  {
    hide Replay, BlockHash, Storable;
    assert HoldsAt(st, chain, |chain| - 1);
  }

  /** `RollbackToHeight` succeeds and leaves the replay of the chain up to that height. */
  lemma {:induction false} RollbackRefines(st: State, chain: seq<Block>, height: u64)
    requires StoreOk(st) && Represents(st, chain) && Storable(Last(chain))
    requires forall i :: height < i < |chain| ==> UndoableAt(chain, i)
    ensures Rollback(st, height).1
    ensures Represents(Rollback(st, height).0, chain[..Kept(chain, height)])
    ensures Rollback(st, height).0 ==
              st.(utxo := Rollback(st, height).0.utxo, tip := Some(BlockHash(chain[Kept(chain, height) - 1])))
    decreases |chain|
  {
    hide Represents, BlockHash, Storable, UndoableAt, DisconnectTip, TipBlock;
    TipReadable(st, chain);
    if |chain| - 1 <= height {
      assert chain[..|chain|] == chain;
    } else {
      DisconnectRefines(st, chain);
      InnerReadable(st, chain, |chain| - 2);
      var st', before := DisconnectTip(st).value.1, Init(chain);
      forall i | height < i < |before|
        ensures UndoableAt(before, i)
      {
        PrefixUndoable(chain, |chain| - 1, i);
      }
      RollbackRefines(st', before, height);
      assert Rollback(st, height) == Rollback(st', height);
      assert before[..Kept(before, height)] == chain[..Kept(chain, height)];
    }
  }
}
