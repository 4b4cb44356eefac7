/**
 * What a block does that arrives on top of a block just rolled back
 * (chain/chain.go): the height index still names the rolled-back block, so
 * `reorg` takes it for active and does not apply it again.
 */
module StaleIndex {
  import opened Base
  import opened Tx
  import opened Blocks
  import opened Validation
  import opened Ledger
  import opened Difficulty
  import opened Storage
  import opened Node
  import opened Chains
  import opened Refinement
  import opened Reorganise
  import opened ForkChoice

  /**
   * The store after rolling `a` back: the chain without it is active, and everything
   * but coins and tip is as before.
   */
  lemma {:induction false} RolledBack(st: State, chain: seq<Block>, a: Block)
    requires StoreOk(st) && Represents(st, chain + [a]) && chain != [] && Storable(a)
    requires UndoableAt(chain + [a], |chain|)
    ensures var (back, ok) := Rollback(st, Last(chain).header.height);
            && ok && Represents(back, chain) && Storable(Last(chain))
            && back == st.(utxo := Replay(chain), tip := Some(BlockHash(Last(chain))))
  {
    hide BlockHash, Storable, Replay, UndoableAt, Rollback, StoreOk, HoldsAt;
    var whole := chain + [a];
    HeightsCount(st, whole, |chain| - 1);
    RollbackRefines(st, whole, Last(chain).header.height);
    HeightsCount(st, whole, |chain|);
    assert whole[..|chain|] == chain;
    InnerReadable(st, whole, |chain| - 1);
  }

  lemma {:induction false} HeightsCount(st: State, chain: seq<Block>, i: nat)
    requires Represents(st, chain) && i < |chain|
    ensures chain[i].header.height == i
  {
    assert HoldsAt(st, chain, i);
  }

  /** After a rollback that takes any block off, the tip does not have the most recorded work. */
  lemma {:induction false} RollbackIsNotHeaviest(st: State, chain: seq<Block>, height: u64)
    requires StoreOk(st) && Represents(st, chain) && WorkOk(st) && Storable(Last(chain)) && height < |chain| - 1
    requires forall i :: height < i < |chain| ==> UndoableAt(chain, i)
    ensures Rollback(st, height).1 && !TipHeaviest(Rollback(st, height).0)
  {
    hide BlockHash, Storable, Replay, UndoableAt, Rollback, StoreOk, WorkForBits, UndoLog;
    RollbackRefines(st, chain, height);
    RollbackKeeps(st, height);
    var k := Kept(chain, height);
    assert HoldsAt(st, chain, k - 1) && HoldsAt(st, chain, k);
    assert WorkAt(st, BlockHash(chain[k]));
    assert BlockHash(chain[k]) in st.work;
  }

  /** A child of the rolled-back block outweighs the tip, which is the block's parent. */
  lemma {:induction false} ChildTriggers(st: State, chain: seq<Block>, a: Block, b: Block, cfg: Config, now: int)
    requires StoreOk(st) && Represents(st, chain + [a]) && WorkOk(st) && chain != [] && cfg.net.powLimit < TWO256
    requires b.header.prevHash == BlockHash(a) && b.header.height > 0
    requires var back := st.(utxo := Replay(chain), tip := Some(BlockHash(Last(chain))));
             AdmissionFault(back, b, cfg, now).None?
    ensures TriggersReorg(st.(utxo := Replay(chain), tip := Some(BlockHash(Last(chain)))), b)
  {
    hide BlockHash, Storable, Replay, UndoLog, WorkForBits, AdmissionFault;
    var back := st.(utxo := Replay(chain), tip := Some(BlockHash(Last(chain))));
    var n := |chain|;
    assert HoldsAt(st, chain + [a], n) && HoldsAt(st, chain + [a], n - 1);
    assert WorkAt(st, BlockHash(a)) && WorkAt(st, BlockHash(Last(chain)));
    AdmissibleWork(back, b, cfg, now);
  }

  /**
   * From a consistent store: roll one block back, then submit any admissible child
   * of it. The submission reorganises and succeeds, and every coin that the
   * rolled-back block created and that neither block spends is missing, although
   * the replay of the now active branch has it.
   */
  lemma {:induction false} StaleSubmitLosesCoin(st: State, chain: seq<Block>, a: Block, b: Block, o: Outpoint,
                                                cfg: Config, now: int)
    requires StoreOk(st) && Represents(st, chain + [a]) && WorkOk(st) && chain != [] && cfg.net.powLimit < TWO256
    requires Storable(a) && UndoableAt(chain + [a], |chain|)
    requires Admissible(Rollback(st, Last(chain).header.height).0, b, cfg, now) && b.header.height > 0 &&
             b.header.prevHash == BlockHash(a)
    requires o in BlockCreates(a) && o !in BlockSpends(a) && o !in BlockCreates(b) && o !in BlockSpends(b)
    ensures Rollback(st, Last(chain).header.height).1 && StoreOk(Rollback(st, Last(chain).header.height).0)
    ensures var back := Rollback(st, Last(chain).header.height).0;
            && Represents(back, chain) && TriggersReorg(back, b)
            && Submit(back, b, cfg, now).1 && Submit(back, b, cfg, now).0.tip == Some(BlockHash(b))
            && o in Replay(chain + [a, b]) && o !in Submit(back, b, cfg, now).0.utxo
  {
    hide BlockHash, Storable, Replay, Rollback, StoreOk, WorkOk, Reorg, AdmissionFault, BlockAccepted, UndoLog,
         BlockCreates, BlockSpends, ParentOk, IncomingWork;
    var back := Rollback(st, Last(chain).header.height).0;
    RolledBack(st, chain, a);
    SameBlocks(st, back);
    ChildTriggers(st, chain, a, b, cfg, now);
    assert HoldsAt(st, chain + [a], |chain|);
    assert (chain + [a])[..|chain|] == chain;
    AdmissibleParent(back, b, cfg, now);
    ChildHeight(back, b, a);
    StaleReorgLosesCoin(back, chain, a, b, o);
    ReorgTip(back, b);
  }

  lemma {:induction false} ChildHeight(st: State, b: Block, a: Block)
    requires ParentOk(st, b) && b.header.height > 0 && b.header.prevHash in st.blocks &&
             st.blocks[b.header.prevHash] == a
    ensures b.header.height == a.header.height + 1
  {
  }
}
