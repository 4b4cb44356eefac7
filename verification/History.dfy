/**
 * Runs that also roll back and reorganise: in every reachable state the store is
 * the replay of its active chain, and the supply bound holds.
 */
module History {
  import opened Base
  import opened Params
  import opened Tx
  import opened Blocks
  import opened Validation
  import opened Ledger
  import opened Conservation
  import opened Supply
  import opened Difficulty
  import opened Storage
  import opened Node
  import opened Chains
  import opened Refinement
  import opened Reorganise
  import opened ForkChoice
  import opened Headers
  import opened FirstSeen
  import opened OwnCoins

  // ---------------------------------------------------------------- the blocks of a run

  ghost function UniverseTxs(universe: set<Block>): set<Transaction> {
    set b, i | b in universe && 0 <= i < |b.txs| :: b.txs[i]
  }

  /**
   * What is assumed of all blocks of a run: they can be read back from the store, and
   * identifiers tell transactions apart.
   */
  ghost predicate UniverseOk(universe: set<Block>) {
    && (forall b :: b in universe ==> Storable(b))
    && IdsDistinguish(UniverseTxs(universe))
  }

  /** The coinbase of `b` is none of the chain's. */
  ghost predicate FreshCoinbase(chain: seq<Block>, b: Block) {
    forall j :: 0 <= j < |chain| && |chain[j].txs| > 0 && |b.txs| > 0 ==> chain[j].txs[0] != b.txs[0]
  }

  /**
   * Every stored block is one of the run's, and its branch is a valid chain from the
   * genesis block that repeats no coinbase.
   */
  ghost predicate StoredValid(st: State, g: Block, verifier: Verifier, universe: set<Block>)
    requires StoreOk(st)
  {
    forall h :: h in st.blocks ==>
      && st.blocks[h] in universe
      && Branch(st, st.blocks[h])[0] == g
      && ValidChain(Branch(st, st.blocks[h]), verifier)
      && DistinctCoinbases(Branch(st, st.blocks[h]))
  }

  ghost predicate HistoryInv(st: State, chain: seq<Block>, g: Block, cfg: Config, universe: set<Block>) {
    && StoreOk(st) && Represents(st, chain) && WorkOk(st)
    && StoredValid(st, g, cfg.verifier, universe)
  }

  // ---------------------------------------------------------------- the active chain can be undone

  lemma {:induction false} TxsWithin(chain: seq<Block>, universe: set<Block>)
    requires forall i :: 0 <= i < |chain| ==> chain[i] in universe
    ensures ChainTxs(chain) <= UniverseTxs(universe)
    decreases |chain|
  {
    if chain != [] {
      TxsWithin(Init(chain), universe);
      assert Last(chain) in universe;
    }
  }

  /** The active chain is valid, its blocks are the run's, and each of them can be disconnected without loss. */
  lemma {:induction false} ActiveChain(st: State, chain: seq<Block>, g: Block, cfg: Config, universe: set<Block>)
    requires HistoryInv(st, chain, g, cfg, universe) && UniverseOk(universe)
    ensures ValidChain(chain, cfg.verifier) && chain != [] && chain[0] == g && Storable(Last(chain))
    ensures forall i :: 0 <= i < |chain| ==> chain[i] in universe && Storable(chain[i]) && UndoableAt(chain, i)
  {
    hide BlockHash, Storable, ValidChain, Replay, UndoLog, BlockCreates, BlockSpends, IdsDistinguish, ChainTxs,
         UniverseTxs, Branch, DistinctCoinbases;
    forall i | 0 <= i < |chain|
      ensures chain[i] in universe && Storable(chain[i]) && chain[i].header.height == i
    {
      assert HoldsAt(st, chain, i);
      assert st.blocks[BlockHash(chain[i])] == chain[i];
    }
    ActiveBranch(st, chain, |chain| - 1);
    assert chain[..|chain|] == chain;
    assert HoldsAt(st, chain, |chain| - 1);
    TxsWithin(chain, universe);
    assert IdsDistinguish(ChainTxs(chain)) by { FewerIds(ChainTxs(chain), UniverseTxs(universe)); }
    OutpointsAreUnique(chain, cfg.verifier);
  }

  lemma {:induction false} FewerIds(a: set<Transaction>, b: set<Transaction>)
    requires a <= b && IdsDistinguish(b)
    ensures IdsDistinguish(a)
  {
    hide TxId;
  }

  // ---------------------------------------------------------------- adding a block

  /** Adding a block under a new hash changes no branch. */
  lemma {:induction false} BranchStable(st: State, b: Block, st': State, c: Block)
    requires StoreOk(st) && StoreOk(st') && st'.blocks == st.blocks[BlockHash(b) := b] && BlockHash(b) !in st.blocks
    requires ParentOk(st, c)
    ensures ParentOk(st', c) && Branch(st', c) == Branch(st, c)
    decreases c.header.height
  {
    hide BlockHash, Storable;
    if c.header.height > 0 {
      BranchStable(st, b, st', st.blocks[c.header.prevHash]);
    }
  }

  /** The parent's branch, on top of which the block must be valid. */
  ghost function ParentBranch(st: State, b: Block): seq<Block>
    requires StoreOk(st) && ParentOk(st, b) && b.header.height > 0
  {
    Branch(st, st.blocks[b.header.prevHash])
  }

  lemma {:induction false} AddKeepsValid(st: State, b: Block, st': State, g: Block, verifier: Verifier,
                                         universe: set<Block>)
    requires StoreOk(st) && StoredValid(st, g, verifier, universe) && ParentOk(st, b) && b.header.height > 0
    requires b in universe && BlockHash(b) !in st.blocks
    requires BlockAccepted(b, Replay(ParentBranch(st, b)), verifier, b.header.height) &&
             FreshCoinbase(ParentBranch(st, b), b)
    requires StoreOk(st') && st'.blocks == st.blocks[BlockHash(b) := b]
    ensures StoredValid(st', g, verifier, universe)
  {
    hide BlockHash, Storable, BlockAccepted, Replay, ValidChain, DistinctCoinbases, FreshCoinbase;
    forall h | h in st'.blocks
      ensures var r := Branch(st', st'.blocks[h]);
              st'.blocks[h] in universe && r[0] == g && ValidChain(r, verifier) && DistinctCoinbases(r)
    {
      BranchStable(st, b, st', st'.blocks[h]);
      if h == BlockHash(b) {
        assert Branch(st, b) == ParentBranch(st, b) + [b];
        ExtendValid(ParentBranch(st, b), b, verifier);
        ExtendDistinct(ParentBranch(st, b), b);
      }
    }
  }

  lemma {:induction false} ExtendDistinct(chain: seq<Block>, b: Block)
    requires DistinctCoinbases(chain) && FreshCoinbase(chain, b)
    ensures DistinctCoinbases(chain + [b])
  {
  }

  lemma {:induction false} SameValid(st: State, st': State, g: Block, verifier: Verifier, universe: set<Block>)
    requires StoreOk(st) && StoredValid(st, g, verifier, universe) && StoreOk(st') && st'.blocks == st.blocks
    ensures StoredValid(st', g, verifier, universe)
  {
    hide BlockHash, Storable, ValidChain, DistinctCoinbases;
    forall h | h in st'.blocks
      ensures var r := Branch(st', st'.blocks[h]);
              st'.blocks[h] in universe && r[0] == g && ValidChain(r, verifier) && DistinctCoinbases(r)
    {
      SameBranch(st, st', st.blocks[h]);
    }
  }

  lemma {:induction false} SameBranch(st: State, st': State, c: Block)
    requires StoreOk(st) && StoreOk(st') && st'.blocks == st.blocks && ParentOk(st, c)
    ensures ParentOk(st', c) && Branch(st', c) == Branch(st, c)
    decreases c.header.height
  {
    hide BlockHash, Storable;
    if c.header.height > 0 {
      SameBranch(st, st', st.blocks[c.header.prevHash]);
    }
  }

  // ---------------------------------------------------------------- events

  datatype Event = BlockArrives(block: Block, now: int) | RollBackTo(height: u64)

  ghost function Next(st: State, e: Event, cfg: Config): (st': State)
    requires StoreOk(st)
    ensures StoreOk(st')
  {
    match e
    case BlockArrives(b, now) => SubmitKeepsStore(st, b, cfg, now); Submit(st, b, cfg, now).0
    case RollBackTo(height) => RollbackKeepsStore(st, height); Rollback(st, height).0
  }

  lemma {:induction false} RollbackKeepsStore(st: State, height: u64)
    requires StoreOk(st)
    ensures StoreOk(Rollback(st, height).0)
  {
    RollbackKeeps(st, height);
    SameBlocks(st, Rollback(st, height).0);
  }

  /**
   * What is assumed of one event. A block that becomes active repeats no coinbase
   * of its own ancestors and is not of height 0. `reorg` does not check its blocks
   * again, so a block that triggers one must spend only coins that its own branch
   * has and that are mature there; and no index entry left over from a rollback may
   * stand in the way of the walk.
   */
  ghost predicate EventOk(st: State, chain: seq<Block>, e: Event, cfg: Config, universe: set<Block>)
    requires StoreOk(st)
  {
    match e
    case RollBackTo(height) => true
    case BlockArrives(b, now) =>
      && b in universe
      && (Admissible(st, b, cfg, now) && BecomesActive(st, b) ==>
            b.header.height >= 1 && ParentOk(st, b) && FreshCoinbase(ParentBranch(st, b), b))
      && (Admissible(st, b, cfg, now) && TriggersReorg(st, b) ==>
            && NoStaleEntry(st, chain, Branch(st, b))
            && SpendsOnly(b, Replay(ParentBranch(st, b)), b.header.height))
  }

  /** The active chain after an event. */
  ghost function NextActive(st: State, chain: seq<Block>, e: Event, cfg: Config): seq<Block>
    requires StoreOk(st)
  {
    match e
    case RollBackTo(height) => chain[..Kept(chain, height)]
    case BlockArrives(b, now) =>
      if !Admissible(st, b, cfg, now) then chain
      else if ParentOk(st, b) && TriggersReorg(st, b) then Branch(st, b)
      else if st.tip == Some(b.header.prevHash) then chain + [b]
      else chain
  }

  lemma {:induction false} RollBackStep(st: State, chain: seq<Block>, height: u64, g: Block, cfg: Config,
                                        universe: set<Block>)
    requires HistoryInv(st, chain, g, cfg, universe) && UniverseOk(universe)
    ensures StoreOk(Rollback(st, height).0)
    ensures HistoryInv(Rollback(st, height).0, chain[..Kept(chain, height)], g, cfg, universe)
  {
    hide UniverseOk, BlockHash, Storable, Rollback, Represents, StoreOk, UndoableAt, WorkOk, StoredValid;
    ActiveChain(st, chain, g, cfg, universe);
    RollbackRefines(st, chain, height);
    RollbackKeeps(st, height);
    RollbackKeepsStore(st, height);
    SameWork(st, Rollback(st, height).0);
    SameValid(st, Rollback(st, height).0, g, cfg.verifier, universe);
  }

  /** A hash that names no readable block names no block of a run. */
  lemma {:induction false} NewToStore(st: State, b: Block, g: Block, cfg: Config, universe: set<Block>)
    requires StoreOk(st) && StoredValid(st, g, cfg.verifier, universe) && UniverseOk(universe)
    requires GetBlock(st, BlockHash(b)).None?
    ensures BlockHash(b) !in st.blocks
  {
    hide BlockHash, Storable, ValidChain, Branch;
  }

  lemma {:induction false} ReorgStep(st: State, chain: seq<Block>, b: Block, g: Block, cfg: Config, now: int,
                                     universe: set<Block>)
    requires HistoryInv(st, chain, g, cfg, universe) && UniverseOk(universe) && cfg.net.powLimit < TWO256
    requires Admissible(st, b, cfg, now) && TriggersReorg(st, b) && b in universe && b.header.height >= 1
    requires ParentOk(st, b) && NoStaleEntry(st, chain, Branch(st, b))
    requires SpendsOnly(b, Replay(ParentBranch(st, b)), b.header.height) && FreshCoinbase(ParentBranch(st, b), b)
    ensures Reorg(st, b).1 && StoreOk(Reorg(st, b).0)
    ensures HistoryInv(Reorg(st, b).0, Branch(st, b), g, cfg, universe)
  {
    hide BlockHash, Storable, BlockAccepted, Reorg, Represents, UndoableAt, FreshCoinbase, WorkOk, Replay, ValidChain,
         WorkForBits, UniverseOk, StoreOk, StoredValid, ParentOk, NoStaleEntry, Branch, HeaderFault, IncomingWork,
         TriggersReorg, SpendsOnly;
    ActiveChain(st, chain, g, cfg, universe);
    NewToStore(st, b, g, cfg, universe);
    BranchRoot(st, b, g, cfg.verifier, universe);
    AcceptedOnBranch(st, chain, b, g, cfg, universe);
    ReorgRefines(st, chain, b);
    ReorgAdds(st, b);
    AddKeepsStore(st, b, Reorg(st, b).0);
    AdmissibleWork(st, b, cfg, now);
    AddKeepsWork(st, b, Reorg(st, b).0);
    AddKeepsValid(st, b, Reorg(st, b).0, g, cfg.verifier, universe);
  }

  /** The coins of the active chain and those of any stored branch agree on amounts and scripts. */
  lemma {:induction false} BranchesAgree(st: State, chain: seq<Block>, b: Block, g: Block, cfg: Config,
                                         universe: set<Block>)
    requires HistoryInv(st, chain, g, cfg, universe) && UniverseOk(universe) && ParentOk(st, b) && b.header.height >= 1
    ensures st.utxo == Replay(chain) && Agree(Replay(chain), Replay(ParentBranch(st, b)))
  {
    hide UniverseOk, StoredValid, StoreOk, ParentOk, WorkOk, Storable, BlockHash, HoldsAt, Replay, UniverseTxs,
         ChainTxs, ComesFrom, Agree, Branch, IdsDistinguish;
    ActiveChain(st, chain, g, cfg, universe);
    ParentWithin(st, b, g, cfg.verifier, universe);
    var own := ParentBranch(st, b);
    TxsWithin(chain, universe);
    TxsWithin(own, universe);
    ReplayFrom(chain);
    ReplayFrom(own);
    FromMore(Replay(chain), ChainTxs(chain), UniverseTxs(universe));
    FromMore(Replay(own), ChainTxs(own), UniverseTxs(universe));
    UniverseLimits(universe);
    SameOutputs(Replay(chain), Replay(own), UniverseTxs(universe));
  }

  lemma {:induction false} ParentWithin(st: State, b: Block, g: Block, verifier: Verifier, universe: set<Block>)
    requires StoreOk(st) && StoredValid(st, g, verifier, universe) && ParentOk(st, b) && b.header.height >= 1
    ensures forall i :: 0 <= i < |ParentBranch(st, b)| ==> ParentBranch(st, b)[i] in universe
  {
    hide Storable, BlockHash, ValidChain, DistinctCoinbases, Branch;
    var parent := st.blocks[b.header.prevHash];
    var own := Branch(st, parent);
    forall i | 0 <= i < |own|
      ensures own[i] in universe
    {
      BranchAt(st, parent, i);
    }
  }

  lemma {:induction false} UniverseLimits(universe: set<Block>)
    requires UniverseOk(universe)
    ensures IdsDistinguish(UniverseTxs(universe))
    ensures forall t :: t in UniverseTxs(universe) ==> |t.outputs| <= TWO32
  {
    hide IdsDistinguish;
  }

  /**
   * A block accepted at the coins of the active chain would be accepted at those of
   * its own branch if and only if every coin it spends is there and mature.
   */
  lemma {:induction false} AcceptedOnBranch(st: State, chain: seq<Block>, b: Block, g: Block, cfg: Config,
                                            universe: set<Block>)
    requires HistoryInv(st, chain, g, cfg, universe) && UniverseOk(universe) && ParentOk(st, b) && b.header.height >= 1
    requires BlockAccepted(b, st.utxo, cfg.verifier, b.header.height)
    ensures BlockAccepted(b, Replay(ParentBranch(st, b)), cfg.verifier, b.header.height) <==>
              SpendsOnly(b, Replay(ParentBranch(st, b)), b.header.height)
  {
    hide HistoryInv, UniverseOk, ParentOk, StoreOk, Branch, Replay, BlockAccepted, SpendsOnly, Agree;
    TipExists(st, chain, g, cfg, universe);
    BranchesAgree(st, chain, b, g, cfg, universe);
    BlockElsewhere(b, st.utxo, Replay(ParentBranch(st, b)), cfg.verifier, b.header.height);
  }

  /**
   * `reorg` does not check the new block at the coins of its own branch. The branch
   * becomes the active chain in any case, and it is a valid chain if and only if
   * every coin that the block spends is on its own branch and mature there.
   */
  lemma {:induction false} ReorgIsUnchecked(st: State, chain: seq<Block>, b: Block, g: Block, cfg: Config, now: int,
                                            universe: set<Block>)
    requires HistoryInv(st, chain, g, cfg, universe) && UniverseOk(universe)
    requires Admissible(st, b, cfg, now) && TriggersReorg(st, b) && b.header.height >= 1
    requires ParentOk(st, b) && NoStaleEntry(st, chain, Branch(st, b))
    ensures Submit(st, b, cfg, now).1 && Represents(Submit(st, b, cfg, now).0, Branch(st, b))
    ensures ValidChain(Branch(st, b), cfg.verifier) <==> SpendsOnly(b, Replay(ParentBranch(st, b)), b.header.height)
  {
    hide BlockHash, Storable, BlockAccepted, Reorg, Represents, UndoableAt, WorkOk, Replay, UniverseOk, SpendsOnly,
         StoreOk, StoredValid, ParentOk, NoStaleEntry, Branch, HeaderFault, TriggersReorg;
    ActiveChain(st, chain, g, cfg, universe);
    NewToStore(st, b, g, cfg, universe);
    BranchRoot(st, b, g, cfg.verifier, universe);
    ReorgRefines(st, chain, b);
    ParentIsValid(st, b, g, cfg.verifier, universe);
    AcceptedOnBranch(st, chain, b, g, cfg, universe);
    ValidOnTop(ParentBranch(st, b), b, cfg.verifier);
  }

  lemma {:induction false} ParentIsValid(st: State, b: Block, g: Block, verifier: Verifier, universe: set<Block>)
    requires StoreOk(st) && StoredValid(st, g, verifier, universe) && ParentOk(st, b) && b.header.height >= 1
    ensures ValidChain(ParentBranch(st, b), verifier) && |ParentBranch(st, b)| == b.header.height
    ensures Branch(st, b) == ParentBranch(st, b) + [b]
  {
    hide BlockHash, Storable, ValidChain, DistinctCoinbases;
  }

  lemma {:induction false} ValidOnTop(chain: seq<Block>, b: Block, verifier: Verifier)
    requires ValidChain(chain, verifier) && b.header.height == |chain|
    ensures ValidChain(chain + [b], verifier) <==> BlockAccepted(b, Replay(chain), verifier, b.header.height)
  {
    hide BlockAccepted, Replay;
    assert Init(chain + [b]) == chain && Last(chain + [b]) == b;
  }

  /**
   * The two ways to fail: the block spends a coin of the old chain that its own
   * branch does not have, or a coinbase coin that its own branch created so late
   * that it is not mature there. Either makes the active chain invalid.
   */
  lemma {:induction false} BadSpendIsAccepted(st: State, chain: seq<Block>, b: Block, g: Block, cfg: Config, now: int,
                                              universe: set<Block>, i: nat, o: Outpoint)
    requires HistoryInv(st, chain, g, cfg, universe) && UniverseOk(universe)
    requires Admissible(st, b, cfg, now) && TriggersReorg(st, b) && b.header.height >= 1
    requires ParentOk(st, b) && NoStaleEntry(st, chain, Branch(st, b))
    requires 1 <= i < |b.txs| && o in AllOutpoints(b.txs[i])
    requires var own := Replay(ParentBranch(st, b));
             || o !in own
             || (own[o].coinbase && b.header.height < U64_MAX &&
                 b.header.height < AddU64(own[o].height, COINBASE_MATURITY))
    ensures Submit(st, b, cfg, now).1 && Represents(Submit(st, b, cfg, now).0, Branch(st, b))
    ensures !ValidChain(Branch(st, b), cfg.verifier)
  {
    hide HistoryInv, UniverseOk, Admissible, TriggersReorg, NoStaleEntry, Submit, Represents, ValidChain, Replay,
         AllOutpoints, Branch, ParentBranch, StoreOk, ParentOk, AddU64;
    TipExists(st, chain, g, cfg, universe);
    ReorgIsUnchecked(st, chain, b, g, cfg, now, universe);
    assert !SpendsOwn(b.txs[i], Replay(ParentBranch(st, b)), b.header.height);
  }

  lemma {:induction false} BranchRoot(st: State, b: Block, g: Block, verifier: Verifier, universe: set<Block>)
    requires StoreOk(st) && StoredValid(st, g, verifier, universe) && ParentOk(st, b) && b.header.height >= 1
    ensures Branch(st, b)[0] == g
  {
    hide BlockHash, Storable, ValidChain;
    assert Branch(st, b) == ParentBranch(st, b) + [b];
  }

  lemma {:induction false} ExtendStep(st: State, chain: seq<Block>, b: Block, g: Block, cfg: Config, now: int,
                                      universe: set<Block>)
    requires HistoryInv(st, chain, g, cfg, universe) && UniverseOk(universe) && cfg.net.powLimit < TWO256
    requires Admissible(st, b, cfg, now) && st.tip == Some(b.header.prevHash) && b in universe && b.header.height >= 1
    requires ParentOk(st, b) && FreshCoinbase(ParentBranch(st, b), b)
    ensures StoreOk(ApplyWithWork(st, b))
    ensures HistoryInv(ApplyWithWork(st, b), chain + [b], g, cfg, universe)
  {
    hide BlockHash, Storable, BlockAccepted, WorkOk, Replay, HeaderFault, WorkForBits, UniverseOk, Represents,
         StoredValid, StoreOk, ParentOk, FreshCoinbase, Branch, ApplyBlock, IncomingWork, UndoableAt, ValidChain;
    ActiveChain(st, chain, g, cfg, universe);
    NewToStore(st, b, g, cfg, universe);
    TipIsParent(st, chain, b);
    var st' := ApplyWithWork(st, b);
    ExtendRepresents(st, chain, b);
    ExtendAdds(st, b);
    AddKeepsStore(st, b, st');
    AdmissibleWork(st, b, cfg, now);
    AddKeepsWork(st, b, st');
    AddKeepsValid(st, b, st', g, cfg.verifier, universe);
  }

  /** The branch of a child of the tip is the active chain. */
  lemma {:induction false} TipIsParent(st: State, chain: seq<Block>, b: Block)
    requires StoreOk(st) && Represents(st, chain) && ParentOk(st, b) && b.header.height > 0 &&
             st.tip == Some(b.header.prevHash)
    ensures ParentBranch(st, b) == chain && st.utxo == Replay(chain)
    ensures b.header.height == |chain| && b.header.prevHash == BlockHash(Last(chain))
  {
    hide BlockHash, Storable, Replay, HoldsAt;
    TipStored(st, chain);
    ActiveBranch(st, chain, |chain| - 1);
    assert chain[..|chain|] == chain;
  }

  lemma {:induction false} ExtendRepresents(st: State, chain: seq<Block>, b: Block)
    requires StoreOk(st) && Represents(st, chain) && Storable(Last(chain)) && GetBlock(st, BlockHash(b)).None?
    requires b.header.height == |chain| && b.header.prevHash == BlockHash(Last(chain))
    ensures Represents(ApplyWithWork(st, b), chain + [b])
  {
    hide StoreOk, Represents, Storable, BlockHash, ApplyBlock, IncomingWork;
    RepresentsSome(st, chain);
    NewHash(st, chain, b);
    ExtendRefines(st, chain, b);
    WorkIsApart(ApplyBlock(st, b), chain + [b], BlockHash(b), IncomingWork(st, b));
  }

  lemma {:induction false} RepresentsSome(st: State, chain: seq<Block>)
    requires Represents(st, chain)
    ensures chain != []
  {
  }

  lemma {:induction false} ExtendAdds(st: State, b: Block)
    ensures Adds(st, b, ApplyWithWork(st, b))
  {
    hide BlockHash, IncomingWork, ApplyUtxos, UndoLog;
  }

  lemma {:induction false} RecordStep(st: State, chain: seq<Block>, b: Block, g: Block, cfg: Config, now: int,
                                      universe: set<Block>)
    requires HistoryInv(st, chain, g, cfg, universe) && UniverseOk(universe)
    requires Admissible(st, b, cfg, now) && b in universe
    ensures StoreOk(PutTotalWork(st, BlockHash(b), IncomingWork(st, b)))
    ensures HistoryInv(PutTotalWork(st, BlockHash(b), IncomingWork(st, b)), chain, g, cfg, universe)
  {
    hide BlockHash, Storable, BlockAccepted, WorkOk, Represents, HeaderFault, ValidChain, IncomingWork, UniverseOk;
    NewToStore(st, b, g, cfg, universe);
    AdmissibleParent(st, b, cfg, now);
    var st' := PutTotalWork(st, BlockHash(b), IncomingWork(st, b));
    RecordKeepsWork(st, b);
    WorkIsApart(st, chain, BlockHash(b), IncomingWork(st, b));
    SameBlocks(st, st');
    SameValid(st, st', g, cfg.verifier, universe);
  }

  /** Every event keeps the invariant and moves the active chain as `NextActive` says. */
  lemma {:induction false} EventKeepsInv(st: State, chain: seq<Block>, e: Event, g: Block, cfg: Config,
                                         universe: set<Block>)
    requires HistoryInv(st, chain, g, cfg, universe) && UniverseOk(universe) && cfg.net.powLimit < TWO256
    requires EventOk(st, chain, e, cfg, universe)
    ensures HistoryInv(Next(st, e, cfg), NextActive(st, chain, e, cfg), g, cfg, universe)
  {
    hide HistoryInv, UniverseOk, Rollback, Submit;
    match e
    case RollBackTo(height) =>
      RollBackStep(st, chain, height, g, cfg, universe);
    case BlockArrives(b, now) =>
      ArrivalKeepsInv(st, chain, b, now, g, cfg, universe);
  }

  lemma {:induction false} ArrivalKeepsInv(st: State, chain: seq<Block>, b: Block, now: int, g: Block, cfg: Config,
                                           universe: set<Block>)
    requires HistoryInv(st, chain, g, cfg, universe) && UniverseOk(universe) && cfg.net.powLimit < TWO256
    requires EventOk(st, chain, BlockArrives(b, now), cfg, universe)
    ensures HistoryInv(Next(st, BlockArrives(b, now), cfg), NextActive(st, chain, BlockArrives(b, now), cfg), g, cfg,
              universe)
  {
    hide HistoryInv, BlockHash, UniverseOk, Reorg, NoStaleEntry, BlockAccepted, AdmissionFault, Branch, ParentBranch,
         IncomingWork, ApplyWithWork, FreshCoinbase, SpendsOnly;
    if Admissible(st, b, cfg, now) {
      TipExists(st, chain, g, cfg, universe);
      AdmissibleParent(st, b, cfg, now);
      if TriggersReorg(st, b) {
        ReorgStep(st, chain, b, g, cfg, now, universe);
      } else if st.tip == Some(b.header.prevHash) {
        ExtendStep(st, chain, b, g, cfg, now, universe);
      } else {
        RecordStep(st, chain, b, g, cfg, now, universe);
      }
    }
  }

  lemma {:induction false} TipExists(st: State, chain: seq<Block>, g: Block, cfg: Config, universe: set<Block>)
    requires HistoryInv(st, chain, g, cfg, universe)
    ensures StoreOk(st) && st.tip.Some?
  {
  }

  // ---------------------------------------------------------------- histories

  /** The store after a sequence of events. */
  ghost function After(st: State, events: seq<Event>, cfg: Config): State
    requires StoreOk(st)
    decreases |events|
  {
    if events == [] then st else After(Next(st, events[0], cfg), events[1..], cfg)
  }

  /** The assumptions of each event hold when it happens. */
  ghost predicate EventsOk(st: State, chain: seq<Block>, events: seq<Event>, cfg: Config, universe: set<Block>)
    requires StoreOk(st)
    decreases |events|
  {
    events != [] ==>
      && EventOk(st, chain, events[0], cfg, universe)
      && EventsOk(Next(st, events[0], cfg), NextActive(st, chain, events[0], cfg), events[1..], cfg, universe)
  }

  lemma {:induction false} EventsKeepInv(st: State, chain: seq<Block>, events: seq<Event>, g: Block, cfg: Config,
                                         universe: set<Block>)
    returns (chain': seq<Block>)
    requires HistoryInv(st, chain, g, cfg, universe) && UniverseOk(universe) && cfg.net.powLimit < TWO256
    requires EventsOk(st, chain, events, cfg, universe)
    ensures HistoryInv(After(st, events, cfg), chain', g, cfg, universe)
    decreases |events|
  {
    hide EventOk, Next, NextActive, UniverseOk, Represents, WorkOk, StoredValid;
    if events == [] {
      chain' := chain;
    } else {
      EventKeepsInv(st, chain, events[0], g, cfg, universe);
      chain' := EventsKeepInv(Next(st, events[0], cfg), NextActive(st, chain, events[0], cfg), events[1..], g, cfg,
          universe);
    }
  }

  /** Whatever happens, everything stored is mined. */
  lemma {:induction false} EventsKeepMined(st: State, events: seq<Event>, cfg: Config, g: Block)
    requires StoreOk(st) && AllMined(st, g, cfg.net.powLimit)
    ensures AllMined(After(st, events, cfg), g, cfg.net.powLimit)
    decreases |events|
  {
    hide Submit, StoreOk, AllMined, Rollback;
    if events != [] {
      match events[0] {
        case BlockArrives(b, now) =>
          SubmitKeepsMined(st, b, cfg, now, g);
        case RollBackTo(height) =>
          RollbackKeeps(st, height);
          SameMined(st, Rollback(st, height).0, g, cfg.net.powLimit);
      }
      EventsKeepMined(Next(st, events[0], cfg), events[1..], cfg, g);
    }
  }

  lemma {:induction false} GenesisHistory(g: Block, cfg: Config, universe: set<Block>)
    requires NetworkOk(cfg.net) && GenesisLike(g) && g.header.bits == cfg.net.genesisBits && g in universe
    ensures HistoryInv(Initialized(g), [g], g, cfg, universe)
  {
    hide BlockHash, CompactToBig, WorkForBits, GenesisLike, Represents, WorkOk;
    GenesisInv(g, cfg);
    var st := Initialized(g);
    assert g.header.height == 0 by { GenesisHeight(g); }
    assert Branch(st, g) == [g];
    assert forall h :: h in st.blocks ==> st.blocks[h] == g;
  }

  lemma {:induction false} GenesisHeight(g: Block)
    requires GenesisLike(g)
    ensures g.header.height == 0
  {
  }

  /**
   * Replay refinement and supply safety for every history of blocks, rollbacks
   * and reorganisations: the store is the replay of a valid chain from genesis,
   * its tip's total work is the sum of the chain's work, every stored block but the
   * genesis block is mined under the limit, and all coins together stay below the
   * supply cap.
   */
  lemma {:induction false} HistoryIsReplay(g: Block, events: seq<Event>, cfg: Config,
                                           universe: set<Block>) returns (chain: seq<Block>)
    requires NetworkOk(cfg.net) && GenesisLike(g) && g.header.bits == cfg.net.genesisBits
    requires g in universe && UniverseOk(universe)
    requires (GenesisStore(g); EventsOk(Initialized(g), [g], events, cfg, universe))
    ensures StoreOk(Initialized(g))
    ensures var st := After(Initialized(g), events, cfg);
            && Represents(st, chain) && ValidChain(chain, cfg.verifier) && chain[0] == g
            && st.tip.Some? && st.tip.value in st.work && st.work[st.tip.value] == ChainWork(chain)
            && AllMined(st, g, cfg.net.powLimit)
            && Total(st.utxo) <= RewardSum(|chain|) <= 2 * INITIAL_REWARD * HALVING_INTERVAL < MAX_SUPPLY
  {
    hide UniverseOk, GenesisLike, EventsOk, HistoryInv, Represents, ValidChain, After, ChainWork, Total, RewardSum,
         StoreOk, CompactToBig, AllMined;
    GenesisHistory(g, cfg, universe);
    TipExists(Initialized(g), [g], g, cfg, universe);
    chain := EventsKeepInv(Initialized(g), [g], events, g, cfg, universe);
    StateIsReplay(After(Initialized(g), events, cfg), chain, g, cfg, universe);
    GenesisMined(g, cfg.net.powLimit);
    EventsKeepMined(Initialized(g), events, cfg, g);
  }

  /** What the invariant says of the state. */
  lemma {:induction false} StateIsReplay(st: State, chain: seq<Block>, g: Block, cfg: Config, universe: set<Block>)
    requires HistoryInv(st, chain, g, cfg, universe) && UniverseOk(universe)
    ensures Represents(st, chain) && ValidChain(chain, cfg.verifier) && chain != [] && chain[0] == g
    ensures st.tip.Some? && st.tip.value in st.work && st.work[st.tip.value] == ChainWork(chain)
    ensures Total(st.utxo) <= RewardSum(|chain|) <= 2 * INITIAL_REWARD * HALVING_INTERVAL < MAX_SUPPLY
  {
    hide UniverseOk, BlockHash, WorkForBits, HoldsAt, Replay, Total, RewardSum, ValidChain, StoredValid, Branch,
         ChainWork, UndoableAt, Storable, IncomingWork;
    ActiveChain(st, chain, g, cfg, universe);
    SupplyCap(chain, cfg.verifier);
    TipStored(st, chain);
    WorkIsSum(st, Last(chain));
    assert WorkAt(st, BlockHash(Last(chain)));
    ActiveBranch(st, chain, |chain| - 1);
    assert chain[..|chain|] == chain;
  }
}
