/**
 * Total work, fork choice and first-seen stability of `ValidateAndApplyBlock`.
 */
module ForkChoice {
  import opened Base
  import opened Blocks
  import opened Validation
  import opened Ledger
  import opened Difficulty
  import opened Storage
  import opened Node
  import opened Chains

  // ---------------------------------------------------------------- recorded work

  /** A stored block's recorded work is its own positive work on top of its parent's. */
  ghost predicate WorkAt(st: State, h: Digest)
    requires h in st.blocks
  {
    var b := st.blocks[h];
    && WorkForBits(b.header.bits) > 0
    && h in st.work && st.work[h] == IncomingWork(st, b)
    && (b.header.height > 0 ==> b.header.prevHash in st.work)
  }

  ghost predicate WorkOk(st: State) {
    forall h :: h in st.blocks ==> WorkAt(st, h)
  }

  /** No recorded work exceeds the tip's. */
  ghost predicate TipHeaviest(st: State) {
    && st.tip.Some? && st.tip.value in st.work
    && forall h :: h in st.work ==> st.work[h] <= st.work[st.tip.value]
  }

  /** If the hash is taken already, then by a block with the same header. */
  ghost predicate HashBinds(st: State, b: Block) {
    BlockHash(b) in st.blocks ==> st.blocks[BlockHash(b)].header == b.header
  }

  /** The sum of the work of all blocks of a chain. */
  function ChainWork(chain: seq<Block>): nat
    decreases |chain|
  {
    if chain == [] then 0 else ChainWork(Init(chain)) + WorkForBits(Last(chain).header.bits)
  }

  /** Recorded work is the sum over the branch. */
  lemma {:induction false} WorkIsSum(st: State, b: Block)
    requires StoreOk(st) && WorkOk(st) && BlockHash(b) in st.blocks && st.blocks[BlockHash(b)] == b
    ensures st.work[BlockHash(b)] == ChainWork(Branch(st, b))
    decreases b.header.height
  {
    hide BlockHash, WorkForBits, Storable;
    assert WorkAt(st, BlockHash(b));
    if b.header.height == 0 {
      assert Branch(st, b) == [b] && Init([b]) == [];
      assert ChainWork([]) == 0;
    } else {
      var p := st.blocks[b.header.prevHash];
      WorkIsSum(st, p);
      var r := Branch(st, b);
      assert Init(r) == Branch(st, p) && Last(r) == b;
    }
  }

  /** `st'` has the blocks and work of `st` and those of `b`. */
  ghost predicate Adds(st: State, b: Block, st': State) {
    && st'.blocks == st.blocks[BlockHash(b) := b]
    && st'.work == st.work[BlockHash(b) := IncomingWork(st, b)]
  }

  lemma {:induction false} AddKeepsStore(st: State, b: Block, st': State)
    requires StoreOk(st) && ParentOk(st, b) && GetBlock(st, BlockHash(b)).None?
    requires st'.blocks == st.blocks[BlockHash(b) := b]
    ensures StoreOk(st')
  {
    hide BlockHash, Storable;
  }

  lemma {:induction false} AddKeepsWork(st: State, b: Block, st': State)
    requires StoreOk(st) && WorkOk(st) && ParentOk(st, b) && GetBlock(st, BlockHash(b)).None?
    requires Adds(st, b, st') && WorkForBits(b.header.bits) > 0
    ensures WorkOk(st')
  {
    hide BlockHash, Storable, WorkForBits;
    forall h | h in st'.blocks
      ensures WorkAt(st', h)
    {
      if h != BlockHash(b) {
        assert WorkAt(st, h);
        assert ParentOk(st, st.blocks[h]);
      } else if b.header.height > 0 {
        assert WorkAt(st, b.header.prevHash);
      }
    }
  }

  /** Applying a stored block again changes neither blocks nor work. */
  lemma {:induction false} ReapplyKeeps(st: State, b: Block)
    requires BlockHash(b) in st.blocks && st.blocks[BlockHash(b)] == b
    ensures ApplyWithWork(st, b).blocks == st.blocks
    ensures WorkOk(st) ==> ApplyWithWork(st, b).work == st.work
  {
    hide BlockHash, WorkForBits;
    assert WorkOk(st) ==> WorkAt(st, BlockHash(b));
  }

  /** The walk returns the new block followed by stored blocks. */
  lemma {:induction false} WalkStored(st: State, cur: Block, i: nat)
    requires StoreOk(st) && ParentOk(st, cur) && WalkBack(st, cur).Some? && i < |WalkBack(st, cur).value|
    ensures WalkBack(st, cur).value[0] == cur
    ensures i > 0 ==> var s := WalkBack(st, cur).value[i]; BlockHash(s) in st.blocks && st.blocks[BlockHash(s)] == s
    decreases cur.header.height
  {
    hide BlockHash, Storable;
    if i > 0 {
      var p := st.blocks[cur.header.prevHash];
      WalkStored(st, p, i - 1);
    }
  }

  /** Reapplying stored blocks changes neither blocks nor work. */
  lemma {:induction false} ReapplyAll(st: State, side: seq<Block>)
    requires forall i :: 0 <= i < |side| ==> BlockHash(side[i]) in st.blocks && st.blocks[BlockHash(side[i])] == side[i]
    ensures ApplySide(st, side).blocks == st.blocks
    ensures WorkOk(st) ==> ApplySide(st, side).work == st.work
  {
    hide BlockHash, ApplyWithWork, WorkOk;
    if side != [] {
      ReapplyAll(st, side[1..]);
      var mid := ApplySide(st, side[1..]);
      if WorkOk(st) {
        SameWork(st, mid);
      }
      ReapplyKeeps(mid, side[0]);
    }
  }

  lemma {:induction false} SameWork(st: State, st': State)
    requires WorkOk(st) && st'.blocks == st.blocks && st'.work == st.work
    ensures WorkOk(st')
  {
    hide BlockHash, WorkForBits;
    forall h | h in st'.blocks
      ensures WorkAt(st', h)
    {
      assert WorkAt(st, h);
    }
  }

  lemma {:induction false} RollbackKeeps(st: State, height: u64)
    requires StoreOk(st)
    ensures Rollback(st, height).0.blocks == st.blocks && Rollback(st, height).0.work == st.work
    decreases if TipBlock(st).Some? then TipBlock(st).value.header.height else 0
  {
    hide Storable, BlockHash, DisconnectUtxos;
    var tip := TipBlock(st);
    if tip.Some? && tip.value.header.height > height && DisconnectTip(st).Some? {
      RollbackKeeps(DisconnectTip(st).value.1, height);
    }
  }

  /** A successful reorganisation adds the new block and its total work, and nothing else. */
  lemma {:induction false} ReorgAdds(st: State, b: Block)
    requires StoreOk(st) && ParentOk(st, b) && Reorg(st, b).1
    ensures Reorg(st, b).0.blocks == st.blocks[BlockHash(b) := b]
    ensures WorkOk(st) ==> Adds(st, b, Reorg(st, b).0)
  {
    hide BlockHash, Storable, WorkOk, Rollback, WalkBack, StoreOk, ParentOk;
    var side := WalkBack(st, b).value;
    var f := ForkHeight(side[|side| - 1]);
    var back := Rollback(st, f).0;
    RollbackKeeps(st, f);
    if WorkOk(st) {
      SameWork(st, back);
    }
    forall i | 0 <= i < |side[1..]|
      ensures BlockHash(side[1..][i]) in back.blocks && back.blocks[BlockHash(side[1..][i])] == side[1..][i]
    {
      WalkStored(st, b, i + 1);
    }
    WalkStored(st, b, 0);
    ReapplyAll(back, side[1..]);
    var mid := ApplySide(back, side[1..]);
    assert WorkOk(st) ==> IncomingWork(mid, b) == IncomingWork(st, b);
    assert ApplySide(back, side) == ApplyWithWork(mid, b);
  }

  /** Whatever is submitted, the stored blocks stay linked. */
  lemma {:induction false} SubmitKeepsStore(st: State, b: Block, cfg: Config, now: int)
    requires StoreOk(st)
    ensures StoreOk(Submit(st, b, cfg, now).0)
  {
    hide BlockHash, Storable, BlockAccepted, HeaderFault, Reorg, StoreOk;
    if Admissible(st, b, cfg, now) {
      AdmissibleParent(st, b, cfg, now);
      var st' := Submit(st, b, cfg, now).0;
      if TriggersReorg(st, b) {
        if Reorg(st, b).1 {
          ReorgAdds(st, b);
          AddKeepsStore(st, b, st');
        } else {
          FailedReorgKeeps(st, b);
          SameBlocks(st, st');
        }
      } else if st.tip.None? || b.header.prevHash == st.tip.value {
        AddKeepsStore(st, b, st');
      } else {
        SameBlocks(st, st');
      }
    }
  }

  lemma {:induction false} SameBlocks(st: State, st': State)
    requires StoreOk(st) && st'.blocks == st.blocks
    ensures StoreOk(st')
  {
    hide BlockHash, Storable;
  }

  lemma {:induction false} FailedReorgKeeps(st: State, b: Block)
    requires StoreOk(st) && ParentOk(st, b) && !Reorg(st, b).1
    ensures Reorg(st, b).0.blocks == st.blocks && Reorg(st, b).0.work == st.work
  {
    hide BlockHash, Storable, Rollback, WalkBack, StoreOk, ParentOk;
    var side := WalkBack(st, b);
    if side.Some? && side.value != [] {
      RollbackKeeps(st, ForkHeight(side.value[|side.value| - 1]));
    }
  }

  // ---------------------------------------------------------------- fork choice

  /** A block that passes the header checks stands for positive work. */
  lemma {:induction false} AdmissibleWork(st: State, b: Block, cfg: Config, now: int)
    requires AdmissionFault(st, b, cfg, now).None? && cfg.net.powLimit < TWO256
    ensures WorkForBits(b.header.bits) > 0
  {
    hide BlockHash, Storable, MerkleRoot, ExpectedBits, CompactToBig, DigestValue, WorkForBits;
    assert ProofOfWork(b.header, cfg.net.powLimit);
    WorkIsPositive(b.header.bits);
  }

  /** Every successful reorganisation ends with the new block as tip. */
  lemma {:induction false} ReorgTip(st: State, b: Block)
    requires StoreOk(st) && ParentOk(st, b) && Reorg(st, b).1
    ensures Reorg(st, b).0.tip == Some(BlockHash(b))
  {
    hide BlockHash, Storable, Rollback, WalkBack, StoreOk, ParentOk, ApplyUtxos, UndoLog, IncomingWork;
    var side := WalkBack(st, b).value;
    WalkStored(st, b, 0);
    var back := Rollback(st, ForkHeight(side[|side| - 1])).0;
    assert ApplySide(back, side) == ApplyWithWork(ApplySide(back, side[1..]), b);
  }

  /** The work of the tip after a submission. */
  function TipWorkAfter(st: State, b: Block, active: bool): nat {
    if active then IncomingWork(st, b) else CurrentWork(st)
  }

  /**
   * Fork choice, for every successful submission and whatever was rolled back
   * before: recorded work stays exact, the tip moves to the block exactly if that
   * becomes active, and the new tip has the most recorded work if and only if no
   * record of another block exceeds its work. Above height 0 that work is the
   * larger of the old tip's and the block's, and grows whenever the tip moves.
   */
  lemma {:induction false} SubmitMovesTip(st: State, b: Block, cfg: Config, now: int)
    requires StoreOk(st) && WorkOk(st) && st.tip.Some? && st.tip.value in st.blocks
    requires cfg.net.powLimit < TWO256 && HashBinds(st, b) && Submit(st, b, cfg, now).1
    ensures var st', active := Submit(st, b, cfg, now).0, BecomesActive(st, b);
            var w := TipWorkAfter(st, b, active);
            && WorkOk(st') && st'.tip == (if active then Some(BlockHash(b)) else st.tip)
            && st'.tip.value in st'.work && st'.work[st'.tip.value] == w
            && (TipHeaviest(st') <==> forall h :: h in st.work && h != BlockHash(b) ==> st.work[h] <= w)
            && (b.header.height >= 1 ==> IncomingWork(st, b) <= w && CurrentWork(st) <= w)
            && (b.header.height >= 1 && active ==> CurrentWork(st) < w)
  {
    hide BlockHash, Storable, HeaderFault, Reorg, StoreOk, WorkForBits, BlockAccepted, ParentOk, ApplyUtxos, UndoLog;
    AdmissibleParent(st, b, cfg, now);
    AdmissibleWork(st, b, cfg, now);
    assert WorkAt(st, st.tip.value);
    var st' := Submit(st, b, cfg, now).0;
    if TriggersReorg(st, b) {
      ReorgAdds(st, b);
      ReorgTip(st, b);
      AddKeepsWork(st, b, st');
      HeaviestAfter(st, b, st', IncomingWork(st, b));
    } else if b.header.prevHash == st.tip.value {
      AddKeepsWork(st, b, st');
      HeaviestAfter(st, b, st', IncomingWork(st, b));
    } else {
      RecordKeepsWork(st, b);
      TipRecord(st, b);
      HeaviestAfter(st, b, st', CurrentWork(st));
    }
  }

  /** A record for the tip's own hash does not change its work. */
  lemma {:induction false} TipRecord(st: State, b: Block)
    requires StoreOk(st) && WorkOk(st) && st.tip.Some? && st.tip.value in st.blocks && HashBinds(st, b)
    ensures st.tip.value in st.work && (BlockHash(b) == st.tip.value ==> IncomingWork(st, b) == st.work[st.tip.value])
  {
    hide BlockHash, Storable, WorkForBits;
    assert WorkAt(st, st.tip.value);
  }

  lemma {:induction false} HeaviestAfter(st: State, b: Block, st': State, w: nat)
    requires st'.work == st.work[BlockHash(b) := IncomingWork(st, b)] && IncomingWork(st, b) <= w
    requires st'.tip.Some? && st'.tip.value in st'.work && st'.work[st'.tip.value] == w
    ensures TipHeaviest(st') <==> forall h :: h in st.work && h != BlockHash(b) ==> st.work[h] <= w
  {
    hide BlockHash, IncomingWork;
    if TipHeaviest(st') {
      forall h | h in st.work && h != BlockHash(b)
        ensures st.work[h] <= w
      {
        assert h in st'.work && st'.work[h] == st.work[h];
      }
    }
  }

  /** In particular, a heaviest tip stays so: it has the maximum of all recorded work after every submission. */
  lemma {:induction false} SubmitChoosesHeaviest(st: State, b: Block, cfg: Config, now: int)
    requires StoreOk(st) && WorkOk(st) && TipHeaviest(st) && st.tip.value in st.blocks
    requires cfg.net.powLimit < TWO256 && HashBinds(st, b) && Submit(st, b, cfg, now).1
    requires BecomesActive(st, b) ==> b.header.height >= 1
    ensures WorkOk(Submit(st, b, cfg, now).0) && TipHeaviest(Submit(st, b, cfg, now).0)
  {
    hide BlockHash, StoreOk, WorkOk, Submit, IncomingWork, BecomesActive;
    SubmitMovesTip(st, b, cfg, now);
  }

  /** Recording the work of a block that is not stored leaves the work of stored blocks alone. */
  lemma {:induction false} RecordKeepsWork(st: State, b: Block)
    requires StoreOk(st) && WorkOk(st) && ParentOk(st, b) && GetBlock(st, BlockHash(b)).None? && HashBinds(st, b)
    ensures WorkOk(PutTotalWork(st, BlockHash(b), IncomingWork(st, b)))
  {
    hide BlockHash, Storable, WorkForBits;
    var st' := PutTotalWork(st, BlockHash(b), IncomingWork(st, b));
    if BlockHash(b) in st.blocks {
      assert WorkAt(st, BlockHash(b));
      assert st'.work == st.work;
      SameWork(st, st');
    } else {
      forall h | h in st'.blocks
        ensures WorkAt(st', h)
      {
        assert WorkAt(st, h);
        assert ParentOk(st, st.blocks[h]);
      }
    }
  }
}
