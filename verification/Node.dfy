/**
 * Block acceptance, rollback and reorganisation as functions on the store
 * (chain/chain.go).
 */
module Node {
  import opened Base
  import opened Blocks
  import opened Validation
  import opened Difficulty
  import opened Storage

  datatype Network = Network(genesisBits: u32, powLimit: nat)

  /** What a manager is built with. */
  datatype Config = Config(net: Network, verifier: Verifier)

  datatype ChainError =
    | AlreadyKnown | PreviousNotFound
    | BadMerkleRoot | BadProofOfWork | BadTimestamp | BadHeight | BadPrevHash
    | NoRetargetHeader | BadDifficulty
    | BadTransaction(reason: TxError)
    | ReorgFailed

  const TWO_HOURS: int := 7200

  /** `ValidateBlockHeaderWithDifficulty`: the first thing wrong with the header, with the clock at `now`. */
  function HeaderFault(b: Block, prev: Option<Header>, net: Network, headerAt: u64 -> Option<Header>,
                       now: int): Option<ChainError> {
    if b.header.merkleRoot != MerkleRoot(b.txs) then Some(BadMerkleRoot)
    else if !ProofOfWork(b.header, net.powLimit) then Some(BadProofOfWork)
    else if b.header.timestamp > now + TWO_HOURS then Some(BadTimestamp)
    else if prev.None? then None
    else if b.header.height != AddU64(prev.value.height, 1) then Some(BadHeight)
    else if b.header.prevHash != HeaderHash(prev.value) then Some(BadPrevHash)
    else
      var expected := ExpectedBits(prev.value, net.powLimit, headerAt);
      if expected.None? then Some(NoRetargetHeader)
      else if b.header.bits != expected.value then Some(BadDifficulty)
      else None
  }

  /** The header of the parent, which a block of height 0 does not need. */
  function PrevHeader(st: State, b: Block): Option<Header> {
    if b.header.height == 0 then None
    else
      var p := GetBlock(st, b.header.prevHash);
      if p.None? then None else Some(p.value.header)
  }

  function HeaderLookup(st: State): u64 -> Option<Header> {
    (h: u64) => HeaderAt(st, h)
  }

  /** Everything `ValidateAndApplyBlock` checks before the transactions. */
  function AdmissionFault(st: State, b: Block, cfg: Config, now: int): Option<ChainError> {
    if GetBlock(st, BlockHash(b)).Some? then Some(AlreadyKnown)
    else if b.header.height > 0 && GetBlock(st, b.header.prevHash).None? then Some(PreviousNotFound)
    else HeaderFault(b, PrevHeader(st, b), cfg.net, HeaderLookup(st), now)
  }

  /** The block passes all checks; its transactions are checked against the active tip's coins. */
  ghost predicate Admissible(st: State, b: Block, cfg: Config, now: int) {
    && AdmissionFault(st, b, cfg, now).None?
    && BlockAccepted(b, st.utxo, cfg.verifier, b.header.height)
  }

  /** The total work of a chain ending in `b`. */
  function IncomingWork(st: State, b: Block): nat {
    WorkForBits(b.header.bits) + if b.header.height > 0 &&
        b.header.prevHash in st.work then st.work[b.header.prevHash] else 0
  }

  /** `ApplyBlock` followed by recording the block's total work. */
  function ApplyWithWork(st: State, b: Block): State {
    PutTotalWork(ApplyBlock(st, b), BlockHash(b), IncomingWork(st, b))
  }

  // ---------------------------------------------------------------- the stored block tree

  /** A block above height 0 has its parent in the store, one lower. */
  predicate ParentOk(st: State, b: Block) {
    b.header.height > 0 ==>
      && GetBlock(st, b.header.prevHash).Some?
      && GetBlock(st, b.header.prevHash).value.header.height + 1 == b.header.height
  }

  /** Blocks are stored under their hash and linked down to height 0. */
  ghost predicate StoreOk(st: State) {
    forall h :: h in st.blocks ==> BlockHash(st.blocks[h]) == h && ParentOk(st, st.blocks[h])
  }

  /** The blocks from height 0 up to `b`, along parent links. */
  ghost function Branch(st: State, b: Block): (r: seq<Block>)
    requires StoreOk(st) && ParentOk(st, b)
    ensures |r| == b.header.height + 1 && r[|r| - 1] == b
    decreases b.header.height
  {
    if b.header.height == 0 then [b]
    else Branch(st, st.blocks[b.header.prevHash]) + [b]
  }

  // ---------------------------------------------------------------- rollback and reorganisation

  /** `RollbackToHeight`: the state it leaves and whether it succeeded. */
  ghost function Rollback(st: State, height: u64): (State, bool)
    requires StoreOk(st)
    decreases if TipBlock(st).Some? then TipBlock(st).value.header.height else 0
  {
    var tip := TipBlock(st);
    if tip.None? then (st, false)
    else if tip.value.header.height <= height then (st, true)
    else
      var r := DisconnectTip(st);
      if r.None? then (st, false) else Rollback(r.value.1, height)
  }

  /**
   * The first loop of `reorg`: `cur` and its ancestors, newest first, down to the
   * block whose parent the index names.
   */
  ghost function WalkBack(st: State, cur: Block): Option<seq<Block>>
    requires StoreOk(st) && ParentOk(st, cur)
    decreases cur.header.height
  {
    if cur.header.height == 0 then Some([cur])
    else if cur.header.height - 1 !in st.index then None
    else if st.index[cur.header.height - 1] == cur.header.prevHash then Some([cur])
    else
      var rest := WalkBack(st, st.blocks[cur.header.prevHash]);
      if rest.None? then None else Some([cur] + rest.value)
  }

  /** The second loop of `reorg`: applies a newest-first list from its end. */
  function ApplySide(st: State, side: seq<Block>): State {
    if side == [] then st else ApplyWithWork(ApplySide(st, side[1..]), side[0])
  }

  function ForkHeight(oldest: Block): u64 {
    if oldest.header.height == 0 then 0 else oldest.header.height - 1
  }

  /** `reorg`. */
  ghost function Reorg(st: State, newTip: Block): (State, bool)
    requires StoreOk(st) && ParentOk(st, newTip)
  {
    var side := WalkBack(st, newTip);
    if side.None? || side.value == [] then (st, false)
    else
      var (back, ok) := Rollback(st, ForkHeight(side.value[|side.value| - 1]));
      if !ok then (back, false) else (ApplySide(back, side.value), true)
  }

  /** The recorded work of the tip, 0 if there is none. */
  function CurrentWork(st: State): nat {
    if st.tip.Some? && st.tip.value in st.work then st.work[st.tip.value] else 0
  }

  /** The block would make the node reorganise. */
  ghost predicate TriggersReorg(st: State, b: Block) {
    st.tip.Some? && b.header.prevHash != st.tip.value && IncomingWork(st, b) > CurrentWork(st)
  }

  /** The block extends the tip or triggers a reorganisation; with a tip in place, any other block is only recorded. */
  ghost predicate BecomesActive(st: State, b: Block) {
    TriggersReorg(st, b) || st.tip == Some(b.header.prevHash)
  }

  lemma {:induction false} AdmissibleParent(st: State, b: Block, cfg: Config, now: int)
    requires StoreOk(st) && AdmissionFault(st, b, cfg, now).None?
    ensures ParentOk(st, b)
  {
  }

  /** `ValidateAndApplyBlock`: the state it leaves and whether it succeeded. */
  ghost function Submit(st: State, b: Block, cfg: Config, now: int): (State, bool)
    requires StoreOk(st)
  {
    if !Admissible(st, b, cfg, now) then (st, false)
    else
      AdmissibleParent(st, b, cfg, now);
      if TriggersReorg(st, b) then Reorg(st, b)
      else if st.tip.None? || b.header.prevHash == st.tip.value then (ApplyWithWork(st, b), true)
      else (PutTotalWork(st, BlockHash(b), IncomingWork(st, b)), true)
  }

  /** `InitGenesis` on an empty store, with the mined genesis block. */
  function Initialized(g: Block): State {
    PutTotalWork(ApplyBlock(EMPTY, g), BlockHash(g), WorkForBits(g.header.bits))
  }
}
