/**
 * What a block must show to be stored: its header commits to its transactions
 * and its hash meets the target it names (consensus/consensus.go, chain/chain.go).
 */
module Headers {
  import opened Base
  import opened Blocks
  import opened Validation
  import opened Ledger
  import opened Difficulty
  import opened Storage
  import opened Node
  import opened ForkChoice
  import opened Targets

  /**
   * The header checks pass exactly if the block is new, its root is that of its
   * transactions, its hash is at most its target and that at most the limit, it is
   * at most two hours ahead of the clock, and above height 0 it continues a stored
   * block with the bits required there.
   */
  lemma {:induction false} AdmissionMeans(st: State, b: Block, cfg: Config, now: int)
    ensures AdmissionFault(st, b, cfg, now).None? <==>
              && GetBlock(st, HeaderHash(b.header)).None?
              && b.header.merkleRoot == MerkleRoot(b.txs)
              && 0 < CompactToBig(b.header.bits) <= cfg.net.powLimit
              && DigestValue(HeaderHash(b.header)) <= CompactToBig(b.header.bits)
              && b.header.timestamp - now <= 7200
              && (b.header.height > 0 ==> Continues(st, b, cfg.net.powLimit))
  {
    hide CompactToBig, MerkleRoot, HeaderHash, DigestValue, ExpectedBits, GetBlock;
  }

  /** The parent is stored and readable, one lower, and the bits are those required after it. */
  predicate Continues(st: State, b: Block, powLimit: nat) {
    var parent := GetBlock(st, b.header.prevHash);
    && parent.Some?
    && b.header.prevHash == HeaderHash(parent.value.header)
    && b.header.height == AddU64(parent.value.header.height, 1)
    && ExpectedBits(parent.value.header, powLimit, HeaderLookup(st)) == Some(b.header.bits)
  }

  /** The error that is reported names something that is wrong with the block. */
  lemma {:induction false} AdmissionErrorMeans(st: State, b: Block, cfg: Config, now: int)
    requires AdmissionFault(st, b, cfg, now).Some?
    ensures var h, parent := HeaderHash(b.header), GetBlock(st, b.header.prevHash);
            var target := CompactToBig(b.header.bits);
            match AdmissionFault(st, b, cfg, now).value
            case AlreadyKnown => GetBlock(st, h).Some?
            case PreviousNotFound => b.header.height > 0 && parent.None?
            case BadMerkleRoot => b.header.merkleRoot != MerkleRoot(b.txs)
            case BadProofOfWork => target <= 0 || target > cfg.net.powLimit || DigestValue(h) > target
            case BadTimestamp => b.header.timestamp - now > 7200
            case BadHeight => parent.Some? && b.header.height != AddU64(parent.value.header.height, 1)
            case BadPrevHash => parent.Some? && b.header.prevHash != HeaderHash(parent.value.header)
            case NoRetargetHeader =>
              parent.Some? && ExpectedBits(parent.value.header, cfg.net.powLimit, HeaderLookup(st)).None?
            case BadDifficulty =>
              parent.Some? &&
              ExpectedBits(parent.value.header, cfg.net.powLimit, HeaderLookup(st)) !in {None, Some(b.header.bits)}
            case _ => false
  {
    hide CompactToBig, MerkleRoot, HeaderHash, DigestValue, ExpectedBits, GetBlock;
  }

  /**
   * Every stored block but the genesis block has a hash that, read with byte 0 most
   * significant, is at most its target, a target at most the limit, and the Merkle
   * root of its transactions in its header.
   */
  ghost predicate AllMined(st: State, g: Block, powLimit: nat) {
    forall h :: h in st.blocks ==> st.blocks[h] == g || MinedUnder(st.blocks[h], h, powLimit)
  }

  ghost predicate MinedUnder(b: Block, h: Digest, powLimit: nat) {
    && DigestValue(h) <= CompactToBig(b.header.bits) <= powLimit
    && h == HeaderHash(b.header) && b.header.merkleRoot == MerkleRoot(b.txs)
  }

  /** Whatever a submission stores is mined. */
  lemma {:induction false} SubmitKeepsMined(st: State, b: Block, cfg: Config, now: int, g: Block)
    requires StoreOk(st) && AllMined(st, g, cfg.net.powLimit)
    ensures AllMined(Submit(st, b, cfg, now).0, g, cfg.net.powLimit)
  {
    hide StoreOk, BlockAccepted, AdmissionFault, TriggersReorg, IncomingWork, ApplyUtxos, UndoLog, Reorg, MinedUnder;
    if Admissible(st, b, cfg, now) {
      AdmittedIsMined(st, b, cfg, now);
      AdmissibleParent(st, b, cfg, now);
      if TriggersReorg(st, b) {
        if Reorg(st, b).1 {
          ReorgAdds(st, b);
        } else {
          FailedReorgKeeps(st, b);
        }
      }
    }
  }

  lemma {:induction false} AdmittedIsMined(st: State, b: Block, cfg: Config, now: int)
    requires AdmissionFault(st, b, cfg, now).None?
    ensures MinedUnder(b, BlockHash(b), cfg.net.powLimit)
  {
    hide AdmissionFault, CompactToBig, MerkleRoot, HeaderHash, DigestValue, GetBlock;
    AdmissionMeans(st, b, cfg, now);
  }

  /** A store with the same blocks. */
  lemma {:induction false} SameMined(st: State, st': State, g: Block, powLimit: nat)
    requires AllMined(st, g, powLimit) && st'.blocks == st.blocks
    ensures AllMined(st', g, powLimit)
  {
    hide MinedUnder;
  }

  /** Under a limit below 2^(8(32 - k)), the hash of every stored block starts with `k` zero bytes. */
  lemma {:induction false} MinedHashesStartWithZeros(st: State, g: Block, powLimit: nat, h: Digest, k: nat)
    requires AllMined(st, g, powLimit) && h in st.blocks && st.blocks[h] != g
    requires k <= 32 && powLimit < Pow2(8 * (32 - k))
    ensures forall i :: 0 <= i < k ==> h[i] == 0
  {
    hide CompactToBig, MerkleRoot, HeaderHash, DigestValue, Pow2;
    LeadingZeros(h, k);
  }

  lemma {:induction false} GenesisMined(g: Block, powLimit: nat)
    ensures AllMined(Initialized(g), g, powLimit)
  {
    hide MinedUnder, ApplyUtxos, UndoLog, WorkForBits;
  }
}
