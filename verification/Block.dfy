/**
 * Blocks, block headers and the Merkle commitment (blockchain/block.go).
 */
module Blocks {
  import opened Base
  import opened Tx

  datatype Header = Header(
    version: u32, prevHash: Digest, merkleRoot: Digest, timestamp: i64, bits: u32, nonce: u64, height: u64)

  datatype Block = Block(header: Header, txs: seq<Transaction>)

  /** The two's complement of a signed 64-bit value, as `uint64(x)`. */
  function Unsigned(x: i64): (r: u64)
    ensures r == if x < 0 then x + TWO64 else x
  {
    if x < 0 then x + TWO64 else x
  }

  /** The 96 bytes that are hashed for a header; `WriteHeader` writes the same bytes. */
  function HeaderBytes(h: Header): (s: seq<byte>)
    ensures |s| == 96
  {
    LE(h.version, 4) + h.prevHash + h.merkleRoot + LE(Unsigned(h.timestamp), 8)
    + LE(h.bits, 4) + LE(h.nonce, 8) + LE(h.height, 8)
  }

  function HeaderHash(h: Header): Digest {
    Sha256d(HeaderBytes(h))
  }

  function BlockHash(b: Block): Digest {
    HeaderHash(b.header)
  }

  // ---------------------------------------------------------------- Merkle tree

  /** The digests of a transaction list. */
  function TxIds(txs: seq<Transaction>): (ids: seq<Digest>)
    ensures |ids| == |txs|
    ensures forall i :: 0 <= i < |txs| ==> ids[i] == TxId(txs[i])
  {
    if txs == [] then [] else [TxId(txs[0])] + TxIds(txs[1..])
  }

  /** A level of the tree with its odd last node repeated. */
  function Pad(level: seq<Digest>): (r: seq<Digest>)
    ensures |r| % 2 == 0
  {
    if |level| % 2 == 1 then level + [level[|level| - 1]] else level
  }

  function Inner(l: Digest, r: Digest): Digest {
    Sha256d(l + r)
  }

  /** The parents of adjacent pairs of nodes. */
  function Parents(level: seq<Digest>): (r: seq<Digest>)
    requires |level| % 2 == 0
    ensures |r| == |level| / 2
  {
    if level == [] then [] else [Inner(level[0], level[1])] + Parents(level[2..])
  }

  function Root(level: seq<Digest>): Digest
    requires level != []
    decreases |level|
  {
    if |level| == 1 then level[0] else Root(Parents(Pad(level)))
  }

  function MerkleRoot(txs: seq<Transaction>): Digest {
    if txs == [] then ZERO_DIGEST else Root(TxIds(txs))
  }

  lemma {:induction false} ParentsAt(level: seq<Digest>, i: nat)
    requires |level| % 2 == 0 && 2 * i < |level|
    ensures Parents(level)[i] == Inner(level[2 * i], level[2 * i + 1])
  {
    if i > 0 {
      ParentsAt(level[2..], i - 1);
    }
  }

  /** Node `i` of the next level is the hash of nodes 2i and 2i + 1, in this order; the last may stand for both. */
  lemma {:induction false} NextLevelAt(level: seq<Digest>, i: nat)
    requires 2 * i < |level|
    ensures |Parents(Pad(level))| == (|level| + 1) / 2
    ensures var j := if 2 * i + 1 < |level| then 2 * i + 1 else 2 * i;
            var left: seq<byte>, right: seq<byte> := level[2 * i], level[j];
            Parents(Pad(level))[i] == Sha256d(left + right)
  {
    hide Parents;
    ParentsAt(Pad(level), i);
  }

  lemma {:induction false} ParentsAppend(level: seq<Digest>, l: Digest, r: Digest)
    requires |level| % 2 == 0
    ensures Parents(level + [l, r]) == Parents(level) + [Inner(l, r)]
  {
    if level == [] {
      assert [l, r][2..] == [];
    } else {
      assert (level + [l, r])[2..] == level[2..] + [l, r];
      ParentsAppend(level[2..], l, r);
    }
  }

  /** One round of the loop in `BuildMerkleRoot`. */
  method NextLevel(level: seq<Digest>) returns (next: seq<Digest>)
    ensures next == Parents(Pad(level))
  {
    var hashes := level;
    if |hashes| % 2 == 1 {
      hashes := hashes + [hashes[|hashes| - 1]];
    }
    next := [];
    var i := 0;
    while i < |hashes|
      invariant 0 <= i <= |hashes| && i % 2 == 0
      invariant next == Parents(hashes[..i])
    {
      ParentsAppend(hashes[..i], hashes[i], hashes[i + 1]);
      assert hashes[..i + 2] == hashes[..i] + [hashes[i], hashes[i + 1]];
      next := next + [Inner(hashes[i], hashes[i + 1])];
      i := i + 2;
    }
    assert hashes[..i] == hashes;
  }

  /** `BuildMerkleRoot`: the level-by-level loop computes `MerkleRoot`. */
  method BuildMerkleRoot(txs: seq<Transaction>) returns (root: Digest)
    ensures root == MerkleRoot(txs)
  {
    if |txs| == 0 {
      return ZERO_DIGEST;
    }
    var hashes: seq<Digest> := [];
    for i := 0 to |txs|
      invariant |hashes| == i
      invariant forall j :: 0 <= j < i ==> hashes[j] == TxId(txs[j])
    {
      hashes := hashes + [TxId(txs[i])];
    }
    assert hashes == TxIds(txs);
    while |hashes| > 1
      invariant hashes != []
      invariant Root(hashes) == Root(TxIds(txs))
      decreases |hashes|
    {
      hashes := NextLevel(hashes);
    }
    root := hashes[0];
  }

  // ---------------------------------------------------------------- genesis

  const GENESIS_TIME: i64 := 1780000000

  /** `CreateGenesisBlock`, with the nonce that mining settled on. */
  function GenesisBlock(message: seq<byte>, script: seq<byte>, reward: u64, bits: u32, nonce: u64): Block {
    var txs := [NewCoinbase(message, reward, script)];
    Block(Header(1, ZERO_DIGEST, MerkleRoot(txs), GENESIS_TIME, bits, nonce, 0), txs)
  }

  const MAX_BLOCK_TXS: nat := 100_000

  /** The blocks that `ReadBlock` can return: those that come back from the store as they went in. */
  predicate Storable(b: Block) {
    |b.txs| <= MAX_BLOCK_TXS && forall i :: 0 <= i < |b.txs| ==> InLimits(b.txs[i])
  }
}
