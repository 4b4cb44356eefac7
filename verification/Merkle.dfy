/**
 * A header hash determines a valid block: the Merkle root that repeats odd last
 * nodes is injective on lists without duplicates, and validation rules out
 * duplicates (blockchain/block.go, consensus/consensus.go).
 */
module Merkle {
  import opened Base
  import opened Tx
  import opened Blocks
  import opened Validation
  import opened Conservation
  import opened Chains
  import opened Codec
  import opened Injective

  // ---------------------------------------------------------------- preimages

  function Concat(l: Digest, r: Digest): (s: seq<byte>)
    ensures |s| == 64
  {
    l + r
  }

  /** What is hashed to combine one level. */
  function PairPreimages(level: seq<Digest>): set<seq<byte>>
    requires |level| % 2 == 0
  {
    if level == [] then {} else {Concat(level[0], level[1])} + PairPreimages(level[2..])
  }

  /** What is hashed to compute a root. */
  function RootPreimages(level: seq<Digest>): set<seq<byte>>
    requires level != []
    decreases |level|
  {
    if |level| == 1 then {} else PairPreimages(Pad(level)) + RootPreimages(Parents(Pad(level)))
  }

  lemma {:induction false} PairAt(level: seq<Digest>, i: nat)
    requires |level| % 2 == 0 && 2 * i < |level|
    ensures Concat(level[2 * i], level[2 * i + 1]) in PairPreimages(level)
  {
    if i > 0 {
      PairAt(level[2..], i - 1);
    }
  }

  lemma {:induction false} SplitPair(a: Digest, b: Digest, c: Digest, d: Digest)
    requires Concat(a, b) == Concat(c, d)
    ensures a == c && b == d
  {
    SplitSame(a, c, b, d);
  }

  // ---------------------------------------------------------------- node heights

  /**
   * `h` is the hash of a tree whose left spine has `k` inner nodes above a leaf;
   * leaves are not hashed from 64 bytes.
   */
  ghost predicate IsNode(pre: set<seq<byte>>, h: Digest, k: nat)
    decreases k
  {
    if k == 0 then exists x :: x in pre && |x| != 64 && Sha256d(x) == h
    else exists l: Digest, r: Digest :: Concat(l, r) in pre && Inner(l, r) == h && IsNode(pre, l, k - 1)
  }

  /** A hash cannot stand for nodes of two heights. */
  lemma {:induction false} NodeHeight(pre: set<seq<byte>>, h: Digest, k: nat, k': nat)
    requires CollisionFree(pre) && IsNode(pre, h, k) && IsNode(pre, h, k')
    ensures k == k'
    decreases k
  {
    if k > 0 && k' > 0 {
      var l: Digest, r: Digest :| Concat(l, r) in pre && Inner(l, r) == h && IsNode(pre, l, k - 1);
      var l': Digest, r': Digest :| Concat(l', r') in pre && Inner(l', r') == h && IsNode(pre, l', k' - 1);
      SplitPair(l, r, l', r');
      NodeHeight(pre, l, k - 1, k' - 1);
    }
  }

  ghost predicate AllNodes(pre: set<seq<byte>>, level: seq<Digest>, k: nat) {
    forall i :: 0 <= i < |level| ==> IsNode(pre, level[i], k)
  }

  /** The parents of nodes of height `k` have height `k` + 1. */
  lemma {:induction false} ParentNodes(pre: set<seq<byte>>, level: seq<Digest>, k: nat)
    requires AllNodes(pre, level, k) && PairPreimages(Pad(level)) <= pre
    ensures AllNodes(pre, Parents(Pad(level)), k + 1)
  {
    hide IsNode, PairPreimages, Inner, Parents;
    var padded := Pad(level);
    forall i | 0 <= i < |Parents(padded)|
      ensures IsNode(pre, Parents(padded)[i], k + 1)
    {
      ParentsAt(padded, i);
      PairAt(padded, i);
      ParentNode(pre, padded[2 * i], padded[2 * i + 1], k);
    }
  }

  lemma {:induction false} ParentNode(pre: set<seq<byte>>, l: Digest, r: Digest, k: nat)
    requires Concat(l, r) in pre && IsNode(pre, l, k)
    ensures IsNode(pre, Inner(l, r), k + 1)
  {
  }

  /** The root of more than one node is higher than its leaves. */
  lemma {:induction false} RootHeight(pre: set<seq<byte>>, level: seq<Digest>, k: nat) returns (top: nat)
    requires level != [] && AllNodes(pre, level, k) && RootPreimages(level) <= pre
    ensures IsNode(pre, Root(level), top)
    ensures if |level| == 1 then top == k else top > k
    decreases |level|
  {
    hide IsNode, PairPreimages, Parents;
    if |level| == 1 {
      top := k;
    } else {
      ParentNodes(pre, level, k);
      top := RootHeight(pre, Parents(Pad(level)), k + 1);
    }
  }

  // ---------------------------------------------------------------- injectivity

  ghost predicate NoDuplicates(level: seq<Digest>) {
    forall i, j :: 0 <= i < j < |level| ==> level[i] != level[j]
  }

  /** Without duplicates below, there are none among the parents, although the last node may be paired with itself. */
  lemma {:induction false} ParentsDistinct(pre: set<seq<byte>>, level: seq<Digest>)
    requires CollisionFree(pre) && NoDuplicates(level) && PairPreimages(Pad(level)) <= pre
    ensures NoDuplicates(Parents(Pad(level)))
  {
    hide PairPreimages, Parents;
    var padded := Pad(level);
    forall i, j | 0 <= i < j < |Parents(padded)|
      ensures Parents(padded)[i] != Parents(padded)[j]
    {
      ParentsAt(padded, i);
      ParentsAt(padded, j);
      PairAt(padded, i);
      PairAt(padded, j);
      if Parents(padded)[i] == Parents(padded)[j] {
        SplitPair(padded[2 * i], padded[2 * i + 1], padded[2 * j], padded[2 * j + 1]);
      }
    }
  }

  lemma {:induction false} ParentsInjective(pre: set<seq<byte>>, a: seq<Digest>, b: seq<Digest>)
    requires CollisionFree(pre) && |a| % 2 == 0 && |b| % 2 == 0
    requires PairPreimages(a) <= pre && PairPreimages(b) <= pre && Parents(a) == Parents(b)
    ensures a == b
  {
    if a != [] {
      assert Parents(a)[0] == Parents(b)[0];
      assert Parents(a)[1..] == Parents(a[2..]) && Parents(b)[1..] == Parents(b[2..]);
      SplitPair(a[0], a[1], b[0], b[1]);
      ParentsInjective(pre, a[2..], b[2..]);
      assert a == [a[0], a[1]] + a[2..] && b == [b[0], b[1]] + b[2..];
    }
  }

  /** Two lists without duplicates that pad to the same level are the same. */
  lemma {:induction false} PadInjective(a: seq<Digest>, b: seq<Digest>)
    requires a != [] && b != [] && NoDuplicates(a) && NoDuplicates(b) && Pad(a) == Pad(b)
    ensures a == b
  {
    hide Pad;
    if |a| < |b| {
      PadRepeats(a, b);
    } else if |b| < |a| {
      PadRepeats(b, a);
    } else {
      PadPrefix(a);
      PadPrefix(b);
    }
  }

  lemma {:induction false} PadPrefix(a: seq<Digest>)
    ensures |Pad(a)| >= |a| && Pad(a)[..|a|] == a
  {
  }

  lemma {:induction false} PadRepeats(a: seq<Digest>, b: seq<Digest>)
    requires a != [] && |a| < |b| && Pad(a) == Pad(b)
    ensures b[|a| - 1] == b[|a|]
  {
    assert Pad(a)[|a|] == a[|a| - 1] == Pad(a)[|a| - 1];
    assert b[|a|] == Pad(b)[|a|] && b[|a| - 1] == Pad(b)[|a| - 1];
  }

  /** Equal roots mean equal lists, of whatever lengths. */
  lemma {:induction false} RootInjective(pre: set<seq<byte>>, a: seq<Digest>, b: seq<Digest>, k: nat)
    requires CollisionFree(pre) && a != [] && b != [] && NoDuplicates(a) && NoDuplicates(b)
    requires AllNodes(pre, a, k) && AllNodes(pre, b, k)
    requires RootPreimages(a) <= pre && RootPreimages(b) <= pre && Root(a) == Root(b)
    ensures a == b
    decreases |a|
  {
    hide IsNode, PairPreimages, Parents, NoDuplicates, AllNodes, CollisionFree;
    var topA := RootHeight(pre, a, k);
    var topB := RootHeight(pre, b, k);
    NodeHeight(pre, Root(a), topA, topB);
    if |a| == 1 {
      assert a == [a[0]] && b == [b[0]];
    } else {
      ParentNodes(pre, a, k);
      ParentNodes(pre, b, k);
      ParentsDistinct(pre, a);
      ParentsDistinct(pre, b);
      RootInjective(pre, Parents(Pad(a)), Parents(Pad(b)), k + 1);
      ParentsInjective(pre, Pad(a), Pad(b));
      PadInjective(a, b);
    }
  }

  // ---------------------------------------------------------------- blocks

  /** What is hashed to identify a block and to check its Merkle root. */
  function BlockPreimages(b: Block): set<seq<byte>> {
    {HeaderBytes(b.header)} + (set t | t in TxSet(b.txs) :: SerializeTransaction(t))
    + if b.txs == [] then {} else RootPreimages(TxIds(b.txs))
  }

  /** The block passes header and transaction validation somewhere. */
  ghost predicate PassesAt(b: Block, m: Utxos, verifier: Verifier, spendHeight: u64) {
    b.header.merkleRoot == MerkleRoot(b.txs) && BlockAccepted(b, m, verifier, spendHeight)
  }

  /** Every transaction of an accepted block has an input, so its bytes are not a pair of digests. */
  lemma {:induction false} AcceptedLeaf(b: Block, m: Utxos, verifier: Verifier, spendHeight: u64, i: nat)
    requires BlockAccepted(b, m, verifier, spendHeight) && i < |b.txs|
    ensures |SerializeTransaction(b.txs[i])| >= 80
  {
    hide SerializeTransaction;
    if i > 0 {
      AcceptedSpender(b.txs, i, |b.txs|, m, verifier, spendHeight);
      AcceptedInputs(b.txs[i], m, verifier, SpentBefore(b.txs, i), spendHeight);
    }
    SerializedSize(b.txs[i]);
  }

  lemma {:induction false} BlockLeaves(pre: set<seq<byte>>, b: Block, m: Utxos, verifier: Verifier, spendHeight: u64)
    requires BlockAccepted(b, m, verifier, spendHeight) && BlockPreimages(b) <= pre && CollisionFree(pre) &&
             SizedBlock(b)
    ensures AllNodes(pre, TxIds(b.txs), 0) && NoDuplicates(TxIds(b.txs))
  {
    hide SerializeTransaction, BlockAccepted, Sized, HeaderBytes, RootPreimages, TxIds;
    var ids := TxIds(b.txs);
    forall i | 0 <= i < |ids|
      ensures IsNode(pre, ids[i], 0)
    {
      AcceptedLeaf(b, m, verifier, spendHeight, i);
      LeafInBlock(b, i);
    }
    forall i, j | 0 <= i < j < |ids|
      ensures ids[i] != ids[j]
    {
      AcceptedDistinct(b, m, verifier, spendHeight, i, j);
      LeafInBlock(b, i);
      LeafInBlock(b, j);
      if SerializeTransaction(b.txs[i]) == SerializeTransaction(b.txs[j]) {
        SerializationIsInjective(b.txs[i], b.txs[j], [], []);
      }
    }
  }

  lemma {:induction false} LeafInBlock(b: Block, i: nat)
    requires i < |b.txs|
    ensures SerializeTransaction(b.txs[i]) in BlockPreimages(b)
    ensures TxIds(b.txs)[i] == Sha256d(SerializeTransaction(b.txs[i]))
  {
    hide SerializeTransaction, HeaderBytes, RootPreimages;
    assert b.txs[i] in TxSet(b.txs);
  }

  lemma {:induction false} IdsDetermineTxs(pre: set<seq<byte>>, a: seq<Transaction>, b: seq<Transaction>)
    requires CollisionFree(pre) && TxIds(a) == TxIds(b)
    requires forall i :: 0 <= i < |a| ==> SerializeTransaction(a[i]) in pre && Sized(a[i])
    requires forall i :: 0 <= i < |b| ==> SerializeTransaction(b[i]) in pre && Sized(b[i])
    ensures a == b
  {
    hide SerializeTransaction, Sized;
    forall i | 0 <= i < |a|
      ensures a[i] == b[i]
    {
      assert TxIds(a)[i] == TxIds(b)[i];
      SerializationIsInjective(a[i], b[i], [], []);
    }
  }

  /**
   * Two blocks that pass validation, each at any coins, verifier and height, and have the
   * same header hash are the same block, if the hash does not collide on what was
   * hashed for the two of them.
   */
  lemma {:induction false} HeaderHashDeterminesBlock(a: Block, b: Block, m: Utxos, m': Utxos, verifier: Verifier,
                                                     verifier': Verifier,
                                                     height: u64, height': u64)
    requires PassesAt(a, m, verifier, height) && PassesAt(b, m', verifier', height')
    requires SizedBlock(a) && SizedBlock(b)
    requires CollisionFree(BlockPreimages(a) + BlockPreimages(b))
    requires BlockHash(a) == BlockHash(b)
    ensures a == b
  {
    hide SerializeTransaction, BlockAccepted, Sized, HeaderBytes, RootPreimages, TxIds, Root, NoDuplicates, AllNodes,
         IsNode;
    var pre := BlockPreimages(a) + BlockPreimages(b);
    assert HeaderBytes(a.header) in pre && HeaderBytes(b.header) in pre;
    HeaderBytesInjective(a.header, b.header);
    BlockLeaves(pre, a, m, verifier, height);
    BlockLeaves(pre, b, m', verifier', height');
    AcceptedShape(a, m, verifier, height);
    AcceptedShape(b, m', verifier', height');
    RootInjective(pre, TxIds(a.txs), TxIds(b.txs), 0);
    forall i | 0 <= i < |a.txs|
      ensures SerializeTransaction(a.txs[i]) in pre
    {
      LeafInBlock(a, i);
    }
    forall i | 0 <= i < |b.txs|
      ensures SerializeTransaction(b.txs[i]) in pre
    {
      LeafInBlock(b, i);
    }
    IdsDetermineTxs(pre, a.txs, b.txs);
  }

  /**
   * Without the exclusion of duplicates it would fail: repeating the last of an odd
   * number of transactions, three or more, keeps the root.
   */
  lemma {:induction false} DuplicateKeepsRoot(txs: seq<Transaction>)
    requires |txs| >= 3 && |txs| % 2 == 1
    ensures MerkleRoot(txs + [txs[|txs| - 1]]) == MerkleRoot(txs)
  {
    hide TxId, Parents;
    var last := txs[|txs| - 1];
    var odd, even := TxIds(txs), TxIds(txs + [last]);
    assert even == odd + [TxId(last)];
    assert Pad(odd) == even == Pad(even);
  }

  /** A single transaction is the exception: its root is not that of the pair, unless the hash collides. */
  lemma {:induction false} SingleIsApart(t: Transaction)
    requires |t.inputs| > 0 && CollisionFree({SerializeTransaction(t), Concat(TxId(t), TxId(t))})
    ensures MerkleRoot([t, t]) != MerkleRoot([t])
  {
    hide SerializeTransaction, Parents;
    SerializedSize(t);
    var one, two := TxIds([t]), TxIds([t, t]);
    assert one == [TxId(t)] && two == [TxId(t), TxId(t)];
    assert Pad(two) == two;
    ParentsAt(two, 0);
    assert Parents(two) == [Inner(TxId(t), TxId(t))];
    assert Root(two) == Root(Parents(two)) == Inner(TxId(t), TxId(t));
  }
}
