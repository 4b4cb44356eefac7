/**
 * The block store (storage/storage.go): a key/value store changed by ordered
 * batches, with an undo log per block.
 */
module Storage {
  import opened Base
  import opened Tx
  import opened Blocks
  import opened Validation
  import opened Ledger

  /** The contents of the store, one map per key prefix. */
  datatype State = State(
    blocks: map<Digest, Block>,
    index: map<u64, Digest>,
    utxo: Utxos,
    undo: map<Digest, seq<UTXO>>,
    work: map<Digest, nat>,
    tip: Option<Digest>)

  const EMPTY: State := State(map[], map[], map[], map[], map[], None)

  /** `GetBlock` decodes the stored bytes, which fails for a block beyond the reader's limits. */
  function GetBlock(st: State, hash: Digest): Option<Block> {
    if hash in st.blocks && Storable(st.blocks[hash]) then Some(st.blocks[hash]) else None
  }

  function TipBlock(st: State): Option<Block> {
    if st.tip.None? then None else GetBlock(st, st.tip.value)
  }

  /** `HeaderByHeight`: through the height index to the block. */
  function HeaderAt(st: State, height: u64): Option<Header> {
    if height !in st.index then None
    else
      var b := GetBlock(st, st.index[height]);
      if b.None? then None else Some(b.value.header)
  }

  /** The state after `ApplyBlock`. */
  function ApplyBlock(st: State, b: Block): State {
    var hash := BlockHash(b);
    st.(undo := st.undo[hash := UndoLog(st.utxo, b)],
        blocks := st.blocks[hash := b],
        index := st.index[b.header.height := hash],
        utxo := ApplyUtxos(st.utxo, b),
        tip := Some(hash))
  }

  function PutTotalWork(st: State, hash: Digest, work: nat): State {
    st.(work := st.work[hash := work])
  }

  /**
   * The block that `DisconnectTip` takes off and the state it leaves; it fails if the
   * tip, its block or its undo log is missing.
   */
  function DisconnectTip(st: State): Option<(Block, State)> {
    var b := TipBlock(st);
    if b.None? || st.tip.value !in st.undo then None
    else
      var prev := if b.value.header.height == 0 then None else Some(b.value.header.prevHash);
      Some((b.value, st.(utxo := DisconnectUtxos(st.utxo, b.value, st.undo[st.tip.value]), tip := prev)))
  }

  // ---------------------------------------------------------------- batches

  datatype Op =
    | SetUndo(hash: Digest, log: seq<UTXO>)
    | SetBlock(hash: Digest, block: Block)
    | SetHeight(height: u64, hash: Digest)
    | SetCoin(outpoint: Outpoint, coin: UTXO)
    | DeleteCoin(outpoint: Outpoint)
    | SetTip(hash: Digest)
    | DeleteTip

  function Step(st: State, op: Op): State {
    match op
    case SetUndo(hash, log) => st.(undo := st.undo[hash := log])
    case SetBlock(hash, block) => st.(blocks := st.blocks[hash := block])
    case SetHeight(height, hash) => st.(index := st.index[height := hash])
    case SetCoin(o, u) => st.(utxo := st.utxo[o := u])
    case DeleteCoin(o) => st.(utxo := st.utxo - {o})
    case SetTip(hash) => st.(tip := Some(hash))
    case DeleteTip => st.(tip := None)
  }

  /** The first `n` operations of a batch, in order. */
  function Committed(st: State, batch: seq<Op>): State
    decreases |batch|
  {
    if batch == [] then st else Step(Committed(st, batch[..|batch| - 1]), batch[|batch| - 1])
  }

  lemma {:induction false} CommittedAppend(st: State, batch: seq<Op>, op: Op)
    ensures Committed(st, batch + [op]) == Step(Committed(st, batch), op)
  {
    assert (batch + [op])[..|batch|] == batch;
  }

  lemma {:induction false} CommittedOne(st: State, op: Op)
    ensures Committed(st, [op]) == Step(st, op)
  {
    assert Committed(st, [op][..0]) == st;
  }

  lemma {:induction false} CommittedNone(st: State)
    ensures Committed(st, []) == st
  {
  }

  // ---------------------------------------------------------------- the store object

  class DB {
    var blocks: map<Digest, Block>
    var index: map<u64, Digest>
    var utxo: Utxos
    var undo: map<Digest, seq<UTXO>>
    var work: map<Digest, nat>
    var tip: Option<Digest>

    function View(): State
      reads this
    {
      State(blocks, index, utxo, undo, work, tip)
    }

    /** `Open` on an empty directory. */
    constructor ()
      ensures View() == EMPTY
    {
      blocks, index, utxo, undo, work, tip := map[], map[], map[], map[], map[], None;
    }

    /** `Batch.Commit`: the operations take effect in the order they were added. */
    method Commit(batch: seq<Op>)
      modifies this
      ensures View() == Committed(old(View()), batch)
    {
      for i := 0 to |batch|
        invariant View() == Committed(old(View()), batch[..i])
      {
        assert batch[..i + 1] == batch[..i] + [batch[i]];
        CommittedAppend(old(View()), batch[..i], batch[i]);
        match batch[i]
        case SetUndo(hash, log) => undo := undo[hash := log];
        case SetBlock(hash, block) => blocks := blocks[hash := block];
        case SetHeight(height, hash) => index := index[height := hash];
        case SetCoin(o, u) => utxo := utxo[o := u];
        case DeleteCoin(o) => utxo := utxo - {o};
        case SetTip(hash) => tip := Some(hash);
        case DeleteTip => tip := None;
      }
      assert batch[..|batch|] == batch;
    }

    method SetTotalWork(hash: Digest, total: nat)
      modifies this
      ensures View() == PutTotalWork(old(View()), hash, total)
    {
      work := work[hash := total];
    }

    /** The first loop of `ApplyBlock`: the coins that the inputs find in the store. */
    method CollectUndo(txs: seq<Transaction>) returns (log: seq<UTXO>)
      ensures log == UndoTxs(utxo, txs, |txs|)
    {
      log := [];
      for i := 0 to |txs|
        invariant log == UndoTxs(utxo, txs, i)
      {
        var t := txs[i];
        if !IsCoinbase(t) {
          ghost var before := log;
          for j := 0 to |t.inputs|
            invariant log == before + UndoInputs(utxo, t, j)
          {
            var o := OutpointOf(t.inputs[j]);
            if o in utxo {
              log := log + [utxo[o]];
            }
          }
        }
      }
    }

    /** Adds the operations of one transaction: delete what it spends, then write what it creates. */
    method TransactionOps(batch: seq<Op>, t: Transaction, height: u64, first: bool, ghost base: State)
      returns (out: seq<Op>)
      ensures Committed(base, out) ==
                Committed(base, batch).(utxo := ApplyTx(Committed(base, batch).utxo, t, height, first))
    {
      hide Committed, Create, AllOutpoints, IsCoinbase, Outpoints;
      out := batch;
      if !IsCoinbase(t) {
        out := SpendOps(batch, t, base);
      }
      ghost var start := Committed(base, out);
      assert start.utxo == Committed(base, batch).utxo - SpentBy(t);
      out := CreateOps(out, t, height, first, base);
    }

    /** The coins a transaction spends are deleted. */
    method SpendOps(batch: seq<Op>, t: Transaction, ghost base: State) returns (out: seq<Op>)
      ensures Committed(base, out) == Committed(base, batch).(utxo := Committed(base, batch).utxo - AllOutpoints(t))
    {
      hide Committed;
      out := batch;
      ghost var start := Committed(base, batch);
      for i := 0 to |t.inputs|
        invariant Committed(base, out) == start.(utxo := start.utxo - Outpoints(t, i))
      {
        CommittedAppend(base, out, DeleteCoin(OutpointOf(t.inputs[i])));
        assert Outpoints(t, i + 1) == Outpoints(t, i) + {OutpointOf(t.inputs[i])};
        assert start.utxo - Outpoints(t, i + 1) == start.utxo - Outpoints(t, i) - {OutpointOf(t.inputs[i])};
        out := out + [DeleteCoin(OutpointOf(t.inputs[i]))];
      }
    }

    /** The coins a transaction creates are written. */
    method CreateOps(batch: seq<Op>, t: Transaction, height: u64, first: bool, ghost base: State) returns (out: seq<Op>)
      ensures Committed(base, out) ==
                Committed(base, batch).(utxo := Create(Committed(base, batch).utxo, t, height, first, |t.outputs|))
    {
      hide Committed, OutpointAt, CoinOf;
      out := batch;
      ghost var start := Committed(base, batch);
      for i := 0 to |t.outputs|
        invariant Committed(base, out) == start.(utxo := Create(start.utxo, t, height, first, i))
      {
        CommittedAppend(base, out, SetCoin(OutpointAt(t, i), CoinOf(t, i, height, first)));
        out := out + [SetCoin(OutpointAt(t, i), CoinOf(t, i, height, first))];
      }
    }

    /** The batch of `ApplyBlock`: the undo log, the block, the index entry, all coins and the tip. */
    method ApplyBatch(b: Block) returns (batch: seq<Op>)
      ensures Committed(View(), batch) == ApplyBlock(View(), b)
    {
      hide Committed, BlockHash, ApplyTx, UndoTxs;
      var log := CollectUndo(b.txs);
      ghost var base := View();
      var hash := BlockHash(b);
      batch := [SetUndo(hash, log)];
      CommittedOne(base, SetUndo(hash, log));
      CommittedAppend(base, batch, SetBlock(hash, b));
      batch := batch + [SetBlock(hash, b)];
      CommittedAppend(base, batch, SetHeight(b.header.height, hash));
      batch := batch + [SetHeight(b.header.height, hash)];
      ghost var prepared := Committed(base, batch);
      for i := 0 to |b.txs|
        invariant Committed(base, batch) == prepared.(utxo := ApplyTxs(base.utxo, b.txs, i, b.header.height))
      {
        batch := TransactionOps(batch, b.txs[i], b.header.height, i == 0, base);
      }
      CommittedAppend(base, batch, SetTip(hash));
      batch := batch + [SetTip(hash)];
    }

    /** `ApplyBlock`. */
    method Apply(b: Block)
      modifies this
      ensures View() == ApplyBlock(old(View()), b)
    {
      var batch := ApplyBatch(b);
      Commit(batch);
    }

    /** Adds the deletions of one transaction's outputs. */
    method RemovalOps(batch: seq<Op>, t: Transaction, ghost base: State) returns (out: seq<Op>)
      ensures Committed(base, out) == Committed(base, batch).(utxo := Committed(base, batch).utxo - Created(t))
    {
      hide Committed, TxId, ToU32;
      out := batch;
      ghost var start := Committed(base, batch);
      ghost var gone: set<Outpoint> := {};
      assert start.utxo - gone == start.utxo;
      for i := 0 to |t.outputs|
        invariant gone == set j | 0 <= j < i :: OutpointAt(t, j)
        invariant Committed(base, out) == start.(utxo := start.utxo - gone)
      {
        CommittedAppend(base, out, DeleteCoin(OutpointAt(t, i)));
        out := out + [DeleteCoin(OutpointAt(t, i))];
        assert start.utxo - (gone + {OutpointAt(t, i)}) == start.utxo - gone - {OutpointAt(t, i)};
        gone := gone + {OutpointAt(t, i)};
      }
      assert gone == Created(t);
    }

    /** The batch of `DisconnectTip`: delete what the tip created, restore its undo log, move the tip back. */
    method DisconnectBatch(b: Block, log: seq<UTXO>) returns (batch: seq<Op>)
      ensures Committed(View(), batch) ==
                View().(utxo := DisconnectUtxos(utxo, b, log),
                        tip := if b.header.height == 0 then None else Some(b.header.prevHash))
    {
      hide Committed, Created;
      ghost var base := View();
      batch := [];
      CommittedNone(base);
      assert base.utxo - AllCreated(b.txs, 0) == base.utxo;
      for i := 0 to |b.txs|
        invariant Committed(base, batch) == base.(utxo := base.utxo - AllCreated(b.txs, i))
      {
        batch := RemovalOps(batch, b.txs[i], base);
        assert base.utxo - AllCreated(b.txs, i + 1) == base.utxo - AllCreated(b.txs, i) - Created(b.txs[i]);
      }
      for i := 0 to |log|
        invariant Committed(base, batch) == base.(utxo := Restore(base.utxo - BlockCreates(b), log, i))
      {
        CommittedAppend(base, batch, SetCoin(KeyOf(log[i]), log[i]));
        batch := batch + [SetCoin(KeyOf(log[i]), log[i])];
      }
      var move := if b.header.height == 0 then DeleteTip else SetTip(b.header.prevHash);
      CommittedAppend(base, batch, move);
      batch := batch + [move];
    }

    /** `DisconnectTip`. */
    method Disconnect() returns (r: Option<Block>)
      modifies this
      ensures DisconnectTip(old(View())).None? ==> r.None? && View() == old(View())
      ensures DisconnectTip(old(View())).Some? ==>
                r == Some(DisconnectTip(old(View())).value.0) && View() == DisconnectTip(old(View())).value.1
    {
      if tip.None? || GetBlock(View(), tip.value).None? || tip.value !in undo {
        return None;
      }
      var b := blocks[tip.value];
      var batch := DisconnectBatch(b, undo[tip.value]);
      Commit(batch);
      return Some(b);
    }
  }
}
