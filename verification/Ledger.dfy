/**
 * What a block does to the set of unspent outputs, how the undo log takes it
 * back, and what it conserves (storage/storage.go, consensus/consensus.go).
 */
module Ledger {
  import opened Base
  import opened Tx
  import opened Blocks
  import opened Validation

  // ---------------------------------------------------------------- transition

  function OutpointAt(t: Transaction, i: nat): Outpoint {
    Outpoint(TxId(t), ToU32(i))
  }

  function CoinOf(t: Transaction, i: nat, height: u64, coinbase: bool): UTXO
    requires i < |t.outputs|
  {
    UTXO(TxId(t), ToU32(i), t.outputs[i].amount, t.outputs[i].lockingScript, height, coinbase)
  }

  /** Writes the first `n` outputs of `t`, in order. */
  function Create(m: Utxos, t: Transaction, height: u64, coinbase: bool, n: nat): Utxos
    requires n <= |t.outputs|
  {
    if n == 0 then m
    else Create(m, t, height, coinbase, n - 1)[OutpointAt(t, n - 1) := CoinOf(t, n - 1, height, coinbase)]
  }

  /** The outpoints that the outputs of `t` occupy. */
  function Created(t: Transaction): set<Outpoint> {
    set i | 0 <= i < |t.outputs| :: OutpointAt(t, i)
  }

  /** The outpoints `t` consumes: none for a coinbase, whose input is a marker. */
  function SpentBy(t: Transaction): set<Outpoint> {
    if IsCoinbase(t) then {} else AllOutpoints(t)
  }

  function ApplyTx(m: Utxos, t: Transaction, height: u64, first: bool): Utxos {
    Create(m - SpentBy(t), t, height, first, |t.outputs|)
  }

  /** The first `n` transactions of a block at `height`, one after the other. */
  function ApplyTxs(m: Utxos, txs: seq<Transaction>, n: nat, height: u64): Utxos
    requires n <= |txs|
  {
    if n == 0 then m else ApplyTx(ApplyTxs(m, txs, n - 1, height), txs[n - 1], height, n - 1 == 0)
  }

  /** The unspent outputs after a block. */
  function ApplyUtxos(m: Utxos, b: Block): Utxos {
    ApplyTxs(m, b.txs, |b.txs|, b.header.height)
  }

  function AllSpent(txs: seq<Transaction>, n: nat): set<Outpoint>
    requires n <= |txs|
  {
    if n == 0 then {} else AllSpent(txs, n - 1) + SpentBy(txs[n - 1])
  }

  function AllCreated(txs: seq<Transaction>, n: nat): set<Outpoint>
    requires n <= |txs|
  {
    if n == 0 then {} else AllCreated(txs, n - 1) + Created(txs[n - 1])
  }

  function BlockSpends(b: Block): set<Outpoint> {
    AllSpent(b.txs, |b.txs|)
  }

  function BlockCreates(b: Block): set<Outpoint> {
    AllCreated(b.txs, |b.txs|)
  }

  function KeyOf(u: UTXO): Outpoint {
    Outpoint(u.txHash, u.outputIdx)
  }

  /** Every coin sits under its own outpoint. */
  ghost predicate WellKeyed(m: Utxos) {
    forall o :: o in m ==> KeyOf(m[o]) == o
  }

  lemma {:induction false} CreateFrame(m: Utxos, t: Transaction, height: u64, coinbase: bool, n: nat)
    requires n <= |t.outputs|
    ensures forall o :: o in Create(m, t, height, coinbase, n) ==> o in m || o in Created(t)
    ensures forall o :: o in m ==> o in Create(m, t, height, coinbase, n)
    ensures forall o :: o in m && o !in Created(t) ==> Create(m, t, height, coinbase, n)[o] == m[o]
    ensures forall i :: 0 <= i < n ==> OutpointAt(t, i) in Create(m, t, height, coinbase, n)
    ensures WellKeyed(m) ==> WellKeyed(Create(m, t, height, coinbase, n))
  {
    hide TxId, ToU32;
    if n > 0 {
      CreateFrame(m, t, height, coinbase, n - 1);
      assert OutpointAt(t, n - 1) in Created(t);
    }
  }

  /** Each output is written as a coin of its amount and script, with the block's height and the coinbase mark. */
  lemma {:induction false} CreateAt(m: Utxos, t: Transaction, height: u64, coinbase: bool, n: nat, i: nat)
    requires i < n <= |t.outputs| <= TWO32
    ensures var o, out := Outpoint(TxId(t), i), t.outputs[i];
            var after := Create(m, t, height, coinbase, n);
            o in after && after[o] == UTXO(TxId(t), i, out.amount, out.lockingScript, height, coinbase)
  {
    hide TxId;
    if i < n - 1 {
      CreateAt(m, t, height, coinbase, n - 1, i);
    }
  }

  lemma {:induction false} ApplyTxFrame(m: Utxos, t: Transaction, height: u64, first: bool)
    ensures forall o :: o !in Created(t) ==> (o in ApplyTx(m, t, height, first) <==> o in m && o !in SpentBy(t))
    ensures forall o :: o !in Created(t) && o in ApplyTx(m, t, height, first) ==>
              ApplyTx(m, t, height, first)[o] == m[o]
    ensures Created(t) <= ApplyTx(m, t, height, first).Keys
    ensures WellKeyed(m) ==> WellKeyed(ApplyTx(m, t, height, first))
  {
    hide SpentBy;
    CreateFrame(m - SpentBy(t), t, height, first, |t.outputs|);
  }

  /** Outside the outpoints it creates, a block only removes what it spends. */
  lemma {:induction false} ApplyTxsFrame(m: Utxos, txs: seq<Transaction>, n: nat, height: u64)
    requires n <= |txs|
    ensures forall o :: o !in AllCreated(txs, n) ==>
              (o in ApplyTxs(m, txs, n, height) <==> o in m && o !in AllSpent(txs, n))
    ensures forall o :: o !in AllCreated(txs, n) && o in ApplyTxs(m, txs, n, height) ==>
              ApplyTxs(m, txs, n, height)[o] == m[o]
    ensures WellKeyed(m) ==> WellKeyed(ApplyTxs(m, txs, n, height))
  {
    hide SpentBy, Created, ApplyTx, WellKeyed;
    if n > 0 {
      ApplyTxsFrame(m, txs, n - 1, height);
      ApplyTxFrame(ApplyTxs(m, txs, n - 1, height), txs[n - 1], height, n - 1 == 0);
    }
  }

  // ---------------------------------------------------------------- undo

  /** The coins that the first `n` inputs of `t` find in `m`, in order. */
  function UndoInputs(m: Utxos, t: Transaction, n: nat): seq<UTXO>
    requires n <= |t.inputs|
  {
    if n == 0 then []
    else
      var o := OutpointOf(t.inputs[n - 1]);
      UndoInputs(m, t, n - 1) + if o in m then [m[o]] else []
  }

  function UndoTx(m: Utxos, t: Transaction): seq<UTXO> {
    if IsCoinbase(t) then [] else UndoInputs(m, t, |t.inputs|)
  }

  /** The undo log of the first `n` transactions, read from the state before the block. */
  function UndoTxs(m: Utxos, txs: seq<Transaction>, n: nat): seq<UTXO>
    requires n <= |txs|
  {
    if n == 0 then [] else UndoTxs(m, txs, n - 1) + UndoTx(m, txs[n - 1])
  }

  function UndoLog(m: Utxos, b: Block): seq<UTXO> {
    UndoTxs(m, b.txs, |b.txs|)
  }

  /** Writes the first `n` logged coins back, in order. */
  function Restore(m: Utxos, undo: seq<UTXO>, n: nat): Utxos
    requires n <= |undo|
  {
    if n == 0 then m else Restore(m, undo, n - 1)[KeyOf(undo[n - 1]) := undo[n - 1]]
  }

  /** The unspent outputs after disconnecting `b` with its undo log. */
  function DisconnectUtxos(m: Utxos, b: Block, undo: seq<UTXO>): Utxos {
    Restore(m - BlockCreates(b), undo, |undo|)
  }

  /** The log `undo` holds exactly the coins of `m` whose outpoints are in `spent`. */
  ghost predicate Logs(undo: seq<UTXO>, m: Utxos, spent: set<Outpoint>) {
    && (forall i :: 0 <= i < |undo| ==> KeyOf(undo[i]) in spent && KeyOf(undo[i]) in m && m[KeyOf(undo[i])] == undo[i])
    && (forall o :: o in spent && o in m ==> m[o] in undo)
  }

  lemma {:induction false} LogsConcat(a: seq<UTXO>, b: seq<UTXO>, m: Utxos, s: set<Outpoint>, t: set<Outpoint>)
    requires Logs(a, m, s) && Logs(b, m, t)
    ensures Logs(a + b, m, s + t)
  {
  }

  lemma {:induction false} UndoInputsLogs(m: Utxos, t: Transaction, n: nat)
    requires WellKeyed(m) && n <= |t.inputs|
    ensures Logs(UndoInputs(m, t, n), m, Outpoints(t, n))
  {
    if n > 0 {
      UndoInputsLogs(m, t, n - 1);
      var o := OutpointOf(t.inputs[n - 1]);
      LogsConcat(UndoInputs(m, t, n - 1), if o in m then [m[o]] else [], m, Outpoints(t, n - 1), {o});
      assert Outpoints(t, n) == Outpoints(t, n - 1) + {o};
    }
  }

  lemma {:induction false} UndoTxsLogs(m: Utxos, txs: seq<Transaction>, n: nat)
    requires WellKeyed(m) && n <= |txs|
    ensures Logs(UndoTxs(m, txs, n), m, AllSpent(txs, n))
  {
    if n > 0 {
      UndoTxsLogs(m, txs, n - 1);
      UndoInputsLogs(m, txs[n - 1], |txs[n - 1].inputs|);
      LogsConcat(UndoTxs(m, txs, n - 1), UndoTx(m, txs[n - 1]), m, AllSpent(txs, n - 1), SpentBy(txs[n - 1]));
    }
  }

  lemma {:induction false} RestoreFrame(base: Utxos, undo: seq<UTXO>, n: nat, m: Utxos)
    requires n <= |undo|
    requires forall i :: 0 <= i < |undo| ==> KeyOf(undo[i]) in m && m[KeyOf(undo[i])] == undo[i]
    ensures forall i :: 0 <= i < n ==> KeyOf(undo[i]) in Restore(base, undo, n)
    ensures forall o :: o in Restore(base, undo, n) ==>
              || (o in base && Restore(base, undo, n)[o] == base[o])
              || (o in m && m[o] in undo && Restore(base, undo, n)[o] == m[o])
    ensures forall o :: o in base ==> o in Restore(base, undo, n)
  {
    if n > 0 {
      RestoreFrame(base, undo, n - 1, m);
    }
  }

  /**
   * Disconnecting right after applying gives back the old coins, except those
   * whose outpoint the block wrote over without spending.
   */
  lemma {:induction false} UndoResult(m: Utxos, b: Block)
    requires WellKeyed(m)
    ensures DisconnectUtxos(ApplyUtxos(m, b), b, UndoLog(m, b)) == m - (BlockCreates(b) - BlockSpends(b))
  {
    hide AllSpent, AllCreated, ApplyTxs, UndoTxs;
    var after, undo := ApplyUtxos(m, b), UndoLog(m, b);
    var base := after - BlockCreates(b);
    ApplyTxsFrame(m, b.txs, |b.txs|, b.header.height);
    UndoTxsLogs(m, b.txs, |b.txs|);
    RestoreFrame(base, undo, |undo|, m);
    var got, want := Restore(base, undo, |undo|), m - (BlockCreates(b) - BlockSpends(b));
    forall o
      ensures o in got <==> o in want
      ensures o in got ==> got[o] == want[o]
    {
      if o in BlockSpends(b) && o in m {
        var i :| 0 <= i < |undo| && undo[i] == m[o];
        assert KeyOf(undo[i]) == o;
      }
      if o in m && m[o] in undo {
        var i :| 0 <= i < |undo| && undo[i] == m[o];
        assert KeyOf(undo[i]) == o;
      }
    }
    assert got.Keys == want.Keys;
  }

  /** Undo is exact if and only if the block writes over no coin that it does not spend. */
  lemma {:induction false} UndoIsExact(m: Utxos, b: Block)
    requires WellKeyed(m)
    ensures DisconnectUtxos(ApplyUtxos(m, b), b, UndoLog(m, b)) == m <==> BlockCreates(b) * m.Keys <= BlockSpends(b)
  {
    hide BlockCreates, BlockSpends, ApplyUtxos, UndoLog, DisconnectUtxos;
    UndoResult(m, b);
    var lost := BlockCreates(b) - BlockSpends(b);
    if BlockCreates(b) * m.Keys <= BlockSpends(b) {
      assert m - lost == m;
    } else {
      var o :| o in BlockCreates(b) * m.Keys && o !in BlockSpends(b);
      assert o !in m - lost;
    }
  }
}
