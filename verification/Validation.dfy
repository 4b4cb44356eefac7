/**
 * Transaction and block validation against a set of unspent outputs
 * (consensus/consensus.go).
 */
module Validation {
  import opened Base
  import opened Params
  import opened Tx
  import opened Blocks

  datatype UTXO = UTXO(txHash: Digest, outputIdx: u32, amount: u64, script: seq<byte>, height: u64, coinbase: bool)

  type Utxos = map<Outpoint, UTXO>

  /** A signature check of one input against the script it spends; `None` is the nil verifier. */
  type Verifier = Option<(Transaction, nat, seq<byte>) -> bool>

  datatype TxError =
    | InvalidCoinbase | DoubleSpend | MissingUtxo | ImmatureCoinbase | InvalidSignature
    | Inflation | DustOutput | FeeTooLow

  function BlockReward(height: u64): (r: u64) {
    var halvings := height / HALVING_INTERVAL;
    if halvings >= 64 then 0 else ShiftRight(INITIAL_REWARD, halvings)
  }

  function MinFee(t: Transaction): nat {
    |SerializeTransaction(t)| * MIN_RELAY_FEE_PER_BYTE
  }

  /** Not a coinbase coin, or one with enough confirmations at `spendHeight`. */
  ghost predicate MatureAt(utxos: Utxos, o: Outpoint, spendHeight: u64) {
    o in utxos && utxos[o].coinbase && spendHeight != U64_MAX ==>
      AddU64(utxos[o].height, COINBASE_MATURITY) <= spendHeight
  }

  // ---------------------------------------------------------------- one transaction

  /** The outpoints named by the first `n` inputs. */
  function Outpoints(t: Transaction, n: nat): (s: set<Outpoint>)
    requires n <= |t.inputs|
  {
    set i | 0 <= i < n :: OutpointOf(t.inputs[i])
  }

  function AllOutpoints(t: Transaction): set<Outpoint> {
    Outpoints(t, |t.inputs|)
  }

  function AmountAt(utxos: Utxos, o: Outpoint): nat {
    if o in utxos then utxos[o].amount else 0
  }

  /** The value of the first `n` inputs. */
  function InputTotal(t: Transaction, utxos: Utxos, n: nat): nat
    requires n <= |t.inputs|
  {
    if n == 0 then 0 else InputTotal(t, utxos, n - 1) + AmountAt(utxos, OutpointOf(t.inputs[n - 1]))
  }

  /** The value of the first `n` outputs. */
  function OutputTotal(t: Transaction, n: nat): nat
    requires n <= |t.outputs|
  {
    if n == 0 then 0 else OutputTotal(t, n - 1) + t.outputs[n - 1].amount
  }

  /** What is wrong with input `i`, given that the inputs before it are fine. */
  function InputFault(t: Transaction, i: nat, utxos: Utxos, verifier: Verifier, pending: set<Outpoint>,
                      spendHeight: u64)
    : Option<TxError>
    requires i < |t.inputs|
  {
    var o := OutpointOf(t.inputs[i]);
    if o in pending || o in Outpoints(t, i) then Some(DoubleSpend)
    else if o !in utxos then Some(MissingUtxo)
    else
      var u := utxos[o];
      if u.coinbase && spendHeight != U64_MAX &&
          spendHeight < AddU64(u.height, COINBASE_MATURITY) then Some(ImmatureCoinbase)
      else if verifier.Some? && !verifier.value(t, i, u.script) then Some(InvalidSignature)
      else if InputTotal(t, utxos, i) + u.amount > U64_MAX then Some(Inflation)
      else None
  }

  /** What is wrong with output `i`, given that the outputs before it are fine. */
  function OutputFault(t: Transaction, i: nat): Option<TxError>
    requires i < |t.outputs|
  {
    if t.outputs[i].amount == 0 then Some(DustOutput)
    else if OutputTotal(t, i) + t.outputs[i].amount > U64_MAX then Some(Inflation)
    else None
  }

  ghost predicate InputsFine(t: Transaction, n: nat, utxos: Utxos, verifier: Verifier, pending: set<Outpoint>,
                             spendHeight: u64)
    requires n <= |t.inputs|
  {
    forall i :: 0 <= i < n ==> InputFault(t, i, utxos, verifier, pending, spendHeight).None?
  }

  ghost predicate OutputsFine(t: Transaction, n: nat)
    requires n <= |t.outputs|
  {
    forall i :: 0 <= i < n ==> OutputFault(t, i).None?
  }

  function Spends(t: Transaction, utxos: Utxos): nat {
    InputTotal(t, utxos, |t.inputs|)
  }

  function Pays(t: Transaction): nat {
    OutputTotal(t, |t.outputs|)
  }

  /** The transaction is accepted at `utxos` when `pending` is already spent. */
  ghost predicate Accepts(t: Transaction, utxos: Utxos, verifier: Verifier, pending: set<Outpoint>, spendHeight: u64) {
    && !IsCoinbase(t)
    && InputsFine(t, |t.inputs|, utxos, verifier, pending, spendHeight)
    && OutputsFine(t, |t.outputs|)
    && Pays(t) + MinFee(t) <= Spends(t, utxos)
  }

  /** `e` is the first thing wrong with the transaction, in the order the code looks. */
  ghost predicate Rejects(t: Transaction, utxos: Utxos, verifier: Verifier, pending: set<Outpoint>, spendHeight: u64,
                          e: TxError) {
    if IsCoinbase(t) then e == InvalidCoinbase
    else if !InputsFine(t, |t.inputs|, utxos, verifier, pending, spendHeight) then
      exists i :: 0 <= i < |t.inputs| && InputsFine(t, i, utxos, verifier, pending, spendHeight)
                  && InputFault(t, i, utxos, verifier, pending, spendHeight) == Some(e)
    else if !OutputsFine(t, |t.outputs|) then
      exists i :: 0 <= i < |t.outputs| && OutputsFine(t, i) && OutputFault(t, i) == Some(e)
    else if Pays(t) > Spends(t, utxos) then e == Inflation
    else e == FeeTooLow && Pays(t) + MinFee(t) > Spends(t, utxos)
  }

  /** The coin of input `i` is there, mature, and released by the verifier. */
  ghost predicate Released(t: Transaction, i: nat, utxos: Utxos, verifier: Verifier, spendHeight: u64)
    requires i < |t.inputs|
  {
    var o := OutpointOf(t.inputs[i]);
    o in utxos && MatureAt(utxos, o, spendHeight) && (verifier.Some? ==> verifier.value(t, i, utxos[o].script))
  }

  /** The checks on one input, against the outpoints spent so far and the value so far. */
  method CheckInput(t: Transaction, i: nat, utxos: Utxos, verifier: Verifier, spent: set<Outpoint>, inputTotal: u64,
                    spendHeight: u64, ghost pending: set<Outpoint>)
    returns (fault: Option<TxError>)
    requires i < |t.inputs| && spent == pending + Outpoints(t, i) && inputTotal == InputTotal(t, utxos, i)
    ensures fault == InputFault(t, i, utxos, verifier, pending, spendHeight)
    ensures fault.None? ==> OutpointOf(t.inputs[i]) !in spent && Released(t, i, utxos, verifier, spendHeight)
  {
    hide Outpoints;
    var key := OutpointOf(t.inputs[i]);
    if key in spent {
      return Some(DoubleSpend);
    }
    if key !in utxos {
      return Some(MissingUtxo);
    }
    var u := utxos[key];
    if u.coinbase && spendHeight != U64_MAX && spendHeight < AddU64(u.height, COINBASE_MATURITY) {
      return Some(ImmatureCoinbase);
    }
    if verifier.Some? && !verifier.value(t, i, u.script) {
      return Some(InvalidSignature);
    }
    if U64_MAX - inputTotal < u.amount {
      return Some(Inflation);
    }
    return None;
  }

  /** A sound input adds its coin's value. */
  lemma {:induction false} SoundInput(t: Transaction, i: nat, utxos: Utxos, verifier: Verifier, pending: set<Outpoint>,
                                      spendHeight: u64)
    requires i < |t.inputs| && InputFault(t, i, utxos, verifier, pending, spendHeight).None?
    ensures OutpointOf(t.inputs[i]) in utxos
    ensures InputTotal(t, utxos, i + 1) == InputTotal(t, utxos, i) + utxos[OutpointOf(t.inputs[i])].amount <= U64_MAX
    ensures Outpoints(t, i + 1) == Outpoints(t, i) + {OutpointOf(t.inputs[i])}
  {
  }

  /**
   * `ValidateTransactionAt`. The caller's `pendingSpent` map is returned with the
   * inputs added to it.
   */
  method ValidateTransactionAt(t: Transaction, utxos: Utxos, verifier: Verifier, pendingSpent: set<Outpoint>,
                               spendHeight: u64)
    returns (r: Result<u64, TxError>, pendingSpent': set<Outpoint>)
    ensures r.Ok? <==> Accepts(t, utxos, verifier, pendingSpent, spendHeight)
    ensures r.Ok? ==> r.value == Spends(t, utxos) - Pays(t)
    ensures r.Ok? ==> pendingSpent' == pendingSpent + AllOutpoints(t)
    ensures r.Ok? ==> forall i :: 0 <= i < |t.inputs| ==> Released(t, i, utxos, verifier, spendHeight)
    ensures r.Err? ==> Rejects(t, utxos, verifier, pendingSpent, spendHeight, r.error)
  {
    hide InputFault, InputTotal, Outpoints, MinFee, IsCoinbase, Released;
    pendingSpent' := pendingSpent;
    if IsCoinbase(t) {
      return Err(InvalidCoinbase), pendingSpent';
    }
    var inputTotal: u64, outputTotal: u64 := 0, 0;
    NoInputs(t, utxos);
    for i := 0 to |t.inputs|
      invariant InputsFine(t, i, utxos, verifier, pendingSpent, spendHeight)
      invariant forall j :: 0 <= j < i ==> Released(t, j, utxos, verifier, spendHeight)
      invariant pendingSpent' == pendingSpent + Outpoints(t, i)
      invariant inputTotal == InputTotal(t, utxos, i)
    {
      var key := OutpointOf(t.inputs[i]);
      var fault := CheckInput(t, i, utxos, verifier, pendingSpent', inputTotal, spendHeight, pendingSpent);
      if fault.Some? {
        return Err(fault.value), pendingSpent';
      }
      SoundInput(t, i, utxos, verifier, pendingSpent, spendHeight);
      inputTotal := inputTotal + utxos[key].amount;
      pendingSpent' := pendingSpent' + {key};
    }
    for i := 0 to |t.outputs|
      invariant OutputsFine(t, i)
      invariant outputTotal == OutputTotal(t, i)
    {
      ghost var fault := OutputFault(t, i);
      if t.outputs[i].amount == 0 {
        assert fault == Some(DustOutput);
        return Err(DustOutput), pendingSpent';
      }
      if U64_MAX - outputTotal < t.outputs[i].amount {
        assert fault == Some(Inflation);
        return Err(Inflation), pendingSpent';
      }
      outputTotal := outputTotal + t.outputs[i].amount;
    }
    if outputTotal > inputTotal {
      return Err(Inflation), pendingSpent';
    }
    var fee := inputTotal - outputTotal;
    if fee < MinFee(t) {
      return Err(FeeTooLow), pendingSpent';
    }
    return Ok(fee), pendingSpent';
  }

  lemma {:induction false} NoInputs(t: Transaction, utxos: Utxos)
    ensures Outpoints(t, 0) == {} && InputTotal(t, utxos, 0) == 0
  {
  }

  // ---------------------------------------------------------------- one block

  /** The outpoints spent by transactions 1 to `n` - 1. */
  function SpentBefore(txs: seq<Transaction>, n: nat): set<Outpoint>
    requires n <= |txs|
  {
    if n <= 1 then {} else SpentBefore(txs, n - 1) + AllOutpoints(txs[n - 1])
  }

  /** The fees of transactions 1 to `n` - 1. */
  function FeesBefore(txs: seq<Transaction>, utxos: Utxos, n: nat): int
    requires n <= |txs|
  {
    if n <= 1 then 0 else FeesBefore(txs, utxos, n - 1) + Spends(txs[n - 1], utxos) - Pays(txs[n - 1])
  }

  /** Transactions 1 to `n` - 1 are accepted one after the other and their fees add up without overflow. */
  ghost predicate SpendersFine(txs: seq<Transaction>, n: nat, utxos: Utxos, verifier: Verifier, spendHeight: u64)
    requires n <= |txs|
  {
    n > 1 ==>
      && SpendersFine(txs, n - 1, utxos, verifier, spendHeight)
      && Accepts(txs[n - 1], utxos, verifier, SpentBefore(txs, n - 1), spendHeight)
      && FeesBefore(txs, utxos, n) <= U64_MAX
  }

  /** `ValidateBlockTransactionsAt` accepts the block. The sum of reward and fees is the machine sum, which may wrap. */
  ghost predicate BlockAccepted(b: Block, utxos: Utxos, verifier: Verifier, spendHeight: u64) {
    && |b.txs| > 0 && IsCoinbase(b.txs[0])
    && SpendersFine(b.txs, |b.txs|, utxos, verifier, spendHeight)
    && Pays(b.txs[0]) <= U64_MAX
    && Pays(b.txs[0]) <= (BlockReward(b.header.height) + FeesBefore(b.txs, utxos, |b.txs|)) % TWO64
  }

  lemma {:induction false} SpendersFinePrefix(txs: seq<Transaction>, i: nat, n: nat, utxos: Utxos, verifier: Verifier,
                                              spendHeight: u64)
    requires i <= n <= |txs|
    ensures SpendersFine(txs, n, utxos, verifier, spendHeight) ==> SpendersFine(txs, i, utxos, verifier, spendHeight)
  {
    hide Accepts;
    if i < n {
      SpendersFinePrefix(txs, i, n - 1, utxos, verifier, spendHeight);
    }
  }

  /** The running sums that keep the machine sum in range also hold for shorter prefixes. */
  lemma {:induction false} OutputTotalMonotone(t: Transaction, i: nat, n: nat)
    requires i <= n <= |t.outputs|
    ensures OutputTotal(t, i) <= OutputTotal(t, n)
  {
    if i < n {
      OutputTotalMonotone(t, i, n - 1);
    }
  }

  /** `e` is the first thing wrong with the block's transactions, in the order the code looks. */
  ghost predicate BlockRejected(b: Block, utxos: Utxos, verifier: Verifier, spendHeight: u64, e: TxError) {
    if |b.txs| == 0 || !IsCoinbase(b.txs[0]) then e == InvalidCoinbase
    else if !SpendersFine(b.txs, |b.txs|, utxos, verifier, spendHeight) then
      exists i :: SpenderRejected(b.txs, i, utxos, verifier, spendHeight, e)
    else if Pays(b.txs[0]) > U64_MAX then e == Inflation
    else e == InvalidCoinbase
  }

  ghost predicate SpenderRejected(txs: seq<Transaction>, i: int, utxos: Utxos, verifier: Verifier, spendHeight: u64,
                                  e: TxError) {
    && 1 <= i < |txs|
    && SpendersFine(txs, i, utxos, verifier, spendHeight)
    && if Accepts(txs[i], utxos, verifier, SpentBefore(txs, i), spendHeight)
       then FeesBefore(txs, utxos, i + 1) > U64_MAX && e == Inflation
       else Rejects(txs[i], utxos, verifier, SpentBefore(txs, i), spendHeight, e)
  }

  /** The loop of `ValidateBlockTransactionsAt` over the transactions after the coinbase. */
  method ValidateSpenders(txs: seq<Transaction>, utxos: Utxos, verifier: Verifier, spendHeight: u64)
    returns (r: Result<u64, TxError>)
    requires |txs| > 0
    ensures r.Ok? <==> SpendersFine(txs, |txs|, utxos, verifier, spendHeight)
    ensures r.Ok? ==> r.value == FeesBefore(txs, utxos, |txs|)
    ensures r.Err? ==> exists i :: SpenderRejected(txs, i, utxos, verifier, spendHeight, r.error)
  {
    hide Accepts, Rejects;
    var fees: u64 := 0;
    var spent: set<Outpoint> := {};
    for i := 1 to |txs|
      invariant SpendersFine(txs, i, utxos, verifier, spendHeight)
      invariant spent == SpentBefore(txs, i)
      invariant fees == FeesBefore(txs, utxos, i)
    {
      SpendersFinePrefix(txs, i + 1, |txs|, utxos, verifier, spendHeight);
      var verdict, spent' := ValidateTransactionAt(txs[i], utxos, verifier, spent, spendHeight);
      if verdict.Err? {
        assert SpenderRejected(txs, i, utxos, verifier, spendHeight, verdict.error);
        return Err(verdict.error);
      }
      if U64_MAX - fees < verdict.value {
        assert SpenderRejected(txs, i, utxos, verifier, spendHeight, Inflation);
        return Err(Inflation);
      }
      fees := fees + verdict.value;
      spent := spent';
      assert fees == FeesBefore(txs, utxos, i + 1);
    }
    return Ok(fees);
  }

  /** Adding up the coinbase outputs with an overflow check. */
  method SumOutputs(t: Transaction) returns (r: Result<u64, TxError>)
    ensures r == if Pays(t) <= U64_MAX then Ok(Pays(t)) else Err(Inflation)
  {
    var total: u64 := 0;
    for i := 0 to |t.outputs|
      invariant total == OutputTotal(t, i)
    {
      OutputTotalMonotone(t, i + 1, |t.outputs|);
      if U64_MAX - total < t.outputs[i].amount {
        return Err(Inflation);
      }
      total := total + t.outputs[i].amount;
    }
    return Ok(total);
  }

  /** `ValidateBlockTransactionsAt`. */
  method ValidateBlockTransactionsAt(b: Block, utxos: Utxos, verifier: Verifier, spendHeight: u64)
    returns (r: Result<(), TxError>)
    ensures r.Ok? <==> BlockAccepted(b, utxos, verifier, spendHeight)
    ensures r.Err? ==> BlockRejected(b, utxos, verifier, spendHeight, r.error)
  {
    hide Accepts, Rejects, IsCoinbase, SpendersFine, SpenderRejected, Pays;
    if |b.txs| == 0 || !IsCoinbase(b.txs[0]) {
      return Err(InvalidCoinbase);
    }
    var reward := BlockReward(b.header.height);
    var fees := ValidateSpenders(b.txs, utxos, verifier, spendHeight);
    if fees.Err? {
      return Err(fees.error);
    }
    var coinbaseOut := SumOutputs(b.txs[0]);
    if coinbaseOut.Err? {
      return Err(coinbaseOut.error);
    }
    if coinbaseOut.value > AddU64(reward, fees.value) {
      return Err(InvalidCoinbase);
    }
    return Ok(());
  }
}
