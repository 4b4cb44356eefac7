/**
 * Every transaction that `BuildTransaction` returns is valid and pays exactly
 * the requested fee.
 */
module Payment {
  import opened Base
  import opened Tx
  import opened Blocks
  import opened Validation
  import opened Ledger
  import opened Bech32Text
  import opened Chains
  import opened Balances
  import opened Addresses
  import opened Builder

  /** The outpoint that marks a coinbase input. */
  const NULL_OUTPOINT := Outpoint(ZERO_DIGEST, U32_MAX)

  /** No coin sits at the outpoint that marks a coinbase input, if the blocks of the chain can be read back. */
  lemma {:induction false} NullIsNoCoin(chain: seq<Block>)
    requires forall i :: 0 <= i < |chain| ==> Storable(chain[i])
    ensures NULL_OUTPOINT !in Replay(chain)
    decreases |chain|
  {
    hide ApplyUtxos, BlockCreates, BlockSpends, Storable;
    if chain != [] {
      NullIsNoCoin(Init(chain));
      var b := Last(chain);
      SmallIndices(b);
      hide Replay;
      AfterBlock(Replay(Init(chain)), b);
      assert Replay(chain) == ApplyUtxos(Replay(Init(chain)), b) by { LastReplay(chain); }
    }
  }

  lemma {:induction false} LastReplay(chain: seq<Block>)
    requires chain != []
    ensures Replay(chain) == ApplyUtxos(Replay(Init(chain)), Last(chain))
  {
  }

  lemma {:induction false} AfterBlock(m: Utxos, b: Block)
    ensures ApplyUtxos(m, b).Keys <= m.Keys + BlockCreates(b)
  {
    hide ApplyTxs, AllCreated;
    ApplyTxsFrame(m, b.txs, |b.txs|, b.header.height);
  }

  /** Output indices of a readable block stay below the limit of the reader. */
  lemma {:induction false} SmallIndices(b: Block)
    requires Storable(b)
    ensures forall o :: o in BlockCreates(b) ==> o.idx < MAX_OUTPUTS
  {
    hide AllCreated, TxId;
    CreatedByTx(b.txs, |b.txs|);
    forall o | o in BlockCreates(b)
      ensures o.idx < MAX_OUTPUTS
    {
      var i :| 0 <= i < |b.txs| && o in Created(b.txs[i]);
      assert InLimits(b.txs[i]);
    }
  }

  /** The wallet's locking script, once it decodes, is that of its key. */
  lemma {:induction false} OwnScript(w: Wallet)
    requires WalletOk(w) && LockingScript(w.address, w.prefix).Ok?
    ensures LockingScript(w.address, w.prefix).value == ScriptForPubKeyHash(Hash160(w.publicKey))
  {
    hide Address, HashOf, LowerAll;
    AddressRoundTrip(Hash160(w.publicKey), w.prefix);
    AcceptedPrefix(w.address, w.prefix);
  }

  lemma {:induction false} AcceptedPrefix(addr: seq<bv8>, prefix: seq<bv8>)
    requires HashOf(addr, prefix).Ok?
    ensures LowerAll(prefix) == prefix
  {
    hide LowerAll, Decoded, ConvertBits.Converted;
    DecodedPrefix(addr);
  }

  /** The coins are unspent, different and locked by `script`. */
  ghost predicate Spendable(coins: seq<UTXO>, utxos: Utxos, script: seq<byte>) {
    && (forall i :: 0 <= i < |coins| ==>
        KeyOf(coins[i]) in utxos && utxos[KeyOf(coins[i])] == coins[i] && coins[i].script == script)
    && (forall i, j :: 0 <= i < j < |coins| ==> KeyOf(coins[i]) != KeyOf(coins[j]))
  }

  lemma {:induction false} ListedAreSpendable(coins: seq<UTXO>, utxos: Utxos, script: seq<byte>, k: nat)
    requires ListsCoins(coins, Owned(utxos, script)) && k <= |coins|
    ensures Spendable(coins[..k], utxos, script)
  {
    forall i | 0 <= i < k
      ensures KeyOf(coins[i]) in utxos && utxos[KeyOf(coins[i])] == coins[i] && coins[i].script == script
    {
      assert KeyOf(coins[i]) in Owned(utxos, script);
    }
  }

  /** Input `i` spends coin `i`. */
  ghost predicate SpendsCoins(t: Transaction, coins: seq<UTXO>) {
    |t.inputs| == |coins| && forall i :: 0 <= i < |coins| ==> OutpointOf(t.inputs[i]) == KeyOf(coins[i])
  }

  lemma {:induction false} InputsAreCoins(t: Transaction, coins: seq<UTXO>, utxos: Utxos, script: seq<byte>, n: nat)
    requires SpendsCoins(t, coins) && Spendable(coins, utxos, script) && n <= |coins|
    ensures InputTotal(t, utxos, n) == SumCoins(coins, n)
  {
    if n > 0 {
      InputsAreCoins(t, coins, utxos, script, n - 1);
      assert OutpointOf(t.inputs[n - 1]) == KeyOf(coins[n - 1]);
    }
  }

  /** An input that spends a coin of the wallet is fine exactly if its signature is and the coin is mature. */
  lemma {:induction false} InputIsFine(t: Transaction, coins: seq<UTXO>, utxos: Utxos, script: seq<byte>, i: nat,
                                       spendHeight: u64)
    requires SpendsCoins(t, coins) && Spendable(coins, utxos, script) && i < |coins|
    requires SumCoins(coins, |coins|) <= U64_MAX && Verified(t, i, script)
    ensures InputFault(t, i, utxos, Some(Verified), {}, spendHeight).None? <==>
              MatureAt(utxos, OutpointOf(t.inputs[i]), spendHeight)
  {
    hide Verified, InputTotal, SumCoins;
    InputsAreCoins(t, coins, utxos, script, i);
    InputsAreCoins(t, coins, utxos, script, i + 1);
    SumMonotone(coins, i + 1, |coins|);
    InputTotalStep(t, utxos, i);
    assert OutpointOf(t.inputs[i]) == KeyOf(coins[i]);
    forall j | 0 <= j < i
      ensures OutpointOf(t.inputs[j]) != OutpointOf(t.inputs[i])
    {
      assert OutpointOf(t.inputs[j]) == KeyOf(coins[j]);
    }
  }

  lemma {:induction false} InputTotalStep(t: Transaction, utxos: Utxos, i: nat)
    requires i < |t.inputs|
    ensures InputTotal(t, utxos, i + 1) == InputTotal(t, utxos, i) + AmountAt(utxos, OutpointOf(t.inputs[i]))
  {
  }

  /** A signed input verifies, whatever is signed after it. */
  lemma {:induction false} SignedVerifies(draft: Transaction, w: Wallet, script: seq<byte>, i: nat)
    requires WalletOk(w) && script == ScriptForPubKeyHash(Hash160(w.publicKey))
    requires i < |draft.inputs| && SignatureFor(draft, w, script, i).Some?
    ensures Verified(Signed(draft, w, script, |draft.inputs|), i, script)
  {
    hide SignatureHash, Address;
    var t := Signed(draft, w, script, |draft.inputs|);
    ScriptRoundTrip(Hash160(w.publicKey), script);
    SignatureHashIgnoresSignatures(draft, t, i, script);
    assert t.inputs[i] == SignedInput(draft, w, script, i);
  }

  lemma {:induction false} DraftPays(t: Transaction, amount: u64, toScript: seq<byte>, change: nat,
                                     fromScript: seq<byte>)
    requires 0 < amount && amount + change <= U64_MAX
    requires t.outputs == [Output(amount, toScript)] + if change > 0 then [Output(change, fromScript)] else []
    ensures OutputsFine(t, |t.outputs|) && Pays(t) == amount + change
  {
    assert OutputTotal(t, 1) == OutputTotal(t, 0) + amount;
    if change > 0 {
      assert OutputTotal(t, 2) == OutputTotal(t, 1) + change;
    }
  }

  /** The parts of a built transaction. */
  lemma {:induction false} BuiltParts(w: Wallet, provider: seq<byte> -> seq<UTXO>, toAddress: seq<bv8>, amount: u64,
                                      fee: u64)
    returns (coins: seq<UTXO>, script: seq<byte>, toScript: seq<byte>, draft: Transaction)
    requires Built(w, provider, toAddress, amount, fee).Ok?
    ensures 0 < amount && amount + fee <= SumCoins(coins, |coins|) <= U64_MAX
    ensures LockingScript(w.address, w.prefix) == Ok(script) && LockingScript(toAddress, w.prefix) == Ok(toScript)
    ensures coins <= provider(script)
    ensures forall j :: 0 <= j < |coins| ==> SumCoins(coins, j) < amount + fee
    ensures draft == Draft(coins, amount, toScript, SumCoins(coins, |coins|) - amount - fee, script)
    ensures forall i :: 0 <= i < |draft.inputs| ==> SignatureFor(draft, w, script, i).Some?
    ensures Built(w, provider, toAddress, amount, fee) == Ok(Signed(draft, w, script, |draft.inputs|))
  {
    hide LockingScript, SignatureFor, Shortest, SumCoins;
    script, toScript := LockingScript(w.address, w.prefix).value, LockingScript(toAddress, w.prefix).value;
    var all := provider(script);
    var k := Shortest(all, amount + fee, 0);
    coins := all[..k];
    forall j | 0 <= j <= k
      ensures SumCoins(coins, j) == SumCoins(all, j)
    {
      SumPrefix(all, k, j);
    }
    draft := Draft(coins, amount, toScript, SumCoins(all, k) - amount - fee, script);
  }

  /**
   * A built transaction spends coins of the wallet only, pays the recipient the
   * amount and the rest to the wallet, and its inputs exceed its outputs by exactly the requested fee. It is
   * valid exactly if that fee reaches the minimum and the coins are mature.
   */
  lemma {:induction false} BuiltIsValid(w: Wallet, provider: seq<byte> -> seq<UTXO>, utxos: Utxos, toAddress: seq<bv8>,
                     amount: u64, fee: u64, spendHeight: u64)
    requires Built(w, provider, toAddress, amount, fee).Ok?
    requires WalletOk(w) && NULL_OUTPOINT !in utxos
    requires forall s :: ListsCoins(provider(s), Owned(utxos, s))
    ensures var t := Built(w, provider, toAddress, amount, fee).value;
            && Spends(t, utxos) == Pays(t) + fee
            && AllOutpoints(t) <= Owned(utxos, ScriptForPubKeyHash(Hash160(w.publicKey))).Keys
            && |t.outputs| > 0 && Ok(t.outputs[0].lockingScript) == LockingScript(toAddress, w.prefix) &&
                t.outputs[0].amount == amount
            && (|t.outputs| > 1 ==>
                  |t.outputs| == 2 && t.outputs[1].lockingScript == ScriptForPubKeyHash(Hash160(w.publicKey)))
            && t.version == 1 && t.lockTime == 0
            && (Accepts(t, utxos, Some(Verified), {}, spendHeight) <==>
                  MinFee(t) <= fee && forall o :: o in AllOutpoints(t) ==> MatureAt(utxos, o, spendHeight))
  {
    hide Built, LockingScript, SumCoins, SignatureFor, WalletOk, ListsCoins, Owned, InputTotal, OutputTotal, MinFee,
         InputFault, Verified, Signed, Draft;
    var coins, script, toScript, draft := BuiltParts(w, provider, toAddress, amount, fee);
    var t := Signed(draft, w, script, |draft.inputs|);
    OwnScript(w);
    assert coins == provider(script)[..|coins|];
    ListedAreSpendable(provider(script), utxos, script, |coins|);
    SignedParts(draft, w, script, coins, amount, toScript, SumCoins(coins, |coins|) - amount - fee);
    DraftPays(t, amount, toScript, SumCoins(coins, |coins|) - amount - fee, script);
    InputsAreCoins(t, coins, utxos, script, |coins|);
    OwnOutpoints(t, coins, utxos, script);
    NotCoinbase(t, coins, utxos, script, amount + fee);
    forall i | 0 <= i < |coins|
      ensures InputFault(t, i, utxos, Some(Verified), {}, spendHeight).None? <==>
                MatureAt(utxos, OutpointOf(t.inputs[i]), spendHeight)
    {
      SignedVerifies(draft, w, script, i);
      InputIsFine(t, coins, utxos, script, i, spendHeight);
    }
  }

  lemma {:induction false} SignedParts(draft: Transaction, w: Wallet, script: seq<byte>, coins: seq<UTXO>, amount: u64,
                                       toScript: seq<byte>, change: u64)
    requires draft == Draft(coins, amount, toScript, change, script)
    ensures var t := Signed(draft, w, script, |draft.inputs|);
            && SpendsCoins(t, coins) && |draft.inputs| == |coins| && t.version == 1 && t.lockTime == 0
            && t.outputs == [Output(amount, toScript)] + if change > 0 then [Output(change, script)] else []
  {
    hide SignatureFor;
  }

  lemma {:induction false} OwnOutpoints(t: Transaction, coins: seq<UTXO>, utxos: Utxos, script: seq<byte>)
    requires SpendsCoins(t, coins) && Spendable(coins, utxos, script)
    ensures AllOutpoints(t) <= Owned(utxos, script).Keys
  {
    forall i | 0 <= i < |coins|
      ensures OutpointOf(t.inputs[i]) in Owned(utxos, script)
    {
      assert OutpointOf(t.inputs[i]) == KeyOf(coins[i]);
    }
  }

  lemma {:induction false} NotCoinbase(t: Transaction, coins: seq<UTXO>, utxos: Utxos, script: seq<byte>, need: nat)
    requires SpendsCoins(t, coins) && Spendable(coins, utxos, script) && NULL_OUTPOINT !in utxos
    requires 0 < need <= SumCoins(coins, |coins|)
    ensures !IsCoinbase(t)
  {
    assert |coins| > 0;
    assert OutpointOf(t.inputs[0]) == KeyOf(coins[0]);
  }

  /**
   * `ValidateTransaction`, which ignores maturity, accepts a built transaction
   * exactly if the fee reaches the minimum.
   */
  lemma {:induction false} BuiltIsAccepted(w: Wallet, provider: seq<byte> -> seq<UTXO>, utxos: Utxos,
                                           toAddress: seq<bv8>, amount: u64, fee: u64)
    requires Built(w, provider, toAddress, amount, fee).Ok?
    requires WalletOk(w) && NULL_OUTPOINT !in utxos
    requires forall s :: ListsCoins(provider(s), Owned(utxos, s))
    ensures var t := Built(w, provider, toAddress, amount, fee).value;
            && (Accepts(t, utxos, Some(Verified), {}, U64_MAX) <==> MinFee(t) <= fee)
            && Spends(t, utxos) - Pays(t) == fee
  {
    hide Built, WalletOk, ListsCoins, Owned, Accepts, Spends, Pays, MinFee, AllOutpoints;
    BuiltIsValid(w, provider, utxos, toAddress, amount, fee, U64_MAX);
  }
}
