/**
 * Signing, signature checks and building payments (wallet/wallet.go,
 * wallet/builder.go).
 */
module Builder {
  import opened Base
  import opened Tx
  import opened Validation
  import opened Balances
  import opened Addresses

  // ---------------------------------------------------------------- signature hashes

  function Blank(i: Input): Input {
    i.(signature := [], publicKey := [])
  }

  function BlankAll(ins: seq<Input>): (r: seq<Input>)
    ensures |r| == |ins| && forall i :: 0 <= i < |ins| ==> r[i] == Blank(ins[i])
  {
    seq(|ins|, i requires 0 <= i < |ins| => Blank(ins[i]))
  }

  /** The copy that is hashed: no signatures and keys, and the script in place of the signature of one input. */
  function HashedCopy(t: Transaction, index: int, script: seq<byte>): Transaction {
    var ins := BlankAll(t.inputs);
    t.(inputs := if 0 <= index < |ins| then ins[index := ins[index].(signature := script)] else ins)
  }

  function SignatureHash(t: Transaction, index: int, script: seq<byte>): Digest {
    Sha256d(SerializeTransaction(HashedCopy(t, index, script)))
  }

  /** The inputs with `script` as the signature of input `index`, and no other signature or key. */
  function Marked(ins: seq<Input>, index: int, script: seq<byte>): (r: seq<Input>)
    ensures |r| == |ins|
    ensures forall i :: 0 <= i < |ins| ==>
              r[i] == Input(ins[i].prevTxHash, ins[i].outputIdx, if i == index then script else [], [])
  {
    seq(|ins|, i requires 0 <= i < |ins| =>
      Input(ins[i].prevTxHash, ins[i].outputIdx, if i == index then script else [], []))
  }

  /** The bytes that are hashed for a signature. */
  function SignedBytes(t: Transaction, index: int, script: seq<byte>): seq<byte> {
    SerializeTransaction(Transaction(t.version, Marked(t.inputs, index, script), t.outputs, t.lockTime))
  }

  lemma {:induction false} HashIsOfSignedBytes(t: Transaction, index: int, script: seq<byte>)
    ensures SignatureHash(t, index, script) == Sha256d(SignedBytes(t, index, script))
  {
    hide SerializeTransaction;
    assert HashedCopy(t, index, script).inputs == Marked(t.inputs, index, script);
  }

  method ComputeSignatureHash(t: Transaction, index: int, script: seq<byte>) returns (h: Digest)
    ensures h == SignatureHash(t, index, script) == Sha256d(SignedBytes(t, index, script))
  {
    hide SerializeTransaction, SignedBytes;
    HashIsOfSignedBytes(t, index, script);
    var inputs := t.inputs;
    for i := 0 to |inputs|
      invariant |inputs| == |t.inputs|
      invariant forall j :: 0 <= j < |inputs| ==> inputs[j] == if j < i then Blank(t.inputs[j]) else t.inputs[j]
    {
      inputs := inputs[i := inputs[i].(signature := [], publicKey := [])];
    }
    assert inputs == BlankAll(t.inputs);
    if 0 <= index < |inputs| {
      inputs := inputs[index := inputs[index].(signature := script)];
    }
    h := Sha256d(SerializeTransaction(t.(inputs := inputs)));
  }

  /** The same payment: equal but for signatures and keys. */
  ghost predicate SamePayment(t: Transaction, u: Transaction) {
    && t.version == u.version && t.outputs == u.outputs && t.lockTime == u.lockTime
    && |t.inputs| == |u.inputs|
    && forall i :: 0 <= i < |t.inputs| ==> OutpointOf(t.inputs[i]) == OutpointOf(u.inputs[i])
  }

  /** Signing one input leaves the hashes of all inputs as they were. */
  lemma {:induction false} SignatureHashIgnoresSignatures(t: Transaction, u: Transaction, index: int, script: seq<byte>)
    requires SamePayment(t, u)
    ensures SignatureHash(t, index, script) == SignatureHash(u, index, script)
  {
    forall i | 0 <= i < |t.inputs|
      ensures Blank(t.inputs[i]) == Blank(u.inputs[i])
    {
      assert OutpointOf(t.inputs[i]) == OutpointOf(u.inputs[i]);
    }
    assert BlankAll(t.inputs) == BlankAll(u.inputs);
  }

  // ---------------------------------------------------------------- verifying and signing

  /** The compressed key is a point and ECDSA accepts the two halves of the signature. */
  const KeyVerifies: (seq<byte>, Digest, seq<byte>) -> bool

  /** `VerifyTransactionInput`. */
  predicate Verified(t: Transaction, index: nat, script: seq<byte>) {
    && index < |t.inputs|
    && ExtractPubKeyHash(script) == Some(Hash160(t.inputs[index].publicKey))
    && |t.inputs[index].signature| == 64
    && KeyVerifies(t.inputs[index].publicKey, SignatureHash(t, index, script), t.inputs[index].signature)
  }

  /** `sign` is what the signing calls of one build return, `None` where one fails. */
  datatype Wallet = Wallet(publicKey: seq<byte>, address: seq<bv8>, prefix: seq<bv8>,
      sign: (nat, Digest) -> Option<seq<byte>>)

  /** The address belongs to the key, and signatures verify. */
  ghost predicate WalletOk(w: Wallet) {
    && Address(Hash160(w.publicKey), w.prefix) == Ok(w.address)
    && forall i, h :: w.sign(i, h).Some? ==>
         |w.sign(i, h).value| == 64 && KeyVerifies(w.publicKey, h, w.sign(i, h).value)
  }

  datatype BuildError =
    | ZeroAmount | Overflow | BadAddress(address: AddressError) | InsufficientFunds | SigningFailed | OutOfRange

  /** `SignInput`: the signed transaction. */
  method SignInput(w: Wallet, t: Transaction, index: int, script: seq<byte>) returns (r: Result<Transaction,
          BuildError>)
    ensures !(0 <= index < |t.inputs|) <==> r == Err(OutOfRange)
    ensures 0 <= index < |t.inputs| ==>
              var sig := w.sign(index, SignatureHash(t, index, script));
              && (sig.None? ==> r == Err(SigningFailed))
              && (sig.Some? ==> r == Ok(t.(inputs := t.inputs[index := t.inputs[index].(signature := sig.value,
                  publicKey := w.publicKey)])))
  {
    hide SignatureHash;
    if !(0 <= index < |t.inputs|) {
      return Err(OutOfRange);
    }
    var h := ComputeSignatureHash(t, index, script);
    var sig := w.sign(index, h);
    if sig.None? {
      return Err(SigningFailed);
    }
    return Ok(t.(inputs := t.inputs[index := t.inputs[index].(signature := sig.value, publicKey := w.publicKey)]));
  }

  // ---------------------------------------------------------------- the payment

  /** The least number of coins, counted from `i`, whose sum reaches `need`; all of them if none does. */
  ghost function Shortest(coins: seq<UTXO>, need: nat, i: nat): (k: nat)
    requires i <= |coins|
    ensures i <= k <= |coins|
    ensures SumCoins(coins, k) >= need || k == |coins|
    ensures forall j :: i <= j < k ==> SumCoins(coins, j) < need
    decreases |coins| - i
  {
    if SumCoins(coins, i) >= need || i == |coins| then i else Shortest(coins, need, i + 1)
  }

  function InputFor(u: UTXO): Input {
    Input(u.txHash, u.outputIdx, [], [])
  }

  function InputsFor(coins: seq<UTXO>): (r: seq<Input>)
    ensures |r| == |coins| && forall i :: 0 <= i < |coins| ==> r[i] == InputFor(coins[i])
  {
    seq(|coins|, i requires 0 <= i < |coins| => InputFor(coins[i]))
  }

  /** The transaction before signing. */
  function Draft(coins: seq<UTXO>, amount: u64, toScript: seq<byte>, change: u64, fromScript: seq<byte>): Transaction {
    Transaction(1, InputsFor(coins),
                [Output(amount, toScript)] + if change > 0 then [Output(change, fromScript)] else [], 0)
  }

  function SignatureFor(draft: Transaction, w: Wallet, script: seq<byte>, i: nat): Option<seq<byte>> {
    w.sign(i, SignatureHash(draft, i, script))
  }

  function SignedInput(draft: Transaction, w: Wallet, script: seq<byte>, i: nat): Input
    requires i < |draft.inputs|
  {
    var sig := SignatureFor(draft, w, script, i);
    draft.inputs[i].(signature := if sig.Some? then sig.value else [], publicKey := w.publicKey)
  }

  /** The draft with its first `n` inputs signed, every signature over the unsigned draft. */
  function Signed(draft: Transaction, w: Wallet, script: seq<byte>, n: nat): Transaction
    requires n <= |draft.inputs|
  {
    draft.(inputs := seq(|draft.inputs|, i requires 0 <= i < |draft.inputs| =>
      if i < n then SignedInput(draft, w, script, i) else draft.inputs[i]))
  }

  /** What `BuildTransaction` returns. */
  ghost function Built(w: Wallet, provider: seq<byte> -> seq<UTXO>, toAddress: seq<bv8>, amount: u64, fee: u64)
    : Result<Transaction, BuildError>
  {
    if amount == 0 then Err(ZeroAmount)
    else if amount + fee > U64_MAX then Err(Overflow)
    else
      var from, to := LockingScript(w.address, w.prefix), LockingScript(toAddress, w.prefix);
      if from.Err? then Err(BadAddress(from.error))
      else if to.Err? then Err(BadAddress(to.error))
      else
        var coins := provider(from.value);
        var k := Shortest(coins, amount + fee, 0);
        var total := SumCoins(coins, k);
        if total > U64_MAX then Err(Overflow)
        else if total < amount + fee then Err(InsufficientFunds)
        else
          var draft := Draft(coins[..k], amount, to.value, total - amount - fee, from.value);
          if exists i :: 0 <= i < k && SignatureFor(draft, w, from.value, i).None? then Err(SigningFailed)
          else Ok(Signed(draft, w, from.value, k))
  }

  /** The selection loop. */
  method SelectCoins(coins: seq<UTXO>, need: u64) returns (r: Result<(seq<UTXO>, u64), BuildError>)
    requires need > 0
    ensures var k := Shortest(coins, need, 0);
            var total := SumCoins(coins, k);
            if total > U64_MAX then r == Err(Overflow)
            else if total < need then r == Err(InsufficientFunds)
            else r == Ok((coins[..k], total))
  {
    hide Shortest;
    var selected: seq<UTXO>, total: u64 := [], 0;
    ghost var k := Shortest(coins, need, 0);
    var i := 0;
    while i < |coins|
      invariant 0 <= i <= k && selected == coins[..i] && total == SumCoins(coins, i)
      invariant total < need
    {
      selected := selected + [coins[i]];
      assert selected == coins[..i + 1];
      assert SumCoins(coins, i + 1) == total + coins[i].amount;
      ShortestReaches(coins, need, i);
      if U64_MAX - total < coins[i].amount {
        return Err(Overflow);
      }
      total := total + coins[i].amount;
      if total >= need {
        return Ok((selected, total));
      }
      i := i + 1;
    }
    return Err(InsufficientFunds);
  }

  /** Coins that fall short are all taken, and the one that reaches the sum is the last taken. */
  lemma {:induction false} ShortestReaches(coins: seq<UTXO>, need: nat, i: nat)
    requires i < |coins| && i <= Shortest(coins, need, 0) && SumCoins(coins, i) < need
    ensures i + 1 <= Shortest(coins, need, 0)
    ensures SumCoins(coins, i + 1) >= need ==> Shortest(coins, need, 0) == i + 1
  {
    hide Shortest;
  }

  /** The signing loop: each hash is taken over a partly signed transaction. */
  method SignAll(w: Wallet, draft: Transaction, script: seq<byte>) returns (r: Result<Transaction, BuildError>)
    ensures if (exists i :: 0 <= i < |draft.inputs| && SignatureFor(draft, w, script, i).None?)
            then r == Err(SigningFailed)
            else r == Ok(Signed(draft, w, script, |draft.inputs|))
  {
    hide SignatureHash, SignatureFor;
    var tr := draft;
    for i := 0 to |draft.inputs|
      invariant forall j :: 0 <= j < i ==> SignatureFor(draft, w, script, j).Some?
      invariant tr == Signed(draft, w, script, i)
    {
      StepSignature(draft, tr, w, script, i);
      var step := SignInput(w, tr, i, script);
      if step.Err? {
        return Err(SigningFailed);
      }
      tr := step.value;
      assert tr.inputs == Signed(draft, w, script, i + 1).inputs;
    }
    return Ok(tr);
  }

  lemma {:induction false} StepSignature(draft: Transaction, t: Transaction, w: Wallet, script: seq<byte>, i: nat)
    requires SamePayment(draft, t)
    ensures w.sign(i, SignatureHash(t, i, script)) == SignatureFor(draft, w, script, i)
  {
    hide SignatureHash;
    SignatureHashIgnoresSignatures(draft, t, i, script);
  }

  /** `BuildTransaction`. */
  method BuildTransaction(w: Wallet, provider: seq<byte> -> seq<UTXO>, toAddress: seq<bv8>, amount: u64, fee: u64)
    returns (r: Result<Transaction, BuildError>)
    ensures r == Built(w, provider, toAddress, amount, fee)
  {
    hide LockingScript, Shortest, SignatureFor, Signed;
    if amount == 0 {
      return Err(ZeroAmount);
    }
    if U64_MAX - amount < fee {
      return Err(Overflow);
    }
    var from := LockingScriptForAddress(w.address, w.prefix);
    if from.Err? {
      return Err(BadAddress(from.error));
    }
    var to := LockingScriptForAddress(toAddress, w.prefix);
    if to.Err? {
      return Err(BadAddress(to.error));
    }
    var need := amount + fee;
    var picked := SelectCoins(provider(from.value), need);
    if picked.Err? {
      return Err(picked.error);
    }
    var (selected, total) := picked.value;
    var inputs: seq<Input> := [];
    for i := 0 to |selected|
      invariant inputs == InputsFor(selected[..i])
    {
      inputs := inputs + [Input(selected[i].txHash, selected[i].outputIdx, [], [])];
    }
    assert selected[..|selected|] == selected;
    var outputs := [Output(amount, to.value)];
    var change := total - need;
    if change > 0 {
      outputs := outputs + [Output(change, from.value)];
    }
    assert Transaction(1, inputs, outputs, 0) == Draft(selected, amount, to.value, change, from.value);
    r := SignAll(w, Transaction(1, inputs, outputs, 0), from.value);
  }
}
