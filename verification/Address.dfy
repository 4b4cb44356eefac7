/**
 * Addresses and locking scripts (wallet/wallet.go, consensus/consensus.go).
 */
module Addresses {
  import opened Base
  import opened Bech32
  import opened Bech32Text
  import opened ConvertBits
  import opened Digits

  /** SHA-256 followed by RIPEMD-160: twenty bytes. */
  type PubKeyHash = h: seq<byte> | |h| == 20
    witness [0, 0, 0, 0, 0, 0, 0, 0, 0, 0, 0, 0, 0, 0, 0, 0, 0, 0, 0, 0]

  const Hash160: seq<byte> -> PubKeyHash

  // ---------------------------------------------------------------- bytes as numbers and as bit vectors

  function AsBits(s: seq<byte>): (r: seq<bv8>)
    ensures |r| == |s| && forall i :: 0 <= i < |s| ==> r[i] == s[i] as bv8
  {
    seq(|s|, i requires 0 <= i < |s| => s[i] as bv8)
  }

  function AsBytes(s: seq<bv8>): (r: seq<byte>)
    ensures |r| == |s| && forall i :: 0 <= i < |s| ==> r[i] == s[i] as int
  {
    seq(|s|, i requires 0 <= i < |s| => s[i] as int)
  }

  lemma {:induction false} ByteRound(x: byte)
    ensures (x as bv8) as int == x
  {
    var b := BitsFor(x);
    BitsRound(b);
  }

  /** Counting up to a byte. */
  lemma {:induction false} BitsFor(x: byte) returns (b: bv8)
    ensures b as int == x
  {
    b := 0;
    if x > 0 {
      b := BitsFor(x - 1);
      CountUp(b);
      b := b + 1;
    }
  }

  lemma {:induction false} CountUp(b: bv8)
    requires b as int < 255
    ensures (b + 1) as int == b as int + 1
  {
  }

  lemma {:induction false} BitsRound(x: bv8)
    ensures (x as int) as bv8 == x
  {
  }

  lemma {:induction false} BytesOfBits(s: seq<byte>)
    ensures AsBytes(AsBits(s)) == s
  {
    hide AsBits, AsBytes;
    forall i | 0 <= i < |s|
      ensures (s[i] as bv8) as int == s[i]
    {
      ByteRound(s[i]);
    }
  }

  lemma {:induction false} BitsOfBytes(s: seq<bv8>)
    ensures AsBits(AsBytes(s)) == s
  {
    hide AsBits, AsBytes;
    forall i | 0 <= i < |s|
      ensures (s[i] as int) as bv8 == s[i]
    {
      BitsRound(s[i]);
    }
  }

  lemma {:induction false} SmallAsBits(x: byte)
    requires x < 32
    ensures x as bv8 < 32
  {
  }

  lemma {:induction false} SmallAsByte(x: bv8)
    requires x < 32
    ensures x as int < 32
  {
  }

  lemma {:induction false} FiveBitDigits(s: seq<byte>)
    requires DigitsOk(s, 5)
    ensures FiveBit(AsBits(s))
  {
    hide AsBits;
    UpEight();
    forall i | 0 <= i < |s|
      ensures s[i] as bv8 < 32
    {
      SmallAsBits(s[i]);
    }
  }

  lemma {:induction false} DigitsFiveBit(s: seq<bv8>)
    requires FiveBit(s)
    ensures DigitsOk(AsBytes(s), 5)
  {
    hide AsBytes;
    UpEight();
    forall i | 0 <= i < |s|
      ensures s[i] as int < 32
    {
      SmallAsByte(s[i]);
    }
  }

  lemma {:induction false} BytesAreDigits(s: seq<byte>)
    ensures DigitsOk(s, 8)
  {
    UpEight();
  }

  // ---------------------------------------------------------------- addresses

  datatype AddressError = BadBits(bits: ConvertError) | BadText(text: TextError) | WrongPrefix

  /** The address of a hash. */
  ghost function Address(h: seq<byte>, prefix: seq<bv8>): Result<seq<bv8>, AddressError> {
    match Converted(h, 8, 5, true)
    case Err(e) => Err(BadBits(e))
    case Ok(five) =>
      match Encoded(prefix, AsBits(five))
      case Err(e) => Err(BadText(e))
      case Ok(s) => Ok(s)
  }

  /** The hash an address stands for. */
  ghost function HashOf(addr: seq<bv8>, prefix: seq<bv8>): Result<seq<byte>, AddressError> {
    match Decoded(addr)
    case Err(e) => Err(BadText(e))
    case Ok((hrp, data)) =>
      if hrp != prefix then Err(WrongPrefix)
      else
        match Converted(AsBytes(data), 5, 8, false)
        case Err(e) => Err(BadBits(e))
        case Ok(h) => Ok(h)
  }

  method AddressFromPublicKey(pub: seq<byte>, prefix: seq<bv8>) returns (r: Result<seq<bv8>, AddressError>)
    ensures r == Address(Hash160(pub), prefix)
  {
    hide Converted, Encoded;
    var five := ConvertBits.ConvertBits(Hash160(pub), 8, 5, true);
    if five.Err? {
      return Err(BadBits(five.error));
    }
    var s := Encode(prefix, AsBits(five.value));
    return if s.Err? then Err(BadText(s.error)) else Ok(s.value);
  }

  method DecodeAddress(addr: seq<bv8>, prefix: seq<bv8>) returns (r: Result<seq<byte>, AddressError>)
    ensures r == HashOf(addr, prefix)
  {
    hide Converted, Decoded;
    var d := Decode(addr);
    if d.Err? {
      return Err(BadText(d.error));
    }
    if d.value.0 != prefix {
      return Err(WrongPrefix);
    }
    var h := ConvertBits.ConvertBits(AsBytes(d.value.1), 5, 8, false);
    return if h.Err? then Err(BadBits(h.error)) else Ok(h.value);
  }

  /**
   * Every hash has an address under every non-empty prefix; it decodes to that hash
   * exactly under lower-case prefixes.
   */
  lemma {:induction false} AddressRoundTrip(h: seq<byte>, prefix: seq<bv8>)
    ensures Address(h, prefix).Ok? <==> prefix != []
    ensures Address(h, prefix).Ok? ==>
              (HashOf(Address(h, prefix).value, prefix) == Ok(h) <==> LowerAll(prefix) == prefix)
  {
    hide Converted, Encoded, Decoded, DigitsOk, FiveBit, LowerAll;
    BytesAreDigits(h);
    RegroupAndBack(h, 8, 5);
    PaddedDigits(h);
    var five := Converted(h, 8, 5, true).value;
    FiveBitDigits(five);
    EncodedWhen(prefix, AsBits(five));
    if prefix != [] {
      var addr := Encoded(prefix, AsBits(five)).value;
      if LowerAll(prefix) == prefix {
        DecodeInvertsEncode(prefix, AsBits(five));
        BytesOfBits(five);
      } else if Decoded(addr).Ok? && Decoded(addr).value.0 == prefix {
        DecodedPrefix(addr);
      }
    }
  }

  lemma {:induction false} PaddedDigits(h: seq<byte>)
    requires DigitsOk(h, 8)
    ensures Converted(h, 8, 5, true).Ok? && DigitsOk(Converted(h, 8, 5, true).value, 5)
  {
    hide Converted;
    var _ := PaddedValue(h, 8, 5);
  }

  lemma {:induction false} EncodedWhen(hrp: seq<bv8>, data: seq<bv8>)
    requires FiveBit(data)
    ensures Encoded(hrp, data).Ok? <==> hrp != []
  {
  }

  lemma {:induction false} DecodedPrefix(s: seq<bv8>)
    requires Decoded(s).Ok?
    ensures LowerAll(Decoded(s).value.0) == Decoded(s).value.0
  {
    hide LowerAll, LastIndex, Symbols, Verifies, UpperAll;
    LowerPart(s, LastIndex(LowerAll(s), SEPARATOR));
  }

  /** An accepted address is the one address of its hash, up to the case of its letters. */
  lemma {:induction false} AddressIsCanonical(addr: seq<bv8>, prefix: seq<bv8>)
    requires HashOf(addr, prefix).Ok?
    ensures Address(HashOf(addr, prefix).value, prefix) == Ok(LowerAll(addr))
  {
    hide Converted, Encoded, Decoded, DigitsOk, FiveBit, LowerAll;
    var data := Decoded(addr).value.1;
    DecodedData(addr);
    DigitsFiveBit(data);
    BackAndRegroup(AsBytes(data), 8, 5);
    BitsOfBytes(data);
    EncodeInvertsDecode(addr);
  }

  lemma {:induction false} DecodedData(s: seq<bv8>)
    requires Decoded(s).Ok?
    ensures FiveBit(Decoded(s).value.1)
  {
    hide LowerAll, LastIndex, Symbols, Verifies, UpperAll, SymbolOf;
    var t := LowerAll(s);
    CharsOfSymbols(t[LastIndex(t, SEPARATOR) + 1..]);
  }

  /** An address is accepted under one prefix only. */
  lemma {:induction false} PrefixesAreDisjoint(addr: seq<bv8>, p: seq<bv8>, q: seq<bv8>)
    requires HashOf(addr, p).Ok? && p != q
    ensures HashOf(addr, q) == Err(WrongPrefix)
  {
    hide Converted, Decoded;
  }

  // ---------------------------------------------------------------- locking scripts

  /** "p2pkh:" */
  const P2PKH: seq<byte> := [112, 50, 112, 107, 104, 58]

  function ScriptForPubKeyHash(h: seq<byte>): seq<byte> {
    P2PKH + h
  }

  function ExtractPubKeyHash(script: seq<byte>): Option<seq<byte>> {
    if P2PKH <= script then Some(script[|P2PKH|..]) else None
  }

  lemma {:induction false} ScriptRoundTrip(h: seq<byte>, script: seq<byte>)
    ensures ExtractPubKeyHash(script) == Some(h) <==> script == ScriptForPubKeyHash(h)
  {
    if P2PKH <= script {
      assert script == P2PKH + script[|P2PKH|..];
    }
    assert (P2PKH + h)[|P2PKH|..] == h;
  }

  /** What `LockingScriptForAddress` returns. */
  ghost function LockingScript(addr: seq<bv8>, prefix: seq<bv8>): Result<seq<byte>, AddressError> {
    match HashOf(addr, prefix)
    case Err(e) => Err(e)
    case Ok(h) => Ok(ScriptForPubKeyHash(h))
  }

  method LockingScriptForAddress(addr: seq<bv8>, prefix: seq<bv8>) returns (r: Result<seq<byte>, AddressError>)
    ensures r == LockingScript(addr, prefix)
  {
    hide HashOf;
    var h := DecodeAddress(addr, prefix);
    return if h.Err? then Err(h.error) else Ok(ScriptForPubKeyHash(h.value));
  }
}
