/**
 * Bech32 strings: prefix, separator and one character per five-bit symbol
 * (wallet/bech32.go). Letters are ASCII.
 */
module Bech32Text {
  import opened Base
  import opened Bech32

  // ---------------------------------------------------------------- characters

  /** The character of a symbol: "qpzry9x8gf2tvdw0s3jn54khce6mua7l". */
  function CharOf(p: bv8): bv8
    requires p < 32
  {
    if p == 0 then 113 // 'q'
    else if p == 1 then 112 // 'p'
    else if p == 2 then 122 // 'z'
    else if p == 3 then 114 // 'r'
    else if p == 4 then 121 // 'y'
    else if p == 5 then 57 // '9'
    else if p == 6 then 120 // 'x'
    else if p == 7 then 56 // '8'
    else if p == 8 then 103 // 'g'
    else if p == 9 then 102 // 'f'
    else if p == 10 then 50 // '2'
    else if p == 11 then 116 // 't'
    else if p == 12 then 118 // 'v'
    else if p == 13 then 100 // 'd'
    else if p == 14 then 119 // 'w'
    else if p == 15 then 48 // '0'
    else if p == 16 then 115 // 's'
    else if p == 17 then 51 // '3'
    else if p == 18 then 106 // 'j'
    else if p == 19 then 110 // 'n'
    else if p == 20 then 53 // '5'
    else if p == 21 then 52 // '4'
    else if p == 22 then 107 // 'k'
    else if p == 23 then 104 // 'h'
    else if p == 24 then 99 // 'c'
    else if p == 25 then 101 // 'e'
    else if p == 26 then 54 // '6'
    else if p == 27 then 109 // 'm'
    else if p == 28 then 117 // 'u'
    else if p == 29 then 97 // 'a'
    else if p == 30 then 55 // '7'
    else 108 // 'l'
  }

  /** The position of a character in the charset. */
  function SymbolOf(c: bv8): Option<bv8> {
    if c == 113 then Some(0)
    else if c == 112 then Some(1)
    else if c == 122 then Some(2)
    else if c == 114 then Some(3)
    else if c == 121 then Some(4)
    else if c == 57 then Some(5)
    else if c == 120 then Some(6)
    else if c == 56 then Some(7)
    else if c == 103 then Some(8)
    else if c == 102 then Some(9)
    else if c == 50 then Some(10)
    else if c == 116 then Some(11)
    else if c == 118 then Some(12)
    else if c == 100 then Some(13)
    else if c == 119 then Some(14)
    else if c == 48 then Some(15)
    else if c == 115 then Some(16)
    else if c == 51 then Some(17)
    else if c == 106 then Some(18)
    else if c == 110 then Some(19)
    else if c == 53 then Some(20)
    else if c == 52 then Some(21)
    else if c == 107 then Some(22)
    else if c == 104 then Some(23)
    else if c == 99 then Some(24)
    else if c == 101 then Some(25)
    else if c == 54 then Some(26)
    else if c == 109 then Some(27)
    else if c == 117 then Some(28)
    else if c == 97 then Some(29)
    else if c == 55 then Some(30)
    else if c == 108 then Some(31)
    else None
  }

  lemma {:induction false} SymbolOfChar(p: bv8)
    requires p < 32
    ensures SymbolOf(CharOf(p)) == Some(p)
  {
    hide SymbolOf, CharOf;
    if p < 16 {
      SymbolOfLowChar(p);
    } else if p < 24 {
      SymbolOfMiddleChar(p);
    } else {
      SymbolOfHighChar(p);
    }
  }

  lemma {:induction false} SymbolOfLowChar(p: bv8)
    requires p < 16
    ensures SymbolOf(CharOf(p)) == Some(p)
  {
  }

  lemma {:induction false} SymbolOfMiddleChar(p: bv8)
    requires 16 <= p < 24
    ensures SymbolOf(CharOf(p)) == Some(p)
  {
    if p == 16 {
      assert CharOf(16) == 115;
    } else if p == 17 {
      assert CharOf(17) == 51;
    } else if p == 18 {
      assert CharOf(18) == 106;
    } else if p == 19 {
      assert CharOf(19) == 110;
    }
  }

  lemma {:induction false} SymbolOfHighChar(p: bv8)
    requires 24 <= p < 32
    ensures SymbolOf(CharOf(p)) == Some(p)
  {
    if p == 24 {
      assert CharOf(24) == 99;
    } else if p == 25 {
      assert CharOf(25) == 101;
    } else if p == 26 {
      assert CharOf(26) == 54;
    } else if p == 27 {
      assert CharOf(27) == 109;
    }
  }

  lemma {:induction false} CharOfSymbol(c: bv8)
    requires SymbolOf(c).Some?
    ensures SymbolOf(c).value < 32 && CharOf(SymbolOf(c).value) == c
  {
  }

  const SEPARATOR: bv8 := 49

  function Lower(c: bv8): bv8 {
    if 65 <= c <= 90 then c + 32 else c
  }

  function Upper(c: bv8): bv8 {
    if 97 <= c <= 122 then c - 32 else c
  }

  /** No character of the charset is a capital letter or the separator. */
  lemma {:induction false} CharIsPlain(p: bv8)
    requires p < 32
    ensures Lower(CharOf(p)) == CharOf(p) && CharOf(p) != SEPARATOR
  {
  }

  function LowerAll(s: seq<bv8>): (r: seq<bv8>)
    ensures |r| == |s| && forall i :: 0 <= i < |s| ==> r[i] == Lower(s[i])
  {
    if s == [] then [] else [Lower(s[0])] + LowerAll(s[1..])
  }

  function UpperAll(s: seq<bv8>): (r: seq<bv8>)
    ensures |r| == |s| && forall i :: 0 <= i < |s| ==> r[i] == Upper(s[i])
  {
    if s == [] then [] else [Upper(s[0])] + UpperAll(s[1..])
  }

  lemma {:induction false} LowerTwice(s: seq<bv8>)
    ensures LowerAll(LowerAll(s)) == LowerAll(s)
  {
    hide LowerAll;
    forall i | 0 <= i < |s|
      ensures Lower(Lower(s[i])) == Lower(s[i])
    {
      LowerOnce(s[i]);
    }
  }

  lemma {:induction false} LowerOnce(c: bv8)
    ensures Lower(Lower(c)) == Lower(c)
  {
  }

  /** `strings.LastIndexByte`. */
  function LastIndex(s: seq<bv8>, c: bv8): (r: int)
    ensures -1 <= r < |s|
    ensures r >= 0 ==> s[r] == c
    ensures forall i :: r < i < |s| ==> s[i] != c
    decreases |s|
  {
    if s == [] then -1
    else if s[|s| - 1] == c then |s| - 1
    else LastIndex(s[..|s| - 1], c)
  }

  function Chars(d: seq<bv8>): (s: seq<bv8>)
    requires FiveBit(d)
    ensures |s| == |d| && forall i :: 0 <= i < |d| ==> s[i] == CharOf(d[i])
  {
    if d == [] then [] else Chars(d[..|d| - 1]) + [CharOf(d[|d| - 1])]
  }

  /** The symbols of a string, if all its characters are in the charset. */
  function Symbols(s: seq<bv8>): (r: Option<seq<bv8>>)
    ensures r.Some? <==> forall i :: 0 <= i < |s| ==> SymbolOf(s[i]).Some?
    ensures r.Some? ==> |r.value| == |s| && forall i :: 0 <= i < |s| ==> SymbolOf(s[i]) == Some(r.value[i])
  {
    if s == [] then Some([])
    else
      var init := Symbols(s[..|s| - 1]);
      var last := SymbolOf(s[|s| - 1]);
      if init.None? || last.None? then None else Some(init.value + [last.value])
  }

  lemma {:induction false} SymbolsOfChars(d: seq<bv8>)
    requires FiveBit(d)
    ensures Symbols(Chars(d)) == Some(d)
  {
    hide SymbolOf, CharOf, Symbols, Chars;
    forall i | 0 <= i < |d|
      ensures SymbolOf(CharOf(d[i])) == Some(d[i])
    {
      SymbolOfChar(d[i]);
    }
    var s := Chars(d);
    assert forall i :: 0 <= i < |s| ==> SymbolOf(s[i]) == Some(d[i]);
    assert Symbols(s).value == d;
  }

  lemma {:induction false} CharsOfSymbols(s: seq<bv8>)
    requires Symbols(s).Some?
    ensures FiveBit(Symbols(s).value) && Chars(Symbols(s).value) == s
  {
    hide SymbolOf, CharOf, Symbols, Chars;
    var d := Symbols(s).value;
    forall i | 0 <= i < |s|
      ensures d[i] < 32 && CharOf(d[i]) == s[i]
    {
      CharOfSymbol(s[i]);
    }
  }

  // ---------------------------------------------------------------- encode and decode

  datatype TextError = EmptyHrp | InvalidData | InvalidString | InvalidSeparator | InvalidCharacter | InvalidChecksum

  /** The string of a prefix and symbols that include the checksum. */
  function Text(hrp: seq<bv8>, symbols: seq<bv8>): seq<bv8>
    requires FiveBit(symbols)
  {
    LowerAll(hrp) + [SEPARATOR] + Chars(symbols)
  }

  /** What `bech32Encode` returns. */
  ghost function Encoded(hrp: seq<bv8>, data: seq<bv8>): Result<seq<bv8>, TextError> {
    if hrp == [] then Err(EmptyHrp)
    else if !FiveBit(data) then Err(InvalidData)
    else
      ChecksumVerifies(hrp, data);
      Ok(Text(hrp, data + Checksum(hrp, data)))
  }

  /** What `bech32Decode` returns: prefix and data without the checksum. */
  function Decoded(s: seq<bv8>): Result<(seq<bv8>, seq<bv8>), TextError> {
    if |s| < 8 || (LowerAll(s) != s && UpperAll(s) != s) then Err(InvalidString)
    else
      var t := LowerAll(s);
      var pos := LastIndex(t, SEPARATOR);
      if pos <= 0 || pos + 7 > |t| then Err(InvalidSeparator)
      else
        var hrp, data := t[..pos], Symbols(t[pos + 1..]);
        if data.None? then Err(InvalidCharacter)
        else if !Verifies(hrp, data.value) then Err(InvalidChecksum)
        else Ok((hrp, data.value[..|data.value| - 6]))
  }

  /** `bech32Encode`: fills the string character by character. */
  method Encode(hrp: seq<bv8>, data: seq<bv8>) returns (r: Result<seq<bv8>, TextError>)
    ensures r == Encoded(hrp, data)
  {
    hide Checksum, CharOf, LowerAll, Verifies;
    if hrp == [] {
      return Err(EmptyHrp);
    }
    var checksum := CreateChecksum(hrp, data);
    ChecksumVerifies(hrp, data);
    var combined := data + checksum;
    var b := LowerAll(hrp) + [SEPARATOR];
    for i := 0 to |combined|
      invariant FiveBit(combined[..i])
      invariant b == LowerAll(hrp) + [SEPARATOR] + Chars(combined[..i])
    {
      if combined[i] >= 32 {
        assert i < |data|;
        return Err(InvalidData);
      }
      assert combined[..i + 1][..i] == combined[..i];
      b := b + [CharOf(combined[i])];
    }
    assert combined[..|combined|] == combined;
    assert forall i :: 0 <= i < |data| ==> data[i] == combined[i];
    return Ok(b);
  }

  /** `bech32Decode`: looks up the symbols one by one. */
  method Decode(s: seq<bv8>) returns (r: Result<(seq<bv8>, seq<bv8>), TextError>)
    ensures r == Decoded(s)
  {
    hide LowerAll, UpperAll, LastIndex, SymbolOf, HrpExpand, Fold;
    if |s| < 8 || (LowerAll(s) != s && UpperAll(s) != s) {
      return Err(InvalidString);
    }
    var t := LowerAll(s);
    var pos := LastIndex(t, SEPARATOR);
    if pos <= 0 || pos + 7 > |t| {
      return Err(InvalidSeparator);
    }
    var hrp, rest := t[..pos], t[pos + 1..];
    var data: seq<bv8> := [];
    for i := 0 to |rest|
      invariant Symbols(rest[..i]) == Some(data)
    {
      var idx := SymbolOf(rest[i]);
      if idx.None? {
        return Err(InvalidCharacter);
      }
      assert rest[..i + 1][..i] == rest[..i];
      data := data + [idx.value];
    }
    assert rest[..|rest|] == rest;
    var expanded := ExpandHrp(hrp);
    var chk := Polymod(expanded + data);
    if chk != 1 {
      return Err(InvalidChecksum);
    }
    return Ok((hrp, data[..|data| - 6]));
  }

  /** Decoding inverts encoding for every non-empty lower-case prefix and five-bit data. */
  lemma {:induction false} DecodeInvertsEncode(hrp: seq<bv8>, data: seq<bv8>)
    requires hrp != [] && LowerAll(hrp) == hrp && FiveBit(data)
    ensures Encoded(hrp, data).Ok?
    ensures Decoded(Encoded(hrp, data).value) == Ok((hrp, data))
  {
    hide Checksum, LowerAll, LastIndex, Symbols, Chars, Verifies, UpperAll;
    ChecksumVerifies(hrp, data);
    var symbols := data + Checksum(hrp, data);
    var s := Encoded(hrp, data).value;
    TextIsLower(hrp, symbols);
    TextSplits(hrp, symbols);
    SymbolsOfChars(symbols);
    assert s == Text(hrp, symbols);
    assert symbols[..|symbols| - 6] == data;
  }

  lemma {:induction false} TextIsLower(hrp: seq<bv8>, symbols: seq<bv8>)
    requires LowerAll(hrp) == hrp && FiveBit(symbols)
    ensures LowerAll(Text(hrp, symbols)) == Text(hrp, symbols)
  {
    hide LowerAll, Chars, CharOf;
    var s := Text(hrp, symbols);
    assert Lower(SEPARATOR) == SEPARATOR;
    forall i | 0 <= i < |s|
      ensures Lower(s[i]) == s[i]
    {
      if i < |hrp| {
        assert LowerAll(hrp)[i] == hrp[i];
      } else if i > |hrp| {
        CharIsPlain(symbols[i - |hrp| - 1]);
      }
    }
  }

  /** The last separator is the one after the prefix. */
  lemma {:induction false} TextSplits(hrp: seq<bv8>, symbols: seq<bv8>)
    requires FiveBit(symbols)
    ensures LastIndex(Text(hrp, symbols), SEPARATOR) == |hrp|
    ensures Text(hrp, symbols)[..|hrp|] == LowerAll(hrp)
    ensures Text(hrp, symbols)[|hrp| + 1..] == Chars(symbols)
  {
    hide LowerAll, Chars, CharOf, LastIndex;
    var s := Text(hrp, symbols);
    assert s[|hrp|] == SEPARATOR;
    forall i | |hrp| < i < |s|
      ensures s[i] != SEPARATOR
    {
      CharIsPlain(symbols[i - |hrp| - 1]);
    }
  }

  /** Conversely, an accepted string is the encoding of what it decodes to, up to the case of its letters. */
  lemma {:induction false} EncodeInvertsDecode(s: seq<bv8>)
    requires Decoded(s).Ok?
    ensures Encoded(Decoded(s).value.0, Decoded(s).value.1) == Ok(LowerAll(s))
  {
    hide Checksum, LowerAll, Symbols, Chars, Verifies, Decoded;
    var t := LowerAll(s);
    var pos := DecodedParts(s);
    var all := Symbols(t[pos + 1..]).value;
    CharsOfSymbols(t[pos + 1..]);
    ChecksumIsForced(t[..pos], all);
    LowerPart(s, pos);
    assert t == t[..pos] + [SEPARATOR] + t[pos + 1..];
  }

  /** Symbols that verify end in the checksum of those before. */
  lemma {:induction false} ChecksumIsForced(hrp: seq<bv8>, all: seq<bv8>)
    requires |all| >= 6 && FiveBit(all) && Verifies(hrp, all)
    ensures var data := all[..|all| - 6];
            FiveBit(data) && all == data + Checksum(hrp, data)
  {
    hide Checksum, Verifies;
    var data := all[..|all| - 6];
    ChecksumVerifies(hrp, data);
    assert forall i :: 0 <= i < |data| ==> data[i] == all[i];
    BurstDetected(hrp, all, data + Checksum(hrp, data), |data|);
  }

  /**
   * Exactly the encodings are accepted, in lower case or in upper case but not in a
   * mixture.
   */
  lemma {:induction false} AcceptedStrings(s: seq<bv8>)
    ensures Decoded(s).Ok? <==>
              && (s == LowerAll(s) || s == UpperAll(s))
              && exists hrp, data :: hrp != [] && LowerAll(hrp) == hrp && Encoded(hrp, data) == Ok(LowerAll(s))
  {
    hide Checksum, LowerAll, LastIndex, Symbols, Chars, Verifies, UpperAll, Encoded;
    if Decoded(s).Ok? {
      var (hrp, data) := Decoded(s).value;
      EncodeInvertsDecode(s);
      LowerPart(s, LastIndex(LowerAll(s), SEPARATOR));
    }
    if s == LowerAll(s) || s == UpperAll(s) {
      LowerTwice(s);
      forall hrp, data | hrp != [] && LowerAll(hrp) == hrp && Encoded(hrp, data) == Ok(LowerAll(s))
        ensures Decoded(s).Ok?
      {
        EncodedIsFiveBit(hrp, data);
        DecodeInvertsEncode(hrp, data);
        assert Decoded(LowerAll(s)).Ok?;
      }
    }
  }

  lemma {:induction false} EncodedIsFiveBit(hrp: seq<bv8>, data: seq<bv8>)
    requires Encoded(hrp, data).Ok?
    ensures FiveBit(data)
  {
  }

  lemma {:induction false} LowerPart(s: seq<bv8>, n: nat)
    requires n <= |s|
    ensures LowerAll(LowerAll(s)[..n]) == LowerAll(s)[..n]
  {
    hide LowerAll;
    LowerTwice(s);
    forall i | 0 <= i < n
      ensures Lower(LowerAll(s)[i]) == LowerAll(s)[i]
    {
      assert LowerAll(LowerAll(s))[i] == LowerAll(s)[i];
    }
  }

  lemma {:induction false} DecodedParts(s: seq<bv8>) returns (pos: nat)
    requires Decoded(s).Ok?
    ensures 0 < pos == |Decoded(s).value.0| && pos + 7 <= |s| && LowerAll(s)[pos] == SEPARATOR
    ensures Decoded(s).value.0 == LowerAll(s)[..pos]
    ensures var d := Symbols(LowerAll(s)[pos + 1..]);
            && d.Some? && FiveBit(d.value) && Verifies(LowerAll(s)[..pos], d.value)
            && |d.value| >= 6 && Decoded(s).value.1 == d.value[..|d.value| - 6]
  {
    hide LowerAll, LastIndex, Symbols, Chars, Verifies, UpperAll;
    pos := LastIndex(LowerAll(s), SEPARATOR);
    CharsOfSymbols(LowerAll(s)[pos + 1..]);
  }

  lemma {:induction false} SymbolsAgree(a: seq<bv8>, b: seq<bv8>, p: nat)
    requires Symbols(a).Some? && Symbols(b).Some? && |a| == |b|
    requires forall i :: 0 <= i < |a| && !(p <= i < p + 6) ==> a[i] == b[i]
    ensures var v, w := Symbols(a).value, Symbols(b).value;
            |v| == |w| && forall i :: 0 <= i < |v| && !(p <= i < p + 6) ==> v[i] == w[i]
  {
    hide Symbols, SymbolOf;
    var v, w := Symbols(a).value, Symbols(b).value;
    forall i | 0 <= i < |v| && !(p <= i < p + 6)
      ensures v[i] == w[i]
    {
      assert SymbolOf(a[i]) == Some(v[i]) && SymbolOf(b[i]) == Some(w[i]);
    }
  }

  /**
   * Two accepted strings of one length and prefix that differ only within six
   * consecutive characters after the separator are the same string, up to case.
   */
  lemma {:induction false} BurstInText(s: seq<bv8>, t: seq<bv8>, p: nat)
    requires Decoded(s).Ok? && Decoded(t).Ok? && |s| == |t|
    requires Decoded(s).value.0 == Decoded(t).value.0
    requires |Decoded(s).value.0| < p && p + 6 <= |s|
    requires forall i :: 0 <= i < |s| && !(p <= i < p + 6) ==> Lower(s[i]) == Lower(t[i])
    ensures LowerAll(s) == LowerAll(t)
  {
    hide LowerAll, Symbols, Chars, Verifies, SymbolOf, Lower, Decoded;
    var pos := DecodedParts(s);
    var _ := DecodedParts(t);
    var a, b := LowerAll(s)[pos + 1..], LowerAll(t)[pos + 1..];
    forall i | 0 <= i < |a| && !(p - pos - 1 <= i < p - pos - 1 + 6)
      ensures a[i] == b[i]
    {
      assert Lower(s[pos + 1 + i]) == Lower(t[pos + 1 + i]);
    }
    SymbolsAgree(a, b, p - pos - 1);
    var v, w := Symbols(a).value, Symbols(b).value;
    BurstDetected(LowerAll(s)[..pos], v, w, p - pos - 1);
    CharsOfSymbols(a);
    CharsOfSymbols(b);
    SameParts(LowerAll(s), LowerAll(t), pos);
  }

  lemma {:induction false} SameParts(s: seq<bv8>, t: seq<bv8>, pos: nat)
    requires pos < |s| == |t| && s[..pos] == t[..pos] && s[pos] == t[pos] && s[pos + 1..] == t[pos + 1..]
    ensures s == t
  {
    assert s == s[..pos] + [s[pos]] + s[pos + 1..];
    assert t == t[..pos] + [t[pos]] + t[pos + 1..];
  }
}
