/** Base16 of byte strings, as in section 8 of RFC 4648, and the prefix rules around it. */
module Hex {
  import opened Wrappers
  import opened Digits

  type Byte = b: nat | b < 256

  datatype HexError = InvalidByte(c: char) | OddLength

  predicate IsHexDigit(c: char) {
    DigitOf(c) < 16
  }

  function TrimPrefix(s: string): string {
    if "0x" <= s then s[2..] else s
  }

  // ---------------------------------------------------------------- the byte codec of the standard library

  function EncodeToString(bytes: seq<Byte>): string {
    if bytes == [] then ""
    else [DigitChar(bytes[0] / 16), DigitChar(bytes[0] % 16)] + EncodeToString(bytes[1..])
  }

  /** What hex.DecodeString returns: the bytes decoded before the first error, and that error. */
  function DecodeString(s: string): (seq<Byte>, Option<HexError>) {
    if s == "" then ([], None)
    else if |s| == 1 then ([], Some(if IsHexDigit(s[0]) then OddLength else InvalidByte(s[0])))
    else if !IsHexDigit(s[0]) then ([], Some(InvalidByte(s[0])))
    else if !IsHexDigit(s[1]) then ([], Some(InvalidByte(s[1])))
    else
      var (rest, error) := DecodeString(s[2..]);
      ([16 * DigitOf(s[0]) + DigitOf(s[1])] + rest, error)
  }

  /** big.Int.SetBytes: the number the bytes denote, most significant byte first. */
  function BytesValue(bytes: seq<Byte>): nat {
    if bytes == [] then 0 else BytesValue(bytes[..|bytes| - 1]) * 256 + bytes[|bytes| - 1]
  }

  // ---------------------------------------------------------------- hex.go

  function EncodeToHex(bytes: seq<Byte>): string {
    "0x" + EncodeToString(bytes)
  }

  function PadToEven(s: string): string {
    if |s| % 2 != 0 then "0" + s else s
  }

  function DecodeHex(s: string): Result<seq<Byte>, HexError> {
    match DecodeString(PadToEven(TrimPrefix(s)))
    case (bytes, None) => Ok(bytes)
    case (_, Some(error)) => Err(error)
  }

  predicate Valid(s: string) {
    AllDigits(TrimPrefix(s), 16)
  }

  /** The loop of IsValid over the bytes behind the prefix. */
  method IsValid(s: string) returns (valid: bool)
    ensures valid <==> Valid(s)
  {
    var str := TrimPrefix(s);
    for i := 0 to |str|
      invariant AllDigits(str[..i], 16)
    {
      var b := str[i];
      if !('0' <= b <= '9' || 'a' <= b <= 'f' || 'A' <= b <= 'F') {
        assert DigitOf(str[i]) == NO_DIGIT;
        return false;
      }
    }
    assert str[..|str|] == str;
    return true;
  }

  const BAD_NIBBLE := MAX_UINT64

  function DecodeNibble(c: char): nat {
    if '0' <= c <= '9' then (c - '0') as nat
    else if 'A' <= c <= 'F' then (c - 'A') as nat + 10
    else if 'a' <= c <= 'f' then (c - 'a') as nat + 10
    else BAD_NIBBLE
  }

  function EncodeUint64(n: nat): string {
    "0x" + Numeral(n, 16)
  }

  /** The %#x verb prints the sign before the prefix. */
  function EncodeBig(n: int): string {
    if n == 0 then "0x0" else if n < 0 then "-0x" + Numeral(-n, 16) else "0x" + Numeral(n, 16)
  }

  /** The number that was set, or None where the library leaves the value undefined. */
  function DecodeBig(s: string): Option<int> {
    SetString(TrimPrefix(s), 16)
  }

  // ---------------------------------------------------------------- round trips

  lemma {:induction false} DecodeUndoesEncode(bytes: seq<Byte>)
    ensures DecodeString(EncodeToString(bytes)) == (bytes, None)
    ensures |EncodeToString(bytes)| == 2 * |bytes|
  {
    if bytes != [] {
      var s := EncodeToString(bytes);
      DecodeUndoesEncode(bytes[1..]);
      assert s[2..] == EncodeToString(bytes[1..]);
      assert 16 * (bytes[0] / 16) + bytes[0] % 16 == bytes[0];
      assert bytes == [bytes[0]] + bytes[1..];
    }
  }

  /** One prefix is taken off, in lower case only, and nothing else is touched. */
  lemma TrimPrefixIff(s: string, t: string)
    ensures TrimPrefix(s) == t
       <==> s == "0x" + t || (s == t && !(|s| >= 2 && s[0] == '0' && s[1] == 'x'))
  {
    if |s| >= 2 && s[0] == '0' && s[1] == 'x' {
      assert s[..2] == "0x" && s == "0x" + s[2..];
    }
  }

  /** IsValid accepts digits of both cases, with or without the prefix "0x" in lower case; the empty string too. */
  lemma ValidIff(s: string)
    ensures Valid(s) <==> AllDigits(s, 16) || (|s| >= 2 && s[0] == '0' && s[1] == 'x' && AllDigits(s[2..], 16))
    ensures |s| >= 2 && s[1] == 'X' ==> !Valid(s)
  {
    TrimPrefixIff(s, TrimPrefix(s));
    if |s| >= 2 && s[0] == '0' && s[1] == 'x' {
      assert TrimPrefix(s) == s[2..] && DigitOf(s[1]) == NO_DIGIT;
    } else if |s| >= 2 && s[1] == 'X' {
      assert TrimPrefix(s) == s && DigitOf(s[1]) == NO_DIGIT;
    }
  }

  predicate LowerDigit(c: char) {
    '0' <= c <= '9' || 'a' <= c <= 'f'
  }

  /** Byte `i` is printed as two digits of lower case, the greater first. */
  lemma {:induction false} EncodedByte(bytes: seq<Byte>, i: nat)
    requires i < |bytes|
    ensures |EncodeToString(bytes)| == 2 * |bytes|
    ensures
      var x, y := EncodeToString(bytes)[2 * i], EncodeToString(bytes)[2 * i + 1];
      LowerDigit(x) && LowerDigit(y) && 16 * DigitOf(x) + DigitOf(y) == bytes[i]
  {
    DecodeUndoesEncode(bytes);
    var s, head := EncodeToString(bytes), [DigitChar(bytes[0] / 16), DigitChar(bytes[0] % 16)];
    assert s == head + EncodeToString(bytes[1..]);
    if i > 0 {
      EncodedByte(bytes[1..], i - 1);
      assert s[2 * i] == EncodeToString(bytes[1..])[2 * (i - 1)];
      assert s[2 * i + 1] == EncodeToString(bytes[1..])[2 * (i - 1) + 1];
    } else {
      assert 16 * (bytes[0] / 16) + bytes[0] % 16 == bytes[0];
    }
  }

  /** The printed form of a byte string: the prefix, and two digits of lower case for each byte. */
  lemma EncodeToHexForm(bytes: seq<Byte>)
    ensures "0x" <= EncodeToHex(bytes) && |EncodeToHex(bytes)| == 2 + 2 * |bytes|
    ensures forall i :: 0 <= i < |bytes| ==>
              var x, y := EncodeToHex(bytes)[2 + 2 * i], EncodeToHex(bytes)[3 + 2 * i];
              LowerDigit(x) && LowerDigit(y) && 16 * DigitOf(x) + DigitOf(y) == bytes[i]
  {
    DecodeUndoesEncode(bytes);
    var s, t := EncodeToHex(bytes), EncodeToString(bytes);
    forall i | 0 <= i < |bytes|
      ensures LowerDigit(s[2 + 2 * i]) && LowerDigit(s[3 + 2 * i])
      ensures 16 * DigitOf(s[2 + 2 * i]) + DigitOf(s[3 + 2 * i]) == bytes[i]
    {
      EncodedByte(bytes, i);
      assert s[2 + 2 * i] == t[2 * i] && s[3 + 2 * i] == t[2 * i + 1];
    }
  }

  /** DecodeHex undoes EncodeToHex on every byte string. */
  lemma HexRoundTrip(bytes: seq<Byte>)
    ensures DecodeHex(EncodeToHex(bytes)) == Ok(bytes)
  {
    DecodeUndoesEncode(bytes);
    assert TrimPrefix(EncodeToHex(bytes)) == EncodeToString(bytes);
  }

  /** What DecodeString makes of any string: it reads digit pairs up to the first bad digit or a last odd one. */
  lemma {:induction false} DecodeStringIff(s: string)
    ensures DecodeString(s).1 == None <==> AllDigits(s, 16) && |s| % 2 == 0
    ensures AllDigits(s, 16) ==> |DecodeString(s).0| == |s| / 2
  {
    if |s| >= 2 {
      DecodeStringIff(s[2..]);
      assert AllDigits(s, 16) <==> IsHexDigit(s[0]) && IsHexDigit(s[1]) && AllDigits(s[2..], 16) by {
        assert forall i :: 2 <= i < |s| ==> s[i] == s[2..][i - 2];
      }
    }
  }

  /** The characters in front of the first one that is no digit, `k` of them. */
  predicate DigitsUpTo(s: string, k: nat) {
    k <= |s| && AllDigits(s[..k], 16) && (k < |s| ==> !IsHexDigit(s[k]))
  }

  lemma PairInFront(s: string, k: nat)
    requires DigitsUpTo(s, k) && k >= 2
    ensures IsHexDigit(s[0]) && IsHexDigit(s[1]) && DigitsUpTo(s[2..], k - 2)
    ensures
      var front := s[..k / 2 * 2];
      |front| >= 2 && front[0] == s[0] && front[1] == s[1] && front[2..] == s[2..][..(k - 2) / 2 * 2]
  {
    assert s[..k][0] == s[0] && s[..k][1] == s[1];
    assert s[2..][..k - 2] == s[..k][2..];
  }

  /**
   For any string at all: DecodeString decodes the digit pairs in front of the first bad character and reports
   that character, or else the digit that is left over.
   */
  lemma {:induction false} DecodeStringStops(s: string, k: nat)
    requires DigitsUpTo(s, k)
    ensures |DecodeString(s).0| == k / 2 && DecodeString(s).0 == DecodeString(s[..k / 2 * 2]).0
    ensures DecodeString(s).1
         == if k < |s| then Some(InvalidByte(s[k])) else if |s| % 2 != 0 then Some(OddLength) else None
  {
    if k >= 2 {
      PairInFront(s, k);
      DecodeStringStops(s[2..], k - 2);
    } else {
      assert k == 1 ==> s[..k][0] == s[0];
      assert s[..k / 2 * 2] == "";
    }
  }

  lemma {:induction false} DecodeAppended(s: string, x: char, y: char)
    requires |s| % 2 == 0 && AllDigits(s, 16) && IsHexDigit(x) && IsHexDigit(y)
    ensures DecodeString(s + [x, y]).0 == DecodeString(s).0 + [16 * DigitOf(x) + DigitOf(y)]
  {
    var t := s + [x, y];
    if s == "" {
      assert t == [x, y] && t[2..] == "";
    } else {
      assert t[0] == s[0] && t[1] == s[1] && t[2..] == s[2..] + [x, y];
      DecodeAppended(s[2..], x, y);
    }
  }

  /** The decoded bytes denote the number the digit pairs denote. */
  lemma {:induction false} PairsDenote(s: string)
    requires |s| % 2 == 0 && AllDigits(s, 16)
    ensures BytesValue(DecodeString(s).0) == Value(s, 16)
  {
    if s != "" {
      var front, x, y := s[..|s| - 2], s[|s| - 2], s[|s| - 1];
      assert s == front + [x, y] && s == (front + [x]) + [y];
      PairsDenote(front);
      DecodeAppended(front, x, y);
      ValueOfAppended(front, x, 16);
      ValueOfAppended(front + [x], y, 16);
      var bytes := DecodeString(front).0;
      assert (bytes + [16 * DigitOf(x) + DigitOf(y)])[..|bytes|] == bytes;
    }
  }

  /** A digit left over at the end is dropped. */
  lemma {:induction false} OddDigitIsDropped(s: string, c: char)
    requires |s| % 2 == 0 && AllDigits(s, 16)
    ensures DecodeString(s + [c]).0 == DecodeString(s).0
  {
    var t := s + [c];
    if s != "" {
      assert t[0] == s[0] && t[1] == s[1] && t[2..] == s[2..] + [c];
      OddDigitIsDropped(s[2..], c);
    }
  }

  /**
   DecodeHex accepts exactly the strings IsValid accepts; what it returns, odd lengths included, denotes the
   number of the trimmed digits, in as few bytes as hold two digits each.
   */
  lemma DecodeHexMeaning(s: string)
    ensures DecodeHex(s).Ok? <==> Valid(s)
    ensures Valid(s) ==>
              && BytesValue(DecodeHex(s).value) == Value(TrimPrefix(s), 16)
              && |DecodeHex(s).value| == (|TrimPrefix(s)| + 1) / 2
  {
    var t := TrimPrefix(s);
    DecodeStringIff(PadToEven(t));
    PaddingKeeps(t);
    if Valid(s) {
      PairsDenote(PadToEven(t));
    }
  }

  /** It fails with the first bad character behind the prefix, and never for the length. */
  lemma DecodeHexErrors(s: string, k: nat)
    requires DigitsUpTo(TrimPrefix(s), k) && k < |TrimPrefix(s)|
    ensures DecodeHex(s) == Err(InvalidByte(TrimPrefix(s)[k]))
  {
    var t := TrimPrefix(s);
    if |t| % 2 == 0 {
      DecodeStringStops(t, k);
    } else {
      var padded := "0" + t;
      assert padded[..k + 1] == "0" + t[..k] && padded[k + 1] == t[k];
      DecodeStringStops(padded, k + 1);
    }
  }

  /** The padding digit changes neither what is a digit nor the value. */
  lemma PaddingKeeps(t: string)
    ensures |PadToEven(t)| == (|t| + 1) / 2 * 2
    ensures AllDigits(PadToEven(t), 16) <==> AllDigits(t, 16)
    ensures AllDigits(t, 16) ==> Value(PadToEven(t), 16) == Value(t, 16)
  {
    assert AllDigits(PadToEven(t), 16) <==> AllDigits(t, 16) by {
      assert forall i :: 0 <= i < |t| ==> ("0" + t)[i + 1] == t[i];
    }
    if AllDigits(t, 16) {
      LeadingZero(t, 16);
    }
  }

  lemma {:induction false} SameValueSameBytes(a: seq<Byte>, b: seq<Byte>)
    requires |a| == |b| && BytesValue(a) == BytesValue(b)
    ensures a == b
  {
    if a != [] {
      SameValueSameBytes(a[..|a| - 1], b[..|b| - 1]);
      assert a == a[..|a| - 1] + [a[|a| - 1]] && b == b[..|b| - 1] + [b[|b| - 1]];
    }
  }

  /** So the result is determined: these bytes and no others have that length and that value. */
  lemma DecodeHexIsDetermined(s: string, bytes: seq<Byte>)
    requires Valid(s)
    ensures DecodeHex(s) == Ok(bytes)
       <==> |bytes| == (|TrimPrefix(s)| + 1) / 2 && BytesValue(bytes) == Value(TrimPrefix(s), 16)
  {
    DecodeHexMeaning(s);
    if |bytes| == (|TrimPrefix(s)| + 1) / 2 && BytesValue(bytes) == Value(TrimPrefix(s), 16) {
      SameValueSameBytes(bytes, DecodeHex(s).value);
    }
  }

  /** DecodeNibble reads exactly the digits of the codec, and its error value is no nibble. */
  lemma NibbleIffDigit(c: char)
    ensures DecodeNibble(c) == (if IsHexDigit(c) then DigitOf(c) else 18_446_744_073_709_551_615)
    ensures DecodeNibble(c) < 16 <==> IsHexDigit(c)
  {
  }

  /** DecodeBig undoes EncodeBig exactly on the numbers that are not negative: the sign is printed, then misread. */
  lemma BigRoundTripIff(n: int)
    ensures DecodeBig(EncodeBig(n)) == Some(n) <==> n >= 0
    ensures n < 0 ==> DecodeBig(EncodeBig(n)) == None && EncodeBig(n) == "-" + EncodeBig(-n)
    ensures n >= 0 ==> "0x" <= EncodeBig(n) && Canonical(EncodeBig(n)[2..], 16)
  {
    if n < 0 {
      SignedPrefixIsMisread(Numeral(-n, 16));
    } else {
      NumeralDenotes(n, 16);
      PrefixedIsRead(Numeral(n, 16));
    }
  }

  lemma SignedPrefixIsMisread(digits: string)
    ensures DecodeBig("-0x" + digits) == None && "-0x" + digits == "-" + ("0x" + digits)
  {
    var s := "-0x" + digits;
    assert s[0] == '-' && TrimPrefix(s) == s && s[1..][1] == 'x';
    assert DigitOf(s[1..][1]) == NO_DIGIT;
  }

  lemma PrefixedIsRead(digits: string)
    requires digits != "" && AllDigits(digits, 16)
    ensures DecodeBig("0x" + digits) == Some(Value(digits, 16))
    ensures "0x" <= "0x" + digits && ("0x" + digits)[2..] == digits
  {
    assert TrimPrefix("0x" + digits) == digits;
    SetStringOfDigits(digits, 16);
  }

  /** What EncodeUint64 prints is read back by DecodeBig, and is canonical: no other printed form has that value. */
  lemma Uint64AsBig(n: nat)
    ensures DecodeBig(EncodeUint64(n)) == Some(n)
    ensures "0x" <= EncodeUint64(n) && Canonical(EncodeUint64(n)[2..], 16)
  {
    NumeralDenotes(n, 16);
    assert TrimPrefix(EncodeUint64(n)) == Numeral(n, 16);
    SetStringOfDigits(Numeral(n, 16), 16);
  }
}
