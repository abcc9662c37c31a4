/** The argument codec: numbers and byte strings as decimal or 0x-prefixed text, with nil arguments. */
module Encoding {
  import opened Wrappers
  import opened Digits
  import opened Hex

  predicate HasPrefix(s: string) {
    "0x" <= s
  }

  function BaseOf(s: string): Base {
    if HasPrefix(s) then 16 else 10
  }

  function DecodeUint64orHex(val: Option<string>): Result<nat, ParseError> {
    match val
    case None => Ok(0)
    case Some(s) => ParseUint(TrimPrefix(s), BaseOf(s))
  }

  /** A nil argument decodes to a nil number. */
  function DecodeUint256orHex(val: Option<string>): Result<Option<int>, ()> {
    match val
    case None => Ok(None)
    case Some(s) =>
      (match SetString(TrimPrefix(s), BaseOf(s))
       case Some(n) => Ok(Some(n))
       case None => Err(()))
  }

  function DecodeBytes(val: Option<string>): Result<seq<Byte>, HexError> {
    match val
    case None => Ok([])
    case Some(s) =>
      (match DecodeString(TrimPrefix(s))
       case (bytes, None) => Ok(bytes)
       case (_, Some(error)) => Err(error))
  }

  function EncodeUint64(n: nat): Option<string> {
    Some("0x" + Numeral(n, 16))
  }

  function EncodeBytes(bytes: seq<Byte>): Option<string> {
    Some("0x" + EncodeToString(bytes))
  }

  function EncodeBigInt(n: int): Option<string> {
    Some("0x" + Text(n, 16))
  }

  /** The hexadecimal branch keeps the bytes decoded before the first error, and drops the error. */
  function DecodeBigIntHexOrDecimal(s: string): Option<int> {
    if HasPrefix(s) then Some(BytesValue(DecodeString(s[2..]).0)) else SetString(s, 10)
  }

  // ---------------------------------------------------------------- what the decoders accept

  /** Exactly the non-empty digit strings of their base that denote a uint64 are read, as that number. */
  lemma Uint64Iff(s: string, v: nat)
    ensures DecodeUint64orHex(Some(s)) == Ok(v)
       <==> TrimPrefix(s) != "" && AllDigits(TrimPrefix(s), BaseOf(s)) && Value(TrimPrefix(s), BaseOf(s)) == v
            && v < 18_446_744_073_709_551_616
    ensures DecodeUint64orHex(None) == Ok(0)
  {
    ParseUintIff(TrimPrefix(s), BaseOf(s), v);
  }

  lemma Uint64RoundTripIff(n: nat)
    ensures DecodeUint64orHex(EncodeUint64(n)) == Ok(n) <==> n < 18_446_744_073_709_551_616
  {
    NumeralDenotes(n, 16);
    var s := "0x" + Numeral(n, 16);
    assert TrimPrefix(s) == Numeral(n, 16);
    Uint64Iff(s, n);
  }

  /** The decimal form of a uint64 is read back too. */
  lemma Uint64DecimalRoundTrip(n: nat)
    requires n < 18_446_744_073_709_551_616
    ensures DecodeUint64orHex(Some(Numeral(n, 10))) == Ok(n)
  {
    NumeralDenotes(n, 10);
    NumeralHasNoPrefix(n);
    Uint64Iff(Numeral(n, 10), n);
  }

  lemma NumeralHasNoPrefix(n: nat)
    ensures !HasPrefix(Numeral(n, 10)) && TrimPrefix(Numeral(n, 10)) == Numeral(n, 10)
  {
    NumeralDenotes(n, 10);
    assert |Numeral(n, 10)| > 1 ==> DigitOf(Numeral(n, 10)[1]) < 10;
  }

  /** Encoding again gives the text back exactly when it was prefixed and canonical. */
  lemma Uint64TextRoundTripIff(s: string, v: nat)
    requires DecodeUint64orHex(Some(s)) == Ok(v)
    ensures EncodeUint64(v) == Some(s) <==> HasPrefix(s) && Canonical(TrimPrefix(s), 16)
  {
    Uint64Iff(s, v);
    if HasPrefix(s) {
      NumeralOfValueIff(TrimPrefix(s), 16);
      assert s == "0x" + TrimPrefix(s);
    } else {
      assert HasPrefix("0x" + Numeral(v, 16));
    }
    assert ("0x" + Numeral(v, 16))[2..] == Numeral(v, 16);
  }

  /** Which obstacle comes first decides the error of a text that is not read. */
  lemma Uint64Errors(s: string)
    ensures DecodeUint64orHex(Some(s)) == Err(Syntax) <==> TrimPrefix(s) == "" || BreaksOff(TrimPrefix(s), BaseOf(s))
    ensures DecodeUint64orHex(Some(s)) == Err(Range) <==> Overflows(TrimPrefix(s), BaseOf(s))
  {
    ParseUintErrors(TrimPrefix(s), BaseOf(s));
  }

  /** Exactly the signed numerals are read, decimal ones without the prefix and hexadecimal ones behind it. */
  lemma Uint256Iff(s: string, n: int)
    ensures DecodeUint256orHex(Some(s)) == Ok(Some(n))
       <==> if |s| >= 2 && s[0] == '0' && s[1] == 'x' then Denotes(s[2..], 16, n) else Denotes(s, 10, n)
    ensures DecodeUint256orHex(Some(s)).Ok? ==> DecodeUint256orHex(Some(s)).value.Some?
    ensures DecodeUint256orHex(None) == Ok(None)
  {
    TrimPrefixIff(s, TrimPrefix(s));
    SetStringIff(TrimPrefix(s), BaseOf(s), n);
  }

  /** The decimal form of every integer is read back too. */
  lemma Uint256DecimalRoundTrip(n: int)
    ensures DecodeUint256orHex(Some(Text(n, 10))) == Ok(Some(n))
  {
    SetStringOfText(n, 10);
    if n >= 0 {
      NumeralHasNoPrefix(n);
    }
  }

  /** Every integer is read back, negative ones and those beyond 256 bits included. */
  lemma BigIntRoundTrip(n: int)
    ensures DecodeUint256orHex(EncodeBigInt(n)) == Ok(Some(n))
  {
    SetStringOfText(n, 16);
    assert TrimPrefix("0x" + Text(n, 16)) == Text(n, 16);
  }

  lemma BytesRoundTrip(bytes: seq<Byte>)
    ensures DecodeBytes(EncodeBytes(bytes)) == Ok(bytes)
    ensures EncodeBytes(bytes) == Some(EncodeToHex(bytes))
  {
    DecodeUndoesEncode(bytes);
    assert TrimPrefix("0x" + EncodeToString(bytes)) == EncodeToString(bytes);
  }

  /** DecodeBytes agrees with DecodeHex on even lengths, and refuses the odd ones DecodeHex pads. */
  lemma BytesAgainstHex(s: string)
    ensures DecodeBytes(Some(s)).Ok? <==> Valid(s) && |TrimPrefix(s)| % 2 == 0
    ensures |TrimPrefix(s)| % 2 == 0 ==> DecodeBytes(Some(s)) == DecodeHex(s)
    ensures Valid(s) && |TrimPrefix(s)| % 2 != 0 ==> DecodeBytes(Some(s)) == Err(OddLength)
  {
    DecodeStringIff(TrimPrefix(s));
    if Valid(s) && |TrimPrefix(s)| % 2 != 0 {
      OddDigitsError(TrimPrefix(s));
    }
  }

  /** It fails with the first bad character behind the prefix, whatever the length; nil is no bytes. */
  lemma DecodeBytesErrors(s: string, k: nat)
    requires DigitsUpTo(TrimPrefix(s), k)
    ensures k < |TrimPrefix(s)| ==> DecodeBytes(Some(s)) == Err(InvalidByte(TrimPrefix(s)[k]))
    ensures DecodeBytes(None) == Ok([])
  {
    DecodeStringStops(TrimPrefix(s), k);
  }

  lemma {:induction false} OddDigitsError(s: string)
    requires AllDigits(s, 16) && |s| % 2 != 0
    ensures DecodeString(s).1 == Some(OddLength)
  {
    if |s| > 1 {
      OddDigitsError(s[2..]);
    }
  }

  // ---------------------------------------------------------------- the lenient reader

  /** Of any text behind the prefix the lenient reader takes the digit pairs up to the first bad character. */
  lemma LenientHexMeaning(t: string, k: nat)
    requires DigitsUpTo(t, k)
    ensures AllDigits(t[..k / 2 * 2], 16)
    ensures DecodeBigIntHexOrDecimal("0x" + t) == Some(Value(t[..k / 2 * 2], 16))
  {
    assert ("0x" + t)[2..] == t;
    assert forall i :: 0 <= i < k / 2 * 2 ==> t[..k / 2 * 2][i] == t[..k][i];
    DecodeStringStops(t, k);
    PairsDenote(t[..k / 2 * 2]);
  }

  /** Any other text is read as a signed decimal, or not at all. */
  lemma LenientDecimalIff(s: string, n: int)
    requires !(|s| >= 2 && s[0] == '0' && s[1] == 'x')
    ensures DecodeBigIntHexOrDecimal(s) == Some(n) <==> Denotes(s, 10, n)
  {
    SetStringIff(s, 10, n);
  }

  /** An encoded negative number stops the lenient reader at its sign: no byte is read. */
  lemma SignStopsTheReader(n: int)
    requires n < 0
    ensures DecodeString(Text(n, 16)).0 == []
  {
    NumeralDenotes(-n, 16);
    var t := Text(n, 16);
    assert t[0] == '-' && DigitOf('-') == NO_DIGIT && |t| >= 2;
  }

  lemma OddDigitsLoseTheLast(front: string, c: char)
    requires |front| % 2 == 0 && AllDigits(front, 16)
    ensures BytesValue(DecodeString(front + [c]).0) == Value(front, 16)
  {
    OddDigitIsDropped(front, c);
    PairsDenote(front);
  }

  /** The last digit of an odd numeral is lost. */
  lemma OddNumeralIsCut(n: nat)
    requires |Numeral(n, 16)| % 2 != 0
    ensures BytesValue(DecodeString(Numeral(n, 16)).0) == n / 16
  {
    var front, c := FrontOfNumeral(n);
    OddTextIsCut(Numeral(n, 16), front, c);
  }

  lemma OddTextIsCut(s: string, front: string, c: char)
    requires s == front + [c] && |s| % 2 != 0 && AllDigits(front, 16)
    ensures BytesValue(DecodeString(s).0) == Value(front, 16)
  {
    OddDigitsLoseTheLast(front, c);
  }

  lemma FrontOfNumeral(n: nat) returns (front: string, c: char)
    ensures Numeral(n, 16) == front + [c] && AllDigits(front, 16) && Value(front, 16) == n / 16
  {
    if n < 16 {
      front, c := "", DigitChar(n);
      assert front + [c] == [c];
    } else {
      front, c := Numeral(n / 16, 16), DigitChar(n % 16);
      NumeralDenotes(n / 16, 16);
    }
  }

  /**
   What the lenient reader makes of an encoded integer: the integer when it has an even number of digits,
   the integer without its last digit when the number is odd, and zero when it is negative.
   */
  lemma LenientReaderMeaning(n: int)
    ensures
      DecodeBigIntHexOrDecimal(EncodeBigInt(n).value)
      == Some(if n < 0 then 0 else if |Numeral(n, 16)| % 2 == 0 then n else n / 16)
  {
    assert EncodeBigInt(n).value[2..] == Text(n, 16);
    if n < 0 {
      SignStopsTheReader(n);
    } else {
      NumeralDenotes(n, 16);
      if |Numeral(n, 16)| % 2 == 0 {
        PairsDenote(Numeral(n, 16));
      } else {
        OddNumeralIsCut(n);
      }
    }
  }

  /** So it reads an encoded integer back if and only if the integer is zero, or positive with an even digit count. */
  lemma LenientRoundTripIff(n: int)
    ensures DecodeBigIntHexOrDecimal(EncodeBigInt(n).value) == Some(n)
       <==> n == 0 || (n > 0 && |Numeral(n, 16)| % 2 == 0)
  {
    LenientReaderMeaning(n);
  }

  /** Its decimal branch reads every integer back. */
  lemma LenientDecimalRoundTrip(n: int)
    ensures DecodeBigIntHexOrDecimal(Text(n, 10)) == Some(n)
  {
    SetStringOfText(n, 10);
    if n >= 0 {
      NumeralHasNoPrefix(n);
    }
  }
}
