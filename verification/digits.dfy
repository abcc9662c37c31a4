/** Decimal and hexadecimal numerals: the digit-level library functions the codec is built on. */
module Digits {
  import opened Wrappers

  type Base = b: nat | b == 10 || b == 16 witness 10

  /** `v` times the base; the base is a constant in each branch, which keeps the arithmetic linear. */
  function Shift(v: nat, base: Base): nat {
    if base == 10 then 10 * v else 16 * v
  }

  function Quotient(n: nat, base: Base): nat {
    if base == 10 then n / 10 else n / 16
  }

  function Remainder(n: nat, base: Base): (d: nat)
    ensures d < base
  {
    if base == 10 then n % 10 else n % 16
  }

  const NO_DIGIT := 255

  /** Both letter cases are digits. */
  function DigitOf(c: char): nat {
    if '0' <= c <= '9' then (c - '0') as nat
    else if 'a' <= c <= 'f' then (c - 'a') as nat + 10
    else if 'A' <= c <= 'F' then (c - 'A') as nat + 10
    else NO_DIGIT
  }

  /** Digits are printed in lower case. */
  function DigitChar(d: nat): (c: char)
    requires d < 16
    ensures DigitOf(c) == d
  {
    if d < 10 then '0' + d as char else 'a' + (d - 10) as char
  }

  predicate AllDigits(s: string, base: Base) {
    forall i :: 0 <= i < |s| ==> DigitOf(s[i]) < base
  }

  /** The number a digit string denotes, most significant digit first. */
  function Value(s: string, base: Base): nat
    requires AllDigits(s, base)
  {
    if s == "" then 0 else Shift(Value(s[..|s| - 1], base), base) + DigitOf(s[|s| - 1])
  }

  /** The printed form: as strconv.AppendUint, the %x verb and big.Int.Text print it. */
  function Numeral(n: nat, base: Base): string
  {
    if n < base then [DigitChar(n)] else Numeral(Quotient(n, base), base) + [DigitChar(Remainder(n, base))]
  }

  /** No digit to spare: lower case, and no leading zero. */
  predicate Canonical(s: string, base: Base) {
    && s != "" && AllDigits(s, base) && (forall i :: 0 <= i < |s| ==> !('A' <= s[i] <= 'F'))
    && (|s| > 1 ==> s[0] != '0')
  }

  lemma ValueOfAppended(s: string, c: char, base: Base)
    requires AllDigits(s, base) && DigitOf(c) < base
    ensures AllDigits(s + [c], base) && Value(s + [c], base) == Shift(Value(s, base), base) + DigitOf(c)
  {
    assert (s + [c])[..|s|] == s;
  }

  lemma DivideBack(v: nat, base: Base, d: nat)
    requires d < base
    ensures Quotient(Shift(v, base) + d, base) == v && Remainder(Shift(v, base) + d, base) == d
  {
  }

  lemma DivideAndShift(n: nat, base: Base)
    requires base <= n
    ensures Shift(Quotient(n, base), base) + Remainder(n, base) == n && 0 < Quotient(n, base) < n
  {
  }

  lemma {:induction false} NumeralDenotes(n: nat, base: Base)
    ensures AllDigits(Numeral(n, base), base) && Value(Numeral(n, base), base) == n
    ensures Canonical(Numeral(n, base), base) && (Numeral(n, base)[0] == '0' <==> n == 0)
  {
    if n < base {
      ValueOfAppended("", DigitChar(n), base);
      assert "" + [DigitChar(n)] == [DigitChar(n)];
    } else {
      DivideAndShift(n, base);
      NumeralDenotes(Quotient(n, base), base);
      AppendedIsCanonical(Numeral(Quotient(n, base), base), Remainder(n, base), base);
    }
  }

  lemma AppendedIsCanonical(front: string, d: nat, base: Base)
    requires d < base && Canonical(front, base) && front[0] != '0'
    ensures Canonical(front + [DigitChar(d)], base) && (front + [DigitChar(d)])[0] != '0'
    ensures Value(front + [DigitChar(d)], base) == Shift(Value(front, base), base) + d
  {
    ValueOfAppended(front, DigitChar(d), base);
  }

  lemma {:induction false} ValueOfPositive(s: string, base: Base)
    requires Canonical(s, base) && s[0] != '0'
    ensures Value(s, base) > 0
  {
    if |s| > 1 {
      var front := s[..|s| - 1];
      ValueOfPositive(front, base);
    }
  }

  /** Printing undoes reading exactly on canonical digit strings. */
  lemma {:induction false} NumeralOfValueIff(s: string, base: Base)
    requires AllDigits(s, base)
    ensures Numeral(Value(s, base), base) == s <==> Canonical(s, base)
  {
    NumeralDenotes(Value(s, base), base);
    if Canonical(s, base) {
      CanonicalIsPrinted(s, base);
    }
  }

  lemma DigitIsPrinted(c: char, base: Base)
    requires DigitOf(c) < base && !('A' <= c <= 'F')
    ensures DigitChar(DigitOf(c)) == c
    ensures Value([c], base) == DigitOf(c) && Numeral(DigitOf(c), base) == [c]
  {
    assert [c][..0] == "";
  }

  lemma AppendedIsPrinted(front: string, c: char, base: Base)
    requires AllDigits(front, base) && Value(front, base) > 0 && Numeral(Value(front, base), base) == front
    requires DigitOf(c) < base && !('A' <= c <= 'F')
    ensures AllDigits(front + [c], base) && Numeral(Value(front + [c], base), base) == front + [c]
  {
    DigitIsPrinted(c, base);
    ValueOfAppended(front, c, base);
    PrintedByParts(Value(front, base), DigitOf(c), base);
  }

  lemma {:induction false} CanonicalIsPrinted(s: string, base: Base)
    requires Canonical(s, base)
    ensures Numeral(Value(s, base), base) == s
    decreases |s|, 1
  {
    var front, c := s[..|s| - 1], s[|s| - 1];
    assert DigitOf(c) < base && !('A' <= c <= 'F');
    if |s| == 1 {
      assert s == [c];
      DigitIsPrinted(c, base);
    } else {
      assert s == front + [c];
      FrontIsPrinted(s, base);
      AppendedIsPrinted(front, c, base);
    }
  }

  lemma {:induction false} FrontIsPrinted(s: string, base: Base)
    requires Canonical(s, base) && |s| > 1
    ensures
      var front := s[..|s| - 1];
      AllDigits(front, base) && Value(front, base) > 0 && Numeral(Value(front, base), base) == front
    decreases |s|, 0
  {
    FrontIsCanonical(s, base);
    ValueOfPositive(s[..|s| - 1], base);
    CanonicalIsPrinted(s[..|s| - 1], base);
  }

  lemma FrontIsCanonical(s: string, base: Base)
    requires Canonical(s, base) && |s| > 1
    ensures Canonical(s[..|s| - 1], base) && s[..|s| - 1][0] != '0'
  {
  }

  lemma PrintedByParts(v: nat, d: nat, base: Base)
    requires d < base && v > 0
    ensures Numeral(Shift(v, base) + d, base) == Numeral(v, base) + [DigitChar(d)]
  {
    DivideBack(v, base, d);
  }

  lemma {:induction false} LeadingZero(s: string, base: Base)
    requires AllDigits(s, base)
    ensures AllDigits("0" + s, base) && Value("0" + s, base) == Value(s, base)
  {
    if s != "" {
      LeadingZero(s[..|s| - 1], base);
      assert ("0" + s)[..|s|] == "0" + s[..|s| - 1];
    } else {
      assert "0" + s == "0" && "0"[..0] == "";
    }
  }

  // ---------------------------------------------------------------- strconv.ParseUint with 64 bits

  const MAX_UINT64 := 0xFFFF_FFFF_FFFF_FFFF

  datatype ParseError = Syntax | Range

  /** The scan of ParseUint: the first bad digit or overflow, from the left, decides the error. */
  function ScanUint(s: string, base: Base, n: nat): Result<nat, ParseError> {
    if s == "" then Ok(n)
    else if DigitOf(s[0]) >= base then Err(Syntax)
    else if Shift(n, base) + DigitOf(s[0]) > MAX_UINT64 then Err(Range)
    else ScanUint(s[1..], base, Shift(n, base) + DigitOf(s[0]))
  }

  function ParseUint(s: string, base: Base): Result<nat, ParseError> {
    if s == "" then Err(Syntax) else ScanUint(s, base, 0)
  }

  /** One digit of the scan, in terms of the digits read so far. */
  lemma ScanStep(done: string, s: string, base: Base)
    requires AllDigits(done, base) && s != "" && DigitOf(s[0]) < base
    ensures
      var more := done + [s[0]];
      && AllDigits(more, base)
      && ScanUint(s, base, Value(done, base))
         == if Value(more, base) > MAX_UINT64 then Err(Range) else ScanUint(s[1..], base, Value(more, base))
  {
    ValueOfAppended(done, s[0], base);
    ScanUnfolds(s, base, Value(done, base));
  }

  lemma ScanUnfolds(s: string, base: Base, n: nat)
    requires s != "" && DigitOf(s[0]) < base
    ensures
      var more := Shift(n, base) + DigitOf(s[0]);
      ScanUint(s, base, n) == if more > MAX_UINT64 then Err(Range) else ScanUint(s[1..], base, more)
  {
  }

  lemma MovedOver(done: string, s: string)
    requires s != ""
    ensures (done + [s[0]]) + s[1..] == done + s
  {
  }

  /** The first `k` characters are digits, and denote too great a number for 64 bits. */
  predicate TooGreat(s: string, base: Base, k: int) {
    0 <= k <= |s| && AllDigits(s[..k], base) && Value(s[..k], base) > MAX_UINT64
  }

  /** Character `k` is no digit, and what comes before it denotes a number of 64 bits. */
  predicate BadDigitAt(s: string, base: Base, k: int) {
    0 <= k < |s| && DigitOf(s[k]) >= base && AllDigits(s[..k], base) && Value(s[..k], base) <= MAX_UINT64
  }

  ghost predicate Overflows(s: string, base: Base) {
    exists k :: TooGreat(s, base, k)
  }

  ghost predicate BreaksOff(s: string, base: Base) {
    exists k :: BadDigitAt(s, base, k)
  }

  lemma PrefixValue(s: string, base: Base, j: nat, k: nat)
    requires j <= k <= |s| && AllDigits(s[..k], base)
    ensures AllDigits(s[..j], base) && Value(s[..j], base) <= Value(s[..k], base)
  {
    assert s[..k] == s[..j] + s[j..k];
    assert forall i :: 0 <= i < j ==> s[..j][i] == s[..k][i];
    PrefixIsNoLarger(s[..j], s[j..k], base);
  }

  /** A number does not overflow in front of a bad digit and break off at one in front of the overflow. */
  lemma OneError(s: string, base: Base)
    ensures !(Overflows(s, base) && BreaksOff(s, base))
    ensures AllDigits(s, base) ==> !BreaksOff(s, base) && (Overflows(s, base) <==> Value(s, base) > MAX_UINT64)
  {
    assert s[..|s|] == s;
    forall k, j
      ensures !(TooGreat(s, base, k) && BadDigitAt(s, base, j))
    {
      OverflowComesFirst(s, base, k, j);
    }
    if AllDigits(s, base) {
      forall k | TooGreat(s, base, k)
        ensures Value(s, base) > MAX_UINT64
      {
        PrefixValue(s, base, k, |s|);
      }
      assert Value(s, base) > MAX_UINT64 ==> TooGreat(s, base, |s|);
    }
  }

  /** Where the number overflows, what denotes a number of 64 bits is shorter, and followed by a digit. */
  lemma OverflowComesFirst(s: string, base: Base, k: int, j: int)
    ensures TooGreat(s, base, k) && 0 <= j < |s| && AllDigits(s[..j], base) && Value(s[..j], base) <= MAX_UINT64 ==>
              j < k && DigitOf(s[j]) < base
  {
    if TooGreat(s, base, k) && 0 <= j < |s| && AllDigits(s[..j], base) {
      if j < k {
        assert s[..k][j] == s[j];
      } else {
        PrefixValue(s, base, k, j);
      }
    }
  }

  lemma {:induction false} ScanUintMeaning(done: string, s: string, base: Base)
    requires AllDigits(done, base) && Value(done, base) <= MAX_UINT64
    ensures
      match ScanUint(s, base, Value(done, base))
      case Ok(v) => AllDigits(done + s, base) && v == Value(done + s, base) && v <= MAX_UINT64
      case Err(Range) => Overflows(done + s, base)
      case Err(Syntax) => BreaksOff(done + s, base)
    decreases |s|
  {
    if s == "" {
      assert done + s == done;
    } else if DigitOf(s[0]) >= base {
      assert (done + s)[|done|] == s[0] && (done + s)[..|done|] == done;
      assert BadDigitAt(done + s, base, |done|);
    } else {
      var more := done + [s[0]];
      ScanStep(done, s, base);
      MovedOver(done, s);
      if Value(more, base) <= MAX_UINT64 {
        ScanUintMeaning(more, s[1..], base);
      } else {
        assert (done + s)[..|more|] == more;
        assert TooGreat(done + s, base, |more|);
      }
    }
  }

  lemma {:induction false} PrefixIsNoLarger(a: string, b: string, base: Base)
    requires AllDigits(a, base) && AllDigits(a + b, base)
    ensures Value(a, base) <= Value(a + b, base)
    decreases |b|
  {
    if b == "" {
      assert a + b == a;
    } else {
      var front, c := a + b[..|b| - 1], b[|b| - 1];
      assert a + b == front + [c];
      assert (a + b)[|front|] == c && forall i :: 0 <= i < |front| ==> front[i] == (a + b)[i];
      PrefixIsNoLarger(a, b[..|b| - 1], base);
      ValueOfAppended(front, c, base);
    }
  }

  /** ParseUint accepts exactly the non-empty digit strings that denote a uint64, and returns that number. */
  lemma ParseUintIff(s: string, base: Base, v: nat)
    ensures ParseUint(s, base) == Ok(v)
       <==> s != "" && AllDigits(s, base) && Value(s, base) == v && v < 18_446_744_073_709_551_616
  {
    assert "" + s == s;
    ScanUintMeaning("", s, base);
    OneError(s, base);
  }

  /** What the first obstacle from the left is decides the error: a character that is no digit, or the overflow. */
  lemma ParseUintErrors(s: string, base: Base)
    ensures ParseUint(s, base) == Err(Syntax) <==> s == "" || BreaksOff(s, base)
    ensures ParseUint(s, base) == Err(Range) <==> Overflows(s, base)
  {
    assert "" + s == s;
    ScanUintMeaning("", s, base);
    OneError(s, base);
  }

  // ---------------------------------------------------------------- big.Int

  /** big.Int.Text: a minus sign for negative numbers. */
  function Text(n: int, base: Base): string
  {
    if n < 0 then "-" + Numeral(-n, base) else Numeral(n, base)
  }

  /** big.Int.SetString with an explicit base: an optional sign, then digits to the end. */
  function SetString(s: string, base: Base): Option<int> {
    var digits := if s != "" && (s[0] == '-' || s[0] == '+') then s[1..] else s;
    if digits == "" || !AllDigits(digits, base) then None
    else
      var v: int := Value(digits, base);
      Some(if s[0] == '-' then -v else v)
  }

  /** The string is a signed numeral of the base: an optional sign, and digits that denote `n` with it. */
  ghost predicate Denotes(s: string, base: Base, n: int) {
    exists digits: string :: IsNumeral(digits, s, base, n)
  }

  predicate IsNumeral(digits: string, s: string, base: Base, n: int) {
    && digits != "" && AllDigits(digits, base)
    && ((n == Value(digits, base) && (s == digits || s == "+" + digits))
        || (-n == Value(digits, base) && s == "-" + digits))
  }

  /** SetString reads exactly the signed numerals, as the number they denote. */
  lemma SetStringIff(s: string, base: Base, n: int)
    ensures SetString(s, base) == Some(n) <==> Denotes(s, base, n)
  {
    if SetString(s, base) == Some(n) {
      var digits := if s[0] == '-' || s[0] == '+' then s[1..] else s;
      assert s == digits || s == [s[0]] + digits;
      assert IsNumeral(digits, s, base, n);
    }
    if Denotes(s, base, n) {
      var digits :| IsNumeral(digits, s, base, n);
      SignedIsRead(digits, s, base, n);
    }
  }

  lemma SignedIsRead(digits: string, s: string, base: Base, n: int)
    requires IsNumeral(digits, s, base, n)
    ensures SetString(s, base) == Some(n)
  {
    if s == digits {
      SetStringOfDigits(digits, base);
    } else {
      assert s[1..] == digits;
    }
  }

  lemma SetStringOfDigits(s: string, base: Base)
    requires s != "" && AllDigits(s, base)
    ensures SetString(s, base) == Some(Value(s, base))
  {
    assert DigitOf(s[0]) < base;
    assert s[0] != '-' && s[0] != '+';
  }

  lemma SetStringOfNegative(s: string, base: Base)
    requires s != "" && AllDigits(s, base)
    ensures SetString("-" + s, base) == Some(-(Value(s, base) as int))
  {
    var t := "-" + s;
    assert t[0] == '-' && t[1..] == s;
  }

  lemma SetStringOfText(n: int, base: Base)
    ensures SetString(Text(n, base), base) == Some(n)
  {
    var size: nat := if n < 0 then -n else n;
    NumeralDenotes(size, base);
    if n < 0 {
      SetStringOfNegative(Numeral(size, base), base);
    } else {
      SetStringOfDigits(Numeral(size, base), base);
    }
  }
}
