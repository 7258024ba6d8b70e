/**
 A model of `strconv.Atoi` on a 64-bit platform, the integer conversion the
 binder applies to source values and to `default` tags.

 Atoi takes a fast path for inputs of 1 to 18 bytes (an optional sign, then
 digits, no overflow possible) and otherwise delegates to
 `ParseInt(s, 10, 0)`, which strips one sign and scans the rest with
 `ParseUint(s, 10, 64)`. A syntax error yields 0; an overflow yields the
 nearest 64-bit bound together with a range error.

 `AtoiSpec` states the same behaviour declaratively, and the contracts of
 `Atoi`, `AtoiFast` and `ParseInt` prove that each agrees with it on every
 string it accepts.
 */
module Strconv {
  import opened Wrappers

  const MinInt64: int := -0x8000_0000_0000_0000
  const MaxInt64: int := 0x7fff_ffff_ffff_ffff
  const MaxUint64: int := 0xffff_ffff_ffff_ffff

  /** Go's `int` on a 64-bit platform. */
  type int64 = x: int | MinInt64 <= x <= MaxInt64

  /** The two ways a `*strconv.NumError` can fail. */
  datatype NumError = ErrSyntax | ErrRange

  /** The `(int, error)` pair `strconv.Atoi` returns; `err == None` is a nil error. */
  datatype IntResult = IntResult(n: int64, err: Option<NumError>)

  // ---------------------------------------------------------------------------
  // Decimal notation
  // ---------------------------------------------------------------------------

  predicate IsDigit(c: char) {
    '0' <= c <= '9'
  }

  function DigitVal(c: char): nat
    requires IsDigit(c)
  {
    c as int - '0' as int
  }

  predicate AllDigits(s: string) {
    forall i | 0 <= i < |s| :: IsDigit(s[i])
  }

  /** The value of a digit string, most significant digit first. */
  function DigitsValue(s: string): nat
    requires AllDigits(s)
  {
    if |s| == 0 then 0 else DigitsValue(s[..|s| - 1]) * 10 + DigitVal(s[|s| - 1])
  }

  function Pow10(k: nat): nat {
    if k == 0 then 1 else 10 * Pow10(k - 1)
  }

  /** The number of decimal digits `s` starts with. */
  function LeadingDigits(s: string): (k: nat)
    ensures k <= |s|
    ensures AllDigits(s[..k])
    ensures k < |s| ==> !IsDigit(s[k])
  {
    if |s| == 0 || !IsDigit(s[0]) then 0
    else
      var k' := LeadingDigits(s[1..]);
      assert s[..1 + k'] == [s[0]] + s[1..][..k'];
      1 + k'
  }

  predicate HasSign(s: string) {
    |s| > 0 && (s[0] == '+' || s[0] == '-')
  }

  predicate Negative(s: string) {
    |s| > 0 && s[0] == '-'
  }

  /** What follows the optional sign. */
  function Magnitude(s: string): string {
    if HasSign(s) then s[1..] else s
  }

  /** A base-10 integer literal: an optional `+` or `-`, then one or more ASCII digits. */
  predicate WellFormed(s: string) {
    |Magnitude(s)| > 0 && AllDigits(Magnitude(s))
  }

  /** The mathematical value of a well-formed literal. */
  function DecimalValue(s: string): int
    requires WellFormed(s)
  {
    var m: int := DigitsValue(Magnitude(s));
    if Negative(s) then -m else m
  }

  predicate InInt64(v: int) {
    MinInt64 <= v <= MaxInt64
  }

  /** The bound an overflowing conversion is clamped to. */
  function Saturate(negative: bool): int64 {
    if negative then MinInt64 else MaxInt64
  }

  /** The digits right after the sign, up to the first non-digit, exceed 64 unsigned bits. */
  predicate LeadingRunOverflows(s: string) {
    var body := Magnitude(s);
    DigitsValue(body[..LeadingDigits(body)]) > MaxUint64
  }

  /**
   Declarative account of `strconv.Atoi`: a well-formed literal converts to its
   value, or to the nearest bound with a range error when it does not fit in 64
   bits. Anything else is a syntax error with value 0, except that the unsigned
   scan reports an overflow as soon as it sees one, so a digit run that already
   overflows before the first bad character is a range error.
   */
  function AtoiSpec(s: string): IntResult {
    if WellFormed(s) then
      var v := DecimalValue(s);
      if InInt64(v) then IntResult(v, None) else IntResult(Saturate(v < 0), Some(ErrRange))
    else if LeadingRunOverflows(s) then IntResult(Saturate(Negative(s)), Some(ErrRange))
    else IntResult(0, Some(ErrSyntax))
  }

  // ---------------------------------------------------------------------------
  // strconv.Atoi as the library computes it
  // ---------------------------------------------------------------------------

  /** `strconv.Atoi` with a 64-bit `int`: the fast path and the slow path both
      behave as `AtoiSpec` says. */
  function Atoi(s: string): (r: IntResult)
    ensures r == AtoiSpec(s)
  {
    if 0 < |s| < 19 then AtoiFast(s) else ParseInt(s)
  }

  /** Atoi's fast path for short inputs: strip one sign, then accumulate digits.
      At most 18 digits cannot overflow, so it never reports a range error. */
  function AtoiFast(s: string): (r: IntResult)
    requires 0 < |s| < 19
    ensures r == AtoiSpec(s)
    ensures r.err != Some(ErrRange)
  {
    var body := if s[0] == '-' || s[0] == '+' then s[1..] else s;
    assert body == Magnitude(s);
    if |body| < 1 then IntResult(0, Some(ErrSyntax))
    else
      assert body[..0] == [];
      AccumulateDigitsValue(body, 0, 0);
      var k := LeadingDigits(body);
      ShortDigitsFit(body[..k]);
      assert WellFormed(s) ==> body[..k] == body;
      match AccumulateDigits(body, 0, 0)
      case None => IntResult(0, Some(ErrSyntax))
      case Some(n) =>
        ShortDigitsFit(body);
        IntResult(if s[0] == '-' then -n else n, None)
  }

  /** The fast path's loop: `n = n*10 + digit`, giving up at the first non-digit
      (Go's `ch -= '0'; if ch > 9` on a byte). */
  function AccumulateDigits(s: string, i: nat, n: int): Option<int>
    requires i <= |s|
    decreases |s| - i
  {
    if i == |s| then Some(n)
    else if !IsDigit(s[i]) then None
    else AccumulateDigits(s, i + 1, n * 10 + DigitVal(s[i]))
  }

  /** How the digit loop of `ParseUint(s, 10, 64)` ends. */
  datatype UintScan = Done(un: nat) | SyntaxStop | RangeStop

  /** `ParseUint(s, 10, 64)`: an empty string is a syntax error; otherwise a
      range error exactly when the leading digit run exceeds 2^64-1, and success
      exactly on all-digit input, with its value. */
  function ParseUint(s: string): (r: UintScan)
    ensures var k := LeadingDigits(s);
      r == if DigitsValue(s[..k]) > MaxUint64 then RangeStop
           else if k == |s| && k > 0 then Done(DigitsValue(s))
           else SyntaxStop
  {
    if |s| == 0 then SyntaxStop
    else
      assert s[..0] == [];
      ScanDigitsSpec(s, 0, 0);
      assert s[..|s|] == s;
      ScanDigits(s, 0, 0)
  }

  /** ParseUint's loop. A non-digit stops it with a syntax error; `n >= cutoff`
      or a sum beyond `maxUint64` stops it with a range error. Go detects the
      latter with `n1 < n || n1 > maxVal` on wrapping uint64 arithmetic, which is
      the same as the unbounded sum exceeding `maxUint64`. */
  function ScanDigits(s: string, i: nat, n: nat): UintScan
    requires i <= |s|
    decreases |s| - i
  {
    if i == |s| then Done(n)
    else if !IsDigit(s[i]) then SyntaxStop
    else if n >= MaxUint64 / 10 + 1 then RangeStop
    else
      var n1 := n * 10 + DigitVal(s[i]);
      if n1 > MaxUint64 then RangeStop else ScanDigits(s, i + 1, n1)
  }

  /** `1 << 63`, ParseInt's cutoff for a 64-bit result. */
  const Cutoff: int := 0x8000_0000_0000_0000

  /** `strconv.ParseInt(s, 10, 0)`, Atoi's slow path, which on every string
      behaves as `AtoiSpec` says. */
  function ParseInt(s: string): (r: IntResult)
    ensures r == AtoiSpec(s)
  {
    if |s| == 0 then IntResult(0, Some(ErrSyntax))
    else
      var neg := s[0] == '-';
      var digits := if s[0] == '+' || s[0] == '-' then s[1..] else s;
      assert digits == Magnitude(s);
      assert WellFormed(s) ==> digits[..LeadingDigits(digits)] == digits;
      match ParseUint(digits)
      case SyntaxStop => IntResult(0, Some(ErrSyntax))
      case RangeStop => IntResult(Saturate(neg), Some(ErrRange))
      case Done(un) =>
        if !neg && un >= Cutoff then IntResult(MaxInt64, Some(ErrRange))
        else if neg && un > Cutoff then IntResult(MinInt64, Some(ErrRange))
        else IntResult(if neg then -(un as int) else un, None)
  }

  // ---------------------------------------------------------------------------
  // Facts about digit strings
  // ---------------------------------------------------------------------------

  lemma {:induction false} DigitsValueBelowPow10(s: string)
    requires AllDigits(s)
    ensures DigitsValue(s) < Pow10(|s|)
  {
    if |s| > 0 {
      DigitsValueBelowPow10(s[..|s| - 1]);
    }
  }

  lemma {:induction false} Pow10Monotone(a: nat, b: nat)
    requires a <= b
    ensures Pow10(a) <= Pow10(b)
  {
    if a < b {
      Pow10Monotone(a, b - 1);
    }
  }

  /** At most 18 digits never reach 10^18, so the fast path cannot overflow. */
  lemma ShortDigitsFit(s: string)
    requires AllDigits(s) && |s| <= 18
    ensures DigitsValue(s) < 1_000_000_000_000_000_000
  {
    DigitsValueBelowPow10(s);
    Pow10Monotone(|s|, 18);
    assert Pow10(6) == 1_000_000;
    assert Pow10(12) == 1_000_000_000_000;
    assert Pow10(18) == 1_000_000_000_000_000_000;
  }

  /** A longer digit prefix never has a smaller value. */
  lemma {:induction false} PrefixValueMonotone(s: string, j: nat, k: nat)
    requires j <= k <= |s| && AllDigits(s[..k])
    ensures AllDigits(s[..j])
    ensures DigitsValue(s[..j]) <= DigitsValue(s[..k])
  {
    assert s[..k][..j] == s[..j];
    if j < k {
      assert s[..k][..k - 1] == s[..k - 1];
      PrefixValueMonotone(s, j, k - 1);
    }
  }

  /** Appending a digit to a prefix multiplies its value by ten and adds the digit. */
  lemma ExtendPrefix(s: string, i: nat)
    requires i < |s| && AllDigits(s[..i]) && IsDigit(s[i])
    ensures AllDigits(s[..i + 1])
    ensures DigitsValue(s[..i + 1]) == DigitsValue(s[..i]) * 10 + DigitVal(s[i])
  {
    assert s[..i + 1][..i] == s[..i];
  }

  /** The leading run ends at the first non-digit. */
  lemma {:induction false} LeadingDigitsAt(s: string, n: nat)
    requires n < |s| && AllDigits(s[..n]) && !IsDigit(s[n])
    ensures LeadingDigits(s) == n
  {
    if n > 0 {
      assert s[1..][..n - 1] == s[..n][1..];
      assert IsDigit(s[..n][0]);
      LeadingDigitsAt(s[1..], n - 1);
    }
  }

  /** A digit string without a leading zero is at least 10^(length-1). */
  lemma {:induction false} NoLeadingZeroBound(t: string)
    requires |t| > 0 && AllDigits(t) && t[0] != '0'
    ensures DigitsValue(t) >= Pow10(|t| - 1)
  {
    if |t| > 1 {
      NoLeadingZeroBound(t[..|t| - 1]);
    }
  }

  /** The fast path's loop computes the value of an all-digit string, and fails otherwise. */
  lemma {:induction false} AccumulateDigitsValue(s: string, i: nat, n: int)
    requires i <= |s| && AllDigits(s[..i]) && n == DigitsValue(s[..i])
    ensures AccumulateDigits(s, i, n).Some? <==> AllDigits(s)
    ensures AccumulateDigits(s, i, n).Some? ==> AccumulateDigits(s, i, n).value == DigitsValue(s)
    decreases |s| - i
  {
    if i == |s| {
      assert s[..i] == s;
    } else if IsDigit(s[i]) {
      ExtendPrefix(s, i);
      AccumulateDigitsValue(s, i + 1, n * 10 + DigitVal(s[i]));
    }
  }

  /** ParseUint's loop, started on a digit prefix that fits, stops with a range
      error exactly when the leading digit run overflows, and otherwise succeeds
      exactly on all-digit input. */
  lemma {:induction false} ScanDigitsSpec(s: string, i: nat, n: nat)
    requires i <= |s| && AllDigits(s[..i]) && n == DigitsValue(s[..i]) && n <= MaxUint64
    ensures var k := LeadingDigits(s);
      ScanDigits(s, i, n) ==
        if DigitsValue(s[..k]) > MaxUint64 then RangeStop
        else if k == |s| then Done(DigitsValue(s[..k]))
        else SyntaxStop
    decreases |s| - i
  {
    var k := LeadingDigits(s);
    if i == |s| {
      assert s[..i] == s;
      assert k == |s|;
    } else if !IsDigit(s[i]) {
      assert k == i;
    } else {
      ExtendPrefix(s, i);
      var n1 := n * 10 + DigitVal(s[i]);
      PrefixValueMonotone(s, i + 1, k);
      if n < MaxUint64 / 10 + 1 && n1 <= MaxUint64 {
        ScanDigitsSpec(s, i + 1, n1);
      }
    }
  }

  // ---------------------------------------------------------------------------
  // Atoi against its declarative account
  // ---------------------------------------------------------------------------

  /** The fast path is only an optimisation: on short input it agrees with ParseInt. */
  lemma FastPathAgreesWithParseInt(s: string)
    requires 0 < |s| < 19
    ensures AtoiFast(s) == ParseInt(s)
  {
  }

  /** Atoi succeeds exactly on well-formed literals whose value fits in 64 bits,
      and then returns that value; a syntax error always comes with 0. */
  lemma AtoiAcceptsExactlyWellFormed(s: string)
    ensures Atoi(s).err.None? <==> WellFormed(s) && InInt64(DecimalValue(s))
    ensures Atoi(s).err.None? ==> Atoi(s).n == DecimalValue(s)
    ensures Atoi(s).err == Some(ErrSyntax) ==> Atoi(s).n == 0
    ensures Atoi(s).err == Some(ErrRange) ==> Atoi(s).n == MinInt64 || Atoi(s).n == MaxInt64
  {
  }

  // ---------------------------------------------------------------------------
  // Round trip with the canonical decimal form
  // ---------------------------------------------------------------------------

  function DigitChar(d: nat): char
    requires d < 10
  {
    ('0' as int + d) as char
  }

  /** The canonical decimal digits of a natural number. */
  function NatToDecimal(n: nat): string
    decreases n
  {
    if n < 10 then [DigitChar(n)] else NatToDecimal(n / 10) + [DigitChar(n % 10)]
  }

  /** `strconv.Itoa`: the canonical decimal form of an integer. */
  function Itoa(n: int): string {
    if n < 0 then "-" + NatToDecimal(-n) else NatToDecimal(n)
  }

  lemma {:induction false} NatToDecimalValue(n: nat)
    ensures |NatToDecimal(n)| > 0 && AllDigits(NatToDecimal(n))
    ensures DigitsValue(NatToDecimal(n)) == n
    decreases n
  {
    var d := NatToDecimal(n);
    if n >= 10 {
      NatToDecimalValue(n / 10);
      assert d[..|d| - 1] == NatToDecimal(n / 10);
    }
  }

  /** The canonical decimal form is a well-formed literal denoting the number. */
  lemma ItoaWellFormed(n: int)
    ensures WellFormed(Itoa(n)) && DecimalValue(Itoa(n)) == n
  {
    var m: nat := if n < 0 then -n else n;
    NatToDecimalValue(m);
    assert Magnitude(Itoa(n)) == NatToDecimal(m);
  }

  /** Every 64-bit integer written in canonical decimal converts back to itself. */
  lemma AtoiItoaRoundTrip(n: int64)
    ensures Atoi(Itoa(n)) == IntResult(n, None)
  {
    var s := Itoa(n);
    ItoaWellFormed(n);
    AtoiAcceptsExactlyWellFormed(s);
  }

}
