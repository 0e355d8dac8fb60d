/** Hungarian tax numbers: normalisation to 8-1-2 form and the check digit. */
module HuTaxId {
  import opened Whitespace

  predicate IsDigit(c: char) {
    '0' <= c <= '9'
  }

  predicate IsSpaceOrDot(c: char) {
    IsSpace(c) || c == '.'
  }

  predicate IsCompact(c: char) {
    !IsSpaceOrDot(c)
  }

  function Keep(p: char -> bool, s: string): string {
    if s == "" then "" else if p(s[0]) then [s[0]] + Keep(p, s[1..]) else Keep(p, s[1..])
  }

  function Upper(c: char): char {
    if 'a' <= c <= 'z' then (c as int - 32) as char else c
  }

  function UpperAll(s: string): string {
    if s == "" then "" else [Upper(s[0])] + UpperAll(s[1..])
  }

  function Take(s: string, n: nat): string {
    if |s| <= n then s else s[..n]
  }

  function DigitsOnly(value: string): string {
    var compact := UpperAll(Keep(IsCompact, value));
    var bare := if "HU" <= compact then compact[2..] else compact;
    Take(Keep(IsDigit, bare), 11)
  }

  /** The digits in 8-1-2 form, as far as they go. */
  function Formatted(digits: string): string {
    if digits == "" then ""
    else if |digits| <= 8 then digits
    else if |digits| == 9 then digits[..8] + "-" + digits[8..]
    else digits[..8] + "-" + [digits[8]] + "-" + digits[9..]
  }

  function Normalize(value: string): string {
    Formatted(DigitsOnly(value))
  }

  /** A digit's contribution: the weights are 9, 7, 3, 1 and again 9, 7, 3, 1. */
  function Weighted(i: nat, v: int): int {
    var k := i % 4;
    if k == 0 then 9 * v else if k == 1 then 7 * v else if k == 2 then 3 * v else v
  }

  function Value(c: char): int
    requires IsDigit(c)
  {
    c as int - '0' as int
  }

  predicate AllDigits(s: string) {
    forall i :: 0 <= i < |s| ==> IsDigit(s[i])
  }

  function WeightedSum(s: string): int
    requires |s| == 8 && AllDigits(s)
  {
    Weighted(0, Value(s[0])) + Weighted(1, Value(s[1])) + Weighted(2, Value(s[2])) + Weighted(3, Value(s[3]))
    + Weighted(4, Value(s[4])) + Weighted(5, Value(s[5])) + Weighted(6, Value(s[6])) + Weighted(7, Value(s[7]))
  }

  predicate ChecksumOk(eight: string) {
    |eight| == 8 && AllDigits(eight) && WeightedSum(eight) % 10 == 0
  }

  predicate IsValidTaxId(value: string) {
    var digits := DigitsOnly(value);
    |digits| == 11 && ChecksumOk(digits[..8])
  }

  // ----- normalisation

  /** Upper-casing, dropping blanks and the HU prefix never affect which digits are read. */
  lemma DigitsAreAllThatCount(value: string)
    ensures DigitsOnly(value) == Take(Keep(IsDigit, value), 11)
  {
    var compact := UpperAll(Keep(IsCompact, value));
    DigitsSurvive(value);
    if "HU" <= compact {
      assert compact == ['H', 'U'] + compact[2..];
      assert compact[1..] == ['U'] + compact[2..];
      assert compact[1..][1..] == compact[2..];
    }
  }

  lemma {:induction false} DigitsSurvive(value: string)
    ensures Keep(IsDigit, UpperAll(Keep(IsCompact, value))) == Keep(IsDigit, value)
  {
    if value != "" {
      DigitsSurvive(value[1..]);
      var rest := Keep(IsCompact, value[1..]);
      if IsCompact(value[0]) {
        assert Keep(IsCompact, value) == [value[0]] + rest;
        assert ([value[0]] + rest)[1..] == rest;
        assert UpperAll([value[0]] + rest) == [Upper(value[0])] + UpperAll(rest);
        UpperKeepsDigits(value[0]);
        assert ([Upper(value[0])] + UpperAll(rest))[1..] == UpperAll(rest);
      }
    }
  }

  lemma UpperKeepsDigits(c: char)
    ensures IsDigit(Upper(c)) <==> IsDigit(c)
    ensures IsDigit(c) ==> Upper(c) == c
  {
  }

  lemma {:induction false} KeepDigits(s: string)
    ensures AllDigits(Keep(IsDigit, s))
    ensures AllDigits(s) ==> Keep(IsDigit, s) == s
  {
    if s != "" {
      KeepDigits(s[1..]);
    }
  }

  lemma {:induction false} KeepConcat(a: string, b: string)
    ensures Keep(IsDigit, a + b) == Keep(IsDigit, a) + Keep(IsDigit, b)
  {
    if a == "" {
      assert a + b == b;
    } else {
      assert (a + b)[1..] == a[1..] + b;
      KeepConcat(a[1..], b);
    }
  }

  /** Formatting loses no digit: reading the formatted number gives the digits back. */
  lemma FormatRoundTrip(value: string)
    ensures DigitsOnly(Normalize(value)) == DigitsOnly(value)
  {
    DigitsAreAllThatCount(value);
    DigitsAreAllThatCount(Normalize(value));
    KeepDigits(value);
    FormattedDigits(DigitsOnly(value));
  }

  lemma FormattedDigits(digits: string)
    requires AllDigits(digits)
    ensures Keep(IsDigit, Formatted(digits)) == digits
  {
    KeepDigits(digits);
    if |digits| == 9 {
      KeepDashed(digits[..8], digits[8..]);
    } else if |digits| > 9 {
      var a, b, c := digits[..8], digits[8..9], digits[9..];
      assert Formatted(digits) == a + "-" + (b + "-" + c) && digits == a + (b + c);
      KeepDashed(a, "");
      KeepDashed(b, c);
      assert a + "-" + "" == a + "-" && a + "" == a;
      KeepConcat(a + "-", b + "-" + c);
    }
  }

  lemma KeepDashed(a: string, b: string)
    requires AllDigits(a) && AllDigits(b)
    ensures Keep(IsDigit, a + "-" + b) == a + b && Keep(IsDigit, "-") == ""
  {
    KeepDigits(a);
    KeepDigits(b);
    KeepConcat(a, "-");
    KeepConcat(a + "-", b);
  }

  /** Normalising is idempotent and decides neither validity nor identity. */
  lemma NormalizeIsCanonical(a: string, b: string)
    ensures Normalize(Normalize(a)) == Normalize(a)
    ensures IsValidTaxId(Normalize(a)) == IsValidTaxId(a)
    ensures Normalize(a) == Normalize(b) <==> DigitsOnly(a) == DigitsOnly(b)
  {
    FormatRoundTrip(a);
    FormatRoundTrip(b);
  }

  // ----- what the check digit detects

  lemma SumAfterChange(s: string, i: nat, c: char)
    requires |s| == 8 && AllDigits(s) && IsDigit(c) && i < 8
    ensures AllDigits(s[i := c])
    ensures WeightedSum(s[i := c]) == WeightedSum(s) + Weighted(i, Value(c) - Value(s[i]))
  {
  }

  /** Every weight is invertible modulo ten. */
  lemma WeightsInvertible(i: nat, delta: int)
    requires i < 8 && -9 <= delta <= 9
    ensures Weighted(i, delta) % 10 == 0 <==> delta == 0
  {
  }

  lemma ModTen(sum: int, change: int)
    requires sum % 10 == 0
    ensures (sum + change) % 10 == 0 <==> change % 10 == 0
  {
  }

  /** A changed digit keeps a correct checksum only if its weighted change is a multiple of ten. */
  lemma ChecksumAfterChange(s: string, i: nat, c: char)
    requires |s| == 8 && AllDigits(s) && IsDigit(c) && i < 8
    ensures var change := Weighted(i, Value(c) - Value(s[i]));
      ChecksumOk(s[i := c]) <==> (WeightedSum(s) + change) % 10 == 0
  {
    SumAfterChange(s, i, c);
  }

  /** Any single wrong digit breaks a correct checksum. */
  lemma SingleErrorDetected(s: string, i: nat, c: char)
    requires ChecksumOk(s) && i < 8 && IsDigit(c) && c != s[i]
    ensures !ChecksumOk(s[i := c])
  {
    ChecksumAfterChange(s, i, c);
    ModTen(WeightedSum(s), Weighted(i, Value(c) - Value(s[i])));
    WeightsInvertible(i, Value(c) - Value(s[i]));
  }

  function Swap(s: string, i: nat): string
    requires i + 1 < |s|
  {
    s[i := s[i + 1]][i + 1 := s[i]]
  }

  /** Swapping neighbours goes unnoticed exactly when the two digits agree modulo five. */
  lemma TranspositionDetectedUnlessCongruent(s: string, i: nat)
    requires ChecksumOk(s) && i < 7
    ensures ChecksumOk(Swap(s, i)) <==> Value(s[i]) % 5 == Value(s[i + 1]) % 5
  {
    var a, b := Value(s[i]), Value(s[i + 1]);
    SwapKeepsDigits(s, i);
    SumAfterSwap(s, i);
    ModTen(WeightedSum(s), Weighted(i, b - a) + Weighted(i + 1, a - b));
    WeightStep(i, a, b);
  }

  lemma SwapKeepsDigits(s: string, i: nat)
    requires AllDigits(s) && i + 1 < |s|
    ensures AllDigits(s[i := s[i + 1]]) && AllDigits(Swap(s, i))
  {
  }

  lemma SumAfterSwap(s: string, i: nat)
    requires |s| == 8 && AllDigits(s) && i < 7 && AllDigits(Swap(s, i))
    ensures WeightedSum(Swap(s, i)) == WeightedSum(s)
      + (Weighted(i, Value(s[i + 1]) - Value(s[i])) + Weighted(i + 1, Value(s[i]) - Value(s[i + 1])))
  {
    SwapKeepsDigits(s, i);
    var c, d := s[i], s[i + 1];
    SumAfterChange(s, i, d);
    SumAfterChange(s[i := d], i + 1, c);
  }

  /** Neighbouring weights differ by an even number that five does not divide. */
  lemma WeightStep(i: nat, a: int, b: int)
    requires i < 7 && 0 <= a <= 9 && 0 <= b <= 9
    ensures (Weighted(i, b - a) + Weighted(i + 1, a - b)) % 10 == 0 <==> a % 5 == b % 5
  {
    var d := b - a;
    SameRemainder(a, b);
    EvenMultiples(d);
    NeighbourWeights(i, d);
    assert a - b == -d;
  }

  lemma NeighbourWeights(i: nat, d: int)
    requires i < 7
    ensures Weighted(i, d) + Weighted(i + 1, -d) == (if i % 4 == 1 then 4 * d else if i % 4 == 3 then -8 * d else 2 * d)
  {
    assert i == 0 || i == 1 || i == 2 || i == 3 || i == 4 || i == 5 || i == 6;
  }

  lemma SameRemainder(a: int, b: int)
    ensures a % 5 == b % 5 <==> (b - a) % 5 == 0
  {
  }

  lemma EvenMultiples(d: int)
    ensures (2 * d) % 10 == 0 <==> d % 5 == 0
    ensures (4 * d) % 10 == 0 <==> d % 5 == 0
    ensures (-8 * d) % 10 == 0 <==> d % 5 == 0
  {
    var q, r := d / 5, d % 5;
    TensDropOut(q, 2 * r);
    TensDropOut(2 * q, 4 * r);
    TensDropOut(-4 * q - r, 2 * r);
    assert d == 5 * q + r;
    assert -8 * d == 10 * (-4 * q - r) + 2 * r;
    assert r == 0 || r == 1 || r == 2 || r == 3 || r == 4;
  }

  lemma TensDropOut(q: int, r: int)
    ensures (10 * q + r) % 10 == r % 10
  {
  }

  function CheckDigit(seven: string): char
    requires |seven| == 7 && AllDigits(seven)
  {
    var sum := WeightedSum(seven + "0");
    ('0' as int + (10 - sum % 10) % 10) as char
  }

  /** Seven digits determine the eighth: one completion is correct and no other. */
  lemma CheckDigitUnique(seven: string, c: char)
    requires |seven| == 7 && AllDigits(seven) && IsDigit(c)
    ensures ChecksumOk(seven + [c]) <==> c == CheckDigit(seven)
  {
    var zero := seven + "0";
    assert zero[7 := c] == seven + [c];
    ChecksumAfterChange(zero, 7, c);
    OnlyCompletion(WeightedSum(zero), Value(c));
  }

  lemma OnlyCompletion(sum: int, digit: int)
    requires 0 <= digit <= 9
    ensures (sum + digit) % 10 == 0 <==> digit == (10 - sum % 10) % 10
  {
  }

  // ----- what is valid, written out

  function DigitsIn(value: string): (d: string)
    ensures AllDigits(d)
  {
    KeepDigits(value);
    Keep(IsDigit, value)
  }

  /** A number is valid exactly when the text has eleven digits or more and the eighth digit
      completes the first seven, weighted by 9, 7, 3, 1, 9, 7 and 3, to a multiple of ten. */
  lemma ValidExactly(value: string)
    ensures var d := DigitsIn(value);
      IsValidTaxId(value) <==>
        && |d| >= 11
        && var sum := 9 * Value(d[0]) + 7 * Value(d[1]) + 3 * Value(d[2]) + Value(d[3])
                      + 9 * Value(d[4]) + 7 * Value(d[5]) + 3 * Value(d[6]);
           Value(d[7]) == (10 - sum % 10) % 10
  {
    DigitsAreAllThatCount(value);
    var d := DigitsIn(value);
    if |d| >= 11 {
      var eight := Take(d, 11)[..8];
      assert forall i :: 0 <= i < 8 ==> eight[i] == d[i];
      OnlyCompletion(9 * Value(d[0]) + 7 * Value(d[1]) + 3 * Value(d[2]) + Value(d[3])
                     + 9 * Value(d[4]) + 7 * Value(d[5]) + 3 * Value(d[6]), Value(d[7]));
    }
  }

  /** The normal form holds the first eleven digits, with a dash after the eighth and the ninth
      where a digit follows. */
  lemma NormalForm(value: string)
    ensures var d, n := DigitsIn(value), Normalize(value);
      if |d| <= 8 then n == d
      else if |d| == 9 then n == d[..8] + "-" + [d[8]]
      else n == d[..8] + "-" + [d[8]] + "-" + (if |d| == 10 then [d[9]] else [d[9], d[10]])
  {
    DigitsAreAllThatCount(value);
    var d := DigitsIn(value);
    var eleven := Take(d, 11);
    if |d| >= 9 {
      assert eleven[..8] == d[..8];
      assert eleven[9..] == if |d| == 9 then "" else if |d| == 10 then [d[9]] else [d[9], d[10]];
      assert |d| == 9 ==> eleven[8..] == [d[8]];
    }
  }

  /** Reading keeps the digits of each part of the text, in order, and nothing else. */
  lemma DigitsPieceByPiece(a: string, b: string)
    ensures DigitsIn(a + b) == DigitsIn(a) + DigitsIn(b)
    ensures |a| == 1 ==> DigitsIn(a) == if '0' <= a[0] <= '9' then a else ""
  {
    KeepConcat(a, b);
  }
}
