/** Numeric validation of an IMEI: the Luhn check over exactly fifteen digits, and the range gate
    that every parser and validating constructor applies before it. */
module Validators {
  import opened Decimal
  import opened Luhn
  import opened Constants

  /** The source's checksum loop: `Length` rounds of the Luhn weighting over the digits of `n`,
      least significant first, accepted when the total is a multiple of ten. It is reached only
      through the range gate, so `n` is never negative. */
  predicate IsChecksumValid(n: nat) {
    LoopSum(n, 0, Length) % 10 == 0
  }

  /** A number is a valid IMEI when it lies in `[MinValue, MaxValue]` and passes the checksum; the
      checksum is evaluated only for numbers inside the range. The source takes a `long`; the
      predicate is stated for any integer so that digit sequences can be judged directly. */
  predicate IsValid(n: int) {
    MinValue <= n <= MaxValue && IsChecksumValid(n)
  }

  /** An IMEI value is valid when it is not the sentinel and its stored number is valid. */
  predicate IsValidImei(imei: Imei) {
    imei != Invalid && IsValid(imei.value)
  }

  // ---------------------------------------------------------------------------------------------
  // The checksum law

  /** The checksum reads the number zero-padded to fifteen digits: it holds exactly when the
      Luhn-weighted sum of those digits, check digit at position 0, is a multiple of ten. */
  lemma ChecksumLaw(n: nat)
    ensures IsChecksumValid(n) <==> WeightedSum(DigitsOf(n, Length), 0) % 10 == 0
  {
    LoopSumIsWeightedSum(n, 0, Length);
  }

  /** Only the lowest fifteen digits are read: digits above them are ignored and missing ones
      count as zero. */
  lemma ChecksumReadsFifteenDigits(n: nat)
    ensures IsChecksumValid(n) <==> IsChecksumValid(n % Pow10(Length))
  {
    ChecksumLaw(n);
    ChecksumLaw(n % Pow10(Length));
    DigitsOfMod(n, Length);
  }

  /** The checksum of a number written as fifteen digits, by right position and by left index. */
  lemma ChecksumOfDigits(ds: seq<Digit>)
    requires |ds| == Length
    ensures IsChecksumValid(ValueOf(ds)) <==> WeightedSum(ds, 0) % 10 == 0
    ensures IsChecksumValid(ValueOf(ds)) <==> PrefixSum(ds) % 10 == 0
  {
    var n := ValueOf(ds);
    ChecksumLaw(n);
    DigitsOfValueOf(ds);
    assert DigitsOf(n, Length) == ds;
    FifteenDigitSums(ds);
  }

  /** Fifteen is odd, so a left index and a right position have the same parity. */
  lemma FifteenDigitSums(ds: seq<Digit>)
    requires |ds| == Length
    ensures PrefixSum(ds) == WeightedSum(ds, 0)
  {
    PrefixSumIsWeightedSum(ds, 0);
  }

  /** Error detection: changing any single digit of a checksum-valid fifteen-digit number gives a
      number that fails the checksum. */
  lemma SingleDigitErrorDetected(ds: seq<Digit>, i: nat, e: Digit)
    requires |ds| == Length && i < Length && e != ds[i]
    requires IsChecksumValid(ValueOf(ds))
    ensures !IsChecksumValid(ValueOf(ds[i := e]))
  {
    ChecksumOfDigits(ds);
    ChecksumOfDigits(ds[i := e]);
    ChangedDigitBreaksSum(ds, i, e);
  }

  /** The digit-sequence core of error detection: a changed digit moves the weighted sum by a
      nonzero amount smaller than ten. */
  lemma ChangedDigitBreaksSum(ds: seq<Digit>, i: nat, e: Digit)
    requires i < |ds| && e != ds[i]
    requires WeightedSum(ds, 0) % 10 == 0
    ensures WeightedSum(ds[i := e], 0) % 10 != 0
  {
    var q := |ds| - 1 - i;
    WeightedSumUpdate(ds, i, e, 0);
    TermInjective(ds[i], e, q);
    NonzeroShiftBreaksMultiple(WeightedSum(ds, 0), Term(e, q) - Term(ds[i], q));
  }

  lemma NonzeroShiftBreaksMultiple(w: int, delta: int)
    requires w % 10 == 0 && -10 < delta < 10 && delta != 0
    ensures (w + delta) % 10 != 0
  {
    DivModUnique(w, 10, w / 10, 0);
    if delta > 0 {
      DivModUnique(w + delta, 10, w / 10, delta);
    } else {
      DivModUnique(w + delta, 10, w / 10 - 1, 10 + delta);
    }
  }

  /** The sentinel check adds nothing: `Invalid` already fails the range gate. */
  lemma IsValidImeiIsValidValue(imei: Imei)
    ensures IsValidImei(imei) <==> IsValid(imei.value)
  {
  }

  // ---------------------------------------------------------------------------------------------
  // The range constants

  /** Every valid number is positive and fits in fifteen digits. */
  lemma ValidFitsLength(n: Int64)
    requires IsValid(n)
    ensures 0 < n < Pow10(Length)
  {
    RangeFitsLength();
  }

  /** `MaxValue` passes the checksum (its weighted sum is 130), and no larger fifteen-digit number
      does, so the upper gate cuts off nothing that the checksum would accept. */
  lemma MaxValueIsGreatest()
    ensures LoopSum(MaxValue, 0, Length) == 130
    ensures IsValid(MaxValue)
    ensures forall n: nat :: MaxValue < n < Pow10(Length) ==> !IsChecksumValid(n)
  {
    SumOfFourteenNines();
    assert LoopSum(MaxValue, 0, Length) == 4 + LoopSum(99999999999999, 1, 14);
    forall n: nat | MaxValue < n < Pow10(Length)
      ensures !IsChecksumValid(n)
    {
      AboveMaxValueFails(n);
    }
  }

  lemma AboveMaxValueFails(n: nat)
    requires MaxValue < n < Pow10(Length)
    ensures !IsChecksumValid(n)
  {
    SumOfFourteenNines();
    PowersOfLength();
    var r := n - 999_999_999_999_990;
    DivModUnique(n, 10, 99999999999999, r);
    assert LoopSum(n, 0, Length) == r + 126;
    DivModUnique(r + 126, 10, 13, r - 4);
  }

  /** The checksum loop from position 1 over fourteen nines, one digit at a time. */
  lemma SumOfFourteenNines()
    ensures LoopSum(99999999999999, 1, 14) == 126
  {
    assert LoopSum(9, 14, 1) == 9;
    assert LoopSum(99, 13, 2) == 18;
    assert LoopSum(999, 12, 3) == 27;
    assert LoopSum(9999, 11, 4) == 36;
    assert LoopSum(99999, 10, 5) == 45;
    assert LoopSum(999999, 9, 6) == 54;
    assert LoopSum(9999999, 8, 7) == 63;
    assert LoopSum(99999999, 7, 8) == 72;
    assert LoopSum(999999999, 6, 9) == 81;
    assert LoopSum(9999999999, 5, 10) == 90;
    assert LoopSum(99999999999, 4, 11) == 99;
    assert LoopSum(999999999999, 3, 12) == 108;
    assert LoopSum(9999999999999, 2, 13) == 117;
  }

  lemma {:induction false} LoopSumOfZero(position: nat, count: nat)
    ensures LoopSum(0, position, count) == 0
    decreases count
  {
    if count > 0 {
      LoopSumOfZero(position + 1, count - 1);
    }
  }

  /** `MinValue = 19` fails the checksum (9 + 2 = 11), so it is not itself a valid IMEI, although
      it is documented as the minimum valid value. */
  lemma MinValueFailsChecksum()
    ensures LoopSum(MinValue, 0, Length) == 11
    ensures !IsValid(MinValue)
  {
    LoopSumOfZero(2, 13);
    assert LoopSum(1, 1, 14) == 2;
  }

  /** The least valid IMEI is 26; replacing `MinValue` by it would not change `IsValid`. */
  lemma LeastValidValue()
    ensures IsValid(26)
    ensures forall n: Int64 :: n < 26 ==> !IsValid(n)
    ensures forall n: Int64 :: IsValid(n) <==> 26 <= n <= MaxValue && IsChecksumValid(n)
  {
    LoopSumOfZero(2, 13);
    assert LoopSum(2, 1, 14) == 4;
    assert LoopSum(26, 0, 15) == 10;
    forall n: Int64 | MinValue <= n < 26
      ensures !IsChecksumValid(n)
    {
      BelowTwentySixFails(n);
    }
  }

  lemma BelowTwentySixFails(n: nat)
    requires MinValue <= n < 26
    ensures !IsChecksumValid(n)
  {
    if n == MinValue {
      MinValueFailsChecksum();
    } else {
      TwentiesFail(n);
    }
  }

  /** From 20 to 25 the sum is the units digit plus the doubled 2, that is 4 to 9. */
  lemma TwentiesFail(n: nat)
    requires 20 <= n < 26
    ensures !IsChecksumValid(n)
  {
    TwentiesSum(n);
    DivModUnique(n - 16, 10, 0, n - 16);
  }

  lemma TwentiesSum(n: nat)
    requires 20 <= n < 26
    ensures LoopSum(n, 0, Length) == n - 16
  {
    LoopSumOfZero(2, 13);
    DivModUnique(n, 10, 2, n - 20);
    assert 2 / 10 == 0 && 2 % 10 == 2;
  }

  /** The validity of the numbers the source's tests exercise. */
  lemma ValidationExamples()
    ensures IsValid(490154203237518)
    ensures IsValid(356303489916807)
    ensures !IsValid(-490154203237518)
    ensures !IsValid(123456789012345)
    ensures !IsValid(490154203123)
    ensures !IsValid(0)
    ensures !IsValid(Int64MaxValue)
  {
    SumOfSampleImei();
    SumOfSecondSampleImei();
    SumOfSequentialDigits();
    SumOfTruncatedSample();
  }

  /** The checksum loop evaluated on the sample IMEI 490154203237518, one digit at a time. */
  lemma SumOfSampleImei()
    ensures LoopSum(490154203237518, 0, Length) == 60
  {
    assert LoopSum(4, 14, 1) == 4;
    assert LoopSum(49, 13, 2) == 13;
    assert LoopSum(490, 12, 3) == 13;
    assert LoopSum(4901, 11, 4) == 15;
    assert LoopSum(49015, 10, 5) == 20;
    assert LoopSum(490154, 9, 6) == 28;
    assert LoopSum(4901542, 8, 7) == 30;
    assert LoopSum(49015420, 7, 8) == 30;
    assert LoopSum(490154203, 6, 9) == 33;
    assert LoopSum(4901542032, 5, 10) == 37;
    assert LoopSum(49015420323, 4, 11) == 40;
    assert LoopSum(490154203237, 3, 12) == 45;
    assert LoopSum(4901542032375, 2, 13) == 50;
    assert LoopSum(49015420323751, 1, 14) == 52;
  }

  /** The checksum loop evaluated on the sample IMEI 356303489916807, one digit at a time. */
  lemma SumOfSecondSampleImei()
    ensures LoopSum(356303489916807, 0, Length) == 70
  {
    assert LoopSum(3, 14, 1) == 3;
    assert LoopSum(35, 13, 2) == 4;
    assert LoopSum(356, 12, 3) == 10;
    assert LoopSum(3563, 11, 4) == 16;
    assert LoopSum(35630, 10, 5) == 16;
    assert LoopSum(356303, 9, 6) == 22;
    assert LoopSum(3563034, 8, 7) == 26;
    assert LoopSum(35630348, 7, 8) == 33;
    assert LoopSum(356303489, 6, 9) == 42;
    assert LoopSum(3563034899, 5, 10) == 51;
    assert LoopSum(35630348991, 4, 11) == 52;
    assert LoopSum(356303489916, 3, 12) == 55;
    assert LoopSum(3563034899168, 2, 13) == 63;
    assert LoopSum(35630348991680, 1, 14) == 63;
  }

  /** The checksum loop evaluated on 123456789012345, one digit at a time. */
  lemma SumOfSequentialDigits()
    ensures LoopSum(123456789012345, 0, Length) == 68
  {
    assert LoopSum(1, 14, 1) == 1;
    assert LoopSum(12, 13, 2) == 5;
    assert LoopSum(123, 12, 3) == 8;
    assert LoopSum(1234, 11, 4) == 16;
    assert LoopSum(12345, 10, 5) == 21;
    assert LoopSum(123456, 9, 6) == 24;
    assert LoopSum(1234567, 8, 7) == 31;
    assert LoopSum(12345678, 7, 8) == 38;
    assert LoopSum(123456789, 6, 9) == 47;
    assert LoopSum(1234567890, 5, 10) == 47;
    assert LoopSum(12345678901, 4, 11) == 48;
    assert LoopSum(123456789012, 3, 12) == 52;
    assert LoopSum(1234567890123, 2, 13) == 55;
    assert LoopSum(12345678901234, 1, 14) == 63;
  }

  /** The checksum loop evaluated on the twelve-digit 490154203123, one digit at a time. */
  lemma SumOfTruncatedSample()
    ensures LoopSum(490154203123, 0, Length) == 41
  {
    SumOfTruncatedSampleHead();
    assert LoopSum(4901542, 5, 10) == 27;
    assert LoopSum(49015420, 4, 11) == 27;
    assert LoopSum(490154203, 3, 12) == 33;
    assert LoopSum(4901542031, 2, 13) == 34;
    assert LoopSum(49015420312, 1, 14) == 38;
  }

  lemma SumOfTruncatedSampleHead()
    ensures LoopSum(490154, 6, 9) == 23
  {
    LoopSumOfZero(12, 3);
    assert LoopSum(4, 11, 4) == 8;
    assert LoopSum(49, 10, 5) == 17;
    assert LoopSum(490, 9, 6) == 17;
    assert LoopSum(4901, 8, 7) == 18;
    assert LoopSum(49015, 7, 8) == 19;
  }

  /** The sentinel never passes validation. */
  lemma InvalidIsNeverValid()
    ensures !IsValidImei(Invalid)
    ensures !IsValid(InvalidValue)
  {
  }
}
