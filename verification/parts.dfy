/** The sub-fields of an IMEI read off its stored number by integer division and remainder: the
    two leading digits (`Tac`), the next six (`Fac`) and the six after those (`Snr`). The division
    is the source's: it truncates toward zero, so a negative number stored with validation off
    gives non-positive parts. */
module Parts {
  import opened Decimal
  import opened Constants

  /** Integer `/` of the source: the quotient truncated toward zero, so the remainder left over
      has the sign of the dividend and is smaller than the divisor. */
  function TruncDiv(a: int, b: int): (q: int)
    requires b > 0
    ensures a >= 0 ==> 0 <= a - q * b < b
    ensures a < 0 ==> -b < a - q * b <= 0
  {
    if a >= 0 then a / b else -((-a) / b)
  }

  /** Integer `%` of the source: what truncated division leaves over. */
  function TruncRem(a: int, b: int): (r: int)
    requires b > 0
    ensures a == TruncDiv(a, b) * b + r
    ensures a >= 0 ==> r == a % b
    ensures a < 0 ==> -b < r <= 0
  {
    TruncatedRemainderIsModulo(a, b);
    a - TruncDiv(a, b) * b
  }

  lemma TruncatedRemainderIsModulo(a: int, b: int)
    requires b > 0
    ensures a >= 0 ==> a - TruncDiv(a, b) * b == a % b
  {
    if a >= 0 {
      DivModUnique(a, b, TruncDiv(a, b), a - TruncDiv(a, b) * b);
    }
  }

  function Tac(imei: Imei): (r: int)
    ensures imei.value >= 0 ==> 0 <= r
    ensures imei.value < 0 ==> r <= 0
    ensures imei.value <= MaxValue ==> r < 100
  {
    TruncDiv(imei.value, 10_000_000_000_000)
  }

  function Fac(imei: Imei): (r: int)
    ensures imei.value >= 0 ==> 0 <= r < 1_000_000
    ensures imei.value < 0 ==> -1_000_000 < r <= 0
  {
    TruncRem(TruncDiv(imei.value, 10_000_000), 1_000_000)
  }

  function Snr(imei: Imei): (r: int)
    ensures imei.value >= 0 ==> 0 <= r < 1_000_000
    ensures imei.value < 0 ==> -1_000_000 < r <= 0
  {
    TruncRem(TruncDiv(imei.value, 10), 1_000_000)
  }

  // ---------------------------------------------------------------------------------------------
  // Properties

  /** For every number of at most fifteen digits the parts are the digit groups of its
      zero-padded form: digits 1-2, 3-8 and 9-14 counted from the left. */
  lemma PartsAreDigitGroups(imei: Imei)
    requires 0 <= imei.value < Pow10(Length)
    ensures Tac(imei) == ValueOf(DigitsOf(imei.value, Length)[..2])
    ensures Fac(imei) == ValueOf(DigitsOf(imei.value, Length)[2..8])
    ensures Snr(imei) == ValueOf(DigitsOf(imei.value, Length)[8..14])
  {
    var ds := DigitsOf(imei.value, Length);
    ValueOfDigitsOfSmall(imei.value, Length);
    TacIsLeadingDigits(imei.value, ds);
    FacIsDigitGroup(imei.value, ds);
    SnrIsDigitGroup(imei.value, ds);
  }

  lemma TacIsLeadingDigits(v: nat, ds: seq<Digit>)
    requires |ds| == Length && ValueOf(ds) == v
    ensures v / 10_000_000_000_000 == ValueOf(ds[..2])
  {
    assert ds == ds[..2] + ds[2..];
    ValueOfConcat(ds[..2], ds[2..]);
    PowersOfLength();
    DivModUnique(v, 10_000_000_000_000, ValueOf(ds[..2]), ValueOf(ds[2..]));
  }

  /** Splitting a digit sequence at `i` splits its value: the digits in front are the quotient
      by `10^(|ds| - i)`. */
  lemma SplitValue(ds: seq<Digit>, i: nat)
    requires i <= |ds|
    ensures ValueOf(ds) / Pow10(|ds| - i) == ValueOf(ds[..i])
    ensures ValueOf(ds) % Pow10(|ds| - i) == ValueOf(ds[i..])
  {
    var p, vf, vb := Pow10(|ds| - i), ValueOf(ds[..i]), ValueOf(ds[i..]);
    ValueOfSplit(ds, i);
    MulCommutes(vf, p);
    DivModUnique(ValueOf(ds), p, vf, vb);
  }

  lemma FacIsDigitGroup(v: nat, ds: seq<Digit>)
    requires |ds| == Length && ValueOf(ds) == v
    ensures (v / 10_000_000) % 1_000_000 == ValueOf(ds[2..8])
  {
    SplitValue(ds, 8);
    assert Pow10(7) == 10_000_000;
    SplitValue(ds[..8], 2);
    assert ds[..8][..2] == ds[..2] && ds[..8][2..] == ds[2..8];
    assert Pow10(6) == 1_000_000;
  }

  lemma SnrIsDigitGroup(v: nat, ds: seq<Digit>)
    requires |ds| == Length && ValueOf(ds) == v
    ensures (v / 10) % 1_000_000 == ValueOf(ds[8..14])
  {
    SplitValue(ds, 14);
    assert Pow10(1) == 10;
    SplitValue(ds[..14], 8);
    assert ds[..14][..8] == ds[..8] && ds[..14][8..] == ds[8..14];
    assert Pow10(6) == 1_000_000;
  }

  /** The parts and the check digit put back together give the number. */
  lemma PartsRecompose(imei: Imei)
    requires 0 <= imei.value < Pow10(Length)
    ensures imei.value
         == Tac(imei) * 10_000_000_000_000 + Fac(imei) * 10_000_000 + Snr(imei) * 10 + imei.value % 10
  {
    var v := imei.value;
    var q1, q7 := v / 10, v / 10_000_000;
    DivDiv(v, 10, 1_000_000);
    DivDiv(v, 10_000_000, 1_000_000);
    assert Tac(imei) == q7 / 1_000_000;
    assert Fac(imei) == q7 % 1_000_000;
    assert Snr(imei) == q1 % 1_000_000;
    Regroup(v, q1, q7, q7 / 1_000_000);
  }

  /** The linear arithmetic behind `PartsRecompose`, on names alone. */
  lemma Regroup(v: int, q1: int, q7: int, t: int)
    requires v == 10 * q1 + v % 10
    requires q1 == 1_000_000 * q7 + q1 % 1_000_000
    requires q7 == 1_000_000 * t + q7 % 1_000_000
    ensures v == t * 10_000_000_000_000 + (q7 % 1_000_000) * 10_000_000 + (q1 % 1_000_000) * 10 + v % 10
  {
  }

  /** Truncation toward zero: the parts of a negative number are the negated parts of its
      magnitude. */
  lemma PartsOfNegative(imei: Imei)
    requires -0x8000_0000_0000_0000 < imei.value < 0
    ensures Tac(imei) == -Tac(Imei(-imei.value))
    ensures Fac(imei) == -Fac(Imei(-imei.value))
    ensures Snr(imei) == -Snr(Imei(-imei.value))
  {
    NegatedGroup(imei.value, 10_000_000);
    NegatedGroup(imei.value, 10);
  }

  /** A digit group of a negative number is the negated group of its magnitude. */
  lemma NegatedGroup(v: int, divisor: int)
    requires v < 0 && divisor > 0
    ensures TruncRem(TruncDiv(v, divisor), 1_000_000) == -TruncRem(TruncDiv(-v, divisor), 1_000_000)
  {
    var a := (-v) / divisor;
    assert TruncDiv(v, divisor) == -a;
    assert TruncDiv(-v, divisor) == a;
    TruncRemOfNegative(a, 1_000_000);
  }

  lemma TruncRemOfNegative(a: int, b: int)
    requires a >= 0 && b > 0
    ensures TruncRem(-a, b) == -TruncRem(a, b)
  {
  }

  /** The sample IMEI 356303489916807 splits into 35, 630348 and 991680. */
  lemma PartsExample()
    ensures Tac(Imei(356303489916807)) == 35
    ensures Fac(Imei(356303489916807)) == 630348
    ensures Snr(Imei(356303489916807)) == 991680
  {
  }
}
