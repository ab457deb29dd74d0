/** The Luhn check-digit scheme of Annex B of 3GPP TS 23.003 (the Luhn formula of ISO/IEC 7812-1
    Annex B), stated once over integers, the way the validator loop reads it, and once over digit
    sequences, the way the generator writes it. Positions count from the right: the check digit is
    at position 0. */
module Luhn {
  import opened Decimal

  /** The contribution of a digit at a position: digits at odd positions are doubled and, when
      the double exceeds 9, reduced by 9; digits at even positions count as they are. */
  function Term(d: Digit, position: nat): Digit
  {
    if position % 2 != 0 then (if 2 * d > 9 then 2 * d - 9 else 2 * d) else d
  }

  /** The validator loop: `count` rounds that weigh `m % 10` at `position`, then divide `m` by 10
      and move one position left. */
  function LoopSum(m: nat, position: nat, count: nat): nat
    decreases count
  {
    if count == 0 then 0 else Term(m % 10, position) + LoopSum(m / 10, position + 1, count - 1)
  }

  /** Reference sum over a digit sequence, most significant first, whose last digit stands at
      `position`. */
  function WeightedSum(ds: seq<Digit>, position: nat): nat
  {
    if |ds| == 0 then 0 else Term(ds[|ds| - 1], position) + WeightedSum(ds[..|ds| - 1], position + 1)
  }

  /** The generator's running sum: the digit at left index `i` is weighed by the parity of `i`. */
  function PrefixSum(ds: seq<Digit>): nat
  {
    if |ds| == 0 then 0 else PrefixSum(ds[..|ds| - 1]) + Term(ds[|ds| - 1], |ds| - 1)
  }

  /** The digit that completes a running sum to a multiple of ten. */
  function CheckDigit(sum: nat): (c: Digit)
    ensures (sum + c) % 10 == 0
  {
    ComplementCompletes(sum);
    (10 - sum % 10) % 10
  }

  lemma ComplementCompletes(sum: nat)
    ensures 0 <= (10 - sum % 10) % 10 < 10
    ensures (sum + (10 - sum % 10) % 10) % 10 == 0
  {
    var q, r := sum / 10, sum % 10;
    if r == 0 {
      assert (10 - r) % 10 == 0;
    } else {
      DivModUnique(10 - r, 10, 0, 10 - r);
      DivModUnique(sum + (10 - r), 10, q + 1, 0);
    }
  }

  /** The check digit is the only digit that completes the sum. */
  lemma CheckDigitUnique(sum: nat, e: Digit)
    requires (sum + e) % 10 == 0
    ensures e == CheckDigit(sum)
  {
  }

  /** The validator loop over `count` rounds sums exactly the zero-padded `count`-digit form. */
  lemma {:induction false} LoopSumIsWeightedSum(n: nat, position: nat, count: nat)
    ensures LoopSum(n, position, count) == WeightedSum(DigitsOf(n, count), position)
    decreases count
  {
    if count > 0 {
      LoopSumIsWeightedSum(n / 10, position + 1, count - 1);
      var ds := DigitsOf(n, count);
      assert ds[..count - 1] == DigitsOf(n / 10, count - 1);
    }
  }

  /** Weighing by left index agrees with weighing by right position when the two have the same
      parity, which holds for every odd-length sequence read from position 0. */
  lemma {:induction false} PrefixSumIsWeightedSum(ds: seq<Digit>, position: nat)
    requires (position + |ds|) % 2 == 1
    ensures PrefixSum(ds) == WeightedSum(ds, position)
  {
    if |ds| > 0 {
      PrefixSumIsWeightedSum(ds[..|ds| - 1], position + 1);
    }
  }

  /** At a fixed position, distinct digits contribute distinct amounts. */
  lemma TermInjective(d: Digit, e: Digit, position: nat)
    requires d != e
    ensures Term(d, position) != Term(e, position)
  {
  }

  /** Replacing one digit changes the weighted sum by exactly the change of that digit's term. */
  lemma {:induction false} WeightedSumUpdate(ds: seq<Digit>, i: nat, e: Digit, position: nat)
    requires i < |ds|
    ensures WeightedSum(ds[i := e], position) + Term(ds[i], position + |ds| - 1 - i)
         == WeightedSum(ds, position) + Term(e, position + |ds| - 1 - i)
  {
    var ds' := ds[i := e];
    var last := |ds| - 1;
    if i == last {
      assert ds'[..last] == ds[..last];
    } else {
      assert ds'[..last] == ds[..last][i := e];
      WeightedSumUpdate(ds[..last], i, e, position + 1);
    }
  }
}
