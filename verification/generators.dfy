/** The random IMEI generator. It picks a two-digit Reporting Body Identifier from a table, fills
    the next twelve digits, and closes with the Luhn check digit, accumulating the checksum and the
    number in one pass. Randomness is a parameter: a source that answers numbered requests for an
    integer in a half-open range. */
module Generators {
  import opened Decimal
  import opened Luhn
  import opened Constants
  import opened Validators
  import opened Construction

  /** `source(k, lo, hi)`: the answer to the `k`-th request (counting from 0) for an integer in
      `[lo, hi)`. */
  type Source = (nat, int, int) -> int

  /** Every answer lies in the requested range, as `Random.Next` and
      `RandomNumberGenerator.GetInt32` promise for `lo < hi`. */
  ghost predicate InRange(source: Source) {
    forall k: nat, lo: int, hi: int :: lo < hi ==> lo <= source(k, lo, hi) < hi
  }

  /** Seventeen two-digit identifiers laid end to end: 01 10 30 33 35 44 45 49 50 51 52 53 54 86
      91 98 99. */
  const ReportingBodyIds: seq<Digit> :=
    [0, 1, 1, 0, 3, 0, 3, 3, 3, 5, 4, 4, 4, 5, 4, 9, 5, 0, 5, 1, 5, 2, 5, 3, 5, 4, 8, 6, 9, 1, 9, 8, 9, 9]

  /** The `i`-th identifier of the table. */
  function ListedPair(i: nat): seq<Digit>
    requires i < |ReportingBodyIds| / 2
  {
    ReportingBodyIds[2 * i..2 * i + 2]
  }

  // ---------------------------------------------------------------------------------------------
  // The digits as written

  /** The digit the loop leaves at left index `p` (2 <= p <= 13): at an odd index the answer to a
      request for `[0, 9)`, the `(p - 1) / 2`-th request overall; at an even index nothing is
      written and the zeroed buffer's 0 stays. */
  function BodyDigit(source: Source, p: nat): Digit
    requires InRange(source)
  {
    if p % 2 != 0 then source((p - 1) / 2, 0, 9) else 0
  }

  /** No two neighbouring entries of a table are both zero. */
  ghost predicate NoDoubleZero(table: seq<Digit>) {
    forall k :: 0 <= k < |table| - 1 ==> table[k] != 0 || table[k + 1] != 0
  }

  /** The fourteen digits in front of the check digit, for a table of identifiers laid end to end:
      the table slice that starts at the first answer (a request for `[0, |table| / 2)`), then the
      body digits. */
  function BodyFrom(source: Source, table: seq<Digit>): (body: seq<Digit>)
    requires InRange(source) && |table| >= 2
    ensures |body| == Length - 1
  {
    var k := source(0, 0, |table| / 2);
    table[k..k + 2] + seq(Length - 3, j requires 0 <= j < Length - 3 => BodyDigit(source, j + 2))
  }

  /** The body with the source's own table. */
  function GeneratedBody(source: Source): (body: seq<Digit>)
    requires InRange(source)
    ensures |body| == Length - 1
  {
    BodyFrom(source, ReportingBodyIds)
  }

  /** The fifteen digits of the generated IMEI, most significant first. */
  function GeneratedDigits(source: Source): (ds: seq<Digit>)
    requires InRange(source)
    ensures |ds| == Length
  {
    var body := GeneratedBody(source);
    body + [CheckDigit(PrefixSum(body))]
  }

  /** The core generator: the loop run over the source's table. */
  method NewRandomImei(source: Source) returns (imei: Imei)
    requires InRange(source)
    ensures imei.value == ValueOf(GeneratedDigits(source))
    ensures IsValidImei(imei)
  {
    TableHasNoDoubleZero();
    imei := GenerateWith(source, ReportingBodyIds);
  }

  /** The generator's loop for a given table: one pass over the fourteen leading digits that draws
      the odd ones, adds each digit's Luhn term to a running sum and its place value to the number,
      then appends the check digit and builds the IMEI without validation. */
  method GenerateWith(source: Source, table: seq<Digit>) returns (imei: Imei)
    requires InRange(source) && |table| >= 2 && NoDoubleZero(table)
    ensures var body := BodyFrom(source, table);
            imei.value == ValueOf(body + [CheckDigit(PrefixSum(body))])
    ensures IsValidImei(imei)
  {
    var imeiDigits: seq<int> := seq(Length, _ => 0);
    var rbi := source(0, 0, |table| / 2);
    var sub := table[rbi..rbi + 2];
    imeiDigits := imeiDigits[0 := sub[0]][1 := sub[1]];
    var requests := 1;
    ghost var body := BodyEntries(source, table);
    BufferStart(body, imeiDigits);

    PowersOfLength();
    var st := Round(imeiDigits, requests, 0, 0, 100_000_000_000_000, 0);
    while st.digitPosition < Length - 1
      invariant st.digitPosition <= Length - 1 && Reached(source, body, st)
      decreases Length - 1 - st.digitPosition
    {
      st := NextRound(source, body, st);
    }
    var sum, imeiNumber := st.sum, st.imeiNumber;

    CheckDigitStep(body, sum, imeiNumber);
    imeiNumber := imeiNumber + (10 - sum % 10) % 10;
    BodyEntriesAreBody(source, table, body);
    BodyFromIsValid(source, table);
    var built := NewFromLong(imeiNumber, false);
    imei := built.value;
  }

  /** The loop's variables at the start of a round. */
  datatype Round = Round(imeiDigits: seq<int>, requests: int, sum: int, imeiNumber: int,
                         placeValue: int, digitPosition: nat)

  /** What the loop keeps at the start of a round: the buffer holds the digits so far, the request
      counter is one past the last request, and the sum, the number and the place value are those of
      the digits so far. */
  ghost predicate Reached(source: Source, body: seq<Digit>, st: Round)
    requires |body| == Length - 1
  {
    var p := st.digitPosition;
    p <= Length - 1
    && st.imeiDigits == Buffer(body, p)
    && st.requests == (if p < 2 then 1 else p / 2)
    && st.sum == PrefixSum(body[..p])
    && st.imeiNumber == Accumulated(body, p)
    && st.placeValue == Pow10(Length - 1 - p)
  }

  /** One round of the loop: an odd position past the identifier draws its digit, then the digit's
      Luhn term goes into the sum and its place value into the number. */
  method NextRound(source: Source, ghost body: seq<Digit>, st: Round) returns (next: Round)
    requires InRange(source) && |body| == Length - 1
    requires forall j :: 2 <= j < Length - 1 ==> body[j] == BodyDigit(source, j)
    requires st.digitPosition < Length - 1 && Reached(source, body, st)
    ensures next.digitPosition == st.digitPosition + 1 && Reached(source, body, next)
  {
    var imeiDigits, requests, sum := st.imeiDigits, st.requests, st.sum;
    var digitPosition := st.digitPosition;
    BufferStep(body, digitPosition);
    DrawStep(source, body, digitPosition, requests);
    LoopStep(body, digitPosition, st.imeiNumber, st.placeValue);
    if digitPosition % 2 != 0 {
      if digitPosition > 1 {
        imeiDigits := imeiDigits[digitPosition := source(requests, 0, 9)];
        requests := requests + 1;
      }
      var digit := imeiDigits[digitPosition] * 2;
      if digit > 9 {
        digit := digit - 9;
      }
      sum := sum + digit;
    } else {
      sum := sum + imeiDigits[digitPosition];
    }
    assert imeiDigits[digitPosition] == body[digitPosition];
    assert sum == PrefixSum(body[..digitPosition + 1]);
    assert imeiDigits == Buffer(body, digitPosition + 1);
    var imeiNumber := st.imeiNumber + imeiDigits[digitPosition] * st.placeValue;
    next := Round(imeiDigits, requests, sum, imeiNumber, st.placeValue / 10, digitPosition + 1);
  }

  /** The entries of the body one by one: the table slice, then the body digits. */
  lemma BodyEntries(source: Source, table: seq<Digit>) returns (body: seq<Digit>)
    requires InRange(source) && |table| >= 2
    ensures |body| == Length - 1
    ensures var k := source(0, 0, |table| / 2); body[0] == table[k] && body[1] == table[k + 1]
    ensures forall p :: 2 <= p < Length - 1 ==> body[p] == BodyDigit(source, p)
  {
    body := BodyFrom(source, table);
  }

  lemma BodyEntriesAreBody(source: Source, table: seq<Digit>, body: seq<Digit>)
    requires InRange(source) && |table| >= 2
    requires |body| == Length - 1
    requires var k := source(0, 0, |table| / 2); body[0] == table[k] && body[1] == table[k + 1]
    requires forall p :: 2 <= p < Length - 1 ==> body[p] == BodyDigit(source, p)
    ensures body == BodyFrom(source, table)
  {
  }

  /** The buffer at the start of round `p`: the first two digits and every digit before `p` are
      filled in, the rest are still zero. */
  ghost function Buffer(body: seq<Digit>, p: nat): seq<int>
    requires p <= |body| == Length - 1
  {
    var filled := if p < 2 then 2 else p;
    body[..filled] + seq(Length - filled, _ => 0)
  }

  lemma BufferStart(body: seq<Digit>, buffer: seq<int>)
    requires |body| == Length - 1 && |buffer| == Length
    requires buffer[0] == body[0] && buffer[1] == body[1]
    requires forall j :: 2 <= j < Length ==> buffer[j] == 0
    ensures buffer == Buffer(body, 0)
  {
  }

  /** Round `p` reads the digit the body holds there: for `p < 2` the buffer already has it, an
      even `p` holds 0, and an odd `p` receives it. */
  lemma BufferStep(body: seq<Digit>, p: nat)
    requires p < |body| == Length - 1
    ensures p < 2 ==> Buffer(body, p)[p] == body[p] && Buffer(body, p + 1) == Buffer(body, p)
    ensures p >= 2 ==> Buffer(body, p)[p] == 0 && Buffer(body, p + 1) == Buffer(body, p)[p := body[p]]
    ensures p >= 2 && body[p] == 0 ==> Buffer(body, p + 1) == Buffer(body, p)
  {
  }

  /** Round `p` of the loop meets the body digit there: an odd `p` past the identifier draws it
      with the request the counter holds, and an even one past it finds 0. */
  lemma DrawStep(source: Source, body: seq<Digit>, p: nat, requests: int)
    requires InRange(source) && p < |body| == Length - 1
    requires forall j :: 2 <= j < Length - 1 ==> body[j] == BodyDigit(source, j)
    requires requests == if p < 2 then 1 else p / 2
    ensures p % 2 != 0 && p > 1 ==> source(requests, 0, 9) == body[p]
    ensures p % 2 == 0 && p >= 2 ==> body[p] == 0
    ensures p % 2 != 0 && p > 1 ==> requests + 1 == (p + 1) / 2
    ensures !(p % 2 != 0 && p > 1) ==> requests == if p + 1 < 2 then 1 else (p + 1) / 2
  {
  }

  /** The running number after `p` rounds: each digit so far times its place value. */
  ghost function Accumulated(body: seq<Digit>, p: nat): int
    requires p <= |body| == Length - 1
  {
    if p == 0 then 0 else Accumulated(body, p - 1) + body[p - 1] * Pow10(Length - p)
  }

  /** One round of the loop: the running sum gains the digit's Luhn term and the place value moves
      one digit right. */
  lemma LoopStep(body: seq<Digit>, p: nat, number: int, placeValue: int)
    requires p < |body| == Length - 1
    requires number == Accumulated(body, p)
    requires placeValue == Pow10(Length - 1 - p)
    ensures PrefixSum(body[..p + 1]) == PrefixSum(body[..p]) + Term(body[p], p)
    ensures Accumulated(body, p + 1) == number + body[p] * placeValue
    ensures placeValue / 10 == Pow10(Length - 1 - (p + 1))
  {
    PrefixStep(body, p);
    assert Length - (p + 1) == Length - 1 - p;
  }

  lemma MulZero(x: int)
    ensures 0 * x == 0
  {
  }

  /** The running number is the value of the digits so far, shifted to their places. */
  lemma {:induction false} AccumulatedIsShiftedValue(body: seq<Digit>, p: nat)
    requires p <= |body| == Length - 1
    ensures Accumulated(body, p) == ValueOf(body[..p]) * Pow10(Length - p)
  {
    if p == 0 {
      assert body[..0] == [];
      MulZero(Pow10(Length - p));
    } else {
      var e, v, d := Length - p, ValueOf(body[..p - 1]), body[p - 1];
      var w := ValueOf(body[..p]);
      AccumulatedIsShiftedValue(body, p - 1);
      assert Accumulated(body, p - 1) == v * Pow10(e + 1);
      assert Accumulated(body, p) == Accumulated(body, p - 1) + d * Pow10(e);
      PrefixStep(body, p - 1);
      assert w == 10 * v + d;
      AccumulateStep(v, d, w, e);
      assert Accumulated(body, p) == w * Pow10(e);
    }
  }

  /** One step of the running sum and the running number. */
  lemma PrefixStep(ds: seq<Digit>, p: nat)
    requires p < |ds|
    ensures PrefixSum(ds[..p + 1]) == PrefixSum(ds[..p]) + Term(ds[p], p)
    ensures ValueOf(ds[..p + 1]) == 10 * ValueOf(ds[..p]) + ds[p]
  {
    assert ds[..p + 1][..p] == ds[..p];
  }

  lemma AccumulateStep(v: nat, d: Digit, w: nat, e: nat)
    requires w == 10 * v + d
    ensures v * Pow10(e + 1) + d * Pow10(e) == w * Pow10(e)
  {
    assert Pow10(e + 1) == 10 * Pow10(e);
  }

  /** The last step: the check digit of the running sum completes the number. */
  lemma CheckDigitStep(body: seq<Digit>, sum: int, number: int)
    requires |body| == Length - 1
    requires sum == PrefixSum(body[..Length - 1])
    requires number == Accumulated(body, Length - 1)
    ensures number + (10 - sum % 10) % 10 == ValueOf(body + [CheckDigit(PrefixSum(body))])
  {
    assert body[..Length - 1] == body;
    AccumulatedIsShiftedValue(body, Length - 1);
    TimesTen(ValueOf(body), Pow10(Length - (Length - 1)));
    var ds := body + [CheckDigit(PrefixSum(body))];
    assert ds[..|ds| - 1] == body;
  }

  lemma TimesTen(x: int, ten: int)
    requires ten == 10
    ensures x * ten == 10 * x
  {
  }

  // ---------------------------------------------------------------------------------------------
  // Validity

  /** Fifteen digits that do not start with two zeros and whose Luhn sum is a multiple of ten
      are the digits of a valid IMEI. */
  lemma LuhnDigitsAreValid(ds: seq<Digit>)
    requires |ds| == Length
    requires ds[0] != 0 || ds[1] != 0
    requires PrefixSum(ds) % 10 == 0
    ensures IsValid(ValueOf(ds))
  {
    var v := ValueOf(ds);
    ChecksumOfDigits(ds);
    LeadingPairBound(ds);
    if v > MaxValue {
      AboveMaxValueFails(v);
    }
  }

  /** Fifteen digits that do not start with two zeros read as a number of at least `10^13`,
      well above `MinValue`, and below `10^15`. */
  lemma LeadingPairBound(ds: seq<Digit>)
    requires |ds| == Length
    requires ds[0] != 0 || ds[1] != 0
    ensures MinValue <= ValueOf(ds) < Pow10(Length)
  {
    ValueOfSplit(ds, 2);
    var pair := ds[..2];
    ValueOfPair(pair);
    PowersOfLength();
    MulAtLeast(Pow10(Length - 2), ValueOf(pair));
    MulCommutes(ValueOf(pair), Pow10(Length - 2));
  }

  /** A Luhn check digit appended to fourteen digits makes the Luhn sum a multiple of ten. */
  lemma CheckDigitCloses(body: seq<Digit>)
    requires |body| == Length - 1
    ensures PrefixSum(body + [CheckDigit(PrefixSum(body))]) % 10 == 0
  {
    var ds := body + [CheckDigit(PrefixSum(body))];
    assert ds[..|ds| - 1] == body;
  }

  /** Two digits read as one two-digit number. */
  function Code(a: Digit, b: Digit): nat {
    10 * (a as int) + b
  }

  /** No two neighbouring entries of the table are both zero, so no slice of two starts with two
      zeros. */
  lemma NeighboursAreNotBothZero(k: nat)
    requires k + 1 < |ReportingBodyIds|
    ensures ReportingBodyIds[k] != 0 || ReportingBodyIds[k + 1] != 0
  {
  }

  /** The two-digit codes the generator can put in front: the slices at 0..16. */
  lemma PickedCodes(k: nat)
    requires k < |ReportingBodyIds| / 2
    ensures Code(ReportingBodyIds[k], ReportingBodyIds[k + 1])
            in {1, 11, 10, 3, 30, 33, 35, 54, 44, 45, 49, 95, 50}
  {
  }

  /** The two-digit codes of the listed identifiers. */
  lemma ListedCodes(i: nat)
    requires i < |ReportingBodyIds| / 2
    ensures Code(ReportingBodyIds[2 * i], ReportingBodyIds[2 * i + 1])
            in {1, 10, 30, 33, 35, 44, 45, 49, 50, 51, 52, 53, 54, 86, 91, 98, 99}
  {
  }

  /** The source's table has no two neighbouring zeros. */
  lemma TableHasNoDoubleZero()
    ensures NoDoubleZero(ReportingBodyIds)
  {
    forall k | 0 <= k < |ReportingBodyIds| - 1
      ensures ReportingBodyIds[k] != 0 || ReportingBodyIds[k + 1] != 0
    {
      NeighboursAreNotBothZero(k);
    }
  }

  /** Whatever the source answers, a table without two neighbouring zeros gives a valid IMEI. */
  lemma BodyFromIsValid(source: Source, table: seq<Digit>)
    requires InRange(source) && |table| >= 2 && NoDoubleZero(table)
    ensures var body := BodyFrom(source, table);
            IsValid(ValueOf(body + [CheckDigit(PrefixSum(body))]))
  {
    var body := BodyFrom(source, table);
    var ds := body + [CheckDigit(PrefixSum(body))];
    CheckDigitCloses(body);
    var k := source(0, 0, |table| / 2);
    assert ds[0] == table[k] && ds[1] == table[k + 1];
    LuhnDigitsAreValid(ds);
  }

  /** Whatever the source answers, the generated number is a valid IMEI. */
  lemma GeneratedIsValid(source: Source)
    requires InRange(source)
    ensures IsValid(ValueOf(GeneratedDigits(source)))
  {
    TableHasNoDoubleZero();
    BodyFromIsValid(source, ReportingBodyIds);
  }

  // ---------------------------------------------------------------------------------------------
  // What the digits can be

  /** The shape of every generated IMEI: its first two digits are the table slice at the first
      answer, which may straddle two identifiers; the even indices 2..12 are always 0; the odd
      indices 3..13 are answers for `[0, 9)`, so never 9. */
  lemma GeneratedShape(source: Source)
    requires InRange(source)
    ensures var k := source(0, 0, |ReportingBodyIds| / 2);
            GeneratedDigits(source)[0] == ReportingBodyIds[k] && GeneratedDigits(source)[1] == ReportingBodyIds[k + 1]
    ensures forall p :: 2 <= p <= 12 && p % 2 == 0 ==> GeneratedDigits(source)[p] == 0
    ensures forall p :: 3 <= p <= 13 && p % 2 == 1 ==> GeneratedDigits(source)[p] <= 8
  {
    var ds := GeneratedDigits(source);
    assert ds[..Length - 1] == GeneratedBody(source);
  }

  /** The two leading digits read as one number. */
  function LeadingCode(ds: seq<Digit>): nat
    requires |ds| >= 2
  {
    Code(ds[0], ds[1])
  }

  /** The first answer indexes digits, not identifiers: answer 1 yields the prefix 11, which is
      the code of no listed identifier. */
  lemma MisalignedPick(source: Source)
    requires InRange(source) && source(0, 0, |ReportingBodyIds| / 2) == 1
    ensures LeadingCode(GeneratedDigits(source)) == 11
    ensures forall i :: 0 <= i < |ReportingBodyIds| / 2 ==> LeadingCode(ListedPair(i)) != 11
  {
    GeneratedShape(source);
    assert ReportingBodyIds[1] == 1 && ReportingBodyIds[2] == 1;
    forall i | 0 <= i < |ReportingBodyIds| / 2
      ensures LeadingCode(ListedPair(i)) != 11
    {
      ListedCodes(i);
    }
  }

  /** The generated prefix is one of thirteen codes, three of which (11, 03 and 95) are no listed
      identifier; the listed identifiers 51, 52, 53, 86, 91, 98 and 99 are never generated. */
  lemma ReachablePrefixes(source: Source)
    requires InRange(source)
    ensures LeadingCode(GeneratedDigits(source)) in {1, 11, 10, 3, 30, 33, 35, 54, 44, 45, 49, 95, 50}
    ensures LeadingCode(GeneratedDigits(source)) !in {51, 52, 53, 86, 91, 98, 99}
  {
    GeneratedShape(source);
    PickedCodes(source(0, 0, |ReportingBodyIds| / 2));
  }

  // ---------------------------------------------------------------------------------------------
  // The seeded generator

  /** The seeded generator builds a fresh `Random(seed)` for every request, so each answer
      depends on the seed and the range only, never on how many requests came before. */
  function SeededSource(next: (int, int, int) -> int, seed: int): Source {
    (k: nat, lo: int, hi: int) => next(seed, lo, hi)
  }

  ghost predicate SeededInRange(next: (int, int, int) -> int) {
    forall seed: int, lo: int, hi: int :: lo < hi ==> lo <= next(seed, lo, hi) < hi
  }

  method NewSeededRandomImei(next: (int, int, int) -> int, seed: int) returns (imei: Imei)
    requires SeededInRange(next)
    ensures imei.value == ValueOf(GeneratedDigits(SeededSource(next, seed)))
    ensures IsValidImei(imei)
  {
    imei := NewRandomImei(SeededSource(next, seed));
  }

  /** With a seed, all six drawn digits are one and the same answer: the seeded overload restarts
      its generator for every request. */
  lemma SeededDrawsCoincide(next: (int, int, int) -> int, seed: int)
    requires SeededInRange(next)
    ensures InRange(SeededSource(next, seed))
    ensures forall p, q :: 3 <= p <= 13 && p % 2 == 1 && 3 <= q <= 13 && q % 2 == 1 ==>
              GeneratedDigits(SeededSource(next, seed))[p] == GeneratedDigits(SeededSource(next, seed))[q]
  {
  }

  /** The seeded generator as evidently intended: one `Random(seed)` per call, asked in turn, so
      the `k`-th request gets the `k`-th answer of the seed's sequence. */
  function SharedSeedSource(stream: (int, nat, int, int) -> int, seed: int): Source {
    (k: nat, lo: int, hi: int) => stream(seed, k, lo, hi)
  }

  ghost predicate StreamInRange(stream: (int, nat, int, int) -> int) {
    forall seed: int, k: nat, lo: int, hi: int :: lo < hi ==> lo <= stream(seed, k, lo, hi) < hi
  }

  /** A sequence of answers keeps a seeded source in range. */
  lemma SharedSeedInRange(stream: (int, nat, int, int) -> int, seed: int)
    requires StreamInRange(stream)
    ensures InRange(SharedSeedSource(stream, seed))
  {
    var source := SharedSeedSource(stream, seed);
    forall k: nat, lo: int, hi: int | lo < hi
      ensures lo <= source(k, lo, hi) < hi
    {
      assert source(k, lo, hi) == stream(seed, k, lo, hi);
    }
  }

  /** Each odd digit from index 3 to 13 is the answer to its own request for `[0, 9)`. */
  lemma DrawnDigits(source: Source)
    requires InRange(source)
    ensures forall p :: 3 <= p <= 13 && p % 2 == 1 ==> GeneratedDigits(source)[p] == source((p - 1) / 2, 0, 9)
  {
    var ds, body := GeneratedDigits(source), GeneratedBody(source);
    forall p | 3 <= p <= 13 && p % 2 == 1
      ensures ds[p] == source((p - 1) / 2, 0, 9)
    {
      assert ds[p] == body[p];
      assert body[p] == body[2..][p - 2];
    }
  }

  /** With one generator per call, the IMEI is still valid, and each drawn digit is its own answer
      from the seed's sequence. */
  lemma SharedSeedDrawsInTurn(stream: (int, nat, int, int) -> int, seed: int)
    requires StreamInRange(stream)
    ensures InRange(SharedSeedSource(stream, seed))
    ensures IsValid(ValueOf(GeneratedDigits(SharedSeedSource(stream, seed))))
    ensures forall p :: 3 <= p <= 13 && p % 2 == 1 ==>
              GeneratedDigits(SharedSeedSource(stream, seed))[p] == stream(seed, (p - 1) / 2, 0, 9)
  {
    var source := SharedSeedSource(stream, seed);
    SharedSeedInRange(stream, seed);
    GeneratedIsValid(source);
    DrawnDigits(source);
  }

  /** A sequence that answers the `k`-th request with `k` itself when it lies in the range, and
      with the range's lowest value otherwise. */
  function IndexStream(): (int, nat, int, int) -> int {
    (seed: int, k: nat, lo: int, hi: int) => if lo <= k < hi then k else lo
  }

  lemma IndexStreamInRange()
    ensures StreamInRange(IndexStream())
  {
    forall seed: int, k: nat, lo: int, hi: int | lo < hi
      ensures lo <= IndexStream()(seed, k, lo, hi) < hi
    {
    }
  }

  /** Unlike the seeded generator as written, the corrected one can draw different digits: with
      the index sequence the first two drawn digits are 1 and 2. */
  lemma SharedSeedDigitsDiffer(seed: int)
    ensures StreamInRange(IndexStream())
    ensures GeneratedDigits(SharedSeedSource(IndexStream(), seed))[3] == 1
    ensures GeneratedDigits(SharedSeedSource(IndexStream(), seed))[5] == 2
  {
    IndexStreamInRange();
    SharedSeedInRange(IndexStream(), seed);
    DrawnDigits(SharedSeedSource(IndexStream(), seed));
  }

  // ---------------------------------------------------------------------------------------------
  // The generator as evidently intended

  /** Digits as the table comment and the loop's purpose intend: the first answer selects a whole
      identifier, and each of the twelve following digits is its own request for `[0, 10)`. */
  function IntendedBody(source: Source): (body: seq<Digit>)
    requires InRange(source)
    ensures |body| == Length - 1
  {
    var i := source(0, 0, |ReportingBodyIds| / 2);
    ListedPair(i) + seq(Length - 3, j requires 0 <= j < Length - 3 => source(j + 1, 0, 10))
  }

  function IntendedDigits(source: Source): (ds: seq<Digit>)
    requires InRange(source)
    ensures |ds| == Length
  {
    var body := IntendedBody(source);
    body + [CheckDigit(PrefixSum(body))]
  }

  /** The intended generator also yields valid IMEIs, always starts with a listed identifier, and
      each digit after the identifier is the answer to its own request. */
  lemma IntendedIsValid(source: Source)
    requires InRange(source)
    ensures IsValid(ValueOf(IntendedDigits(source)))
    ensures exists i :: 0 <= i < |ReportingBodyIds| / 2 && IntendedDigits(source)[..2] == ListedPair(i)
    ensures forall p :: 2 <= p <= 13 ==> IntendedDigits(source)[p] == source(p - 1, 0, 10)
  {
    var ds := IntendedDigits(source);
    var i := source(0, 0, |ReportingBodyIds| / 2);
    CheckDigitCloses(IntendedBody(source));
    NeighboursAreNotBothZero(2 * i);
    assert ds[..2] == ListedPair(i);
    LuhnDigitsAreValid(ds);
    IntendedDraws(source);
  }

  lemma IntendedDraws(source: Source)
    requires InRange(source)
    ensures forall p :: 2 <= p <= 13 ==> IntendedDigits(source)[p] == source(p - 1, 0, 10)
  {
    var ds, body := IntendedDigits(source), IntendedBody(source);
    forall p | 2 <= p <= 13
      ensures ds[p] == source(p - 1, 0, 10)
    {
      assert ds[p] == body[p];
      assert body[p] == body[2..][p - 2];
    }
  }

  /** A source that answers `i` first and the lowest value of every range after that. */
  function PickSource(i: int): Source {
    (k: nat, lo: int, hi: int) => if k == 0 && lo <= i < hi then i else lo
  }

  /** Every listed identifier is produced by the intended generator, unlike the generator as
      written. */
  lemma IntendedReachesEveryPair(i: nat)
    requires i < |ReportingBodyIds| / 2
    ensures InRange(PickSource(i))
    ensures IntendedDigits(PickSource(i))[..2] == ListedPair(i)
  {
    var ds := IntendedDigits(PickSource(i));
    assert ds[..2] == IntendedBody(PickSource(i))[..2];
  }
}
