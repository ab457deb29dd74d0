/** Decimal digits, their values and their text forms: the arithmetic that every IMEI encoding
    (integer, UTF-16 text, UTF-8 bytes) is built on. */
module Decimal {

  /** A decimal digit value. */
  type Digit = d: int | 0 <= d < 10

  /** One byte of UTF-8 text. */
  type Byte = b: int | 0 <= b < 256

  function Pow10(k: nat): (r: nat)
    ensures r >= 1
  {
    if k == 0 then 1 else 10 * Pow10(k - 1)
  }

  /** The value of a digit sequence read most significant digit first. */
  function ValueOf(ds: seq<Digit>): (n: nat)
    ensures n < Pow10(|ds|)
  {
    if |ds| == 0 then 0 else 10 * ValueOf(ds[..|ds| - 1]) + ds[|ds| - 1]
  }

  /** The lowest `width` decimal digits of `n`, most significant first; a number with fewer
      digits is padded with leading zeros. */
  function DigitsOf(n: nat, width: nat): (ds: seq<Digit>)
    ensures |ds| == width
  {
    if width == 0 then [] else DigitsOf(n / 10, width - 1) + [n % 10]
  }

  /** The unpadded decimal rendering of `n` (no leading zeros; `0` renders as "0"). */
  function Render(n: nat): (s: string)
    ensures |s| >= 1
    ensures AllDigits(s)
  {
    if n < 10 then [DigitChar(n)] else Render(n / 10) + [DigitChar(n % 10)]
  }

  // ---------------------------------------------------------------------------------------------
  // Characters and bytes

  predicate IsAsciiDigit(c: char) {
    '0' <= c <= '9'
  }

  predicate AllDigits(s: string) {
    forall i :: 0 <= i < |s| ==> IsAsciiDigit(s[i])
  }

  function DigitChar(d: Digit): (c: char)
    ensures IsAsciiDigit(c)
  {
    (48 + d) as char
  }

  function CharDigit(c: char): (d: Digit)
    requires IsAsciiDigit(c)
    ensures DigitChar(d) == c
  {
    c as int - 48
  }

  /** The text of a digit sequence, one character per digit. */
  function Text(ds: seq<Digit>): (s: string)
    ensures |s| == |ds|
    ensures AllDigits(s)
    ensures forall i :: 0 <= i < |ds| ==> CharDigit(s[i]) == ds[i]
  {
    seq(|ds|, i requires 0 <= i < |ds| => DigitChar(ds[i]))
  }

  /** The digit values of an all-digit text. */
  function DigitsOfText(s: string): (ds: seq<Digit>)
    requires AllDigits(s)
    ensures |ds| == |s|
    ensures Text(ds) == s
  {
    seq(|s|, i requires 0 <= i < |s| => CharDigit(s[i]))
  }

  predicate IsAsciiDigitByte(b: Byte) {
    48 <= b <= 57
  }

  predicate IsAscii(s: string) {
    forall i :: 0 <= i < |s| ==> s[i] as int < 128
  }

  /** The UTF-8 encoding of an ASCII text: one byte per character, same code. */
  function Encode(s: string): (bs: seq<Byte>)
    requires IsAscii(s)
    ensures |bs| == |s|
    ensures forall i :: 0 <= i < |s| ==> bs[i] == s[i] as int
  {
    seq(|s|, i requires 0 <= i < |s| => s[i] as int)
  }

  /** Each byte read as the character with the same code. */
  function Widen(bs: seq<Byte>): (s: string)
    ensures |s| == |bs|
    ensures forall i :: 0 <= i < |bs| ==> s[i] as int == bs[i]
  {
    seq(|bs|, i requires 0 <= i < |bs| => bs[i] as char)
  }

  // ---------------------------------------------------------------------------------------------
  // Arithmetic facts

  lemma {:induction false} MulAtLeast(m: int, k: int)
    requires m > 0 && k >= 1
    ensures m * k >= m
  {
    if k > 1 {
      MulAtLeast(m, k - 1);
      assert m * k == m * (k - 1) + m;
    }
  }

  lemma MulLe(a: nat, x: nat, y: nat)
    requires x <= y
    ensures a * x <= a * y
  {
    if x < y {
      assert a * y == a * x + a * (y - x);
    }
  }

  /** Division and remainder are determined by any decomposition `n == m * q + r` with `0 <= r < m`. */
  lemma DivModUnique(n: int, m: int, q: int, r: int)
    requires m > 0 && 0 <= r < m && n == m * q + r
    ensures n / m == q && n % m == r
  {
    var q', r' := n / m, n % m;
    assert n == m * q' + r';
    if q > q' {
      MulAtLeast(m, q - q');
      assert false;
    } else if q < q' {
      MulAtLeast(m, q' - q);
      assert false;
    }
  }

  lemma DivDiv(n: nat, a: nat, b: nat)
    requires a > 0 && b > 0
    ensures n / a / b == n / (a * b)
  {
    var q, r := n / a, n % a;
    var q2, r2 := q / b, q % b;
    assert n == a * q + r;
    assert q == b * q2 + r2;
    assert a * q == a * (b * q2) + a * r2;
    assert a * (b * q2) == (a * b) * q2;
    assert n == (a * b) * q2 + (a * r2 + r);
    MulLe(a, r2, b - 1);
    assert a * (b - 1) == a * b - a;
    DivModUnique(n, a * b, q2, a * r2 + r);
  }

  lemma {:induction false} Pow10Add(i: nat, j: nat)
    ensures Pow10(i + j) == Pow10(i) * Pow10(j)
  {
    if i > 0 {
      Pow10Add(i - 1, j);
    }
  }

  lemma Pow10Monotone(i: nat, j: nat)
    requires i <= j
    ensures Pow10(i) <= Pow10(j)
  {
    Pow10Add(i, j - i);
  }

  /** One more low digit: `10 * ((n / 10) % p) + n % 10 == n % (10 * p)`. */
  lemma AppendLowDigit(n: nat, p: nat)
    requires p > 0
    ensures 10 * ((n / 10) % p) + n % 10 == n % (10 * p)
  {
    var q, r := n / 10, n % 10;
    var a, b := q / p, q % p;
    assert q == p * a + b;
    assert (10 * p) * a == 10 * (p * a);
    assert n == (10 * p) * a + (10 * b + r);
    DivModUnique(n, 10 * p, a, 10 * b + r);
  }

  /** `DigitsOf` keeps exactly the value of `n` modulo `10^width`. */
  lemma {:induction false} ValueOfDigitsOf(n: nat, width: nat)
    ensures ValueOf(DigitsOf(n, width)) == n % Pow10(width)
  {
    if width > 0 {
      var ds := DigitsOf(n, width);
      ValueOfDigitsOf(n / 10, width - 1);
      assert ds[..width - 1] == DigitsOf(n / 10, width - 1);
      assert ValueOf(ds) == 10 * ((n / 10) % Pow10(width - 1)) + n % 10;
      AppendLowDigit(n, Pow10(width - 1));
    }
  }

  /** Reading a digit sequence and writing it back at the same width gives the sequence back. */
  lemma {:induction false} DigitsOfValueOf(ds: seq<Digit>)
    ensures DigitsOf(ValueOf(ds), |ds|) == ds
  {
    if |ds| > 0 {
      var pre, d := ds[..|ds| - 1], ds[|ds| - 1];
      DigitsOfValueOf(pre);
      DivModUnique(ValueOf(ds), 10, ValueOf(pre), d);
      assert ds == pre + [d];
    }
  }

  /** The digits at a width depend on `n` only modulo `10^width`. */
  lemma DigitsOfMod(n: nat, width: nat)
    ensures DigitsOf(n % Pow10(width), width) == DigitsOf(n, width)
  {
    ValueOfDigitsOf(n, width);
    DigitsOfValueOf(DigitsOf(n, width));
  }

  /** A number below `10^width` is exactly the value of its `width` digits. */
  lemma ValueOfDigitsOfSmall(n: nat, width: nat)
    requires n < Pow10(width)
    ensures ValueOf(DigitsOf(n, width)) == n
  {
    ValueOfDigitsOf(n, width);
  }

  lemma {:induction false} ValueOfConcat(a: seq<Digit>, b: seq<Digit>)
    ensures ValueOf(a + b) == ValueOf(a) * Pow10(|b|) + ValueOf(b)
  {
    if |b| > 0 {
      var b', d := b[..|b| - 1], b[|b| - 1];
      var ab := a + b;
      assert ab[..|ab| - 1] == a + b';
      ValueOfConcat(a, b');
      ShiftDigit(ValueOf(a), Pow10(|b'|), ValueOf(b'), d);
    } else {
      assert a + b == a;
    }
  }

  lemma ValueOfSplit(ds: seq<Digit>, i: nat)
    requires i <= |ds|
    ensures ValueOf(ds) == ValueOf(ds[..i]) * Pow10(|ds| - i) + ValueOf(ds[i..])
  {
    assert ds[..i] + ds[i..] == ds;
    ValueOfConcat(ds[..i], ds[i..]);
  }

  lemma ValueOfPair(ds: seq<Digit>)
    requires |ds| == 2
    ensures ValueOf(ds) == 10 * (ds[0] as int) + ds[1]
  {
    assert ds[..1] == [ds[0]];
  }

  lemma MulCommutes(a: int, b: int)
    ensures a * b == b * a
  {
  }

  lemma ShiftDigit(va: int, p: int, v: int, d: int)
    ensures 10 * (va * p + v) + d == va * (10 * p) + (10 * v + d)
  {
  }

  /** Zero digits in front do not change the value. */
  lemma LeadingZeros(k: nat, ds: seq<Digit>)
    ensures ValueOf(seq(k, _ => 0) + ds) == ValueOf(ds)
  {
    var zs: seq<Digit> := seq(k, _ => 0);
    ValueOfConcat(zs, ds);
    ZerosValue(k);
  }

  lemma {:induction false} ZerosValue(k: nat)
    ensures ValueOf(seq(k, _ => 0)) == 0
  {
    if k > 0 {
      assert seq(k, _ => 0)[..k - 1] == seq(k - 1, _ => 0);
      ZerosValue(k - 1);
    }
  }

  lemma {:induction false} DigitsOfZero(width: nat)
    ensures DigitsOf(0, width) == seq(width, _ => 0)
  {
    if width > 0 {
      DigitsOfZero(width - 1);
    }
  }

  // ---------------------------------------------------------------------------------------------
  // Text facts

  lemma DigitsOfTextOfText(ds: seq<Digit>)
    ensures DigitsOfText(Text(ds)) == ds
  {
  }

  lemma TextInjective(a: seq<Digit>, b: seq<Digit>)
    requires Text(a) == Text(b)
    ensures a == b
  {
    DigitsOfTextOfText(a);
    DigitsOfTextOfText(b);
  }

  lemma DigitTextIsAscii(s: string)
    requires AllDigits(s)
    ensures IsAscii(s)
  {
  }

  lemma WidenEncode(s: string)
    requires IsAscii(s)
    ensures Widen(Encode(s)) == s
  {
  }

  /** The unpadded rendering of a number with exactly `width` digits is its `width`-digit text. */
  lemma {:induction false} RenderAtWidth(n: nat, width: nat)
    requires width >= 1 && Pow10(width - 1) <= n < Pow10(width)
    ensures Render(n) == Text(DigitsOf(n, width))
  {
    if width == 1 {
      assert DigitsOf(n, 1) == [n];
    } else {
      DivModUnique(n, 10, n / 10, n % 10);
      assert Pow10(width - 2) <= n / 10 < Pow10(width - 1);
      RenderAtWidth(n / 10, width - 1);
    }
  }

  /** A number below `10^width` renders in at most `width` characters. */
  lemma {:induction false} RenderShort(n: nat, width: nat)
    requires width >= 1 && n < Pow10(width)
    ensures |Render(n)| <= width
  {
    if n >= 10 {
      assert width >= 2;
      RenderShort(n / 10, width - 1);
    }
  }

  /** Reading back the unpadded rendering gives the number. */
  lemma {:induction false} RenderValue(n: nat)
    ensures ValueOf(DigitsOfText(Render(n))) == n
  {
    if n >= 10 {
      RenderValue(n / 10);
      var ds := DigitsOfText(Render(n));
      assert ds[..|ds| - 1] == DigitsOfText(Render(n / 10));
    }
  }
}
