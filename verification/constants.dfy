/** The IMEI value itself and the constants of its layout: one signed 64-bit integer per value,
    fifteen decimal digits, a numeric range and the sentinel used before a real value exists. */
module Constants {
  import opened Decimal

  /** A value of the source's `long`. */
  type Int64 = x: int | -0x8000_0000_0000_0000 <= x <= 0x7FFF_FFFF_FFFF_FFFF

  const Int64MaxValue: Int64 := 0x7FFF_FFFF_FFFF_FFFF

  /** The number of digits of an IMEI: the width of every checksum loop, parser gate and UTF-8 buffer. */
  const Length: nat := 15

  /** The lower end of the numeric range gate, documented as the least valid IMEI. */
  const MinValue: Int64 := 19

  /** The upper end of the numeric range gate: the greatest fifteen-digit number with a valid check digit. */
  const MaxValue: Int64 := 999_999_999_999_994

  /** The stored value of the sentinel `Invalid`. */
  const InvalidValue: Int64 := 0

  /** An IMEI: a single stored integer, immutable once built. Nothing in the type forces the
      integer to be a valid IMEI; construction with validation switched off stores any `long`. */
  datatype Imei = Imei(value: Int64)

  /** The sentinel that try-parsers hand back on failure. */
  const Invalid: Imei := Imei(InvalidValue)

  /** The range gate lies inside the non-negative fifteen-digit numbers, and the sentinel lies
      below it. */
  lemma RangeFitsLength()
    ensures InvalidValue < MinValue <= MaxValue < Pow10(Length)
  {
    PowersOfLength();
  }

  /** The powers of ten at the IMEI's width, written out. */
  lemma PowersOfLength()
    ensures Pow10(Length - 2) == 10_000_000_000_000
    ensures Pow10(Length - 1) == 100_000_000_000_000
    ensures Pow10(Length) == 1_000_000_000_000_000
  {
    assert Pow10(7) == 10_000_000;
    Pow10Add(7, 6);
  }
}
