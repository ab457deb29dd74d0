/** Parsing an IMEI from a `long`, from UTF-16 text and from UTF-8 bytes, in a try-parse form
    (success flag plus result, `Invalid` on failure) and a parse-or-fail form; and the `IsValid`
    overloads on text and bytes, which are the try-parsers' success flags. */
module Parsers {
  import opened Wrappers
  import opened Decimal
  import opened Constants
  import opened Validators

  /** The one failure kind of every parse-or-fail entry point. */
  datatype ParseError = InvalidFormat

  /** A try-parse outcome: the returned flag and the `out` result. */
  datatype TryResult = TryResult(success: bool, result: Imei)

  /** A `string` reference, which may be null. */
  type NullableString = Option<string>

  /** `AsSpan` of a string: a null string gives the empty span. */
  function AsSpan(s: NullableString): string {
    if s.None? then [] else s.value
  }

  // ---------------------------------------------------------------------------------------------
  // The platform's number parsers, over plain ASCII digits

  /** `long.TryParse` / `long.Parse` on text: a non-empty run of ASCII digits whose value fits in
      a `long`. */
  function ParseInt64(s: string): (r: Option<Int64>)
    ensures r.Some? ==> |s| > 0 && AllDigits(s)
  {
    if |s| > 0 && AllDigits(s) && ValueOf(DigitsOfText(s)) <= Int64MaxValue then
      Some(ValueOf(DigitsOfText(s)))
    else
      None
  }

  /** The number of leading ASCII digit bytes. */
  function LeadingDigitCount(bs: seq<Byte>): (k: nat)
    ensures k <= |bs|
    ensures forall i :: 0 <= i < k ==> IsAsciiDigitByte(bs[i])
    ensures k < |bs| ==> !IsAsciiDigitByte(bs[k])
  {
    if |bs| == 0 || !IsAsciiDigitByte(bs[0]) then 0 else 1 + LeadingDigitCount(bs[1..])
  }

  /** The digit values of a run of ASCII digit bytes. */
  function ByteDigits(bs: seq<Byte>): (ds: seq<Digit>)
    requires forall i :: 0 <= i < |bs| ==> IsAsciiDigitByte(bs[i])
    ensures |ds| == |bs|
  {
    seq(|bs|, i requires 0 <= i < |bs| => ByteDigit(bs[i]))
  }

  function ByteDigit(b: Byte): (d: Digit)
    requires IsAsciiDigitByte(b)
    ensures DigitChar(d) as int == b
  {
    b as int - 48
  }

  /** What `Utf8Parser.TryParse` reports for a `long`: the value and the bytes it consumed. */
  datatype Utf8Parsed = Utf8Parsed(value: Int64, consumed: nat)

  /** `Utf8Parser.TryParse` for a `long`: reads the longest run of leading ASCII digits and fails
      when there is none or when its value overflows a `long`. */
  function Utf8ParseInt64(bs: seq<Byte>): (r: Option<Utf8Parsed>)
    ensures r.Some? ==> 0 < r.value.consumed <= |bs|
  {
    var k := LeadingDigitCount(bs);
    if k > 0 && ValueOf(ByteDigits(bs[..k])) <= Int64MaxValue then
      Some(Utf8Parsed(ValueOf(ByteDigits(bs[..k])), k))
    else
      None
  }

  // ---------------------------------------------------------------------------------------------
  // The internal gates shared by parsers, validators and validating constructors

  /** The text gate: exactly `Length` characters, a numeric parse, then `IsValid`. */
  function TryParseInternalChars(s: string): (r: Option<Int64>)
    ensures r.Some? ==> IsValid(r.value) && AllDigits(s)
    ensures |s| != Length ==> r.None?
  {
    if |s| != Length then
      None
    else
      match ParseInt64(s)
      case Some(n) => if IsValid(n) then Some(n) else None
      case None => None
  }

  /** The byte gate: exactly `Length` bytes, all of them consumed by the number parser, then
      `IsValid`. */
  function TryParseInternalBytes(bs: seq<Byte>): (r: Option<Int64>)
    ensures r.Some? ==> IsValid(r.value)
    ensures |bs| != Length ==> r.None?
  {
    if |bs| != Length then
      None
    else
      match Utf8ParseInt64(bs)
      case Some(p) => if p.consumed == Length && IsValid(p.value) then Some(p.value) else None
      case None => None
  }

  // ---------------------------------------------------------------------------------------------
  // Public parsers

  /** Lift an internal gate's outcome to a try-parse result. */
  function ToTryResult(n: Option<Int64>): (r: TryResult)
    ensures r.success <==> n.Some?
    ensures r.success ==> r.result == Imei(n.value)
    ensures !r.success ==> r.result == Invalid
  {
    if n.Some? then TryResult(true, Imei(n.value)) else TryResult(false, Invalid)
  }

  /** Lift a try-parse result to parse-or-fail. */
  function OrFail(t: TryResult): (r: Result<Imei, ParseError>)
    ensures r.Success? <==> t.success
    ensures r.Success? ==> r.value == t.result
  {
    if t.success then Success(t.result) else Failure(InvalidFormat)
  }

  function TryParseLong(number: Int64): (r: TryResult)
    ensures r.success <==> IsValid(number)
    ensures r.success ==> r.result.value == number
    ensures r.success <==> IsValidImei(r.result)
    ensures !r.success ==> r.result == Invalid
  {
    if IsValid(number) then TryResult(true, Imei(number)) else TryResult(false, Invalid)
  }

  function ParseLong(number: Int64): (r: Result<Imei, ParseError>)
    ensures r.Success? <==> IsValid(number)
    ensures r.Success? ==> r.value == Imei(number) && IsValidImei(r.value)
  {
    OrFail(TryParseLong(number))
  }

  function TryParseChars(s: string): (r: TryResult)
    ensures r.success <==> IsValidChars(s)
    ensures r.success ==> r.result.value == TryParseInternalChars(s).value
    ensures r.success <==> IsValidImei(r.result)
    ensures !r.success ==> r.result == Invalid
  {
    ToTryResult(TryParseInternalChars(s))
  }

  function ParseChars(s: string): (r: Result<Imei, ParseError>)
    ensures r.Success? <==> IsValidChars(s)
    ensures r.Success? ==> IsValidImei(r.value) && r.value.value == TryParseInternalChars(s).value
  {
    OrFail(TryParseChars(s))
  }

  function TryParseString(s: NullableString): (r: TryResult)
    ensures s.None? ==> r == TryResult(false, Invalid)
    ensures s.Some? ==> r == TryParseChars(s.value)
    ensures r.success <==> IsValidString(s)
  {
    TryParseChars(AsSpan(s))
  }

  function ParseString(s: NullableString): (r: Result<Imei, ParseError>)
    ensures s.None? ==> r == Failure(InvalidFormat)
    ensures s.Some? ==> r == ParseChars(s.value)
    ensures r.Success? <==> IsValidString(s)
  {
    ParseChars(AsSpan(s))
  }

  function TryParseBytes(bs: seq<Byte>): (r: TryResult)
    ensures r.success <==> IsValidBytes(bs)
    ensures r.success ==> r.result.value == TryParseInternalBytes(bs).value
    ensures r.success <==> IsValidImei(r.result)
    ensures !r.success ==> r.result == Invalid
  {
    ToTryResult(TryParseInternalBytes(bs))
  }

  function ParseBytes(bs: seq<Byte>): (r: Result<Imei, ParseError>)
    ensures r.Success? <==> IsValidBytes(bs)
    ensures r.Success? ==> IsValidImei(r.value) && r.value.value == TryParseInternalBytes(bs).value
  {
    OrFail(TryParseBytes(bs))
  }

  // ---------------------------------------------------------------------------------------------
  // The text and byte overloads of `IsValid`

  /** `char.IsWhiteSpace`: the Unicode space, line and paragraph separators and the controls
      U+0009..U+000D and U+0085. */
  predicate IsWhiteSpace(c: char) {
    var k := c as int;
    k == 0x20 || 0x09 <= k <= 0x0D || k == 0x85 || k == 0xA0 || k == 0x1680
    || 0x2000 <= k <= 0x200A || k == 0x2028 || k == 0x2029 || k == 0x202F || k == 0x205F
    || k == 0x3000
  }

  predicate IsNullOrWhiteSpace(s: NullableString) {
    s.None? || forall i :: 0 <= i < |s.value| ==> IsWhiteSpace(s.value[i])
  }

  predicate IsValidChars(s: string)
    ensures IsValidChars(s) ==> |s| == Length && AllDigits(s)
  {
    TryParseInternalChars(s).Some?
  }

  predicate IsValidString(s: NullableString)
    ensures IsValidString(s) ==> s.Some? && |s.value| == Length && AllDigits(s.value)
  {
    !IsNullOrWhiteSpace(s) && TryParseInternalChars(AsSpan(s)).Some?
  }

  predicate IsValidBytes(bs: seq<Byte>)
    ensures IsValidBytes(bs) ==> |bs| == Length
  {
    TryParseInternalBytes(bs).Some?
  }

  // ---------------------------------------------------------------------------------------------
  // Properties

  /** The text gate accepts exactly the fifteen-digit texts whose value is a valid IMEI; a
      fifteen-digit value can never overflow a `long`. */
  lemma TextGateCharacterised(s: string)
    ensures TryParseInternalChars(s).Some?
        <==> |s| == Length && AllDigits(s)
             && MinValue <= ValueOf(DigitsOfText(s)) <= MaxValue && IsChecksumValid(ValueOf(DigitsOfText(s)))
    ensures TryParseInternalChars(s).Some? ==> TryParseInternalChars(s).value == ValueOf(DigitsOfText(s))
  {
    if |s| == Length && AllDigits(s) {
      assert Pow10(Length) == 1_000_000_000_000_000;
    }
  }

  /** Round trip, text side: the fifteen-digit zero-padded text of a valid number parses back to
      that number. */
  lemma ParsePaddedText(n: Int64)
    requires IsValid(n)
    ensures TryParseInternalChars(Text(DigitsOf(n, Length))) == Some(n)
  {
    var s := Text(DigitsOf(n, Length));
    ValidFitsLength(n);
    DigitsOfTextOfText(DigitsOf(n, Length));
    ValueOfDigitsOfSmall(n, Length);
    TextGateCharacterised(s);
  }

  /** Round trip, number side: a text the gate accepts is exactly the zero-padded text of the
      number it yields, so no two accepted texts give the same IMEI. */
  lemma AcceptedTextIsPadded(s: string)
    requires TryParseInternalChars(s).Some?
    ensures s == Text(DigitsOf(TryParseInternalChars(s).value, Length))
  {
    TextGateCharacterised(s);
    DigitsOfValueOf(DigitsOfText(s));
  }

  /** On exactly fifteen bytes, the number parser consumes everything precisely when every byte is
      an ASCII digit, and then it never overflows. */
  lemma FifteenByteParse(bs: seq<Byte>)
    requires |bs| == Length
    ensures (Utf8ParseInt64(bs).Some? && Utf8ParseInt64(bs).value.consumed == Length)
        <==> AllDigits(Widen(bs))
  {
    var k := LeadingDigitCount(bs);
    if AllDigits(Widen(bs)) {
      DigitBytes(bs);
      assert k == Length;
      assert Pow10(Length) == 1_000_000_000_000_000;
    } else {
      var i :| 0 <= i < |bs| && !IsAsciiDigit(Widen(bs)[i]);
      assert !IsAsciiDigitByte(bs[i]);
    }
  }

  /** Bytes whose characters are digits are digit bytes, and they denote the same digits. */
  lemma DigitBytes(bs: seq<Byte>)
    requires AllDigits(Widen(bs))
    ensures forall i :: 0 <= i < |bs| ==> IsAsciiDigitByte(bs[i])
    ensures ByteDigits(bs) == DigitsOfText(Widen(bs))
  {
    forall i | 0 <= i < |bs|
      ensures IsAsciiDigitByte(bs[i])
    {
      assert IsAsciiDigit(Widen(bs)[i]);
    }
  }

  /** The number parser reads exactly the run of digits that ends at the first non-digit. */
  lemma Utf8ParsePrefix(bs: seq<Byte>, m: nat)
    requires 0 < m <= |bs|
    requires forall i :: 0 <= i < m ==> IsAsciiDigitByte(bs[i])
    requires m < |bs| ==> !IsAsciiDigitByte(bs[m])
    requires ValueOf(ByteDigits(bs[..m])) <= Int64MaxValue
    ensures Utf8ParseInt64(bs) == Some(Utf8Parsed(ValueOf(ByteDigits(bs[..m])), m))
  {
    var k := LeadingDigitCount(bs);
    assert k == m;
  }

  /** Digits followed by zero bytes: the number parser reads the digits and stops at the first
      zero. */
  lemma Utf8ParseOfPaddedText(bs: seq<Byte>, text: string)
    requires 1 <= |text| <= |bs| && AllDigits(text)
    requires Widen(bs[..|text|]) == text
    requires forall i :: |text| <= i < |bs| ==> bs[i] == 0
    requires ValueOf(DigitsOfText(text)) <= Int64MaxValue
    ensures Utf8ParseInt64(bs) == Some(Utf8Parsed(ValueOf(DigitsOfText(text)), |text|))
  {
    var m := |text|;
    var digits := bs[..m];
    DigitBytes(digits);
    assert forall i :: 0 <= i < m ==> digits[i] == bs[i];
    Utf8ParsePrefix(bs, m);
  }

  /** The byte gate agrees with the text gate on the byte-for-character reading of its input: both
      accept the same inputs and yield the same number. This holds for the digits-only parsers of
      this model; the platform's `long.TryParse` also admits white space and trailing NUL
      characters, which `Utf8Parser.TryParse` does not, so there the two gates can disagree. */
  lemma BytesAgreeWithChars(bs: seq<Byte>)
    ensures TryParseInternalBytes(bs) == TryParseInternalChars(Widen(bs))
  {
    if |bs| == Length {
      FifteenByteParse(bs);
      TextGateCharacterised(Widen(bs));
      if AllDigits(Widen(bs)) {
        assert bs[..Length] == bs;
        DigitBytes(bs);
      }
    }
  }

  /** The whitespace guard of `IsValid(string)` changes nothing: a text of digits is never blank.
      So `IsValid(string)` is false for null and otherwise equals the text gate's success. */
  lemma IsValidStringIsGate(s: NullableString)
    ensures IsValidString(s) <==> s.Some? && IsValidChars(s.value)
    ensures IsValidString(s) <==> s.Some? && TryParseString(s).success
  {
    if s.Some? && TryParseInternalChars(s.value).Some? {
      DigitTextIsNotBlank(s.value);
    }
  }

  lemma DigitTextIsNotBlank(s: string)
    requires |s| > 0 && AllDigits(s)
    ensures !IsNullOrWhiteSpace(Some(s))
  {
    assert IsAsciiDigit(s[0]);
  }

  /** Every successful parse, whatever the source, stores a number that satisfies `IsValid`, and
      every failed try-parse leaves `Invalid`. */
  lemma ParsedValuesAreValid(n: Int64, cs: string, s: NullableString, bs: seq<Byte>)
    ensures TryParseLong(n).success ==> IsValid(TryParseLong(n).result.value)
    ensures TryParseChars(cs).success ==> IsValid(TryParseChars(cs).result.value)
    ensures TryParseString(s).success ==> IsValid(TryParseString(s).result.value)
    ensures TryParseBytes(bs).success ==> IsValid(TryParseBytes(bs).result.value)
    ensures !TryParseLong(n).success ==> TryParseLong(n).result == Invalid
    ensures !TryParseChars(cs).success ==> TryParseChars(cs).result == Invalid
    ensures !TryParseString(s).success ==> TryParseString(s).result == Invalid
    ensures !TryParseBytes(bs).success ==> TryParseBytes(bs).result == Invalid
  {
  }

  /** Parse-or-fail yields exactly the try-parse value and fails exactly when it fails. */
  lemma ParseAgreesWithTryParse(n: Int64, s: NullableString, bs: seq<Byte>)
    ensures ParseLong(n).Success? <==> TryParseLong(n).success
    ensures ParseLong(n).Success? ==> ParseLong(n).value == TryParseLong(n).result
    ensures ParseString(s).Success? <==> TryParseString(s).success
    ensures ParseString(s).Success? ==> ParseString(s).value == TryParseString(s).result
    ensures ParseBytes(bs).Success? <==> TryParseBytes(bs).success
    ensures ParseBytes(bs).Success? ==> ParseBytes(bs).value == TryParseBytes(bs).result
  {
  }

  /** The outcomes the source's tests expect for texts of the wrong length and for null. */
  lemma ParseExamples()
    ensures TryParseLong(0) == TryResult(false, Invalid)
    ensures TryParseLong(123456789012345) == TryResult(false, Invalid)
    ensures TryParseLong(490154203237518) == TryResult(true, Imei(490154203237518))
    ensures ParseLong(123456789012345) == Failure(InvalidFormat)
    ensures TryParseLong(490154203123) == TryResult(false, Invalid)
    ensures TryParseString(Some("490154203123")) == TryResult(false, Invalid)
    ensures TryParseString(Some("")) == TryResult(false, Invalid)
    ensures TryParseString(None) == TryResult(false, Invalid)
    ensures ParseString(None) == Failure(InvalidFormat)
    ensures !IsValidString(Some("")) && !IsValidString(None)
  {
    ValidationExamples();
  }
}
