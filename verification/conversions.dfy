/** The conversions of an IMEI to a `long`, to UTF-16 text and to UTF-8 bytes, and how each one
    reads back through the parsers. */
module Conversions {
  import opened Wrappers
  import opened Decimal
  import opened Constants
  import opened Validators
  import opened Parsers

  function ToInt64(imei: Imei): (n: Int64)
    ensures Imei(n) == imei
  {
    imei.value
  }

  /** `long.ToString()`: the unpadded decimal text, with a leading '-' for a negative value
      followed by the digits of its magnitude. */
  function Int64Text(n: Int64): (s: string)
    ensures |s| >= 1 && IsAscii(s)
    ensures n >= 0 ==> AllDigits(s) && ValueOf(DigitsOfText(s)) == n
    ensures n < 0 ==> |s| >= 2 && s[0] == '-' && AllDigits(s[1..]) && ValueOf(DigitsOfText(s[1..])) == -(n as int)
  {
    RenderValue(if n < 0 then -(n as int) else n as int);
    if n < 0 then "-" + Render(-(n as int)) else Render(n)
  }

  /** The text of the stored number, exactly as `long` prints it: no padding to fifteen digits. */
  function ToString(imei: Imei): (s: string)
    ensures |s| >= 1 && IsAscii(s)
    ensures imei.value >= 0 ==> AllDigits(s) && ValueOf(DigitsOfText(s)) == imei.value
  {
    Int64Text(imei.value)
  }

  /** The same characters as `ToString`, as a span. */
  function ToReadOnlySpan(imei: Imei): (s: string)
    ensures |s| >= 1 && IsAscii(s)
    ensures imei.value >= 0 ==> AllDigits(s) && ValueOf(DigitsOfText(s)) == imei.value
  {
    ToString(imei)
  }

  /** `ToUtf8`: a zeroed fifteen-byte buffer into which the text of the number is formatted. When
      the text is shorter, the trailing bytes stay zero; when it does not fit, the formatter writes
      nothing and the buffer stays all zeros. */
  function ToUtf8(imei: Imei): (bs: seq<Byte>)
    ensures |bs| == Length
    ensures |ToString(imei)| <= Length ==>
              Widen(bs[..|ToString(imei)|]) == ToString(imei)
              && forall i :: |ToString(imei)| <= i < Length ==> bs[i] == 0
    ensures |ToString(imei)| > Length ==> forall i :: 0 <= i < Length ==> bs[i] == 0
  {
    var text := ToString(imei);
    if |text| <= Length then
      var zeros: seq<Byte> := seq(Length - |text|, _ => 0);
      assert (Encode(text) + zeros)[..|text|] == Encode(text);
      WidenEncode(text);
      Encode(text) + zeros
    else
      seq(Length, _ => 0)
  }

  // ---------------------------------------------------------------------------------------------
  // Round trips

  /** The `long` form always reads back: a valid IMEI's number parses to the same IMEI, and any
      number that parses is the number the parsed IMEI converts back to. */
  lemma Int64RoundTrip(imei: Imei, n: Int64)
    ensures IsValidImei(imei) ==> TryParseLong(ToInt64(imei)) == TryResult(true, imei)
    ensures TryParseLong(n).success ==> ToInt64(TryParseLong(n).result) == n
  {
  }

  /** A valid IMEI's text has all fifteen digits exactly when its number has no leading zero. */
  lemma ToStringLength(imei: Imei)
    requires IsValidImei(imei)
    ensures |ToString(imei)| <= Length
    ensures |ToString(imei)| == Length <==> imei.value >= Pow10(Length - 1)
    ensures imei.value >= Pow10(Length - 1) ==> ToString(imei) == Text(DigitsOf(imei.value, Length))
  {
    ValidFitsLength(imei.value);
    ToStringIsRender(imei);
    RenderOfFifteenDigits(imei.value);
  }

  lemma ToStringIsRender(imei: Imei)
    requires imei.value >= 0
    ensures ToString(imei) == Render(imei.value)
  {
  }

  /** A number below `10^15` renders in at most fifteen characters, in exactly fifteen when it has
      no leading zero, and then as its fifteen-digit text. */
  lemma RenderOfFifteenDigits(v: nat)
    requires v < Pow10(Length)
    ensures |Render(v)| <= Length
    ensures |Render(v)| == Length <==> v >= Pow10(Length - 1)
    ensures v >= Pow10(Length - 1) ==> Render(v) == Text(DigitsOf(v, Length))
  {
    if v >= Pow10(Length - 1) {
      RenderAtWidth(v, Length);
    } else {
      RenderShort(v, Length - 1);
    }
  }

  /** Text round trip as the code behaves: the text of a valid IMEI parses back to it exactly when
      the number is at least `10^14`; below that, the dropped leading zeros make it too short. */
  lemma TextRoundTrip(imei: Imei)
    requires IsValidImei(imei)
    ensures TryParseChars(ToString(imei)).success <==> imei.value >= Pow10(Length - 1)
    ensures TryParseChars(ToString(imei)).success ==> TryParseChars(ToString(imei)).result == imei
  {
    ToStringLength(imei);
    if imei.value >= Pow10(Length - 1) {
      ParsePaddedText(imei.value);
    }
  }

  /** UTF-8 round trip as the code behaves: the bytes of a valid IMEI parse back to it exactly when
      the number is at least `10^14`; below that, a zero byte sits inside the fifteen. */
  lemma Utf8RoundTrip(imei: Imei)
    requires IsValidImei(imei)
    ensures TryParseBytes(ToUtf8(imei)).success <==> imei.value >= Pow10(Length - 1)
    ensures TryParseBytes(ToUtf8(imei)).success ==> TryParseBytes(ToUtf8(imei)).result == imei
  {
    var text, bs := ToString(imei), ToUtf8(imei);
    ToStringLength(imei);
    BytesAgreeWithChars(bs);
    if imei.value >= Pow10(Length - 1) {
      assert bs[..|text|] == bs;
      TextRoundTrip(imei);
    } else {
      TextGateCharacterised(Widen(bs));
      assert !IsAsciiDigit(Widen(bs)[|text|]);
    }
  }

  // ---------------------------------------------------------------------------------------------
  // Zero-padded text: what the round trip evidently intends

  /** The text padded with leading zeros to `Length` digits, for numbers that have at most that
      many; other numbers keep their plain text. */
  function ToPaddedText(imei: Imei): (s: string)
    ensures 0 <= imei.value < Pow10(Length) ==> |s| == Length && AllDigits(s)
  {
    if 0 <= imei.value < Pow10(Length) then Text(DigitsOf(imei.value, Length)) else ToString(imei)
  }

  /** The UTF-8 bytes of the padded text. */
  function ToPaddedUtf8(imei: Imei): (bs: seq<Byte>)
    ensures Widen(bs) == ToPaddedText(imei)
  {
    var s := ToPaddedText(imei);
    WidenEncode(s);
    Encode(s)
  }

  /** Every valid IMEI survives the padded text and the padded bytes, and padding changes nothing
      for numbers of fifteen significant digits. */
  lemma PaddedRoundTrip(imei: Imei)
    requires IsValidImei(imei)
    ensures TryParseChars(ToPaddedText(imei)) == TryResult(true, imei)
    ensures TryParseBytes(ToPaddedUtf8(imei)) == TryResult(true, imei)
    ensures imei.value >= Pow10(Length - 1) ==>
              ToPaddedText(imei) == ToString(imei) && ToPaddedUtf8(imei) == ToUtf8(imei)
  {
    ValidFitsLength(imei.value);
    ParsePaddedText(imei.value);
    BytesAgreeWithChars(ToPaddedUtf8(imei));
    if imei.value >= Pow10(Length - 1) {
      ToStringLength(imei);
      var bs := ToUtf8(imei);
      assert bs[..Length] == bs;
    }
  }

  // ---------------------------------------------------------------------------------------------
  // Examples

  /** The smallest valid IMEI, 26, prints as "26", which neither the text nor the byte parser
      accepts back; the padded text does not lose the zeros. */
  lemma LeadingZerosLost()
    ensures IsValidImei(Imei(26))
    ensures ToString(Imei(26)) == "26"
    ensures !TryParseChars(ToString(Imei(26))).success
    ensures ToUtf8(Imei(26)) == [50, 54, 0, 0, 0, 0, 0, 0, 0, 0, 0, 0, 0, 0, 0]
    ensures !TryParseBytes(ToUtf8(Imei(26))).success
    ensures ToPaddedText(Imei(26)) == "000000000000026"
  {
    LeastValidValue();
    PowersOfLength();
    Utf8RoundTrip(Imei(26));
    TextRoundTrip(Imei(26));
    Utf8OfTwentySix();
    PaddedTextOfTwentySix();
  }

  lemma Utf8OfTwentySix()
    ensures ToUtf8(Imei(26)) == [50, 54, 0, 0, 0, 0, 0, 0, 0, 0, 0, 0, 0, 0, 0]
  {
    assert ToString(Imei(26)) == "26";
  }

  lemma PaddedTextOfTwentySix()
    ensures ToPaddedText(Imei(26)) == "000000000000026"
  {
    PowersOfLength();
    DigitsOfZero(13);
    assert DigitsOf(26, Length) == DigitsOf(0, 13) + [2] + [6];
  }

  /** A test IMEI prints as its fifteen digits and parses back from that text. */
  lemma ConversionExamples()
    ensures ToString(Imei(490154203237518)) == "490154203237518"
    ensures TryParseString(Some("490154203237518")) == TryResult(true, Imei(490154203237518))
    ensures ToInt64(Imei(490154203237518)) == 490154203237518
  {
    var n: Int64 := 490154203237518;
    RenderOfSample();
    SumOfSampleImei();
    assert IsValid(n);
    PowersOfLength();
    TextRoundTrip(Imei(n));
  }

  lemma RenderOfSample()
    ensures Render(490154203237518) == "490154203237518"
  {
    assert Render(49) == "49";
    assert Render(490) == "490";
    assert Render(4901) == "4901";
    assert Render(49015) == "49015";
    assert Render(490154) == "490154";
    assert Render(4901542) == "4901542";
    assert Render(49015420) == "49015420";
    assert Render(490154203) == "490154203";
    assert Render(4901542032) == "4901542032";
    assert Render(49015420323) == "49015420323";
    assert Render(490154203237) == "490154203237";
    assert Render(4901542032375) == "4901542032375";
    assert Render(49015420323751) == "49015420323751";
  }
}
