/** Building an IMEI directly from a number, a text or UTF-8 bytes. Every constructor takes a
    `shouldValidate` flag; the public ones read it from a process-wide setting that is on by
    default. With validation on, a constructor accepts exactly what the matching parser accepts;
    with it off, it stores whatever number the platform parser reads, valid or not. */
module Construction {
  import opened Wrappers
  import opened Decimal
  import opened Constants
  import opened Validators
  import opened Parsers
  import opened Conversions

  /** What a constructor throws: a format error (also the validating paths' only error), an
      overflow or a null argument from the platform's `long.Parse`. */
  datatype ConstructionError = FormatError | OverflowError | NullArgument

  /** The process-wide `ShouldValidateWhileInitialization` switch. */
  datatype Settings = Settings(shouldValidateWhileInitialization: bool)

  /** The switch as a process starts: validation on. */
  const DefaultSettings: Settings := Settings(true)

  /** `long.Parse` on a possibly null text, over plain ASCII digits: null, a non-number and an
      overflowing number each fail in their own way. */
  function LongParse(s: NullableString): (r: Result<Int64, ConstructionError>)
    ensures r.Success? <==> s.Some? && ParseInt64(s.value).Some?
    ensures r.Success? ==> r.value == ParseInt64(s.value).value
    ensures r == Failure(NullArgument) <==> s.None?
    ensures s.Some? && (|s.value| == 0 || !AllDigits(s.value)) ==> r == Failure(FormatError)
    ensures s.Some? && |s.value| > 0 && AllDigits(s.value) ==>
              (ValueOf(DigitsOfText(s.value)) > Int64MaxValue <==> r == Failure(OverflowError))
  {
    if s.None? then
      Failure(NullArgument)
    else if |s.value| == 0 || !AllDigits(s.value) then
      Failure(FormatError)
    else if ValueOf(DigitsOfText(s.value)) > Int64MaxValue then
      Failure(OverflowError)
    else
      Success(ValueOf(DigitsOfText(s.value)))
  }

  /** What the unchecked byte constructor stores: the number the UTF-8 parser reads from the
      leading digits, or 0 when it reads none. */
  function Utf8ValueOrZero(bs: seq<Byte>): (n: Int64)
    ensures Utf8ParseInt64(bs).Some? ==> n == Utf8ParseInt64(bs).value.value
    ensures Utf8ParseInt64(bs).None? ==> n == 0
  {
    match Utf8ParseInt64(bs)
    case Some(p) => p.value
    case None => 0
  }

  function FromGate(n: Option<Int64>): (r: Result<Imei, ConstructionError>)
    ensures r.Success? <==> n.Some?
    ensures r.Success? ==> r.value == Imei(n.value)
  {
    if n.Some? then Success(Imei(n.value)) else Failure(FormatError)
  }

  function NewFromLong(n: Int64, shouldValidate: bool): (r: Result<Imei, ConstructionError>)
    ensures r.Success? ==> r.value == Imei(n)
    ensures r.Failure? <==> shouldValidate && !IsValid(n)
    ensures shouldValidate && r.Success? ==> IsValidImei(r.value)
  {
    if shouldValidate && !IsValid(n) then Failure(FormatError) else Success(Imei(n))
  }

  function NewFromString(s: NullableString, shouldValidate: bool): (r: Result<Imei, ConstructionError>)
    ensures shouldValidate && r.Success? ==> IsValidImei(r.value)
    ensures shouldValidate && r.Failure? ==> r.error == FormatError
  {
    if !shouldValidate then
      match LongParse(s)
      case Success(n) => Success(Imei(n))
      case Failure(e) => Failure(e)
    else
      FromGate(TryParseInternalChars(AsSpan(s)))
  }

  function NewFromChars(cs: string, shouldValidate: bool): (r: Result<Imei, ConstructionError>)
    ensures shouldValidate && r.Success? ==> IsValidImei(r.value)
    ensures shouldValidate && r.Failure? ==> r.error == FormatError
    ensures r.Failure? ==> r.error != NullArgument
  {
    if !shouldValidate then
      match LongParse(Some(cs))
      case Success(n) => Success(Imei(n))
      case Failure(e) => Failure(e)
    else
      FromGate(TryParseInternalChars(cs))
  }

  function NewFromBytes(bs: seq<Byte>, shouldValidate: bool): (r: Result<Imei, ConstructionError>)
    ensures !shouldValidate ==> r.Success?
    ensures shouldValidate && r.Success? ==> IsValidImei(r.value)
  {
    if !shouldValidate then
      Success(Imei(Utf8ValueOrZero(bs)))
    else
      FromGate(TryParseInternalBytes(bs))
  }

  // The public constructors, which read the process-wide switch

  function FromLong(settings: Settings, n: Int64): (r: Result<Imei, ConstructionError>)
    ensures r.Success? ==> r.value == Imei(n)
    ensures r.Failure? <==> settings.shouldValidateWhileInitialization && !IsValid(n)
  {
    NewFromLong(n, settings.shouldValidateWhileInitialization)
  }

  function FromString(settings: Settings, s: NullableString): (r: Result<Imei, ConstructionError>)
    ensures settings.shouldValidateWhileInitialization && r.Success? ==> IsValidImei(r.value)
    ensures settings.shouldValidateWhileInitialization && r.Failure? ==> r.error == FormatError
  {
    NewFromString(s, settings.shouldValidateWhileInitialization)
  }

  function FromChars(settings: Settings, cs: string): (r: Result<Imei, ConstructionError>)
    ensures settings.shouldValidateWhileInitialization && r.Success? ==> IsValidImei(r.value)
    ensures settings.shouldValidateWhileInitialization && r.Failure? ==> r.error == FormatError
  {
    NewFromChars(cs, settings.shouldValidateWhileInitialization)
  }

  function FromBytes(settings: Settings, bs: seq<Byte>): (r: Result<Imei, ConstructionError>)
    ensures !settings.shouldValidateWhileInitialization ==> r.Success?
    ensures settings.shouldValidateWhileInitialization && r.Success? ==> IsValidImei(r.value)
  {
    NewFromBytes(bs, settings.shouldValidateWhileInitialization)
  }

  // ---------------------------------------------------------------------------------------------
  // Properties

  /** With validation on, each constructor succeeds exactly when the matching parse-or-fail does,
      with the same IMEI. */
  lemma ValidatingConstructorsAgreeWithParsers(n: Int64, s: NullableString, cs: string, bs: seq<Byte>)
    ensures NewFromLong(n, true).Success? <==> ParseLong(n).Success?
    ensures NewFromLong(n, true).Success? ==> NewFromLong(n, true).value == ParseLong(n).value
    ensures NewFromString(s, true).Success? <==> ParseString(s).Success?
    ensures NewFromString(s, true).Success? ==> NewFromString(s, true).value == ParseString(s).value
    ensures NewFromChars(cs, true).Success? <==> ParseChars(cs).Success?
    ensures NewFromChars(cs, true).Success? ==> NewFromChars(cs, true).value == ParseChars(cs).value
    ensures NewFromBytes(bs, true).Success? <==> ParseBytes(bs).Success?
    ensures NewFromBytes(bs, true).Success? ==> NewFromBytes(bs, true).value == ParseBytes(bs).value
  {
  }

  /** The default switch makes every public constructor the validating one. */
  lemma DefaultSettingsValidate(n: Int64, s: NullableString, cs: string, bs: seq<Byte>)
    ensures FromLong(DefaultSettings, n).Success? <==> IsValid(n)
    ensures FromString(DefaultSettings, s).Success? <==> IsValidString(s)
    ensures FromChars(DefaultSettings, cs).Success? <==> IsValidChars(cs)
    ensures FromBytes(DefaultSettings, bs).Success? <==> IsValidBytes(bs)
  {
    IsValidStringIsGate(s);
  }

  /** With validation off, any number is stored unchanged, and any non-negative number is rebuilt
      from its own text and from its own UTF-8 bytes, leading zeros or not. */
  lemma UncheckedRoundTrips(imei: Imei)
    ensures NewFromLong(imei.value, false) == Success(imei)
    ensures imei.value >= 0 ==> NewFromChars(ToString(imei), false) == Success(imei)
    ensures imei.value >= 0 ==> NewFromString(Some(ToString(imei)), false) == Success(imei)
    ensures 0 <= imei.value < Pow10(Length) ==> NewFromBytes(ToUtf8(imei), false) == Success(imei)
  {
    if imei.value >= 0 {
      UncheckedTextRoundTrip(imei);
    }
    if 0 <= imei.value < Pow10(Length) {
      UncheckedUtf8RoundTrip(imei);
    }
  }

  lemma UncheckedTextRoundTrip(imei: Imei)
    requires imei.value >= 0
    ensures LongParse(Some(ToString(imei))) == Success(imei.value)
  {
    ToStringIsRender(imei);
    RenderValue(imei.value);
  }

  lemma UncheckedUtf8RoundTrip(imei: Imei)
    requires 0 <= imei.value < Pow10(Length)
    ensures Utf8ValueOrZero(ToUtf8(imei)) == imei.value
  {
    ToStringIsRender(imei);
    RenderShort(imei.value, Length);
    Utf8ParseOfPaddedText(ToUtf8(imei), ToString(imei));
  }

  /** With validation off, a text that is not a number still fails, a digit text too large for a
      `long` overflows, and bytes with no leading digit give the zero value, which is the `Invalid`
      sentinel. */
  lemma UncheckedRejections(s: NullableString, cs: string, bs: seq<Byte>)
    ensures s.None? ==> NewFromString(s, false) == Failure(NullArgument)
    ensures s.Some? && !AllDigits(s.value) ==> NewFromString(s, false) == Failure(FormatError)
    ensures (|cs| == 0 || !AllDigits(cs)) ==> NewFromChars(cs, false) == Failure(FormatError)
    ensures |cs| > 0 && AllDigits(cs) && ValueOf(DigitsOfText(cs)) > Int64MaxValue ==>
              NewFromChars(cs, false) == Failure(OverflowError)
    ensures (|bs| == 0 || !IsAsciiDigitByte(bs[0])) ==> NewFromBytes(bs, false) == Success(Invalid)
  {
  }

  /** The outcomes the source's tests expect of the number constructor. */
  lemma LongConstructorExamples()
    ensures NewFromLong(123456789012345, false) == Success(Imei(123456789012345))
    ensures NewFromLong(123456789012345, true) == Failure(FormatError)
    ensures NewFromLong(0, true) == Failure(FormatError)
    ensures NewFromLong(Int64MaxValue, true) == Failure(FormatError)
    ensures NewFromLong(490154203237518, true) == Success(Imei(490154203237518))
  {
    ValidationExamples();
  }

  /** The outcomes the source's tests expect of the text and byte constructors. */
  lemma TextConstructorExamples()
    ensures FromString(DefaultSettings, None) == Failure(FormatError)
    ensures FromString(DefaultSettings, Some("")) == Failure(FormatError)
    ensures FromChars(DefaultSettings, "") == Failure(FormatError)
    ensures FromBytes(DefaultSettings, []) == Failure(FormatError)
    ensures NewFromString(None, false) == Failure(NullArgument)
  {
  }

  /** The sample IMEI's text builds the sample IMEI under the default switch. */
  lemma SampleTextConstructs()
    ensures FromString(DefaultSettings, Some("490154203237518")) == Success(Imei(490154203237518))
  {
    ConversionExamples();
  }
}
