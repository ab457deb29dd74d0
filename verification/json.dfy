/** The JSON converter for IMEIs: how a value is written (a number or a string, decided by the
    converter's write option and, for the default option, by the serializer's number handling),
    how a property name is written, and how a token is read back through the byte parser with a
    format failure turned into a JSON error. The reader and writer themselves are reduced to the
    tokens they are handed. */
module JsonConverter {
  import opened Wrappers
  import opened Decimal
  import opened Constants
  import opened Validators
  import opened Parsers
  import opened Conversions

  /** The integer codes no named member of `JsonImeiWriteOptions` has. */
  type UnnamedCode = c: int | c < 0 || c > 2 witness 3

  /** `JsonImeiWriteOptions`. Being an enum it can hold any integer besides its three named
      members (codes 0, 1 and 2); such an unnamed value is kept with its code. */
  datatype WriteOptions = Default | ForceWriteAsNumber | ForceWriteAsString | Unnamed(code: UnnamedCode)

  /** The converter and its one setting. */
  datatype Converter = Converter(writeOptions: WriteOptions)

  /** A converter created without initialising `WriteOptions`. */
  const DefaultConverter: Converter := Converter(Default)

  /** The members of the `JsonNumberHandling` flags enum. */
  datatype NumberHandlingFlag = AllowReadingFromString | WriteAsString | AllowNamedFloatingPointLiterals

  /** The part of `JsonSerializerOptions` the converter consults. */
  datatype SerializerOptions = SerializerOptions(numberHandling: set<NumberHandlingFlag>)

  /** A JSON token as the writer emits it and the reader sees it; `raw` is the token's value span,
      the UTF-8 bytes without quotes. */
  datatype JsonToken =
    | NumberToken(raw: seq<Byte>)
    | StringToken(raw: seq<Byte>)
    | PropertyNameToken(raw: seq<Byte>)
    | NullToken

  /** The one error the converter reports, wrapping the parser's format error. */
  datatype JsonError = JsonException(inner: ParseError)

  // ---------------------------------------------------------------------------------------------
  // Writing

  /** `Utf8JsonWriter.WriteNumberValue(long)`: the number's decimal text. */
  function WriteNumberValue(n: Int64): (t: JsonToken)
    ensures t.NumberToken? && Widen(t.raw) == Int64Text(n)
  {
    WidenEncode(Int64Text(n));
    NumberToken(Encode(Int64Text(n)))
  }

  /** `Utf8JsonWriter.WriteStringValue` on an IMEI's text, which is ASCII digits and at most a
      minus sign, so nothing in it needs escaping. */
  function WriteStringValue(s: string): (t: JsonToken)
    requires IsAscii(s)
    ensures t.StringToken? && Widen(t.raw) == s
  {
    WidenEncode(s);
    StringToken(Encode(s))
  }

  /** `Utf8JsonWriter.WritePropertyName` on an IMEI's text. */
  function WritePropertyName(s: string): (t: JsonToken)
    requires IsAscii(s)
    ensures t.PropertyNameToken? && Widen(t.raw) == s
  {
    WidenEncode(s);
    PropertyNameToken(Encode(s))
  }

  /** Whether the serializer options ask for numbers to be written as strings; null options do
      not. */
  predicate AsksForStrings(options: Option<SerializerOptions>) {
    options.Some? && WriteAsString in options.value.numberHandling
  }

  /** `Write`: the forced options decide alone; the default option, and any unnamed value, falls
      back to the serializer's number handling. */
  function Write(converter: Converter, imei: Imei, options: Option<SerializerOptions>): (t: JsonToken)
    ensures t.NumberToken? || t.StringToken?
    ensures t.NumberToken? ==> Widen(t.raw) == Int64Text(ToInt64(imei))
    ensures t.StringToken? ==> Widen(t.raw) == ToReadOnlySpan(imei)
  {
    match converter.writeOptions
    case ForceWriteAsNumber => WriteNumberValue(ToInt64(imei))
    case ForceWriteAsString => WriteStringValue(ToReadOnlySpan(imei))
    case _ =>
      if !AsksForStrings(options) then
        WriteNumberValue(ToInt64(imei))
      else
        WriteStringValue(ToReadOnlySpan(imei))
  }

  /** `WriteAsPropertyName`: a dictionary key is always the IMEI's text. */
  function WriteAsPropertyName(converter: Converter, imei: Imei, options: SerializerOptions): (t: JsonToken)
    ensures t.PropertyNameToken? && Widen(t.raw) == ToReadOnlySpan(imei)
  {
    WritePropertyName(ToReadOnlySpan(imei))
  }

  // ---------------------------------------------------------------------------------------------
  // Reading

  /** The reader's value span of a token; the null literal's span is its four letters. */
  function ValueSpan(t: JsonToken): (bs: seq<Byte>)
    ensures t.NullToken? ==> |bs| == 4
  {
    match t
    case NumberToken(raw) => raw
    case StringToken(raw) => raw
    case PropertyNameToken(raw) => raw
    case NullToken => [110, 117, 108, 108]
  }

  /** `Read`: the token's value span goes to the byte parser whatever the token's kind, and a
      format failure comes back as a JSON error wrapping it. */
  function Read(t: JsonToken, options: SerializerOptions): (r: Result<Imei, JsonError>)
    ensures r.Success? <==> TryParseBytes(ValueSpan(t)).success
    ensures r.Success? ==> r.value == TryParseBytes(ValueSpan(t)).result && IsValidImei(r.value)
    ensures r.Failure? ==> r.error == JsonException(InvalidFormat)
  {
    match ParseBytes(ValueSpan(t))
    case Success(imei) => Success(imei)
    case Failure(e) => Failure(JsonException(e))
  }

  /** `ReadAsPropertyName`: a dictionary key reads like a value. */
  function ReadAsPropertyName(t: JsonToken, options: SerializerOptions): (r: Result<Imei, JsonError>)
    ensures r.Success? <==> IsValidBytes(ValueSpan(t))
    ensures r.Success? ==> IsValidImei(r.value)
    ensures r.Failure? ==> r.error == JsonException(InvalidFormat)
  {
    Read(t, options)
  }

  // ---------------------------------------------------------------------------------------------
  // Properties

  /** The write policy: `ForceWriteAsNumber` always writes a number, `ForceWriteAsString` always a
      string, and every other option writes a string exactly when the options are present and ask
      for strings. */
  lemma WritePolicy(converter: Converter, imei: Imei, options: Option<SerializerOptions>)
    ensures converter.writeOptions == ForceWriteAsNumber ==> Write(converter, imei, options).NumberToken?
    ensures converter.writeOptions == ForceWriteAsString ==> Write(converter, imei, options).StringToken?
    ensures converter.writeOptions != ForceWriteAsNumber && converter.writeOptions != ForceWriteAsString ==>
              (Write(converter, imei, options).StringToken? <==> AsksForStrings(options))
  {
  }

  /** A forced option makes the written token independent of the serializer options, and an
      unnamed option writes exactly what the default one does. */
  lemma WriteOptionsIndependence(imei: Imei, o1: Option<SerializerOptions>, o2: Option<SerializerOptions>, code: UnnamedCode)
    ensures Write(Converter(ForceWriteAsNumber), imei, o1) == Write(Converter(ForceWriteAsNumber), imei, o2)
    ensures Write(Converter(ForceWriteAsString), imei, o1) == Write(Converter(ForceWriteAsString), imei, o2)
    ensures Write(Converter(Unnamed(code)), imei, o1) == Write(DefaultConverter, imei, o1)
  {
  }

  /** A property name carries the same bytes as a forced string value, whatever the converter's
      option or the serializer's number handling. */
  lemma PropertyNameIsString(converter: Converter, imei: Imei, options: SerializerOptions)
    ensures WriteAsPropertyName(converter, imei, options).raw
         == Write(Converter(ForceWriteAsString), imei, Some(options)).raw
  {
    var a, b := WriteAsPropertyName(converter, imei, options).raw, Write(Converter(ForceWriteAsString), imei, Some(options)).raw;
    WidenInjective(a, b);
  }

  lemma WidenInjective(a: seq<Byte>, b: seq<Byte>)
    requires Widen(a) == Widen(b)
    ensures a == b
  {
    assert |a| == |b|;
    forall i | 0 <= i < |a|
      ensures a[i] == b[i]
    {
      assert Widen(a)[i] == Widen(b)[i];
    }
  }

  /** Whatever token carries an IMEI's fifteen-digit text, reading it gives the IMEI back. */
  lemma ReadOfFifteenDigitText(t: JsonToken, imei: Imei, options: SerializerOptions)
    requires IsValidImei(imei) && imei.value >= Pow10(Length - 1)
    requires !t.NullToken? && Widen(t.raw) == ToString(imei)
    ensures Read(t, options) == Success(imei)
  {
    BytesAgreeWithChars(t.raw);
    TextRoundTrip(imei);
  }

  /** Round trip: an IMEI of fifteen significant digits, written as a value under any option or as
      a property name, reads back as itself. */
  lemma JsonRoundTrip(converter: Converter, imei: Imei, writeOptions: Option<SerializerOptions>, options: SerializerOptions)
    requires IsValidImei(imei) && imei.value >= Pow10(Length - 1)
    ensures Read(Write(converter, imei, writeOptions), options) == Success(imei)
    ensures ReadAsPropertyName(WriteAsPropertyName(converter, imei, options), options) == Success(imei)
  {
    ReadOfFifteenDigitText(Write(converter, imei, writeOptions), imei, options);
    ReadOfFifteenDigitText(WriteAsPropertyName(converter, imei, options), imei, options);
  }

  /** A valid IMEI whose first digit is zero does not survive the converter: its number or text
      has fewer than fifteen digits, which the reader rejects. */
  lemma JsonLeadingZerosLost(converter: Converter, imei: Imei, writeOptions: Option<SerializerOptions>, options: SerializerOptions)
    requires IsValidImei(imei) && imei.value < Pow10(Length - 1)
    ensures Read(Write(converter, imei, writeOptions), options) == Failure(JsonException(InvalidFormat))
    ensures ReadAsPropertyName(WriteAsPropertyName(converter, imei, options), options) == Failure(JsonException(InvalidFormat))
  {
    ToStringLength(imei);
    BytesAgreeWithChars(Write(converter, imei, writeOptions).raw);
    BytesAgreeWithChars(WriteAsPropertyName(converter, imei, options).raw);
  }

  /** The reader ignores the token's kind: the same bytes read the same as a number, a string or a
      property name. */
  lemma ReadIgnoresTokenKind(raw: seq<Byte>, options: SerializerOptions)
    ensures Read(NumberToken(raw), options) == Read(StringToken(raw), options)
    ensures Read(StringToken(raw), options) == Read(PropertyNameToken(raw), options)
  {
  }

  /** The write outcomes the source's tests expect: the options there always allow reading from
      strings and add `WriteAsString` when asked. */
  lemma WriteExamples(imei: Imei)
    ensures Write(DefaultConverter, imei, Some(SerializerOptions({AllowReadingFromString}))).NumberToken?
    ensures Write(DefaultConverter, imei, Some(SerializerOptions({AllowReadingFromString, WriteAsString}))).StringToken?
    ensures Write(Converter(ForceWriteAsNumber), imei, Some(SerializerOptions({AllowReadingFromString, WriteAsString}))).NumberToken?
    ensures Write(Converter(ForceWriteAsString), imei, Some(SerializerOptions({AllowReadingFromString}))).StringToken?
    ensures Write(DefaultConverter, imei, None).NumberToken?
  {
  }

  /** The read outcomes the source's tests expect for a non-number string and for null: a JSON
      error wrapping the format error. */
  lemma ReadExamples(options: SerializerOptions)
    ensures Read(StringToken([97, 98, 99]), options) == Failure(JsonException(InvalidFormat))
    ensures Read(NullToken, options) == Failure(JsonException(InvalidFormat))
  {
  }
}
