# ImeiType in Dafny

A model of the `Imei` value type of BMTLab/ImeiType and its System.Text.Json converter. An IMEI
is stored as one signed 64-bit number. It is valid when it lies in `[MinValue, MaxValue]` and
passes the Luhn check over exactly fifteen digits. The check is the Luhn formula that Annex B of
3GPP TS 23.003 prescribes.

The model covers:

- the constants: `Length = 15`, `MinValue = 19`, `MaxValue = 999999999999994` and the sentinel
  `Invalid = 0`;
- the `IsValid` overloads on numbers, IMEIs, character spans, strings and UTF-8 bytes;
- the try-parse and parse-or-fail entry points for `long`, text and bytes, and the two internal
  gates they share;
- the private constructors with their `shouldValidate` flag, and the public constructors that read
  the process-wide `ShouldValidateWhileInitialization` switch;
- `ToInt64`, `ToString`, `ToReadOnlySpan` and `ToUtf8`;
- the `Tac`, `Fac` and `Snr` parts;
- the random generator, seeded and unseeded;
- equality, the `==` / `!=` operators and the hash code;
- the JSON converter's write decision, its property-name writing and its read error mapping.

Modules follow the source's partial files:

- `Decimal`: digits, their values and their text;
- `Luhn`: the checksum scheme;
- `Constants`;
- `Validators`;
- `Parsers`;
- `Conversions`;
- `Construction`;
- `Parts`;
- `Equality`;
- `Generators`;
- `JsonConverter`.

Operations are pure functions, except the generator, which is a method with the source's loop.

The model makes these choices:

- **Text and bytes.** Text is a sequence of characters and bytes are integers `0..255`. The
  platform's number parsers (`long.Parse`, `long.TryParse`, `Utf8Parser.TryParse`) are modelled on
  plain ASCII digits. A parse fails on anything else and on overflow.
- **The validation switch.** The process-wide switch is an explicit `Settings` value whose default
  is `true`. `ToImei` and the explicit conversion operators only call the public constructors, so
  `FromLong`, `FromString`, `FromChars` and `FromBytes` stand for them too.
- **Randomness.** Randomness is a parameter `source(k, lo, hi)`: the answer to the `k`-th request
  for an integer in `[lo, hi)`. The seeded overload builds a fresh `Random(seed)` for every
  request. It is therefore modelled by a source that ignores `k`: all requests with the same range
  get the same answer.
- **Null.** A `null` string is `None`. An `object` handed to `Equals` is `Null`, a boxed IMEI or
  some other object.

The program is inconsistent about padding. `Length = 15` is documented as the standard length of an
IMEI (src/ImeiType/Imei.Constants.cs:8-10), and `ToUtf8` asserts that it wrote exactly `Length`
bytes (src/Core/ImeiType/Imei.cs:303). Yet the text and byte output print the stored `long` without
padding, so an IMEI with a leading zero comes out shorter. The model follows the code as written
and, under "Findings", proves what that costs.

## Model

| member | source | states |
|---|---|---|
| Luhn.CheckDigit | src/Core/ImeiType/Imei.Generators.cs:97-98 | the appended digit makes the running Luhn sum a multiple of ten |
| Luhn.CheckDigitUnique | src/Core/ImeiType/Imei.Generators.cs:97-98 | no other digit completes the sum, so the check digit is determined by the other fourteen |
| Luhn.LoopSumIsWeightedSum | src/Core/ImeiType/Imei.Validators.cs:97-124 | the validator's fifteen rounds of `% 10` and `/ 10` compute the Luhn weighted sum of the number's zero-padded digits, doubling at odd positions from the right |
| Luhn.PrefixSumIsWeightedSum | src/Core/ImeiType/Imei.Generators.cs:70-91 | the generator weighs by left index; this agrees with weighing by right position whenever the two have the same parity, as they do for fifteen digits |
| Constants.RangeFitsLength | src/ImeiType/Imei.Constants.cs:10-29 | the sentinel lies below the range, and the range lies inside the non-negative fifteen-digit numbers |
| Validators.IsChecksumValid | src/Core/ImeiType/Imei.Validators.cs:97-124 | the checksum: fifteen rounds of the Luhn weighting over the number's digits, least significant first, accepted when the total is a multiple of ten |
| Validators.IsValid | src/Core/ImeiType/Imei.Validators.cs:44-48 | a number is valid when it lies in `[MinValue, MaxValue]` and passes the checksum |
| Validators.IsValidImei | src/Core/ImeiType/Imei.Validators.cs:27-29 | an IMEI is valid when it is not the sentinel and its number is valid |
| Validators.ChecksumLaw | src/Core/ImeiType/Imei.Validators.cs:97-124 | the checksum holds exactly when the weighted sum of the fifteen-digit zero-padded form is a multiple of ten |
| Validators.ChecksumReadsFifteenDigits | src/Core/ImeiType/Imei.Validators.cs:103-120 | only the lowest fifteen digits matter: a number and its remainder modulo `10^15` pass or fail together |
| Validators.ChecksumOfDigits | src/Core/ImeiType/Imei.Validators.cs:97-124 | for fifteen digits, the loop's verdict equals the Luhn sum's verdict, whether weighed from the right or from the left |
| Validators.SingleDigitErrorDetected | src/Core/ImeiType/Imei.Validators.cs:97-124 | changing any one digit of a checksum-valid fifteen-digit number makes it fail |
| Validators.IsValidImeiIsValidValue | src/Core/ImeiType/Imei.Validators.cs:27-29 | the sentinel comparison adds nothing: an IMEI is valid exactly when its number is |
| Validators.ValidFitsLength | src/Core/ImeiType/Imei.Validators.cs:44-48 | every valid number is positive and has at most fifteen digits |
| Validators.MaxValueIsGreatest | src/ImeiType/Imei.Constants.cs:19-24 | `MaxValue` is valid, and no larger fifteen-digit number passes the checksum |
| Validators.AboveMaxValueFails | src/ImeiType/Imei.Constants.cs:19-24 | every fifteen-digit number above `MaxValue` fails the checksum |
| Validators.MinValueFailsChecksum | src/ImeiType/Imei.Constants.cs:12-17 | the documented least valid value 19 has Luhn sum 11 and is not valid |
| Validators.LeastValidValue | src/ImeiType/Imei.Constants.cs:12-17 | 26 is the least valid number; a lower bound of 26 would accept exactly the same numbers |
| Validators.InvalidIsNeverValid | src/ImeiType/Imei.Constants.cs:26-34 | the sentinel and its number never pass validation |
| Validators.ValidationExamples | src/Core/ImeiType.Tests.Unit/ImeiValidationTests.cs:6-10 | the sample numbers are valid; the negative, sequential, twelve-digit, zero and `long.MaxValue` inputs are not |
| Parsers.AsSpan | src/ImeiType/Imei.Parsers.cs:140-141 | a null string gives the empty span, and any other string its own characters |
| Parsers.ParseInt64 | src/ImeiType/Imei.Parsers.cs:304 | `long.TryParse` on digits-only text: a result only for a non-empty run of ASCII digits whose value fits a `long` |
| Parsers.Utf8ParseInt64 | src/ImeiType/Imei.Parsers.cs:326-327 | `Utf8Parser.TryParse` on digits-only bytes: the value of the leading digit run, and a count of consumed bytes between one and the input's length |
| Parsers.TryParseInternalChars | src/ImeiType/Imei.Parsers.cs:295-311 | the text gate accepts only digit texts with valid values, and rejects every text whose length is not fifteen |
| Parsers.TryParseInternalBytes | src/ImeiType/Imei.Parsers.cs:317-335 | the byte gate accepts only valid values, and rejects every input whose length is not fifteen |
| Parsers.TextGateCharacterised | src/ImeiType/Imei.Parsers.cs:295-311 | both directions: the text gate succeeds iff the text is fifteen ASCII digits whose value is valid, and then yields that value |
| Parsers.ParsePaddedText | src/ImeiType/Imei.Parsers.cs:295-311 | the fifteen-digit zero-padded text of any valid number passes the gate with that number |
| Parsers.AcceptedTextIsPadded | src/ImeiType/Imei.Parsers.cs:295-311 | an accepted text is the padded text of the number it yields, so two accepted texts never give the same IMEI |
| Parsers.FifteenByteParse | src/ImeiType/Imei.Parsers.cs:326-327 | on fifteen bytes, the number parser consumes all of them iff every byte is an ASCII digit |
| Parsers.Utf8ParseOfPaddedText | src/Core/ImeiType/Imei.cs:143-148 | digits followed by zero bytes parse to the digits' value, consuming only the digits |
| Parsers.BytesAgreeWithChars | src/ImeiType/Imei.Parsers.cs:317-335 | for the digits-only parsers of this model, the byte gate and the text gate agree on every input read byte for character; the platform's parsers differ (see Left out) |
| Parsers.TryParseLong | src/ImeiType/Imei.Parsers.cs:49-63 | succeeds iff the number is valid, and then holds that number; on failure the result is `Invalid` |
| Parsers.ParseLong | src/ImeiType/Imei.Parsers.cs:27-35 | succeeds iff the number is valid, with the IMEI of that number |
| Parsers.ParseChars | src/ImeiType/Imei.Parsers.cs:76-84 | succeeds exactly when `IsValid` holds for the span, with a valid IMEI of the gate's number; otherwise a format error |
| Parsers.TryParseChars | src/ImeiType/Imei.Parsers.cs:99-111 | succeeds exactly when `IsValid` holds for the span, with the IMEI of the gate's number; `Invalid` on failure |
| Parsers.TryParseString | src/ImeiType/Imei.Parsers.cs:140-141 | a null string fails with `Invalid`, any other string parses as its span, and success holds exactly when `IsValid` holds for the string |
| Parsers.ParseString | src/ImeiType/Imei.Parsers.cs:124-125 | a null string is a format error, any other string parses as its span, and success holds exactly when `IsValid` holds for the string |
| Parsers.TryParseBytes | src/ImeiType/Imei.Parsers.cs:186-200 | succeeds exactly when `IsValid` holds for the bytes, with the IMEI of the gate's number; `Invalid` on failure |
| Parsers.ParseBytes | src/ImeiType/Imei.Parsers.cs:157-167 | succeeds exactly when `IsValid` holds for the bytes, with a valid IMEI of the gate's number; otherwise a format error |
| Parsers.IsValidChars | src/Core/ImeiType/Imei.Validators.cs:57-58 | a span the text gate accepts: it then has fifteen characters, all ASCII digits |
| Parsers.IsValidString | src/Core/ImeiType/Imei.Validators.cs:70-72 | a non-blank string the text gate accepts: it then is non-null, with fifteen ASCII digits |
| Parsers.IsValidBytes | src/Core/ImeiType/Imei.Validators.cs:84-85 | bytes the byte gate accepts: exactly fifteen of them |
| Parsers.IsValidStringIsGate | src/Core/ImeiType/Imei.Validators.cs:70-72 | the blank-text guard never decides: `IsValid(string)` is false for null and otherwise equals the text gate and the try-parse |
| Parsers.ParsedValuesAreValid | src/ImeiType/Imei.Parsers.cs:49-200 | for numbers, spans, strings and bytes, every successful try-parse holds a valid number and every failed one leaves `Invalid` |
| Parsers.ParseAgreesWithTryParse | src/ImeiType/Imei.Parsers.cs:157-167 | parse-or-fail succeeds exactly when try-parse does, with the same IMEI, for numbers, strings and bytes |
| Parsers.ParseExamples | src/Core/ImeiType.Tests.Unit/ImeiParsingTest.cs:93-121 | the outcomes the parsing tests expect for valid, invalid, short, zero, empty and null inputs, numbers and strings alike |
| Conversions.Int64Text | src/Core/ImeiType/Imei.cs:287-288 | the text is ASCII; for a non-negative number it is digits that read back as the number, and a negative number's text is `-` followed by digits that read back as its magnitude |
| Conversions.ToInt64 | src/Core/ImeiType/Imei.cs:269-270 | the stored number, from which the same IMEI is rebuilt |
| Conversions.ToString | src/Core/ImeiType/Imei.cs:287-288 | for a non-negative number, digits that read back as the stored number |
| Conversions.ToReadOnlySpan | src/Core/ImeiType/Imei.cs:278-279 | ASCII characters; for a non-negative number, digits that read back as the stored number |
| Conversions.ToUtf8 | src/Core/ImeiType/Imei.cs:295-306 | fifteen bytes: the text followed by zero bytes, or all zeros when the text does not fit |
| Conversions.Int64RoundTrip | src/Core/ImeiType/Imei.cs:269-270 | a valid IMEI's number parses back to the same IMEI, and a parsed IMEI converts back to the parsed number |
| Conversions.ToStringLength | src/Core/ImeiType/Imei.cs:287-288 | a valid IMEI's text has fifteen characters iff its number is at least `10^14`, and is then its padded text |
| Conversions.TextRoundTrip | src/Core/ImeiType/Imei.cs:287-288 | both directions: the text of a valid IMEI parses back, to the same IMEI, iff the number is at least `10^14` |
| Conversions.Utf8RoundTrip | src/Core/ImeiType/Imei.cs:295-306 | both directions: the bytes of a valid IMEI parse back, to the same IMEI, iff the number is at least `10^14` |
| Conversions.ToPaddedText | src/Core/ImeiType/Imei.cs:287-288 | the corrected text: exactly fifteen digits for every number below `10^15` |
| Conversions.PaddedRoundTrip | src/Core/ImeiType/Imei.cs:287-306 | every valid IMEI survives its padded text and padded bytes; padding changes nothing for fifteen significant digits |
| Conversions.LeadingZerosLost | src/Core/ImeiType/Imei.cs:287-306 | the valid IMEI 26 prints as "26", and neither its text nor its bytes parse back |
| Conversions.ConversionExamples | tests/ImeiType.Tests.Unit/ImeiConversionTest.cs:20-44 | the sample IMEI's number and text are as the conversion tests expect, and the text parses back |
| Construction.LongParse | src/Core/ImeiType/Imei.cs:104-111 | `long.Parse` succeeds exactly on texts the number parser reads, with that number; null is a null-argument error, a non-digit or empty text a format error, and a digit text above `long.MaxValue` an overflow |
| Construction.Utf8ValueOrZero | src/Core/ImeiType/Imei.cs:141-151 | the unchecked byte constructor stores the parsed leading number, or 0 when no digit leads |
| Construction.NewFromLong | src/Core/ImeiType/Imei.cs:93-101 | fails exactly when validating and the number is invalid; otherwise stores the number unchanged |
| Construction.NewFromString | src/Core/ImeiType/Imei.cs:104-119 | when validating, the result is a valid IMEI or a format error |
| Construction.NewFromChars | src/Core/ImeiType/Imei.cs:122-137 | when validating, the result is a valid IMEI or a format error; a span is never null, so there is never a null-argument error |
| Construction.NewFromBytes | src/Core/ImeiType/Imei.cs:141-159 | never fails without validation; when validating, the result is valid |
| Construction.FromLong | src/Core/ImeiType/Imei.cs:57-59 | stores the number unchanged, and fails exactly when the switch is on and the number is invalid |
| Construction.FromString | src/Core/ImeiType/Imei.cs:67-69 | with the switch on, a valid IMEI or a format error |
| Construction.FromChars | src/Core/ImeiType/Imei.cs:77-79 | with the switch on, a valid IMEI or a format error |
| Construction.FromBytes | src/Core/ImeiType/Imei.cs:87-89 | never fails with the switch off; with it on, a successful result is valid |
| Construction.ValidatingConstructorsAgreeWithParsers | src/Core/ImeiType/Imei.cs:93-159 | with validation on, each constructor succeeds exactly when the matching parse-or-fail does, with the same IMEI |
| Construction.DefaultSettingsValidate | src/Core/ImeiType/Imei.cs:28-89 | under the default switch, each public constructor succeeds exactly when the matching `IsValid` overload holds |
| Construction.UncheckedRoundTrips | src/Core/ImeiType/Imei.cs:93-159 | with validation off, any number is stored unchanged, and any non-negative one is rebuilt from its own text and bytes, even with leading zeros |
| Construction.UncheckedRejections | src/Core/ImeiType/Imei.cs:104-151 | with validation off, null and non-digit strings and spans still fail, a span of digits above `long.MaxValue` overflows, and bytes without a leading digit give `Invalid` |
| Construction.LongConstructorExamples | tests/ImeiType.Tests.Unit/ImeiConstructorTests.cs:23-38 | the number constructor's outcomes the constructor and validation-flag tests expect |
| Construction.TextConstructorExamples | tests/ImeiType.Tests.Unit/ImeiConstructorTests.cs:63-94 | null and empty inputs fail under the default switch; null is a null-argument error without validation |
| Construction.SampleTextConstructs | tests/ImeiType.Tests.Unit/ImeiConstructorTests.cs:50-51 | the sample text builds the sample IMEI |
| Parts.TruncDiv | src/ImeiType/Imei.Parts.cs:8-18 | the source's `/`: the remainder has the dividend's sign and is smaller than the divisor |
| Parts.TruncRem | src/ImeiType/Imei.Parts.cs:13-18 | the source's `%`: what truncated division leaves, equal to `%` for non-negative dividends |
| Parts.Tac | src/ImeiType/Imei.Parts.cs:8 | below 100 for numbers up to `MaxValue`; sign follows the number |
| Parts.Fac | src/ImeiType/Imei.Parts.cs:13 | six digits at most, sign following the number |
| Parts.Snr | src/ImeiType/Imei.Parts.cs:18 | six digits at most, sign following the number |
| Parts.PartsAreDigitGroups | src/ImeiType/Imei.Parts.cs:8-18 | the parts are digits 1-2, 3-8 and 9-14 of the zero-padded fifteen-digit form |
| Parts.PartsRecompose | src/ImeiType/Imei.Parts.cs:8-18 | the parts and the check digit, put back at their place values, give the number |
| Parts.PartsOfNegative | src/ImeiType/Imei.Parts.cs:8-18 | because division truncates, the parts of a negative number are the negated parts of its magnitude |
| Parts.PartsExample | src/ImeiType/Imei.Parts.cs:8-18 | 356303489916807 splits into 35, 630348 and 991680 |
| Equality.Equals | src/Core/ImeiType/Imei.cs:329-330 | two IMEIs are equal exactly when they are the same value |
| Equality.EqualsObject | src/Core/ImeiType/Imei.cs:319-324 | true exactly for a boxed equal IMEI |
| Equality.OpEquals | src/Core/ImeiType/Imei.IEqualityOperators.cs:20-21 | `==` holds exactly when the stored numbers are equal |
| Equality.OpNotEquals | src/Core/ImeiType/Imei.IEqualityOperators.cs:31-32 | `!=` holds exactly when the stored numbers differ |
| Equality.GetHashCode | src/Core/ImeiType/Imei.cs:312-313 | the platform's hash of the stored number |
| Equality.EqualityLaws | src/Core/ImeiType/Imei.IEqualityOperators.cs:20-32 | `==` is reflexive, symmetric and transitive, `!=` is its negation, and `Equals(object)` agrees on boxed IMEIs and is false otherwise |
| Equality.HashRespectsEquality | src/Core/ImeiType/Imei.cs:312-313 | equal IMEIs hash alike, whatever the platform's hash of a `long` |
| Equality.EqualityExamples | src/Core/ImeiType.Tests.Unit/ImeiEqualityTests.cs:6-7 | the outcomes the equality tests expect |
| Generators.NewRandomImei | src/Core/ImeiType/Imei.Generators.cs:33-34 | whatever the source answers, the result is a valid IMEI whose digits are the generated body followed by its check digit |
| Generators.GenerateWith | src/Core/ImeiType/Imei.Generators.cs:41-106 | the loop builds exactly the number of the body digits plus the check digit, and it is valid for any table without two neighbouring zeros |
| Generators.NextRound | src/Core/ImeiType/Imei.Generators.cs:70-95 | one round keeps the loop invariant: the buffer, request count, running sum, number and place value match the body up to the next position |
| Generators.LuhnDigitsAreValid | src/Core/ImeiType/Imei.Generators.cs:98-102 | fifteen digits without two leading zeros and with a Luhn sum divisible by ten form a valid IMEI |
| Generators.CheckDigitCloses | src/Core/ImeiType/Imei.Generators.cs:97-98 | appending the check digit makes the left-weighted Luhn sum a multiple of ten |
| Generators.BodyFromIsValid | src/Core/ImeiType/Imei.Generators.cs:62-102 | any table without two neighbouring zeros and any answers give a valid IMEI |
| Generators.GeneratedIsValid | src/Core/ImeiType/Imei.Generators.cs:100-102 | the generated number is valid, as the closing assertion claims |
| Generators.ListedCodes | src/Core/ImeiType/Imei.Generators.cs:49-59 | the seventeen identifiers the table lists as pairs |
| Generators.GeneratedShape | src/Core/ImeiType/Imei.Generators.cs:62-91 | the prefix is the table slice at the first answer; even indices 2..12 are always 0; odd indices 3..13 are at most 8 |
| Generators.MisalignedPick | src/Core/ImeiType/Imei.Generators.cs:51-64 | the first answer indexes digits, not pairs: answer 1 gives the prefix 11, which no listed identifier has |
| Generators.ReachablePrefixes | src/Core/ImeiType/Imei.Generators.cs:51-64 | the prefix is one of thirteen codes, three of them unlisted, and seven listed identifiers are never produced |
| Generators.NewSeededRandomImei | src/Core/ImeiType/Imei.Generators.cs:21-22 | the seeded generator yields the valid IMEI of its source's digits |
| Generators.SeededDrawsCoincide | src/Core/ImeiType/Imei.Generators.cs:21-22 | a fresh `Random(seed)` per request makes all six drawn digits one and the same |
| Generators.SharedSeedDrawsInTurn | src/Core/ImeiType/Imei.Generators.cs:21-22 | the corrected seeded generator, one `Random(seed)` per call, yields a valid IMEI whose drawn digits are successive answers of the seed's sequence |
| Generators.SharedSeedDigitsDiffer | src/Core/ImeiType/Imei.Generators.cs:21-22 | the corrected seeded generator can draw different digits: a sequence answering each request with its own number gives 1 and 2 as the first two |
| Generators.IntendedIsValid | src/Core/ImeiType/Imei.Generators.cs:49-98 | the corrected generator yields valid IMEIs that start with a listed identifier and draw every later digit from `[0, 10)` |
| Generators.IntendedDraws | src/Core/ImeiType/Imei.Generators.cs:70-77 | in the corrected generator, every digit after the identifier is its own request |
| Generators.IntendedReachesEveryPair | src/Core/ImeiType/Imei.Generators.cs:49-64 | every listed identifier can start an IMEI of the corrected generator |
| JsonConverter.WriteNumberValue | src/SystemTextJson/ImeiType.SystemTextJson/JsonImeiConverter.cs:80-84 | a number token carrying the number's decimal text |
| JsonConverter.Write | src/SystemTextJson/ImeiType.SystemTextJson/JsonImeiConverter.cs:71-101 | always a number token with the `long`'s text or a string token with the IMEI's text |
| JsonConverter.WriteAsPropertyName | src/SystemTextJson/ImeiType.SystemTextJson/JsonImeiConverter.cs:127-133 | always a property name carrying the IMEI's text |
| JsonConverter.Read | src/SystemTextJson/ImeiType.SystemTextJson/JsonImeiConverter.cs:41-56 | succeeds exactly when the byte parser accepts the token's bytes, with a valid IMEI; every failure is a JSON error wrapping the format error |
| JsonConverter.ReadAsPropertyName | src/SystemTextJson/ImeiType.SystemTextJson/JsonImeiConverter.cs:112-118 | a dictionary key reads like a value: success exactly when the byte gate accepts the token's bytes, with a valid IMEI, and otherwise a JSON error wrapping the format error |
| JsonConverter.WritePolicy | src/SystemTextJson/ImeiType.SystemTextJson/JsonImeiConverter.cs:78-99 | forced options always write a number or a string; every other option writes a string exactly when non-null options ask for strings |
| JsonConverter.WriteOptionsIndependence | src/SystemTextJson/ImeiType.SystemTextJson/JsonImeiConverter.cs:78-99 | forced options ignore the serializer options; an unnamed enum value, any code other than 0, 1 and 2, behaves as `Default` |
| JsonConverter.PropertyNameIsString | src/SystemTextJson/ImeiType.SystemTextJson/JsonImeiConverter.cs:127-133 | a property name has the bytes of a string value, whatever the option or the number handling |
| JsonConverter.JsonRoundTrip | src/SystemTextJson/ImeiType.SystemTextJson/JsonImeiConverter.cs:41-133 | an IMEI of fifteen significant digits reads back from what any option writes, as a value or as a property name |
| JsonConverter.JsonLeadingZerosLost | src/SystemTextJson/ImeiType.SystemTextJson/JsonImeiConverter.cs:41-133 | a valid IMEI below `10^14` never reads back: the reader reports a JSON error |
| JsonConverter.ReadIgnoresTokenKind | src/SystemTextJson/ImeiType.SystemTextJson/JsonImeiConverter.cs:48-50 | the same bytes read the same as a number, a string or a property name |
| JsonConverter.WriteExamples | src/SystemTextJson/ImeiType.SystemTextJson.Tests.Unit/JsonImeiConverterSerializationTests.cs:41-46 | the token kinds the serialization tests expect for each option |
| JsonConverter.ReadExamples | src/SystemTextJson/ImeiType.SystemTextJson.Tests.Unit/JsonImeiConverterDeserializationTests.cs:84-109 | a non-number string and `null` are JSON errors wrapping the format error |

## Left out

- Platform parsing leniency: the number parsers are modelled on plain ASCII digits. On text,
  `long.Parse` and `long.TryParse` also accept leading and trailing white space, a leading sign in
  the current culture's form, and trailing NUL characters. On bytes, `Utf8Parser.TryParse` also
  accepts a leading sign, but no white space, and it is culture-invariant. Inputs the platform
  would accept in these forms are rejected here.
- Parsers.BytesAgreeWithChars: the agreement holds for the digits-only parsers of this model, not
  for the platform's. There the text gate accepts " 00000000000026" (a space, then fourteen
  digits) and "26" followed by thirteen NUL characters. The byte gate rejects both: it reads no
  leading space, and it stops after two bytes at the first NUL.
- Conversions.Int64Text: a negative number's sign is written as '-'. `long.ToString()` writes the
  current culture's negative sign, which can differ. Only negative numbers stored without
  validation have one.
- The `IFormatProvider` arguments: every overload passes `null` or ignores them, and the model has
  one parser per input kind.
- Exception types and messages: a failed parse is one `InvalidFormat` error. The unchecked
  constructors keep the platform's three outcomes: format error, overflow and null argument.
- The random distribution: `Random.Next` and `RandomNumberGenerator.GetInt32` are any source whose
  answers lie in the requested range. Nothing is claimed about probabilities.
- `GetHashCode`: the hash of a `long` belongs to the platform and is passed in as a function.
- `Debug.Assert` calls: they do nothing in release builds. The generator's assertion is proved
  instead (`Generators.GeneratedIsValid`). The unchecked byte constructor's asserts are false for
  short inputs, and the model stores what the parser reads.
- The obsolete parameterless constructor: it cannot be called, because its use is a compile error.
- The `(int)` casts of the parts: for any `long`, the quotients fit in an `int`, so the casts never
  change a value.
- JSON plumbing: `Utf8JsonReader`, `Utf8JsonWriter`, converter registration and the null-token
  handling of nullable containers are left out. Tokens carry their raw bytes. String escaping is
  left out because an IMEI's text needs none.
- JsonConverter.ReadExamples: the test's number token 111111111111111 is not among the proved
  examples. Its rejection follows from `JsonConverter.Read` and the checksum (Luhn sum 22), which is
  not evaluated here.
- Generators.NewRandomImei: the source's 34-entry table is passed to the loop (`GenerateWith`) as a
  parameter. Properties of the table itself are proved separately (`TableHasNoDoubleZero`,
  `ListedCodes`).

## Findings

| source | as written | input that shows it | evidently intended | confidence | as-written member | corrected member |
|---|---|---|---|---|---|---|
| src/ImeiType/Imei.Constants.cs:12-17 | `MinValue = 19` is documented as the least valid IMEI | 19: Luhn sum 9 + 2 = 11, so `IsValid(19)` is false | the least valid value, 26 | high (not executed) | Validators.MinValueFailsChecksum | Validators.LeastValidValue |
| src/Core/ImeiType/Imei.cs:287-306 | text and bytes are the stored `long` printed without padding, so a valid IMEI with a leading zero does not round-trip | `Imei(26)`: text "26", bytes "26" followed by thirteen zero bytes; neither parses back | fifteen-digit zero-padded text and bytes, as the standard length of 15 and `ToUtf8`'s assertion that it wrote exactly `Length` bytes (Imei.cs:303) expect | high (not executed) | Conversions.LeadingZerosLost | Conversions.PaddedRoundTrip |
| src/Core/ImeiType/Imei.Generators.cs:51-64 | the Reporting Body Identifier is sliced at the answer itself rather than at twice the answer | answer 1 gives the prefix 11, which is not a listed identifier; 51, 52, 53, 86, 91, 98 and 99 are never produced | slice at `2 * answer`, that is, a whole listed pair | high (not executed) | Generators.MisalignedPick | Generators.IntendedReachesEveryPair |
| src/Core/ImeiType/Imei.Generators.cs:70-77 | only odd positions past the identifier are drawn, and draws use `[0, 9)` | any source: even indices 2..12 are 0, and no drawn digit is 9 | every digit after the identifier drawn from `[0, 10)` | medium (not executed) | Generators.GeneratedShape | Generators.IntendedIsValid |
| src/Core/ImeiType/Imei.Generators.cs:21-22 | the seeded overload builds a new `Random(seed)` for every request | any seed: all six drawn digits are the first answer of the same freshly seeded generator for `[0, 9)`, so they are equal | one `Random(seed)` per call, whose successive answers fill the digits | high (not executed) | Generators.SeededDrawsCoincide | Generators.SharedSeedDrawsInTurn |
