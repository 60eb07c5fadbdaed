# be-nrn in Dafny

A model of `src/index.ts` of be-nrn. This library reads Belgian National Registry Numbers (Rijksregisternummer) and BIS numbers.

A number is the eleven digits `yymmdd sss cc`:

- `yymmdd` is the birth date: the year within its century, then month and day.
- `sss` is a three-digit serial. An even serial is a woman's and an odd serial is a man's.
- `cc` is a mod-97 check value. It also fixes the century:
  - it is `97 - (yymmddsss mod 97)` for a birth in the 1900s;
  - it is `97 - (2yymmddsss mod 97)` for a birth from 2000 on.

A BIS number stores its month in a different way:

- 21-32 means the month plus 20, with the gender unknown when the number was issued.
- 41-52 means the month plus 40, with the gender known.
- 00, 20 and 40 mean that the month is unknown.

The code decodes the marker 40 as month 20 (see "## Findings"). The model's public functions decode it as the code does.

Each function of the library takes either free text or an already-parsed record `{birthDate: [yy, mm, dd], serial, checksum}`. It parses the input and derives one fact from it.

The library throws an `Error` when something is wrong. Here that becomes `Result<T>`. Every error is a constructor of `NrnError`, and `NrnCodec.Message` gives the text of each one.

There are five modules:

- `JsNumbers` (`js_numbers.dfy`) holds the JavaScript runtime behaviour the library depends on:
  - `Number(s)`, `parseInt(s)`, `%`, `-`, `String(x)`, `padStart`, `slice`;
  - the comparisons `>`, `<`, `>=` and `===` on numbers that may be `NaN`.
- `NrnChecksum` (`nrn_checksum.dfy`) holds `mod97` (src/index.ts:23-24).
- `NrnCodec` (`nrn_codec.dfy`) holds every other function of `src/index.ts`, except the two that read the clock (`getAge`, `isLegalAdult`) and `parseDate`, which builds the `Date` (see "## Left out").
- `NrnProperties` (`nrn_properties.dfy`) holds the properties of the codec. They are stated for all inputs:
  - round trips between text, normal form and record;
  - `isEqual` is an equivalence;
  - the two century readings of a checksum exclude each other;
  - the year range;
  - what the month and date decoders mean for each band of stored months;
  - the sex is always decided.
- `NrnVectors` (`nrn_vectors.dfy`) states the examples of `src/index.spec.ts` as lemmas about the model.

Inputs are modelled in these terms:

- A JavaScript input is `NrnInput`:
  - `Text(s)` is a string;
  - `Structured(n)` is an object with the `Nrn` fields;
  - `Untyped` is `null`, `undefined`, or any other value without a `birthDate`.
  - An object with a `birthDate` whose fields are not strings, or whose `birthDate` is not an array of three strings, is not modelled.
- Numbers are `JsNumber = NaN | Int(int)`.
  - Every number the model computes is an integer or `NaN`. `NaN` comes from a field that `Number`/`parseInt` cannot read as an integer.

## Model

| member | source | states |
|---|---|---|
| JsNumbers.ToNumber | src/index.ts:24 | `Number(s)` of a nonempty digit string is its decimal value; a text that is empty or all whitespace is 0 |
| JsNumbers.ParseInt | src/index.ts:31 | `parseInt(s)` of a nonempty digit string is its decimal value; the empty string is `NaN` |
| JsNumbers.TruncatedRemainder | src/index.ts:95 | JavaScript `%`: the remainder is smaller than the divisor in magnitude, takes the sign of the dividend, and `a == b*q + r` for the quotient rounded toward zero |
| JsNumbers.NumberToString | src/index.ts:24 | `String(x)` of a non-negative integer is a digit string that denotes x |
| JsNumbers.PadStart | src/index.ts:24 | `padStart(len, fill)` keeps s as the suffix, reaches length `max(len, \|s\|)`, and everything in front of s is the fill character |
| JsNumbers.Slice | src/index.ts:127-130 | `slice(start, end)` is the substring for bounds within range, the tail when end is past the length, and empty when start is at or past end or the length |
| JsNumbers.DecimalValueConcat | src/index.ts:49-51 | the value of a concatenation of digit strings is the value of the first shifted by the length of the second, plus the second; this is how `Number("19" + yy)` is read |
| JsNumbers.DecimalIsRadixTen | src/index.ts:31 | the decimal value of a digit string is its radix-10 value, the reading `parseInt` uses |
| JsNumbers.Remainder | src/index.ts:95 | `a % b` is `NaN` exactly when either is `NaN` or b is 0; otherwise it is smaller than b in magnitude, non-negative for a non-negative a, and completes the quotient rounded toward zero to a |
| JsNumbers.Minus | src/index.ts:69 | `a - b` is `NaN` exactly when either is `NaN`; otherwise it is the number that added to b gives a |
| JsNumbers.JsNumber.GreaterThan | src/index.ts:142 | `x > k` is false for `NaN` and is the same as `x >= k + 1` |
| JsNumbers.JsNumber.LessThan | src/index.ts:87 | `x < k` is false for `NaN`, and on integers it is the negation of `x >= k` |
| JsNumbers.JsNumber.AtLeast | src/index.ts:69 | `x >= k` is false for `NaN` and for every integer below k, and true for every integer from k up; it is used by the corrected decoding |
| JsNumbers.JsNumber.StrictEquals | src/index.ts:66 | `x === k` holds exactly when x is the integer k, never for `NaN` |
| NrnChecksum.Mod97 | src/index.ts:23-24 | `mod97` of a digit string is a two-digit value from 01 to 97 that makes the number plus it a multiple of 97; it is never "00", and a text that is not a number gives "NaN" |
| NrnChecksum.CheckDigits | src/index.ts:24 | the same check value, computed from the number after `Number(input)` |
| NrnCodec.Message | src/index.ts:53-55 | every error has a nonempty message; the checksum message quotes the supplied checksum after its fixed lead, then the value expected for 1900 and the value expected for 2000, each after its fixed separator (the other texts are at src/index.ts:62, 88, 118, 125, 136, 153) |
| NrnCodec.MatchesNrnInterface | src/index.ts:20-21 | the presence check on a record: a record with an empty (falsy) serial or checksum fails it, and every record of digit strings, as the parser builds it, passes it |
| NrnCodec.StripNonDigits | src/index.ts:113 | the result is all digits and no longer than the input, and a digit string is left as it is |
| NrnCodec.Normalize | src/index.ts:111-119 | a text gives its digits, a record that passes the presence check gives its fields joined, and anything else fails with the normalize type error, in both directions |
| NrnCodec.MakeReadonlyStringArray | src/index.ts:72-74 | the three parts joined give back the input, and from four characters on they are the characters 0-1, 2-3 and the rest |
| NrnCodec.Parse | src/index.ts:121-137 | a text parses exactly when it has eleven digits, and otherwise fails with the length error; its record is digits 0-1, 2-3, 4-5, 6-8 and 9-10 of the normal form; a record that passes the presence check parses to itself; anything else fails with the parse type error |
| NrnCodec.BirthYearOf | src/index.ts:46-56 | the year is 19yy when the checksum matches the body and 20yy when it matches only with the leading 2; it fails with both expected values exactly when neither matches |
| NrnCodec.GetBirthYear | src/index.ts:42-58 | a parse error is passed on, and otherwise the result is the year of the parsed record |
| NrnCodec.GetBirthDay | src/index.ts:29-32 | a parse error is passed on, and otherwise the result is the stored day |
| NrnCodec.IsBisNumber | src/index.ts:139-143 | a parse error is passed on; a number is BIS exactly when its stored month is above 12 or is 00 |
| NrnCodec.IsBisMonthField | src/index.ts:141-142 | `month > 12 \|\| month === 0`: every BIS band month and every unknown-month marker passes it, no regular month 1-12 does, and `NaN` does not |
| NrnCodec.IsNrnNumber | src/index.ts:159-161 | the negation of isBisNumber, errors included |
| NrnCodec.BisMonthAsWritten | src/index.ts:66-69 | the month decoding as written: `NaN` stays `NaN`; a band month gives the month modulo 20; 0 and 20 give 0; 40 gives 20 |
| NrnCodec.BisMonth | src/index.ts:66-69 | the corrected decoding: a result never above the input; a band month gives 1-12, equal to the stored month modulo 20; every unknown-month marker 0, 20, 40 gives 0 |
| NrnCodec.GetBisBirthMonth | src/index.ts:60-70 | a regular number fails with the "not a BIS number" error, and a parse error is passed on; a BIS number gives its month decoded as written: 1-12 (the stored month modulo 20) for a band month, 0 for 00 and 20, and 20 for 40 |
| NrnCodec.GetBirthMonth | src/index.ts:34-40 | a parsed number always gives a month: for a BIS number it is the month getBisBirthMonth decodes, otherwise the stored field as it stands |
| NrnCodec.IsBisBirthdateKnown | src/index.ts:145-149 | a regular number is an error; a band month, and the marker 40 (which decodes to 20), give true exactly when the day is not 00; the markers 00 and 20 give false |
| NrnCodec.IsBisGenderKnownAsWritten | src/index.ts:151-157 | a regular number is an error; a BIS number gives true exactly when its stored month is above 40 |
| NrnCodec.IsBisGenderKnown | src/index.ts:151-157 | a regular number is an error; a BIS number gives true exactly when its stored month is 40 or above |
| NrnCodec.GetBirthDate | src/index.ts:83-90 | year errors are passed on; the birth-date-unknown error is raised exactly when the month or the day is below 1; otherwise the result is the (year, month, day) the date is built from |
| NrnCodec.IsBiologicalFemale | src/index.ts:93-96 | a parse error is passed on; true exactly when the serial is even |
| NrnCodec.IsBiologicalMale | src/index.ts:98-101 | a parse error is passed on; true exactly when the serial is odd |
| NrnCodec.IsEqual | src/index.ts:103-105 | a normalize error of either input is passed on; two texts are equal exactly when their digit strings are |
| NrnCodec.IsValidNrnNumber | src/index.ts:163-170 | true exactly when the input parses and its checksum matches one of the two century readings; a checksum "00" is never valid |
| NrnProperties.StripNonDigitsAppend | src/index.ts:113 | normalising a concatenation normalises each part |
| NrnProperties.SeparatorIsIgnored | src/index.ts:113 | a non-digit character anywhere in a text does not change its normal form |
| NrnProperties.NormalizeIdempotent | src/index.ts:111-119 | normalising a normal form again changes nothing |
| NrnProperties.ParseThenNormalize | src/index.ts:121-137 | a parsed record passes the presence check and has the same normal form as the input it came from |
| NrnProperties.ParseIdempotent | src/index.ts:133-135 | parsing a parsed record again gives the same result |
| NrnProperties.ParseReadsNormalForm | src/index.ts:122-131 | parsing a text and parsing its normal form give the same result |
| NrnProperties.FormatThenParse | src/index.ts:121-131 | a record of digit strings of lengths 2, 2, 2, 3, 2, written out as eleven digits, parses back to the same record |
| NrnProperties.TextEqualsItsRecord | src/index.ts:103-105 | a well-formed text is equal to the record parsed from it |
| NrnProperties.EqualIffSameRecord | src/index.ts:103-105 | two texts, the first well-formed, are equal exactly when they parse to the same record |
| NrnProperties.EqualIsEquivalence | src/index.ts:103-105 | isEqual is reflexive, symmetric and transitive on every input that normalises |
| NrnProperties.TwoDigitInjective | src/index.ts:24 | two two-digit strings of the same value are the same string |
| NrnProperties.CheckValueUnique | src/index.ts:24 | a number has only one two-digit check value |
| NrnProperties.MatchesMod97 | src/index.ts:48 | a two-digit checksum equals `mod97` of a digit body exactly when it is the body's check value |
| NrnProperties.PrefixTwo | src/index.ts:47 | a nine-digit body with a leading `2` denotes 2,000,000,000 more than the body |
| NrnProperties.ParsedBody | src/index.ts:46 | the body a parsed text is checked against is the first nine digits of its normal form, and its checksum is the last two |
| NrnProperties.ValidTextCharacterisation | src/index.ts:163-170 | a text is valid exactly when it has eleven digits and the last two are `mod97` of the first nine, read as they stand or after a leading 2 |
| NrnProperties.CheckReadings | src/index.ts:46-51 | two digits match either `mod97` reading of nine digits exactly when they are the check value of the body's number or of that number plus 2,000,000,000 |
| NrnProperties.MatchesPrefixedMod97 | src/index.ts:47 | two digits match `mod97` of the body with a leading 2 exactly when they are the check value of the body's number plus 2,000,000,000 |
| NrnProperties.BodyDigits | src/index.ts:46 | the checksum body of a digit-shaped record is nine digits |
| NrnProperties.CenturiesExclusive | src/index.ts:48-51 | no digit-shaped record matches both centuries, so the order of the two tests never matters |
| NrnProperties.NoBodyMatchesBoth | src/index.ts:46-47 | no two digits match both `mod97` readings of the same nine digits |
| NrnProperties.NoCommonCheckValue | src/index.ts:46-47 | no check value fits both a number and that number plus 2,000,000,000 |
| NrnProperties.NoCommonResidue | src/index.ts:46-47 | 2,000,000,000 is not a multiple of 97, so no value completes both a number and that number plus 2,000,000,000 to a multiple of 97 |
| NrnProperties.BirthYearRange | src/index.ts:42-58 | the year of a valid digit-shaped number is between 1900 and 2099 |
| NrnProperties.RegularBirthMonth | src/index.ts:34-40 | a number whose stored month is 1-12 reports that month |
| NrnProperties.BisBirthMonth | src/index.ts:36-37 | a BIS number reports its stored month as decoded by src/index.ts:66-69 (BisMonthAsWritten) |
| NrnProperties.DateOfParts | src/index.ts:83-90 | once the year is known, the date is built exactly when the month and the day are at least 1, and from those three values |
| NrnProperties.RegularBirthDate | src/index.ts:83-90 | a valid regular number has its stored month and day as its date, and its date is unknown only when its day is 00 |
| NrnProperties.BisBirthDate | src/index.ts:83-90 | a valid BIS number in a band, with a day, has the month offset by 20 or 40 removed |
| NrnProperties.BisBirthdateKnownAgrees | src/index.ts:145-149 | for a valid BIS number in a band or with an unknown-month marker, isBisBirthdateKnown holds exactly when getBirthDate succeeds |
| NrnProperties.KnownIffPositive | src/index.ts:145-149 | for a BIS number, isBisBirthdateKnown holds exactly when the decoded month and the day are both above 0 |
| NrnProperties.DecodingsDifferOnlyAtForty | src/index.ts:69 | the decoding as written and the corrected decoding agree on every month value, `NaN` included, except the stored month 40 |
| NrnProperties.FortyMarkerBirthDate | src/index.ts:83-90 | as written, a valid BIS number with stored month 40 and a day gives month 20, counts as having a known birth date, and getBirthDate builds the triple with month 20 |
| NrnProperties.BelowBandsBisMonth | src/index.ts:139-143 | a stored month 13-19 is a BIS number whose decoded month is negative |
| NrnProperties.BelowBandsNoDate | src/index.ts:87-89 | no date is built from a number with stored month 13-19 |
| NrnProperties.BelowBandsMonth | src/index.ts:69 | stored months 13-19 decode to the month less 20, under both decodings |
| NrnProperties.NoDateBeforeFirstMonth | src/index.ts:87-89 | a month below 1 makes the birth date unknown, whatever the day |
| NrnProperties.MessagesTellErrorsApart | src/index.ts:53-55 | two errors, at most one of them a checksum error, have the same message only when they are the same error |
| NrnProperties.SexIsDecided | src/index.ts:93-101 | for a digit serial, exactly one of isBiologicalFemale and isBiologicalMale holds |
| NrnVectors.BirthDateIn1900s | src/index.spec.ts:26-30 | '860814 000 84' is 14 August 1986 |
| NrnVectors.BirthDateIn2000s | src/index.spec.ts:32-36 | '010814 000 74' is 14 August 2001 |
| NrnVectors.BirthDateOfRegularNumber | src/index.spec.ts:38-42 | '810212 896 71' is 12 February 1981 |
| NrnVectors.BirthDateOfBisGenderKnown | src/index.spec.ts:44-47 | the BIS number '814212 896 60' is 12 February 1981 |
| NrnVectors.BirthDateOfBisGenderUnknown | src/index.spec.ts:48-50 | the BIS number '812212 896 17' is 12 February 1981 |
| NrnVectors.BirthDateUnknownForZeroMonth | src/index.spec.ts:53-60 | '810000 896 29' fails with the birth-date-unknown error |
| NrnVectors.InvalidChecksumReported | src/index.spec.ts:70-74 | '860814 000 11' fails with the checksum error, expecting 84 for 1900 and 16 for 2000, and is not valid |
| NrnVectors.ValidNumber | src/index.ts:163-170 | '860814 000 84' is a valid number |
| NrnVectors.FemaleForEvenSerial | src/index.spec.ts:78-80 | serial 000 is a woman's |
| NrnVectors.NotFemaleForOddSerial | src/index.spec.ts:82-84 | serial 001 is not a woman's |
| NrnVectors.MaleForOddSerial | src/index.spec.ts:88-90 | serial 001 is a man's |
| NrnVectors.NotMaleForEvenSerial | src/index.spec.ts:92-94 | serial 000 is not a man's |
| NrnVectors.EqualForms | src/index.spec.ts:98-102 | the plain, spaced and dotted forms of one number are equal |
| NrnVectors.UnequalNumbers | src/index.spec.ts:104-106 | numbers with different checksums are not equal |
| NrnVectors.NormalizeWrittenForms | src/index.spec.ts:148-152 | the plain, spaced and dotted forms normalise to the same eleven digits |
| NrnVectors.NormalizeRejectsOtherTypes | src/index.spec.ts:129-136 | `null` and `undefined` cannot be normalised |
| NrnVectors.NormalizeRecord | src/index.spec.ts:138-146 | a record normalises to its fields joined |
| NrnVectors.ParseRejectsShortText | src/index.spec.ts:159-161 | '-' fails with the length error |
| NrnVectors.ParseRecord | src/index.spec.ts:163-171 | a record parses to itself |
| NrnVectors.ParseRejectsOtherTypes | src/index.spec.ts:173-175 | `null` cannot be parsed |
| NrnVectors.BisNumberKnownDateAndGender | src/index.spec.ts:178-181 | '814212 896 60' is a BIS number and no NRN number, and its birth date and gender are both known, under both versions of isBisGenderKnown |
| NrnVectors.RegularNumberIsNotBis | src/index.spec.ts:183-185 | '810212 896 71' is an NRN number and not a BIS number |
| NrnVectors.BirthdateUnknownForZeroDay | src/index.spec.ts:193-196 | a BIS number with day 00 has an unknown birth date |
| NrnVectors.BirthdateUnknownForZeroMonthBis | src/index.spec.ts:193-196 | a BIS number with month 00 has an unknown birth date |
| NrnVectors.GenderUnknownInFirstBand | src/index.spec.ts:208-210 | stored month 22 has the gender unknown, under both versions of isBisGenderKnown |
| NrnVectors.GenderUnknownAtTwenty | src/index.spec.ts:212-214 | stored month 20 has the gender unknown, under both versions of isBisGenderKnown |
| NrnVectors.GenderKnownAtForty | src/index.spec.ts:204-206 | for '814000 896 60' the corrected predicate says the gender is known, the predicate as written says it is not, and the birth date is unknown |
| NrnVectors.BisMonthAtForty | src/index.ts:69 | stored month 40 decodes to 20 as written and to 0 when corrected |
| NrnVectors.BirthDateAtFortyMarker | src/index.ts:69 | '814012 896 46', valid for 1981 with stored month 40: getBisBirthMonth gives 20, isBisBirthdateKnown gives true, and getBirthDate gives (1981, 20, 12) |

## Left out

- getAge and isLegalAdult (src/index.ts:76-81, 107-109): they compare against the current time or a caller's `Date` through `date-fns`. The clock and calendar arithmetic are not part of this model.
- NrnCodec.GetBirthDate: building the `Date` in the Europe/Brussels time zone (src/index.ts:26-27, 90) is left out. The model stops at the (year, month, day) triple that would be formatted as `${year}-${month}-${day}`.
  - A day past the end of its month is passed through as it stands.
  - So is a decoded month above 12: stored months 33-39 and 53-99 decode to 13-19 and 13-59.
  - `date-fns-timezone` would roll both of these over or reject them.
- JsNumbers.ToNumber: a text with a decimal point, an exponent or `Infinity` is read as `NaN`, not as its floating-point value. Only a structured record whose fields are not digit strings can bring such text to `Number`.
- JsNumbers.ToNumber and JsNumbers.ParseInt give exact integers. JavaScript rounds numbers above 2^53. A field of a well-formed number has at most ten digits, so only an oversized field of a structured record would differ.
- The TypeScript types guarantee nothing at run time. `NrnInput.Untyped` stands for `null`, `undefined` and the other values without a `birthDate`. An object that has a `birthDate` but whose fields are not strings (a numeric serial, a `birthDate` that is not an array of three strings) is not modelled.
  - A record whose serial or checksum is empty fails the presence check, as in JavaScript, because the empty string is falsy.
- NrnProperties.ValidTextCharacterisation states validity through `mod97`. NrnProperties.CheckReadings gives that comparison in terms of check values.

## Findings

| source | as written | input that shows it | evidently intended | confidence | as-written member | corrected member |
|---|---|---|---|---|---|---|
| src/index.ts:69 | `month > 40 ? month - 40 : month - 20` decodes the BIS marker month 40 (gender known, month unknown) as 20 | '814012 896 46', valid for 1981, with stored month 40 and day 12: getBisBirthMonth gives 20, isBisBirthdateKnown gives true and getBirthDate builds month 20 | `month >= 40`, so that 40 decodes to 0 like the markers 00 and 20 | medium, not executed | NrnCodec.BisMonthAsWritten, NrnVectors.BirthDateAtFortyMarker | NrnCodec.BisMonth, NrnProperties.DecodingsDifferOnlyAtForty |
| src/index.ts:156 | `parseInt(birthDate[1]) > 40` says that stored month 40 has the gender unknown | '814000 896 60': the library's own example at src/index.spec.ts:204-206 expects true; the code gives false | `>= 40`, the band of numbers issued with the gender known | high, not executed | NrnCodec.IsBisGenderKnownAsWritten, NrnVectors.GenderKnownAtForty | NrnCodec.IsBisGenderKnown |

The month functions (getBisBirthMonth, getBirthMonth, isBisBirthdateKnown, getBirthDate) follow the code as written. BisMonth is the corrected decoding, and NrnProperties.DecodingsDifferOnlyAtForty proves that it differs from the code's only at the marker 40. For isBisGenderKnown, the model keeps both versions side by side: IsBisGenderKnownAsWritten is the code's `> 40`, and IsBisGenderKnown is the corrected `>= 40`.

`src/index.spec.ts` calls two of these functions `isGenderKnown` and `isBirthdateKnown`. The module exports them as `isBisGenderKnown` and `isBisBirthdateKnown`. The model follows the exports.
