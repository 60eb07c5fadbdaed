/**
 The codec for Belgian National Registry Numbers (Rijksregisternummer) and
 BIS numbers: an 11-digit identifier yymmdd-sss-cc made of a birth date
 (year within the century, month, day), a three-digit serial whose parity
 gives the biological sex, and a two-digit mod-97 checksum that also tells
 the century of birth.

 Every public function of the library accepts either free text or an
 already-parsed record, parses it and derives one fact. The library reports
 problems by throwing; here each such function returns a Result.
 */
module NrnCodec {
  import opened JsNumbers
  import opened NrnChecksum

  /** The length of a normalised number, eg. 86081441359. */
  const LengthValidNrn: nat := 11

  /** A parsed number: birthDate holds [yy, mm, dd]. */
  datatype Nrn = Nrn(birthDate: (string, string, string), serial: string, checksum: string)

  /** What the public functions accept: a string, a record of the Nrn shape,
      or any other value (null, undefined, an object without a birthDate). */
  datatype NrnInput = Text(text: string) | Structured(nrn: Nrn) | Untyped

  /** The errors the library throws, one constructor per message. */
  datatype NrnError =
    | NormalizeInvalidType
    | ParseInvalidType
    | InvalidLength
    | InvalidChecksum(checksum: string, expected19: string, expected20: string)
    | NotBisNumber
    | BirthDateUnknown

  /** The start of the checksum message, up to the supplied checksum. */
  const InvalidChecksumLead := "Could not calculate birthDate with invalid checksum of \""
  /** What the checksum message puts between the supplied checksum and the 1900 value. */
  const ExpectedSeparator := "\", expected \""
  /** What the checksum message puts between the 1900 value and the 2000 value. */
  const CenturySeparator := "\" for 1900 or \""

  /** The message of the thrown Error. The checksum message quotes the supplied checksum
      right after its lead, then the value expected for 1900 and the value expected for 2000,
      each after its separator. */
  function Message(e: NrnError): (r: string)
    ensures r != []
    ensures e.InvalidChecksum? ==>
      var k := |InvalidChecksumLead|;
      var k19 := k + |e.checksum| + |ExpectedSeparator|;
      var k20 := k19 + |e.expected19| + |CenturySeparator|;
      && |r| > k20 + |e.expected20|
      && r[..k] == InvalidChecksumLead && r[k..k + |e.checksum|] == e.checksum
      && r[k + |e.checksum|..k19] == ExpectedSeparator
      && r[k19..k19 + |e.expected19|] == e.expected19
      && r[k19 + |e.expected19|..k20] == CenturySeparator
      && r[k20..k20 + |e.expected20|] == e.expected20
  {
    match e
    case NormalizeInvalidType => "Could not normalize nrn of invalid type"
    case ParseInvalidType => "Could not parse nrn of invalid type"
    case InvalidLength => "Could not parse nrn of invalid length"
    case InvalidChecksum(checksum, expected19, expected20) =>
      var tail := "\" for 2000";
      QuotedPositions(InvalidChecksumLead, checksum, ExpectedSeparator, expected19, CenturySeparator, expected20, tail);
      InvalidChecksumLead + checksum + ExpectedSeparator + expected19 + CenturySeparator + expected20 + tail
    case NotBisNumber => "This is not a BIS number"
    case BirthDateUnknown => "Birth date is unknown"
  }

  /** Where each of seven strings sits in their concatenation. */
  lemma QuotedPositions(a: string, b: string, c: string, d: string, e: string, f: string, g: string)
    ensures var s := a + b + c + d + e + f + g;
      var i1 := |a|;
      var i2 := i1 + |b|;
      var i3 := i2 + |c|;
      var i4 := i3 + |d|;
      var i5 := i4 + |e|;
      var i6 := i5 + |f|;
      && |s| == i6 + |g|
      && s[..i1] == a && s[i1..i2] == b && s[i2..i3] == c && s[i3..i4] == d
      && s[i4..i5] == e && s[i5..i6] == f
  {
    var s := a + b + c + d + e + f + g;
    assert s == a + (b + (c + (d + (e + (f + g)))));
  }

  datatype Result<T> = Ok(value: T) | Err(error: NrnError) {
    predicate IsFailure() { Err? }
    function PropagateFailure<U>(): Result<U> requires Err? { Err(error) }
    function Extract(): T requires Ok? { value }
  }

  // ---------------------------------------------------------------------
  // Normaliser
  // ---------------------------------------------------------------------

  /** The presence check on a record: a JavaScript array is always truthy, so only
      an empty serial or an empty checksum makes a record fail it. */
  predicate MatchesNrnInterface(n: Nrn): (r: bool)
    ensures DigitShaped(n) ==> r
    ensures n.serial == [] || n.checksum == [] ==> !r
  {
    n.serial != [] && n.checksum != []
  }

  /** `birthDate.join('')`. */
  function JoinBirthDate(parts: (string, string, string)): string {
    parts.0 + parts.1 + parts.2
  }

  /** The nine characters covered by the checksum: birth date parts and serial. */
  function ChecksumBody(n: Nrn): string {
    JoinBirthDate(n.birthDate) + n.serial
  }

  /** The whole number as one string, the normal form of a record. */
  function Concatenation(n: Nrn): string {
    ChecksumBody(n) + n.checksum
  }

  /** `s.replace(/[^\d]+/g, '')`: every character that is not a decimal digit is dropped. */
  function StripNonDigits(s: string): (r: string)
    ensures AllDigits(r) && |r| <= |s|
    ensures AllDigits(s) ==> r == s
  {
    if s == [] then []
    else (if IsDigit(s[0]) then [s[0]] else []) + StripNonDigits(s[1..])
  }

  function Normalize(input: NrnInput): (r: Result<string>)
    ensures input.Text? ==> r.Ok? && AllDigits(r.value) && |r.value| <= |input.text|
    ensures input.Text? && AllDigits(input.text) ==> r == Ok(input.text)
    ensures input.Structured? && MatchesNrnInterface(input.nrn) ==> r == Ok(Concatenation(input.nrn))
    ensures r.Err? <==> !input.Text? && !(input.Structured? && MatchesNrnInterface(input.nrn))
    ensures r.Err? ==> r.error == NormalizeInvalidType
  {
    match input
    case Text(s) => Ok(StripNonDigits(s))
    case Structured(n) =>
      if MatchesNrnInterface(n) then Ok(JoinBirthDate(n.birthDate) + n.serial + n.checksum)
      else Err(NormalizeInvalidType)
    case Untyped => Err(NormalizeInvalidType)
  }

  // ---------------------------------------------------------------------
  // Parser
  // ---------------------------------------------------------------------

  /** Splits the six birth-date characters into [yy, mm, dd]; the last part takes the rest. */
  function MakeReadonlyStringArray(s: string): (r: (string, string, string))
    ensures JoinBirthDate(r) == s
    ensures |s| >= 4 ==> r == (s[..2], s[2..4], s[4..])
  {
    var r := (Slice(s, 0, 2), Slice(s, 2, 4), Slice(s, 4, |s|));
    assert JoinBirthDate(r) == s by {
      if |s| <= 2 {
        assert r.0 == s && r.1 == [] && r.2 == [];
      } else if |s| <= 4 {
        assert r.0 == s[..2] && r.1 == s[2..] && r.2 == [];
      } else {
        assert r.0 == s[..2] && r.1 == s[2..4] && r.2 == s[4..];
        assert s == s[..2] + s[2..4] + s[4..];
      }
    }
    r
  }

  /** A record as the parser builds it from text: digit strings of lengths 2, 2, 2, 3 and 2. */
  predicate DigitShaped(n: Nrn) {
    && |n.birthDate.0| == 2 && |n.birthDate.1| == 2 && |n.birthDate.2| == 2
    && |n.serial| == 3 && |n.checksum| == 2
    && AllDigits(n.birthDate.0) && AllDigits(n.birthDate.1) && AllDigits(n.birthDate.2)
    && AllDigits(n.serial) && AllDigits(n.checksum)
  }

  /** The input parses to a digit-shaped record; every text input of eleven digits does. */
  predicate ParsesToDigits(input: NrnInput) {
    Parse(input).Ok? && DigitShaped(Parse(input).value)
  }

  // The numbers the fields of a digit-shaped record stand for.

  function StoredYear(n: Nrn): nat requires DigitShaped(n) { DecimalValue(n.birthDate.0) }
  function StoredMonth(n: Nrn): nat requires DigitShaped(n) { DecimalValue(n.birthDate.1) }
  function StoredDay(n: Nrn): nat requires DigitShaped(n) { DecimalValue(n.birthDate.2) }
  function SerialNumber(n: Nrn): nat requires DigitShaped(n) { DecimalValue(n.serial) }
  function ChecksumNumber(n: Nrn): nat requires DigitShaped(n) { DecimalValue(n.checksum) }

  function Parse(input: NrnInput): (r: Result<Nrn>)
    ensures input.Text? ==> (r.Ok? <==> |StripNonDigits(input.text)| == LengthValidNrn)
    ensures input.Text? && r.Err? ==> r.error == InvalidLength
    ensures input.Text? && r.Ok? ==>
      var d := StripNonDigits(input.text);
      && r.value.birthDate == (d[..2], d[2..4], d[4..6])
      && r.value.serial == d[6..9] && r.value.checksum == d[9..]
      && DigitShaped(r.value)
    ensures input.Structured? && MatchesNrnInterface(input.nrn) ==> r == Ok(input.nrn)
    ensures !input.Text? && !(input.Structured? && MatchesNrnInterface(input.nrn)) ==> r == Err(ParseInvalidType)
  {
    match input
    case Text(_) =>
      var normalizedNrn := Normalize(input).value;
      if |normalizedNrn| != LengthValidNrn then Err(InvalidLength)
      else
        var birthDate := MakeReadonlyStringArray(Slice(normalizedNrn, 0, 6));
        var serial := Slice(normalizedNrn, 6, 9);
        var checksum := Slice(normalizedNrn, 9, 11);
        assert Slice(normalizedNrn, 0, 6) == normalizedNrn[..6];
        assert normalizedNrn[..6][..2] == normalizedNrn[..2] && normalizedNrn[..6][2..4] == normalizedNrn[2..4];
        assert normalizedNrn[..6][4..] == normalizedNrn[4..6];
        Ok(Nrn(birthDate, serial, checksum))
    case Structured(n) => if MatchesNrnInterface(n) then Ok(n) else Err(ParseInvalidType)
    case Untyped => Err(ParseInvalidType)
  }

  // ---------------------------------------------------------------------
  // Checksum and century of birth
  // ---------------------------------------------------------------------

  /** The year of birth: 19yy when the checksum matches the body, otherwise 20yy when it
      matches the body with a leading `2` (a birth in 2000 or later), otherwise an error. */
  function GetBirthYear(input: NrnInput): (r: Result<JsNumber>)
    ensures Parse(input).Err? ==> r == Err(Parse(input).error)
    ensures Parse(input).Ok? ==> r == BirthYearOf(Parse(input).value)
  {
    var n :- Parse(input);
    BirthYearOf(n)
  }

  /** getBirthYear once the record is parsed.  The 19xx reading wins when both match. */
  function BirthYearOf(n: Nrn): (r: Result<JsNumber>)
    ensures r.Err? <==> n.checksum != Mod97(ChecksumBody(n)) && n.checksum != Mod97("2" + ChecksumBody(n))
    ensures r.Err? ==> r.error == InvalidChecksum(n.checksum, Mod97(ChecksumBody(n)), Mod97("2" + ChecksumBody(n)))
    ensures DigitShaped(n) && n.checksum == Mod97(ChecksumBody(n)) ==> r == Ok(Int(1900 + StoredYear(n)))
    ensures DigitShaped(n) && n.checksum != Mod97(ChecksumBody(n)) && n.checksum == Mod97("2" + ChecksumBody(n)) ==>
      r == Ok(Int(2000 + StoredYear(n)))
  {
    var partialYear := n.birthDate.0;
    var checksum19 := Mod97(ChecksumBody(n));
    var checksum20 := Mod97("2" + ChecksumBody(n));
    if checksum19 == n.checksum then
      Century19(n);
      Ok(ToNumber("19" + partialYear))
    else if checksum20 == n.checksum then
      Century20(n);
      Ok(ToNumber("20" + partialYear))
    else Err(InvalidChecksum(n.checksum, checksum19, checksum20))
  }

  /** `Number("19" + yy)` for the two-digit year of a digit-shaped record. */
  lemma Century19(n: Nrn)
    ensures DigitShaped(n) ==> ToNumber("19" + n.birthDate.0) == Int(1900 + StoredYear(n))
  {
    Year19(n.birthDate.0);
  }

  /** `Number("20" + yy)` for the two-digit year of a digit-shaped record. */
  lemma Century20(n: Nrn)
    ensures DigitShaped(n) ==> ToNumber("20" + n.birthDate.0) == Int(2000 + StoredYear(n))
  {
    Year20(n.birthDate.0);
  }

  lemma Year19(yy: string)
    ensures |yy| == 2 && AllDigits(yy) ==> ToNumber("19" + yy) == Int(1900 + DecimalValue(yy))
  {
    if |yy| == 2 && AllDigits(yy) {
      TwoDigitValue("19");
      CenturyDigits("19", yy);
    }
  }

  lemma Year20(yy: string)
    ensures |yy| == 2 && AllDigits(yy) ==> ToNumber("20" + yy) == Int(2000 + DecimalValue(yy))
  {
    if |yy| == 2 && AllDigits(yy) {
      TwoDigitValue("20");
      CenturyDigits("20", yy);
    }
  }

  lemma CenturyDigits(cc: string, yy: string)
    requires |cc| == 2 && AllDigits(cc) && |yy| == 2 && AllDigits(yy)
    ensures ToNumber(cc + yy) == Int(DecimalValue(cc) * 100 + DecimalValue(yy))
  {
    var s := cc + yy;
    AllDigitsConcat(cc, yy);
    assert ToNumber(s) == Int(DecimalValue(s));
    DecimalValueConcat(cc, yy);
    assert Pow10(|yy|) == 100;
  }

  // ---------------------------------------------------------------------
  // Month and day, BIS-aware
  // ---------------------------------------------------------------------

  /** `parseInt` of the month field of a digit-shaped record is the month it stores. */
  lemma MonthField(n: Nrn)
    ensures DigitShaped(n) ==> ParseInt(n.birthDate.1) == Int(StoredMonth(n))
  {
  }

  /** `parseInt` of the day field of a digit-shaped record is the day it stores. */
  lemma DayField(n: Nrn)
    ensures DigitShaped(n) ==> ParseInt(n.birthDate.2) == Int(StoredDay(n))
  {
  }

  function GetBirthDay(input: NrnInput): (r: Result<JsNumber>)
    ensures Parse(input).Err? ==> r == Err(Parse(input).error)
    ensures Parse(input).Ok? ==> r.Ok?
    ensures ParsesToDigits(input) ==> r.value == Int(StoredDay(Parse(input).value))
  {
    var n :- Parse(input);
    DayField(n);
    Ok(ParseInt(n.birthDate.2))
  }

  /** The month-field test of isBisNumber: above 12, or exactly 0. Every BIS band and every
      unknown-month marker passes it, no regular month 1-12 does, and NaN does not. */
  predicate IsBisMonthField(month: JsNumber): (r: bool)
    ensures month.Int? && (InBisBand(month.value) || UnknownBisMonth(month.value)) ==> r
    ensures month.Int? && 1 <= month.value <= 12 ==> !r
    ensures month.NaN? ==> !r
  {
    month.GreaterThan(12) || month.StrictEquals(0)
  }

  /** A number is BIS when its month field is above 12 or is 00. */
  function IsBisNumber(input: NrnInput): (r: Result<bool>)
    ensures Parse(input).Err? ==> r == Err(Parse(input).error)
    ensures Parse(input).Ok? ==> r == Ok(IsBisMonthField(ParseInt(Parse(input).value.birthDate.1)))
    ensures ParsesToDigits(input) ==>
      var m := StoredMonth(Parse(input).value);
      r.value == (m > 12 || m == 0)
  {
    var n :- Parse(input);
    MonthField(n);
    Ok(IsBisMonthField(ParseInt(n.birthDate.1)))
  }

  function IsNrnNumber(input: NrnInput): (r: Result<bool>)
    ensures IsBisNumber(input).Err? ==> r == Err(IsBisNumber(input).error)
    ensures IsBisNumber(input).Ok? ==> r == Ok(!IsBisNumber(input).value)
  {
    var bis :- IsBisNumber(input);
    Ok(!bis)
  }

  /** The month stored in a BIS number lies in one of the bands 21-32 (issued with the gender
      unknown) and 41-52 (gender known), or is 00 or 20 for a birth month that is unknown. */
  predicate InBisBand(m: int) { 21 <= m <= 32 || 41 <= m <= 52 }

  /** Stored months 00, 20 and 40 say that the birth month is unknown. */
  predicate UnknownBisMonth(m: int) { m == 0 || m == 20 || m == 40 }

  /** The month decoding of getBisBirthMonth as the code writes it: 0 stays 0, above 40 less
      40, otherwise less 20. A stored 40, which stands for an unknown month, comes out as 20. */
  function BisMonthAsWritten(month: JsNumber): (r: JsNumber)
    ensures month.NaN? ==> r.NaN?
    ensures month.Int? && InBisBand(month.value) ==> r == Int(month.value % 20)
    ensures month == Int(0) || month == Int(20) ==> r == Int(0)
    ensures month == Int(40) ==> r == Int(20)
  {
    if month.StrictEquals(0) then month
    else if month.GreaterThan(40) then Minus(month, Int(40))
    else Minus(month, Int(20))
  }

  /** The month decoding of getBisBirthMonth with the boundary at 40 included in the upper
      band, so that every unknown-month marker decodes to 0. The two decodings differ only
      at 40 (NrnProperties.DecodingsDifferOnlyAtForty). */
  function BisMonth(month: JsNumber): (r: JsNumber)
    ensures month.NaN? ==> r.NaN?
    ensures month.Int? ==> r.Int? && r.value <= month.value
    ensures month.Int? && InBisBand(month.value) ==> 1 <= r.value <= 12 && r.value == month.value % 20
    ensures month.Int? && UnknownBisMonth(month.value) ==> r == Int(0)
  {
    if month.StrictEquals(0) then month
    else if month.AtLeast(40) then Minus(month, Int(40))
    else Minus(month, Int(20))
  }

  /** The month of a BIS number as the code decodes it (BisMonthAsWritten): the stored month
      less 40 above 40, less 20 otherwise; 00 stays 0. The marker 40 comes out as 20. */
  function GetBisBirthMonth(input: NrnInput): (r: Result<JsNumber>)
    ensures Parse(input).Err? ==> r == Err(Parse(input).error)
    ensures IsBisNumber(input) == Ok(false) ==> r == Err(NotBisNumber)
    ensures IsBisNumber(input) == Ok(true) ==> r == Ok(BisMonthAsWritten(ParseInt(Parse(input).value.birthDate.1)))
    ensures ParsesToDigits(input) && r.Ok? ==>
      var m := StoredMonth(Parse(input).value);
      && r.value.Int?
      && (m == 0 || m == 20 ==> r.value.value == 0)
      && (m == 40 ==> r.value.value == 20)
      && (InBisBand(m) ==> 1 <= r.value.value <= 12 && r.value.value == m % 20)
  {
    var bis :- IsBisNumber(input);
    if !bis then Err(NotBisNumber)
    else
      var n := Parse(input).value;
      MonthField(n);
      Ok(BisMonthAsWritten(ParseInt(n.birthDate.1)))
  }

  function GetBirthMonth(input: NrnInput): (r: Result<JsNumber>)
    ensures Parse(input).Err? ==> r == Err(Parse(input).error)
    ensures Parse(input).Ok? ==> r.Ok?
    ensures IsBisNumber(input) == Ok(true) ==> r == GetBisBirthMonth(input)
    ensures IsBisNumber(input) == Ok(false) ==> r == Ok(ParseInt(Parse(input).value.birthDate.1))
  {
    var n :- Parse(input);
    var bis := IsBisNumber(input).value;
    if bis then GetBisBirthMonth(input)
    else Ok(ParseInt(n.birthDate.1))
  }

  /** The decoded month and the day are both above 0. With the decoding as written, a stored
      month 40 gives month 20, so such a number reports its birth date known when it has a day. */
  function IsBisBirthdateKnown(input: NrnInput): (r: Result<bool>)
    ensures Parse(input).Err? ==> r == Err(Parse(input).error)
    ensures IsBisNumber(input) == Ok(false) ==> r == Err(NotBisNumber)
    ensures IsBisNumber(input) == Ok(true) ==> r.Ok?
    ensures ParsesToDigits(input) && r.Ok? ==>
      var n := Parse(input).value;
      var m := StoredMonth(n);
      && (InBisBand(m) || m == 40 ==> r.value == (StoredDay(n) > 0))
      && (m == 0 || m == 20 ==> !r.value)
  {
    var month :- GetBisBirthMonth(input);
    var day := GetBirthDay(input).value;
    Ok(month.GreaterThan(0) && day.GreaterThan(0))
  }

  /** isBisGenderKnown as the code writes it: the stored month must be above 40, so a number
      with the gender known and the month unknown (stored 40) is reported as gender unknown. */
  function IsBisGenderKnownAsWritten(input: NrnInput): (r: Result<bool>)
    ensures Parse(input).Err? ==> r == Err(Parse(input).error)
    ensures IsBisNumber(input) == Ok(false) ==> r == Err(NotBisNumber)
    ensures IsBisNumber(input) == Ok(true) ==> r.Ok?
    ensures ParsesToDigits(input) && r.Ok? ==> r.value == (StoredMonth(Parse(input).value) > 40)
  {
    var bis :- IsBisNumber(input);
    if !bis then Err(NotBisNumber)
    else
      var n := Parse(input).value;
      MonthField(n);
      Ok(ParseInt(n.birthDate.1).GreaterThan(40))
  }

  /** A BIS number whose stored month is 40 or above was issued with the gender known. */
  function IsBisGenderKnown(input: NrnInput): (r: Result<bool>)
    ensures Parse(input).Err? ==> r == Err(Parse(input).error)
    ensures IsBisNumber(input) == Ok(false) ==> r == Err(NotBisNumber)
    ensures IsBisNumber(input) == Ok(true) ==> r.Ok?
    ensures ParsesToDigits(input) && r.Ok? ==> r.value == (StoredMonth(Parse(input).value) >= 40)
  {
    var bis :- IsBisNumber(input);
    if !bis then Err(NotBisNumber)
    else
      var n := Parse(input).value;
      MonthField(n);
      Ok(ParseInt(n.birthDate.1).AtLeast(40))
  }

  /** The checking part of getBirthDate: the (year, month, day) it would build a date from. */
  function GetBirthDate(input: NrnInput): (r: Result<(JsNumber, JsNumber, JsNumber)>)
    ensures GetBirthYear(input).Err? ==> r == Err(GetBirthYear(input).error)
    ensures GetBirthYear(input).Ok? && r.Err? ==> r.error == BirthDateUnknown
    ensures GetBirthYear(input).Ok? ==>
      (r.Ok? <==> !GetBirthMonth(input).value.LessThan(1) && !GetBirthDay(input).value.LessThan(1))
    ensures r.Ok? ==> r.value == (GetBirthYear(input).value, GetBirthMonth(input).value, GetBirthDay(input).value)
  {
    var year :- GetBirthYear(input);
    var month := GetBirthMonth(input).value;
    var day := GetBirthDay(input).value;
    if month.LessThan(1) || day.LessThan(1) then Err(BirthDateUnknown)
    else Ok((year, month, day))
  }

  // ---------------------------------------------------------------------
  // Sex, equality, validity
  // ---------------------------------------------------------------------

  /** `Number(serial) % 2` for the serial of a digit-shaped record. */
  lemma SerialParity(n: Nrn)
    ensures DigitShaped(n) ==> Remainder(ToNumber(n.serial), Int(2)) == Int(SerialNumber(n) % 2)
  {
    if DigitShaped(n) {
      var v := SerialNumber(n);
      assert ToNumber(n.serial) == Int(v);
      assert TruncatedRemainder(v, 2) == v % 2;
    }
  }

  /** An even serial. */
  function IsBiologicalFemale(input: NrnInput): (r: Result<bool>)
    ensures Parse(input).Err? ==> r == Err(Parse(input).error)
    ensures ParsesToDigits(input) ==> r == Ok(SerialNumber(Parse(input).value) % 2 == 0)
  {
    var n :- Parse(input);
    SerialParity(n);
    Ok(Remainder(ToNumber(n.serial), Int(2)).StrictEquals(0))
  }

  /** An odd serial. */
  function IsBiologicalMale(input: NrnInput): (r: Result<bool>)
    ensures Parse(input).Err? ==> r == Err(Parse(input).error)
    ensures ParsesToDigits(input) ==> r == Ok(SerialNumber(Parse(input).value) % 2 == 1)
  {
    var n :- Parse(input);
    SerialParity(n);
    Ok(Remainder(ToNumber(n.serial), Int(2)).StrictEquals(1))
  }

  /** Two inputs are equal when their normal forms are. */
  function IsEqual(a: NrnInput, b: NrnInput): (r: Result<bool>)
    ensures Normalize(a).Err? ==> r == Err(NormalizeInvalidType)
    ensures Normalize(a).Ok? && Normalize(b).Err? ==> r == Err(NormalizeInvalidType)
    ensures a.Text? && b.Text? ==> r == Ok(StripNonDigits(a.text) == StripNonDigits(b.text))
  {
    var x :- Normalize(a);
    var y :- Normalize(b);
    Ok(x == y)
  }

  /** True exactly when the century can be resolved; it reports every failure as false. */
  function IsValidNrnNumber(input: NrnInput): (r: bool)
    ensures r <==> (Parse(input).Ok? &&
      var n := Parse(input).value;
      n.checksum == Mod97(ChecksumBody(n)) || n.checksum == Mod97("2" + ChecksumBody(n)))
    ensures Parse(input).Ok? && Parse(input).value.checksum == "00" ==> !r
  {
    GetBirthYear(input).Ok?
  }
}
