/**
 Properties of the library that relate several calls: the normal form and the
 parser agree, a parsed record formats back to its text, the checksum decides
 validity and the century unambiguously, the BIS month encoding, and isEqual
 as an equivalence that coincides with equal parses.
 */
module NrnProperties {
  import opened JsNumbers
  import opened NrnChecksum
  import opened NrnCodec

  // ---------------------------------------------------------------------
  // Normal form
  // ---------------------------------------------------------------------

  /** Normalising a concatenation normalises each part. */
  lemma {:induction false} StripNonDigitsAppend(a: string, b: string)
    ensures StripNonDigits(a + b) == StripNonDigits(a) + StripNonDigits(b)
  {
    if a == [] {
      assert a + b == b;
    } else {
      assert (a + b)[0] == a[0] && (a + b)[1..] == a[1..] + b;
      StripNonDigitsAppend(a[1..], b);
    }
  }

  /** A separator anywhere in the text (a space, a dot, a dash) does not change its normal form. */
  lemma SeparatorIsIgnored(a: string, c: char, b: string)
    requires !IsDigit(c)
    ensures Normalize(Text(a + [c] + b)) == Normalize(Text(a + b))
  {
    StripNonDigitsAppend(a + [c], b);
    StripNonDigitsAppend(a, [c]);
    StripNonDigitsAppend(a, b);
    assert StripNonDigits([c]) == [] by {
      assert [c][1..] == [];
    }
    assert StripNonDigits(a + [c]) == StripNonDigits(a);
  }

  /** The normal form of a text is a fixed point of normalisation. */
  lemma NormalizeIdempotent(s: string)
    ensures Normalize(Text(Normalize(Text(s)).value)) == Normalize(Text(s))
  {
  }

  // ---------------------------------------------------------------------
  // Parser
  // ---------------------------------------------------------------------

  /** A parsed record passes the presence check and has the normal form of its input. */
  lemma ParseThenNormalize(x: NrnInput)
    requires Parse(x).Ok?
    ensures MatchesNrnInterface(Parse(x).value)
    ensures Normalize(Structured(Parse(x).value)) == Normalize(x)
  {
    if x.Text? {
      var d := StripNonDigits(x.text);
      var n := Parse(x).value;
      assert Concatenation(n) == d[..2] + d[2..4] + d[4..6] + d[6..9] + d[9..];
      assert d == d[..2] + d[2..4] + d[4..6] + d[6..9] + d[9..];
    }
  }

  /** Parsing a parsed record again gives it back. */
  lemma ParseIdempotent(x: NrnInput)
    requires Parse(x).Ok?
    ensures Parse(Structured(Parse(x).value)) == Parse(x)
  {
    ParseThenNormalize(x);
  }

  /** The parser reads only the normal form of a text. */
  lemma ParseReadsNormalForm(s: string)
    ensures Parse(Text(Normalize(Text(s)).value)) == Parse(Text(s))
  {
  }

  /** A record of digit strings, written out as eleven digits, parses back to itself. */
  lemma FormatThenParse(n: Nrn)
    requires DigitShaped(n)
    ensures Parse(Text(Concatenation(n))) == Ok(n)
  {
    var d := Concatenation(n);
    var (yy, mm, dd) := n.birthDate;
    assert d == yy + mm + dd + n.serial + n.checksum;
    AllDigitsConcat(yy, mm);
    AllDigitsConcat(yy + mm, dd);
    AllDigitsConcat(yy + mm + dd, n.serial);
    AllDigitsConcat(yy + mm + dd + n.serial, n.checksum);
    assert StripNonDigits(d) == d;
    assert d[..2] == yy && d[2..4] == mm && d[4..6] == dd;
    assert d[6..9] == n.serial && d[9..] == n.checksum;
  }

  /** A text and the record parsed from it are equal numbers. */
  lemma TextEqualsItsRecord(s: string)
    requires Parse(Text(s)).Ok?
    ensures IsEqual(Text(s), Structured(Parse(Text(s)).value)) == Ok(true)
  {
    ParseThenNormalize(Text(s));
  }

  /** Two texts, the first well-formed, are equal exactly when they parse to the same record. */
  lemma EqualIffSameRecord(a: string, b: string)
    requires Parse(Text(a)).Ok?
    ensures IsEqual(Text(a), Text(b)) == Ok(true) <==> Parse(Text(b)) == Parse(Text(a))
  {
    if Parse(Text(b)) == Parse(Text(a)) {
      ParseThenNormalize(Text(a));
      ParseThenNormalize(Text(b));
    }
  }

  /** isEqual is reflexive, symmetric and transitive on everything that normalises. */
  lemma EqualIsEquivalence(a: NrnInput, b: NrnInput, c: NrnInput)
    requires Normalize(a).Ok? && Normalize(b).Ok? && Normalize(c).Ok?
    ensures IsEqual(a, a) == Ok(true)
    ensures IsEqual(a, b) == IsEqual(b, a)
    ensures IsEqual(a, b) == Ok(true) && IsEqual(b, c) == Ok(true) ==> IsEqual(a, c) == Ok(true)
  {
  }

  // ---------------------------------------------------------------------
  // Checksum
  // ---------------------------------------------------------------------

  /** Two digit strings of length two with the same value are the same string. */
  lemma TwoDigitInjective(p: string, q: string)
    requires |p| == 2 && |q| == 2 && AllDigits(p) && AllDigits(q)
    requires DecimalValue(p) == DecimalValue(q)
    ensures p == q
  {
    TwoDigitValue(p);
    TwoDigitValue(q);
    assert DigitValue(p[0]) == DigitValue(q[0]) && DigitValue(p[1]) == DigitValue(q[1]);
    assert p[0] == q[0] && p[1] == q[1];
    assert p == [p[0], p[1]] && q == [q[0], q[1]];
  }

  /** A number has exactly one two-digit check value. */
  lemma CheckValueUnique(v: int, r: string, r': string)
    requires IsCheckValue(v, r) && IsCheckValue(v, r')
    ensures r == r'
  {
    var a, b := DecimalValue(r), DecimalValue(r');
    var qa, qb := (v + a) / 97, (v + b) / 97;
    assert v + a == 97 * qa && v + b == 97 * qb;
    assert a - b == 97 * (qa - qb);
    assert qa == qb;
    TwoDigitInjective(r, r');
  }

  /** For a digit body, a two-digit checksum matches mod97 of the body exactly when it is
      the body's check value. */
  lemma MatchesMod97(body: string, c: string)
    requires body != [] && AllDigits(body) && |c| == 2 && AllDigits(c)
    ensures Mod97(body) == c <==> IsCheckValue(DecimalValue(body), c)
  {
    if IsCheckValue(DecimalValue(body), c) {
      CheckValueUnique(DecimalValue(body), Mod97(body), c);
    }
  }

  /** The number a body denotes once prefixed with `2`: 2,000,000,000 more. */
  lemma PrefixTwo(body: string)
    requires |body| == 9 && AllDigits(body)
    ensures AllDigits("2" + body) && DecimalValue("2" + body) == 2000000000 + DecimalValue(body)
  {
    AllDigitsConcat("2", body);
    DecimalValueConcat("2", body);
    assert DecimalValue("2") == 2 by {
      assert "2"[..0] == [];
    }
    assert Pow10(9) == 1000000000;
  }

  /** The nine characters a parsed text is checked against are the first nine digits of its normal form. */
  lemma ParsedBody(s: string)
    requires Parse(Text(s)).Ok?
    ensures var d := StripNonDigits(s);
      ChecksumBody(Parse(Text(s)).value) == d[..9] && AllDigits(d[..9])
  {
    var d := StripNonDigits(s);
    assert d[..9] == d[..2] + d[2..4] + d[4..6] + d[6..9];
  }

  /** A text is a valid number exactly when it has eleven digits and the last two are the
      check value of the first nine read either as they stand (born before 2000) or with a
      leading 2 (from 2000); CheckReadings says what being the check value means. */
  lemma ValidTextCharacterisation(s: string)
    ensures var d := StripNonDigits(s);
      IsValidNrnNumber(Text(s)) <==>
        |d| == LengthValidNrn && (d[9..] == Mod97(d[..9]) || d[9..] == Mod97("2" + d[..9]))
  {
    var d := StripNonDigits(s);
    if |d| == LengthValidNrn {
      var n := Parse(Text(s)).value;
      ParsedBody(s);
      assert ChecksumBody(n) == d[..9] && n.checksum == d[9..];
    } else {
      assert Parse(Text(s)).Err?;
    }
  }

  /** Two digits check nine digits as they stand or with a leading 2 exactly when their value
      completes the number, or 2000000000 plus the number, to a multiple of 97. */
  lemma CheckReadings(body: string, c: string)
    requires |body| == 9 && AllDigits(body) && |c| == 2 && AllDigits(c)
    ensures (c == Mod97(body) || c == Mod97("2" + body))
      <==> (IsCheckValue(DecimalValue(body), c) || IsCheckValue(2000000000 + DecimalValue(body), c))
  {
    MatchesMod97(body, c);
    MatchesPrefixedMod97(body, c);
  }

  /** Two digits check a nine-digit body read with a leading 2 exactly when they are the
      check value of 2000000000 plus the body. */
  lemma MatchesPrefixedMod97(body: string, c: string)
    requires |body| == 9 && AllDigits(body) && |c| == 2 && AllDigits(c)
    ensures Mod97("2" + body) == c <==> IsCheckValue(2000000000 + DecimalValue(body), c)
  {
    PrefixTwo(body);
    MatchesMod97("2" + body, c);
  }

  /** The checksum body of a digit-shaped record is nine digits. */
  lemma BodyDigits(n: Nrn)
    requires DigitShaped(n)
    ensures |ChecksumBody(n)| == 9 && AllDigits(ChecksumBody(n))
  {
    var (yy, mm, dd) := n.birthDate;
    AllDigitsConcat(yy, mm);
    AllDigitsConcat(yy + mm, dd);
    AllDigitsConcat(yy + mm + dd, n.serial);
  }

  /** No checksum matches both centuries, because 2,000,000,000 is not a multiple of 97:
      the order in which getBirthYear tries them never decides the outcome. */
  lemma CenturiesExclusive(n: Nrn)
    requires DigitShaped(n)
    ensures !(n.checksum == Mod97(ChecksumBody(n)) && n.checksum == Mod97("2" + ChecksumBody(n)))
  {
    BodyDigits(n);
    NoBodyMatchesBoth(ChecksumBody(n), n.checksum);
  }

  lemma NoBodyMatchesBoth(body: string, c: string)
    requires |body| == 9 && AllDigits(body) && |c| == 2 && AllDigits(c)
    ensures !(c == Mod97(body) && c == Mod97("2" + body))
  {
    PrefixTwo(body);
    MatchesMod97(body, c);
    MatchesMod97("2" + body, c);
    NoCommonCheckValue(DecimalValue(body), DecimalValue("2" + body), c);
  }

  lemma NoCommonCheckValue(b: int, b': int, c: string)
    requires b' == 2000000000 + b
    ensures !(IsCheckValue(b, c) && IsCheckValue(b', c))
  {
    if IsCheckValue(b, c) {
      NoCommonResidue(b, DecimalValue(c));
    }
  }

  lemma NoCommonResidue(b: int, v: int)
    ensures !((b + v) % 97 == 0 && (2000000000 + b + v) % 97 == 0)
  {
  }

  /** The year of a valid digit-shaped number lies in 1900-1999 or 2000-2099. */
  lemma BirthYearRange(x: NrnInput)
    requires ParsesToDigits(x) && GetBirthYear(x).Ok?
    ensures GetBirthYear(x).value.Int? && 1900 <= GetBirthYear(x).value.value <= 2099
  {
    var n := Parse(x).value;
    TwoDigitValue(n.birthDate.0);
  }

  // ---------------------------------------------------------------------
  // BIS numbers and the birth date
  // ---------------------------------------------------------------------

  /** A regular number reports the month it stores. */
  lemma RegularBirthMonth(x: NrnInput)
    requires ParsesToDigits(x) && StoredMonth(Parse(x).value) <= 12 && StoredMonth(Parse(x).value) != 0
    ensures GetBirthMonth(x) == Ok(Int(StoredMonth(Parse(x).value)))
  {
    MonthField(Parse(x).value);
  }

  /** A BIS number reports its stored month decoded as the code writes it; see BisMonthAsWritten. */
  lemma BisBirthMonth(x: NrnInput)
    requires ParsesToDigits(x) && (StoredMonth(Parse(x).value) > 12 || StoredMonth(Parse(x).value) == 0)
    ensures var m := StoredMonth(Parse(x).value);
      && GetBirthMonth(x) == Ok(BisMonthAsWritten(Int(m)))
  {
    MonthField(Parse(x).value);
    assert GetBirthMonth(x) == GetBisBirthMonth(x);
  }

  /** getBirthDate once the month and the day are known numbers. */
  lemma DateOfParts(x: NrnInput, m: int, d: int)
    requires GetBirthYear(x).Ok? && GetBirthMonth(x) == Ok(Int(m)) && GetBirthDay(x) == Ok(Int(d))
    ensures GetBirthDate(x).Ok? <==> m >= 1 && d >= 1
    ensures GetBirthDate(x).Ok? ==> GetBirthDate(x).value == (GetBirthYear(x).value, Int(m), Int(d))
  {
  }

  /** A regular number has its date fields as they stand; the date is unknown only for day 00. */
  lemma RegularBirthDate(x: NrnInput)
    requires ParsesToDigits(x) && IsBisNumber(x) == Ok(false) && GetBirthYear(x).Ok?
    ensures var n := Parse(x).value;
      && (GetBirthDate(x).Ok? <==> StoredDay(n) >= 1)
      && (GetBirthDate(x).Ok? ==>
            GetBirthDate(x).value == (GetBirthYear(x).value, Int(StoredMonth(n)), Int(StoredDay(n))))
  {
    var n := Parse(x).value;
    var m, d := StoredMonth(n), StoredDay(n);
    RegularBirthMonth(x);
    assert GetBirthDay(x) == Ok(Int(d));
    DateOfParts(x, m, d);
  }

  /** A BIS number in one of the bands carries its true month, offset by 20 or 40. */
  lemma BisBirthDate(x: NrnInput)
    requires ParsesToDigits(x) && InBisBand(StoredMonth(Parse(x).value))
    requires GetBirthYear(x).Ok? && StoredDay(Parse(x).value) >= 1
    ensures var n := Parse(x).value;
      GetBirthDate(x) == Ok((GetBirthYear(x).value, Int(StoredMonth(n) % 20), Int(StoredDay(n))))
  {
    var n := Parse(x).value;
    var m, d := StoredMonth(n), StoredDay(n);
    BisBirthMonth(x);
    assert GetBirthMonth(x) == Ok(Int(m % 20));
    assert GetBirthDay(x) == Ok(Int(d));
    DateOfParts(x, m % 20, d);
  }

  /** For a BIS number in a band, or with an unknown-month marker, isBisBirthdateKnown says whether
      getBirthDate yields a date. */
  lemma BisBirthdateKnownAgrees(x: NrnInput)
    requires ParsesToDigits(x) && GetBirthYear(x).Ok?
    requires var m := StoredMonth(Parse(x).value); InBisBand(m) || UnknownBisMonth(m)
    ensures IsBisBirthdateKnown(x) == Ok(GetBirthDate(x).Ok?)
  {
    var n := Parse(x).value;
    var m, d := StoredMonth(n), StoredDay(n);
    var month := BisMonthAsWritten(Int(m)).value;
    BisBirthMonth(x);
    assert GetBirthDay(x) == Ok(Int(d));
    DateOfParts(x, month, d);
    KnownIffPositive(x, month, d);
  }

  /** isBisBirthdateKnown of a BIS number as the decoded month and the day being positive. */
  lemma KnownIffPositive(x: NrnInput, month: int, d: int)
    requires ParsesToDigits(x) && StoredDay(Parse(x).value) == d
    requires var m := StoredMonth(Parse(x).value); (m > 12 || m == 0) && BisMonthAsWritten(Int(m)) == Int(month)
    ensures IsBisBirthdateKnown(x) == Ok(month > 0 && d > 0)
  {
    var n := Parse(x).value;
    MonthField(n);
    DayField(n);
    assert IsBisNumber(x) == Ok(true);
    assert GetBisBirthMonth(x) == Ok(Int(month));
  }

  /** Stored months 13 to 19 are BIS numbers (the month is above 12) whose decoded month is
      negative. */
  lemma BelowBandsBisMonth(x: NrnInput)
    requires ParsesToDigits(x) && 13 <= StoredMonth(Parse(x).value) <= 19
    ensures IsBisNumber(x) == Ok(true)
    ensures GetBirthMonth(x) == Ok(Int(StoredMonth(Parse(x).value) - 20))
  {
    BisBirthMonth(x);
    BelowBandsMonth(StoredMonth(Parse(x).value));
  }

  /** So no date can be built from a number with stored month 13 to 19. */
  lemma BelowBandsNoDate(x: NrnInput)
    requires ParsesToDigits(x) && 13 <= StoredMonth(Parse(x).value) <= 19 && GetBirthYear(x).Ok?
    ensures GetBirthDate(x) == Err(BirthDateUnknown)
  {
    BelowBandsBisMonth(x);
    NoDateBeforeFirstMonth(x);
  }

  lemma BelowBandsMonth(m: int)
    requires 13 <= m <= 19
    ensures BisMonthAsWritten(Int(m)) == Int(m - 20) && BisMonth(Int(m)) == Int(m - 20)
  {
  }

  /** The decoding as written and the corrected decoding agree on every month but 40. */
  lemma DecodingsDifferOnlyAtForty(month: JsNumber)
    ensures BisMonthAsWritten(month) == BisMonth(month) <==> month != Int(40)
  {
  }

  /** As written, a valid BIS number with the marker month 40 and a day yields a date in
      month 20 instead of failing with an unknown birth date. */
  lemma FortyMarkerBirthDate(x: NrnInput)
    requires ParsesToDigits(x) && StoredMonth(Parse(x).value) == 40
    requires GetBirthYear(x).Ok? && StoredDay(Parse(x).value) >= 1
    ensures GetBirthMonth(x) == Ok(Int(20))
    ensures GetBirthDate(x) == Ok((GetBirthYear(x).value, Int(20), Int(StoredDay(Parse(x).value))))
    ensures IsBisBirthdateKnown(x) == Ok(true)
  {
    var d := StoredDay(Parse(x).value);
    BisBirthMonth(x);
    assert GetBirthDay(x) == Ok(Int(d));
    DateOfParts(x, 20, d);
  }

  /** A month below 1 makes the birth date unknown, whatever the day. */
  lemma NoDateBeforeFirstMonth(x: NrnInput)
    requires GetBirthYear(x).Ok? && GetBirthMonth(x).Ok? && GetBirthMonth(x).value.LessThan(1)
    ensures GetBirthDate(x) == Err(BirthDateUnknown)
  {
  }

  /** The sex is always decided for a digit serial: exactly one of female and male holds. */
  lemma SexIsDecided(x: NrnInput)
    requires ParsesToDigits(x)
    ensures IsBiologicalFemale(x).Ok? && IsBiologicalMale(x).Ok?
    ensures IsBiologicalFemale(x).value != IsBiologicalMale(x).value
  {
    var v := SerialNumber(Parse(x).value);
    assert IsBiologicalFemale(x) == Ok(v % 2 == 0);
    assert IsBiologicalMale(x) == Ok(v % 2 == 1);
  }

  // ---------------------------------------------------------------------
  // Error messages
  // ---------------------------------------------------------------------

  /** The thrown message tells the error apart: two errors with the same message are the same
      error, unless both are checksum errors (whose message embeds arbitrary field text). */
  lemma MessagesTellErrorsApart(a: NrnError, b: NrnError)
    requires !(a.InvalidChecksum? && b.InvalidChecksum?)
    ensures Message(a) == Message(b) ==> a == b
  {
    if a.InvalidChecksum? || b.InvalidChecksum? {
      var k := |InvalidChecksumLead|;
      assert k == 56;
    }
  }
}
