/**
 The examples the library's own test suite checks, stated about the model:
 each lemma names concrete inputs and the result the library gives for them.
 The helpers first reduce a written-out number to its record, and the check
 digits to arithmetic on the nine-digit body.
 */
module NrnVectors {
  import opened JsNumbers
  import opened NrnChecksum
  import opened NrnCodec
  import opened NrnProperties

  // ---------------------------------------------------------------------
  // Written forms of a record
  // ---------------------------------------------------------------------

  /** `yymmdd sss cc`. */
  function Spaced(n: Nrn): string {
    JoinBirthDate(n.birthDate) + " " + n.serial + " " + n.checksum
  }

  /** `yy.mm.dd-sss.cc`. */
  function Dotted(n: Nrn): string {
    n.birthDate.0 + "." + n.birthDate.1 + "." + n.birthDate.2 + "-" + n.serial + "." + n.checksum
  }

  /** The spaced form normalises to the concatenation of the fields. */
  lemma SpacedNormalForm(n: Nrn)
    ensures Normalize(Text(Spaced(n))) == Normalize(Text(Concatenation(n)))
  {
    var date := JoinBirthDate(n.birthDate);
    var tail := n.serial + " " + n.checksum;
    assert Spaced(n) == date + [' '] + tail;
    SeparatorIsIgnored(date, ' ', tail);
    assert date + tail == (date + n.serial) + [' '] + n.checksum;
    SeparatorIsIgnored(date + n.serial, ' ', n.checksum);
    assert date + n.serial + n.checksum == Concatenation(n);
  }

  /** The dotted form normalises to the concatenation of the fields. */
  lemma DottedNormalForm(n: Nrn)
    ensures Normalize(Text(Dotted(n))) == Normalize(Text(Concatenation(n)))
  {
    var (yy, mm, dd) := n.birthDate;
    var ss, cc := n.serial, n.checksum;
    var s1 := yy + "." + mm + "." + dd + "-" + ss;
    assert Dotted(n) == s1 + ['.'] + cc;
    SeparatorIsIgnored(s1, '.', cc);
    var s2 := yy + "." + mm + "." + dd;
    assert s1 + cc == s2 + ['-'] + (ss + cc);
    SeparatorIsIgnored(s2, '-', ss + cc);
    assert s2 + (ss + cc) == yy + "." + mm + "." + (dd + ss + cc);
    DateSeparators(yy, mm, dd + ss + cc);
    assert yy + mm + (dd + ss + cc) == Concatenation(n);
  }

  /** The two dots of a dotted date do not change the normal form. */
  lemma DateSeparators(yy: string, mm: string, t: string)
    ensures Normalize(Text(yy + "." + mm + "." + t)) == Normalize(Text(yy + mm + t))
  {
    var s3 := yy + "." + mm;
    assert yy + "." + mm + "." + t == s3 + ['.'] + t;
    SeparatorIsIgnored(s3, '.', t);
    assert s3 + t == yy + ['.'] + (mm + t);
    SeparatorIsIgnored(yy, '.', mm + t);
    assert yy + (mm + t) == yy + mm + t;
  }

  /** A spaced text of a digit-shaped record parses to the record. */
  lemma SpacedTextParses(n: Nrn)
    requires DigitShaped(n)
    ensures Parse(Text(Spaced(n))) == Ok(n)
  {
    SpacedNormalForm(n);
    FormatThenParse(n);
    ParseReadsNormalForm(Concatenation(n));
    ParseReadsNormalForm(Spaced(n));
  }

  // ---------------------------------------------------------------------
  // The checksum body as a number
  // ---------------------------------------------------------------------

  lemma ThreeDigitValue(s: string)
    requires |s| == 3 && AllDigits(s)
    ensures DecimalValue(s) == 100 * DigitValue(s[0]) + 10 * DigitValue(s[1]) + DigitValue(s[2])
  {
    var p := s[..2];
    assert |p| == 2 && AllDigits(p) && p[0] == s[0] && p[1] == s[1];
    TwoDigitValue(p);
    assert DecimalValue(s) == DecimalValue(p) * 10 + DigitValue(s[2]);
  }

  /** The body of a digit-shaped record denotes its date digits followed by its serial. */
  lemma BodyValue(n: Nrn)
    requires DigitShaped(n)
    ensures AllDigits(ChecksumBody(n)) && |ChecksumBody(n)| == 9
    ensures DecimalValue(ChecksumBody(n))
      == 10000000 * StoredYear(n) + 100000 * StoredMonth(n) + 1000 * StoredDay(n) + SerialNumber(n)
  {
    var (yy, mm, dd) := n.birthDate;
    var a := yy + mm;
    var b := a + dd;
    var c := b + n.serial;
    assert ChecksumBody(n) == c;
    AllDigitsConcat(yy, mm);
    AllDigitsConcat(a, dd);
    AllDigitsConcat(b, n.serial);
    assert Pow10(2) == 100 && Pow10(3) == 1000;
    DecimalValueConcat(yy, mm);
    assert DecimalValue(a) == 100 * StoredYear(n) + StoredMonth(n);
    DecimalValueConcat(a, dd);
    assert DecimalValue(b) == 100 * DecimalValue(a) + StoredDay(n);
    DecimalValueConcat(b, n.serial);
    assert DecimalValue(c) == 1000 * DecimalValue(b) + SerialNumber(n);
  }

  /** The number the nine body digits of a record stand for. */
  function BodyNumber(n: Nrn): nat
    requires DigitShaped(n)
  {
    10000000 * StoredYear(n) + 100000 * StoredMonth(n) + 1000 * StoredDay(n) + SerialNumber(n)
  }

  /** The check value of a digit body of value v is the c in 01-97 with v + c = 97 q. */
  lemma CheckValueIs(body: string, v: int, c: string, q: int)
    requires body != [] && AllDigits(body) && DecimalValue(body) == v
    requires |c| == 2 && AllDigits(c) && 1 <= DecimalValue(c) <= 97
    requires v + DecimalValue(c) == 97 * q
    ensures Mod97(body) == c
  {
    MultipleOf97(q);
    assert (v + DecimalValue(c)) % 97 == 0;
    assert IsCheckValue(v, c);
    MatchesMod97(body, c);
  }

  /** A two-digit c with v + c = 97 q + r, 0 < r < 97, is not the check value of the body. */
  lemma CheckValueIsNot(body: string, v: int, c: string, q: int, r: int)
    requires body != [] && AllDigits(body) && DecimalValue(body) == v
    requires |c| == 2 && AllDigits(c)
    requires v + DecimalValue(c) == 97 * q + r && 0 < r < 97
    ensures Mod97(body) != c
  {
    assert (v + DecimalValue(c)) % 97 == r;
    MatchesMod97(body, c);
  }

  /** A checksum that checks the body as it stands: born in the 1900s. */
  lemma YearIn1900s(x: NrnInput, n: Nrn)
    requires Parse(x) == Ok(n) && DigitShaped(n) && Mod97(ChecksumBody(n)) == n.checksum
    ensures GetBirthYear(x) == Ok(Int(1900 + StoredYear(n)))
  {
    assert GetBirthYear(x) == BirthYearOf(n);
    assert BirthYearOf(n) == Ok(Int(1900 + StoredYear(n)));
  }

  /** A checksum that checks the body only with a leading 2: born from 2000. */
  lemma YearIn2000s(x: NrnInput, n: Nrn)
    requires Parse(x) == Ok(n) && DigitShaped(n)
    requires Mod97(ChecksumBody(n)) != n.checksum && Mod97("2" + ChecksumBody(n)) == n.checksum
    ensures GetBirthYear(x) == Ok(Int(2000 + StoredYear(n)))
  {
    assert GetBirthYear(x) == BirthYearOf(n);
    assert BirthYearOf(n) == Ok(Int(2000 + StoredYear(n)));
  }

  /** A record whose checksum holds for the body as it stands: born in the 1900s. */
  lemma BornIn1900s(x: NrnInput, n: Nrn, q: int, y: int)
    requires Parse(x) == Ok(n) && DigitShaped(n) && 1 <= ChecksumNumber(n) <= 97
    requires BodyNumber(n) + ChecksumNumber(n) == 97 * q
    requires y == 1900 + StoredYear(n)
    ensures GetBirthYear(x) == Ok(Int(y))
  {
    BodyValue(n);
    CheckValueIs(ChecksumBody(n), BodyNumber(n), n.checksum, q);
    YearIn1900s(x, n);
  }

  /** A record whose checksum holds only with a leading 2: born from 2000. */
  lemma BornIn2000s(x: NrnInput, n: Nrn, q: int, q0: int, r0: int, y: int)
    requires Parse(x) == Ok(n) && DigitShaped(n) && 1 <= ChecksumNumber(n) <= 97
    requires BodyNumber(n) + ChecksumNumber(n) == 97 * q0 + r0 && 0 < r0 < 97
    requires 2000000000 + BodyNumber(n) + ChecksumNumber(n) == 97 * q
    requires y == 2000 + StoredYear(n)
    ensures GetBirthYear(x) == Ok(Int(y))
  {
    var body := ChecksumBody(n);
    BodyValue(n);
    PrefixTwo(body);
    CheckValueIsNot(body, BodyNumber(n), n.checksum, q0, r0);
    CheckValueIs("2" + body, 2000000000 + BodyNumber(n), n.checksum, q);
    YearIn2000s(x, n);
  }

  /** A record whose checksum holds for neither reading: the error names the two check
      values expected. */
  lemma NotBorn(x: NrnInput, n: Nrn, c19: string, v19: int, q19: int, c20: string, v20: int, q20: int)
    requires Parse(x) == Ok(n) && DigitShaped(n)
    requires |c19| == 2 && AllDigits(c19) && 1 <= DecimalValue(c19) == v19 <= 97
    requires |c20| == 2 && AllDigits(c20) && 1 <= DecimalValue(c20) == v20 <= 97
    requires BodyNumber(n) + v19 == 97 * q19
    requires 2000000000 + BodyNumber(n) + v20 == 97 * q20
    requires c19 != n.checksum && c20 != n.checksum
    ensures GetBirthYear(x) == Err(InvalidChecksum(n.checksum, c19, c20))
    ensures GetBirthDate(x) == Err(InvalidChecksum(n.checksum, c19, c20))
    ensures !IsValidNrnNumber(x)
  {
    var body := ChecksumBody(n);
    BodyValue(n);
    PrefixTwo(body);
    CheckValueIs(body, BodyNumber(n), c19, q19);
    CheckValueIs("2" + body, 2000000000 + BodyNumber(n), c20, q20);
    assert GetBirthYear(x) == BirthYearOf(n);
  }

  /** The date of a regular number whose checksum holds. */
  lemma RegularDate(x: NrnInput, n: Nrn, y: int, m: int, d: int)
    requires Parse(x) == Ok(n) && DigitShaped(n) && GetBirthYear(x) == Ok(Int(y))
    requires m == StoredMonth(n) && d == StoredDay(n) && 1 <= m <= 12 && d >= 1
    ensures GetBirthDate(x) == Ok((Int(y), Int(m), Int(d)))
  {
    RegularBirthDate(x);
  }

  /** The date of a BIS number in a band whose checksum holds. */
  lemma BandDate(x: NrnInput, n: Nrn, y: int, m: int, d: int)
    requires Parse(x) == Ok(n) && DigitShaped(n) && GetBirthYear(x) == Ok(Int(y))
    requires var stored := StoredMonth(n);
      (21 <= stored <= 32 && m == stored - 20) || (41 <= stored <= 52 && m == stored - 40)
    requires d == StoredDay(n) && d >= 1
    ensures GetBirthDate(x) == Ok((Int(y), Int(m), Int(d)))
  {
    BandOffset(StoredMonth(n), m);
    BisBirthDate(x);
  }

  lemma BandOffset(stored: int, m: int)
    requires (21 <= stored <= 32 && m == stored - 20) || (41 <= stored <= 52 && m == stored - 40)
    ensures InBisBand(stored) && m == stored % 20
  {
  }

  /** The date of a number whose checksum holds but whose month decodes below 1. */
  lemma NoDate(x: NrnInput, n: Nrn, y: int)
    requires Parse(x) == Ok(n) && DigitShaped(n) && GetBirthYear(x) == Ok(Int(y))
    requires StoredMonth(n) == 0 || StoredMonth(n) == 20
    ensures GetBirthDate(x) == Err(BirthDateUnknown)
  {
    BisBirthMonth(x);
    NoDateBeforeFirstMonth(x);
  }

  /** Whether a parsed record is a BIS or a regular number, read off its stored month. */
  lemma BisFlags(x: NrnInput, n: Nrn, m: int)
    requires Parse(x) == Ok(n) && DigitShaped(n) && StoredMonth(n) == m
    ensures IsBisNumber(x) == Ok(m > 12 || m == 0)
    ensures IsNrnNumber(x) == Ok(!(m > 12 || m == 0))
  {
  }

  /** The gender predicates of a parsed BIS record, read off its stored month. */
  lemma GenderFlags(x: NrnInput, n: Nrn, m: int)
    requires Parse(x) == Ok(n) && DigitShaped(n) && StoredMonth(n) == m && (m > 12 || m == 0)
    ensures IsBisGenderKnown(x) == Ok(m >= 40)
    ensures IsBisGenderKnownAsWritten(x) == Ok(m > 40)
  {
  }

  /** A parsed BIS record with its month in a band: the birth date is known when the day is. */
  lemma BandBirthdate(x: NrnInput, n: Nrn, m: int, d: int)
    requires Parse(x) == Ok(n) && DigitShaped(n) && StoredMonth(n) == m && StoredDay(n) == d
    requires InBisBand(m)
    ensures IsBisBirthdateKnown(x) == Ok(d > 0)
  {
  }

  /** A parsed BIS record with an unknown-month marker: the birth date is unknown, except that
      the marker 40 decodes to month 20 and so counts as known when there is a day. */
  lemma MarkerBirthdate(x: NrnInput, n: Nrn, m: int, d: int)
    requires Parse(x) == Ok(n) && DigitShaped(n) && StoredMonth(n) == m && StoredDay(n) == d
    requires UnknownBisMonth(m)
    ensures IsBisBirthdateKnown(x) == Ok(m == 40 && d > 0)
  {
  }

  /** The sex predicates of a parsed record, read off its serial number. */
  lemma SexFlags(x: NrnInput, n: Nrn, s: int)
    requires Parse(x) == Ok(n) && DigitShaped(n) && SerialNumber(n) == s
    ensures IsBiologicalFemale(x) == Ok(s % 2 == 0)
    ensures IsBiologicalMale(x) == Ok(s % 2 == 1)
  {
  }

  /** The three written forms of a digit-shaped record normalise to its eleven digits. */
  lemma WrittenForms(n: Nrn)
    requires DigitShaped(n)
    ensures Normalize(Text(Concatenation(n))) == Ok(Concatenation(n))
    ensures Normalize(Text(Spaced(n))) == Ok(Concatenation(n))
    ensures Normalize(Text(Dotted(n))) == Ok(Concatenation(n))
  {
    var (yy, mm, dd) := n.birthDate;
    AllDigitsConcat(yy, mm);
    AllDigitsConcat(yy + mm, dd);
    AllDigitsConcat(yy + mm + dd, n.serial);
    AllDigitsConcat(yy + mm + dd + n.serial, n.checksum);
    assert Concatenation(n) == yy + mm + dd + n.serial + n.checksum;
    SpacedNormalForm(n);
    DottedNormalForm(n);
  }

  // ---------------------------------------------------------------------
  // The texts of the examples and the numbers their fields stand for
  // ---------------------------------------------------------------------

  // Each example text has two lemmas: ParsesX gives the record its text parses to, and
  // FieldsX the numbers that record's fields stand for. FieldsX takes the record as a
  // parameter pinned by `requires n == ...` rather than as a literal in its body or its
  // callers' goals: this keeps the literal record apart from the checksum arithmetic the
  // vectors below do on those numbers, which is far cheaper for the solver.

  /** '860814 000 84' parses to the record of its digits. */
  lemma Parses860814_000_84()
    ensures Parse(Text("860814 000 84")) == Ok(Nrn(("86", "08", "14"), "000", "84"))
  {
    var n := Nrn(("86", "08", "14"), "000", "84");
    assert DigitShaped(n);
    assert Spaced(n) == "860814 000 84";
    SpacedTextParses(n);
  }

  /** The numbers the fields of '860814 000 84' stand for. */
  lemma Fields860814_000_84(n: Nrn)
    requires n == Nrn(("86", "08", "14"), "000", "84")
    ensures DigitShaped(n)
    ensures StoredYear(n) == 86 && StoredMonth(n) == 8 && StoredDay(n) == 14
      && SerialNumber(n) == 0 && ChecksumNumber(n) == 84
  {
    TwoDigitValue("86");
    TwoDigitValue("08");
    TwoDigitValue("14");
    ThreeDigitValue("000");
    TwoDigitValue("84");
  }

  /** '010814 000 74' parses to the record of its digits. */
  lemma Parses010814_000_74()
    ensures Parse(Text("010814 000 74")) == Ok(Nrn(("01", "08", "14"), "000", "74"))
  {
    var n := Nrn(("01", "08", "14"), "000", "74");
    assert DigitShaped(n);
    assert Spaced(n) == "010814 000 74";
    SpacedTextParses(n);
  }

  /** The numbers the fields of '010814 000 74' stand for. */
  lemma Fields010814_000_74(n: Nrn)
    requires n == Nrn(("01", "08", "14"), "000", "74")
    ensures DigitShaped(n)
    ensures StoredYear(n) == 1 && StoredMonth(n) == 8 && StoredDay(n) == 14
      && SerialNumber(n) == 0 && ChecksumNumber(n) == 74
  {
    TwoDigitValue("01");
    TwoDigitValue("08");
    TwoDigitValue("14");
    ThreeDigitValue("000");
    TwoDigitValue("74");
  }

  /** '810212 896 71' parses to the record of its digits. */
  lemma Parses810212_896_71()
    ensures Parse(Text("810212 896 71")) == Ok(Nrn(("81", "02", "12"), "896", "71"))
  {
    var n := Nrn(("81", "02", "12"), "896", "71");
    assert DigitShaped(n);
    assert Spaced(n) == "810212 896 71";
    SpacedTextParses(n);
  }

  /** The numbers the fields of '810212 896 71' stand for. */
  lemma Fields810212_896_71(n: Nrn)
    requires n == Nrn(("81", "02", "12"), "896", "71")
    ensures DigitShaped(n)
    ensures StoredYear(n) == 81 && StoredMonth(n) == 2 && StoredDay(n) == 12
      && SerialNumber(n) == 896 && ChecksumNumber(n) == 71
  {
    TwoDigitValue("81");
    TwoDigitValue("02");
    TwoDigitValue("12");
    ThreeDigitValue("896");
    TwoDigitValue("71");
  }

  /** '814212 896 60' parses to the record of its digits. */
  lemma Parses814212_896_60()
    ensures Parse(Text("814212 896 60")) == Ok(Nrn(("81", "42", "12"), "896", "60"))
  {
    var n := Nrn(("81", "42", "12"), "896", "60");
    assert DigitShaped(n);
    assert Spaced(n) == "814212 896 60";
    SpacedTextParses(n);
  }

  /** The numbers the fields of '814212 896 60' stand for. */
  lemma Fields814212_896_60(n: Nrn)
    requires n == Nrn(("81", "42", "12"), "896", "60")
    ensures DigitShaped(n)
    ensures StoredYear(n) == 81 && StoredMonth(n) == 42 && StoredDay(n) == 12
      && SerialNumber(n) == 896 && ChecksumNumber(n) == 60
  {
    TwoDigitValue("81");
    TwoDigitValue("42");
    TwoDigitValue("12");
    ThreeDigitValue("896");
    TwoDigitValue("60");
  }

  /** '812212 896 17' parses to the record of its digits. */
  lemma Parses812212_896_17()
    ensures Parse(Text("812212 896 17")) == Ok(Nrn(("81", "22", "12"), "896", "17"))
  {
    var n := Nrn(("81", "22", "12"), "896", "17");
    assert DigitShaped(n);
    assert Spaced(n) == "812212 896 17";
    SpacedTextParses(n);
  }

  /** The numbers the fields of '812212 896 17' stand for. */
  lemma Fields812212_896_17(n: Nrn)
    requires n == Nrn(("81", "22", "12"), "896", "17")
    ensures DigitShaped(n)
    ensures StoredYear(n) == 81 && StoredMonth(n) == 22 && StoredDay(n) == 12
      && SerialNumber(n) == 896 && ChecksumNumber(n) == 17
  {
    TwoDigitValue("81");
    TwoDigitValue("22");
    TwoDigitValue("12");
    ThreeDigitValue("896");
    TwoDigitValue("17");
  }

  /** '810000 896 29' parses to the record of its digits. */
  lemma Parses810000_896_29()
    ensures Parse(Text("810000 896 29")) == Ok(Nrn(("81", "00", "00"), "896", "29"))
  {
    var n := Nrn(("81", "00", "00"), "896", "29");
    assert DigitShaped(n);
    assert Spaced(n) == "810000 896 29";
    SpacedTextParses(n);
  }

  /** The numbers the fields of '810000 896 29' stand for. */
  lemma Fields810000_896_29(n: Nrn)
    requires n == Nrn(("81", "00", "00"), "896", "29")
    ensures DigitShaped(n)
    ensures StoredYear(n) == 81 && StoredMonth(n) == 0 && StoredDay(n) == 0
      && SerialNumber(n) == 896 && ChecksumNumber(n) == 29
  {
    TwoDigitValue("81");
    TwoDigitValue("00");
    TwoDigitValue("00");
    ThreeDigitValue("896");
    TwoDigitValue("29");
  }

  /** '860814 000 11' parses to the record of its digits. */
  lemma Parses860814_000_11()
    ensures Parse(Text("860814 000 11")) == Ok(Nrn(("86", "08", "14"), "000", "11"))
  {
    var n := Nrn(("86", "08", "14"), "000", "11");
    assert DigitShaped(n);
    assert Spaced(n) == "860814 000 11";
    SpacedTextParses(n);
  }

  /** The numbers the fields of '860814 000 11' stand for. */
  lemma Fields860814_000_11(n: Nrn)
    requires n == Nrn(("86", "08", "14"), "000", "11")
    ensures DigitShaped(n)
    ensures StoredYear(n) == 86 && StoredMonth(n) == 8 && StoredDay(n) == 14
      && SerialNumber(n) == 0 && ChecksumNumber(n) == 11
  {
    TwoDigitValue("86");
    TwoDigitValue("08");
    TwoDigitValue("14");
    ThreeDigitValue("000");
    TwoDigitValue("11");
  }

  /** '860814 001 11' parses to the record of its digits. */
  lemma Parses860814_001_11()
    ensures Parse(Text("860814 001 11")) == Ok(Nrn(("86", "08", "14"), "001", "11"))
  {
    var n := Nrn(("86", "08", "14"), "001", "11");
    assert DigitShaped(n);
    assert Spaced(n) == "860814 001 11";
    SpacedTextParses(n);
  }

  /** The numbers the fields of '860814 001 11' stand for. */
  lemma Fields860814_001_11(n: Nrn)
    requires n == Nrn(("86", "08", "14"), "001", "11")
    ensures DigitShaped(n)
    ensures StoredYear(n) == 86 && StoredMonth(n) == 8 && StoredDay(n) == 14
      && SerialNumber(n) == 1 && ChecksumNumber(n) == 11
  {
    TwoDigitValue("86");
    TwoDigitValue("08");
    TwoDigitValue("14");
    ThreeDigitValue("001");
    TwoDigitValue("11");
  }

  /** '860814 001 00' parses to the record of its digits. */
  lemma Parses860814_001_00()
    ensures Parse(Text("860814 001 00")) == Ok(Nrn(("86", "08", "14"), "001", "00"))
  {
    var n := Nrn(("86", "08", "14"), "001", "00");
    assert DigitShaped(n);
    assert Spaced(n) == "860814 001 00";
    SpacedTextParses(n);
  }

  /** The numbers the fields of '860814 001 00' stand for. */
  lemma Fields860814_001_00(n: Nrn)
    requires n == Nrn(("86", "08", "14"), "001", "00")
    ensures DigitShaped(n)
    ensures StoredYear(n) == 86 && StoredMonth(n) == 8 && StoredDay(n) == 14
      && SerialNumber(n) == 1 && ChecksumNumber(n) == 0
  {
    TwoDigitValue("86");
    TwoDigitValue("08");
    TwoDigitValue("14");
    ThreeDigitValue("001");
    TwoDigitValue("00");
  }

  /** '860814 000 00' parses to the record of its digits. */
  lemma Parses860814_000_00()
    ensures Parse(Text("860814 000 00")) == Ok(Nrn(("86", "08", "14"), "000", "00"))
  {
    var n := Nrn(("86", "08", "14"), "000", "00");
    assert DigitShaped(n);
    assert Spaced(n) == "860814 000 00";
    SpacedTextParses(n);
  }

  /** The numbers the fields of '860814 000 00' stand for. */
  lemma Fields860814_000_00(n: Nrn)
    requires n == Nrn(("86", "08", "14"), "000", "00")
    ensures DigitShaped(n)
    ensures StoredYear(n) == 86 && StoredMonth(n) == 8 && StoredDay(n) == 14
      && SerialNumber(n) == 0 && ChecksumNumber(n) == 0
  {
    TwoDigitValue("86");
    TwoDigitValue("08");
    TwoDigitValue("14");
    ThreeDigitValue("000");
    TwoDigitValue("00");
  }

  /** '814200 896 60' parses to the record of its digits. */
  lemma Parses814200_896_60()
    ensures Parse(Text("814200 896 60")) == Ok(Nrn(("81", "42", "00"), "896", "60"))
  {
    var n := Nrn(("81", "42", "00"), "896", "60");
    assert DigitShaped(n);
    assert Spaced(n) == "814200 896 60";
    SpacedTextParses(n);
  }

  /** The numbers the fields of '814200 896 60' stand for. */
  lemma Fields814200_896_60(n: Nrn)
    requires n == Nrn(("81", "42", "00"), "896", "60")
    ensures DigitShaped(n)
    ensures StoredYear(n) == 81 && StoredMonth(n) == 42 && StoredDay(n) == 0
      && SerialNumber(n) == 896 && ChecksumNumber(n) == 60
  {
    TwoDigitValue("81");
    TwoDigitValue("42");
    TwoDigitValue("00");
    ThreeDigitValue("896");
    TwoDigitValue("60");
  }

  /** '810012 896 60' parses to the record of its digits. */
  lemma Parses810012_896_60()
    ensures Parse(Text("810012 896 60")) == Ok(Nrn(("81", "00", "12"), "896", "60"))
  {
    var n := Nrn(("81", "00", "12"), "896", "60");
    assert DigitShaped(n);
    assert Spaced(n) == "810012 896 60";
    SpacedTextParses(n);
  }

  /** The numbers the fields of '810012 896 60' stand for. */
  lemma Fields810012_896_60(n: Nrn)
    requires n == Nrn(("81", "00", "12"), "896", "60")
    ensures DigitShaped(n)
    ensures StoredYear(n) == 81 && StoredMonth(n) == 0 && StoredDay(n) == 12
      && SerialNumber(n) == 896 && ChecksumNumber(n) == 60
  {
    TwoDigitValue("81");
    TwoDigitValue("00");
    TwoDigitValue("12");
    ThreeDigitValue("896");
    TwoDigitValue("60");
  }

  /** '814000 896 60' parses to the record of its digits. */
  lemma Parses814000_896_60()
    ensures Parse(Text("814000 896 60")) == Ok(Nrn(("81", "40", "00"), "896", "60"))
  {
    var n := Nrn(("81", "40", "00"), "896", "60");
    assert DigitShaped(n);
    assert Spaced(n) == "814000 896 60";
    SpacedTextParses(n);
  }

  /** The numbers the fields of '814000 896 60' stand for. */
  lemma Fields814000_896_60(n: Nrn)
    requires n == Nrn(("81", "40", "00"), "896", "60")
    ensures DigitShaped(n)
    ensures StoredYear(n) == 81 && StoredMonth(n) == 40 && StoredDay(n) == 0
      && SerialNumber(n) == 896 && ChecksumNumber(n) == 60
  {
    TwoDigitValue("81");
    TwoDigitValue("40");
    TwoDigitValue("00");
    ThreeDigitValue("896");
    TwoDigitValue("60");
  }

  /** '812200 896 60' parses to the record of its digits. */
  lemma Parses812200_896_60()
    ensures Parse(Text("812200 896 60")) == Ok(Nrn(("81", "22", "00"), "896", "60"))
  {
    var n := Nrn(("81", "22", "00"), "896", "60");
    assert DigitShaped(n);
    assert Spaced(n) == "812200 896 60";
    SpacedTextParses(n);
  }

  /** The numbers the fields of '812200 896 60' stand for. */
  lemma Fields812200_896_60(n: Nrn)
    requires n == Nrn(("81", "22", "00"), "896", "60")
    ensures DigitShaped(n)
    ensures StoredYear(n) == 81 && StoredMonth(n) == 22 && StoredDay(n) == 0
      && SerialNumber(n) == 896 && ChecksumNumber(n) == 60
  {
    TwoDigitValue("81");
    TwoDigitValue("22");
    TwoDigitValue("00");
    ThreeDigitValue("896");
    TwoDigitValue("60");
  }

  /** '812000 896 60' parses to the record of its digits. */
  lemma Parses812000_896_60()
    ensures Parse(Text("812000 896 60")) == Ok(Nrn(("81", "20", "00"), "896", "60"))
  {
    var n := Nrn(("81", "20", "00"), "896", "60");
    assert DigitShaped(n);
    assert Spaced(n) == "812000 896 60";
    SpacedTextParses(n);
  }

  /** The numbers the fields of '812000 896 60' stand for. */
  lemma Fields812000_896_60(n: Nrn)
    requires n == Nrn(("81", "20", "00"), "896", "60")
    ensures DigitShaped(n)
    ensures StoredYear(n) == 81 && StoredMonth(n) == 20 && StoredDay(n) == 0
      && SerialNumber(n) == 896 && ChecksumNumber(n) == 60
  {
    TwoDigitValue("81");
    TwoDigitValue("20");
    TwoDigitValue("00");
    ThreeDigitValue("896");
    TwoDigitValue("60");
  }

  /** '814012 896 46' parses to the record of its digits. */
  lemma Parses814012_896_46()
    ensures Parse(Text("814012 896 46")) == Ok(Nrn(("81", "40", "12"), "896", "46"))
  {
    var n := Nrn(("81", "40", "12"), "896", "46");
    assert DigitShaped(n);
    assert Spaced(n) == "814012 896 46";
    SpacedTextParses(n);
  }

  /** The numbers the fields of '814012 896 46' stand for. */
  lemma Fields814012_896_46(n: Nrn)
    requires n == Nrn(("81", "40", "12"), "896", "46")
    ensures DigitShaped(n)
    ensures StoredYear(n) == 81 && StoredMonth(n) == 40 && StoredDay(n) == 12
      && SerialNumber(n) == 896 && ChecksumNumber(n) == 46
  {
    TwoDigitValue("81");
    TwoDigitValue("40");
    TwoDigitValue("12");
    ThreeDigitValue("896");
    TwoDigitValue("46");
  }

  // ---------------------------------------------------------------------
  // getBirthDate
  // ---------------------------------------------------------------------

  /** '860814 000 84' is 14 August 1986. */
  lemma BirthDateIn1900s()
    ensures GetBirthDate(Text("860814 000 84")) == Ok((Int(1986), Int(8), Int(14)))
  {
    var x, n := Text("860814 000 84"), Nrn(("86", "08", "14"), "000", "84");
    Parses860814_000_84();
    Fields860814_000_84(n);
    BornIn1900s(x, n, 8874372, 1986);
    RegularDate(x, n, 1986, 8, 14);
  }

  /** '010814 000 74' is 14 August 2001: its checksum holds only with the leading 2. */
  lemma BirthDateIn2000s()
    ensures GetBirthDate(Text("010814 000 74")) == Ok((Int(2001), Int(8), Int(14)))
  {
    var x, n := Text("010814 000 74"), Nrn(("01", "08", "14"), "000", "74");
    Parses010814_000_74();
    Fields010814_000_74(n);
    BornIn2000s(x, n, 20730042, 111485, 29, 2001);
    RegularDate(x, n, 2001, 8, 14);
  }

  /** '810212 896 71' is 12 February 1981. */
  lemma BirthDateOfRegularNumber()
    ensures GetBirthDate(Text("810212 896 71")) == Ok((Int(1981), Int(2), Int(12)))
  {
    var x, n := Text("810212 896 71"), Nrn(("81", "02", "12"), "896", "71");
    Parses810212_896_71();
    Fields810212_896_71(n);
    BornIn1900s(x, n, 8352711, 1981);
    RegularDate(x, n, 1981, 2, 12);
  }

  /** '814212 896 60' is a BIS number of 12 February 1981 (month 02 stored as 42). */
  lemma BirthDateOfBisGenderKnown()
    ensures GetBirthDate(Text("814212 896 60")) == Ok((Int(1981), Int(2), Int(12)))
  {
    var x, n := Text("814212 896 60"), Nrn(("81", "42", "12"), "896", "60");
    Parses814212_896_60();
    Fields814212_896_60(n);
    BornIn1900s(x, n, 8393948, 1981);
    BandDate(x, n, 1981, 2, 12);
  }

  /** '812212 896 17' is a BIS number of 12 February 1981 (month 02 stored as 22). */
  lemma BirthDateOfBisGenderUnknown()
    ensures GetBirthDate(Text("812212 896 17")) == Ok((Int(1981), Int(2), Int(12)))
  {
    var x, n := Text("812212 896 17"), Nrn(("81", "22", "12"), "896", "17");
    Parses812212_896_17();
    Fields812212_896_17(n);
    BornIn1900s(x, n, 8373329, 1981);
    BandDate(x, n, 1981, 2, 12);
  }

  /** '810000 896 29' has month and day 00: the birth date is unknown. */
  lemma BirthDateUnknownForZeroMonth()
    ensures GetBirthDate(Text("810000 896 29")) == Err(BirthDateUnknown)
  {
    var x, n := Text("810000 896 29"), Nrn(("81", "00", "00"), "896", "29");
    Parses810000_896_29();
    Fields810000_896_29(n);
    BornIn1900s(x, n, 8350525, 1981);
    NoDate(x, n, 1981);
  }

  /** '860814 000 11' fails the checksum; 84 was expected for 1900 and 16 for 2000. */
  lemma InvalidChecksumReported()
    ensures GetBirthDate(Text("860814 000 11")) == Err(InvalidChecksum("11", "84", "16"))
    ensures !IsValidNrnNumber(Text("860814 000 11"))
  {
    var x, n := Text("860814 000 11"), Nrn(("86", "08", "14"), "000", "11");
    Parses860814_000_11();
    Fields860814_000_11(n);
    var c19, c20 := "84", "16";
    CheckValues84And16(c19, c20);
    NotBorn(x, n, c19, 84, 8874372, c20, 16, 29492928);
  }

  /** The check values 84 and 16 as numbers. */
  lemma CheckValues84And16(c19: string, c20: string)
    requires c19 == "84" && c20 == "16"
    ensures |c19| == 2 && AllDigits(c19) && DecimalValue(c19) == 84
    ensures |c20| == 2 && AllDigits(c20) && DecimalValue(c20) == 16
  {
    TwoDigitValue(c19);
    TwoDigitValue(c20);
  }

  /** '860814 000 84' is a valid number. */
  lemma ValidNumber()
    ensures IsValidNrnNumber(Text("860814 000 84"))
  {
    var x, n := Text("860814 000 84"), Nrn(("86", "08", "14"), "000", "84");
    Parses860814_000_84();
    Fields860814_000_84(n);
    BornIn1900s(x, n, 8874372, 1986);
  }

  // ---------------------------------------------------------------------
  // isBiologicalFemale, isBiologicalMale
  // ---------------------------------------------------------------------

  /** The even serial 000 is a woman's. */
  lemma FemaleForEvenSerial()
    ensures IsBiologicalFemale(Text("860814 000 11")) == Ok(true)
  {
    var n := Nrn(("86", "08", "14"), "000", "11");
    Parses860814_000_11();
    Fields860814_000_11(n);
    SexFlags(Text("860814 000 11"), n, 0);
  }

  /** The odd serial 001 is not a woman's. */
  lemma NotFemaleForOddSerial()
    ensures IsBiologicalFemale(Text("860814 001 11")) == Ok(false)
  {
    var n := Nrn(("86", "08", "14"), "001", "11");
    Parses860814_001_11();
    Fields860814_001_11(n);
    SexFlags(Text("860814 001 11"), n, 1);
  }

  /** The odd serial 001 is a man's. */
  lemma MaleForOddSerial()
    ensures IsBiologicalMale(Text("860814 001 00")) == Ok(true)
  {
    var n := Nrn(("86", "08", "14"), "001", "00");
    Parses860814_001_00();
    Fields860814_001_00(n);
    SexFlags(Text("860814 001 00"), n, 1);
  }

  /** The even serial 000 is not a man's. */
  lemma NotMaleForEvenSerial()
    ensures IsBiologicalMale(Text("860814 000 00")) == Ok(false)
  {
    var n := Nrn(("86", "08", "14"), "000", "00");
    Parses860814_000_00();
    Fields860814_000_00(n);
    SexFlags(Text("860814 000 00"), n, 0);
  }

  // ---------------------------------------------------------------------
  // isEqual, normalize, parse
  // ---------------------------------------------------------------------

  /** The three written forms of 92/06/06, serial 000, checksum 00. */
  lemma Forms920606_000_00(n: Nrn)
    requires n == Nrn(("92", "06", "06"), "000", "00")
    ensures DigitShaped(n)
    ensures Concatenation(n) == "92060600000"
    ensures Spaced(n) == "920606 000 00"
    ensures Dotted(n) == "92.06.06-000.00"
  {
  }

  /** The three written forms of 92/06/06, serial 000, checksum 11. */
  lemma Forms920606_000_11(n: Nrn)
    requires n == Nrn(("92", "06", "06"), "000", "11")
    ensures DigitShaped(n)
    ensures Concatenation(n) == "92060600011"
    ensures Spaced(n) == "920606 000 11"
    ensures Dotted(n) == "92.06.06-000.11"
  {
  }

  /** The three written forms of 92/06/06, serial 000, checksum 22. */
  lemma Forms920606_000_22(n: Nrn)
    requires n == Nrn(("92", "06", "06"), "000", "22")
    ensures DigitShaped(n)
    ensures Concatenation(n) == "92060600022"
    ensures Spaced(n) == "920606 000 22"
    ensures Dotted(n) == "92.06.06-000.22"
  {
  }

  /** The plain, spaced and dotted forms of one number are equal. */
  lemma EqualForms()
    ensures IsEqual(Text("92060600000"), Text("920606 000 00")) == Ok(true)
    ensures IsEqual(Text("920606 000 00"), Text("920606 000 00")) == Ok(true)
    ensures IsEqual(Text("92.06.06-000.00"), Text("920606 000 00")) == Ok(true)
  {
    var n := Nrn(("92", "06", "06"), "000", "00");
    Forms920606_000_00(n);
    WrittenForms(n);
  }

  /** Numbers that differ in their checksum are not equal. */
  lemma UnequalNumbers()
    ensures IsEqual(Text("92.06.06-000.11"), Text("92060600022")) == Ok(false)
  {
    var n1 := Nrn(("92", "06", "06"), "000", "11");
    var n2 := Nrn(("92", "06", "06"), "000", "22");
    Forms920606_000_11(n1);
    Forms920606_000_22(n2);
    WrittenForms(n1);
    WrittenForms(n2);
  }

  /** The plain, spaced and dotted forms of a number normalise to its eleven digits. */
  lemma NormalizeWrittenForms()
    ensures Normalize(Text("92060600011")) == Ok("92060600011")
    ensures Normalize(Text("920606 000 11")) == Ok("92060600011")
    ensures Normalize(Text("92.06.06-000.11")) == Ok("92060600011")
  {
    var n := Nrn(("92", "06", "06"), "000", "11");
    Forms920606_000_11(n);
    WrittenForms(n);
  }

  /** Only text and records of the Nrn shape can be normalised. */
  lemma NormalizeRejectsOtherTypes()
    ensures Normalize(Untyped) == Err(NormalizeInvalidType)
  {
  }

  /** A record normalises to its fields written one after the other. */
  lemma NormalizeRecord()
    ensures Normalize(Structured(Nrn(("86", "08", "14"), "000", "59"))) == Ok("86081400059")
  {
    var n := Nrn(("86", "08", "14"), "000", "59");
    assert MatchesNrnInterface(n);
    assert Concatenation(n) == "86081400059";
  }

  /** A text without eleven digits is rejected for its length. */
  lemma ParseRejectsShortText()
    ensures Parse(Text("-")) == Err(InvalidLength)
  {
    assert StripNonDigits("-") == [];
  }

  /** A record of the Nrn shape parses to itself. */
  lemma ParseRecord()
    ensures Parse(Structured(Nrn(("86", "08", "14"), "000", "11")))
      == Ok(Nrn(("86", "08", "14"), "000", "11"))
  {
    assert MatchesNrnInterface(Nrn(("86", "08", "14"), "000", "11"));
  }

  /** Only text and records of the Nrn shape can be parsed. */
  lemma ParseRejectsOtherTypes()
    ensures Parse(Untyped) == Err(ParseInvalidType)
  {
  }

  // ---------------------------------------------------------------------
  // isBisNumber, isNrnNumber, isBisBirthdateKnown, isBisGenderKnown
  // ---------------------------------------------------------------------

  /** '814212 896 60' (month 02 stored as 42) is a BIS number whose birth date and gender are known. */
  lemma BisNumberKnownDateAndGender()
    ensures IsBisNumber(Text("814212 896 60")) == Ok(true)
    ensures IsNrnNumber(Text("814212 896 60")) == Ok(false)
    ensures IsBisBirthdateKnown(Text("814212 896 60")) == Ok(true)
    ensures IsBisGenderKnown(Text("814212 896 60")) == Ok(true)
    ensures IsBisGenderKnownAsWritten(Text("814212 896 60")) == Ok(true)
  {
    var n := Nrn(("81", "42", "12"), "896", "60");
    Parses814212_896_60();
    Fields814212_896_60(n);
    BisFlags(Text("814212 896 60"), n, 42);
    GenderFlags(Text("814212 896 60"), n, 42);
    BandBirthdate(Text("814212 896 60"), n, 42, 12);
  }

  /** '810212 896 71' (month 02) is a regular number, not a BIS number. */
  lemma RegularNumberIsNotBis()
    ensures IsBisNumber(Text("810212 896 71")) == Ok(false)
    ensures IsNrnNumber(Text("810212 896 71")) == Ok(true)
  {
    var n := Nrn(("81", "02", "12"), "896", "71");
    Parses810212_896_71();
    Fields810212_896_71(n);
    BisFlags(Text("810212 896 71"), n, 2);
  }

  /** A BIS number with day 00 has an unknown birth date. */
  lemma BirthdateUnknownForZeroDay()
    ensures IsBisBirthdateKnown(Text("814200 896 60")) == Ok(false)
  {
    var n := Nrn(("81", "42", "00"), "896", "60");
    Parses814200_896_60();
    Fields814200_896_60(n);
    BisFlags(Text("814200 896 60"), n, 42);
    BandBirthdate(Text("814200 896 60"), n, 42, 0);
  }

  /** A BIS number with month 00 has an unknown birth date. */
  lemma BirthdateUnknownForZeroMonthBis()
    ensures IsBisBirthdateKnown(Text("810012 896 60")) == Ok(false)
  {
    var n := Nrn(("81", "00", "12"), "896", "60");
    Parses810012_896_60();
    Fields810012_896_60(n);
    BisFlags(Text("810012 896 60"), n, 0);
    MarkerBirthdate(Text("810012 896 60"), n, 0, 12);
  }

  /** A BIS month stored in the band from 21 was issued with the gender unknown. */
  lemma GenderUnknownInFirstBand()
    ensures IsBisGenderKnown(Text("812200 896 60")) == Ok(false)
    ensures IsBisGenderKnownAsWritten(Text("812200 896 60")) == Ok(false)
  {
    var n := Nrn(("81", "22", "00"), "896", "60");
    Parses812200_896_60();
    Fields812200_896_60(n);
    BisFlags(Text("812200 896 60"), n, 22);
    GenderFlags(Text("812200 896 60"), n, 22);
  }

  /** The marker 20 (gender and month unknown) has the gender unknown. */
  lemma GenderUnknownAtTwenty()
    ensures IsBisGenderKnown(Text("812000 896 60")) == Ok(false)
    ensures IsBisGenderKnownAsWritten(Text("812000 896 60")) == Ok(false)
  {
    var n := Nrn(("81", "20", "00"), "896", "60");
    Parses812000_896_60();
    Fields812000_896_60(n);
    BisFlags(Text("812000 896 60"), n, 20);
    GenderFlags(Text("812000 896 60"), n, 20);
  }

  /** '814000 896 60' has its gender known and its month unknown (stored 40): the corrected
      predicate says the gender is known, the predicate as written says it is not. */
  lemma GenderKnownAtForty()
    ensures IsBisGenderKnown(Text("814000 896 60")) == Ok(true)
    ensures IsBisGenderKnownAsWritten(Text("814000 896 60")) == Ok(false)
    ensures IsBisBirthdateKnown(Text("814000 896 60")) == Ok(false)
  {
    var n := Nrn(("81", "40", "00"), "896", "60");
    Parses814000_896_60();
    Fields814000_896_60(n);
    BisFlags(Text("814000 896 60"), n, 40);
    GenderFlags(Text("814000 896 60"), n, 40);
    MarkerBirthdate(Text("814000 896 60"), n, 40, 0);
  }

  /** The month marker 40 (gender known, month unknown): the month as written is 20, the
      corrected month is 0, the value that says "unknown". */
  lemma BisMonthAtForty()
    ensures BisMonthAsWritten(Int(40)) == Int(20)
    ensures BisMonth(Int(40)) == Int(0)
  {
  }

  /** '814012 896 46' (valid for 1981) has the marker month 40 and day 12. As written, its month
      decodes to 20, its birth date counts as known, and getBirthDate builds the month 20. */
  lemma BirthDateAtFortyMarker()
    ensures GetBisBirthMonth(Text("814012 896 46")) == Ok(Int(20))
    ensures IsBisBirthdateKnown(Text("814012 896 46")) == Ok(true)
    ensures GetBirthDate(Text("814012 896 46")) == Ok((Int(1981), Int(20), Int(12)))
  {
    var x, n := Text("814012 896 46"), Nrn(("81", "40", "12"), "896", "46");
    Parses814012_896_46();
    Fields814012_896_46(n);
    BornIn1900s(x, n, 8391886, 1981);
    BisFlags(x, n, 40);
    FortyMarkerBirthDate(x);
  }
}
