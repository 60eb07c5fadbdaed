/**
 The small part of the JavaScript runtime that the NRN codec leans on:
 the number values it computes with, `Number(string)`, `parseInt(string)`,
 the truncating `%` operator, `String(number)`, `String.prototype.padStart`
 and `String.prototype.slice`.

 A JavaScript number is modelled as either NaN or an integer. Every value
 the codec derives from a string is one of these two, because strings in a
 fractional, exponent or `Infinity` syntax are read as NaN here (see the
 README for what that leaves out).
 */
module JsNumbers {

  datatype JsNumber = NaN | Int(value: int) {
    /** `x > k`; false for NaN, as every comparison with NaN is. On integers it is `x >= k + 1`. */
    predicate GreaterThan(k: int): (r: bool)
      ensures NaN? ==> !r
      ensures r <==> AtLeast(k + 1)
    { Int? && value > k }
    /** `x < k`; false for NaN. On integers it is the negation of `x >= k`, so for NaN both
        `x < k` and `x >= k` are false. */
    predicate LessThan(k: int): (r: bool)
      ensures NaN? ==> !r
      ensures Int? ==> (r <==> !AtLeast(k))
    { Int? && value < k }
    /** `x >= k`; false for NaN. */
    predicate AtLeast(k: int): (r: bool)
      ensures NaN? ==> !r
      ensures Int? && value >= k ==> r
      ensures Int? && value < k ==> !r
    { Int? && value >= k }
    /** `x === k`; false for NaN, and otherwise exactly when x is the integer k. */
    predicate StrictEquals(k: int): (r: bool)
      ensures r <==> this == Int(k)
    { Int? && value == k }
  }

  // ---------------------------------------------------------------------
  // Characters and digit strings
  // ---------------------------------------------------------------------

  /** The regular-expression class `\d`: the ten ASCII decimal digits. */
  predicate IsDigit(c: char) { '0' <= c <= '9' }

  predicate AllDigits(s: string) { forall i :: 0 <= i < |s| ==> IsDigit(s[i]) }

  /** The value of an ASCII letter or digit as a digit of radix up to 36; 36 for anything else. */
  function DigitValue(c: char): (v: nat)
    ensures v <= 36
    ensures IsDigit(c) <==> v < 10
    ensures IsDigit(c) ==> v == c as int - '0' as int
  {
    if '0' <= c <= '9' then c as int - '0' as int
    else if 'a' <= c <= 'z' then c as int - 'a' as int + 10
    else if 'A' <= c <= 'Z' then c as int - 'A' as int + 10
    else 36
  }

  predicate IsRadixDigit(c: char, radix: nat) { DigitValue(c) < radix }

  predicate AllRadixDigits(s: string, radix: nat) {
    forall i :: 0 <= i < |s| ==> IsRadixDigit(s[i], radix)
  }

  /** The value of a string of radix digits, most significant digit first. */
  function RadixValue(s: string, radix: nat): nat
    requires AllRadixDigits(s, radix)
  {
    if s == [] then 0 else RadixValue(s[..|s| - 1], radix) * radix + DigitValue(s[|s| - 1])
  }

  /** The value of a string of decimal digits (RadixValue for radix 10). */
  function DecimalValue(s: string): nat
    requires AllDigits(s)
  {
    if s == [] then 0 else DecimalValue(s[..|s| - 1]) * 10 + DigitValue(s[|s| - 1])
  }

  /** DecimalValue is RadixValue for radix 10. */
  lemma {:induction false} DecimalIsRadixTen(s: string)
    requires AllDigits(s)
    ensures AllRadixDigits(s, 10) && RadixValue(s, 10) == DecimalValue(s)
  {
    if s != [] {
      DecimalIsRadixTen(s[..|s| - 1]);
    }
  }

  function Pow10(n: nat): (p: nat)
    ensures p >= 1
  {
    if n == 0 then 1 else 10 * Pow10(n - 1)
  }

  /** Appending digits shifts the value of the prefix. */
  lemma {:induction false} DecimalValueConcat(p: string, q: string)
    requires AllDigits(p) && AllDigits(q)
    ensures DecimalValue(p + q) == DecimalValue(p) * Pow10(|q|) + DecimalValue(q)
  {
    if q == [] {
      assert p + q == p;
    } else {
      var q' := q[..|q| - 1];
      var d := DigitValue(q[|q| - 1]);
      assert (p + q)[..|p + q| - 1] == p + q';
      assert (p + q)[|p + q| - 1] == q[|q| - 1];
      DecimalValueConcat(p, q');
      var a, b, e := DecimalValue(p), DecimalValue(q'), Pow10(|q'|);
      calc {
        DecimalValue(p + q);
        DecimalValue(p + q') * 10 + d;
        (a * e + b) * 10 + d;
        { ShiftByTen(a, e, b); }
        a * (e * 10) + (b * 10 + d);
        { assert Pow10(|q|) == e * 10 && DecimalValue(q) == b * 10 + d; }
        a * Pow10(|q|) + DecimalValue(q);
      }
    }
  }

  lemma ShiftByTen(a: int, e: int, b: int)
    ensures (a * e + b) * 10 == a * (e * 10) + b * 10
  {
  }

  lemma AllDigitsConcat(p: string, q: string)
    requires AllDigits(p) && AllDigits(q)
    ensures AllDigits(p + q)
  {
    forall i | 0 <= i < |p + q| ensures IsDigit((p + q)[i]) {
      if i < |p| { assert (p + q)[i] == p[i]; } else { assert (p + q)[i] == q[i - |p|]; }
    }
  }

  /** The value of a two-digit string. */
  lemma TwoDigitValue(s: string)
    requires |s| == 2 && AllDigits(s)
    ensures DecimalValue(s) == 10 * DigitValue(s[0]) + DigitValue(s[1])
  {
    var p := s[..1];
    assert p == [s[0]] && p[..0] == [];
    assert DecimalValue(p) == DecimalValue([]) * 10 + DigitValue(s[0]);
    assert DecimalValue(s) == DecimalValue(p) * 10 + DigitValue(s[1]);
  }

  /** Leading zeros do not change the value. */
  lemma LeadingZero(s: string)
    requires AllDigits(s)
    ensures AllDigits("0" + s) && DecimalValue("0" + s) == DecimalValue(s)
  {
    DecimalValueConcat("0", s);
    assert "0"[..0] == [];
  }

  /** The digit character for 0 <= d < 10. */
  function DigitChar(d: nat): (c: char)
    requires d < 10
    ensures IsDigit(c) && DigitValue(c) == d
  {
    ('0' as int + d) as char
  }

  /** The decimal digits of n without leading zeros: `String(n)` for a non-negative integer. */
  function DecimalString(n: nat): (r: string)
    ensures AllDigits(r) && DecimalValue(r) == n
    ensures 1 <= |r| && (|r| == 1 <==> n < 10)
    ensures n < 100 ==> |r| <= 2
    ensures n > 0 ==> r[0] != '0'
  {
    if n < 10 then
      var r := [DigitChar(n)];
      assert r[..0] == [];
      r
    else
      var r := DecimalString(n / 10) + [DigitChar(n % 10)];
      assert r[..|r| - 1] == DecimalString(n / 10);
      r
  }

  // ---------------------------------------------------------------------
  // Whitespace, as `trim` and the number grammar understand it
  // ---------------------------------------------------------------------

  /** WhiteSpace and LineTerminator code points of ECMAScript. */
  predicate IsJsWhiteSpace(c: char) {
    var u := c as int;
    u == 0x09 || u == 0x0A || u == 0x0B || u == 0x0C || u == 0x0D || u == 0x20
    || u == 0xA0 || u == 0x1680 || (0x2000 <= u <= 0x200A) || u == 0x2028 || u == 0x2029
    || u == 0x202F || u == 0x205F || u == 0x3000 || u == 0xFEFF
  }

  /** The string without its leading whitespace. */
  function TrimStart(s: string): (r: string)
    ensures |r| <= |s| && r == s[|s| - |r|..]
    ensures r == [] || !IsJsWhiteSpace(r[0])
    ensures forall i :: 0 <= i < |s| - |r| ==> IsJsWhiteSpace(s[i])
  {
    if s != [] && IsJsWhiteSpace(s[0]) then TrimStart(s[1..]) else s
  }

  /** The string without its trailing whitespace. */
  function TrimEnd(s: string): (r: string)
    ensures |r| <= |s| && r == s[..|r|]
    ensures r == [] || !IsJsWhiteSpace(r[|r| - 1])
    ensures forall i :: |r| <= i < |s| ==> IsJsWhiteSpace(s[i])
  {
    if s != [] && IsJsWhiteSpace(s[|s| - 1]) then TrimEnd(s[..|s| - 1]) else s
  }

  function Trim(s: string): string {
    TrimEnd(TrimStart(s))
  }

  // ---------------------------------------------------------------------
  // String to number
  // ---------------------------------------------------------------------

  /** `0x`/`0X`, `0o`/`0O` or `0b`/`0B` followed by at least one digit of that radix. */
  function NonDecimalRadix(t: string): (radix: nat)
    ensures radix == 0 || radix == 2 || radix == 8 || radix == 16
    ensures radix != 0 ==> |t| >= 3 && AllRadixDigits(t[2..], radix)
  {
    if |t| >= 3 && t[0] == '0' && (t[1] == 'x' || t[1] == 'X') && AllRadixDigits(t[2..], 16) then 16
    else if |t| >= 3 && t[0] == '0' && (t[1] == 'o' || t[1] == 'O') && AllRadixDigits(t[2..], 8) then 8
    else if |t| >= 3 && t[0] == '0' && (t[1] == 'b' || t[1] == 'B') && AllRadixDigits(t[2..], 2) then 2
    else 0
  }

  /** `Number(s)`: whole-string conversion; surrounding whitespace is ignored and the empty string is 0. */
  function ToNumber(s: string): (r: JsNumber)
    ensures AllDigits(s) && s != [] ==> r == Int(DecimalValue(s))
    ensures Trim(s) == [] ==> r == Int(0)
  {
    DigitStringIsTrimmed(s);
    var t := Trim(s);
    if t == [] then Int(0)
    else if NonDecimalRadix(t) != 0 then Int(RadixValue(t[2..], NonDecimalRadix(t)))
    else if AllDigits(t) then Int(DecimalValue(t))
    else if |t| >= 2 && t[0] == '+' && AllDigits(t[1..]) then Int(DecimalValue(t[1..]))
    else if |t| >= 2 && t[0] == '-' && AllDigits(t[1..]) then Int(-(DecimalValue(t[1..]) as int))
    else
      // A decimal point, an exponent, `Infinity` or any other text.
      NaN
  }

  /** A digit string has no whitespace to trim and no radix prefix. */
  lemma DigitStringIsTrimmed(s: string)
    ensures AllDigits(s) && s != [] ==> TrimStart(s) == s && Trim(s) == s && NonDecimalRadix(s) == 0
  {
    if AllDigits(s) && s != [] {
      assert !IsJsWhiteSpace(s[0]) && !IsJsWhiteSpace(s[|s| - 1]);
      assert |s| >= 2 ==> IsDigit(s[1]);
    }
  }

  /** A digit string is its own longest decimal prefix. */
  lemma {:induction false} DigitStringIsItsPrefix(s: string)
    ensures AllDigits(s) ==> RadixPrefix(s, 10) == s && AllDigits(RadixPrefix(s, 10))
  {
    if s != [] && AllDigits(s) {
      DigitStringIsItsPrefix(s[1..]);
    }
  }

  lemma RadixTenIsDecimal(s: string)
    ensures AllRadixDigits(s, 10) ==> AllDigits(s)
  {
    if AllRadixDigits(s, 10) {
      forall i | 0 <= i < |s| ensures IsDigit(s[i]) {
        assert IsRadixDigit(s[i], 10);
      }
    }
  }

  /** The longest prefix of s made of digits of the given radix. */
  function RadixPrefix(s: string, radix: nat): (r: string)
    ensures r <= s && AllRadixDigits(r, radix)
    ensures |r| < |s| ==> !IsRadixDigit(s[|r|], radix)
  {
    if s != [] && IsRadixDigit(s[0], radix) then [s[0]] + RadixPrefix(s[1..], radix) else []
  }

  /** `parseInt(s)` without a radix argument: leading whitespace, an optional sign,
      an optional `0x`/`0X` prefix, then the longest run of digits; NaN if that run is empty. */
  function ParseInt(s: string): (r: JsNumber)
    ensures AllDigits(s) && s != [] ==> r == Int(DecimalValue(s))
    ensures s == [] ==> r == NaN
  {
    DigitStringIsTrimmed(s);
    DigitStringIsItsPrefix(s);
    var t := TrimStart(s);
    var negative := t != [] && t[0] == '-';
    var u := if t != [] && (t[0] == '-' || t[0] == '+') then t[1..] else t;
    var hex := |u| >= 2 && u[0] == '0' && (u[1] == 'x' || u[1] == 'X');
    var radix := if hex then 16 else 10;
    var digits := RadixPrefix(if hex then u[2..] else u, radix);
    if digits == [] then NaN
    else
      RadixTenIsDecimal(digits);
      var v := if hex then RadixValue(digits, 16) else DecimalValue(digits);
      Int(if negative then -(v as int) else v)
  }

  // ---------------------------------------------------------------------
  // Arithmetic and number to string
  // ---------------------------------------------------------------------

  function Abs(x: int): nat { if x < 0 then -x else x }

  /** The quotient of an integer division rounded toward zero. */
  function TruncatedQuotient(a: int, b: int): int
    requires b != 0
  {
    var q := Abs(a) / Abs(b);
    if (a < 0) == (b < 0) then q else -q
  }

  /** The remainder of JavaScript's `%` on integers: it takes the sign of the dividend. */
  function TruncatedRemainder(a: int, b: int): (r: int)
    requires b != 0
    ensures -(Abs(b) as int) < r < Abs(b)
    ensures (a >= 0 ==> r >= 0) && (a <= 0 ==> r <= 0)
    ensures a == b * TruncatedQuotient(a, b) + r
  {
    var m := Abs(a) % Abs(b);
    var q := Abs(a) / Abs(b);
    assert Abs(a) == Abs(b) * q + m;
    if a < 0 then -m else m
  }

  /** `a % b` on numbers: NaN when either is NaN or the divisor is 0, otherwise the remainder
      of the division rounded toward zero. */
  function Remainder(a: JsNumber, b: JsNumber): (r: JsNumber)
    ensures r.Int? <==> a.Int? && b.Int? && b.value != 0
    ensures r.Int? ==>
      && -(Abs(b.value) as int) < r.value < Abs(b.value)
      && (a.value >= 0 ==> r.value >= 0)
      && a.value == b.value * TruncatedQuotient(a.value, b.value) + r.value
  {
    if a.NaN? || b.NaN? || b.value == 0 then NaN else Int(TruncatedRemainder(a.value, b.value))
  }

  /** `a - b` on numbers: NaN when either is NaN, otherwise the number that added to b gives a. */
  function Minus(a: JsNumber, b: JsNumber): (r: JsNumber)
    ensures r.Int? <==> a.Int? && b.Int?
    ensures r.Int? ==> r.value + b.value == a.value
  {
    if a.NaN? || b.NaN? then NaN else Int(a.value - b.value)
  }

  /** `String(x)`. */
  function NumberToString(x: JsNumber): (r: string)
    ensures x.Int? && x.value >= 0 ==> AllDigits(r) && DecimalValue(r) == x.value
  {
    match x
    case NaN => "NaN"
    case Int(k) => if k < 0 then "-" + DecimalString(-k) else DecimalString(k)
  }

  /** `s.padStart(len, [fill])`: fill characters are put in front until the length is len. */
  function PadStart(s: string, len: nat, fill: char): (r: string)
    ensures |r| == if |s| >= len then |s| else len
    ensures r[|r| - |s|..] == s
    ensures forall i :: 0 <= i < |r| - |s| ==> r[i] == fill
  {
    if |s| >= len then s
    else
      var padding := seq(len - |s|, _ => fill);
      assert (padding + s)[len - |s|..] == s;
      padding + s
  }

  function Min(a: nat, b: nat): nat { if a <= b then a else b }

  /** `s.slice(start, end)` for non-negative bounds: both are clamped to the length. */
  function Slice(s: string, start: nat, end: nat): (r: string)
    ensures start <= end <= |s| ==> r == s[start..end]
    ensures start <= |s| < end ==> r == s[start..]
    ensures end <= start || |s| <= start ==> r == []
  {
    var from, to := Min(start, |s|), Min(end, |s|);
    if from < to then s[from..to] else []
  }
}
