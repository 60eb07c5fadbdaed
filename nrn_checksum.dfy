/**
 The mod-97 check value of a Belgian National Registry Number: the two
 characters 97 - (N mod 97), where N is the number the body denotes.
 */
module NrnChecksum {
  import opened JsNumbers

  /** r is the two-digit check value of v: a number from 01 to 97 that makes v + r a multiple of 97. */
  predicate IsCheckValue(v: int, r: string) {
    |r| == 2 && AllDigits(r) && 1 <= DecimalValue(r) <= 97 && (v + DecimalValue(r)) % 97 == 0
  }

  /** `String(97 - (Number(input) % 97)).padStart(2, '0')`. */
  function Mod97(input: string): (r: string)
    ensures ToNumber(input).NaN? ==> r == "NaN"
    ensures ToNumber(input).Int? && ToNumber(input).value >= 0 ==> IsCheckValue(ToNumber(input).value, r)
    ensures r != "00"
  {
    CheckDigits(ToNumber(input))
  }

  /** `String(97 - (x % 97)).padStart(2, '0')`, Mod97 after the conversion to a number. */
  function CheckDigits(x: JsNumber): (r: string)
    ensures x.NaN? ==> r == "NaN"
    ensures x.Int? && x.value >= 0 ==> IsCheckValue(x.value, r)
    ensures r != "00"
  {
    if x.Int? then CheckDigitsOfInteger(x.value); PadStart(NumberToString(Minus(Int(97), Remainder(x, Int(97)))), 2, '0')
    else PadStart(NumberToString(Minus(Int(97), Remainder(x, Int(97)))), 2, '0')
  }

  lemma CheckDigitsOfInteger(v: int)
    ensures var p := PadStart(NumberToString(Minus(Int(97), Remainder(Int(v), Int(97)))), 2, '0');
      && p != "00"
      && (v >= 0 ==> IsCheckValue(v, p))
  {
    var k := 97 - TruncatedRemainder(v, 97);
    assert Remainder(Int(v), Int(97)) == Int(TruncatedRemainder(v, 97));
    assert Minus(Int(97), Remainder(Int(v), Int(97))) == Int(k);
    CheckValueOf(v);
    assert NumberToString(Int(k)) == DecimalString(k);
    var p := PadStart(DecimalString(k), 2, '0');
    PaddedDecimalFacts(k);
    if v >= 0 {
      assert |p| == 2 && AllDigits(p) && DecimalValue(p) == k;
      SumOfEquals(v, k, DecimalValue(p));
    }
  }

  /** The arithmetic behind Mod97 on an integer v. */
  lemma CheckValueOf(v: int)
    ensures var k := 97 - TruncatedRemainder(v, 97);
      && 1 <= k < 194
      && (v >= 0 ==> k <= 97 && (v + k) % 97 == 0)
  {
    var t := TruncatedRemainder(v, 97);
    var k := 97 - t;
    assert -97 < t < 97;
    if v >= 0 {
      var q := TruncatedQuotient(v, 97);
      assert v == 97 * q + t && 0 <= t;
      assert v + k == 97 * (q + 1);
      MultipleOf97(q + 1);
    }
  }

  lemma SumOfEquals(v: int, k: int, c: int)
    requires c == k && (v + k) % 97 == 0
    ensures (v + c) % 97 == 0
  {
  }

  lemma MultipleOf97(q: int)
    ensures (97 * q) % 97 == 0
  {
  }

  /** What padding `String(k)` to two characters gives for a positive k. */
  lemma PaddedDecimalFacts(k: nat)
    requires k >= 1
    ensures var p := PadStart(DecimalString(k), 2, '0');
      && p != "00"
      && (k < 100 ==> |p| == 2 && AllDigits(p) && DecimalValue(p) == k)
  {
    var s := DecimalString(k);
    var p := PadStart(s, 2, '0');
    if k < 10 {
      assert p == "0" + s;
      LeadingZero(s);
    } else {
      assert p == s && p[0] != '0';
    }
  }
}
