/**
 * The "exactly one unit in the last place apart" test applied to pairs of
 * cell texts (laminar_floating_point_error/filter/test.py). The unit is
 * taken from the written text of the two numbers, not from their values.
 */
module Significant {
  import opened Wrappers
  import opened Text
  import opened Decimals

  function IndexOfExponent(s: string): (i: nat)
    ensures i <= |s|
    ensures forall k :: 0 <= k < i ==> s[k] != 'e' && s[k] != 'E'
    ensures i < |s| ==> s[i] == 'e' || s[i] == 'E'
  {
    if s == [] then 0 else if s[0] == 'e' || s[0] == 'E' then 0 else 1 + IndexOfExponent(s[1..])
  }

  predicate AllDigits(s: string) { forall k :: 0 <= k < |s| ==> IsDigit(s[k]) }

  /** An optionally signed run of digits, the exponent of a Decimal literal. */
  function ParseExponent(s: string): Option<int>
  {
    var neg := |s| > 0 && s[0] == '-';
    var digits := if |s| > 0 && (s[0] == '-' || s[0] == '+') then s[1..] else s;
    if |digits| > 0 && AllDigits(digits) then
      var n: int := DigitsValue(digits);
      Some(if neg then -n else n)
    else None
  }

  /** The unsigned part of a Decimal literal: coefficient and exponent. */
  function ParseUnsigned(body: string): Option<(nat, int)>
  {
    var e := IndexOfExponent(body);
    var mantissa := Split(body[..e], '.');
    var exponent := if e < |body| then ParseExponent(body[e + 1..]) else Some(0);
    if |mantissa| > 2 || exponent.None? then None
    else
      var whole := mantissa[0];
      var frac := if |mantissa| == 2 then mantissa[1] else "";
      if |whole| + |frac| > 0 && AllDigits(whole) && AllDigits(frac) then
        Some((DigitsValue(whole + frac), exponent.value - |frac|))
      else None
  }

  /**
   * `Decimal(s)` for a finite numeral: sign, digits with at most one point
   * (at least one digit), then an optional exponent. None where Python
   * raises InvalidOperation.
   */
  function ParseDecimal(s: string): Option<Dec>
  {
    var t := Strip(s);
    var signed := |t| > 0 && (t[0] == '-' || t[0] == '+');
    match ParseUnsigned(if signed then t[1..] else t)
    case None => None
    case Some((coef, exp)) => Some(Dec(signed && t[0] == '-', coef, exp))
  }

  /** get_decimal_places: the length of the text after the first "." (up to any next one), or 0. */
  function DecimalPlaces(s: string): nat
  {
    var t := Strip(s);
    if '.' in t then |Split(t, '.')[1]| else 0
  }

  /** The signed value of d counted in units of 10^m. */
  function Units(d: Dec, m: int): int
    requires m <= d.exp
  {
    var magnitude := d.coef * Pow10(d.exp - m);
    if d.neg then -magnitude else magnitude
  }

  function Min(a: int, b: int): int { if a <= b then a else b }

  /** `a - b == Decimal(10) ** -p`, compared exactly. */
  predicate OneUnitAbove(a: Dec, b: Dec, p: nat)
  {
    var m := Min(Min(a.exp, b.exp), -(p as int));
    Units(a, m) - Units(b, m) == Pow10(-(p as int) - m)
  }

  /** has_significant_difference; None where Decimal raises. */
  function HasSignificantDifference(s1: string, s2: string): Option<bool>
  {
    match (ParseDecimal(s1), ParseDecimal(s2))
    case (Some(num1), Some(num2)) =>
      var places := if DecimalPlaces(s1) >= DecimalPlaces(s2) then DecimalPlaces(s1) else DecimalPlaces(s2);
      Some(Verdict(num1, num2, places))
    case _ => None
  }

  /** The comparison made once both texts parse: reversed when both are negative. */
  predicate Verdict(num1: Dec, num2: Dec, places: nat)
  {
    if IsNegative(num1) && IsNegative(num2) then OneUnitAbove(num2, num1, places)
    else OneUnitAbove(num1, num2, places)
  }

  /**
   * Direction matters: a pair that passes never passes swapped, because the
   * sign test is symmetric and a difference equal to the (positive)
   * threshold cannot be equal to it both ways.
   */
  lemma {:induction false} Directional(s1: string, s2: string)
    requires HasSignificantDifference(s1, s2) == Some(true)
    ensures HasSignificantDifference(s2, s1) == Some(false)
  {
    var num1, num2 := ParseDecimal(s1).value, ParseDecimal(s2).value;
    var places := if DecimalPlaces(s1) >= DecimalPlaces(s2) then DecimalPlaces(s1) else DecimalPlaces(s2);
    var places' := if DecimalPlaces(s2) >= DecimalPlaces(s1) then DecimalPlaces(s2) else DecimalPlaces(s1);
    assert places == places';
    assert Min(Min(num1.exp, num2.exp), -(places as int)) == Min(Min(num2.exp, num1.exp), -(places as int));
  }

  lemma {:induction false} SplitNoSeparator(s: string, sep: char)
    requires sep !in s
    ensures Split(s, sep) == [s]
  {
    if s != [] {
      SplitNoSeparator(s[1..], sep);
      assert [s[0]] + s[1..] == s;
    }
  }

  lemma {:induction false} SplitOneSeparator(a: string, b: string, sep: char)
    requires sep !in a && sep !in b
    ensures Split(a + [sep] + b, sep) == [a, b]
  {
    if a == [] {
      SplitNoSeparator(b, sep);
      assert ([sep] + b)[1..] == b;
    } else {
      assert (a + [sep] + b)[1..] == a[1..] + [sep] + b;
      SplitOneSeparator(a[1..], b, sep);
      assert [a[0]] + a[1..] == a;
    }
  }

  lemma {:induction false} NoExponent(s: string)
    requires forall k :: 0 <= k < |s| ==> s[k] != 'e' && s[k] != 'E'
    ensures IndexOfExponent(s) == |s|
  {
    if s != [] {
      NoExponent(s[1..]);
    }
  }

  lemma {:induction false} UnsignedNumeral(whole: string, frac: string)
    requires |whole| > 0 && AllDigits(whole) && AllDigits(frac)
    ensures ParseUnsigned(whole + (if frac == "" then "" else "." + frac)) == Some((DigitsValue(whole + frac), -|frac|))
  {
    var body := whole + (if frac == "" then "" else "." + frac);
    NoExponent(body);
    assert body[..|body|] == body;
    if frac == "" {
      assert body == whole;
      SplitNoSeparator(whole, '.');
    } else {
      assert body == whole + ['.'] + frac;
      SplitOneSeparator(whole, frac, '.');
    }
  }

  function Numeral(neg: bool, whole: string, frac: string): string
  {
    (if neg then "-" else "") + whole + (if frac == "" then "" else "." + frac)
  }

  lemma {:induction false} NumeralShape(neg: bool, whole: string, frac: string)
    requires |whole| > 0 && AllDigits(whole) && AllDigits(frac)
    ensures var s := Numeral(neg, whole, frac);
      Strip(s) == s && (s[0] == '-' || s[0] == '+') == neg
      && (neg ==> s[0] == '-' && s[1..] == whole + (if frac == "" then "" else "." + frac))
      && (!neg ==> s == whole + (if frac == "" then "" else "." + frac))
  {
    var w := (if neg then "-" else "") + whole;
    var s := w + (if frac == "" then "" else "." + frac);
    assert s[0] == w[0] && s[|s| - 1] != ' ';
  }

  lemma {:induction false} PlacesOfNumeral(neg: bool, whole: string, frac: string)
    requires |whole| > 0 && AllDigits(whole) && AllDigits(frac)
    ensures DecimalPlaces(Numeral(neg, whole, frac)) == |frac|
  {
    var w := (if neg then "-" else "") + whole;
    var s := Numeral(neg, whole, frac);
    NumeralShape(neg, whole, frac);
    if frac == "" {
      assert '.' !in s;
    } else {
      assert s == w + ['.'] + frac;
      SplitOneSeparator(w, frac, '.');
    }
  }

  /** A plain numeral, optionally signed, with or without a fractional part. */
  lemma {:induction false} PlainNumeral(neg: bool, whole: string, frac: string)
    requires |whole| > 0 && AllDigits(whole) && AllDigits(frac)
    ensures ParseDecimal(Numeral(neg, whole, frac)) == Some(Dec(neg, DigitsValue(whole + frac), -|frac|))
    ensures DecimalPlaces(Numeral(neg, whole, frac)) == |frac|
  {
    ParseNumeral(neg, whole, frac);
    PlacesOfNumeral(neg, whole, frac);
  }

  lemma ParseNumeral(neg: bool, whole: string, frac: string)
    requires |whole| > 0 && AllDigits(whole) && AllDigits(frac)
    ensures ParseDecimal(Numeral(neg, whole, frac)) == Some(Dec(neg, DigitsValue(whole + frac), -|frac|))
  {
    var s := Numeral(neg, whole, frac);
    var body := whole + (if frac == "" then "" else "." + frac);
    NumeralShape(neg, whole, frac);
    UnsignedNumeral(whole, frac);
    assert Strip(s) == s;
    assert (if neg then s[1..] else s) == body;
    assert ParseUnsigned(body) == Some((DigitsValue(whole + frac), -|frac|));
  }

  /** The test on two plain numerals, in terms of their digits. */
  lemma {:induction false} Case(neg1: bool, w1: string, f1: string, neg2: bool, w2: string, f2: string)
    requires |w1| > 0 && AllDigits(w1) && AllDigits(f1) && |w2| > 0 && AllDigits(w2) && AllDigits(f2)
    ensures HasSignificantDifference(Numeral(neg1, w1, f1), Numeral(neg2, w2, f2))
      == Some(Verdict(Dec(neg1, DigitsValue(w1 + f1), -|f1|), Dec(neg2, DigitsValue(w2 + f2), -|f2|), if |f1| >= |f2| then |f1| else |f2|))
  {
    PlainNumeral(neg1, w1, f1);
    PlainNumeral(neg2, w2, f2);
  }

  /*
   * The cases listed beside the function, one lemma each, with the
   * outcomes listed there, on the values Case maps the texts to: "0.54" is
   * Dec(false, 54, -2) with two places, "-2.230" is Dec(true, 2230, -3)
   * with three, "125" is Dec(false, 125, 0) with none.
   */
  lemma PositiveRow1() // "0.54", "0.53"
    ensures Verdict(Dec(false, 54, -2), Dec(false, 53, -2), 2)
  {
  }

  lemma PositiveRow2() // "0.54", "0.52"
    ensures !Verdict(Dec(false, 54, -2), Dec(false, 52, -2), 2)
  {
  }

  lemma PositiveRow3() // "0.53", "0.54"
    ensures !Verdict(Dec(false, 53, -2), Dec(false, 54, -2), 2)
  {
  }

  lemma PositiveRow4() // "24.5", "24.4"
    ensures Verdict(Dec(false, 245, -1), Dec(false, 244, -1), 1)
  {
  }

  lemma PositiveRow5() // "24.5", "24.3"
    ensures !Verdict(Dec(false, 245, -1), Dec(false, 243, -1), 1)
  {
  }

  lemma PositiveRow6() // "125", "124"
    ensures Verdict(Dec(false, 125, 0), Dec(false, 124, 0), 0)
  {
  }

  lemma PositiveRow7() // "125", "123"
    ensures !Verdict(Dec(false, 125, 0), Dec(false, 123, 0), 0)
  {
  }

  lemma PositiveRow8() // "1.235", "1.234"
    ensures Verdict(Dec(false, 1235, -3), Dec(false, 1234, -3), 3)
  {
  }

  lemma PositiveRow9() // "1.236", "1.234"
    ensures !Verdict(Dec(false, 1236, -3), Dec(false, 1234, -3), 3)
  {
  }

  lemma NegativeRow1() // "-2.230", "-2.229"
    ensures Verdict(Dec(true, 2230, -3), Dec(true, 2229, -3), 3)
  {
  }

  lemma NegativeRow2() // "-2.231", "-2.229"
    ensures !Verdict(Dec(true, 2231, -3), Dec(true, 2229, -3), 3)
  {
  }

  lemma NegativeRow3() // "-2.229", "-2.230"
    ensures !Verdict(Dec(true, 2229, -3), Dec(true, 2230, -3), 3)
  {
  }

  lemma NegativeRow4() // "-5.6", "-5.5"
    ensures Verdict(Dec(true, 56, -1), Dec(true, 55, -1), 1)
  {
  }

  lemma NegativeRow5() // "-5.7", "-5.5"
    ensures !Verdict(Dec(true, 57, -1), Dec(true, 55, -1), 1)
  {
  }

  lemma NegativeRow6() // "-126", "-125"
    ensures Verdict(Dec(true, 126, 0), Dec(true, 125, 0), 0)
  {
  }

  lemma NegativeRow7() // "-127", "-125"
    ensures !Verdict(Dec(true, 127, 0), Dec(true, 125, 0), 0)
  {
  }
}
