/**
 * Python `Decimal` values as far as the scripts use them: construction from
 * a number's text, `quantize` with ROUND_HALF_UP, and `str`.
 */
module Decimals {
  import opened Wrappers
  import opened Text

  /** Sign, coefficient and exponent: the value is (-1)^neg * coef * 10^exp. */
  datatype Dec = Dec(neg: bool, coef: nat, exp: int)

  function Pow10(n: nat): (r: nat)
    ensures r >= 1
  {
    if n == 0 then 1 else 10 * Pow10(n - 1)
  }

  /** `value < 0`: a negative zero is not below zero. */
  predicate IsNegative(d: Dec) { d.neg && d.coef > 0 }

  /** `value * 100`, exactly. */
  function Percent(d: Dec): Dec { Dec(d.neg, d.coef, d.exp + 2) }

  /** The decimal context's precision: a quantized coefficient may have at most this many digits. */
  const Precision: nat := 28

  /** The magnitude rounded half up to a whole number of units 10^e. */
  function RoundedUnits(d: Dec, e: int): nat
  {
    if e <= d.exp then d.coef * Pow10(d.exp - e)
    else DivHalfUp(d.coef, Pow10(e - d.exp))
  }

  /** a / p rounded half up. */
  function DivHalfUp(a: nat, p: nat): nat
    requires p >= 1
  {
    var q := a / p;
    q + (if 2 * (a % p) >= p then 1 else 0)
  }

  /**
   * `d.quantize(Decimal(10) ** e, rounding=ROUND_HALF_UP)`; None where Python
   * signals InvalidOperation because the result needs more than 28 digits.
   */
  function Quantize(d: Dec, e: int): Option<Dec>
  {
    var u := RoundedUnits(d, e);
    if |NatToString(u)| > Precision then None else Some(Dec(d.neg, u, e))
  }

  /**
   * ROUND_HALF_UP: the rounded magnitude u (in units of 10^e) is the unique
   * one with u*p - p/2 <= coef < u*p + p/2, where p is 10^(e - exp); a tie
   * goes up in magnitude, that is away from zero, and the sign is kept.
   */
  lemma HalfUp(d: Dec, e: int)
    requires e > d.exp
    ensures var p := Pow10(e - d.exp); var u := RoundedUnits(d, e);
      2 * u * p <= 2 * d.coef + p < 2 * u * p + 2 * p
    ensures Quantize(d, e).Some? ==> Quantize(d, e).value.neg == d.neg && Quantize(d, e).value.exp == e
  {
    var p := Pow10(e - d.exp);
    var q, r := d.coef / p, d.coef % p;
    assert d.coef == q * p + r;
    if 2 * r >= p {
      assert 2 * (q + 1) * p == 2 * q * p + 2 * p;
    }
  }

  /** Quantizing to an exponent no finer than the value's own loses nothing. */
  lemma QuantizeExact(d: Dec, e: int)
    requires e <= d.exp
    ensures RoundedUnits(d, e) == d.coef * Pow10(d.exp - e)
  {
  }

  function Zeros(n: nat): (r: string)
    ensures |r| == n && forall k :: 0 <= k < n ==> r[k] == '0'
  {
    if n == 0 then "" else "0" + Zeros(n - 1)
  }

  /** The digits with the decimal point `dot` places from their left end. */
  function PlacePoint(digits: string, dot: int): string
  {
    if dot <= 0 then "0." + Zeros(-dot) + digits
    else if dot >= |digits| then digits + Zeros(dot - |digits|)
    else digits[..dot] + "." + digits[dot..]
  }

  /**
   * `str(d)`: plain notation when the exponent is at most 0 and the adjusted
   * exponent is at least -6, otherwise one digit before the point and an
   * explicit signed exponent (`1E-7`).
   */
  function DecStr(d: Dec): string
  {
    var sign := if d.neg then "-" else "";
    var digits := NatToString(d.coef);
    var left := d.exp + |digits|;
    if d.exp <= 0 && left > -6 then sign + PlacePoint(digits, left)
    else
      var adjusted := left - 1;
      sign + PlacePoint(digits, 1) + "E" + (if adjusted >= 0 then "+" else "-")
      + NatToString(if adjusted >= 0 then adjusted else -adjusted)
  }
}
