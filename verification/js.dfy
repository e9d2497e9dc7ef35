/** JavaScript scalar values as the handlers see them after JSON decoding,
    and the two coercions the handlers rely on: truthiness (`!v`) and
    `Number(v)`. */
module Js {

  /** A scalar JSON field. `Undefined` stands for a property that is absent. */
  datatype Value = Undefined | Null | Bool(b: bool) | Num(n: int) | Str(s: string)

  /** JavaScript truthiness: the values `if (v)` lets through. */
  predicate Truthy(v: Value) {
    match v
    case Undefined => false
    case Null => false
    case Bool(b) => b
    case Num(n) => n != 0
    case Str(s) => s != ""
  }

  /** The result of `Number(v)`. */
  datatype Number = Finite(n: int) | NaN

  predicate IsDigit(c: char) {
    '0' <= c <= '9'
  }

  predicate AllDigits(s: string) {
    forall k :: 0 <= k < |s| ==> IsDigit(s[k])
  }

  function DigitValue(c: char): (d: nat)
    requires IsDigit(c)
    ensures d < 10
  {
    c as int - '0' as int
  }

  function DigitChar(d: nat): (c: char)
    requires d < 10
    ensures IsDigit(c) && DigitValue(c) == d
  {
    ('0' as int + d) as char
  }

  /** The value of a string of decimal digits; the empty string reads as 0,
      as `Number("")` does. */
  function ParseDecimal(s: string): nat
    requires AllDigits(s)
    decreases |s|
  {
    if s == [] then 0 else 10 * ParseDecimal(s[..|s| - 1]) + DigitValue(s[|s| - 1])
  }

  /** The canonical decimal spelling of a natural number (`String(n)`). */
  function Decimal(n: nat): (s: string)
    ensures AllDigits(s) && |s| >= 1
  {
    if n < 10 then [DigitChar(n)] else Decimal(n / 10) + [DigitChar(n % 10)]
  }

  lemma {:induction false} ParseDecimalInverse(n: nat)
    ensures ParseDecimal(Decimal(n)) == n
  {
    if n >= 10 {
      var s := Decimal(n);
      assert s[..|s| - 1] == Decimal(n / 10);
      ParseDecimalInverse(n / 10);
    }
  }

  /** `Number(v)`. Strings are read only in their plain decimal form
      (digits only); every other string is NaN here. */
  function ToNumber(v: Value): (r: Number)
    ensures v.Undefined? <==> r.NaN? && !v.Str?
    ensures v.Num? ==> r == Finite(v.n)
    ensures v.Null? || v == Bool(false) || v == Str("") ==> r == Finite(0)
    ensures v == Bool(true) ==> r == Finite(1)
    ensures v.Str? && AllDigits(v.s) ==> r == Finite(ParseDecimal(v.s))
    ensures v.Str? && !AllDigits(v.s) ==> r.NaN?
    ensures r.Finite? && r.n < 0 ==> v.Num?
  {
    match v
    case Undefined => NaN
    case Null => Finite(0)
    case Bool(b) => if b then Finite(1) else Finite(0)
    case Num(n) => Finite(n)
    case Str(s) => if AllDigits(s) then Finite(ParseDecimal(s)) else NaN
  }

  /** A numeric id and its decimal string coerce to the same number, although
      the two values are not equal under `===`. */
  lemma StringAndNumberCoerceAlike(n: nat)
    ensures ToNumber(Str(Decimal(n))) == ToNumber(Num(n)) == Finite(n)
    ensures Str(Decimal(n)) != Num(n)
  {
    ParseDecimalInverse(n);
  }
}
