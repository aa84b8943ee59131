/** JavaScript numbers over exact reals, and the value type of the calculators'
    numeric input fields.

    A field's value (`NumericOrEmpty` in the source) is a JavaScript number or a
    string: `''` when the field is empty, and `'-'` or `'-.'` when the comma
    parser hands back an intermediate input state through an `as any` cast.
    Finite numbers are exact reals; NaN and the infinities are explicit
    constructors, so that every division by zero is visible in the model. */
module Numeric {

  datatype NumericOrEmpty = Num(value: real) | NaN | Infinite | Str(text: string)

  /** The empty field, `''`. */
  const Empty: NumericOrEmpty := Str("")

  datatype Option<T> = None | Some(value: T)

  /** True of the values `typeof value === 'number'` holds for. */
  predicate IsNumber(v: NumericOrEmpty) {
    !v.Str?
  }

  function Max(a: real, b: real): real {
    if a >= b then a else b
  }

  function Min(a: real, b: real): real {
    if a <= b then a else b
  }

  function Abs(a: real): real {
    if a < 0.0 then -a else a
  }

  /** `Math.floor` */
  function Floor(x: real): int {
    x.Floor
  }

  /** `Math.pow(x, n)` for a whole exponent. */
  function Pow(x: real, n: nat): real {
    if n == 0 then 1.0 else x * Pow(x, n - 1)
  }

  /** IEEE division `a / b` on exact reals: a quotient when `b` is not zero,
      NaN for `0 / 0` and an infinity otherwise (the sign of an infinity, which
      depends on the sign of a zero, is not kept). */
  function Divide(a: real, b: real): (r: NumericOrEmpty)
    ensures IsNumber(r)
    ensures r.Num? <==> b != 0.0
    ensures r.Num? ==> r.value * b == a
  {
    if b != 0.0 then Num(a / b) else if a == 0.0 then NaN else Infinite
  }

  /** `x / b` where `x` may already be NaN or an infinity. */
  function DivideValue(x: NumericOrEmpty, b: real): (r: NumericOrEmpty)
    requires IsNumber(x)
    ensures IsNumber(r)
    ensures x.Num? ==> r == Divide(x.value, b)
    ensures x == NaN ==> r == NaN
  {
    match x
    case Num(a) => Divide(a, b)
    case NaN => NaN
    case Infinite => Infinite
  }

  /** `a - x` where `x` may be NaN or an infinity. */
  function SubtractValue(a: real, x: NumericOrEmpty): (r: NumericOrEmpty)
    requires IsNumber(x)
    ensures IsNumber(r)
    ensures r.Num? <==> x.Num?
    ensures x.Num? ==> r.value == a - x.value
    ensures x == NaN ==> r == NaN
  {
    match x
    case Num(b) => Num(a - b)
    case NaN => NaN
    case Infinite => Infinite
  }

  /** `x * k` for a finite, non-zero `k`. */
  function ScaleValue(x: NumericOrEmpty, k: real): (r: NumericOrEmpty)
    requires IsNumber(x) && k != 0.0
    ensures IsNumber(r)
    ensures r.Num? <==> x.Num?
    ensures x.Num? ==> r.value == x.value * k
    ensures x == NaN ==> r == NaN
  {
    match x
    case Num(a) => Num(a * k)
    case NaN => NaN
    case Infinite => Infinite
  }

  lemma {:induction false} PowAdd(x: real, m: nat, n: nat)
    ensures Pow(x, m + n) == Pow(x, m) * Pow(x, n)
  {
    if m > 0 {
      PowAdd(x, m - 1, n);
      assert Pow(x, m + n) == x * Pow(x, m - 1 + n);
    }
  }

  lemma {:induction false} PowPositive(x: real, n: nat)
    requires x > 0.0
    ensures Pow(x, n) > 0.0
  {
    if n > 0 {
      PowPositive(x, n - 1);
    }
  }

  lemma {:induction false} PowAtLeastOne(x: real, n: nat)
    requires x >= 1.0
    ensures Pow(x, n) >= 1.0
  {
    if n > 0 {
      PowAtLeastOne(x, n - 1);
      assert x * Pow(x, n - 1) >= 1.0 * Pow(x, n - 1);
    }
  }

  lemma {:induction false} PowAboveOne(x: real, n: nat)
    requires x > 1.0 && n >= 1
    ensures Pow(x, n) > 1.0
  {
    PowAtLeastOne(x, n - 1);
    assert x * Pow(x, n - 1) > 1.0 * Pow(x, n - 1);
  }

  lemma {:induction false} PowBelowOne(x: real, n: nat)
    requires 0.0 < x < 1.0 && n >= 1
    ensures 0.0 < Pow(x, n) < 1.0
  {
    if n == 1 {
      assert Pow(x, 1) == x * Pow(x, 0);
    } else {
      PowBelowOne(x, n - 1);
      assert x * Pow(x, n - 1) < 1.0 * Pow(x, n - 1);
    }
  }

  /** The power of a base of at least one grows with the exponent. */
  lemma {:induction false} PowMonotone(x: real, m: nat, n: nat)
    requires x >= 1.0 && m <= n
    ensures Pow(x, m) <= Pow(x, n)
  {
    PowAdd(x, m, n - m);
    PowAtLeastOne(x, n - m);
    PowPositive(x, m);
    assert Pow(x, m) * Pow(x, n - m) >= Pow(x, m) * 1.0;
  }

  /** The power of a base in (0, 1] shrinks as the exponent grows. */
  lemma {:induction false} PowAntitone(x: real, m: nat, n: nat)
    requires 0.0 < x <= 1.0 && m <= n
    ensures Pow(x, n) <= Pow(x, m)
  {
    PowAdd(x, m, n - m);
    PowPositive(x, m);
    if n - m >= 1 && x < 1.0 {
      PowBelowOne(x, n - m);
    } else if x == 1.0 {
      PowOfOne(n - m);
    }
    assert Pow(x, m) * Pow(x, n - m) <= Pow(x, m) * 1.0;
  }

  lemma {:induction false} PowOfOne(n: nat)
    ensures Pow(1.0, n) == 1.0
  {
    if n > 0 {
      PowOfOne(n - 1);
    }
  }
}
