/** Real arithmetic helpers and the laws assumed of the math library.

    Dafny has no square root or trigonometric functions, so the model receives
    `math.sqrt`, `math.cos` and `math.sin` as function values and states, as
    preconditions, the only laws it relies on. */
module RealMath {

  /** `f` is the non-negative square root on non-negative arguments. */
  ghost predicate IsSqrt(f: real -> real)
  {
    forall x :: x >= 0.0 ==> f(x) >= 0.0 && f(x) * f(x) == x
  }

  /** `cos` and `sin` satisfy the Pythagorean identity. */
  ghost predicate IsTrig(cos: real -> real, sin: real -> real)
  {
    forall a :: cos(a) * cos(a) + sin(a) * sin(a) == 1.0
  }

  function Max(a: real, b: real): real { if a >= b then a else b }

  function Min(a: real, b: real): real { if a <= b then a else b }

  function Abs(a: real): real { if a >= 0.0 then a else -a }

  /** Python's `max(lo, min(hi, v))`. */
  function Clamp(lo: real, hi: real, v: real): real { Max(lo, Min(hi, v)) }

  /** Squaring is strictly monotone on the non-negative reals. */
  lemma SquareLess(r: real, a: real)
    requires 0.0 <= r < a
    ensures r * r < a * a
  {
    var rr, ra, aa := r * r, r * a, a * a;
    assert rr <= ra;
    assert ra < aa;
  }

  /** Only zero squares to zero. */
  lemma SquareZero(r: real)
    requires r * r == 0.0
    ensures r == 0.0
  {
    if r > 0.0 { SquareLess(0.0, r); }
    else if r < 0.0 { SquareLess(0.0, -r); }
  }

  /** A non-negative number is determined by its square. */
  lemma SquareInjective(r: real, a: real)
    requires r >= 0.0 && a >= 0.0 && r * r == a * a
    ensures r == a
  {
    if r < a { SquareLess(r, a); } else if a < r { SquareLess(a, r); }
  }

  /** The square root of zero is zero. */
  lemma SqrtZero(sqrt: real -> real)
    requires IsSqrt(sqrt)
    ensures sqrt(0.0) == 0.0
  {
    SquareInjective(sqrt(0.0), 0.0);
  }

  /** The square root of a positive number is positive. */
  lemma SqrtPositive(sqrt: real -> real, x: real)
    requires IsSqrt(sqrt) && x > 0.0
    ensures sqrt(x) > 0.0
  {
    assert sqrt(x) * sqrt(x) == x;
  }

  /** The square root of the square of a non-negative number is that number. */
  lemma SqrtOfSquare(sqrt: real -> real, a: real)
    requires IsSqrt(sqrt) && a >= 0.0
    ensures sqrt(a * a) == a
  {
    SquareInjective(sqrt(a * a), a);
  }

  /** The square root is strictly monotone. */
  lemma SqrtLess(sqrt: real -> real, a: real, b: real)
    requires IsSqrt(sqrt) && a >= 0.0 && b >= 0.0
    ensures sqrt(a) < sqrt(b) <==> a < b
  {
    var x, y := sqrt(a), sqrt(b);
    assert x * x == a && y * y == b;
    if x < y {
      SquareLess(x, y);
    } else if y < x {
      SquareLess(y, x);
    }
  }

  /** Comparing a square root with a bound is comparing the radicand with the
      bound's square, once the bound is positive: `sqrt(a) < r` holds exactly when
      `r > 0` and `a < r * r`. */
  lemma SqrtLessThan(sqrt: real -> real, a: real, r: real)
    requires IsSqrt(sqrt) && a >= 0.0
    ensures sqrt(a) < r <==> r > 0.0 && a < r * r
  {
    if r > 0.0 {
      SqrtOfSquare(sqrt, r);
      SqrtLess(sqrt, a, r * r);
    }
  }
}
