/** Finite sums over integer-indexed real terms and natural powers of reals:
    the arithmetic in which the polygon-moment formula is written. */
module Sums {

  /** `s` in the opposite order (a vertex ring walked backwards, or a
      stress-strain table read from its far end). */
  function Reverse<T>(s: seq<T>): (r: seq<T>)
    ensures |r| == |s|
    ensures forall i :: 0 <= i < |s| ==> r[i] == s[|s| - 1 - i]
  {
    seq(|s|, i requires 0 <= i < |s| => s[|s| - 1 - i])
  }

  /** f(0) + f(1) + ... + f(n-1), accumulated from the left as a Python
      `for` loop with `+=` accumulates it. */
  function Sum(n: nat, f: int -> real): real
  {
    if n == 0 then 0.0 else Sum(n - 1, f) + f(n - 1)
  }

  /** x raised to the natural power e (Python's `x ** e` for an integer e >= 0);
      exponents below zero are never used and give 1. */
  function Pow(x: real, e: int): real
    decreases e
  {
    if e <= 0 then 1.0 else x * Pow(x, e - 1)
  }

  /** Adding the next term to a partial sum extends it by one. */
  lemma SumStep(n: nat, f: int -> real, acc: real, x: real)
    requires acc == Sum(n, f) && x == f(n)
    ensures acc + x == Sum(n + 1, f)
  {
  }

  /** Sums of pointwise-equal terms are equal. */
  lemma {:induction false} SumExt(n: nat, f: int -> real, g: int -> real)
    requires forall i :: 0 <= i < n ==> f(i) == g(i)
    ensures Sum(n, f) == Sum(n, g)
  {
    if n > 0 {
      SumExt(n - 1, f, g);
    }
  }

  /** Peeling the first term off a sum. */
  lemma {:induction false} SumShift(n: nat, f: int -> real)
    ensures Sum(n + 1, f) == f(0) + Sum(n, i => f(i + 1))
  {
    if n > 0 {
      SumShift(n - 1, f);
    }
  }

  /** Negating every term negates the sum. */
  lemma {:induction false} SumNeg(n: nat, f: int -> real, g: int -> real)
    requires forall i :: 0 <= i < n ==> f(i) == -g(i)
    ensures Sum(n, f) == -Sum(n, g)
  {
    if n > 0 {
      SumNeg(n - 1, f, g);
    }
  }

  /** Adding two sums term by term. */
  lemma {:induction false} SumAdd(n: nat, f: int -> real, g: int -> real, h: int -> real)
    requires forall i :: 0 <= i < n ==> h(i) == f(i) + g(i)
    ensures Sum(n, h) == Sum(n, f) + Sum(n, g)
  {
    if n > 0 {
      SumAdd(n - 1, f, g, h);
    }
  }

  /** A sum does not depend on the order of its terms: summing them
      back to front gives the same value. */
  lemma {:induction false} SumReverse(n: nat, f: int -> real)
    ensures Sum(n, f) == Sum(n, i => f(n - 1 - i))
  {
    if n > 0 {
      var g := i => f(n - 1 - i);
      SumShift(n - 1, g);
      SumExt(n - 1, i => g(i + 1), i => f(n - 2 - i));
      SumReverse(n - 1, f);
    }
  }

  /** A constant factor can be taken out of a sum. */
  lemma {:induction false} SumScale(n: nat, f: int -> real, c: real)
    ensures Sum(n, f) * c == Sum(n, i => f(i) * c)
  {
    if n > 0 {
      SumScale(n - 1, f, c);
    }
  }

  /** Powers of a number in [0, 1] stay in [0, 1]. */
  lemma {:induction false} PowUnitInterval(x: real, e: int)
    requires 0.0 <= x <= 1.0
    ensures 0.0 <= Pow(x, e) <= 1.0
    decreases e
  {
    if e > 0 {
      PowUnitInterval(x, e - 1);
      var p := Pow(x, e - 1);
      assert Pow(x, e) == x * p;
      assert 0.0 <= x * p <= p by {
        MulUnitInterval(x, p);
      }
    }
  }

  /** Products of numbers in [0, 1] stay in [0, 1]. */
  lemma MulUnitInterval(x: real, p: real)
    requires 0.0 <= x <= 1.0 && 0.0 <= p <= 1.0
    ensures 0.0 <= x * p <= p
  {
    assert x * p == p - (1.0 - x) * p;
    assert (1.0 - x) * p <= p by {
      assert (1.0 - x) * p == p - x * p;
    }
    assert (1.0 - x) * p >= 0.0;
  }

  /** Reordering the last two factors of a product. */
  lemma MulSwapLast(x: real, p: real, q: real)
    ensures x * q * p == x * p * q
  {
  }

  /** Division by a non-zero number distributes over negation and addition. */
  lemma DivLinear(x: real, y: real, d: real)
    requires d != 0.0
    ensures (-x) / d == -(x / d)
    ensures (x + y) / d == x / d + y / d
  {
  }

  lemma SquareDiv(x: real)
    ensures x != 0.0 ==> (x * x) / x == x
  {
  }

  lemma SquareNonneg(x: real)
    ensures x * x >= 0.0
  {
    if x < 0.0 {
      assert x * x == (-x) * (-x);
    }
  }

  /** Only 0 squares to 0. */
  lemma SquareZero(x: real)
    requires x * x == 0.0
    ensures x == 0.0
  {
    SquareDiv(x);
  }

  lemma SumOfSquaresZero(x: real, y: real)
    requires x * x + y * y == 0.0
    ensures x == 0.0 && y == 0.0
  {
    SquareNonneg(x);
    SquareNonneg(y);
    SquareZero(x);
    SquareZero(y);
  }

  lemma MulPositive(x: real, y: real)
    requires x > 0.0 && y > 0.0
    ensures x * y > 0.0
  {
  }

  lemma MulNonneg(x: real, y: real)
    requires x >= 0.0 && y >= 0.0
    ensures x * y >= 0.0
  {
    if x > 0.0 && y > 0.0 {
      MulPositive(x, y);
    }
  }

  /** Multiplying by a non-negative factor keeps the order. */
  lemma MulLe(a: real, b: real, k: real)
    requires a <= b && k >= 0.0
    ensures a * k <= b * k
  {
    if a < b && k > 0.0 {
      MulPositive(b - a, k);
    }
  }

  /** The magnitude of x. */
  function Abs(x: real): (r: real)
    ensures r >= 0.0 && (r == x || r == -x)
  {
    if x < 0.0 then -x else x
  }

  /** A product with a positive factor vanishes only if the other does. */
  lemma ZeroProduct(x: real, y: real)
    requires y > 0.0 && x * y == 0.0
    ensures x == 0.0
  {
    if x > 0.0 {
      MulPositive(x, y);
    } else if x < 0.0 {
      MulPositive(-x, y);
    }
  }
}
