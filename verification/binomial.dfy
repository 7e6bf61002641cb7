/** Binomial coefficients (Python's `math.comb`) and the factorial identity
    that characterises them. */
module Binomial {

  function Fact(n: nat): (r: nat)
    ensures r >= 1
  {
    if n == 0 then 1 else n * Fact(n - 1)
  }

  /** The number of k-element subsets of an n-element set, by Pascal's rule.
      Like `math.comb`, it is 0 when k > n; it is also 0 for negative
      arguments, for which `math.comb` raises but which no caller passes. */
  function Binom(n: int, k: int): nat
    decreases if n < 0 then 0 else n
  {
    if n < 0 || k < 0 || k > n then 0
    else if k == 0 || k == n then 1
    else Binom(n - 1, k - 1) + Binom(n - 1, k)
  }

  /** Binom agrees with the closed form n! / (k! (n-k)!). */
  lemma {:induction false} BinomFactorial(n: nat, k: nat)
    requires k <= n
    ensures Binom(n, k) * Fact(k) * Fact(n - k) == Fact(n)
  {
    if k == 0 || k == n {
    } else {
      var b1 := Binom(n - 1, k - 1);
      var b2 := Binom(n - 1, k);
      BinomFactorial(n - 1, k - 1);
      BinomFactorial(n - 1, k);
      var fk1 := Fact(k - 1);
      var fnk1 := Fact(n - 1 - k);
      assert Fact(k) == k * fk1;
      assert Fact(n - k) == (n - k) * fnk1;
      PascalStep(b1, b2, fk1, fnk1, k, n - k, Fact(n - 1));
    }
  }

  /** The arithmetic of the inductive step of BinomFactorial, with every
      factorial replaced by a plain number. */
  lemma PascalStep(b1: int, b2: int, fk1: int, fnk1: int, k: int, l: int, f: int)
    requires b1 * fk1 * (l * fnk1) == f
    requires b2 * (k * fk1) * fnk1 == f
    ensures (b1 + b2) * (k * fk1) * (l * fnk1) == (k + l) * f
  {
    var x := k * fk1;
    var y := l * fnk1;
    assert b1 * x * y == k * (b1 * fk1 * y);
    assert b2 * x * y == l * (b2 * x * fnk1);
    assert (b1 + b2) * x * y == b1 * x * y + b2 * x * y;
  }

  /** Cancelling a positive common factor. */
  lemma CancelPositive(a: nat, b: nat, x: nat)
    requires x > 0
    requires a * x == b * x
    ensures a == b
  {
    assert (a - b) * x == 0;
  }

  /** Choosing k elements is choosing the n - k left out. */
  lemma BinomSymmetric(n: nat, k: nat)
    requires k <= n
    ensures Binom(n, k) == Binom(n, n - k)
  {
    BinomFactorial(n, k);
    BinomFactorial(n, n - k);
    var a, b := Binom(n, k), Binom(n, n - k);
    var fk, fnk := Fact(k), Fact(n - k);
    assert a * fk * fnk == b * fnk * fk;
    SwapCancel(a, b, fk, fnk);
  }

  /** a * p * q == b * q * p with p, q positive forces a == b. */
  lemma SwapCancel(a: nat, b: nat, p: nat, q: nat)
    requires p > 0 && q > 0
    requires a * p * q == b * q * p
    ensures a == b
  {
    assert a * p * q == a * (p * q);
    assert b * q * p == b * (p * q);
    CancelPositive(a, b, p * q);
  }

  /** Inside its range a binomial coefficient is positive. */
  lemma {:induction false} BinomPositive(n: nat, k: nat)
    requires k <= n
    ensures Binom(n, k) >= 1
  {
    BinomFactorial(n, k);
  }
}
