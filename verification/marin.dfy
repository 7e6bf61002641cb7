/** Marin's closed-form integration of y^m z^n over a polygon (Marin, J.:
    Computing columns, footings and gates through moments of area. Computers
    and Structures 18(2), 1984), as `marin_integration` computes it: a sum over
    consecutive vertex pairs of a binomially weighted double sum, divided by a
    normaliser. */
module Marin {
  import opened Sums
  import opened Binomial

  /** A vertex in section-local axes. The source passes a ring as two
      parallel coordinate lists `y` and `z`; here they are zipped. */
  datatype Pt = Pt(y: real, z: real)

  /** `_coeff(m, n, j, k)`: the binomial weight of the term with
      y-exponents (m - j, j) and z-exponents (n - k, k). */
  function Coeff(m: int, n: int, j: int, k: int): nat
  {
    Binom(j + k, j) * Binom(m + n - j - k, n - k)
  }

  /** Swapping the roles of the two vertices of an edge leaves the weights
      unchanged: the weight of (j, k) is that of (m - j, n - k). */
  lemma CoeffSymmetric(m: nat, n: nat, j: nat, k: nat)
    requires j <= m && k <= n
    ensures Coeff(m, n, m - j, n - k) == Coeff(m, n, j, k)
  {
    BinomSymmetric(m + n - j - k, n - k);
    BinomSymmetric(j + k, j);
  }

  /** Summand k of the innermost loop, for middle index j, on the edge a -> b. */
  function KTerm(m: nat, n: nat, j: int, a: Pt, b: Pt, k: int): real
  {
    Weigh(Coeff(m, n, j, k) as real, Pow(a.z, n - k), Pow(b.z, k))
  }

  function KTerms(m: nat, n: nat, j: int, a: Pt, b: Pt): int -> real
  {
    k => KTerm(m, n, j, a, b, k)
  }

  /** Summand j of the middle loop on the edge a -> b. */
  function JTerm(m: nat, n: nat, a: Pt, b: Pt, j: int): real
  {
    Weigh(Sum(n + 1, KTerms(m, n, j, a, b)), Pow(a.y, m - j), Pow(b.y, j))
  }

  /** A value weighted by two powers. */
  function Weigh(s: real, p: real, q: real): real
  {
    s * p * q
  }

  lemma WeighSwap(s: real, p: real, q: real)
    ensures Weigh(s, q, p) == Weigh(s, p, q)
  {
    MulSwapLast(s, p, q);
  }

  function JTerms(m: nat, n: nat, a: Pt, b: Pt): int -> real
  {
    j => JTerm(m, n, a, b, j)
  }

  /** The double sum `ssj` of one edge. */
  function EdgeWeight(m: nat, n: nat, a: Pt, b: Pt): real
  {
    Sum(m + 1, JTerms(m, n, a, b))
  }

  /** Twice the signed area of the triangle (origin, a, b). */
  function Cross(a: Pt, b: Pt): real
  {
    a.y * b.z - b.y * a.z
  }

  /** The contribution of the edge a -> b to the vertex sum `mom`. */
  function EdgeTerm(m: nat, n: nat, a: Pt, b: Pt): real
  {
    EdgeWeight(m, n, a, b) * Cross(a, b)
  }

  function EdgeTerms(m: nat, n: nat): (Pt, Pt) -> real
  {
    (a, b) => EdgeTerm(m, n, a, b)
  }

  /** The sum of w over the consecutive pairs (ring[i], ring[i+1]) for
      i in 0 .. |ring| - 2, accumulated from the first pair on. There is no
      wrap-around pair: a closed ring repeats its first vertex at the end. */
  function ChainSum(ring: seq<Pt>, w: (Pt, Pt) -> real): real
    decreases |ring|
  {
    if |ring| < 2 then 0.0
    else ChainSum(ring[..|ring| - 1], w) + w(ring[|ring| - 2], ring[|ring| - 1])
  }

  /** The divisor C(m+n, n) (m+n+1) (m+n+2). */
  function Normaliser(m: nat, n: nat): (d: nat)
    ensures d > 0
  {
    BinomPositive(m + n, n);
    Binom(m + n, n) * (m + n + 1) * (m + n + 2)
  }

  /** `marin_integration(y, z, m, n)`: the integral of y^m z^n over the
      polygon bounded by `ring`, positive when the ring runs counter-clockwise. */
  function Moment(ring: seq<Pt>, m: nat, n: nat): (r: real)
    ensures |ring| < 2 ==> r == 0.0
  {
    ChainSum(ring, EdgeTerms(m, n)) / Normaliser(m, n) as real
  }

  // ---------------------------------------------------------------------
  // Edge sums: splitting and reversing chains

  /** Joining two chains adds their sums plus the sum of the bridging pair. */
  lemma {:induction false} ChainConcat(p: seq<Pt>, q: seq<Pt>, w: (Pt, Pt) -> real)
    requires |p| >= 1 && |q| >= 1
    ensures ChainSum(p + q, w) == ChainSum(p, w) + w(p[|p| - 1], q[0]) + ChainSum(q, w)
    decreases |q|
  {
    var pq := p + q;
    if |q| == 1 {
      assert pq[..|pq| - 1] == p;
    } else {
      var q' := q[..|q| - 1];
      assert pq[..|pq| - 1] == p + q';
      ChainConcat(p, q', w);
      assert q'[0] == q[0];
    }
  }

  /** The first pair can be peeled off the front of a chain. */
  lemma ChainFront(ring: seq<Pt>, w: (Pt, Pt) -> real)
    requires |ring| >= 2
    ensures ChainSum(ring, w) == w(ring[0], ring[1]) + ChainSum(ring[1..], w)
  {
    assert ring == [ring[0]] + ring[1..];
    ChainConcat([ring[0]], ring[1..], w);
  }

  /** For an antisymmetric pair function, walking a chain backwards negates its sum. */
  lemma {:induction false} ChainReverse(ring: seq<Pt>, w: (Pt, Pt) -> real)
    requires forall a, b :: w(b, a) == -w(a, b)
    ensures ChainSum(Reverse(ring), w) == -ChainSum(ring, w)
    decreases |ring|
  {
    if |ring| >= 2 {
      var pre := ring[..|ring| - 1];
      var last := ring[|ring| - 1];
      var rpre := Reverse(pre);
      assert Reverse(ring) == [last] + rpre;
      ChainReverse(pre, w);
      ChainConcat([last], rpre, w);
      assert rpre[0] == ring[|ring| - 2];
      assert w(last, ring[|ring| - 2]) == -w(ring[|ring| - 2], last);
    }
  }

  /** Chain sums of pointwise-equal pair functions are equal. */
  lemma {:induction false} ChainExt(ring: seq<Pt>, v: (Pt, Pt) -> real, w: (Pt, Pt) -> real)
    requires forall a, b :: v(a, b) == w(a, b)
    ensures ChainSum(ring, v) == ChainSum(ring, w)
    decreases |ring|
  {
    if |ring| >= 2 {
      ChainExt(ring[..|ring| - 1], v, w);
    }
  }

  // ---------------------------------------------------------------------
  // Orientation

  /** The inner sum over k for middle index m - j on b -> a equals the one
      for j on a -> b. */
  lemma KSumSwap(m: nat, n: nat, j: nat, a: Pt, b: Pt)
    requires j <= m
    ensures Sum(n + 1, KTerms(m, n, m - j, b, a)) == Sum(n + 1, KTerms(m, n, j, a, b))
  {
    var f := KTerms(m, n, m - j, b, a);
    SumReverse(n + 1, f);
    forall i | 0 <= i < n + 1
      ensures f(n - i) == KTerms(m, n, j, a, b)(i)
    {
      KTermSwap(m, n, j, a, b, i);
    }
    SumExt(n + 1, i => f(n + 1 - 1 - i), KTerms(m, n, j, a, b));
  }

  /** Summand n - i of the inner loop for m - j on b -> a is summand i for j
      on a -> b. */
  lemma KTermSwap(m: nat, n: nat, j: nat, a: Pt, b: Pt, i: int)
    requires j <= m && 0 <= i <= n
    ensures KTerm(m, n, m - j, b, a, n - i) == KTerm(m, n, j, a, b, i)
  {
    CoeffSymmetric(m, n, j, i);
    assert n - (n - i) == i;
    WeighSwap(Coeff(m, n, j, i) as real, Pow(a.z, n - i), Pow(b.z, i));
  }

  /** Summand m - j of the middle loop on b -> a equals summand j on a -> b. */
  lemma JTermSwap(m: nat, n: nat, j: nat, a: Pt, b: Pt)
    requires j <= m
    ensures JTerm(m, n, b, a, m - j) == JTerm(m, n, a, b, j)
  {
    KSumSwap(m, n, j, a, b);
    assert m - (m - j) == j;
    WeighSwap(Sum(n + 1, KTerms(m, n, j, a, b)), Pow(a.y, m - j), Pow(b.y, j));
  }

  /** The double sum of an edge does not depend on its direction. */
  lemma EdgeWeightSymmetric(m: nat, n: nat, a: Pt, b: Pt)
    ensures EdgeWeight(m, n, b, a) == EdgeWeight(m, n, a, b)
  {
    var f := JTerms(m, n, b, a);
    SumReverse(m + 1, f);
    forall j | 0 <= j < m + 1
      ensures f(m - j) == JTerms(m, n, a, b)(j)
    {
      JTermSwap(m, n, j, a, b);
    }
    SumExt(m + 1, i => f(m + 1 - 1 - i), JTerms(m, n, a, b));
  }

  /** Reversing an edge negates its contribution. */
  lemma EdgeTermAntisymmetric(m: nat, n: nat, a: Pt, b: Pt)
    ensures EdgeTerm(m, n, b, a) == -EdgeTerm(m, n, a, b)
  {
    EdgeWeightSymmetric(m, n, a, b);
  }

  /** Reversing the vertex order negates every moment: counter-clockwise
      rings integrate positively, clockwise rings (holes) negatively. */
  lemma MomentReverse(ring: seq<Pt>, m: nat, n: nat)
    ensures Moment(Reverse(ring), m, n) == -Moment(ring, m, n)
  {
    var w := EdgeTerms(m, n);
    forall a, b
      ensures w(b, a) == -w(a, b)
    {
      EdgeTermAntisymmetric(m, n, a, b);
    }
    ChainReverse(ring, w);
    var d := Normaliser(m, n) as real;
    var x := ChainSum(ring, w);
    assert Moment(Reverse(ring), m, n) == (-x) / d;
    assert Moment(ring, m, n) == x / d;
    DivLinear(x, 0.0, d);
  }

  /** Two edge chains sharing the vertex where one ends and the other
      starts: the moment of the joined chain is the sum of their moments. */
  lemma MomentJoin(p: seq<Pt>, q: seq<Pt>, m: nat, n: nat)
    requires |p| >= 1 && |q| >= 1 && p[|p| - 1] == q[0]
    ensures Moment(p + q[1..], m, n) == Moment(p, m, n) + Moment(q, m, n)
  {
    var w := EdgeTerms(m, n);
    var d := Normaliser(m, n) as real;
    if |q| >= 2 {
      ChainConcat(p, q[1..], w);
      ChainFront(q, w);
      var x, y := ChainSum(p, w), ChainSum(q, w);
      assert ChainSum(p + q[1..], w) == x + y;
      DivLinear(x, y, d);
    } else {
      assert p + q[1..] == p;
    }
  }

  // ---------------------------------------------------------------------
  // Textbook polygon formulas as independent references

  /** The sum of w over consecutive pairs, written front to back. */
  function FrontSum(ring: seq<Pt>, w: (Pt, Pt) -> real): real
    decreases |ring|
  {
    if |ring| < 2 then 0.0 else w(ring[0], ring[1]) + FrontSum(ring[1..], w)
  }

  lemma {:induction false} ChainIsFrontSum(ring: seq<Pt>, w: (Pt, Pt) -> real)
    ensures ChainSum(ring, w) == FrontSum(ring, w)
    decreases |ring|
  {
    if |ring| >= 2 {
      ChainFront(ring, w);
      ChainIsFrontSum(ring[1..], w);
    }
  }

  /** The shoelace formula: the signed area of a closed ring. */
  function ShoelaceArea(ring: seq<Pt>): real
  {
    FrontSum(ring, Cross) / 2.0
  }

  function ZWeight(a: Pt, b: Pt): real { (a.z + b.z) * Cross(a, b) }
  function YWeight(a: Pt, b: Pt): real { (a.y + b.y) * Cross(a, b) }
  function ZZWeight(a: Pt, b: Pt): real { (a.z * a.z + a.z * b.z + b.z * b.z) * Cross(a, b) }
  function YZWeight(a: Pt, b: Pt): real
  {
    (2.0 * a.y * a.z + a.y * b.z + b.y * a.z + 2.0 * b.y * b.z) * Cross(a, b)
  }

  /** The first moment about the y axis, the integral of z. */
  function FirstMomentZ(ring: seq<Pt>): real
  {
    FrontSum(ring, ZWeight) / 6.0
  }

  /** The first moment about the z axis, the integral of y. */
  function FirstMomentY(ring: seq<Pt>): real
  {
    FrontSum(ring, YWeight) / 6.0
  }

  /** The second moment, the integral of z^2. */
  function SecondMomentZ(ring: seq<Pt>): real
  {
    FrontSum(ring, ZZWeight) / 12.0
  }

  /** The product moment, the integral of y z. */
  function ProductMomentYZ(ring: seq<Pt>): real
  {
    FrontSum(ring, YZWeight) / 24.0
  }

  /** Every edge term of the (m, n) moment equals w at the edge's ends. */
  ghost predicate ClosedForm(m: nat, n: nat, w: (Pt, Pt) -> real)
  {
    forall a, b :: EdgeTerm(m, n, a, b) == w(a, b)
  }

  /** Relates a moment to a reference formula given the closed form of its
      edge terms. */
  lemma MomentByWeight(ring: seq<Pt>, m: nat, n: nat, w: (Pt, Pt) -> real, d: real)
    requires d == Normaliser(m, n) as real
    requires ClosedForm(m, n, w)
    ensures Moment(ring, m, n) == FrontSum(ring, w) / d
  {
    ChainExt(ring, EdgeTerms(m, n), w);
    ChainIsFrontSum(ring, w);
  }

  /** For m = n = 0 the moment is the shoelace area. */
  lemma AreaIsShoelace(ring: seq<Pt>)
    ensures Moment(ring, 0, 0) == ShoelaceArea(ring)
  {
    forall a, b
      ensures EdgeTerm(0, 0, a, b) == Cross(a, b)
    {
      assert JTerm(0, 0, a, b, 0) == KTerm(0, 0, 0, a, b, 0);
    }
    MomentByWeight(ring, 0, 0, Cross, 2.0);
  }

  /** For (m, n) = (0, 1) and (1, 0) the moments are the first-moment formulas. */
  lemma FirstMomentsAreReference(ring: seq<Pt>)
    ensures Moment(ring, 0, 1) == FirstMomentZ(ring)
    ensures Moment(ring, 1, 0) == FirstMomentY(ring)
  {
    MomentZIsReference(ring);
    MomentYIsReference(ring);
  }

  lemma MomentZIsReference(ring: seq<Pt>)
    ensures Moment(ring, 0, 1) == FirstMomentZ(ring)
  {
    EdgeTerm01s();
    MomentByWeight(ring, 0, 1, ZWeight, 6.0);
  }

  lemma MomentYIsReference(ring: seq<Pt>)
    ensures Moment(ring, 1, 0) == FirstMomentY(ring)
  {
    EdgeTerm10s();
    MomentByWeight(ring, 1, 0, YWeight, 6.0);
  }

  lemma EdgeTerm01s()
    ensures ClosedForm(0, 1, ZWeight)
  {
    forall a, b
      ensures EdgeTerm(0, 1, a, b) == ZWeight(a, b)
    {
      EdgeTerm01(a, b);
    }
  }

  lemma EdgeTerm01(a: Pt, b: Pt)
    ensures EdgeTerm(0, 1, a, b) == ZWeight(a, b)
  {
    assert Sum(2, KTerms(0, 1, 0, a, b)) == KTerm(0, 1, 0, a, b, 0) + KTerm(0, 1, 0, a, b, 1);
    assert EdgeWeight(0, 1, a, b) == a.z + b.z;
  }

  lemma EdgeTerm10s()
    ensures ClosedForm(1, 0, YWeight)
  {
    forall a, b
      ensures EdgeTerm(1, 0, a, b) == YWeight(a, b)
    {
      EdgeTerm10(a, b);
    }
  }

  lemma EdgeTerm10(a: Pt, b: Pt)
    ensures EdgeTerm(1, 0, a, b) == YWeight(a, b)
  {
    assert KTerm(1, 0, 0, a, b, 0) == 1.0 && KTerm(1, 0, 1, a, b, 0) == 1.0;
    assert JTerm(1, 0, a, b, 0) == a.y;
    assert JTerm(1, 0, a, b, 1) == b.y;
    assert Sum(2, JTerms(1, 0, a, b)) == JTerm(1, 0, a, b, 0) + JTerm(1, 0, a, b, 1);
  }

  /** For (m, n) = (0, 2) and (1, 1) the moments are the second-moment formulas. */
  lemma SecondMomentsAreReference(ring: seq<Pt>)
    ensures Moment(ring, 0, 2) == SecondMomentZ(ring)
    ensures Moment(ring, 1, 1) == ProductMomentYZ(ring)
  {
    MomentZZIsReference(ring);
    MomentYZIsReference(ring);
  }

  lemma MomentZZIsReference(ring: seq<Pt>)
    ensures Moment(ring, 0, 2) == SecondMomentZ(ring)
  {
    EdgeTerm02s();
    MomentZZByWeight(ring);
  }

  lemma MomentZZByWeight(ring: seq<Pt>)
    requires ClosedForm(0, 2, ZZWeight)
    ensures Moment(ring, 0, 2) == FrontSum(ring, ZZWeight) / 12.0
  {
    NormaliserSecond();
    MomentByWeight(ring, 0, 2, ZZWeight, 12.0);
  }

  lemma MomentYZIsReference(ring: seq<Pt>)
    ensures Moment(ring, 1, 1) == ProductMomentYZ(ring)
  {
    EdgeTerm11s();
    MomentYZByWeight(ring);
  }

  lemma MomentYZByWeight(ring: seq<Pt>)
    requires ClosedForm(1, 1, YZWeight)
    ensures Moment(ring, 1, 1) == FrontSum(ring, YZWeight) / 24.0
  {
    NormaliserSecond();
    MomentByWeight(ring, 1, 1, YZWeight, 24.0);
  }

  /** The normalising divisors of the second moments. */
  lemma NormaliserSecond()
    ensures Normaliser(0, 2) == 12 && Normaliser(1, 1) == 24
  {
    assert Binom(2, 2) == 1;
    assert Binom(2, 1) == 2 by { assert Binom(1, 0) == 1 && Binom(1, 1) == 1; }
  }

  lemma EdgeTerm02s()
    ensures ClosedForm(0, 2, ZZWeight)
  {
    forall a, b
      ensures EdgeTerm(0, 2, a, b) == ZZWeight(a, b)
    {
      EdgeTerm02(a, b);
    }
  }

  lemma EdgeTerm02(a: Pt, b: Pt)
    ensures EdgeTerm(0, 2, a, b) == ZZWeight(a, b)
  {
    EdgeWeight02(a, b);
  }

  lemma EdgeTerm11s()
    ensures ClosedForm(1, 1, YZWeight)
  {
    forall a, b
      ensures EdgeTerm(1, 1, a, b) == YZWeight(a, b)
    {
      EdgeTerm11(a, b);
    }
  }

  lemma EdgeTerm11(a: Pt, b: Pt)
    ensures EdgeTerm(1, 1, a, b) == YZWeight(a, b)
  {
    EdgeWeight11(a, b);
  }

  lemma EdgeWeight02(a: Pt, b: Pt)
    ensures EdgeWeight(0, 2, a, b) == a.z * a.z + a.z * b.z + b.z * b.z
  {
    assert Sum(3, KTerms(0, 2, 0, a, b))
      == KTerm(0, 2, 0, a, b, 0) + KTerm(0, 2, 0, a, b, 1) + KTerm(0, 2, 0, a, b, 2);
    assert KTerm(0, 2, 0, a, b, 0) == a.z * a.z;
    assert KTerm(0, 2, 0, a, b, 1) == a.z * b.z;
    assert KTerm(0, 2, 0, a, b, 2) == b.z * b.z;
  }

  lemma EdgeWeight11(a: Pt, b: Pt)
    ensures EdgeWeight(1, 1, a, b) == 2.0 * a.y * a.z + a.y * b.z + b.y * a.z + 2.0 * b.y * b.z
  {
    InnerSums11(a, b);
    var s0, s1 := 2.0 * a.z + b.z, a.z + 2.0 * b.z;
    assert EdgeWeight(1, 1, a, b) == JTerm(1, 1, a, b, 0) + JTerm(1, 1, a, b, 1);
    assert JTerm(1, 1, a, b, 0) == s0 * a.y;
    assert JTerm(1, 1, a, b, 1) == s1 * b.y;
  }

  lemma InnerSums11(a: Pt, b: Pt)
    ensures Sum(2, KTerms(1, 1, 0, a, b)) == 2.0 * a.z + b.z
    ensures Sum(2, KTerms(1, 1, 1, a, b)) == a.z + 2.0 * b.z
  {
    InnerSum11(a, b, 0);
    InnerSum11(a, b, 1);
  }

  lemma InnerSum11(a: Pt, b: Pt, j: nat)
    requires j <= 1
    ensures Sum(2, KTerms(1, 1, j, a, b)) == Coeff(1, 1, j, 0) as real * a.z + Coeff(1, 1, j, 1) as real * b.z
  {
    assert Sum(2, KTerms(1, 1, j, a, b)) == KTerm(1, 1, j, a, b, 0) + KTerm(1, 1, j, a, b, 1);
  }

  // ---------------------------------------------------------------------
  // Worked values

  /** The closed unit square, counter-clockwise, first vertex repeated. */
  function UnitSquare(): seq<Pt>
  {
    [Pt(0.0, 0.0), Pt(1.0, 0.0), Pt(1.0, 1.0), Pt(0.0, 1.0), Pt(0.0, 0.0)]
  }

  /** The closed axis-aligned rectangle [y0, y1] x [z0, z1], counter-clockwise. */
  function Rectangle(y0: real, z0: real, y1: real, z1: real): seq<Pt>
  {
    [Pt(y0, z0), Pt(y1, z0), Pt(y1, z1), Pt(y0, z1), Pt(y0, z0)]
  }

  /** The area of a counter-clockwise rectangle is width times height. */
  lemma RectangleArea(y0: real, z0: real, y1: real, z1: real)
    ensures Moment(Rectangle(y0, z0, y1, z1), 0, 0) == (y1 - y0) * (z1 - z0)
  {
    var r := Rectangle(y0, z0, y1, z1);
    AreaIsShoelace(r);
    FrontSumFourEdges(r, Cross);
  }

  /** The sum over the four edges of a closed quadrilateral. */
  lemma FrontSumFourEdges(r: seq<Pt>, w: (Pt, Pt) -> real)
    requires |r| == 5
    ensures FrontSum(r, w) == w(r[0], r[1]) + w(r[1], r[2]) + w(r[2], r[3]) + w(r[3], r[4])
  {
    assert FrontSum(r[4..], w) == 0.0;
    assert r[3..][1..] == r[4..];
    assert FrontSum(r[3..], w) == w(r[3], r[4]) + FrontSum(r[4..], w);
    assert r[2..][1..] == r[3..];
    assert FrontSum(r[2..], w) == w(r[2], r[3]) + FrontSum(r[3..], w);
    assert r[1..][1..] == r[2..];
    assert FrontSum(r[1..], w) == w(r[1], r[2]) + FrontSum(r[2..], w);
  }

  /** The first moments of a counter-clockwise rectangle: its area times
      the coordinates of its centre. */
  lemma RectangleFirstMoments(y0: real, z0: real, y1: real, z1: real)
    ensures Moment(Rectangle(y0, z0, y1, z1), 1, 0) == (y1 - y0) * (z1 - z0) * (y0 + y1) / 2.0
    ensures Moment(Rectangle(y0, z0, y1, z1), 0, 1) == (y1 - y0) * (z1 - z0) * (z0 + z1) / 2.0
  {
    var r := Rectangle(y0, z0, y1, z1);
    FirstMomentsAreReference(r);
    var fy := FrontSum(r, YWeight);
    var x := (y1 - y0) * (z1 - z0) * (y0 + y1);
    assert fy == 3.0 * x by {
      FrontSumFourEdges(r, YWeight);
      RectangleYWeights(y0, z0, y1, z1);
    }
    SixthOfTriple(Moment(r, 1, 0), fy, x);
    var fz := FrontSum(r, ZWeight);
    var x' := (y1 - y0) * (z1 - z0) * (z0 + z1);
    assert fz == 3.0 * x' by {
      FrontSumFourEdges(r, ZWeight);
      RectangleZWeights(y0, z0, y1, z1);
    }
    SixthOfTriple(Moment(r, 0, 1), fz, x');
  }

  lemma SixthOfTriple(m: real, f: real, x: real)
    requires m == f / 6.0 && f == 3.0 * x
    ensures m == x / 2.0
  {
  }

  lemma RectangleYWeights(y0: real, z0: real, y1: real, z1: real)
    ensures YWeight(Pt(y0, z0), Pt(y1, z0)) + YWeight(Pt(y1, z0), Pt(y1, z1))
          + YWeight(Pt(y1, z1), Pt(y0, z1)) + YWeight(Pt(y0, z1), Pt(y0, z0))
         == 3.0 * ((y1 - y0) * (z1 - z0) * (y0 + y1))
  {
    var w, h := y1 - y0, z1 - z0;
    assert YWeight(Pt(y0, z0), Pt(y1, z0)) == -((y0 + y1) * w * z0);
    assert YWeight(Pt(y1, z0), Pt(y1, z1)) == 2.0 * y1 * y1 * h;
    assert YWeight(Pt(y1, z1), Pt(y0, z1)) == (y0 + y1) * w * z1;
    assert YWeight(Pt(y0, z1), Pt(y0, z0)) == -(2.0 * y0 * y0 * h);
    assert (y0 + y1) * w * z1 - (y0 + y1) * w * z0 == (y0 + y1) * w * h;
    assert 2.0 * y1 * y1 * h - 2.0 * y0 * y0 * h == 2.0 * ((y0 + y1) * w * h);
  }

  lemma RectangleZWeights(y0: real, z0: real, y1: real, z1: real)
    ensures ZWeight(Pt(y0, z0), Pt(y1, z0)) + ZWeight(Pt(y1, z0), Pt(y1, z1))
          + ZWeight(Pt(y1, z1), Pt(y0, z1)) + ZWeight(Pt(y0, z1), Pt(y0, z0))
         == 3.0 * ((y1 - y0) * (z1 - z0) * (z0 + z1))
  {
    var w, h := y1 - y0, z1 - z0;
    assert ZWeight(Pt(y0, z0), Pt(y1, z0)) == -(2.0 * z0 * z0 * w);
    assert ZWeight(Pt(y1, z0), Pt(y1, z1)) == (z0 + z1) * h * y1;
    assert ZWeight(Pt(y1, z1), Pt(y0, z1)) == 2.0 * z1 * z1 * w;
    assert ZWeight(Pt(y0, z1), Pt(y0, z0)) == -((z0 + z1) * h * y0);
    assert (z0 + z1) * h * y1 - (z0 + z1) * h * y0 == (z0 + z1) * h * w;
    assert 2.0 * z1 * z1 * w - 2.0 * z0 * z0 * w == 2.0 * ((z0 + z1) * h * w);
  }

  /** The unit square has area 1 and centroid (1/2, 1/2). */
  lemma UnitSquareMoments()
    ensures Moment(UnitSquare(), 0, 0) == 1.0
    ensures Moment(UnitSquare(), 1, 0) == 0.5
    ensures Moment(UnitSquare(), 0, 1) == 0.5
  {
    assert UnitSquare() == Rectangle(0.0, 0.0, 1.0, 1.0);
    RectangleArea(0.0, 0.0, 1.0, 1.0);
    RectangleFirstMoments(0.0, 0.0, 1.0, 1.0);
  }

  /** Without the repeated first vertex the closing edge is missing: the
      open unit square [1, 2] x [1, 2] integrates to 1.5 instead of 1. */
  lemma OpenRingMissesClosingEdge()
    ensures Moment(Rectangle(1.0, 1.0, 2.0, 2.0)[..4], 0, 0) == 1.5
  {
    OpenRectangle(1.0, 1.0, 2.0, 2.0);
  }

  /** The open rectangle lacks the closing edge's term y0 (z0 - z1) / 2. */
  lemma OpenRectangle(y0: real, z0: real, y1: real, z1: real)
    ensures Moment(Rectangle(y0, z0, y1, z1)[..4], 0, 0)
         == (y1 - y0) * (z1 - z0) - y0 * (z0 - z1) / 2.0
  {
    var r := Rectangle(y0, z0, y1, z1)[..4];
    AreaIsShoelace(r);
    assert FrontSum(r[3..], Cross) == 0.0;
    assert r[2..][1..] == r[3..];
    assert FrontSum(r[2..], Cross) == Cross(r[2], r[3]) + FrontSum(r[3..], Cross);
    assert r[1..][1..] == r[2..];
    assert FrontSum(r[1..], Cross) == Cross(r[1], r[2]) + FrontSum(r[2..], Cross);
    assert FrontSum(r, Cross) == Cross(r[0], r[1]) + FrontSum(r[1..], Cross);
  }

  /** A hole given clockwise subtracts: a rectangle with a clockwise
      rectangular hole has the outer area minus the hole's. */
  lemma HoleSubtracts(y0: real, z0: real, y1: real, z1: real, hy0: real, hz0: real, hy1: real, hz1: real)
    ensures Moment(Rectangle(y0, z0, y1, z1), 0, 0)
          + Moment(Reverse(Rectangle(hy0, hz0, hy1, hz1)), 0, 0)
         == (y1 - y0) * (z1 - z0) - (hy1 - hy0) * (hz1 - hz0)
  {
    RectangleArea(y0, z0, y1, z1);
    RectangleArea(hy0, hz0, hy1, hz1);
    MomentReverse(Rectangle(hy0, hz0, hy1, hz1), 0, 0);
  }

  // ---------------------------------------------------------------------
  // The memoised coefficient and the loops of `marin_integration`

  type CoeffKey = (int, int, int, int)

  /** The default `maxsize` of `functools.lru_cache`. */
  const CacheLimit: nat := 128

  /** Every entry of the memo table holds the coefficient of its key. */
  predicate CacheSound(cache: map<CoeffKey, nat>)
  {
    forall key | key in cache :: cache[key] == Coeff(key.0, key.1, key.2, key.3)
  }

  /** `_coeff` behind `functools.lru_cache`: a hit returns the stored value;
      a miss computes the coefficient and stores it, first evicting one
      entry when the table is full (the least recently used one; recency is
      not tracked, so any stored entry may be the one that goes). The
      answer is the coefficient either way; the table never holds an entry
      it was not given or did not compute, and never outgrows the limit.
      `math.comb` rejects negative arguments, so the indices stay within
      j <= m and k <= n, the only ones `marin_integration` asks for. */
  method CachedCoeff(cache0: map<CoeffKey, nat>, m: nat, n: nat, j: nat, k: nat)
    returns (c: nat, cache: map<CoeffKey, nat>)
    requires j <= m && k <= n
    requires CacheSound(cache0)
    ensures c == Coeff(m, n, j, k)
    ensures CacheSound(cache) && (m, n, j, k) in cache
    ensures cache.Keys <= cache0.Keys + {(m, n, j, k)}
    ensures |cache0| <= CacheLimit ==> |cache| <= CacheLimit
  {
    var key := (m, n, j, k);
    if key in cache0 {
      c, cache := cache0[key], cache0;
    } else {
      c := Coeff(m, n, j, k);
      var kept := cache0;
      if |cache0| >= CacheLimit {
        var lru :| lru in cache0;
        kept := cache0 - {lru};
        assert kept.Keys == cache0.Keys - {lru};
      }
      cache := kept[key := c];
      assert cache.Keys == kept.Keys + {key};
    }
  }

  /** One step of the innermost loop adds summand k. */
  lemma InnerStep(ssk: real, c: nat, next: real, m: nat, n: nat, j: int, a: Pt, b: Pt, k: nat)
    requires ssk == Sum(k, KTerms(m, n, j, a, b))
    requires c == Coeff(m, n, j, k)
    requires next == ssk + Weigh(c as real, Pow(a.z, n - k), Pow(b.z, k))
    ensures next == Sum(k + 1, KTerms(m, n, j, a, b))
  {
    var f := KTerms(m, n, j, a, b);
    assert Sum(k + 1, f) == Sum(k, f) + f(k);
  }

  /** One step of the outer loop: adding the weighted inner sum of row j
      extends the sum over the rows by one. */
  lemma EdgeStep(ssj: real, ssk: real, next: real, m: nat, n: nat, a: Pt, b: Pt, j: nat)
    requires ssj == Sum(j, JTerms(m, n, a, b))
    requires ssk == Sum(n + 1, KTerms(m, n, j, a, b))
    requires next == ssj + Weigh(ssk, Pow(a.y, m - j), Pow(b.y, j))
    ensures next == Sum(j + 1, JTerms(m, n, a, b))
  {
    var f := JTerms(m, n, a, b);
    assert Sum(j + 1, f) == Sum(j, f) + f(j);
  }

  /** The innermost loop of `marin_integration`: the sum over k for one j. */
  method InnerLoop(m: nat, n: nat, j: nat, a: Pt, b: Pt, cache0: map<CoeffKey, nat>)
    returns (ssk: real, cache: map<CoeffKey, nat>)
    requires j <= m
    requires CacheSound(cache0)
    ensures ssk == Sum(n + 1, KTerms(m, n, j, a, b))
    ensures CacheSound(cache)
  {
    cache := cache0;
    ssk := 0.0;
    var k := 0;
    while k < n + 1
      invariant k <= n + 1
      invariant ssk == Sum(k, KTerms(m, n, j, a, b))
      invariant CacheSound(cache)
    {
      ssk, cache := InnerColumn(m, n, j, k, a, b, ssk, cache);
      k := k + 1;
    }
  }

  /** One pass of the innermost loop: the memoised coefficient times the
      powers of the z coordinates is added to the running sum. */
  method InnerColumn(m: nat, n: nat, j: nat, k: nat, a: Pt, b: Pt, ssk: real, cache0: map<CoeffKey, nat>)
    returns (next: real, cache: map<CoeffKey, nat>)
    requires j <= m && k <= n
    requires ssk == Sum(k, KTerms(m, n, j, a, b))
    requires CacheSound(cache0)
    ensures next == Sum(k + 1, KTerms(m, n, j, a, b))
    ensures CacheSound(cache)
  {
    var c;
    c, cache := CachedCoeff(cache0, m, n, j, k);
    next := ssk + Weigh(c as real, Pow(a.z, n - k), Pow(b.z, k));
    InnerStep(ssk, c, next, m, n, j, a, b, k);
  }

  /** The two inner loops of `marin_integration`: the weight `ssj` of one edge. */
  method EdgeLoop(m: nat, n: nat, a: Pt, b: Pt, cache0: map<CoeffKey, nat>)
    returns (ssj: real, cache: map<CoeffKey, nat>)
    requires CacheSound(cache0)
    ensures ssj == EdgeWeight(m, n, a, b)
    ensures CacheSound(cache)
  {
    cache := cache0;
    ssj := 0.0;
    var j := 0;
    while j < m + 1
      invariant j <= m + 1
      invariant ssj == Sum(j, JTerms(m, n, a, b))
      invariant CacheSound(cache)
    {
      ssj, cache := EdgeRow(m, n, j, a, b, ssj, cache);
      j := j + 1;
    }
  }

  /** One pass of the outer loop: row j's inner sum, weighted by the powers
      of the y coordinates, is added to the running weight. */
  method EdgeRow(m: nat, n: nat, j: nat, a: Pt, b: Pt, ssj: real, cache0: map<CoeffKey, nat>)
    returns (next: real, cache: map<CoeffKey, nat>)
    requires j <= m
    requires ssj == Sum(j, JTerms(m, n, a, b))
    requires CacheSound(cache0)
    ensures next == Sum(j + 1, JTerms(m, n, a, b))
    ensures CacheSound(cache)
  {
    var ssk;
    ssk, cache := InnerLoop(m, n, j, a, b, cache0);
    next := ssj + Weigh(ssk, Pow(a.y, m - j), Pow(b.y, j));
    EdgeStep(ssj, ssk, next, m, n, a, b, j);
  }

  /** `marin_integration` as written, with the coefficient memo table
      threaded through: whatever sound table it starts from, the result is
      the moment, and the table stays sound. */
  method MarinIntegration(ring: seq<Pt>, m: nat, n: nat, cache0: map<CoeffKey, nat>)
    returns (r: real, cache: map<CoeffKey, nat>)
    requires CacheSound(cache0)
    ensures r == Moment(ring, m, n)
    ensures CacheSound(cache)
  {
    cache := cache0;
    var mom := 0.0;
    if |ring| > 0 {
      var i := 0;
      while i + 1 < |ring|
        invariant i < |ring|
        invariant mom == ChainSum(ring[..i + 1], EdgeTerms(m, n))
        invariant CacheSound(cache)
      {
        var ssj;
        ssj, cache := EdgeLoop(m, n, ring[i], ring[i + 1], cache);
        assert ring[..i + 2][..i + 1] == ring[..i + 1];
        assert ChainSum(ring[..i + 2], EdgeTerms(m, n))
            == ChainSum(ring[..i + 1], EdgeTerms(m, n)) + EdgeTerm(m, n, ring[i], ring[i + 1]);
        mom := mom + ssj * (ring[i].y * ring[i + 1].z - ring[i + 1].y * ring[i].z);
        i := i + 1;
      }
      assert ring[..i + 1] == ring;
    }
    r := mom / Normaliser(m, n) as real;
  }
}
