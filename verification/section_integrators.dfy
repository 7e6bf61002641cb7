/** The resultant assembly of the Marin section integrator: turning surface
    parts with polynomial stress coefficients and reinforcement bars with
    forces into the axial force N and the two bending moments, then
    rotating the moments back to the section's frame. Also the arithmetic
    glue of the input preparation and the integrator factory. */
module SectionIntegrators {
  import opened Results
  import opened Sums
  import opened Marin

  // ---------------------------------------------------------------------
  // Resultants and parts

  /** A stress resultant: axial force and the moments about the two axes. */
  datatype Res = Res(n: real, mx: real, my: real)
  {
    function Plus(o: Res): Res
    {
      Res(n + o.n, mx + o.mx, my + o.my)
    }

    function Neg(): Res
    {
      Res(-n, -mx, -my)
    }
  }

  const Zero: Res := Res(0.0, 0.0, 0.0)

  lemma PlusSwapLast(a: Res, b: Res, c: Res)
    ensures a.Plus(b).Plus(c) == a.Plus(c).Plus(b)
  {
  }

  lemma PlusAssoc(a: Res, b: Res, c: Res)
    ensures a.Plus(b).Plus(c) == a.Plus(b.Plus(c))
  {
  }

  /** A reinforcement bar at a point of the rotated frame carrying a force. */
  datatype Bar = Bar(at: Pt, force: real)

  /** One entry of the prepared input. The tag 0 of the source marks a
      surface part (a vertex ring and the coefficients of the stress
      polynomial in z), the tag 1 a set of bars; any other tag is skipped. */
  datatype Part =
    | Surface(ring: seq<Pt>, coeffs: seq<real>)
    | Reinforcement(bars: seq<Bar>)
    | Other(tag: int)

  // ---------------------------------------------------------------------
  // Contribution of one surface part

  /** coeffs[k] times the moment of order (m, k + dn), or 0 out of range. */
  function CoeffMoment(ring: seq<Pt>, coeffs: seq<real>, m: nat, dn: nat, k: int): real
  {
    if 0 <= k < |coeffs| then coeffs[k] * Moment(ring, m, k + dn) else 0.0
  }

  function CoeffMoments(ring: seq<Pt>, coeffs: seq<real>, m: nat, dn: nat): int -> real
  {
    k => CoeffMoment(ring, coeffs, m, dn, k)
  }

  /** Sum over k of coeffs[k] * Moment(ring, m, k + dn). */
  function Weighted(ring: seq<Pt>, coeffs: seq<real>, m: nat, dn: nat): real
  {
    Sum(|coeffs|, CoeffMoments(ring, coeffs, m, dn))
  }

  /** A stress sigma(z) = sum of coeffs[k] z^k over the region bounded by
      the ring gives N = integral of sigma, Mx = integral of sigma z and
      My = integral of sigma y. */
  function SurfaceContribution(ring: seq<Pt>, coeffs: seq<real>): Res
  {
    Res(Weighted(ring, coeffs, 0, 0), Weighted(ring, coeffs, 0, 1), Weighted(ring, coeffs, 1, 0))
  }

  /** A constant stress s gives s times the area and the first moments. */
  lemma ConstantStress(ring: seq<Pt>, s: real)
    ensures SurfaceContribution(ring, [s])
         == Res(s * ShoelaceArea(ring), s * FirstMomentZ(ring), s * FirstMomentY(ring))
  {
    AreaIsShoelace(ring);
    FirstMomentsAreReference(ring);
    assert Weighted(ring, [s], 0, 0) == CoeffMoment(ring, [s], 0, 0, 0);
    assert Weighted(ring, [s], 0, 1) == CoeffMoment(ring, [s], 0, 1, 0);
    assert Weighted(ring, [s], 1, 0) == CoeffMoment(ring, [s], 1, 0, 0);
  }

  /** A linear stress a + b z gives the combinations of area, first and
      second moments of elementary beam theory. */
  lemma LinearStress(ring: seq<Pt>, a: real, b: real)
    ensures SurfaceContribution(ring, [a, b])
         == Res(a * ShoelaceArea(ring) + b * FirstMomentZ(ring),
                a * FirstMomentZ(ring) + b * SecondMomentZ(ring),
                a * FirstMomentY(ring) + b * ProductMomentYZ(ring))
  {
    LinearN(ring, a, b);
    LinearMx(ring, a, b);
    LinearMy(ring, a, b);
  }

  lemma LinearN(ring: seq<Pt>, a: real, b: real)
    ensures Weighted(ring, [a, b], 0, 0) == a * ShoelaceArea(ring) + b * FirstMomentZ(ring)
  {
    assert Moment(ring, 0, 0) == ShoelaceArea(ring) by { AreaIsShoelace(ring); }
    assert Moment(ring, 0, 1) == FirstMomentZ(ring) by { FirstMomentsAreReference(ring); }
    WeightedLinear(ring, a, b, 0, 0);
  }

  lemma LinearMx(ring: seq<Pt>, a: real, b: real)
    ensures Weighted(ring, [a, b], 0, 1) == a * FirstMomentZ(ring) + b * SecondMomentZ(ring)
  {
    assert Moment(ring, 0, 1) == FirstMomentZ(ring) by { FirstMomentsAreReference(ring); }
    assert Moment(ring, 0, 2) == SecondMomentZ(ring) by { SecondMomentsAreReference(ring); }
    WeightedLinear(ring, a, b, 0, 1);
  }

  lemma LinearMy(ring: seq<Pt>, a: real, b: real)
    ensures Weighted(ring, [a, b], 1, 0) == a * FirstMomentY(ring) + b * ProductMomentYZ(ring)
  {
    assert Moment(ring, 1, 0) == FirstMomentY(ring) by { FirstMomentsAreReference(ring); }
    assert Moment(ring, 1, 1) == ProductMomentYZ(ring) by { SecondMomentsAreReference(ring); }
    WeightedLinear(ring, a, b, 1, 0);
  }

  lemma WeightedLinear(ring: seq<Pt>, a: real, b: real, m: nat, dn: nat)
    ensures Weighted(ring, [a, b], m, dn) == a * Moment(ring, m, dn) + b * Moment(ring, m, dn + 1)
  {
    var f := CoeffMoments(ring, [a, b], m, dn);
    assert Sum(2, f) == f(0) + f(1);
  }

  /** Traversing the ring the other way round negates the contribution; a
      clockwise hole therefore subtracts. */
  lemma SurfaceReverse(ring: seq<Pt>, coeffs: seq<real>)
    ensures SurfaceContribution(Reverse(ring), coeffs) == SurfaceContribution(ring, coeffs).Neg()
  {
    WeightedReverse(ring, coeffs, 0, 0);
    WeightedReverse(ring, coeffs, 0, 1);
    WeightedReverse(ring, coeffs, 1, 0);
  }

  lemma WeightedReverse(ring: seq<Pt>, coeffs: seq<real>, m: nat, dn: nat)
    ensures Weighted(Reverse(ring), coeffs, m, dn) == -Weighted(ring, coeffs, m, dn)
  {
    forall k | 0 <= k < |coeffs|
      ensures CoeffMoments(Reverse(ring), coeffs, m, dn)(k) == -CoeffMoments(ring, coeffs, m, dn)(k)
    {
      MomentReverse(ring, m, k + dn);
    }
    SumNeg(|coeffs|, CoeffMoments(Reverse(ring), coeffs, m, dn), CoeffMoments(ring, coeffs, m, dn));
  }

  /** Two chains sharing an end vertex contribute the sum of their parts. */
  lemma SurfaceJoin(p: seq<Pt>, q: seq<Pt>, coeffs: seq<real>)
    requires |p| >= 1 && |q| >= 1 && p[|p| - 1] == q[0]
    ensures SurfaceContribution(p + q[1..], coeffs)
         == SurfaceContribution(p, coeffs).Plus(SurfaceContribution(q, coeffs))
  {
    WeightedJoin(p, q, coeffs, 0, 0);
    WeightedJoin(p, q, coeffs, 0, 1);
    WeightedJoin(p, q, coeffs, 1, 0);
  }

  lemma WeightedJoin(p: seq<Pt>, q: seq<Pt>, coeffs: seq<real>, m: nat, dn: nat)
    requires |p| >= 1 && |q| >= 1 && p[|p| - 1] == q[0]
    ensures Weighted(p + q[1..], coeffs, m, dn) == Weighted(p, coeffs, m, dn) + Weighted(q, coeffs, m, dn)
  {
    forall k | 0 <= k < |coeffs|
      ensures CoeffMoments(p + q[1..], coeffs, m, dn)(k)
           == CoeffMoments(p, coeffs, m, dn)(k) + CoeffMoments(q, coeffs, m, dn)(k)
    {
      MomentJoin(p, q, m, k + dn);
    }
    SumAdd(|coeffs|, CoeffMoments(p, coeffs, m, dn), CoeffMoments(q, coeffs, m, dn),
           CoeffMoments(p + q[1..], coeffs, m, dn));
  }

  // ---------------------------------------------------------------------
  // Contribution of the bars

  function BarRes(b: Bar): Res
  {
    Res(b.force, b.force * b.at.z, b.force * b.at.y)
  }

  /** Sum of the forces, of force times z and of force times y. */
  function BarsContribution(bars: seq<Bar>): Res
  {
    if |bars| == 0 then Zero
    else BarsContribution(bars[..|bars| - 1]).Plus(BarRes(bars[|bars| - 1]))
  }

  /** The bar sums are additive over a split of the bar list. */
  lemma {:induction false} BarsConcat(p: seq<Bar>, q: seq<Bar>)
    ensures BarsContribution(p + q) == BarsContribution(p).Plus(BarsContribution(q))
    decreases |q|
  {
    if |q| == 0 {
      assert p + q == p;
    } else {
      var q', x := q[..|q| - 1], q[|q| - 1];
      assert (p + q)[..|p + q| - 1] == p + q';
      assert (p + q)[|p + q| - 1] == x;
      BarsConcat(p, q');
      PlusAssoc(BarsContribution(p), BarsContribution(q'), BarRes(x));
    }
  }

  /** One bar at (2, 3) carrying 10 gives N = 10, Mx = 30 and My = 20. */
  lemma SingleBar()
    ensures BarsContribution([Bar(Pt(2.0, 3.0), 10.0)]) == Res(10.0, 30.0, 20.0)
  {
  }

  // ---------------------------------------------------------------------
  // Accumulation over the parts

  function Contribution(part: Part): Res
  {
    match part
    case Surface(ring, coeffs) => SurfaceContribution(ring, coeffs)
    case Reinforcement(bars) => BarsContribution(bars)
    case Other(_) => Zero
  }

  /** The running (N, Mx, My), starting at zero, after all parts. */
  function Accumulate(parts: seq<Part>): Res
  {
    Fold(parts, Contribution)
  }

  /** Adding up the values of f over the parts, left to right. */
  function Fold(parts: seq<Part>, f: Part -> Res): Res
  {
    if |parts| == 0 then Zero
    else Fold(parts[..|parts| - 1], f).Plus(f(parts[|parts| - 1]))
  }

  /** Accumulating one more part adds its contribution. */
  lemma AccumulateSnoc(parts: seq<Part>)
    requires |parts| > 0
    ensures Accumulate(parts) == Accumulate(parts[..|parts| - 1]).Plus(Contribution(parts[|parts| - 1]))
  {
  }

  /** Accumulation is additive over a split of the part list. */
  lemma AccumulateConcat(p: seq<Part>, q: seq<Part>)
    ensures Accumulate(p + q) == Accumulate(p).Plus(Accumulate(q))
  {
    FoldConcat(p, q, Contribution);
  }

  lemma {:induction false} FoldConcat(p: seq<Part>, q: seq<Part>, f: Part -> Res)
    ensures Fold(p + q, f) == Fold(p, f).Plus(Fold(q, f))
    decreases |q|
  {
    if |q| == 0 {
      assert p + q == p;
    } else {
      var q', x := q[..|q| - 1], q[|q| - 1];
      assert (p + q)[..|p + q| - 1] == p + q';
      assert (p + q)[|p + q| - 1] == x;
      FoldConcat(p, q', f);
      PlusAssoc(Fold(p, f), Fold(q', f), f(x));
    }
  }

  /** The order of the parts does not matter: any rearrangement of the
      same parts accumulates to the same resultant. */
  lemma AccumulatePermutation(p: seq<Part>, q: seq<Part>)
    requires multiset(p) == multiset(q)
    ensures Accumulate(p) == Accumulate(q)
  {
    FoldPermutation(p, q, Contribution);
  }

  lemma {:induction false} FoldPermutation(p: seq<Part>, q: seq<Part>, f: Part -> Res)
    requires multiset(p) == multiset(q)
    ensures Fold(p, f) == Fold(q, f)
    decreases |p|
  {
    if |p| > 0 {
      var x := p[|p| - 1];
      assert x in multiset(q);
      var i :| 0 <= i < |q| && q[i] == x;
      MultisetRemove(p, q, i);
      FoldPermutation(p[..|p| - 1], q[..i] + q[i + 1..], f);
      FoldRemoved(q, i, f);
    }
  }

  /** Taking the last element off one side and a matching element off the
      other keeps two sequences permutations of each other. */
  lemma MultisetRemove(p: seq<Part>, q: seq<Part>, i: nat)
    requires multiset(p) == multiset(q) && |p| > 0 && i < |q| && q[i] == p[|p| - 1]
    ensures multiset(p[..|p| - 1]) == multiset(q[..i] + q[i + 1..])
  {
    var x := q[i];
    var a, b, p' := q[..i], q[i + 1..], p[..|p| - 1];
    assert q == a + [x] + b;
    assert p == p' + [x];
    var mx := multiset([x]);
    assert multiset(q) == multiset(a) + mx + multiset(b);
    assert multiset(a + b) == multiset(a) + multiset(b);
    assert multiset(p) == multiset(p') + mx;
    assert multiset(p') == multiset(p) - mx;
  }

  /** The total is the total without part i plus that part's value. */
  lemma FoldRemoved(q: seq<Part>, i: nat, f: Part -> Res)
    requires i < |q|
    ensures Fold(q, f) == Fold(q[..i] + q[i + 1..], f).Plus(f(q[i]))
  {
    var x := q[i];
    assert q == q[..i] + [x] + q[i + 1..];
    FoldConcat(q[..i] + [x], q[i + 1..], f);
    FoldConcat(q[..i], [x], f);
    FoldConcat(q[..i], q[i + 1..], f);
    assert [x][..0] == [];
    assert Fold([x], f) == Zero.Plus(f(x)) == f(x);
    PlusSwapLast(Fold(q[..i], f), Fold(q[i + 1..], f), f(x));
  }

  /** Parts with a tag other than 0 or 1 change nothing. */
  lemma OtherIgnored(p: seq<Part>, q: seq<Part>, tag: int)
    ensures Accumulate(p + [Other(tag)] + q) == Accumulate(p + q)
  {
    AccumulateConcat(p + [Other(tag)], q);
    AccumulateConcat(p, [Other(tag)]);
    AccumulateConcat(p, q);
    assert Accumulate([Other(tag)]) == Zero.Plus(Zero);
  }

  // ---------------------------------------------------------------------
  // Rotation

  /** The matrix [[c, s], [-s, c]] applied to (Mx, My); N is untouched. */
  function BackRotate(c: real, s: real, r: Res): Res
  {
    Res(r.n, c * r.mx + s * r.my, -s * r.mx + c * r.my)
  }

  /** With c^2 + s^2 = 1 the back rotation keeps the length of the moment
      vector, angle 0 is the identity and rotating by -angle undoes it. */
  lemma BackRotateIsRotation(c: real, s: real, r: Res)
    requires c * c + s * s == 1.0
    ensures var t := BackRotate(c, s, r);
      t.n == r.n && t.mx * t.mx + t.my * t.my == r.mx * r.mx + r.my * r.my
    ensures BackRotate(c, -s, BackRotate(c, s, r)) == r
  {
    var t := BackRotate(c, s, r);
    calc {
      t.mx * t.mx + t.my * t.my;
      (c * c + s * s) * (r.mx * r.mx) + (c * c + s * s) * (r.my * r.my);
      { assert c * c + s * s == 1.0; }
      r.mx * r.mx + r.my * r.my;
    }
    var u := BackRotate(c, -s, t);
    assert u.mx == (c * c + s * s) * r.mx;
    assert u.my == (c * c + s * s) * r.my;
  }

  lemma BackRotateIdentity(r: Res)
    ensures BackRotate(1.0, 0.0, r) == r
  {
  }

  /** Rotation is linear, so it can be applied part by part. */
  lemma BackRotatePlus(c: real, s: real, a: Res, b: Res)
    ensures BackRotate(c, s, a.Plus(b)) == BackRotate(c, s, a).Plus(BackRotate(c, s, b))
  {
  }

  /** cos and sin of atan2(kz, ky). For kappa = sqrt(ky^2 + kz^2) > 0 these
      are ky / kappa and kz / kappa; atan2(0, 0) is 0. */
  function RotationOf(ky: real, kz: real, kappa: real): (cs: (real, real))
    requires kappa >= 0.0 && kappa * kappa == ky * ky + kz * kz
    ensures cs.0 * cs.0 + cs.1 * cs.1 == 1.0
    ensures cs.0 * kappa == ky && cs.1 * kappa == kz
  {
    if kappa == 0.0 then
      SumOfSquaresZero(ky, kz);
      (1.0, 0.0)
    else
      var c, s := ky / kappa, kz / kappa;
      UnitFromScaled(c, s, kappa, ky, kz);
      (c, s)
  }

  /** Scaling a vector of length k by 1 / k gives a unit vector. */
  lemma UnitFromScaled(c: real, s: real, k: real, a: real, b: real)
    requires k > 0.0 && c * k == a && s * k == b && k * k == a * a + b * b
    ensures c * c + s * s == 1.0
  {
    var x := c * c + s * s - 1.0;
    assert (x * k) * k == (c * k) * (c * k) + (s * k) * (s * k) - k * k;
    ZeroProduct(x * k, k);
    ZeroProduct(x, k);
  }

  /** The rotated curvature vector points along the rotated axis: the
      curvature (ky, kz) turned by -angle is (kappa, 0). */
  lemma RotationAlignsCurvature(ky: real, kz: real, kappa: real)
    requires kappa >= 0.0 && kappa * kappa == ky * ky + kz * kz
    ensures var cs := RotationOf(ky, kz, kappa);
      cs.0 * ky + cs.1 * kz == kappa && -cs.1 * ky + cs.0 * kz == 0.0
  {
    var cs := RotationOf(ky, kz, kappa);
    var c, s := cs.0, cs.1;
    assert c * ky + s * kz == (c * c + s * s) * kappa;
    assert -s * ky + c * kz == (-s * c + c * s) * kappa;
  }

  // ---------------------------------------------------------------------
  // Input preparation: cuts and bars

  /** True when x lies between a and b, in whichever order they come. */
  predicate Between(x: real, a: real, b: real)
  {
    (a <= x <= b) || (b <= x <= a)
  }

  /** The strain of the rotated plane at height z. */
  function StrainAt(eps0: real, kappa: real, z: real): real
  {
    eps0 - kappa * z
  }

  /** The heights at which the strain reaches the two limits of a strain
      band, in increasing order. A zero curvature divides by zero. */
  function CutCoordinates(eps0: real, kappa: real, low: real, high: real): (r: Result<(real, real)>)
    ensures r.Err? <==> kappa == 0.0
    ensures r.Err? ==> r.error == ZeroDivisionError
    ensures r.Ok? ==> r.value.0 <= r.value.1
  {
    if kappa == 0.0 then Err(ZeroDivisionError)
    else
      var z0, z1 := (eps0 - low) / kappa, (eps0 - high) / kappa;
      if z0 > z1 then Ok((z1, z0)) else Ok((z0, z1))
  }

  /** The strip between the two cut heights is exactly where the strain
      lies in the band. */
  lemma CutBand(eps0: real, kappa: real, low: real, high: real, z: real)
    requires kappa > 0.0
    ensures var r := CutCoordinates(eps0, kappa, low, high);
      r.Ok? && (Between(StrainAt(eps0, kappa, z), low, high) <==> r.value.0 <= z <= r.value.1)
  {
    AtCut(eps0, kappa, low, z);
    AtCut(eps0, kappa, high, z);
  }

  /** z is below the height of limit t exactly when the strain at z is at
      least t. */
  lemma AtCut(eps0: real, kappa: real, t: real, z: real)
    requires kappa > 0.0
    ensures z <= (eps0 - t) / kappa <==> t <= StrainAt(eps0, kappa, z)
    ensures z >= (eps0 - t) / kappa <==> t >= StrainAt(eps0, kappa, z)
  {
    var h := (eps0 - t) / kappa;
    assert h * kappa == eps0 - t;
    assert StrainAt(eps0, kappa, z) - t == (h - z) * kappa by {
      Distribute(h, z, kappa);
    }
    SignOfProduct(h - z, kappa);
  }

  lemma Distribute(h: real, z: real, k: real)
    ensures (h - z) * k == h * k - k * z
  {
  }

  lemma SignOfProduct(x: real, k: real)
    requires k > 0.0
    ensures x >= 0.0 <==> x * k >= 0.0
    ensures x <= 0.0 <==> x * k <= 0.0
  {
  }

  /** A point geometry of the rotated section: where the bar sits, how
      large its cross-section is, and the stress law of its own material. */
  datatype BarSite = BarSite(at: Pt, area: real, stress: real -> real)

  /** The bars of the prepared input: each bar's force is the stress its
      own material gives at the strain of its height, times its area. */
  function PrepareBars(eps0: real, kappa: real, sites: seq<BarSite>): (bars: seq<Bar>)
    ensures |bars| == |sites|
    ensures forall i :: 0 <= i < |sites| ==> bars[i].at == sites[i].at
  {
    seq(|sites|, i requires 0 <= i < |sites| =>
      Bar(sites[i].at, sites[i].stress(StrainAt(eps0, kappa, sites[i].at.z)) * sites[i].area))
  }

  /** Bars are prepared one site at a time, so the sites may be grouped
      freely, for instance by material. */
  lemma PrepareBarsConcat(eps0: real, kappa: real, a: seq<BarSite>, b: seq<BarSite>)
    ensures PrepareBars(eps0, kappa, a + b) == PrepareBars(eps0, kappa, a) + PrepareBars(eps0, kappa, b)
  {
    var whole, pa, pb := PrepareBars(eps0, kappa, a + b), PrepareBars(eps0, kappa, a), PrepareBars(eps0, kappa, b);
    forall i | 0 <= i < |whole|
      ensures whole[i] == (pa + pb)[i]
    {
      if i < |a| {
        assert (a + b)[i] == a[i];
      } else {
        assert (a + b)[i] == b[i - |a|];
      }
    }
  }

  /** The bar resultant of two groups of sites, each possibly of a different
      material, is the sum of the groups' resultants. */
  lemma MixedMaterialBars(eps0: real, kappa: real, a: seq<BarSite>, b: seq<BarSite>)
    ensures BarsContribution(PrepareBars(eps0, kappa, a + b))
         == BarsContribution(PrepareBars(eps0, kappa, a)).Plus(BarsContribution(PrepareBars(eps0, kappa, b)))
  {
    PrepareBarsConcat(eps0, kappa, a, b);
    BarsConcat(PrepareBars(eps0, kappa, a), PrepareBars(eps0, kappa, b));
  }

  /** Area, first moment in z and first moment in y of the bar sites. */
  function SiteMoments(sites: seq<BarSite>): Res
  {
    if |sites| == 0 then Zero
    else SiteMoments(sites[..|sites| - 1]).Plus(SiteRes(sites[|sites| - 1]))
  }

  /** A site's area and its first moments about the two axes. */
  function SiteRes(site: BarSite): Res
  {
    Res(site.area, site.area * site.at.z, site.area * site.at.y)
  }

  /** Under zero curvature every bar is at the strain eps0; when all the
      sites' materials give the same stress f there (one material for all
      bars, say), the bar resultant is f times the sites' area moments. */
  lemma {:induction false} UniformStrainBars(eps0: real, sites: seq<BarSite>, f: real)
    requires forall i :: 0 <= i < |sites| ==> sites[i].stress(eps0) == f
    ensures BarsContribution(PrepareBars(eps0, 0.0, sites))
         == Scaled(f, SiteMoments(sites))
  {
    var bars := PrepareBars(eps0, 0.0, sites);
    forall i | 0 <= i < |sites|
      ensures bars[i] == ProportionalBar(f, sites[i])
    {
      assert StrainAt(eps0, 0.0, sites[i].at.z) == eps0;
    }
    ProportionalBars(bars, sites, f);
  }

  /** A bar at the site carrying f times the site's area. */
  function ProportionalBar(f: real, site: BarSite): Bar
  {
    Bar(site.at, f * site.area)
  }

  /** Bars whose forces are f times the site areas have f times the
      sites' area moments as their resultant. */
  lemma {:induction false} ProportionalBars(bars: seq<Bar>, sites: seq<BarSite>, f: real)
    requires |bars| == |sites|
    requires forall i :: 0 <= i < |sites| ==> bars[i] == ProportionalBar(f, sites[i])
    ensures BarsContribution(bars) == Scaled(f, SiteMoments(sites))
  {
    if |sites| > 0 {
      var n := |sites|;
      var b, pre, front := sites[n - 1], sites[..n - 1], bars[..n - 1];
      forall i | 0 <= i < n - 1
        ensures front[i] == ProportionalBar(f, pre[i])
      {
        assert front[i] == bars[i] && pre[i] == sites[i];
      }
      ProportionalBars(front, pre, f);
      ProportionalStep(bars, sites, f, BarsContribution(front), SiteMoments(pre));
    } else {
      assert Scaled(f, Zero) == Zero;
    }
  }

  /** The induction step of ProportionalBars, with the two prefix sums as
      plain values. */
  lemma {:induction false} ProportionalStep(bars: seq<Bar>, sites: seq<BarSite>, f: real, front: Res, pre: Res)
    requires |bars| == |sites| > 0
    requires bars[|sites| - 1] == ProportionalBar(f, sites[|sites| - 1])
    requires front == BarsContribution(bars[..|bars| - 1])
    requires pre == SiteMoments(sites[..|sites| - 1])
    requires front == Scaled(f, pre)
    ensures BarsContribution(bars) == Scaled(f, SiteMoments(sites))
  {
    var b := sites[|sites| - 1];
    var r := SiteRes(b);
    var last := BarRes(bars[|bars| - 1]);
    assert BarsContribution(bars) == front.Plus(last);
    assert SiteMoments(sites) == pre.Plus(r);
    assert last == Scaled(f, r) by {
      BarResScaled(b, f);
    }
    ScaledStep(BarsContribution(bars), front, last, SiteMoments(sites), pre, r, f);
  }

  /** Adding one scaled term to a scaled sum keeps the sum scaled. */
  lemma ScaledStep(total: Res, front: Res, last: Res, sum: Res, pre: Res, r: Res, f: real)
    requires total == front.Plus(last) && sum == pre.Plus(r)
    requires front == Scaled(f, pre) && last == Scaled(f, r)
    ensures total == Scaled(f, sum)
  {
    ScaledPlus(f, pre, r);
  }

  lemma BarResScaled(site: BarSite, f: real)
    ensures BarRes(ProportionalBar(f, site)) == Scaled(f, SiteRes(site))
  {
    MulAssoc3(f, site.area, site.at.z);
    MulAssoc3(f, site.area, site.at.y);
  }

  /** A resultant with every component multiplied by f. */
  function Scaled(f: real, r: Res): Res
  {
    Res(f * r.n, f * r.mx, f * r.my)
  }

  lemma ScaledPlus(f: real, a: Res, b: Res)
    ensures Scaled(f, a).Plus(Scaled(f, b)) == Scaled(f, a.Plus(b))
  {
  }

  lemma MulAssoc3(x: real, y: real, z: real)
    ensures x * y * z == x * (y * z)
  {
  }

  /** A polygon produced by splitting at the cuts: a counter-clockwise
      exterior ring and clockwise hole rings, each closed. */
  datatype Polygon = Polygon(exterior: seq<Pt>, holes: seq<seq<Pt>>)

  /** The surface parts of one polygon: the exterior first, then every
      hole, all with the same stress coefficients. */
  function PolygonParts(poly: Polygon, coeffs: seq<real>): (parts: seq<Part>)
    ensures |parts| == 1 + |poly.holes|
    ensures parts[0] == Surface(poly.exterior, coeffs)
    ensures forall i :: 0 <= i < |poly.holes| ==> parts[i + 1] == Surface(poly.holes[i], coeffs)
  {
    [Surface(poly.exterior, coeffs)]
      + seq(|poly.holes|, i requires 0 <= i < |poly.holes| => Surface(poly.holes[i], coeffs))
  }

  /** The contribution of a polygon with holes: the exterior's plus the
      holes', each hole entering with its own (clockwise, so negative)
      orientation. */
  function HolesContribution(holes: seq<seq<Pt>>, coeffs: seq<real>): Res
  {
    if |holes| == 0 then Zero
    else HolesContribution(holes[..|holes| - 1], coeffs).Plus(SurfaceContribution(holes[|holes| - 1], coeffs))
  }

  lemma {:induction false} PolygonPartsContribution(poly: Polygon, coeffs: seq<real>)
    ensures Accumulate(PolygonParts(poly, coeffs))
         == SurfaceContribution(poly.exterior, coeffs).Plus(HolesContribution(poly.holes, coeffs))
    decreases |poly.holes|
  {
    var hs := poly.holes;
    var parts := PolygonParts(poly, coeffs);
    var e := SurfaceContribution(poly.exterior, coeffs);
    if |hs| == 0 {
      assert parts[..0] == [];
      AccumulateSnoc(parts);
    } else {
      var init := Polygon(poly.exterior, hs[..|hs| - 1]);
      var h := SurfaceContribution(hs[|hs| - 1], coeffs);
      PolygonPartsContribution(init, coeffs);
      assert parts[..|hs|] == PolygonParts(init, coeffs);
      AccumulateSnoc(parts);
      PlusAssoc(e, HolesContribution(init.holes, coeffs), h);
    }
  }

  /** One strain band of one geometry: the strain limits and stress
      coefficients that the material supplies for it, and the polygons
      that splitting the geometry at its two cut lines returns. */
  datatype Band = Band(low: real, high: real, coeffs: seq<real>, pieces: seq<Polygon>)

  function PiecesParts(pieces: seq<Polygon>, coeffs: seq<real>): seq<Part>
  {
    if |pieces| == 0 then []
    else PiecesParts(pieces[..|pieces| - 1], coeffs) + PolygonParts(pieces[|pieces| - 1], coeffs)
  }

  /** The surface parts of all bands, in order; the first band needing a
      cut under zero curvature stops the preparation. */
  function BandsParts(eps0: real, kappa: real, bands: seq<Band>): (r: Result<seq<Part>>)
    ensures r.Err? <==> (kappa == 0.0 && |bands| > 0)
    ensures r.Ok? ==> forall p | p in r.value :: p.Surface?
  {
    if |bands| == 0 then Ok([])
    else
      var done :- BandsParts(eps0, kappa, bands[..|bands| - 1]);
      var b := bands[|bands| - 1];
      var _ :- CutCoordinates(eps0, kappa, b.low, b.high);
      PiecesAreSurfaces(b.pieces, b.coeffs);
      Ok(done + PiecesParts(b.pieces, b.coeffs))
  }

  lemma {:induction false} PiecesAreSurfaces(pieces: seq<Polygon>, coeffs: seq<real>)
    ensures forall p | p in PiecesParts(pieces, coeffs) :: p.Surface?
  {
    if |pieces| > 0 {
      PiecesAreSurfaces(pieces[..|pieces| - 1], coeffs);
    }
  }

  /** The whole prepared input: the surface parts of every band followed by
      one reinforcement part holding every bar (present even when there
      are no bars). */
  function PrepareInput(eps0: real, kappa: real, bands: seq<Band>, sites: seq<BarSite>)
    : (r: Result<seq<Part>>)
    ensures r.Err? <==> (kappa == 0.0 && |bands| > 0)
    ensures r.Ok? ==> |r.value| >= 1 && r.value[|r.value| - 1] == Reinforcement(PrepareBars(eps0, kappa, sites))
    ensures r.Ok? ==> forall i :: 0 <= i < |r.value| - 1 ==> r.value[i].Surface?
  {
    var surfaces :- BandsParts(eps0, kappa, bands);
    Ok(surfaces + [Reinforcement(PrepareBars(eps0, kappa, sites))])
  }

  /** The resultant of a prepared input is the surfaces' part plus the
      bars' part. */
  lemma PreparedResultant(eps0: real, kappa: real, bands: seq<Band>, sites: seq<BarSite>)
    requires kappa != 0.0
    ensures var r := PrepareInput(eps0, kappa, bands, sites);
      r.Ok? && Accumulate(r.value)
        == Accumulate(BandsParts(eps0, kappa, bands).value).Plus(BarsContribution(PrepareBars(eps0, kappa, sites)))
  {
    var surfaces := BandsParts(eps0, kappa, bands).value;
    var parts := surfaces + [Reinforcement(PrepareBars(eps0, kappa, sites))];
    assert parts[..|parts| - 1] == surfaces;
    AccumulateSnoc(parts);
  }

  // ---------------------------------------------------------------------
  // The integration loop

  /** One list comprehension of a surface part and its sum: the moments
      of orders (m, k + dn) for k below the number of coefficients, each
      weighted by its coefficient. */
  method WeightedMoments(ring: seq<Pt>, coeffs: seq<real>, m: nat, dn: nat, cache0: map<CoeffKey, nat>)
    returns (w: real, cache: map<CoeffKey, nat>)
    requires CacheSound(cache0)
    ensures w == Weighted(ring, coeffs, m, dn)
    ensures CacheSound(cache)
  {
    cache := cache0;
    w := 0.0;
    for k := 0 to |coeffs|
      invariant w == Sum(k, CoeffMoments(ring, coeffs, m, dn))
      invariant CacheSound(cache)
    {
      var moment;
      moment, cache := MarinIntegration(ring, m, k + dn, cache);
      WeightedStep(ring, coeffs, m, dn, k, w, moment);
      w := w + coeffs[k] * moment;
    }
  }

  lemma WeightedStep(ring: seq<Pt>, coeffs: seq<real>, m: nat, dn: nat, k: nat, acc: real, moment: real)
    requires k < |coeffs| && acc == Sum(k, CoeffMoments(ring, coeffs, m, dn))
    requires moment == Moment(ring, m, k + dn)
    ensures acc + coeffs[k] * moment == Sum(k + 1, CoeffMoments(ring, coeffs, m, dn))
  {
    var f := CoeffMoments(ring, coeffs, m, dn);
    assert f(k) == coeffs[k] * moment;
    SumStep(k, f, acc, coeffs[k] * moment);
  }

  /** The three sums of a surface part: N, Mx and My in turn. */
  method SurfaceMoments(ring: seq<Pt>, coeffs: seq<real>, cache0: map<CoeffKey, nat>)
    returns (r: Res, cache: map<CoeffKey, nat>)
    requires CacheSound(cache0)
    ensures r == SurfaceContribution(ring, coeffs)
    ensures CacheSound(cache)
  {
    var n, mx, my;
    n, cache := WeightedMoments(ring, coeffs, 0, 0, cache0);
    mx, cache := WeightedMoments(ring, coeffs, 0, 1, cache);
    my, cache := WeightedMoments(ring, coeffs, 1, 0, cache);
    r := Res(n, mx, my);
  }

  /** The sums over the bars of a reinforcement part. */
  method BarSums(bars: seq<Bar>) returns (r: Res)
    ensures r == BarsContribution(bars)
  {
    var n, mx, my := 0.0, 0.0, 0.0;
    for i := 0 to |bars|
      invariant Res(n, mx, my) == BarsContribution(bars[..i])
    {
      assert bars[..i + 1][..i] == bars[..i];
      n, mx, my := n + bars[i].force, mx + bars[i].force * bars[i].at.z, my + bars[i].force * bars[i].at.y;
    }
    assert bars[..|bars|] == bars;
    r := Res(n, mx, my);
  }

  /** The moments of one part, as the integrator's loop body computes them. */
  method PartMoments(part: Part, cache0: map<CoeffKey, nat>) returns (d: Res, cache: map<CoeffKey, nat>)
    requires CacheSound(cache0)
    ensures d == Contribution(part)
    ensures CacheSound(cache)
  {
    cache := cache0;
    d := Zero;
    match part {
      case Surface(ring, coeffs) =>
        d, cache := SurfaceMoments(ring, coeffs, cache);
      case Reinforcement(bars) =>
        d := BarSums(bars);
      case Other(_) =>
    }
  }

  /** `MarinIntegrator.integrate`: accumulate every part, then rotate the
      moments back by the angle whose cosine and sine are c and s. */
  method Integrate(c: real, s: real, parts: seq<Part>, cache0: map<CoeffKey, nat>)
    returns (r: Res, cache: map<CoeffKey, nat>)
    requires CacheSound(cache0)
    ensures r == BackRotate(c, s, Accumulate(parts))
    ensures CacheSound(cache)
  {
    cache := cache0;
    var n, mx, my := 0.0, 0.0, 0.0;
    for i := 0 to |parts|
      invariant Res(n, mx, my) == Accumulate(parts[..i])
      invariant CacheSound(cache)
    {
      assert parts[..i + 1][..i] == parts[..i];
      var d;
      d, cache := PartMoments(parts[i], cache);
      n, mx, my := n + d.n, mx + d.mx, my + d.my;
    }
    assert parts[..|parts|] == parts;
    r := Res(n, c * mx + s * my, -s * mx + c * my);
  }

  // ---------------------------------------------------------------------
  // The integrator factory

  /** Integrator classes are identified by name. */
  const MarinIntegrator: string := "MarinIntegrator"

  const IntegratorRegistry: map<string, string> := map["Marin" := MarinIntegrator]

  /** The factory's cache of created integrators and its registry. */
  datatype Factory = Factory(instances: map<string, string>, registry: map<string, string>)

  function NewFactory(registry: map<string, string>): (f: Factory)
    ensures f.instances == map[] && f.registry == registry
  {
    Factory(map[], registry)
  }

  /** The registry's entry for a name, falling back to the Marin integrator. */
  function Registered(registry: map<string, string>, name: string): string
  {
    if name in registry then registry[name] else MarinIntegrator
  }

  /** `IntegratorFactory.__call__`: `setdefault` of the registered class,
      then the stored entry. Returns the new factory state and the result. */
  function Call(f: Factory, name: string): (r: (Factory, string))
    ensures r.0.registry == f.registry
    ensures name in r.0.instances && r.0.instances[name] == r.1
    ensures name in f.instances ==> r == (f, f.instances[name])
    ensures name !in f.instances ==> r.1 == Registered(f.registry, name)
    ensures forall k | k in f.instances :: k in r.0.instances && r.0.instances[k] == f.instances[k]
    ensures forall k | k in r.0.instances :: k in f.instances || k == name
  {
    var instances := if name in f.instances then f.instances
                     else f.instances[name := Registered(f.registry, name)];
    (Factory(instances, f.registry), instances[name])
  }

  /** Every cached entry agrees with the registry (with its fallback). */
  predicate Consistent(f: Factory)
  {
    forall k | k in f.instances :: f.instances[k] == Registered(f.registry, k)
  }

  /** While the registry is left alone, a call returns exactly the
      registered class for the name, and the cache stays consistent. */
  lemma CallConsistent(f: Factory, name: string)
    requires Consistent(f)
    ensures Consistent(Call(f, name).0)
    ensures Call(f, name).1 == Registered(f.registry, name)
  {
  }

  /** A second call with the same name returns the same integrator and
      leaves the factory unchanged. */
  lemma CallIdempotent(f: Factory, name: string)
    ensures var (g, a) := Call(f, name); Call(g, name) == (g, a)
  {
  }

  /** Unknown names silently get the Marin integrator. */
  lemma UnknownNameFallsBack(name: string)
    requires name != "Marin"
    ensures Call(NewFactory(IntegratorRegistry), name).1 == MarinIntegrator
    ensures Call(NewFactory(IntegratorRegistry), "Marin").1 == MarinIntegrator
  {
  }
}
