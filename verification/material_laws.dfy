/** The constitutive laws of `materials/constitutive_laws.py`: elastic,
    elastic-plastic, parabola-rectangle and user-defined (a tabulated curve
    read by linear interpolation). Stresses are evaluated for one strain;
    the source's numpy arrays are element-wise, so one element says all. */
module MaterialLaws {
  import opened Results
  import opened Sums
  import opened CoreBase

  /** The parameters a law keeps after construction. */
  datatype Law =
    | Elastic(e: real)
    | ElasticPlastic(e: real, fy: real, eh: real, epsSu: Option<real>, epsSy: real)
    | ParabolaRectangle(fc: real, eps0: real, epsu: real, n: nat)
    | UserDefined(xs: seq<real>, ys: seq<real>)

  /** A constructed law: the base-class header (id and name) and its parameters. */
  datatype Instance = Instance(header: LawHeader, law: Law)

  /** The classes of this module, each with its own id counter, named by
      module so that they are not confused with the same-named classes of
      the older module. */
  const ElasticClass := "materials.constitutive_laws.Elastic"
  const ElasticPlasticClass := "materials.constitutive_laws.ElasticPlastic"
  const ParabolaRectangleClass := "materials.constitutive_laws.ParabolaRectangle"
  const UserDefinedClass := "materials.constitutive_laws.UserDefined"

  // ---------------------------------------------------------------------
  // Constructors

  /** `Elastic.__init__`: the default name is "ElasticLaw". */
  function NewElastic(c: Counters, e: real, name: Option<string> := None): (r: (Instance, Counters))
    ensures r.0.law == Elastic(e)
    ensures r.0.header.id == Current(c, ElasticClass)
    ensures r.0.header.name == if name.Some? then name.value else "ElasticLaw"
    ensures Current(r.1, ElasticClass) == Current(c, ElasticClass) + 1
  {
    var (h, c1) := NewLaw(c, ElasticClass, Some(name.GetOr("ElasticLaw")));
    (Instance(h, Elastic(e)), c1)
  }

  /** `ElasticPlastic.__init__`: the hardening modulus defaults to 0 and the
      yield strain is fy / E. The base constructor has already taken an id
      when the division fails on E = 0, so the counter moves either way. */
  function NewElasticPlastic(c: Counters, e: real, fy: real, eh: Option<real> := None,
                             epsSu: Option<real> := None, name: Option<string> := None)
    : (r: (Result<Instance>, Counters))
    ensures r.0.Err? <==> e == 0.0
    ensures r.0.Err? ==> r.0.error == ZeroDivisionError
    ensures r.0.Ok? ==> (r.0.value.law.ElasticPlastic?
      && r.0.value.law.e == e && r.0.value.law.fy == fy && r.0.value.law.epsSu == epsSu
      && r.0.value.law.epsSy * e == fy
      && r.0.value.law.eh == (if eh.Some? then eh.value else 0.0)
      && r.0.value.header.name == (if name.Some? then name.value else "ElasticPlasticLaw"))
    ensures Current(r.1, ElasticPlasticClass) == Current(c, ElasticPlasticClass) + 1
  {
    var (h, c1) := NewLaw(c, ElasticPlasticClass, Some(name.GetOr("ElasticPlasticLaw")));
    if e == 0.0 then (Err(ZeroDivisionError), c1)
    else (Ok(Instance(h, ElasticPlastic(e, fy, eh.GetOr(0.0), epsSu, fy / e))), c1)
  }

  /** `ParabolaRectangle.__init__`: the strength and both strains are stored
      as non-positive numbers of the given magnitudes; the defaults are
      eps_0 = -0.002, eps_u = -0.0035 and exponent 2. */
  function NewParabolaRectangle(c: Counters, fc: real, eps0: real := -0.002, epsu: real := -0.0035,
                                n: nat := 2, name: Option<string> := None): (r: (Instance, Counters))
    ensures r.0.law.ParabolaRectangle? && r.0.law.n == n
    ensures r.0.law.fc <= 0.0 && (r.0.law.fc == fc || r.0.law.fc == -fc)
    ensures r.0.law.eps0 <= 0.0 && (r.0.law.eps0 == eps0 || r.0.law.eps0 == -eps0)
    ensures r.0.law.epsu <= 0.0 && (r.0.law.epsu == epsu || r.0.law.epsu == -epsu)
    ensures r.0.header.name == if name.Some? then name.value else "ParabolaRectangleLaw"
    ensures Current(r.1, ParabolaRectangleClass) == Current(c, ParabolaRectangleClass) + 1
  {
    var (h, c1) := NewLaw(c, ParabolaRectangleClass, Some(name.GetOr("ParabolaRectangleLaw")));
    (Instance(h, ParabolaRectangle(-Abs(fc), -Abs(eps0), -Abs(epsu), n)), c1)
  }

  predicate HasNegative(x: seq<real>)
  {
    exists i :: 0 <= i < |x| && x[i] < 0.0
  }

  function Negate(x: seq<real>): (r: seq<real>)
    ensures |r| == |x|
    ensures forall i :: 0 <= i < |x| ==> r[i] == -x[i]
  {
    seq(|x|, i requires 0 <= i < |x| => -x[i])
  }

  /** The table extended to negative strains by point reflection:
      the negated, reversed table followed by the table itself. */
  function Mirror(x: seq<real>): seq<real>
  {
    Negate(Reverse(x)) + x
  }

  /** `UserDefined.__init__`: tables of different lengths are rejected; a
      table without negative strains is mirrored, any other kept as given. */
  function NewUserDefined(c: Counters, x: seq<real>, y: seq<real>, name: Option<string> := None)
    : (r: (Result<Instance>, Counters))
    ensures r.0.Err? <==> |x| != |y|
    ensures r.0.Err? ==> r.0.error == ValueError("The two arrays should have the same length")
    ensures r.0.Ok? ==> (r.0.value.law.UserDefined?
      && |r.0.value.law.xs| == |r.0.value.law.ys|
      && (HasNegative(x) ==> r.0.value.law.xs == x && r.0.value.law.ys == y)
      && (!HasNegative(x) ==> (|r.0.value.law.xs| == 2 * |x|
            && r.0.value.law.xs[|x|..] == x && r.0.value.law.ys[|y|..] == y
            && Antisymmetric(r.0.value.law.xs, r.0.value.law.ys))))
    ensures Current(r.1, UserDefinedClass) == Current(c, UserDefinedClass) + 1
  {
    var (h, c1) := NewLaw(c, UserDefinedClass, Some(name.GetOr("UserDefinedLaw")));
    if |x| != |y| then (Err(ValueError("The two arrays should have the same length")), c1)
    else if !HasNegative(x) then
      assert Antisymmetric(Mirror(x), Mirror(y)) by { MirrorAntisymmetric(x, y); }
      (Ok(Instance(h, UserDefined(Mirror(x), Mirror(y)))), c1)
    else (Ok(Instance(h, UserDefined(x, y))), c1)
  }

  // ---------------------------------------------------------------------
  // Stress and tangent

  /** The strains at which a law's stress is a number: E = 0 cannot survive
      construction, a parabola with eps_0 = 0 is 0/0 at zero strain, and the
      interpolation table must be non-empty (numpy raises on an empty one;
      see GetStress) and sorted by strain (which numpy assumes of its
      caller without checking). */
  predicate StressDefined(law: Law, eps: real)
  {
    match law
    case Elastic(_) => true
    case ElasticPlastic(e, _, _, _, _) => e != 0.0
    case ParabolaRectangle(_, eps0, _, _) => eps0 != 0.0 || eps != 0.0
    case UserDefined(xs, ys) => |xs| == |ys| && |xs| > 0 && Sorted(xs)
  }

  function Stress(law: Law, eps: real): real
    requires StressDefined(law, eps)
  {
    match law
    case Elastic(e) => e * eps
    case ElasticPlastic(e, fy, eh, epsSu, _) => ElasticPlasticStress(e, fy, eh, epsSu, eps)
    case ParabolaRectangle(fc, eps0, epsu, n) => ParabolaRectangleStress(fc, eps0, epsu, n, eps)
    case UserDefined(xs, ys) => Interp(eps, xs, ys)
  }

  /** The message numpy's interpolation raises for an empty sample table. */
  const EmptyTableMessage := "array of sample points is empty"

  /** `get_stress` with its error path: a user-defined law with an empty
      table, which its constructor accepts, raises ValueError; every other
      law returns its stress. */
  function GetStress(law: Law, eps: real): (r: Result<real>)
    requires law.ElasticPlastic? ==> law.e != 0.0
    requires law.ParabolaRectangle? ==> law.eps0 != 0.0 || eps != 0.0
    requires law.UserDefined? ==> |law.xs| == |law.ys| && Sorted(law.xs)
    ensures r.Err? <==> law.UserDefined? && |law.xs| == 0
    ensures r.Err? ==> r.error == ValueError(EmptyTableMessage)
    ensures r.Ok? ==> StressDefined(law, eps) && r.value == Stress(law, eps)
  {
    if law.UserDefined? && |law.xs| == 0 then Err(ValueError(EmptyTableMessage))
    else Ok(Stress(law, eps))
  }

  /** Empty tables pass the constructor's length check and mirror to empty
      tables, so the failure only comes with the first stress request. */
  lemma EmptyTableRaises(c: Counters, eps: real)
    ensures var (r, _) := NewUserDefined(c, [], []);
      r.Ok? && r.value.law == UserDefined([], [])
      && GetStress(r.value.law, eps) == Err(ValueError(EmptyTableMessage))
  {
    assert !HasNegative([]);
    assert Mirror([]) == [];
  }

  /** `get_tangent`: E for the elastic law; Eh beyond the yield strain (with
      a 1e-6 tolerance) and E before it for the elastic-plastic law; a
      placeholder 0 for the parabola-rectangle and user-defined laws. */
  function Tangent(law: Law, eps: real): (t: real)
    ensures law.Elastic? ==> t == law.e
    ensures law.ParabolaRectangle? || law.UserDefined? ==> t == 0.0
    ensures law.ElasticPlastic? ==> t == law.e || t == law.eh
  {
    match law
    case Elastic(e) => e
    case ElasticPlastic(e, _, eh, _, epsSy) => if Abs(eps) - epsSy > YieldTolerance then eh else e
    case ParabolaRectangle(_, _, _, _) => 0.0
    case UserDefined(_, _) => 0.0
  }

  const YieldTolerance: real := 0.000001

  /** `get_secant` of the base class: stress over strain. */
  function Secant(law: Law, eps: real): (s: real)
    requires StressDefined(law, eps) && eps != 0.0
    ensures s * eps == Stress(law, eps)
  {
    Stress(law, eps) / eps
  }

  /** The secant of the elastic law is its modulus. */
  lemma ElasticSecant(e: real, eps: real)
    requires eps != 0.0
    ensures Secant(Elastic(e), eps) == e
  {
    assert (e * eps) / eps == e;
  }

  // ---------------------------------------------------------------------
  // Elastic-plastic

  /** `ElasticPlastic.get_stress`: the elastic stress E·eps, then the
      compression mask (stress below -fy goes onto the hardening line
      eps·Eh - delta), then the tension mask applied to the result of the
      first (above fy onto eps·Eh + delta), with delta = fy·(1 - Eh/E);
      finally strains beyond ±eps_su, if given, carry no stress. */
  function ElasticPlasticStress(e: real, fy: real, eh: real, epsSu: Option<real>, eps: real): (s: real)
    requires e != 0.0
    ensures epsSu.Some? && (eps > epsSu.value || eps < -epsSu.value) ==> s == 0.0
  {
    var delta := fy * (1.0 - eh / e);
    var s1 := e * eps;
    var s2 := if s1 < -fy then eps * eh - delta else s1;
    var s3 := if s2 > fy then eps * eh + delta else s2;
    match epsSu
    case Some(su) => if eps > su || eps < -su then 0.0 else s3
    case None => s3
  }

  /** The compression line stays at or below -fy, so the tension mask never
      fires on a value the compression mask wrote. */
  lemma CompressionLineBelowYield(e: real, fy: real, eh: real, eps: real)
    requires e > 0.0 && fy >= 0.0 && eh >= 0.0 && e * eps < -fy
    ensures eps * eh - fy * (1.0 - eh / e) <= -fy
  {
    var q := -fy / e;
    assert eps < q by {
      assert q * e == -fy;
      if eps >= q {
        MulLe(q, eps, e);
      }
    }
    MulLe(eps, q, eh);
    assert q * eh == -(fy * (eh / e));
  }

  /** Without rupture and for E > 0, fy >= 0, Eh >= 0, the stress is linear
      elastic while |E·eps| <= fy and on the hardening lines beyond. */
  lemma ElasticPlasticPiecewise(e: real, fy: real, eh: real, eps: real)
    requires e > 0.0 && fy >= 0.0 && eh >= 0.0
    ensures var s := ElasticPlasticStress(e, fy, eh, None, eps);
      var delta := fy * (1.0 - eh / e);
      (-fy <= e * eps <= fy ==> s == e * eps)
      && (e * eps > fy ==> s == eps * eh + delta)
      && (e * eps < -fy ==> s == eps * eh - delta)
  {
    if e * eps < -fy {
      CompressionLineBelowYield(e, fy, eh, eps);
    }
  }

  function Clamp(x: real, lo: real, hi: real): real
  {
    if x < lo then lo else if x > hi then hi else x
  }

  /** With no hardening the law is the elastic stress clamped to [-fy, fy]. */
  lemma PerfectlyPlasticClamps(e: real, fy: real, eps: real)
    requires e != 0.0 && fy >= 0.0
    ensures ElasticPlasticStress(e, fy, 0.0, None, eps) == Clamp(e * eps, -fy, fy)
  {
  }

  /** The law is odd in the strain, rupture included. */
  lemma ElasticPlasticOdd(e: real, fy: real, eh: real, epsSu: Option<real>, eps: real)
    requires e > 0.0 && fy >= 0.0 && eh >= 0.0
    ensures ElasticPlasticStress(e, fy, eh, epsSu, -eps) == -ElasticPlasticStress(e, fy, eh, epsSu, eps)
  {
    ElasticPlasticOddNoRupture(e, fy, eh, eps);
    WithRupture(e, fy, eh, epsSu, eps);
    WithRupture(e, fy, eh, epsSu, -eps);
  }

  lemma ElasticPlasticOddNoRupture(e: real, fy: real, eh: real, eps: real)
    requires e > 0.0 && fy >= 0.0 && eh >= 0.0
    ensures ElasticPlasticStress(e, fy, eh, None, -eps) == -ElasticPlasticStress(e, fy, eh, None, eps)
  {
    var x, h := e * eps, eps * eh;
    ElasticPlasticPiecewise(e, fy, eh, eps);
    ElasticPlasticPiecewise(e, fy, eh, -eps);
    assert e * -eps == -x;
    assert -eps * eh == -h;
  }

  /** A rupture strain zeroes the stress outside it and changes nothing
      inside. */
  lemma WithRupture(e: real, fy: real, eh: real, epsSu: Option<real>, eps: real)
    requires e != 0.0
    ensures ElasticPlasticStress(e, fy, eh, epsSu, eps)
         == if epsSu.Some? && (eps > epsSu.value || eps < -epsSu.value) then 0.0
            else ElasticPlasticStress(e, fy, eh, None, eps)
  {
  }

  /** Inside the yield strains the stress is E·eps and the tangent E, so the
      tangent is the slope between any two such strains. */
  lemma ElasticBranchSlope(e: real, fy: real, eh: real, a: real, b: real)
    requires e > 0.0 && fy >= 0.0 && eh >= 0.0
    requires -fy / e <= a <= fy / e && -fy / e <= b <= fy / e
    ensures var law := ElasticPlastic(e, fy, eh, None, fy / e);
      Stress(law, a) == e * a && Tangent(law, a) == e
      && Stress(law, b) - Stress(law, a) == Tangent(law, a) * (b - a)
  {
    WithinYield(e, fy, a);
    WithinYield(e, fy, b);
    ElasticPlasticPiecewise(e, fy, eh, a);
    ElasticPlasticPiecewise(e, fy, eh, b);
  }

  lemma WithinYield(e: real, fy: real, a: real)
    requires e > 0.0 && fy >= 0.0
    requires -fy / e <= a <= fy / e
    ensures -fy <= e * a <= fy && Abs(a) - fy / e <= 0.0
  {
    assert (fy / e) * e == fy;
    assert (-fy / e) * e == -fy;
    assert -fy / e == -(fy / e);
    MulLe(-fy / e, a, e);
    MulLe(a, fy / e, e);
  }

  /** Beyond the yield strain plus the tolerance, in tension, the stress is
      on the hardening line and the tangent Eh is its slope. Between the
      yield strain and the tolerance the tangent is still E while the stress
      already follows the hardening line. */
  lemma TensionBranchSlope(e: real, fy: real, eh: real, a: real, b: real)
    requires e > 0.0 && fy >= 0.0 && eh >= 0.0
    requires a - fy / e > YieldTolerance && b - fy / e > YieldTolerance
    ensures var law := ElasticPlastic(e, fy, eh, None, fy / e);
      Stress(law, a) == a * eh + fy * (1.0 - eh / e) && Tangent(law, a) == eh
      && Stress(law, b) - Stress(law, a) == Tangent(law, a) * (b - a)
  {
    BeyondYield(e, fy, a);
    BeyondYield(e, fy, b);
    ElasticPlasticPiecewise(e, fy, eh, a);
    ElasticPlasticPiecewise(e, fy, eh, b);
  }

  /** Just past yield, within the tolerance of `get_tangent`, the stress is
      already on the hardening line while the tangent is still E: there the
      tangent is not the slope of the stress unless Eh = E. */
  lemma TangentLagsInYieldBand(e: real, fy: real, eh: real, eps: real)
    requires e > 0.0 && fy >= 0.0 && eh >= 0.0
    requires fy / e < eps <= fy / e + YieldTolerance
    ensures var law := ElasticPlastic(e, fy, eh, None, fy / e);
      Tangent(law, eps) == e && Stress(law, eps) == eps * eh + fy * (1.0 - eh / e)
  {
    assert (fy / e) * e == fy;
    MulPositive(eps - fy / e, e);
    ElasticPlasticPiecewise(e, fy, eh, eps);
  }

  lemma BeyondYield(e: real, fy: real, a: real)
    requires e > 0.0 && fy >= 0.0
    requires a - fy / e > YieldTolerance
    ensures e * a > fy && Abs(a) - fy / e > YieldTolerance
  {
    assert (fy / e) * e == fy;
    assert fy / e >= 0.0;
    MulPositive(a - fy / e, e);
  }

  /** The same in compression: beyond minus the yield strain minus the
      tolerance the tangent Eh is the slope of the stress. */
  lemma CompressionBranchSlope(e: real, fy: real, eh: real, a: real, b: real)
    requires e > 0.0 && fy >= 0.0 && eh >= 0.0
    requires -a - fy / e > YieldTolerance && -b - fy / e > YieldTolerance
    ensures var law := ElasticPlastic(e, fy, eh, None, fy / e);
      Stress(law, a) == a * eh - fy * (1.0 - eh / e) && Tangent(law, a) == eh
      && Stress(law, b) - Stress(law, a) == Tangent(law, a) * (b - a)
  {
    CompressionPoint(e, fy, eh, a);
    CompressionPoint(e, fy, eh, b);
  }

  lemma CompressionPoint(e: real, fy: real, eh: real, a: real)
    requires e > 0.0 && fy >= 0.0 && eh >= 0.0
    requires -a - fy / e > YieldTolerance
    ensures var law := ElasticPlastic(e, fy, eh, None, fy / e);
      Stress(law, a) == a * eh - fy * (1.0 - eh / e) && Tangent(law, a) == eh
  {
    BeyondYield(e, fy, -a);
    assert e * -a == -(e * a);
    ElasticPlasticPiecewise(e, fy, eh, a);
  }

  /** The library's own expected values for the default (perfectly
      plastic) law. */
  lemma ElasticPlasticTestValues()
    ensures var (r, _) := NewElasticPlastic(InitialCounters, 210000.0, 410.0);
      r.Ok? && Stress(r.value.law, 0.001) == 210.0 && Stress(r.value.law, 0.003) == 410.0
      && Stress(r.value.law, 0.010) == 410.0
    ensures var (r, _) := NewElasticPlastic(InitialCounters, 200000.0, 450.0);
      r.Ok? && Stress(r.value.law, 0.002) == 400.0 && Stress(r.value.law, 0.004) == 450.0
  {
  }

  // ---------------------------------------------------------------------
  // Parabola-rectangle

  function Parabola(fc: real, eps0: real, n: nat, eps: real): real
    requires eps0 != 0.0
  {
    fc * (1.0 - Pow(1.0 - eps / eps0, n))
  }

  /** `ParabolaRectangle.get_stress`: the parabola everywhere, overwritten
      in order by fc below eps_0, by 0 below eps_u and by 0 in tension; the
      last mask to match decides, so the conditions are checked here in reverse order. */
  function ParabolaRectangleStress(fc: real, eps0: real, epsu: real, n: nat, eps: real): (s: real)
    requires eps0 != 0.0 || eps != 0.0
    ensures eps > 0.0 || eps < epsu ==> s == 0.0
  {
    if eps > 0.0 then 0.0
    else if eps < epsu then 0.0
    else if eps < eps0 then fc
    else Parabola(fc, eps0, n, eps)
  }

  lemma RatioUnit(eps: real, eps0: real)
    requires eps0 < 0.0 && eps0 <= eps <= 0.0
    ensures 0.0 <= eps / eps0 <= 1.0
  {
    var q := eps / eps0;
    assert q * eps0 == eps;
    if q < 0.0 {
      MulPositive(-q, -eps0);
    }
    if q > 1.0 {
      MulPositive(q - 1.0, -eps0);
    }
  }

  lemma ScaleUnit(q: real, fc: real)
    requires 0.0 <= q <= 1.0 && fc <= 0.0
    ensures fc <= fc * q <= 0.0
  {
    MulLe(q, 1.0, -fc);
  }

  /** For a stored law (fc, eps_0 <= 0) the stress lies between fc and 0. */
  lemma ParabolaRectangleBounds(fc: real, eps0: real, epsu: real, n: nat, eps: real)
    requires fc <= 0.0 && eps0 <= 0.0 && (eps0 != 0.0 || eps != 0.0)
    ensures fc <= ParabolaRectangleStress(fc, eps0, epsu, n, eps) <= 0.0
  {
    if eps0 <= eps <= 0.0 && epsu <= eps {
      RatioUnit(eps, eps0);
      PowUnitInterval(1.0 - eps / eps0, n);
      ScaleUnit(1.0 - Pow(1.0 - eps / eps0, n), fc);
    }
  }

  lemma {:induction false} PowZero(n: nat)
    requires n >= 1
    ensures Pow(0.0, n) == 0.0
  {
  }

  lemma {:induction false} PowOne(n: nat)
    ensures Pow(1.0, n) == 1.0
  {
    if n > 0 {
      PowOne(n - 1);
    }
  }

  /** The parabola starts at zero stress for zero strain and meets the
      rectangle (stress fc) at eps_0 when the exponent is at least 1. */
  lemma ParabolaMeetsRectangle(fc: real, eps0: real, n: nat)
    requires eps0 != 0.0
    ensures Parabola(fc, eps0, n, 0.0) == 0.0
    ensures n >= 1 ==> Parabola(fc, eps0, n, eps0) == fc
  {
    PowOne(n);
    if n >= 1 {
      PowZero(n);
    }
  }

  /** The library's own expected values for the parabola-rectangle law. */
  lemma ParabolaRectangleTestValues()
    ensures var (i, _) := NewParabolaRectangle(InitialCounters, -30.0);
      Stress(i.law, 0.001) == 0.0 && Stress(i.law, -0.002) == -30.0 && Stress(i.law, -0.003) == -30.0
      && Stress(i.law, -0.004) == 0.0 && Stress(i.law, -0.001) == -22.5
    ensures var (i, _) := NewParabolaRectangle(InitialCounters, -45.0, -0.002, -0.004);
      Stress(i.law, -0.0035) == -45.0 && Stress(i.law, -0.0045) == 0.0 && Stress(i.law, -0.001) == -33.75
  {
    assert -0.001 / -0.002 == 0.5;
    assert Pow(1.0 - 0.5, 2) == 0.25;
  }

  /** The tangent is a placeholder: zero while the parabola rises. */
  lemma ParabolaTangentIsPlaceholder()
    ensures var law := ParabolaRectangle(-30.0, -0.002, -0.0035, 2);
      Tangent(law, -0.001) == 0.0 && Stress(law, -0.001) != Stress(law, -0.0005)
  {
  }

  // ---------------------------------------------------------------------
  // User-defined: numpy's linear interpolation with zero outside the table

  predicate Sorted(xs: seq<real>)
  {
    forall i, j :: 0 <= i <= j < |xs| ==> xs[i] <= xs[j]
  }

  predicate StrictlyIncreasing(xs: seq<real>)
  {
    forall i, j :: 0 <= i < j < |xs| ==> xs[i] < xs[j]
  }

  /** Repeated strains carry one stress. */
  predicate Functional(xs: seq<real>, ys: seq<real>)
    requires |xs| == |ys|
  {
    forall i :: 0 <= i < |xs| - 1 && xs[i] == xs[i + 1] ==> ys[i] == ys[i + 1]
  }

  /** The table is symmetric about the origin. */
  predicate Antisymmetric(xs: seq<real>, ys: seq<real>)
    requires |xs| == |ys|
  {
    forall i :: 0 <= i < |xs| ==> xs[|xs| - 1 - i] == -xs[i] && ys[|ys| - 1 - i] == -ys[i]
  }

  /** The last index whose strain is at most eps, or -1: what numpy's
      binary search finds in a sorted table. */
  function LastAtOrBelow(xs: seq<real>, eps: real): (j: int)
    ensures -1 <= j < |xs|
    ensures j >= 0 ==> xs[j] <= eps
    ensures forall i :: j < i < |xs| ==> xs[i] > eps
  {
    if |xs| == 0 then -1
    else if xs[|xs| - 1] <= eps then |xs| - 1
    else LastAtOrBelow(xs[..|xs| - 1], eps)
  }

  /** The straight line through table points k and k + 1, at eps. */
  function Lin(xs: seq<real>, ys: seq<real>, k: nat, eps: real): real
    requires |xs| == |ys| && k + 1 < |xs| && xs[k] < xs[k + 1]
  {
    (ys[k + 1] - ys[k]) / (xs[k + 1] - xs[k]) * (eps - xs[k]) + ys[k]
  }

  /** `np.interp(eps, xs, ys, left=0, right=0)`: zero outside the table,
      the table's stress at the last point at or below eps when that point
      is the last one or lies exactly at eps, and the line to the next
      point otherwise. */
  function Interp(eps: real, xs: seq<real>, ys: seq<real>): (s: real)
    requires |xs| == |ys| && |xs| > 0 && Sorted(xs)
    ensures eps < xs[0] || eps > xs[|xs| - 1] ==> s == 0.0
  {
    if eps < xs[0] then 0.0
    else if eps > xs[|xs| - 1] then 0.0
    else
      var j := LastAtOrBelow(xs, eps);
      if j == |xs| - 1 || xs[j] == eps then ys[j]
      else Lin(xs, ys, j, eps)
  }

  lemma {:induction false} SameStrainSameStress(xs: seq<real>, ys: seq<real>, i: nat, j: nat)
    requires |xs| == |ys| && Sorted(xs) && Functional(xs, ys)
    requires i <= j < |xs| && xs[i] == xs[j]
    ensures ys[i] == ys[j]
    decreases j - i
  {
    if i < j {
      assert xs[i] <= xs[i + 1] <= xs[j];
      SameStrainSameStress(xs, ys, i + 1, j);
    }
  }

  /** At a table strain the interpolation returns that point's stress. */
  lemma InterpAtPoint(xs: seq<real>, ys: seq<real>, i: nat)
    requires |xs| == |ys| && Sorted(xs) && Functional(xs, ys) && i < |xs|
    ensures Interp(xs[i], xs, ys) == ys[i]
  {
    var j := LastAtOrBelow(xs, xs[i]);
    assert i <= j;
    SameStrainSameStress(xs, ys, i, j);
  }

  /** Strictly between two table points the interpolation is the line
      through them. */
  lemma InterpBetween(xs: seq<real>, ys: seq<real>, k: nat, eps: real)
    requires |xs| == |ys| && Sorted(xs) && k + 1 < |xs| && xs[k] < eps < xs[k + 1]
    ensures Interp(eps, xs, ys) == Lin(xs, ys, k, eps)
  {
    var j := LastAtOrBelow(xs, eps);
    assert j == k;
  }

  lemma LinIs(xs: seq<real>, ys: seq<real>, k: nat, t: real, a: real, b: real, ya: real, yb: real)
    requires |xs| == |ys| && k + 1 < |xs| && xs[k] < xs[k + 1]
    requires xs[k] == a && xs[k + 1] == b && ys[k] == ya && ys[k + 1] == yb
    ensures Lin(xs, ys, k, t) == (yb - ya) / (b - a) * (t - a) + ya
  {
  }

  /** The line through the mirrored points (-b, -yb) and (-a, -ya) is the
      negated line: its value at -t is minus the original's value at t. */
  lemma LineMirror(a: real, b: real, ya: real, yb: real, t: real)
    requires a < b
    ensures Line(-b, -a, -yb, -ya, -t) == -Line(a, b, ya, yb, t)
  {
    var s := (yb - ya) / (b - a);
    assert s * (b - a) == yb - ya;
    assert (-ya - -yb) / (-a - -b) == s;
    assert s * (b - t) + s * (t - a) == s * (b - a);
  }

  /** Interpolating a table that is symmetric about the origin gives an odd
      curve. */
  lemma InterpOdd(xs: seq<real>, ys: seq<real>, eps: real)
    requires |xs| == |ys| && |xs| > 0 && Sorted(xs) && Functional(xs, ys) && Antisymmetric(xs, ys)
    ensures Interp(-eps, xs, ys) == -Interp(eps, xs, ys)
  {
    var n := |xs|;
    assert xs[n - 1] == -xs[0];
    if xs[0] <= eps <= xs[n - 1] {
      var j := LastAtOrBelow(xs, eps);
      if xs[j] == eps {
        InterpOddAtPoint(xs, ys, j);
      } else {
        var k := n - 2 - j;
        assert xs[k] == -xs[j + 1] && xs[k + 1] == -xs[j];
        assert ys[k] == -ys[j + 1] && ys[k + 1] == -ys[j];
        InterpOddBetween(xs, ys, j, k, eps);
      }
    }
  }

  /** At a table point the mirrored point carries the negated stress. */
  lemma InterpOddAtPoint(xs: seq<real>, ys: seq<real>, j: nat)
    requires |xs| == |ys| && j < |xs| && Sorted(xs) && Functional(xs, ys) && Antisymmetric(xs, ys)
    ensures Interp(-xs[j], xs, ys) == -Interp(xs[j], xs, ys)
  {
    var k := |xs| - 1 - j;
    assert xs[k] == -xs[j] && ys[k] == -ys[j];
    InterpAtPoint(xs, ys, j);
    InterpAtPoint(xs, ys, k);
  }

  /** Between two points of a symmetric table: the mirrored segment k
      carries the negated line. */
  lemma InterpOddBetween(xs: seq<real>, ys: seq<real>, j: nat, k: nat, eps: real)
    requires |xs| == |ys| && j + 1 < |xs| && k == |xs| - 2 - j && Sorted(xs)
    requires xs[k] == -xs[j + 1] && xs[k + 1] == -xs[j] && ys[k] == -ys[j + 1] && ys[k + 1] == -ys[j]
    requires xs[j] < eps < xs[j + 1]
    ensures Interp(-eps, xs, ys) == -Interp(eps, xs, ys)
  {
    var a, b, ya, yb := xs[j], xs[j + 1], ys[j], ys[j + 1];
    InterpOnSegment(xs, ys, j, eps, a, b, ya, yb);
    InterpOnSegment(xs, ys, k, -eps, -b, -a, -yb, -ya);
    LineMirror(a, b, ya, yb, eps);
  }

  /** The value at t of the line through (a, ya) and (b, yb). */
  function Line(a: real, b: real, ya: real, yb: real, t: real): real
    requires a < b
  {
    (yb - ya) / (b - a) * (t - a) + ya
  }

  /** Between the points (a, ya) and (b, yb) of a sorted table the
      interpolation is the line through them. */
  lemma InterpOnSegment(xs: seq<real>, ys: seq<real>, k: nat, t: real, a: real, b: real, ya: real, yb: real)
    requires |xs| == |ys| && k + 1 < |xs| && Sorted(xs)
    requires xs[k] == a && xs[k + 1] == b && ys[k] == ya && ys[k + 1] == yb && a < t < b
    ensures Interp(t, xs, ys) == Line(a, b, ya, yb, t)
  {
    InterpBetween(xs, ys, k, t);
    LinIs(xs, ys, k, t, a, b, ya, yb);
  }

  lemma MirrorAntisymmetric(x: seq<real>, y: seq<real>)
    requires |x| == |y|
    ensures |Mirror(x)| == |Mirror(y)| == 2 * |x|
    ensures Antisymmetric(Mirror(x), Mirror(y))
  {
    var mx, my := Mirror(x), Mirror(y);
    var n := |x|;
    forall i | 0 <= i < 2 * n
      ensures mx[2 * n - 1 - i] == -mx[i] && my[2 * n - 1 - i] == -my[i]
    {
      if i < n {
        assert mx[i] == -x[n - 1 - i] && mx[2 * n - 1 - i] == x[n - 1 - i];
        assert my[i] == -y[n - 1 - i] && my[2 * n - 1 - i] == y[n - 1 - i];
      } else {
        assert mx[i] == x[i - n] && mx[2 * n - 1 - i] == -x[i - n];
        assert my[i] == y[i - n] && my[2 * n - 1 - i] == -y[i - n];
      }
    }
  }

  /** Mirroring an increasing table of non-negative strains gives a sorted
      table, and one whose only repeated strain (0, when the table starts
      there) carries one stress when the table starts at zero stress. */
  lemma MirrorWellFormed(x: seq<real>, y: seq<real>)
    requires |x| == |y| && |x| > 0 && StrictlyIncreasing(x) && x[0] >= 0.0
    requires x[0] == 0.0 ==> y[0] == 0.0
    ensures Sorted(Mirror(x)) && Functional(Mirror(x), Mirror(y))
  {
    var mx, my := Mirror(x), Mirror(y);
    var n := |x|;
    assert forall i :: 0 <= i < n ==> mx[i] == -x[n - 1 - i] && mx[n + i] == x[i];
    assert forall i :: 0 <= i < n ==> my[i] == -y[n - 1 - i] && my[n + i] == y[i];
    forall i, j | 0 <= i <= j < 2 * n
      ensures mx[i] <= mx[j]
    {
      if j < n {
        assert n - 1 - j <= n - 1 - i;
        assert x[n - 1 - j] <= x[n - 1 - i];
      } else if i >= n {
        assert x[i - n] <= x[j - n];
      } else {
        assert x[0] <= x[n - 1 - i];
        assert x[0] <= x[j - n];
      }
    }
    forall i | 0 <= i < 2 * n - 1 && mx[i] == mx[i + 1]
      ensures my[i] == my[i + 1]
    {
      if i + 1 < n {
        assert false;
      } else if i >= n {
        assert false;
      } else {
        assert i == n - 1;
        assert -x[0] == x[0];
      }
    }
  }

  /** A law built from an increasing table of non-negative strains, starting
      at zero stress if it starts at zero strain, is odd in the strain. */
  lemma UserDefinedOdd(c: Counters, x: seq<real>, y: seq<real>, eps: real)
    requires |x| == |y| && |x| > 0 && StrictlyIncreasing(x) && x[0] >= 0.0
    requires x[0] == 0.0 ==> y[0] == 0.0
    ensures var (r, _) := NewUserDefined(c, x, y);
      r.Ok? && StressDefined(r.value.law, eps) && StressDefined(r.value.law, -eps)
      && Stress(r.value.law, -eps) == -Stress(r.value.law, eps)
  {
    assert !HasNegative(x) by {
      forall i | 0 <= i < |x|
        ensures x[i] >= 0.0
      {
        if i > 0 {
          assert x[0] < x[i];
        }
      }
    }
    MirrorAntisymmetric(x, y);
    MirrorWellFormed(x, y);
    InterpOdd(Mirror(x), Mirror(y), eps);
  }

  const TestTableX: seq<real> := [0.0, 0.002, 0.005]
  const TestTableY: seq<real> := [0.0, 20.0, 23.0]
  const MirroredX: seq<real> := [-0.005, -0.002, -0.0, 0.0, 0.002, 0.005]
  const MirroredY: seq<real> := [-23.0, -20.0, -0.0, 0.0, 20.0, 23.0]

  /** The library's test table has no negative strain, so it is mirrored. */
  lemma UserDefinedTestTable()
    ensures var (r, _) := NewUserDefined(InitialCounters, TestTableX, TestTableY);
      r.Ok? && r.value.law == UserDefined(MirroredX, MirroredY)
    ensures Sorted(MirroredX) && Functional(MirroredX, MirroredY)
  {
    assert !HasNegative(TestTableX);
    assert Mirror(TestTableX) == MirroredX;
    assert Mirror(TestTableY) == MirroredY;
    MirrorWellFormed(TestTableX, TestTableY);
  }

  /** The library's own expected values for that table: interpolation
      between points, on the first segment, ... */
  lemma UserDefinedTestValueFirstSegment()
    ensures Sorted(MirroredX)
    ensures Interp(0.001, MirroredX, MirroredY) == 10.0
  {
    UserDefinedTestTable();
    InterpBetween(MirroredX, MirroredY, 3, 0.001);
    LinIs(MirroredX, MirroredY, 3, 0.001, 0.0, 0.002, 0.0, 20.0);
    assert (20.0 - 0.0) / (0.002 - 0.0) == 10000.0;
  }

  /** ... on the second segment, ... */
  lemma UserDefinedTestValueSecondSegment()
    ensures Sorted(MirroredX)
    ensures Interp(0.003, MirroredX, MirroredY) == 21.0
  {
    UserDefinedTestTable();
    InterpBetween(MirroredX, MirroredY, 4, 0.003);
    LinIs(MirroredX, MirroredY, 4, 0.003, 0.002, 0.005, 20.0, 23.0);
    assert (23.0 - 20.0) / (0.005 - 0.002) == 1000.0;
  }

  /** ... on the mirrored segment in compression, ... */
  lemma UserDefinedTestValueMirrored()
    ensures Sorted(MirroredX)
    ensures Interp(-0.003, MirroredX, MirroredY) == -21.0
  {
    UserDefinedTestTable();
    InterpBetween(MirroredX, MirroredY, 0, -0.003);
    LinIs(MirroredX, MirroredY, 0, -0.003, -0.005, -0.002, -23.0, -20.0);
    assert (-20.0 - -23.0) / (-0.002 - -0.005) == 1000.0;
  }

  /** ... at table points, and zero outside the table. */
  lemma UserDefinedTestValuesAtPoints()
    ensures Sorted(MirroredX)
    ensures Interp(0.002, MirroredX, MirroredY) == 20.0
    ensures Interp(0.005, MirroredX, MirroredY) == 23.0
    ensures Interp(0.006, MirroredX, MirroredY) == 0.0
    ensures Interp(-0.006, MirroredX, MirroredY) == 0.0
  {
    UserDefinedTestTable();
    InterpAtPoint(MirroredX, MirroredY, 4);
    InterpAtPoint(MirroredX, MirroredY, 5);
  }
}
