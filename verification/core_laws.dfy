/** The earlier scalar versions of the laws in `core/constitutive_laws.py`:
    elastic, elastic-plastic without hardening, and parabola-rectangle with
    nested tests; how they relate to the laws of `MaterialLaws`; and why
    none of them can be constructed as written. */
module CoreLaws {
  import opened Results
  import opened Sums
  import opened CoreBase
  import opened MaterialLaws

  // ---------------------------------------------------------------------
  // Construction

  /** The methods the base class declares abstract. */
  const AbstractMethods: set<string> := {"get_stress", "get_tangent"}

  /** The methods these classes define: the stress and tangent are spelled
      `getStress` and `getTangent`. */
  const CoreMethods: set<string> := {"__init__", "getStress", "getTangent"}

  /** The same classes with the methods named as the base class declares them. */
  const CorrectedMethods: set<string> := {"__init__", "get_stress", "get_tangent"}

  /** Python refuses to create an instance of a class that leaves an
      abstract method unimplemented; it does so before `__init__` runs, so
      no id is taken. */
  function Instantiate(c: Counters, cls: string, methods: set<string>, name: Option<string>)
    : (r: (Result<LawHeader>, Counters))
    ensures r.0.Err? <==> !(AbstractMethods <= methods)
    ensures r.0.Err? ==> r.0.error == TypeError && r.1 == c
    ensures r.0.Ok? ==> r.0.value.id == Current(c, cls) && Current(r.1, cls) == Current(c, cls) + 1
  {
    if !(AbstractMethods <= methods) then (Err(TypeError), c)
    else
      var (h, c1) := NewLaw(c, cls, name);
      (Ok(h), c1)
  }

  /** As written, every one of these classes fails to instantiate. */
  lemma CoreLawsNotInstantiable(c: Counters, cls: string, name: Option<string>)
    ensures Instantiate(c, cls, CoreMethods, name) == (Err(TypeError), c)
  {
    assert "get_stress" !in CoreMethods;
  }

  /** With the methods renamed, construction goes through and takes an id. */
  lemma CorrectedLawsInstantiable(c: Counters, cls: string, name: Option<string>)
    ensures Instantiate(c, cls, CorrectedMethods, name).0.Ok?
  {
  }

  /** The stored parameters. The hardening modulus is kept (absent unless
      given) but never used. */
  datatype CoreLaw =
    | CoreElastic(e: real)
    | CoreElasticPlastic(e: real, fy: real, eh: Option<real>, epsSu: Option<real>, epsSy: real)
    | CoreParabolaRectangle(fc: real, eps0: real, epsu: real, n: nat)

  /** A constructed law of this module: its header and its parameters. */
  datatype CoreInstance = CoreInstance(header: LawHeader, law: CoreLaw)

  /** The class of this module, with an id counter of its own, apart from
      the same-named class of the newer module. */
  const CoreElasticPlasticClass := "core.constitutive_laws.ElasticPlastic"

  /** `ElasticPlastic.__init__` once the class can be instantiated: E = 0
      fails in fy / E after the id was taken. */
  function NewCoreElasticPlastic(c: Counters, methods: set<string>, e: real, fy: real,
                                 eh: Option<real> := None, epsSu: Option<real> := None,
                                 name: Option<string> := None): (r: (Result<CoreInstance>, Counters))
    ensures !(AbstractMethods <= methods) ==> r == (Err(TypeError), c)
    ensures AbstractMethods <= methods ==> (r.0.Err? <==> e == 0.0)
    ensures AbstractMethods <= methods ==>
      Current(r.1, CoreElasticPlasticClass) == Current(c, CoreElasticPlasticClass) + 1
    ensures r.0.Ok? ==> (r.0.value.law.CoreElasticPlastic? && r.0.value.law.epsSy * e == fy
      && r.0.value.law.e == e && r.0.value.law.fy == fy
      && r.0.value.law.eh == eh && r.0.value.law.epsSu == epsSu
      && r.0.value.header.id == Current(c, CoreElasticPlasticClass)
      && r.0.value.header.name == (if name.Some? then name.value else "ElasticPlasticLaw"))
  {
    var (h, c1) := Instantiate(c, CoreElasticPlasticClass, methods, Some(name.GetOr("ElasticPlasticLaw")));
    if h.Err? then (Err(h.error), c1)
    else if e == 0.0 then (Err(ZeroDivisionError), c1)
    else (Ok(CoreInstance(h.value, CoreElasticPlastic(e, fy, eh, epsSu, fy / e))), c1)
  }

  /** The two `ElasticPlastic` classes count their ids separately: creating
      one of the older laws leaves the first newer law with id 0. */
  lemma VersionsCountSeparately()
    ensures var (older, c1) := NewCoreElasticPlastic(InitialCounters, CorrectedMethods, 200000.0, 400.0);
      var (newer, _) := NewElasticPlastic(c1, 200000.0, 400.0);
      older.Ok? && newer.Ok? && older.value.header.id == 0 && newer.value.header.id == 0
  {
  }

  // ---------------------------------------------------------------------
  // Stress and tangent

  function Sign(eps: real): real
  {
    if eps >= 0.0 then 1.0 else -1.0
  }

  function Min(a: real, b: real): real
  {
    if a <= b then a else b
  }

  /** `ElasticPlastic.getStress`: zero once |eps| exceeds eps_su by more
      than the 1e-6 tolerance, else the elastic stress magnitude capped at
      fy, with the sign of the strain (zero strain counts as positive). */
  function CoreElasticPlasticStress(e: real, fy: real, epsSu: Option<real>, eps: real): (s: real)
    ensures epsSu.Some? && Abs(eps) - epsSu.value > YieldTolerance ==> s == 0.0
    ensures fy >= 0.0 ==> Abs(s) <= fy && Abs(s) <= Abs(e * eps)
    ensures fy >= 0.0 ==> (eps > 0.0 ==> s >= 0.0) && (eps < 0.0 ==> s <= 0.0)
  {
    if epsSu.Some? && Abs(eps) - epsSu.value > YieldTolerance then 0.0
    else Sign(eps) * Min(fy, Abs(e * eps))
  }

  /** The capped law is odd, except that at zero strain a negative yield
      stress would come out as itself. */
  lemma CoreElasticPlasticOdd(e: real, fy: real, epsSu: Option<real>, eps: real)
    requires fy >= 0.0 || eps != 0.0
    ensures CoreElasticPlasticStress(e, fy, epsSu, -eps) == -CoreElasticPlasticStress(e, fy, epsSu, eps)
  {
    assert Abs(e * -eps) == Abs(e * eps) by {
      assert e * -eps == -(e * eps);
    }
  }

  /** For E > 0 the capped law is the elastic stress clamped to [-fy, fy]. */
  lemma CoreElasticPlasticClamps(e: real, fy: real, eps: real)
    requires e > 0.0 && fy >= 0.0
    ensures CoreElasticPlasticStress(e, fy, None, eps) == Clamp(e * eps, -fy, fy)
  {
    if eps >= 0.0 {
      MulNonneg(e, eps);
    } else {
      MulPositive(e, -eps);
      assert e * -eps == -(e * eps);
    }
  }

  /** `ElasticPlastic.getTangent`: zero beyond the yield strain plus the
      tolerance, E before it. */
  function CoreElasticPlasticTangent(e: real, epsSy: real, eps: real): (t: real)
    ensures Abs(eps) <= epsSy ==> t == e
    ensures Abs(eps) - epsSy > YieldTolerance ==> t == 0.0
  {
    if Abs(eps) - epsSy > YieldTolerance then 0.0 else e
  }

  /** Beyond the yield strain plus the tolerance on one side, the capped
      stress is constant, so the zero tangent is its slope. */
  lemma CorePlasticTangentIsSlope(e: real, fy: real, a: real, b: real)
    requires e > 0.0 && fy >= 0.0
    requires (a - fy / e > YieldTolerance && b - fy / e > YieldTolerance)
      || (-a - fy / e > YieldTolerance && -b - fy / e > YieldTolerance)
    ensures CoreElasticPlasticStress(e, fy, None, b) - CoreElasticPlasticStress(e, fy, None, a)
      == CoreElasticPlasticTangent(e, fy / e, a) * (b - a)
  {
    CoreElasticPlasticClamps(e, fy, a);
    CoreElasticPlasticClamps(e, fy, b);
    if a - fy / e > YieldTolerance && b - fy / e > YieldTolerance {
      BeyondYield(e, fy, a);
      BeyondYield(e, fy, b);
    } else {
      BeyondYield(e, fy, -a);
      BeyondYield(e, fy, -b);
      assert e * -a == -(e * a) && e * -b == -(e * b);
    }
  }

  /** `ParabolaRectangle.getStress`: zero unless the strain is compressive;
      the parabola from 0 down to eps_0, the plateau fc down to eps_u, zero
      beyond. */
  function CoreParabolaRectangleStress(fc: real, eps0: real, epsu: real, n: nat, eps: real): (s: real)
    ensures eps >= 0.0 ==> s == 0.0
    ensures eps < 0.0 && eps < eps0 && epsu <= eps ==> s == fc
  {
    if eps < 0.0 then
      if eps >= eps0 then Parabola(fc, eps0, n, eps)
      else if eps >= epsu then fc
      else 0.0
    else 0.0
  }

  /** For stored parameters (fc, eps_0 <= 0) the stress lies between fc and 0. */
  lemma CoreParabolaRectangleBounds(fc: real, eps0: real, epsu: real, n: nat, eps: real)
    requires fc <= 0.0 && eps0 <= 0.0
    ensures fc <= CoreParabolaRectangleStress(fc, eps0, epsu, n, eps) <= 0.0
  {
    if eps < 0.0 && eps >= eps0 {
      RatioUnit(eps, eps0);
      PowUnitInterval(1.0 - eps / eps0, n);
      ScaleUnit(1.0 - Pow(1.0 - eps / eps0, n), fc);
    }
  }

  /** `getStress` of each class. */
  function CoreStress(law: CoreLaw, eps: real): real
  {
    match law
    case CoreElastic(e) => e * eps
    case CoreElasticPlastic(e, fy, _, epsSu, _) => CoreElasticPlasticStress(e, fy, epsSu, eps)
    case CoreParabolaRectangle(fc, eps0, epsu, n) => CoreParabolaRectangleStress(fc, eps0, epsu, n, eps)
  }

  /** `getTangent` of each class: a placeholder 0 for the parabola-rectangle law. */
  function CoreTangent(law: CoreLaw, eps: real): (t: real)
    ensures law.CoreElastic? ==> t == law.e
    ensures law.CoreParabolaRectangle? ==> t == 0.0
  {
    match law
    case CoreElastic(e) => e
    case CoreElasticPlastic(e, _, _, _, epsSy) => CoreElasticPlasticTangent(e, epsSy, eps)
    case CoreParabolaRectangle(_, _, _, _) => 0.0
  }

  // ---------------------------------------------------------------------
  // The two versions compared

  /** When the ultimate strain lies at or beyond the peak strain, the
      nested tests and the array masks give the same stress everywhere. */
  lemma ParabolaVersionsAgree(fc: real, eps0: real, epsu: real, n: nat, eps: real)
    requires epsu <= eps0 <= 0.0 && (eps0 != 0.0 || eps != 0.0)
    ensures ParabolaRectangleStress(fc, eps0, epsu, n, eps)
      == CoreParabolaRectangleStress(fc, eps0, epsu, n, eps)
  {
    if eps == 0.0 {
      ParabolaMeetsRectangle(fc, eps0, n);
    }
  }

  /** When the ultimate strain lies before the peak the versions part: the
      masks zero the strains below eps_u that the nested tests still send to
      the parabola. */
  lemma ParabolaVersionsDiffer()
    ensures ParabolaRectangleStress(-30.0, -0.002, -0.001, 2, -0.0015) == 0.0
    ensures CoreParabolaRectangleStress(-30.0, -0.002, -0.001, 2, -0.0015) == -28.125
  {
    assert -0.0015 / -0.002 == 0.75;
    assert Pow(1.0 - 0.75, 2) == 0.0625;
  }

  /** Without rupture, the array law with no hardening and the capped law
      agree for E > 0 and fy >= 0: both clamp the elastic stress. */
  lemma ElasticPlasticVersionsAgree(e: real, fy: real, eps: real)
    requires e > 0.0 && fy >= 0.0
    ensures ElasticPlasticStress(e, fy, 0.0, None, eps) == CoreElasticPlasticStress(e, fy, None, eps)
  {
    PerfectlyPlasticClamps(e, fy, eps);
    CoreElasticPlasticClamps(e, fy, eps);
  }

  /** With a rupture strain eps_su >= 0 the versions still agree outside the
      band eps_su < |eps| <= eps_su + 1e-6, which the array law already
      zeroes and the capped law does not. */
  lemma RuptureVersionsAgreeOutsideBand(e: real, fy: real, su: real, eps: real)
    requires e > 0.0 && fy >= 0.0 && su >= 0.0
    requires Abs(eps) <= su || Abs(eps) - su > YieldTolerance
    ensures ElasticPlasticStress(e, fy, 0.0, Some(su), eps) == CoreElasticPlasticStress(e, fy, Some(su), eps)
  {
    ElasticPlasticVersionsAgree(e, fy, eps);
  }

  /** Inside that band they differ. */
  lemma RuptureBandDiffers()
    ensures ElasticPlasticStress(200000.0, 450.0, 0.0, Some(0.01), 0.0100005) == 0.0
    ensures CoreElasticPlasticStress(200000.0, 450.0, Some(0.01), 0.0100005) == 450.0
  {
  }

  /** Without hardening the two tangents coincide. */
  lemma TangentVersionsAgree(e: real, fy: real, epsSu: Option<real>, epsSy: real, eps: real)
    ensures Tangent(ElasticPlastic(e, fy, 0.0, epsSu, epsSy), eps) == CoreElasticPlasticTangent(e, epsSy, eps)
  {
  }

  /** The elastic laws of both versions agree in stress and tangent. */
  lemma ElasticVersionsAgree(e: real, eps: real)
    ensures CoreStress(CoreElastic(e), eps) == Stress(Elastic(e), eps)
    ensures CoreTangent(CoreElastic(e), eps) == Tangent(Elastic(e), eps)
  {
  }
}
