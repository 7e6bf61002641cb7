# structuralcodes: Marin section integration and constitutive laws, in Dafny

This project models the numerical core of the `structuralcodes` Python
package:

- **Polygon moments.** The Marin polygon-moment formula
  (`marin_integration` and its binomial weight `_coeff`) computes the
  integral of y^m z^n over a polygon given by its vertex ring.
- **Resultant assembly.** `MarinIntegrator.integrate` turns surface parts
  (a ring plus the coefficients of a stress polynomial in z) and bar sets
  (forces at points) into the stress resultants (N, Mx, My). It then rotates
  the moments back to the section frame.
- **Input preparation.** The arithmetic of `MarinIntegrator.prepare_input`
  covers the rotated strain, the ordered cut heights of a strain band, the
  strain and force of a bar, and the assembly of the part list. The
  `IntegratorFactory` cache is modelled too.
- **Constitutive laws, current version** (`materials/constitutive_laws.py`):
  elastic, elastic-plastic with optional hardening and rupture,
  parabola-rectangle, and user-defined table interpolation, with their
  constructors, stresses and tangents.
- **Constitutive laws, older version** (`core/constitutive_laws.py`): the
  scalar laws. The model relates them to the current ones and shows why
  they cannot be instantiated as written.
- **Base-class bookkeeping** (`core/base.py`): density normalisation, the
  "update only known attributes" rule, the per-class id counter with the
  default law name, and the secant.
- **Rectangular RC data** (`_rectangularRC.py`): stirrup data, reinforcement
  defaults, the choice of confined concrete, the gross area and the bar
  layout.
- **Generic geometry helpers** (`_generic.py`): the type checks of
  `SurfaceGeometry`, the splitting-line endpoints, the above/below test,
  the member filter of `CompoundGeometry`, and its area.

The modules follow the source files:

- `Results` holds the Python exceptions as a `Result` type.
- `Sums` and `Binomial` hold finite sums, integer powers and `math.comb`.
- `Marin` covers `_marin_integration.py`.
- `SectionIntegrators` covers `_section_integrators.py`.
- `CoreBase` covers `core/base.py`.
- `MaterialLaws` covers `materials/constitutive_laws.py`.
- `CoreLaws` covers `core/constitutive_laws.py`.
- `RectangularRC` covers `_rectangularRC.py`.
- `GenericGeometry` covers `_generic.py`.

## Coordinates and abstract inputs

- **Coordinates.** Coordinates are those of the integrator. A shapely point
  (x, y) becomes `Pt(y, z)`, so the bar strain is eps0 - kappa * z.
- **Angles.** `atan2`, `cos`, `sin` and `sqrt` are not computed.
  - The back-rotation angle enters as its cosine and sine (c, s) with
    c^2 + s^2 = 1.
  - The curvature magnitude kappa enters with kappa >= 0 and
    kappa^2 = ky^2 + kz^2.
  - `StirrupsData` receives `pi`, `sin` and `cos` as uninterpreted values
    in a `Trig` record.
- **Shapely results.** Everything shapely computes is given data: a
  polygon's area, centroid and bounds, whether the splitting line meets the
  polygon, the pieces it cuts, and the oriented rings of the pieces between
  two cuts.
- **Material output.** The material's strain bands and stress coefficients
  (`__marin__`) are given data, one `Band` per band. Each bar site carries
  the stress law of its own material as a function, so bars of different
  materials can sit in one section.
- **Exceptions.** A Python exception becomes `Err` of the exception class.

## Model

| member | source | states |
|---|---|---|
| Binomial.BinomFactorial | structuralcodes/sections/_marin_integration.py:13 | the recursive binomial used for `math.comb` equals n! / (k! (n-k)!) |
| Marin.CoeffSymmetric | structuralcodes/sections/_marin_integration.py:11-13 | the weight of (m-j, n-k) equals the weight of (j, k), which makes each edge weight symmetric in its two ends |
| Marin.CachedCoeff | structuralcodes/sections/_marin_integration.py:10-13 | the memoised weight is always C(j+k, j) * C(m+n-j-k, n-k) for 0 <= j <= m, 0 <= k <= n; on a miss with a full table one stored entry is evicted, so the table holds only given or computed entries, never more than 128, and caching never changes a result |
| Marin.Normaliser | structuralcodes/sections/_marin_integration.py:39 | the divisor C(m+n, n) (m+n+1) (m+n+2) is positive, so the division is always defined |
| Marin.Moment | structuralcodes/sections/_marin_integration.py:28-39 | a vertex list of fewer than two points gives 0 |
| Marin.InnerLoop | structuralcodes/sections/_marin_integration.py:34-36 | the k-loop sums the weighted z-power products of one (edge, j) term |
| Marin.InnerColumn | structuralcodes/sections/_marin_integration.py:36 | one k-step adds exactly the k-th term of that sum |
| Marin.EdgeRow | structuralcodes/sections/_marin_integration.py:33-37 | one j-step adds the j-th y-power product times the inner sum |
| Marin.EdgeLoop | structuralcodes/sections/_marin_integration.py:31-37 | the j-loop computes the full edge weight of one vertex pair |
| Marin.MarinIntegration | structuralcodes/sections/_marin_integration.py:16-39 | the three nested loops return the moment of the ring: the edge terms over pairs (i, i+1) only, divided by the normaliser |
| Marin.AreaIsShoelace | structuralcodes/sections/_marin_integration.py:28-39 | for m = n = 0 the result is half the sum of y_i z_(i+1) - y_(i+1) z_i, the signed shoelace area |
| Marin.FirstMomentsAreReference | structuralcodes/sections/_marin_integration.py:28-39 | for (0, 1) and (1, 0) the result equals the textbook vertex formulas for the integrals of z and of y |
| Marin.SecondMomentsAreReference | structuralcodes/sections/_marin_integration.py:28-39 | for (0, 2) and (1, 1) the result equals the textbook vertex formulas for the integrals of z^2 and of y z |
| Marin.UnitSquareMoments | structuralcodes/sections/_marin_integration.py:19-21 | the closed counter-clockwise unit square has area 1 and both first moments 1/2 |
| Marin.RectangleArea | structuralcodes/sections/_marin_integration.py:19-21 | any closed axis-aligned rectangle listed counter-clockwise has moment (0, 0) equal to its area |
| Marin.RectangleFirstMoments | structuralcodes/sections/_marin_integration.py:19-21 | the rectangle's first moments are its area times the centre coordinate |
| Marin.OpenRingMissesClosingEdge | structuralcodes/sections/_marin_integration.py:29 | there is no wrap-around: a rectangle of area 1 listed without its repeated first vertex gives 1.5 |
| Marin.OpenRectangle | structuralcodes/sections/_marin_integration.py:29 | for any rectangle, dropping the closing vertex adds the missing edge's term, y0 (z1 - z0) / 2 |
| Marin.EdgeTermAntisymmetric | structuralcodes/sections/_marin_integration.py:32-38 | swapping the two vertices of an edge negates its term |
| Marin.MomentReverse | structuralcodes/sections/_marin_integration.py:19-22 | reversing the vertex order negates the moment: counter-clockwise is positive, clockwise negative |
| Marin.MomentJoin | structuralcodes/sections/_marin_integration.py:28-38 | two vertex chains sharing an end vertex add: the moment is a sum of independent per-edge terms |
| Marin.HoleSubtracts | structuralcodes/sections/_marin_integration.py:19-22 | an outer rectangle plus a hole ring listed clockwise gives the outer area minus the hole area |
| SectionIntegrators.WeightedMoments | structuralcodes/sections/_section_integrators.py:181-194 | each list comprehension and its sum give the sum over k of coeff[k] times the moment of order (m, k + dn) |
| SectionIntegrators.SurfaceMoments | structuralcodes/sections/_section_integrators.py:176-194 | a surface part adds the coefficient-weighted moments of orders (0, k), (0, k+1) and (1, k) to N, Mx and My |
| SectionIntegrators.ConstantStress | structuralcodes/sections/_section_integrators.py:176-194 | a constant stress s contributes s times the area, s times the integral of z, and s times the integral of y |
| SectionIntegrators.LinearStress | structuralcodes/sections/_section_integrators.py:176-194 | a linear stress a + b z contributes the matching combinations of the area, first and second moments |
| SectionIntegrators.WeightedLinear | structuralcodes/sections/_section_integrators.py:181-194 | two coefficients weight the moments of orders (m, dn) and (m, dn + 1) |
| SectionIntegrators.SurfaceReverse | structuralcodes/sections/_section_integrators.py:176-194 | a surface part with its ring reversed contributes the negated resultant |
| SectionIntegrators.SurfaceJoin | structuralcodes/sections/_section_integrators.py:176-194 | a ring made of two chains that share an end vertex contributes the sum of the two chains' contributions |
| SectionIntegrators.BarSums | structuralcodes/sections/_section_integrators.py:195-199 | a bar set adds the sum of F to N, the sum of F z to Mx and the sum of F y to My |
| SectionIntegrators.BarsConcat | structuralcodes/sections/_section_integrators.py:195-199 | the bar contribution of a concatenation is the sum of the two contributions |
| SectionIntegrators.SingleBar | structuralcodes/sections/_section_integrators.py:195-199 | one bar of force 10 at y = 2, z = 3 gives (10, 30, 20) |
| SectionIntegrators.PartMoments | structuralcodes/sections/_section_integrators.py:175-199 | one part's contribution is computed (surface moments, bar sums, or nothing for any other kind of part) while the coefficient cache stays sound |
| SectionIntegrators.OtherIgnored | structuralcodes/sections/_section_integrators.py:175-199 | inserting a part with any other tag anywhere leaves the total unchanged |
| SectionIntegrators.AccumulateConcat | structuralcodes/sections/_section_integrators.py:172-199 | accumulation starts at (0, 0, 0) and is additive over the part list |
| SectionIntegrators.AccumulatePermutation | structuralcodes/sections/_section_integrators.py:172-199 | any reordering of the parts (same multiset) gives the same totals |
| SectionIntegrators.Integrate | structuralcodes/sections/_section_integrators.py:163-207 | the returned triple is the back-rotation of the accumulated (N, Mx, My) of all parts |
| SectionIntegrators.BackRotateIsRotation | structuralcodes/sections/_section_integrators.py:204-207 | with c^2 + s^2 = 1, N is unchanged and Mx^2 + My^2 is preserved; rotating back by -s undoes it |
| SectionIntegrators.BackRotateIdentity | structuralcodes/sections/_section_integrators.py:204-207 | angle 0 (c = 1, s = 0) returns the resultant unchanged |
| SectionIntegrators.BackRotatePlus | structuralcodes/sections/_section_integrators.py:204-207 | rotating a sum equals summing the rotations, so the rotation may be applied per part |
| SectionIntegrators.RotationOf | structuralcodes/sections/_section_integrators.py:88-92 | the direction of the curvature vector (ky, kz) is a unit (cos, sin) pair whose multiples by kappa give ky and kz |
| SectionIntegrators.RotationAlignsCurvature | structuralcodes/sections/_section_integrators.py:88-92 | in the rotated frame the curvature is (kappa, 0), so the rotated strain is (eps0, kappa) with kappa >= 0 |
| SectionIntegrators.CutCoordinates | structuralcodes/sections/_section_integrators.py:102-105 | zero curvature is a division by zero; otherwise the two cut heights come back ordered |
| SectionIntegrators.CutBand | structuralcodes/sections/_section_integrators.py:102-105 | for kappa > 0 a height lies between the cuts exactly when the strain there lies in the band |
| SectionIntegrators.AtCut | structuralcodes/sections/_section_integrators.py:102-103 | below the cut height of limit t the strain is at least t, and above it at most t |
| SectionIntegrators.PrepareBars | structuralcodes/sections/_section_integrators.py:150-159 | one bar per site, in site order, each placed at its site's position; each force comes from that site's own material law (fixed by the resultant lemmas below) |
| SectionIntegrators.UniformStrainBars | structuralcodes/sections/_section_integrators.py:150-159 | under zero curvature, when every site's material gives the same stress f at eps0, the bar resultant is f times the sites' area and first moments |
| SectionIntegrators.MixedMaterialBars | structuralcodes/sections/_section_integrators.py:147-159 | the bars of two groups of sites, each possibly of another material, give the sum of the two groups' resultants |
| SectionIntegrators.ProportionalBars | structuralcodes/sections/_section_integrators.py:195-199 | bars whose forces are f times their areas contribute f times the area moments of their sites |
| SectionIntegrators.PolygonParts | structuralcodes/sections/_section_integrators.py:113-137 | a polygon yields its exterior ring first and then one part per hole, all with the band's coefficients |
| SectionIntegrators.PolygonPartsContribution | structuralcodes/sections/_section_integrators.py:113-137 | a polygon's parts contribute the exterior's resultant plus each hole's |
| SectionIntegrators.BandsParts | structuralcodes/sections/_section_integrators.py:95-145 | all band pieces become surface parts; a band under zero curvature fails with a division by zero |
| SectionIntegrators.PrepareInput | structuralcodes/sections/_section_integrators.py:86-161 | the prepared list is the surface parts followed by exactly one bar part (present even without bars), each bar from its own material; it fails only on a zero-curvature band |
| SectionIntegrators.PreparedResultant | structuralcodes/sections/_section_integrators.py:86-199 | the resultant of a prepared input is the surfaces' resultant plus the bars' |
| SectionIntegrators.NewFactory | structuralcodes/sections/_section_integrators.py:229-231 | a new factory has no instances and keeps the given registry |
| SectionIntegrators.Call | structuralcodes/sections/_section_integrators.py:233-240 | a stored entry is returned as is; otherwise the registry entry (falling back to `MarinIntegrator`) is stored and returned; no other entry changes |
| SectionIntegrators.CallConsistent | structuralcodes/sections/_section_integrators.py:233-240 | if every stored entry is what the registry gives, that stays true, and every call returns the registry's choice |
| SectionIntegrators.CallIdempotent | structuralcodes/sections/_section_integrators.py:233-240 | a second call with the same name changes nothing and returns the same entry |
| SectionIntegrators.UnknownNameFallsBack | structuralcodes/sections/_section_integrators.py:220-243 | with the module's registry, any name (known or not) gives `MarinIntegrator` |
| CoreBase.NewMaterial | structuralcodes/core/base.py:12-22 | density is stored as its magnitude, so it is never negative; the name defaults to "Material"; the instance starts with exactly `_density` and `_name` on top of its class's names |
| CoreBase.UpdateAttributes | structuralcodes/core/base.py:24-42 | updating never removes an instance attribute, and adds one only for a name the class provides (`hasattr` sees class attributes too) |
| CoreBase.UpdateIsLastWrite | structuralcodes/core/base.py:32-42 | each existing attribute ends with the value of its last update, or keeps its value when none targets it |
| CoreBase.UnknownKeyIgnored | structuralcodes/core/base.py:33-41 | a key whose private name is neither on the instance nor on its class changes nothing |
| CoreBase.ClassAttributeShadowed | structuralcodes/core/base.py:32-42 | a name found only on the class becomes an instance attribute exactly when some entry targets it, with the last such value |
| CoreBase.AbcImplShadowed | structuralcodes/core/base.py:7-42 | updating "abc_impl" finds the class's `_abc_impl` and adds an instance attribute `_abc_impl` |
| CoreBase.ReprShadowed | structuralcodes/core/base.py:33-42 | updating "_repr__" finds the `__repr__` every object has and adds an instance attribute `__repr__` |
| CoreBase.UpdateTouchesOnlyTargets | structuralcodes/core/base.py:32-42 | an attribute no update names keeps its value |
| CoreBase.UpdateCanMakeDensityNegative | structuralcodes/core/base.py:21-42 | the update path sets `_density` without taking the magnitude, so a density of -1 can be stored |
| CoreBase.NewLaw | structuralcodes/core/base.py:58-72 | the id is the class's current counter; that class's counter grows by one and no other class's changes; the name defaults to "ConstitutiveLaw_<id>" |
| CoreBase.IdsConsecutive | structuralcodes/core/base.py:60-72 | k laws of one class get consecutive ids starting at its counter |
| CoreBase.OtherClassesUntouched | structuralcodes/core/base.py:70-72 | creating laws of one class leaves every other class's counter alone |
| CoreBase.IdsSharedAcrossClasses | structuralcodes/core/base.py:70-72 | the first laws of two different classes both get id 0 |
| CoreBase.ParseNatToString | structuralcodes/core/base.py:62 | the decimal text of an id reads back as the id |
| CoreBase.DefaultNameInjective | structuralcodes/core/base.py:62 | distinct ids give distinct default names, and the id can be read back from the name |
| CoreBase.FirstDefaultName | structuralcodes/core/base.py:58-63 | the first law created is named "ConstitutiveLaw_0" |
| MaterialLaws.NewElastic | structuralcodes/materials/constitutive_laws.py:16-20 | stores E, takes the next id of its class, and is named "ElasticLaw" by default |
| MaterialLaws.NewElasticPlastic | structuralcodes/materials/constitutive_laws.py:40-58 | Eh defaults to 0 and eps_sy E = fy; E = 0 is a division by zero, raised after the id was taken |
| MaterialLaws.NewParabolaRectangle | structuralcodes/materials/constitutive_laws.py:85-99 | fc, eps_0 and eps_u are stored as minus their magnitudes |
| MaterialLaws.NewUserDefined | structuralcodes/materials/constitutive_laws.py:126-143 | tables of different lengths raise ValueError; a table with no negative strain is mirrored into an odd table of twice the length, ending in the given one; otherwise it is kept |
| MaterialLaws.Tangent | structuralcodes/materials/constitutive_laws.py:27-29 | elastic: E; parabola-rectangle and user-defined: the placeholder 0; elastic-plastic: E or Eh |
| MaterialLaws.TangentLagsInYieldBand | structuralcodes/materials/constitutive_laws.py:60-77 | for fy/E < eps <= fy/E + 1e-6 the tangent is still E while the stress is already eps Eh + fy (1 - Eh/E), so there the tangent is not the slope |
| MaterialLaws.Secant | structuralcodes/core/base.py:84-88 | the secant times the strain is the stress |
| MaterialLaws.ElasticSecant | structuralcodes/core/base.py:84-88 | the secant of the elastic law is E at every non-zero strain |
| MaterialLaws.ElasticPlasticStress | structuralcodes/materials/constitutive_laws.py:67-69 | with a rupture strain, the stress is 0 beyond it in either direction |
| MaterialLaws.ElasticPlasticPiecewise | structuralcodes/materials/constitutive_laws.py:63-66 | stress is E eps inside the yield band, eps Eh + fy (1 - Eh/E) above it and eps Eh - fy (1 - Eh/E) below it |
| MaterialLaws.PerfectlyPlasticClamps | structuralcodes/materials/constitutive_laws.py:63-66 | with Eh = 0 the stress is E eps clamped to [-fy, fy] |
| MaterialLaws.ElasticPlasticOdd | structuralcodes/materials/constitutive_laws.py:60-70 | the stress is odd in the strain, with or without rupture |
| MaterialLaws.WithRupture | structuralcodes/materials/constitutive_laws.py:67-69 | rupture only zeroes the stress outside [-eps_su, eps_su] and leaves it unchanged inside |
| MaterialLaws.ElasticBranchSlope | structuralcodes/materials/constitutive_laws.py:72-77 | inside the yield band the tangent is E and is the exact slope between any two strains |
| MaterialLaws.TensionBranchSlope | structuralcodes/materials/constitutive_laws.py:72-77 | beyond yield in tension (by more than 1e-6) the tangent is Eh and is the exact slope |
| MaterialLaws.CompressionBranchSlope | structuralcodes/materials/constitutive_laws.py:72-77 | beyond yield in compression the tangent is Eh and is the exact slope |
| MaterialLaws.ElasticPlasticTestValues | tests/test_constitutive_laws.py:38-52 | E = 210000, fy = 410 gives 210 at 0.001 and 410 at 0.003 and 0.010; E = 200000, fy = 450 gives 400 at 0.002 and 450 at 0.004 |
| MaterialLaws.ParabolaRectangleStress | structuralcodes/materials/constitutive_laws.py:101-111 | the stress is 0 in tension and below eps_u |
| MaterialLaws.ParabolaRectangleBounds | structuralcodes/materials/constitutive_laws.py:96-111 | with non-positive fc and eps_0 the stress lies in [fc, 0] |
| MaterialLaws.ParabolaMeetsRectangle | structuralcodes/materials/constitutive_laws.py:105-107 | the parabola is 0 at zero strain and reaches fc at eps_0 (n >= 1), so the branches meet |
| MaterialLaws.ParabolaRectangleTestValues | tests/test_constitutive_laws.py:55-75 | fc = -30 gives 0, -30, -30, 0 and -22.5 at the strains 0.001, -0.002, -0.003, -0.004 and -0.001; fc = -45, eps_u = -0.004 gives -45, 0 and -33.75 |
| MaterialLaws.ParabolaTangentIsPlaceholder | structuralcodes/materials/constitutive_laws.py:113-116 | the tangent is 0 on the parabola although the stress there is not constant |
| MaterialLaws.LastAtOrBelow | structuralcodes/materials/constitutive_laws.py:148 | the interpolation segment is the last table strain at or below eps; every later one is above it |
| MaterialLaws.Interp | structuralcodes/materials/constitutive_laws.py:148 | outside the table's strain range the stress is 0 |
| MaterialLaws.GetStress | structuralcodes/materials/constitutive_laws.py:145-149 | a user-defined law with an empty table raises ValueError; every other law returns its stress |
| MaterialLaws.EmptyTableRaises | structuralcodes/materials/constitutive_laws.py:126-149 | empty tables pass the constructor and give a law whose first stress request raises ValueError |
| MaterialLaws.InterpAtPoint | structuralcodes/materials/constitutive_laws.py:148 | at a table strain the interpolation returns that row's stress |
| MaterialLaws.InterpBetween | structuralcodes/materials/constitutive_laws.py:148 | strictly between two rows the interpolation is the straight line through them |
| MaterialLaws.InterpOdd | structuralcodes/materials/constitutive_laws.py:136-148 | on an antisymmetric table the interpolated stress is odd in the strain |
| MaterialLaws.MirrorAntisymmetric | structuralcodes/materials/constitutive_laws.py:136-139 | -rev(x) ++ x and -rev(y) ++ y form an antisymmetric table of twice the length |
| MaterialLaws.MirrorWellFormed | structuralcodes/materials/constitutive_laws.py:136-139 | mirroring an increasing non-negative table gives a sorted table with one stress per strain |
| MaterialLaws.UserDefinedOdd | structuralcodes/materials/constitutive_laws.py:126-148 | a user table of non-negative increasing strains gives an odd stress law |
| MaterialLaws.UserDefinedTestTable | tests/test_constitutive_laws.py:78-98 | the test table (0, 0.002, 0.005) / (0, 20, 23) is mirrored into a six-row table |
| MaterialLaws.UserDefinedTestValueFirstSegment | tests/test_constitutive_laws.py:81 | stress 10 at strain 0.001 |
| MaterialLaws.UserDefinedTestValueSecondSegment | tests/test_constitutive_laws.py:83 | stress 21 at strain 0.003 |
| MaterialLaws.UserDefinedTestValueMirrored | tests/test_constitutive_laws.py:89 | stress -21 at strain -0.003 |
| MaterialLaws.UserDefinedTestValuesAtPoints | tests/test_constitutive_laws.py:82-92 | 20 at 0.002, 23 at 0.005, and 0 at 0.006 and -0.006 |
| CoreLaws.Instantiate | structuralcodes/core/base.py:74-82 | a class missing an abstract method raises TypeError before any id is taken; otherwise it takes the next id |
| CoreLaws.CoreLawsNotInstantiable | structuralcodes/core/constitutive_laws.py:21-27 | the older classes define `getStress` and `getTangent`, so the abstract `get_stress` stays unimplemented and construction always fails |
| CoreLaws.CorrectedLawsInstantiable | structuralcodes/core/base.py:74-82 | with the methods named as the base class declares them, construction succeeds |
| CoreLaws.NewCoreElasticPlastic | structuralcodes/core/constitutive_laws.py:38-53 | E, fy and Eh are stored as given (Eh absent by default) and eps_sy E = fy; the id is the current count of this module's own `ElasticPlastic` class, which grows by one; E = 0 is a division by zero |
| CoreLaws.VersionsCountSeparately | structuralcodes/core/base.py:58-72 | the older and newer `ElasticPlastic` classes count ids separately: the first of each gets id 0 |
| CoreLaws.CoreElasticPlasticStress | structuralcodes/core/constitutive_laws.py:55-64 | 0 beyond eps_su by more than 1e-6; otherwise bounded by fy and by E eps, with the strain's sign |
| CoreLaws.CoreElasticPlasticOdd | structuralcodes/core/constitutive_laws.py:61-64 | the stress is odd in the strain (sign(0) = +1 only matters for a negative fy) |
| CoreLaws.CoreElasticPlasticClamps | structuralcodes/core/constitutive_laws.py:61-62 | without rupture the stress is E eps clamped to [-fy, fy] |
| CoreLaws.CoreElasticPlasticTangent | structuralcodes/core/constitutive_laws.py:66-71 | E within the yield strain, 0 beyond it by more than 1e-6 |
| CoreLaws.CorePlasticTangentIsSlope | structuralcodes/core/constitutive_laws.py:61-71 | beyond yield the tangent 0 is the exact slope of the capped stress |
| CoreLaws.CoreParabolaRectangleStress | structuralcodes/core/constitutive_laws.py:95-104 | 0 for eps >= 0 and fc on the rectangle [eps_u, eps_0) |
| CoreLaws.CoreParabolaRectangleBounds | structuralcodes/core/constitutive_laws.py:90-104 | with non-positive fc and eps_0 the stress lies in [fc, 0] |
| CoreLaws.CoreTangent | structuralcodes/core/constitutive_laws.py:25-27 | elastic: E; parabola-rectangle: the placeholder 0 |
| CoreLaws.ParabolaVersionsAgree | structuralcodes/core/constitutive_laws.py:95-104 | when eps_u <= eps_0 the two parabola-rectangle versions give the same stress |
| CoreLaws.ParabolaVersionsDiffer | structuralcodes/materials/constitutive_laws.py:105-110 | when eps_u > eps_0 they differ: the newer masks give 0 where the older branches give the parabola |
| CoreLaws.ElasticPlasticVersionsAgree | structuralcodes/core/constitutive_laws.py:55-64 | without hardening or rupture the two elastic-plastic versions agree |
| CoreLaws.RuptureVersionsAgreeOutsideBand | structuralcodes/core/constitutive_laws.py:57-60 | with rupture they agree except in the 1e-6 band past eps_su |
| CoreLaws.RuptureBandDiffers | structuralcodes/core/constitutive_laws.py:57-60 | inside that band the newer law gives 0 and the older one gives fy |
| CoreLaws.TangentVersionsAgree | structuralcodes/core/constitutive_laws.py:66-71 | the older tangent equals the newer one with Eh = 0 |
| CoreLaws.ElasticVersionsAgree | structuralcodes/core/constitutive_laws.py:21-27 | the two elastic versions agree in stress and tangent |
| RectangularRC.ToRadians | structuralcodes/sections/_rectangularRC.py:33-42 | alfa above 2 pi is taken as degrees and converted; otherwise it is kept |
| RectangularRC.NewStirrups | structuralcodes/sections/_rectangularRC.py:24-47 | sin(alfa) = 0 raises ValueError; otherwise sin_alfa and ctg_alfa = cos / sin are stored with the other fields |
| RectangularRC.DegreesConvertedOnce | structuralcodes/sections/_rectangularRC.py:33-42 | a degree value up to 360 becomes an angle in (0, 2 pi], which a second conversion keeps |
| RectangularRC.DefaultStirrupsPerpendicular | structuralcodes/sections/_rectangularRC.py:26-28 | the defaults are two legs each way and alfa = pi/2, with sin 1 and cotangent 0 |
| RectangularRC.NewReinforcement | structuralcodes/sections/_rectangularRC.py:76-84 | each side without a diameter takes the corner diameter, a given one is kept, and the counts are unchanged |
| RectangularRC.ReinforcementDefaultsIdempotent | structuralcodes/sections/_rectangularRC.py:76-84 | passing completed data through the defaults again changes nothing |
| RectangularRC.Lower | structuralcodes/sections/_rectangularRC.py:133 | lower-casing keeps the length and maps each ASCII capital to its small letter, every other character to itself |
| RectangularRC.SelectConfined | structuralcodes/sections/_rectangularRC.py:130-147 | None gives the concrete; "automatic" in any case needs stirrups; any other string raises; a Concrete is used as given; both errors carry the source's message text exactly |
| RectangularRC.AutomaticAnyCase | structuralcodes/sections/_rectangularRC.py:133-140 | "Automatic" and "AUTOMATIC" are accepted, "auto" is not |
| RectangularRC.NonAsciiNeverAutomatic | structuralcodes/sections/_rectangularRC.py:132-143 | a name with any non-ASCII character is never "automatic" and so raises ValueError |
| RectangularRC.NewSection | structuralcodes/sections/_rectangularRC.py:107-159 | fails exactly when the confinement choice fails or the default stirrups do; stores width, height, cover, concrete, bar steel and reinforcement data as given; the name defaults to "RectangularRCSection"; missing stirrups become diameter 8 and spacing 150; the bars are laid out from the stirrup diameter |
| RectangularRC.AreaIgnoresReinforcement | structuralcodes/sections/_rectangularRC.py:161-169 | the area is width times height whatever the bars or concrete |
| RectangularRC.Arrange | structuralcodes/sections/_rectangularRC.py:191-212 | there are 4 + number_bottom bars, with matching coordinate and diameter lists |
| RectangularRC.ArrangeBars | structuralcodes/sections/_rectangularRC.py:191-212 | the imperative layout with its loop produces the arrangement |
| RectangularRC.BottomBars | structuralcodes/sections/_rectangularRC.py:208-212 | the loop appends bottom bar i at xmin + (xmax - xmin)(i + 1)/(nb + 1) and ymin, with the bottom diameter |
| RectangularRC.LayoutCorners | structuralcodes/sections/_rectangularRC.py:194-212 | the four corners come first in the order (xmin, ymin), (xmax, ymin), (xmax, ymax), (xmin, ymax), with the corner diameter; bottom bar i follows at x = BottomBarX(i), on the bottom row, with the bottom diameter |
| RectangularRC.BottomBarsEvenAndSymmetric | structuralcodes/sections/_rectangularRC.py:209-212 | bottom bars lie strictly between the corners, are evenly spaced and are symmetric about the axis |
| RectangularRC.TwoBottomBars | structuralcodes/sections/_rectangularRC.py:191-212 | a 300 x 500 section with cover 25, 20 mm corners and two bottom bars has corners at x = -207, 207 and bottom bars at x = -69, 69 |
| GenericGeometry.NewSurface | structuralcodes/sections/_generic.py:31-54 | a non-polygon raises ValueError first, then a non-material; otherwise both are stored |
| GenericGeometry.KeepGeometries | structuralcodes/sections/_generic.py:178-187 | exactly the geometry items are kept |
| GenericGeometry.KeepGeometriesConcat | structuralcodes/sections/_generic.py:180-186 | the filter keeps the kept items in their order |
| GenericGeometry.NewCompound | structuralcodes/sections/_generic.py:152-187 | a MultiPolygon always raises NotImplementedError; a list is filtered; any other input leaves the members unset |
| GenericGeometry.NestedCompoundKeptWhole | structuralcodes/sections/_generic.py:182-186 | a nested compound passes the first type test and is kept whole, never flattened |
| GenericGeometry.AreaIsLeafSum | structuralcodes/sections/_generic.py:56-62 | a geometry's area is defined exactly when no unset compound is inside it, and is then the sum of its polygons' areas |
| GenericGeometry.AreaSumIsLeafSum | structuralcodes/sections/_generic.py:194-200 | a compound's area is the sum of its members' areas |
| GenericGeometry.NestingKeepsArea | structuralcodes/sections/_generic.py:194-200 | wrapping a compound in another leaves the area unchanged |
| GenericGeometry.SplitLineAsWritten | structuralcodes/sections/_generic.py:88-110 | both endpoints lie on the line through the point; a sloped line spans the box in x; a near-vertical line starts below the box |
| GenericGeometry.SplitLine | structuralcodes/sections/_generic.py:88-110 | as above, but a near-vertical line also ends above the box |
| GenericGeometry.Classify | structuralcodes/sections/_generic.py:118-124 | every piece lands in exactly one list: "above" when the triangle (line start, line end, centroid) is counter-clockwise, else "below" |
| GenericGeometry.ClassifyConcat | structuralcodes/sections/_generic.py:118-124 | classification preserves order piece by piece |
| GenericGeometry.Split | structuralcodes/sections/_generic.py:72-135 | an intersecting line distributes all pieces; a non-intersecting one puts the whole polygon on one side; a compound has no `polygon` and fails |
| GenericGeometry.AboveMeansHigher | structuralcodes/sections/_generic.py:94-121 | for a sloped line, "above" means strictly above the line |
| GenericGeometry.AboveMeansLeft | structuralcodes/sections/_generic.py:101-121 | for a near-vertical (corrected) line, "above" means strictly left of it |
| GenericGeometry.AsWrittenMissesTallBox | structuralcodes/sections/_generic.py:101-108 | for a box taller than its largest x, the line as written stays below the box and sends a centroid on the left "below" |
| GenericGeometry.CorrectedCrossesTallBox | structuralcodes/sections/_generic.py:101-108 | the corrected line crosses the box upwards and sends that centroid "above" |

## Left out

- **Shapely.** `orient`, `split`, `split_two_lines`, `rotate`, `intersects`,
  `bounds`, `centroid`, polygon `area`, and `create_line_point_angle`
  (`_geometry.py` is not part of this model) are left out. Their results
  are inputs. This includes the ccw/cw `ValueError` checks at
  `_section_integrators.py:116-133`, which test shapely's orientation.
- **Material `__marin__`.** It is defined in no file of this model. Its
  strain bands and coefficients are the `Band` inputs.
- **`atan2`, `sqrt`, `sin`, `cos`.** They are replaced by the constrained
  parameters described above.
- **Floating point.** Reals replace IEEE doubles, so rounding, `inf` and
  `nan` are left out. A parabola with eps_0 = 0 at zero strain (0/0 in
  numpy) is excluded by a precondition.
- **numpy.** Array broadcasting and masks are left out; every law is
  modelled on one scalar strain.
- **Real exponents.** The parabola exponent `n` is a natural number; the
  source's real exponent is not modelled.
- **Side effects.** `print(angle)` and `warnings.warn` produce nothing
  observable in the results, so they are not modelled.
- **Stubs.** `add_reinforcement` only raises; `GenericSection` and
  `GenericSectionCalculator` return empty results; the `bending_strength_*`
  methods return 0.0.
- **Missing imports.** `core/base.py` defines only `Material` and
  `ConstitutiveLaw`, yet `_generic.py:9` imports `Section` and
  `SectionCalculator` from it and `_rectangularRC.py:8` imports `Section`.
  As written, `_generic.py` does not import, and neither does
  `_section_integrators.py`, which takes `CompoundGeometry` from it at line
  13; the model treats these modules as if the imports resolved.
  `materials.concrete` (imported by `_rectangularRC.py:9` and
  `materials/__init__.py:3`) is not part of this model. The rectangular
  section is modelled as its data only; `Concrete` and the bars'
  `ElasticPlastic` material (`Steel`) are opaque records.
- **Ignored argument.** The `materials` argument of `CompoundGeometry` is
  ignored by the source, and so by the model.
- **Error texts.** Error messages that embed `repr()` of the offending
  object keep only their fixed text; every other message is kept verbatim.
- **Stored classes.** `IntegratorFactory` stores classes; the model stores
  their names.
- **Loop structure.** The Marin loops are split into methods
  (`EdgeRow`, `InnerColumn`) for proof size only.
- GenericGeometry.Split: `split` returns shapely polygons rather than
  `SurfaceGeometry` objects. The model returns the polygon data and uses
  the corrected splitting line.
- MaterialLaws.Interp: the table is assumed sorted by strain. numpy's
  interpolation assumes this of its caller and gives meaningless values
  otherwise. The empty table, on which numpy raises, is the error path of
  `GetStress`.
- Marin.CachedCoeff: the least-recently-used order of `lru_cache` is not
  tracked; the evicted entry is any stored one, which does not affect
  results.
- MaterialLaws.GetStress: an elastic-plastic law with E = 0 and a
  parabola-rectangle law with eps_0 = 0 asked at zero strain are excluded,
  as for `Stress`; Python gives a division error or NaN there.
- CoreBase.UpdateAttributes: class-level names are modelled as plain
  attributes that an instance attribute shadows. Data descriptors such as
  `__class__`, `__dict__` and `__weakref__`, whose assignment raises or
  does something else, are not modelled. The class-level name set
  (`MaterialClassAttributes`) is that of CPython 3.11 and 3.12; other
  versions add names (`__static_attributes__`, `__firstlineno__` in 3.13)
  or lack them (`__getstate__` before 3.11).
- RectangularRC.Lower: lower-cases the ASCII letters only and keeps every
  other character, where `str.lower` maps all of Unicode and may lengthen
  the text ('İ' becomes two characters). The accept/reject verdict against
  "automatic" is unaffected: the only non-ASCII character that Unicode
  lower-cases to an ASCII letter is the Kelvin sign, giving 'k', which
  "automatic" does not contain; `NonAsciiNeverAutomatic` shows the model
  rejects every name with a non-ASCII character, as Python does.

## Observations

- **Axis naming.** The layout of `_rectangularRC.py:201-206` spans the
  height along xs and the width along ys. The class docstring says width
  along x.
- **UserDefined beyond the table.** The `UserDefined` docstring says the
  stress stays constant beyond the last value. The code interpolates with
  `left=0, right=0`, so the stress is 0 there, as the tests at
  `tests/test_constitutive_laws.py:86,92` expect. The model follows the
  code.
- **Collinear rings.** A collinear ring is not counter-clockwise, so a
  centroid exactly on the splitting line goes "below".

## Findings

| source | as written | input that shows it | evidently intended | confidence | as-written member | corrected member |
|---|---|---|---|---|---|---|
| structuralcodes/sections/_generic.py:106 | the near-vertical splitting line ends at `bbox[2]` (largest x) + 1e-3 | bounds (0, 5, 1, 10), point (0.5, 7), theta = pi/2: the line runs from y = 4.999 down to y = 1.001 and misses the polygon | end at `bbox[3]` (largest y) + 1e-3, so the line crosses the whole box | high; not executed | GenericGeometry.AsWrittenMissesTallBox | GenericGeometry.CorrectedCrossesTallBox |
| structuralcodes/core/constitutive_laws.py:21-27 | the laws define `getStress` and `getTangent`, but the base class declares `get_stress` and `get_tangent` abstract | `Elastic(200000)`: Python raises TypeError because abstract methods are unimplemented | name the methods `get_stress` and `get_tangent` | high; not executed | CoreLaws.CoreLawsNotInstantiable | CoreLaws.CorrectedLawsInstantiable |
