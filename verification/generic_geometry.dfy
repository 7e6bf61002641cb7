/** The shapely-free parts of the generic section geometry
    (`sections/_generic.py`): the checked construction of surface and
    compound geometries, the area of a compound, and the arithmetic of
    `SurfaceGeometry.split` — where the splitting line is drawn and which
    side of it each piece lands on. What shapely computes (a polygon's area,
    centroid and bounding box, whether the line meets the polygon and the
    pieces it cuts it into) is taken as given data. */
module GenericGeometry {
  import opened Results
  import CoreBase
  import opened Sums

  // ---------------------------------------------------------------------
  // Geometries

  datatype Point = Point(x: real, y: real)

  /** A shapely bounding box `(minx, miny, maxx, maxy)`. */
  datatype Bounds = Bounds(minx: real, miny: real, maxx: real, maxy: real)

  /** What the model needs of a shapely polygon. */
  datatype PolygonData = PolygonData(area: real, centroid: Point, bounds: Bounds)

  /** A surface geometry is a polygon with a material; a compound geometry
      holds its member geometries, or nothing when its constructor was given
      neither a list nor a MultiPolygon and so never set the attribute
      (the unset compound). */
  datatype Geometry =
    | Surface(polygon: PolygonData, material: CoreBase.Material)
    | Compound(members: seq<Geometry>)
    | UnsetCompound

  /** What may be passed as the polygon and as the material. */
  datatype ShapeInput = PolygonShape(polygon: PolygonData) | OtherShape
  datatype MaterialInput = MaterialValue(material: CoreBase.Material) | OtherValue

  const PolygonMessage: string := "poly need to be a valid shapely.geometry.Polygon object."
  const MaterialMessage: string := "mat should be a valid structuralcodes.base.Material object."

  /** `SurfaceGeometry.__init__`: the polygon is checked before the material. */
  function NewSurface(poly: ShapeInput, mat: MaterialInput): (r: Result<Geometry>)
    ensures r.Ok? <==> poly.PolygonShape? && mat.MaterialValue?
    ensures r.Ok? ==> (r.value.Surface? && r.value.polygon == poly.polygon
      && r.value.material == mat.material)
    ensures poly.OtherShape? ==> r == Err(ValueError(PolygonMessage))
    ensures poly.PolygonShape? && mat.OtherValue? ==> r == Err(ValueError(MaterialMessage))
  {
    if poly.OtherShape? then Err(ValueError(PolygonMessage))
    else if mat.OtherValue? then Err(ValueError(MaterialMessage))
    else Ok(Surface(poly.polygon, mat.material))
  }

  /** A list item handed to the compound constructor. */
  datatype Item = GeometryItem(geometry: Geometry) | OtherItem

  /** What may be passed as `geometries`. */
  datatype CompoundInput = MultiPolygonInput | ListInput(items: seq<Item>) | OtherInput

  /** The list filter of the compound constructor: the items that are
      geometries, in order. A compound geometry is itself a surface geometry
      (by inheritance), so the first test keeps it whole and the flattening
      branch after it is never reached. */
  function KeepGeometries(items: seq<Item>): (r: seq<Geometry>)
    ensures |r| <= |items|
    ensures forall g :: g in r <==> GeometryItem(g) in items
  {
    if |items| == 0 then []
    else
      var front := KeepGeometries(items[..|items| - 1]);
      var last := items[|items| - 1];
      assert items == items[..|items| - 1] + [last];
      if last.GeometryItem? then front + [last.geometry] else front
  }

  /** Filtering a concatenation filters each part: the kept geometries keep
      their relative order. */
  lemma {:induction false} KeepGeometriesConcat(a: seq<Item>, b: seq<Item>)
    ensures KeepGeometries(a + b) == KeepGeometries(a) + KeepGeometries(b)
  {
    if |b| == 0 {
      assert a + b == a;
    } else {
      var b' := b[..|b| - 1];
      assert (a + b)[..|a + b| - 1] == a + b';
      KeepGeometriesConcat(a, b');
    }
  }

  /** `CompoundGeometry.__init__`: a MultiPolygon is not supported whatever
      the materials, a list is filtered, anything else leaves the members
      unset. */
  function NewCompound(geometries: CompoundInput): (r: Result<Geometry>)
    ensures r.Err? <==> geometries.MultiPolygonInput?
    ensures r.Err? ==> r.error == NotImplementedError
    ensures r.Ok? ==> !r.value.Surface?
    ensures geometries.ListInput? ==> (r.Ok? && r.value.Compound?
      && (forall g :: g in r.value.members <==> GeometryItem(g) in geometries.items))
    ensures geometries.OtherInput? ==> r == Ok(UnsetCompound)
  {
    match geometries
    case MultiPolygonInput => Err(NotImplementedError)
    case ListInput(items) => Ok(Compound(KeepGeometries(items)))
    case OtherInput => Ok(UnsetCompound)
  }

  /** A compound given a compound keeps it as one member rather than
      splicing in its members. */
  lemma NestedCompoundKeptWhole(inner: seq<Geometry>)
    ensures NewCompound(ListInput([GeometryItem(Compound(inner))]))
      == Ok(Compound([Compound(inner)]))
  {
    var items := [GeometryItem(Compound(inner))];
    assert items[..0] == [];
    assert KeepGeometries(items[..0]) == [];
    assert KeepGeometries(items) == [] + [Compound(inner)] == [Compound(inner)];
  }

  // ---------------------------------------------------------------------
  // Area

  /** The `area` property: a surface's polygon area; a compound's sum of its
      members' areas, added in order; an unset compound fails on the missing
      attribute. */
  function Area(g: Geometry): Result<real>
  {
    match g
    case Surface(p, _) => Ok(p.area)
    case UnsetCompound => Err(AttributeError)
    case Compound(ms) => AreaSum(ms)
  }

  function AreaSum(ms: seq<Geometry>): Result<real>
  {
    if |ms| == 0 then Ok(0.0)
    else
      var front :- AreaSum(ms[..|ms| - 1]);
      var last :- Area(ms[|ms| - 1]);
      Ok(front + last)
  }

  /** Every compound inside `g` has its members set. */
  predicate Complete(g: Geometry)
  {
    match g
    case Surface(_, _) => true
    case UnsetCompound => false
    case Compound(ms) => AllComplete(ms)
  }

  predicate AllComplete(ms: seq<Geometry>)
  {
    forall i :: 0 <= i < |ms| ==> Complete(ms[i])
  }

  /** The polygons at the leaves of a geometry, left to right. */
  function Leaves(g: Geometry): seq<PolygonData>
  {
    match g
    case Surface(p, _) => [p]
    case UnsetCompound => []
    case Compound(ms) => LeavesOf(ms)
  }

  function LeavesOf(ms: seq<Geometry>): seq<PolygonData>
  {
    if |ms| == 0 then [] else LeavesOf(ms[..|ms| - 1]) + Leaves(ms[|ms| - 1])
  }

  /** The sum of the polygon areas. */
  function PolygonAreas(ps: seq<PolygonData>): real
  {
    if |ps| == 0 then 0.0 else PolygonAreas(ps[..|ps| - 1]) + ps[|ps| - 1].area
  }

  lemma {:induction false} PolygonAreasConcat(a: seq<PolygonData>, b: seq<PolygonData>)
    ensures PolygonAreas(a + b) == PolygonAreas(a) + PolygonAreas(b)
  {
    if |b| > 0 {
      var b' := b[..|b| - 1];
      assert (a + b)[..|a + b| - 1] == a + b';
      PolygonAreasConcat(a, b');
    }
    else {
      assert a + b == a;
    }
  }

  /** The area of a geometry is defined exactly when every compound in it is
      set, and is then the sum of the areas of its leaf polygons, however the
      compounds are nested. */
  lemma {:induction false} AreaIsLeafSum(g: Geometry)
    ensures Area(g).Ok? <==> Complete(g)
    ensures Area(g).Ok? ==> Area(g).value == PolygonAreas(Leaves(g))
  {
    match g
    case Surface(p, _) =>
      assert [p][..0] == [];
    case UnsetCompound =>
    case Compound(ms) =>
      AreaSumIsLeafSum(ms);
  }

  lemma {:induction false} AreaSumIsLeafSum(ms: seq<Geometry>)
    ensures AreaSum(ms).Ok? <==> AllComplete(ms)
    ensures AreaSum(ms).Ok? ==> AreaSum(ms).value == PolygonAreas(LeavesOf(ms))
  {
    if |ms| > 0 {
      var front := ms[..|ms| - 1];
      var last := ms[|ms| - 1];
      AreaSumIsLeafSum(front);
      AreaIsLeafSum(last);
      PolygonAreasConcat(LeavesOf(front), Leaves(last));
      assert AllComplete(ms) <==> AllComplete(front) && Complete(last) by {
        assert forall i :: 0 <= i < |front| ==> front[i] == ms[i];
      }
    }
  }

  /** Wrapping geometries in a nested compound does not change the area of
      the compound holding them. */
  lemma NestingKeepsArea(ms: seq<Geometry>)
    ensures Area(Compound([Compound(ms)])) == Area(Compound(ms))
  {
    var ws := [Compound(ms)];
    assert ws[..0] == [];
    assert AreaSum(ws[..0]) == Ok(0.0);
    match AreaSum(ms)
    case Ok(a) => assert AreaSum(ws) == Ok(0.0 + a);
    case Err(e) => assert AreaSum(ws) == Err(e);
  }

  // ---------------------------------------------------------------------
  // Splitting

  /** How far the splitting line reaches past the bounding box. */
  const Margin: real := 0.001

  /** Below this magnitude of cos θ the line counts as near-vertical. */
  const VerticalTolerance: real := 0.00000001

  /** The splitting line as the segment from `start` to `end`. */
  datatype Segment = Segment(start: Point, end: Point)

  /** `q` lies on the line through `p` with direction (c, s). */
  predicate OnLine(q: Point, p: Point, c: real, s: real)
  {
    (q.x - p.x) * s == (q.y - p.y) * c
  }

  /** A line through `p` with slope s/c, from abscissa x1 to x2. */
  function SlopedSegment(p: Point, c: real, s: real, x1: real, x2: real): Segment
    requires c != 0.0
  {
    var tg := s / c;
    Segment(Point(x1, p.y + (x1 - p.x) * tg), Point(x2, p.y + (x2 - p.x) * tg))
  }

  /** A line through `p` with inverse slope c/s, from ordinate y1 to y2. */
  function SteepSegment(p: Point, c: real, s: real, y1: real, y2: real): Segment
    requires s != 0.0
  {
    var atg := c / s;
    Segment(Point(p.x + (y1 - p.y) * atg, y1), Point(p.x + (y2 - p.y) * atg, y2))
  }

  /** For a unit direction, a cosine within the tolerance leaves a nonzero sine. */
  lemma SineOfSteepLine(c: real, s: real)
    requires c * c + s * s == 1.0 && Abs(c) <= VerticalTolerance
    ensures s != 0.0
  {
    var a := Abs(c);
    assert a * a == c * c;
    assert a * a <= VerticalTolerance * VerticalTolerance by {
      MulLe(a, VerticalTolerance, a);
      MulLe(a, VerticalTolerance, VerticalTolerance);
    }
  }

  /** The endpoints of the splitting line as the source computes them: the
      near-vertical branch ends the line at `bbox[2]` (the largest x) plus
      the margin, where the largest y is meant. */
  function SplitLineAsWritten(b: Bounds, p: Point, c: real, s: real): (l: Segment)
    requires c * c + s * s == 1.0
    ensures OnLine(l.start, p, c, s) && OnLine(l.end, p, c, s)
    ensures Abs(c) > VerticalTolerance ==> l.start.x < b.minx && b.maxx < l.end.x
    ensures Abs(c) <= VerticalTolerance ==> l.start.y < b.miny
  {
    if Abs(c) > VerticalTolerance then
      var l := SlopedSegment(p, c, s, b.minx - Margin, b.maxx + Margin);
      SlopedOnLine(p, c, s, b.minx - Margin, b.maxx + Margin);
      l
    else
      assert s != 0.0 by { SineOfSteepLine(c, s); }
      var l := SteepSegment(p, c, s, b.miny - Margin, b.maxx + Margin);
      SteepOnLine(p, c, s, b.miny - Margin, b.maxx + Margin);
      l
  }

  /** The splitting line with the near-vertical branch ending past the
      largest y; the split below uses this one. */
  function SplitLine(b: Bounds, p: Point, c: real, s: real): (l: Segment)
    requires c * c + s * s == 1.0
    ensures OnLine(l.start, p, c, s) && OnLine(l.end, p, c, s)
    ensures Abs(c) > VerticalTolerance ==> l.start.x < b.minx && b.maxx < l.end.x
    ensures Abs(c) <= VerticalTolerance ==> l.start.y < b.miny && b.maxy < l.end.y
  {
    if Abs(c) > VerticalTolerance then
      var l := SlopedSegment(p, c, s, b.minx - Margin, b.maxx + Margin);
      SlopedOnLine(p, c, s, b.minx - Margin, b.maxx + Margin);
      l
    else
      assert s != 0.0 by { SineOfSteepLine(c, s); }
      var l := SteepSegment(p, c, s, b.miny - Margin, b.maxy + Margin);
      SteepOnLine(p, c, s, b.miny - Margin, b.maxy + Margin);
      l
  }

  lemma SlopedOnLine(p: Point, c: real, s: real, x1: real, x2: real)
    requires c != 0.0
    ensures var l := SlopedSegment(p, c, s, x1, x2);
      OnLine(l.start, p, c, s) && OnLine(l.end, p, c, s)
  {
    var tg := s / c;
    assert tg * c == s;
    MulAssoc(x1 - p.x, tg, c);
    MulAssoc(x2 - p.x, tg, c);
  }

  lemma SteepOnLine(p: Point, c: real, s: real, y1: real, y2: real)
    requires s != 0.0
    ensures var l := SteepSegment(p, c, s, y1, y2);
      OnLine(l.start, p, c, s) && OnLine(l.end, p, c, s)
  {
    var atg := c / s;
    assert atg * s == c;
    MulAssoc(y1 - p.y, atg, s);
    MulAssoc(y2 - p.y, atg, s);
  }

  lemma MulAssoc(d: real, t: real, k: real)
    ensures d * t * k == d * (t * k)
  {
  }

  /** The cross product of (b − a) and (q − a): positive when a, b, q turn
      counter-clockwise. */
  function Cross(a: Point, b: Point, q: Point): real
  {
    (b.x - a.x) * (q.y - a.y) - (b.y - a.y) * (q.x - a.x)
  }

  /** The ring (line start, line end, centroid) is counter-clockwise. */
  predicate IsCcw(l: Segment, q: Point)
  {
    Cross(l.start, l.end, q) > 0.0
  }

  /** The pieces whose centroid is counter-clockwise from the line go
      "above", the others "below", each list in the order of the pieces. */
  function Classify(l: Segment, pieces: seq<PolygonData>): (r: (seq<PolygonData>, seq<PolygonData>))
    ensures multiset(r.0) + multiset(r.1) == multiset(pieces)
    ensures forall i :: 0 <= i < |r.0| ==> IsCcw(l, r.0[i].centroid)
    ensures forall i :: 0 <= i < |r.1| ==> !IsCcw(l, r.1[i].centroid)
  {
    if |pieces| == 0 then ([], [])
    else
      var (above, below) := Classify(l, pieces[..|pieces| - 1]);
      var g := pieces[|pieces| - 1];
      assert pieces == pieces[..|pieces| - 1] + [g];
      if IsCcw(l, g.centroid) then (above + [g], below) else (above, below + [g])
  }

  /** A single piece lands in exactly one of the lists. */
  lemma ClassifyOne(l: Segment, p: PolygonData)
    ensures Classify(l, [p]) == if IsCcw(l, p.centroid) then ([p], []) else ([], [p])
  {
    assert [p][..0] == [];
    assert Classify(l, [p][..0]) == ([], []);
    assert [] + [p] == [p];
  }

  /** Classifying a concatenation classifies each part: both lists keep the
      order of the pieces. */
  lemma {:induction false} ClassifyConcat(l: Segment, a: seq<PolygonData>, b: seq<PolygonData>)
    ensures Classify(l, a + b).0 == Classify(l, a).0 + Classify(l, b).0
    ensures Classify(l, a + b).1 == Classify(l, a).1 + Classify(l, b).1
  {
    if |b| == 0 {
      assert a + b == a;
    } else {
      var b', g := b[..|b| - 1], b[|b| - 1];
      assert (a + b)[..|a + b| - 1] == a + b';
      assert (a + b)[|a + b| - 1] == g;
      ClassifyConcat(l, a, b');
      var ca, cb', cab' := Classify(l, a), Classify(l, b'), Classify(l, a + b');
      if IsCcw(l, g.centroid) {
        assert Classify(l, a + b) == (cab'.0 + [g], cab'.1);
        assert Classify(l, b) == (cb'.0 + [g], cb'.1);
        assert ca.0 + (cb'.0 + [g]) == (ca.0 + cb'.0) + [g];
      } else {
        assert Classify(l, a + b) == (cab'.0, cab'.1 + [g]);
        assert Classify(l, b) == (cb'.0, cb'.1 + [g]);
        assert ca.1 + (cb'.1 + [g]) == (ca.1 + cb'.1) + [g];
      }
    }
  }

  /** `SurfaceGeometry.split(point, θ)` with (c, s) = (cos θ, sin θ): the
      pieces shapely cuts the polygon into when the line meets it, the whole
      polygon otherwise, sorted to either side. A compound geometry inherits
      the method but has no polygon. */
  function Split(g: Geometry, point: Point, c: real, s: real, intersects: bool,
                 pieces: seq<PolygonData>): (r: Result<(seq<PolygonData>, seq<PolygonData>)>)
    requires c * c + s * s == 1.0
    ensures r.Err? <==> !g.Surface?
    ensures r.Ok? && intersects ==> multiset(r.value.0) + multiset(r.value.1) == multiset(pieces)
    ensures r.Ok? && !intersects ==>
      (r.value == ([g.polygon], []) || r.value == ([], [g.polygon]))
    ensures r.Ok? ==> var l := SplitLine(g.polygon.bounds, point, c, s);
      (forall i :: 0 <= i < |r.value.0| ==> IsCcw(l, r.value.0[i].centroid))
      && (forall i :: 0 <= i < |r.value.1| ==> !IsCcw(l, r.value.1[i].centroid))
  {
    if !g.Surface? then Err(AttributeError)
    else
      var l := SplitLine(g.polygon.bounds, point, c, s);
      if intersects then Ok(Classify(l, pieces))
      else
        ClassifyOne(l, g.polygon);
        Ok(Classify(l, [g.polygon]))
  }

  /** The cross product against a sloped line factors into the run of the
      line times the height of q over it. */
  lemma SlopedCross(px: real, py: real, tg: real, x1: real, x2: real, qx: real, qy: real)
    ensures Cross(Point(x1, py + (x1 - px) * tg), Point(x2, py + (x2 - px) * tg), Point(qx, qy))
      == (x2 - x1) * (qy - (py + (qx - px) * tg))
  {
  }

  lemma SteepCross(px: real, py: real, atg: real, y1: real, y2: real, qx: real, qy: real)
    ensures Cross(Point(px + (y1 - py) * atg, y1), Point(px + (y2 - py) * atg, y2), Point(qx, qy))
      == (y2 - y1) * ((px + (qy - py) * atg) - qx)
  {
  }

  lemma PositiveFactor(k: real, d: real)
    requires k > 0.0
    ensures k * d > 0.0 <==> d > 0.0
  {
    if d > 0.0 {
      MulPositive(k, d);
    } else if d < 0.0 {
      MulPositive(k, -d);
    }
  }

  lemma NegativeFactor(k: real, d: real)
    requires k < 0.0
    ensures k * d > 0.0 <==> d < 0.0
  {
    if d > 0.0 {
      MulPositive(-k, d);
    } else if d < 0.0 {
      MulPositive(-k, -d);
    }
  }

  /** For a line that is not near-vertical, "above" means above: a
      centroid is counter-clockwise from the line exactly when it lies
      higher than the line at its abscissa. */
  lemma AboveMeansHigher(b: Bounds, p: Point, c: real, s: real, q: Point)
    requires c * c + s * s == 1.0 && Abs(c) > VerticalTolerance && b.minx <= b.maxx
    ensures IsCcw(SplitLine(b, p, c, s), q) <==> q.y > p.y + (q.x - p.x) * (s / c)
  {
    var x1, x2 := b.minx - Margin, b.maxx + Margin;
    SlopedCross(p.x, p.y, s / c, x1, x2, q.x, q.y);
    PositiveFactor(x2 - x1, q.y - (p.y + (q.x - p.x) * (s / c)));
  }

  /** For a near-vertical line "above" is the side to the left of the line
      drawn upwards, towards smaller x. */
  lemma AboveMeansLeft(b: Bounds, p: Point, c: real, s: real, q: Point)
    requires c * c + s * s == 1.0 && Abs(c) <= VerticalTolerance && b.miny <= b.maxy
    requires s != 0.0
    ensures IsCcw(SplitLine(b, p, c, s), q) <==> q.x < p.x + (q.y - p.y) * (c / s)
  {
    var y1, y2 := b.miny - Margin, b.maxy + Margin;
    SteepCross(p.x, p.y, c / s, y1, y2, q.x, q.y);
    PositiveFactor(y2 - y1, (p.x + (q.y - p.y) * (c / s)) - q.x);
  }

  /** The bounding box of a polygon taller than it is far right of the
      origin: (minx, miny, maxx, maxy) = (0, 5, 1, 10). */
  const TallBox: Bounds := Bounds(0.0, 5.0, 1.0, 10.0)

  /** With the line as written, a vertical cut x = 0.5 through that box ends
      at y = 1.001, below the box, so the segment never reaches the polygon;
      and since it runs downwards, a centroid left of it goes "below". */
  lemma AsWrittenMissesTallBox()
    ensures var l := SplitLineAsWritten(TallBox, Point(0.5, 7.0), 0.0, 1.0);
      l.start.y < TallBox.miny && l.end.y < TallBox.miny
      && !IsCcw(l, Point(0.25, 7.0))
  {
    var p := Point(0.5, 7.0);
    assert Abs(0.0) <= VerticalTolerance;
    assert 0.0 / 1.0 == 0.0;
    var l := SteepSegment(p, 0.0, 1.0, 4.999, 1.001);
    assert l == Segment(Point(0.5, 4.999), Point(0.5, 1.001));
    assert SplitLineAsWritten(TallBox, p, 0.0, 1.0) == l;
  }

  /** The corrected line crosses the whole box upwards and sends the same
      centroid "above", on the left of the line. */
  lemma CorrectedCrossesTallBox()
    ensures var l := SplitLine(TallBox, Point(0.5, 7.0), 0.0, 1.0);
      l.start.y < TallBox.miny && TallBox.maxy < l.end.y
      && IsCcw(l, Point(0.25, 7.0))
  {
    var p := Point(0.5, 7.0);
    assert Abs(0.0) <= VerticalTolerance;
    assert 0.0 / 1.0 == 0.0;
    var l := SteepSegment(p, 0.0, 1.0, 4.999, 10.001);
    assert l == Segment(Point(0.5, 4.999), Point(0.5, 10.001));
    assert SplitLine(TallBox, p, 0.0, 1.0) == l;
  }
}
