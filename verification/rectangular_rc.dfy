/** The data of a rectangular reinforced-concrete section
    (`sections/_rectangularRC.py`): stirrup and reinforcement records with
    their defaults, the choice of the confined concrete, the gross area and
    the placement of the longitudinal bars. */
module RectangularRC {
  import opened Results
  import opened Sums

  /** π, sine and cosine, supplied by the caller. */
  datatype Trig = Trig(pi: real, sin: real -> real, cos: real -> real)

  // ---------------------------------------------------------------------
  // Stirrups

  /** `StirrupsData` after `__post_init__`: the angle in radians with its
      sine and cotangent. */
  datatype Stirrups = Stirrups(diameter: real, spacing: real, legsX: real, legsY: real,
                               alfa: real, sinAlfa: real, ctgAlfa: real)

  /** An angle above 2π is taken to be in degrees and converted. */
  function ToRadians(t: Trig, alfa: real): (a: real)
    ensures alfa <= 2.0 * t.pi ==> a == alfa
    ensures alfa > 2.0 * t.pi ==> a * 180.0 == alfa * t.pi
  {
    if alfa > 2.0 * t.pi then (alfa * t.pi) / 180.0 else alfa
  }

  /** `StirrupsData(diameter, spacing, legs_x = 2, legs_y = 2, alfa = π/2)`:
      fails when the sine of the (converted) angle is zero. */
  function NewStirrups(t: Trig, diameter: real, spacing: real, legsX: real := 2.0,
                       legsY: real := 2.0, alfa: real := t.pi / 2.0): (r: Result<Stirrups>)
    ensures r.Err? <==> t.sin(ToRadians(t, alfa)) == 0.0
    ensures r.Err? ==> r.error == ValueError("StirrupsData: the sin of alfa cannot be zero.")
    ensures r.Ok? ==> (r.value.alfa == ToRadians(t, alfa)
      && r.value.sinAlfa == t.sin(r.value.alfa) && r.value.sinAlfa != 0.0
      && r.value.ctgAlfa * r.value.sinAlfa == t.cos(r.value.alfa)
      && r.value.diameter == diameter && r.value.spacing == spacing
      && r.value.legsX == legsX && r.value.legsY == legsY)
  {
    var a := ToRadians(t, alfa);
    var s := t.sin(a);
    if s == 0.0 then Err(ValueError("StirrupsData: the sin of alfa cannot be zero."))
    else Ok(Stirrups(diameter, spacing, legsX, legsY, a, s, t.cos(a) / s))
  }

  /** An angle given in degrees up to 360 comes out in (0, 2π] when π > 0,
      so building the record again from its own angle changes nothing. */
  lemma DegreesConvertedOnce(t: Trig, alfa: real)
    requires t.pi > 0.0 && 2.0 * t.pi < alfa <= 360.0
    ensures 0.0 < ToRadians(t, alfa) <= 2.0 * t.pi
    ensures ToRadians(t, ToRadians(t, alfa)) == ToRadians(t, alfa)
  {
    var a, pi := ToRadians(t, alfa), t.pi;
    DegreeBound(a, alfa, pi);
  }

  /** a = alfa * pi / 180 with alfa in (0, 360] lies in (0, 2 pi]. */
  lemma DegreeBound(a: real, alfa: real, pi: real)
    requires pi > 0.0 && 0.0 < alfa <= 360.0 && a * 180.0 == alfa * pi
    ensures 0.0 < a <= 2.0 * pi
  {
    var p := alfa * pi;
    MulPositive(alfa, pi);
    MulLe(alfa, 360.0, pi);
    LinearBound(a, p, pi);
  }

  /** Dividing a bound on `a * 180` by 180. */
  lemma LinearBound(a: real, p: real, pi: real)
    requires a * 180.0 == p
    requires 0.0 < p
    requires p <= 360.0 * pi
    ensures 0.0 < a <= 2.0 * pi
  {
  }

  /** With the usual sine and cosine at π/2 the default stirrups are
      perpendicular to the axis: sine 1, cotangent 0. */
  lemma DefaultStirrupsPerpendicular(t: Trig)
    requires t.pi > 0.0 && t.sin(t.pi / 2.0) == 1.0 && t.cos(t.pi / 2.0) == 0.0
    ensures var r := NewStirrups(t, 8.0, 150.0);
      r.Ok? && r.value.alfa == t.pi / 2.0 && r.value.sinAlfa == 1.0 && r.value.ctgAlfa == 0.0
      && r.value.legsX == 2.0 && r.value.legsY == 2.0
  {
  }

  // ---------------------------------------------------------------------
  // Longitudinal reinforcement

  /** `ReinforcementData` after `__post_init__`: every side has a diameter. */
  datatype Reinforcement = Reinforcement(
    corner: real,
    bottom: real, numberBottom: int,
    top: real, numberTop: int,
    left: real, numberLeft: int,
    right: real, numberRight: int)

  /** A side without a diameter takes the corner diameter; a given one is kept. */
  function NewReinforcement(corner: real,
                            bottom: Option<real> := None, numberBottom: int := 0,
                            top: Option<real> := None, numberTop: int := 0,
                            left: Option<real> := None, numberLeft: int := 0,
                            right: Option<real> := None, numberRight: int := 0): (r: Reinforcement)
    ensures r.corner == corner
    ensures forall side | side in [(bottom, r.bottom), (top, r.top), (left, r.left), (right, r.right)] ::
      side.1 == (if side.0.Some? then side.0.value else corner)
    ensures r.numberBottom == numberBottom && r.numberTop == numberTop
      && r.numberLeft == numberLeft && r.numberRight == numberRight
  {
    Reinforcement(corner, bottom.GetOr(corner), numberBottom, top.GetOr(corner), numberTop,
                  left.GetOr(corner), numberLeft, right.GetOr(corner), numberRight)
  }

  /** Filling in the defaults is idempotent: passing the filled-in record
      through again gives the same record. */
  lemma ReinforcementDefaultsIdempotent(r: Reinforcement)
    ensures NewReinforcement(r.corner, Some(r.bottom), r.numberBottom, Some(r.top), r.numberTop,
                             Some(r.left), r.numberLeft, Some(r.right), r.numberRight) == r
  {
  }

  // ---------------------------------------------------------------------
  // The section

  /** Concrete materials are handled by identity only. */
  datatype Concrete = Concrete(id: nat)

  /** What may be passed as the confined concrete. */
  datatype ConfinedInput =
    | NotGiven
    | Named(name: string)
    | GivenConcrete(concrete: Concrete)
    | SomethingElse

  function LowerChar(ch: char): char
  {
    if 'A' <= ch <= 'Z' then (ch - 'A' + 'a') as char else ch
  }

  /** Lower-casing, on the ASCII letters. */
  function Lower(s: string): (r: string)
    ensures |r| == |s|
    ensures forall i :: 0 <= i < |s| ==> r[i] == LowerChar(s[i])
  {
    seq(|s|, i requires 0 <= i < |s| => LowerChar(s[i]))
  }

  /** The indentation that the source's backslash-continued message
      literal carries into its text at each line break. */
  const ContinuationIndent := "                            "

  /** The message of "automatic" confinement without stirrups, exactly as
      the continued literal spells it, spaces and line feed included. */
  const AutomaticWithoutStirrupsMessage :=
    "Asked for automatic confinement " + ContinuationIndent
    + "computation, but stirrups_data is None " + ContinuationIndent
    + "\nPlease provide a proper stirrups_data"

  /** The concrete of the confined core: the section's concrete when none
      is given or when "automatic" (in any letter case) is asked for with
      stirrups present, the given concrete when one is given; "automatic"
      without stirrups and any other string are errors. Any other value
      leaves the attribute unset (None). */
  function SelectConfined(concrete: Concrete, confined: ConfinedInput, stirrupsGiven: bool)
    : (r: Result<Option<Concrete>>)
    ensures r.Err? <==> confined.Named? && (Lower(confined.name) != "automatic" || !stirrupsGiven)
    ensures r.Ok? && confined.GivenConcrete? ==> r.value == Some(confined.concrete)
    ensures r.Ok? && (confined.NotGiven? || confined.Named?) ==> r.value == Some(concrete)
    ensures r.Ok? && confined.SomethingElse? ==> r.value == None
    ensures r.Err? && Lower(confined.name) == "automatic" ==> r.error == ValueError(AutomaticWithoutStirrupsMessage)
    ensures r.Err? && Lower(confined.name) != "automatic" ==> r.error == ValueError("Value \"" + confined.name + "\" unknown")
  {
    match confined
    case NotGiven => Ok(Some(concrete))
    case Named(name) =>
      if Lower(name) == "automatic" then
        if !stirrupsGiven then
          Err(ValueError(AutomaticWithoutStirrupsMessage))
        else Ok(Some(concrete))
      else Err(ValueError("Value \"" + name + "\" unknown"))
    case GivenConcrete(c) => Ok(Some(c))
    case SomethingElse => Ok(None)
  }

  /** Any letter case of "automatic" is accepted. */
  lemma AutomaticAnyCase(concrete: Concrete)
    ensures SelectConfined(concrete, Named("Automatic"), true) == Ok(Some(concrete))
    ensures SelectConfined(concrete, Named("AUTOMATIC"), true) == Ok(Some(concrete))
    ensures SelectConfined(concrete, Named("auto"), true).Err?
  {
    assert Lower("Automatic") == "automatic";
    assert Lower("AUTOMATIC") == "automatic";
    assert Lower("auto") != "automatic" by {
      assert |Lower("auto")| == 4;
    }
  }

  /** A name holding any character outside ASCII is never taken for
      "automatic": such a character is kept by `Lower`, and "automatic" has
      none. (Under Unicode lower-casing the only non-ASCII character that
      becomes an ASCII letter is the Kelvin sign, which gives 'k', and
      "automatic" has no 'k'; so the verdict is Python's as well.) */
  lemma NonAsciiNeverAutomatic(concrete: Concrete, name: string, stirrupsGiven: bool, i: nat)
    requires i < |name| && name[i] as int >= 128
    ensures Lower(name) != "automatic"
    ensures SelectConfined(concrete, Named(name), stirrupsGiven).Err?
  {
    assert Lower(name)[i] == name[i];
  }

  /** The bar arrays: positions (xs, ys) and diameters d. */
  datatype Bars = Bars(xs: seq<real>, ys: seq<real>, d: seq<real>)

  /** The bars' elastic-plastic material, handled by identity only. */
  datatype Steel = Steel(id: nat)

  datatype Section = Section(
    name: string, width: real, height: real, cover: real,
    concrete: Concrete, steel: Steel, confined: Option<Concrete>,
    stirrups: Stirrups, reinforcement: Reinforcement, bars: Bars)

  /** `RectangularRC.__init__`: the confinement is settled before the
      stirrups default to `StirrupsData(8, 150)`, so "automatic" without
      stirrups fails even though default stirrups would follow. */
  function NewSection(t: Trig, width: real, height: real, cover: real, reinforcement: Reinforcement,
                      concrete: Concrete, steel: Steel, confined: ConfinedInput := NotGiven,
                      stirrups: Option<Stirrups> := None, name: Option<string> := None)
    : (r: Result<Section>)
    ensures r.Err? <==> SelectConfined(concrete, confined, stirrups.Some?).Err?
                        || (stirrups.None? && NewStirrups(t, 8.0, 150.0).Err?)
    ensures r.Ok? ==> (r.value.width == width && r.value.height == height && r.value.cover == cover
      && r.value.concrete == concrete && r.value.steel == steel && r.value.reinforcement == reinforcement)
    ensures r.Ok? ==> (r.value.name == (if name.Some? then name.value else "RectangularRCSection")
      && r.value.confined == SelectConfined(concrete, confined, stirrups.Some?).value
      && (stirrups.Some? ==> r.value.stirrups == stirrups.value)
      && (stirrups.None? ==> r.value.stirrups.diameter == 8.0 && r.value.stirrups.spacing == 150.0)
      && r.value.bars == Arrange(width, height, cover, r.value.stirrups.diameter, reinforcement))
  {
    var conf :- SelectConfined(concrete, confined, stirrups.Some?);
    var st :- if stirrups.Some? then Ok(stirrups.value) else NewStirrups(t, 8.0, 150.0);
    Ok(Section(name.GetOr("RectangularRCSection"), width, height, cover, concrete, steel, conf, st,
               reinforcement, Arrange(width, height, cover, st.diameter, reinforcement)))
  }

  /** The gross concrete area. */
  function Area(s: Section): real
  {
    s.width * s.height
  }

  /** The area is that of the rectangle, whatever the bars and materials. */
  lemma AreaIgnoresReinforcement(s: Section, bars: Bars, c: Concrete)
    ensures Area(s.(bars := bars, concrete := c)) == Area(s) == s.width * s.height
  {
  }

  // ---------------------------------------------------------------------
  // Bar layout

  /** Half the centre-to-centre extent of the corner bars along one side. */
  function HalfSpan(side: real, cover: real, stirrup: real, corner: real): real
  {
    ((side - 2.0 * (cover + stirrup / 2.0)) - (corner + stirrup)) / 2.0
  }

  /** The bottom bar i of nb, evenly spaced strictly between the corners. */
  function BottomBarX(xmin: real, xmax: real, nb: nat, i: int): real
  {
    xmin + (xmax - xmin) / (nb as real + 1.0) * (i as real + 1.0)
  }

  /** `_arrange_reinforcement_in_section`: the four corner bars, then the
      bottom bars; the top, left and right bars are not placed. The height
      runs along xs and the width along ys. */
  function Arrange(width: real, height: real, cover: real, stirrup: real, r: Reinforcement): (b: Bars)
    ensures var n := 4 + (if r.numberBottom > 0 then r.numberBottom else 0);
      |b.xs| == n && |b.ys| == n && |b.d| == n
  {
    var hx := HalfSpan(height, cover, stirrup, r.corner);
    var wy := HalfSpan(width, cover, stirrup, r.corner);
    var nb: nat := if r.numberBottom > 0 then r.numberBottom else 0;
    Bars([-hx, hx, hx, -hx] + seq(nb, i requires 0 <= i < nb => BottomBarX(-hx, hx, nb, i)),
         [-wy, -wy, wy, wy] + seq(nb, _ => -wy),
         seq(4, _ => r.corner) + seq(nb, _ => r.bottom))
  }

  /** The loop of the source, appending bar by bar. */
  method ArrangeBars(width: real, height: real, cover: real, stirrup: real, r: Reinforcement)
    returns (b: Bars)
    ensures b == Arrange(width, height, cover, stirrup, r)
  {
    var delta := 2.0 * (cover + stirrup / 2.0);
    var hc := height - delta;
    var wc := width - delta;
    delta := r.corner + stirrup;
    var hcc := hc - delta;
    var wcc := wc - delta;
    var xmin, xmax := -hcc / 2.0, hcc / 2.0;
    var ymin, ymax := -wcc / 2.0, wcc / 2.0;
    assert xmax == HalfSpan(height, cover, stirrup, r.corner);
    assert ymax == HalfSpan(width, cover, stirrup, r.corner);
    var nb: nat := if r.numberBottom > 0 then r.numberBottom else 0;
    var bxs, bys, bds := BottomBars(xmin, xmax, ymin, nb, r.bottom);
    b := Bars([xmin, xmax, xmax, xmin] + bxs, [ymin, ymin, ymax, ymax] + bys,
              [r.corner, r.corner, r.corner, r.corner] + bds);
    assert [r.corner, r.corner, r.corner, r.corner] == seq(4, _ => r.corner);
  }

  /** The bottom-bar loop of the source: nb bars evenly spaced between xmin
      and xmax at height ymin, each of diameter `bottom`. */
  method BottomBars(xmin: real, xmax: real, ymin: real, nb: nat, bottom: real)
    returns (xs: seq<real>, ys: seq<real>, d: seq<real>)
    ensures xs == seq(nb, i requires 0 <= i < nb => BottomBarX(xmin, xmax, nb, i))
    ensures ys == seq(nb, _ => ymin) && d == seq(nb, _ => bottom)
  {
    xs, ys, d := [], [], [];
    var i := 0;
    while i < nb
      invariant 0 <= i <= nb
      invariant |xs| == |ys| == |d| == i
      invariant forall k :: 0 <= k < i ==> xs[k] == BottomBarX(xmin, xmax, nb, k)
      invariant forall k :: 0 <= k < i ==> ys[k] == ymin && d[k] == bottom
    {
      xs := xs + [xmin + (xmax - xmin) / (nb as real + 1.0) * (i as real + 1.0)];
      ys := ys + [ymin];
      d := d + [bottom];
      i := i + 1;
    }
  }

  /** The corners sit at (∓hcc/2, ∓wcc/2) in the order (min, min), (max, min),
      (max, max), (min, max), and every bottom bar lies on the bottom edge
      with the bottom diameter. */
  lemma LayoutCorners(width: real, height: real, cover: real, stirrup: real, r: Reinforcement)
    ensures var b := Arrange(width, height, cover, stirrup, r);
      var hx := HalfSpan(height, cover, stirrup, r.corner);
      var wy := HalfSpan(width, cover, stirrup, r.corner);
      var nb: nat := if r.numberBottom > 0 then r.numberBottom else 0;
      b.xs[..4] == [-hx, hx, hx, -hx] && b.ys[..4] == [-wy, -wy, wy, wy]
      && (forall k :: 0 <= k < 4 ==> b.d[k] == r.corner)
      && (forall k :: 4 <= k < 4 + nb ==>
            b.xs[k] == BottomBarX(-hx, hx, nb, k - 4) && b.ys[k] == -wy && b.d[k] == r.bottom)
  {
  }

  /** The bottom bars are evenly spaced, strictly between the bottom corners
      when the corners are apart, and symmetric about the axis. */
  lemma BottomBarsEvenAndSymmetric(hx: real, nb: nat, i: nat)
    requires hx > 0.0 && i < nb
    ensures -hx < BottomBarX(-hx, hx, nb, i) < hx
    ensures BottomBarX(-hx, hx, nb, i) + BottomBarX(-hx, hx, nb, nb - 1 - i) == 0.0
    ensures i + 1 < nb ==> BottomBarX(-hx, hx, nb, i + 1) - BottomBarX(-hx, hx, nb, i) == 2.0 * hx / (nb as real + 1.0)
  {
    var step := (hx - -hx) / (nb as real + 1.0);
    assert step * (nb as real + 1.0) == 2.0 * hx;
    assert step > 0.0;
    assert step * (i as real + 1.0) < step * (nb as real + 1.0) by {
      MulLe(i as real + 1.0, nb as real, step);
    }
    assert step * (i as real + 1.0) > 0.0 by {
      MulPositive(step, i as real + 1.0);
    }
    assert step * (i as real + 1.0) + step * ((nb - 1 - i) as real + 1.0) == step * (nb as real + 1.0);
    assert step * ((i + 1) as real + 1.0) - step * (i as real + 1.0) == step;
  }

  /** A 300 × 500 section with cover 25, 8 mm stirrups, 20 mm corner bars
      and two bottom bars: the corners are 414 apart along x and the bottom
      bars sit a third of the way in from each corner. */
  lemma TwoBottomBars()
    ensures var r := NewReinforcement(20.0, None, 2);
      var b := Arrange(300.0, 500.0, 25.0, 8.0, r);
      |b.xs| == 6 && |b.ys| == 6 && |b.d| == 6
      && b.xs[0] == -207.0 && b.xs[1] == 207.0
      && b.xs[4] == -69.0 && b.xs[5] == 69.0 && b.ys[4] == -107.0 && b.d[4] == 20.0
  {
    var r := NewReinforcement(20.0, None, 2);
    assert r.numberBottom == 2 && r.bottom == 20.0 && r.corner == 20.0;
    assert HalfSpan(500.0, 25.0, 8.0, 20.0) == 207.0;
    assert HalfSpan(300.0, 25.0, 8.0, 20.0) == 107.0;
    assert BottomBarX(-207.0, 207.0, 2, 0) == -69.0;
    assert BottomBarX(-207.0, 207.0, 2, 1) == 69.0;
  }
}
