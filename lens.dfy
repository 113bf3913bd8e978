/** The per-sample lens geometry of Calibration.Redraw, in exact real
    arithmetic. The trigonometric values cos(Angle) and tan(Angle) are inputs.
    Single-precision `%` is the truncated remainder (the result takes the sign
    of the dividend) and Math.Round rounds half-way values to the even
    neighbour. */
module Lens {

  /** Number of lenses a view index is scaled to. */
  const NumLenses: nat := 7
  /** Number of source views the compositor holds (`new UnmanagedBitmap[8]`). */
  const ViewCount: nat := 8
  /** Width of one display pixel, in lens units. */
  const PitchPixel: real := 0.0530421509

  function Abs(x: real): real
  {
    if x < 0.0 then -x else x
  }

  /** Integer part, rounding toward zero. */
  function Trunc(x: real): (t: int)
    ensures Abs(x - t as real) < 1.0
    ensures 0.0 <= x ==> 0 <= t && t as real <= x
    ensures x <= 0.0 ==> t <= 0 && x <= t as real
  {
    if 0.0 <= x then x.Floor else -((-x).Floor)
  }

  lemma ProductBelow(b: real, f: real)
    requires b != 0.0 && Abs(f) < 1.0
    ensures Abs(b * f) < Abs(b)
  {
    if b > 0.0 {
      if f >= 0.0 { assert b * f < b * 1.0; } else { assert b * (-f) < b * 1.0; }
    } else {
      if f >= 0.0 { assert (-b) * f < (-b) * 1.0; } else { assert (-b) * (-f) < (-b) * 1.0; }
    }
  }

  /** The single-precision `a % b`: `a - b * Truncate(a / b)`. */
  function FMod(a: real, b: real): (r: real)
    requires b != 0.0
    ensures Abs(r) < Abs(b)
    ensures 0.0 <= a ==> 0.0 <= r
    ensures a <= 0.0 ==> r <= 0.0
  {
    var q := a / b;
    var t := Trunc(q);
    assert a - b * t as real == b * (q - t as real);
    ProductBelow(b, q - t as real);
    SignOfRemainder(a, b, q, t);
    a - b * t as real
  }

  lemma SignOfRemainder(a: real, b: real, q: real, t: int)
    requires b != 0.0 && q == a / b && t == Trunc(q)
    ensures 0.0 <= a ==> 0.0 <= a - b * t as real
    ensures a <= 0.0 ==> a - b * t as real <= 0.0
  {
    assert a == b * q;
    var f := q - t as real;
    assert a - b * t as real == b * f;
    if b > 0.0 {
      assert 0.0 <= a ==> 0.0 <= q && 0.0 <= f;
      assert a <= 0.0 ==> q <= 0.0 && f <= 0.0;
    } else {
      assert 0.0 <= a ==> q <= 0.0 && f <= 0.0;
      assert a <= 0.0 ==> 0.0 <= q && 0.0 <= f;
    }
  }

  /** Math.Round: the nearest integer, half-way cases to the even one. */
  function Round(x: real): (n: int)
    ensures Abs(n as real - x) <= 0.5
    ensures Abs(n as real - x) == 0.5 ==> n % 2 == 0
  {
    var f := x.Floor;
    var d := x - f as real;
    if d < 0.5 then f
    else if d > 0.5 then f + 1
    else if f % 2 == 0 then f else f + 1
  }

  /** A value within m of zero rounds to an integer within m of zero. */
  lemma RoundWithin(x: real, m: nat)
    requires Abs(x) <= m as real
    ensures -(m as int) <= Round(x) <= m
  {
    var n := Round(x);
    assert n as real <= x + 0.5 <= m as real + 0.5;
    assert n as real >= x - 0.5 >= -(m as real) - 0.5;
  }

  /** Any ratio of magnitude at most one, scaled to NumLenses and rounded, is
      an index of magnitude at most NumLenses, so its absolute value selects
      one of the ViewCount views. */
  lemma ScaledRatioIndex(ratio: real)
    requires Abs(ratio) <= 1.0
    ensures -(NumLenses as int) <= Round(ratio * NumLenses as real) <= NumLenses
    ensures NumLenses < ViewCount
  {
    assert Abs(ratio * NumLenses as real) == Abs(ratio) * NumLenses as real;
    RoundWithin(ratio * NumLenses as real, NumLenses);
  }

  /** The lens parameters a redraw reads: the magnification, the lens pitch and
      the trigonometric values of the lens angle. */
  datatype Geometry = Geometry(magnification: real, pitchLens: real, cosAngle: real, tanAngle: real)
  {
    /** No division by zero occurs in the projection or in the view ratio. */
    predicate Defined()
    {
      magnification != 0.0 && magnification + 1.0 != 0.0 && pitchLens != 0.0 && cosAngle != 0.0
    }
  }

  /** `MicroLensMagnification = MicroLensFocalPoint * ViewerDistance - 1`,
      recomputed before every redraw. */
  function Magnification(focalPoint: real, viewerDistance: real): real
  {
    focalPoint * viewerDistance - 1.0
  }

  /** The geometry a redraw uses is free of divisions by zero exactly when the
      focal point times the viewer distance is neither 0 nor 1 (so neither the
      magnification nor the magnification plus one vanishes), the lens pitch
      is not 0 and cos(angle) is not 0. */
  lemma MagnificationDefined(focalPoint: real, viewerDistance: real, pitchLens: real, cosAngle: real, tanAngle: real)
    ensures Geometry(Magnification(focalPoint, viewerDistance), pitchLens, cosAngle, tanAngle).Defined()
        <==> focalPoint * viewerDistance != 1.0 && focalPoint * viewerDistance != 0.0 && pitchLens != 0.0 && cosAngle != 0.0
  {
  }

  /** Width one lens covers on the screen: (M + 1) / M * pitchLens / cos(angle). */
  function Projection(g: Geometry): (p: real)
    requires g.Defined()
    ensures p != 0.0
    ensures p * g.magnification * g.cosAngle == (g.magnification + 1.0) * g.pitchLens
  {
    var a := (g.magnification + 1.0) / g.magnification;
    assert a != 0.0;
    var b := a * g.pitchLens;
    assert b != 0.0;
    b / g.cosAngle
  }

  /** Number of pixels under one lens. */
  function ViewsPerLens(g: Geometry): (v: real)
    requires g.Defined()
    ensures v != 0.0 && v * PitchPixel == Projection(g)
  {
    Projection(g) / PitchPixel
  }

  /** The row a colour component is striped onto: `l = py + component`. */
  function Row(py: nat, component: nat): int
  {
    py + component
  }

  /** `xoffset = (k - l * tan(angle)) % projection`. */
  function XOffset(g: Geometry, px: nat, py: nat, component: nat): (r: real)
    requires g.Defined()
    ensures Abs(r) < Abs(Projection(g))
  {
    FMod(px as real - Row(py, component) as real * g.tanAngle, Projection(g))
  }

  /** `pixelOffset = (int)Math.Round(xoffset / PitchPixel)`. */
  function PixelOffset(g: Geometry, px: nat, py: nat, component: nat): (offset: int)
    requires g.Defined()
    ensures Abs(offset as real - XOffset(g, px, py, component) / PitchPixel) <= 0.5
  {
    Round(XOffset(g, px, py, component) / PitchPixel)
  }

  /** The phase of a sample within its lens, as a fraction of the lens:
      `((k + xoffset - 3 * l * tan(angle)) % viewsPerLens) / viewsPerLens`. */
  function LensPhase(g: Geometry, px: nat, py: nat, component: nat): (ratio: real)
    requires g.Defined()
    ensures Abs(ratio) < 1.0
  {
    var v := ViewsPerLens(g);
    var r := FMod(px as real + XOffset(g, px, py, component) - (3 * Row(py, component)) as real * g.tanAngle, v);
    RatioBelowOne(r, v);
    r / v
  }

  lemma RatioBelowOne(r: real, v: real)
    requires v != 0.0 && Abs(r) < Abs(v)
    ensures Abs(r / v) < 1.0
  {
    var q := r / v;
    var aq, av := Abs(q), Abs(v);
    assert Abs(r) == aq * av;
    AtLeastOneScales(aq, av);
    assert aq >= 1.0 ==> Abs(r) >= av;
  }

  lemma AtLeastOneScales(x: real, y: real)
    requires y > 0.0 && x >= 0.0
    ensures x >= 1.0 ==> x * y >= y
  {
  }

  /** The view index before its sign is dropped:
      `(int)Math.Round(phase * NumLenses)`. */
  function RawViewIndex(g: Geometry, px: nat, py: nat, component: nat): (i: int)
    requires g.Defined()
    ensures -(NumLenses as int) <= i <= NumLenses
  {
    var ratio := LensPhase(g, px, py, component);
    ScaledRatioIndex(ratio);
    Round(ratio * NumLenses as real)
  }

  /** What the compositor needs from the lens geometry, per output pixel and
      colour component: the pixel offset and the view index before its sign is
      dropped. */
  datatype Sampler = Sampler(offset: (nat, nat, nat) -> int, rawIndex: (nat, nat, nat) -> int)

  /** Every raw view index lies within NumLenses of zero. */
  ghost predicate Bounded(lens: Sampler)
  {
    forall px: nat, py: nat, component: nat :: -(NumLenses as int) <= lens.rawIndex(px, py, component) <= NumLenses
  }

  /** The sampler a redraw with geometry g uses. */
  function LensSampler(g: Geometry): (lens: Sampler)
    requires g.Defined()
    ensures Bounded(lens)
    ensures forall px: nat, py: nat, component: nat :: lens.offset(px, py, component) == PixelOffset(g, px, py, component)
    ensures forall px: nat, py: nat, component: nat :: lens.rawIndex(px, py, component) == RawViewIndex(g, px, py, component)
  {
    Sampler((px: nat, py: nat, component: nat) => PixelOffset(g, px, py, component),
            (px: nat, py: nat, component: nat) => RawViewIndex(g, px, py, component))
  }

  /** `viewIndex < 0 ? -viewIndex : viewIndex`: always a valid index into the
      eight source views, never past NumLenses. */
  function ViewIndex(lens: Sampler, px: nat, py: nat, component: nat): (v: nat)
    requires Bounded(lens)
    ensures v <= NumLenses && v < ViewCount
    ensures v as int == lens.rawIndex(px, py, component) || v as int == -lens.rawIndex(px, py, component)
  {
    var i := lens.rawIndex(px, py, component);
    if i < 0 then -i else i
  }
}
