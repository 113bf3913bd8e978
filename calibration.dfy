/** Calibration.cs: the calibration window's state and its redraw. The window
    keeps the lens parameters, eight locked source views, the last composed
    picture and two diagnostic histograms; Forward and Backward step the lens
    angle, and every parameter change ends in a full redraw. */
module Calibrator {
  import opened Pixels
  import opened ScanLines
  import opened Lens
  import opened Histograms
  import opened Compositor
  import opened Helpers
  import Sweep

  datatype Option<T> = None | Some(value: T)

  class Calibration {
    var ViewerDistance: real
    var MicroLensFocalPoint: real
    var MicroLensMagnification: real
    /** Canvas size, taken from the picture box. */
    const Width: nat
    const Height: nat
    var Angle: real
    var PitchLens: real
    /** `_unmanagedImages`: the source views, empty until loaded. */
    var unmanagedImages: seq<UnmanagedBitmap>
    /** `_counts`: samples taken from each view, over all redraws. */
    const counts: array<int>
    /** `_offsets`: occurrences of each pixel offset, over all redraws. */
    var offsets: map<int, int>
    /** `pictureBox.Image`: the last composed picture. */
    var picture: Option<Image>
    /** The pictures the source views hold. */
    ghost var sources: seq<Image>
    /** The source views and their pixel memory. */
    ghost var Repr: set<object>

    ghost predicate Valid()
    {
      counts.Length == ViewCount
    }

    /** The picture box has a non-zero size, as the canvas bitmap needs. */
    predicate Sized()
    {
      0 < Width && 0 < Height
    }

    /** The eight views are loaded and locked, hold `sources`, and are at
        least as large as the canvas. */
    ghost predicate Loaded()
      reads this`unmanagedImages, this`sources, this`Repr, Repr
    {
      |unmanagedImages| == ViewCount && Covers(sources, Width, Height) && counts !in Repr &&
      forall i :: 0 <= i < |unmanagedImages| ==>
        unmanagedImages[i] in Repr && unmanagedImages[i].bits in Repr &&
        unmanagedImages[i].Holds(sources[i])
    }

    /** A redraw is under way on `canvas`: the views are loaded, and the
        canvas is a locked bitmap of the picture box's size whose memory is
        none of the views'. */
    ghost predicate Drawing(canvas: UnmanagedBitmap)
      reads this`unmanagedImages, this`sources, this`Repr, Repr, canvas`stride, canvas`locked
    {
      Valid() && Loaded() &&
      canvas.Valid() && canvas.locked && canvas.width == Width && canvas.height == Height &&
      canvas !in Repr && canvas.bits !in Repr
    }

    /** The lens parameters a redraw reads, given cos(Angle) and tan(Angle). */
    function LensGeometry(cosAngle: real, tanAngle: real): (g: Geometry)
      reads this`MicroLensMagnification, this`PitchLens
    {
      Geometry(MicroLensMagnification, PitchLens, cosAngle, tanAngle)
    }

    constructor (pictureWidth: nat, pictureHeight: nat)
      requires 0 < pictureWidth && 0 < pictureHeight
      ensures Valid() && Sized() && Width == pictureWidth && Height == pictureHeight
      ensures ViewerDistance == 150.0 && MicroLensFocalPoint == 2.792992 && MicroLensMagnification == 0.0
      ensures Angle == 2.845976 && PitchLens == 0.015
      ensures unmanagedImages == [] && sources == [] && Repr == {} && offsets == map[] && picture == None
      ensures fresh(counts) && forall v :: 0 <= v < ViewCount ==> counts[v] == 0
    {
      ViewerDistance, MicroLensFocalPoint, MicroLensMagnification := 150.0, 2.792992, 0.0;
      Width, Height := pictureWidth, pictureHeight;
      Angle, PitchLens := 2.845976, 0.015;
      unmanagedImages, sources, Repr := [], [], {};
      counts := new int[ViewCount](_ => 0);
      offsets := map[];
      picture := None;
    }

    /** Calibration_Load: builds a locked copy of each of the eight source
        images, then recomputes the magnification and redraws. */
    method Load(images: seq<Image>, cosAngle: real, tanAngle: real)
      requires Valid() && Sized() && |images| == ViewCount
      requires forall i :: 0 <= i < |images| ==> images[i].Valid() && Width <= images[i].width && Height <= images[i].height
      requires Geometry(Magnification(MicroLensFocalPoint, ViewerDistance), PitchLens, cosAngle, tanAngle).Defined()
      modifies this`unmanagedImages, this`sources, this`Repr, this`MicroLensMagnification, this`offsets, this`picture, counts
      ensures Valid() && Loaded() && sources == images && fresh(Repr)
      ensures MicroLensMagnification == Magnification(MicroLensFocalPoint, ViewerDistance)
      ensures picture == Some(Compose(LensSampler(LensGeometry(cosAngle, tanAngle)), images, Width, Height))
    {
      LoadViews(images);
      UpdateVariables(cosAngle, tanAngle);
    }

    /** The loop of Calibration_Load: view i becomes a locked copy of image i. */
    method LoadViews(images: seq<Image>)
      requires Valid() && |images| == ViewCount
      requires forall i :: 0 <= i < |images| ==> images[i].Valid() && Width <= images[i].width && Height <= images[i].height
      modifies this`unmanagedImages, this`sources, this`Repr
      ensures Loaded() && sources == images && fresh(Repr)
    {
      var loaded: seq<UnmanagedBitmap> := [];
      ghost var repr: set<object> := {};
      for i := 0 to ViewCount
        invariant |loaded| == i && fresh(repr)
        invariant forall j :: 0 <= j < i ==>
          loaded[j] in repr && loaded[j].bits in repr &&
          loaded[j].Holds(images[j]) &&
          loaded[j].width == images[j].width && loaded[j].height == images[j].height
      {
        var view := new UnmanagedBitmap.FromBitmap(images[i]);
        loaded, repr := loaded + [view], repr + {view, view.bits};
      }
      unmanagedImages, sources, Repr := loaded, images, repr;
    }

    /** Right arrow: one forward step of the angle, carrying into the pitch. */
    method Forward()
      modifies this`Angle, this`PitchLens
      ensures Sweep.Setting(Angle, PitchLens) == Sweep.Forward(Sweep.Setting(old(Angle), old(PitchLens)))
    {
      Angle := Angle + Sweep.AngleDelta;
      if Angle > Sweep.AngleRange {
        Angle := 0.0;
        PitchLens := PitchLens + Sweep.PitchDelta;
      }
    }

    /** Left arrow: one backward step of the angle, borrowing from the pitch. */
    method Backward()
      modifies this`Angle, this`PitchLens
      ensures Sweep.Setting(Angle, PitchLens) == Sweep.Backward(Sweep.Setting(old(Angle), old(PitchLens)))
    {
      Angle := Angle - Sweep.AngleDelta;
      if Angle < Sweep.AngleStart {
        Angle := Sweep.AngleRange;
        PitchLens := PitchLens - Sweep.PitchDelta;
      }
    }

    /** Recomputes the magnification from the focal point and viewer distance,
        then redraws with it. */
    method UpdateVariables(cosAngle: real, tanAngle: real)
      requires Valid() && Sized() && Loaded()
      requires Geometry(Magnification(MicroLensFocalPoint, ViewerDistance), PitchLens, cosAngle, tanAngle).Defined()
      modifies this`MicroLensMagnification, this`offsets, this`picture, counts
      ensures Loaded()
      ensures MicroLensMagnification == Magnification(MicroLensFocalPoint, ViewerDistance)
      ensures picture == Some(Compose(LensSampler(LensGeometry(cosAngle, tanAngle)), sources, Width, Height))
    {
      MicroLensMagnification := MicroLensFocalPoint * ViewerDistance - 1.0;
      ghost var written := Redraw(cosAngle, tanAngle);
    }

    /** Composes a fresh canvas: every output pixel is written once, each of its
        three components sampled from the view and column the lens geometry
        picks, and every sample is recorded in both histograms; the picture box
        receives a snapshot and the canvas is disposed. `written` is the
        canvas's log of SetPixel calls. */
    method Redraw(cosAngle: real, tanAngle: real) returns (ghost written: seq<(nat, nat)>)
      requires Valid() && Sized() && Loaded() && LensGeometry(cosAngle, tanAngle).Defined()
      modifies this`offsets, this`picture, counts
      ensures Loaded()
      ensures written == Raster(Width, Height)
      ensures picture == Some(Compose(LensSampler(LensGeometry(cosAngle, tanAngle)), sources, Width, Height))
      ensures offsets == Tally(old(offsets), Offsets(LensSampler(LensGeometry(cosAngle, tanAngle)), Grid(Width, Height)))
      ensures counts[..] == TallyCounts(old(counts[..]), Views(LensSampler(LensGeometry(cosAngle, tanAngle)), Grid(Width, Height)))
      ensures MapSum(offsets) == MapSum(old(offsets)) + 3 * Width * Height
      ensures Sum(counts[..]) == Sum(old(counts[..])) + 3 * Width * Height
    {
      var lens := LensSampler(LensGeometry(cosAngle, tanAngle));
      var snapshot;
      snapshot, written := DrawCanvas(lens);
      picture := Some(snapshot);
      GridTotals(lens, Width, Height, old(offsets), old(counts[..]));
    }

    /** The body of a redraw up to the picture box: a fresh canvas is
        composed, snapshotted and disposed of; `written` is its SetPixel log. */
    method DrawCanvas(lens: Sampler) returns (snapshot: Image, ghost written: seq<(nat, nat)>)
      requires Valid() && Sized() && Loaded() && Bounded(lens)
      modifies this`offsets, counts
      ensures Loaded()
      ensures written == Raster(Width, Height)
      ensures snapshot == Compose(lens, sources, Width, Height)
      ensures offsets == Tally(old(offsets), Offsets(lens, Grid(Width, Height)))
      ensures counts[..] == TallyCounts(old(counts[..]), Views(lens, Grid(Width, Height)))
    {
      var canvas := new UnmanagedBitmap(Width, Height);
      Render(canvas, lens);
      written := canvas.writes;
      snapshot := canvas.SnapShot();
      canvas.Dispose();
    }

    /** The loops of a redraw: columns left to right, and in each column the
        rows top to bottom. Every pixel of the canvas is written once, and the
        canvas ends up holding the composed picture. */
    method Render(canvas: UnmanagedBitmap, lens: Sampler)
      requires Drawing(canvas) && Bounded(lens) && canvas.Contents() == Blank(Width, Height) && canvas.writes == []
      modifies this`offsets, counts, canvas.bits, canvas`writes
      ensures Drawing(canvas)
      ensures canvas.writes == Raster(Width, Height)
      ensures canvas.Contents() == Compose(lens, sources, Width, Height)
      ensures offsets == Tally(old(offsets), Offsets(lens, Grid(Width, Height)))
      ensures counts[..] == TallyCounts(old(counts[..]), Views(lens, Grid(Width, Height)))
    {
      for px := 0 to Width
        modifies this`offsets, counts, canvas.bits, canvas`writes
        invariant Drawing(canvas)
        invariant canvas.writes == Raster(px, Height)
        invariant offsets == Tally(old(offsets), Offsets(lens, Grid(px, Height)))
        invariant counts[..] == TallyCounts(old(counts[..]), Views(lens, Grid(px, Height)))
        invariant canvas.Contents() == Paint(Blank(Width, Height), Compose(lens, sources, Width, Height), px)
      {
        RenderColumn(canvas, lens, px);
        GridOffsetsStep(lens, old(offsets), px, Height);
        GridCountsStep(lens, old(counts[..]), px, Height);
      }
      PaintAll(Blank(Width, Height), Compose(lens, sources, Width, Height));
    }

    /** One iteration of the outer loop: every row of column px, top to bottom. */
    method RenderColumn(canvas: UnmanagedBitmap, lens: Sampler, px: nat)
      requires Drawing(canvas) && Bounded(lens) && px < Width
      modifies this`offsets, counts, canvas.bits, canvas`writes
      ensures Drawing(canvas)
      ensures canvas.writes == old(canvas.writes) + RasterColumn(px, Height)
      ensures canvas.Contents() == PaintColumn(old(canvas.Contents()), Compose(lens, sources, Width, Height), px, Height)
      ensures offsets == Tally(old(offsets), Offsets(lens, Column(px, Height)))
      ensures counts[..] == TallyCounts(old(counts[..]), Views(lens, Column(px, Height)))
    {
      ghost var start := canvas.Contents();
      for py := 0 to Height
        modifies this`offsets, counts, canvas.bits, canvas`writes
        invariant Drawing(canvas)
        invariant canvas.writes == old(canvas.writes) + RasterColumn(px, py)
        invariant offsets == Tally(old(offsets), Offsets(lens, Column(px, py)))
        invariant counts[..] == TallyCounts(old(counts[..]), Views(lens, Column(px, py)))
        invariant canvas.Contents() == PaintColumn(start, Compose(lens, sources, Width, Height), px, py)
      {
        RenderPixel(canvas, lens, px, py, start, old(offsets), old(counts[..]));
      }
    }

    /** One iteration of the row loop, the body run for output pixel (px, py):
        the pixel composed from its three samples is stored on the canvas, and
        its samples are added to the histograms. */
    method RenderPixel(canvas: UnmanagedBitmap, lens: Sampler, px: nat, py: nat,
                       ghost start: Image, ghost offsets0: map<int, int>, ghost counts0: seq<int>)
      requires Drawing(canvas) && Bounded(lens) && px < Width && py < Height
      requires start.Valid() && start.width == Width && start.height == Height
      requires canvas.Contents() == PaintColumn(start, Compose(lens, sources, Width, Height), px, py)
      requires offsets == Tally(offsets0, Offsets(lens, Column(px, py)))
      requires counts[..] == TallyCounts(counts0, Views(lens, Column(px, py)))
      modifies this`offsets, counts, canvas.bits, canvas`writes
      ensures Drawing(canvas)
      ensures canvas.writes == old(canvas.writes) + [(px, py)]
      ensures canvas.Contents() == PaintColumn(start, Compose(lens, sources, Width, Height), px, py + 1)
      ensures offsets == Tally(offsets0, Offsets(lens, Column(px, py + 1)))
      ensures counts[..] == TallyCounts(counts0, Views(lens, Column(px, py + 1)))
    {
      var p := ComposeComponents(lens, px, py);
      Store(canvas, px, py, p);
      PaintColumnStep(start, Compose(lens, sources, Width, Height), px, py);
      ComposeAt(lens, sources, Width, Height, px, py);
      ColumnOffsetsStep(lens, offsets0, px, py);
      ColumnCountsStep(lens, counts0, px, py);
    }

    /** Writes one output pixel; the views stay loaded, since the canvas
        memory is none of theirs. */
    method Store(canvas: UnmanagedBitmap, px: nat, py: nat, p: PixelData)
      requires Drawing(canvas) && px < Width && py < Height
      modifies canvas.bits, canvas`writes
      ensures Drawing(canvas)
      ensures canvas.writes == old(canvas.writes) + [(px, py)]
      ensures canvas.Contents() == old(canvas.Contents()).Set(px, py, p)
    {
      canvas.SetPixel(px, py, p);
    }

    /** The component loop of one output pixel: components 0, 1 and 2 are
        sampled in order and switched into a fresh pixel. */
    method ComposeComponents(lens: Sampler, px: nat, py: nat) returns (p: PixelData)
      requires Valid() && Loaded() && Bounded(lens)
      requires px < Width && py < Height
      modifies this`offsets, counts
      ensures Loaded()
      ensures p == ComposePixel(lens, sources, Width, Height, px, py)
      ensures offsets == Tally(old(offsets), Offsets(lens, Triple(px, py)))
      ensures counts[..] == TallyCounts(old(counts[..]), Views(lens, Triple(px, py)))
    {
      p := Black;
      for component := 0 to 3
        modifies this`offsets, counts
        invariant Loaded()
        invariant offsets == Tally(old(offsets), Offsets(lens, Triple(px, py)[..component]))
        invariant counts[..] == TallyCounts(old(counts[..]), Views(lens, Triple(px, py)[..component]))
        invariant p == Composed(lens, sources, Width, Height, px, py, component)
      {
        p := ComposeComponent(lens, px, py, component, p, old(offsets), old(counts[..]));
      }
      TripleStep(px, py, 0);
    }

    /** One iteration of the component loop: the component is sampled and
        recorded, and switched into the pixel composed so far. */
    method ComposeComponent(lens: Sampler, px: nat, py: nat, component: nat, p: PixelData,
                            ghost offsets0: map<int, int>, ghost counts0: seq<int>) returns (q: PixelData)
      requires Valid() && Loaded() && Bounded(lens)
      requires px < Width && py < Height && component < 3
      requires p == Composed(lens, sources, Width, Height, px, py, component)
      requires offsets == Tally(offsets0, Offsets(lens, Triple(px, py)[..component]))
      requires counts[..] == TallyCounts(counts0, Views(lens, Triple(px, py)[..component]))
      modifies this`offsets, counts
      ensures Loaded()
      ensures q == Composed(lens, sources, Width, Height, px, py, component + 1)
      ensures offsets == Tally(offsets0, Offsets(lens, Triple(px, py)[..component + 1]))
      ensures counts[..] == TallyCounts(counts0, Views(lens, Triple(px, py)[..component + 1]))
    {
      ghost var offsetsBefore, countsBefore := offsets, counts[..];
      var pixel, pixelOffset, viewIndex := Record(lens, px, py, component);
      q := Take(p, component, pixel);
      ComponentStep(lens, sources, Width, Height, px, py, component, p, offsets0, counts0,
                    offsetsBefore, countsBefore, offsets, counts[..]);
    }

    /** One colour component of one output pixel: its pixel offset is recorded
        in `_offsets`, its view in `_counts`, and the source pixel at the
        clamped column of that view is returned. */
    method Record(lens: Sampler, px: nat, py: nat, component: nat) returns (pixel: PixelData, pixelOffset: int, viewIndex: nat)
      requires Valid() && Loaded() && Bounded(lens)
      requires px < Width && py < Height
      modifies this`offsets, counts
      ensures Loaded()
      ensures pixelOffset == lens.offset(px, py, component) && viewIndex == ViewIndex(lens, px, py, component)
      ensures offsets == Bump(old(offsets), pixelOffset)
      ensures viewIndex < ViewCount && counts[..] == old(counts[..])[viewIndex := old(counts[..])[viewIndex] + 1]
      ensures pixel == Sample(lens, sources, Width, Height, px, py, component)
    {
      pixelOffset := lens.offset(px, py, component);
      CountOffset(pixelOffset);

      var index := lens.rawIndex(px, py, component);
      viewIndex := if index < 0 then -index else index;

      var xread := px + pixelOffset;
      xread := if xread > 0 then xread else 0;
      xread := if xread < Width - 1 then xread else Width - 1;

      pixel := unmanagedImages[viewIndex].GetPixel(xread, py);
      counts[viewIndex] := counts[viewIndex] + 1;
    }

    /** `_offsets[pixelOffset]++`, adding the key with count 0 first when it
        is new. */
    method CountOffset(pixelOffset: int)
      modifies this`offsets
      ensures offsets == Bump(old(offsets), pixelOffset)
    {
      if pixelOffset !in offsets {
        offsets := offsets[pixelOffset := 0];
      }
      offsets := offsets[pixelOffset := offsets[pixelOffset] + 1];
    }
  }
}
