/** What one redraw computes, as values: for each output pixel and colour
    component, which view is sampled and at which column, the composed
    picture, and the order in which samples are taken (columns outermost, then
    rows, then the three components), which fixes what the histograms record. */
module Compositor {
  import opened Pixels
  import opened ScanLines
  import opened Lens
  import opened Histograms

  /** `xread`: px + pixelOffset, first raised to at least 0 and then lowered to
      at most width - 1. */
  function ReadColumn(px: int, pixelOffset: int, width: nat): (x: nat)
    requires width > 0
    ensures x < width
    ensures 0 <= px + pixelOffset < width ==> x == px + pixelOffset
    ensures px + pixelOffset < 0 ==> x == 0
    ensures px + pixelOffset >= width ==> x == width - 1
  {
    var xread := px + pixelOffset;
    var raised := if xread > 0 then xread else 0;
    if raised < width - 1 then raised else width - 1
  }

  /** The eight source views are valid pictures at least as large as the canvas. */
  ghost predicate Covers(views: seq<Image>, width: nat, height: nat)
  {
    |views| == ViewCount &&
    forall i :: 0 <= i < |views| ==> views[i].Valid() && width <= views[i].width && height <= views[i].height
  }

  /** The source pixel read for one component of output pixel (px, py): from
      view ViewIndex, at column ReadColumn and the same row. */
  function Sample(lens: Sampler, views: seq<Image>, width: nat, height: nat, px: nat, py: nat, component: nat): PixelData
    requires Bounded(lens) && Covers(views, width, height) && px < width && py < height
  {
    var view := views[ViewIndex(lens, px, py, component)];
    view.At(ReadColumn(px, lens.offset(px, py, component), width), py)
  }

  /** The component switch: component 0 sets red, 1 green and 2 blue from the
      sample; any other component leaves the pixel as it is. */
  function Take(p: PixelData, component: nat, sample: PixelData): PixelData
  {
    match component
    case 0 => p.(R := sample.R)
    case 1 => p.(G := sample.G)
    case 2 => p.(B := sample.B)
    case _ => p
  }

  /** The output pixel after its first c components: a fresh (black) pixel
      whose red, green and blue are taken from the samples of components 0, 1
      and 2 once those components are done. */
  function Composed(lens: Sampler, views: seq<Image>, width: nat, height: nat, px: nat, py: nat, c: nat): PixelData
    requires Bounded(lens) && Covers(views, width, height) && px < width && py < height
  {
    PixelData(B := if 2 < c then Sample(lens, views, width, height, px, py, 2).B else 0,
              G := if 1 < c then Sample(lens, views, width, height, px, py, 1).G else 0,
              R := if 0 < c then Sample(lens, views, width, height, px, py, 0).R else 0)
  }

  /** The output pixel: all three components switched in. */
  function ComposePixel(lens: Sampler, views: seq<Image>, width: nat, height: nat, px: nat, py: nat): PixelData
    requires Bounded(lens) && Covers(views, width, height) && px < width && py < height
  {
    Composed(lens, views, width, height, px, py, 3)
  }

  /** Switching in component c's sample is finishing component c. */
  lemma ComposedStep(lens: Sampler, views: seq<Image>, width: nat, height: nat, px: nat, py: nat, c: nat)
    requires Bounded(lens) && Covers(views, width, height) && px < width && py < height && c < 3
    ensures Take(Composed(lens, views, width, height, px, py, c), c, Sample(lens, views, width, height, px, py, c))
         == Composed(lens, views, width, height, px, py, c + 1)
  {
  }

  /** The canvas a redraw produces. */
  function Compose(lens: Sampler, views: seq<Image>, width: nat, height: nat): (img: Image)
    requires Bounded(lens) && Covers(views, width, height)
    ensures img.Valid() && img.width == width && img.height == height
  {
    Image(width, height, seq(height, py requires 0 <= py < height =>
      seq(width, px requires 0 <= px < width => ComposePixel(lens, views, width, height, px, py))))
  }

  /** Every pixel of the composed picture is its composed pixel. */
  lemma ComposeAt(lens: Sampler, views: seq<Image>, width: nat, height: nat, px: nat, py: nat)
    requires Bounded(lens) && Covers(views, width, height) && px < width && py < height
    ensures Compose(lens, views, width, height).At(px, py) == ComposePixel(lens, views, width, height, px, py)
  {
  }

  /** `picture` is the composed picture: every pixel is its composed pixel. */
  ghost predicate Composes(picture: Image, lens: Sampler, views: seq<Image>, width: nat, height: nat)
  {
    Bounded(lens) && Covers(views, width, height) &&
    picture.Valid() && picture.width == width && picture.height == height &&
    forall x: nat, y: nat :: x < width && y < height ==> picture.At(x, y) == ComposePixel(lens, views, width, height, x, y)
  }

  /** Compose computes the composed picture, and it is the only one. */
  lemma ComposeComposes(lens: Sampler, views: seq<Image>, width: nat, height: nat, other: Image)
    requires Bounded(lens) && Covers(views, width, height)
    ensures Composes(Compose(lens, views, width, height), lens, views, width, height)
    ensures Composes(other, lens, views, width, height) ==> other == Compose(lens, views, width, height)
  {
    var picture := Compose(lens, views, width, height);
    forall x: nat, y: nat | x < width && y < height
      ensures picture.At(x, y) == ComposePixel(lens, views, width, height, x, y)
    {
      ComposeAt(lens, views, width, height, x, y);
    }
    if Composes(other, lens, views, width, height) {
      ImageExt(other, picture);
    }
  }

  /** The read position and view of every sample lie inside the sources. */
  lemma SampleInBounds(lens: Sampler, views: seq<Image>, width: nat, height: nat, px: nat, py: nat, component: nat)
    requires Bounded(lens) && Covers(views, width, height) && px < width && py < height
    ensures ViewIndex(lens, px, py, component) < |views|
    ensures ReadColumn(px, lens.offset(px, py, component), width) < views[ViewIndex(lens, px, py, component)].width
    ensures py < views[ViewIndex(lens, px, py, component)].height
  {
  }

  /** One (pixel, component) sample. */
  datatype Cell = Cell(px: nat, py: nat, component: nat)

  /** The three samples of pixel (px, py), components in order. */
  function Triple(px: nat, py: nat): (cells: seq<Cell>)
    ensures |cells| == 3
  {
    [Cell(px, py, 0), Cell(px, py, 1), Cell(px, py, 2)]
  }

  /** The samples of a pixel's first c + 1 components extend those of its first c. */
  lemma TripleStep(px: nat, py: nat, c: nat)
    requires c < 3
    ensures Triple(px, py)[..c + 1] == Triple(px, py)[..c] + [Cell(px, py, c)]
    ensures Triple(px, py)[..3] == Triple(px, py)
  {
  }

  /** Samples of column px for its first `rows` rows, in order. */
  function Column(px: nat, rows: nat): (cells: seq<Cell>)
    ensures |cells| == 3 * rows
  {
    if rows == 0 then [] else Column(px, rows - 1) + Triple(px, rows - 1)
  }

  /** Samples of the first `columns` columns of a canvas `height` rows high, in order. */
  function Grid(columns: nat, height: nat): (cells: seq<Cell>)
  {
    if columns == 0 then [] else Grid(columns - 1, height) + Column(columns - 1, height)
  }

  /** A redraw of `columns` columns takes three samples a pixel. */
  lemma {:induction false} GridLength(columns: nat, height: nat)
    ensures |Grid(columns, height)| == 3 * columns * height
  {
    if columns > 0 {
      GridLength(columns - 1, height);
      assert 3 * (columns - 1) * height + 3 * height == 3 * columns * height;
    }
  }

  /** A sample is in a column's first rows exactly once if it belongs there, else never. */
  lemma {:induction false} ColumnOnce(px: nat, rows: nat, c: Cell)
    ensures Count(Column(px, rows), c) == if c.px == px && c.py < rows && c.component < 3 then 1 else 0
  {
    if rows > 0 {
      ColumnOnce(px, rows - 1, c);
      CountAppend(Column(px, rows - 1), Triple(px, rows - 1), c);
      assert Triple(px, rows - 1) == [Cell(px, rows - 1, 0)] + [Cell(px, rows - 1, 1)] + [Cell(px, rows - 1, 2)];
      CountAppend([Cell(px, rows - 1, 0)] + [Cell(px, rows - 1, 1)], [Cell(px, rows - 1, 2)], c);
      CountAppend([Cell(px, rows - 1, 0)], [Cell(px, rows - 1, 1)], c);
    }
  }

  /** A redraw takes every sample of the canvas exactly once and no other. */
  lemma {:induction false} GridOnce(columns: nat, height: nat, c: Cell)
    ensures Count(Grid(columns, height), c) == if c.px < columns && c.py < height && c.component < 3 then 1 else 0
  {
    if columns > 0 {
      GridOnce(columns - 1, height, c);
      ColumnOnce(columns - 1, height, c);
      CountAppend(Grid(columns - 1, height), Column(columns - 1, height), c);
    }
  }

  /** The pixel offsets of a run of samples, in order. */
  function Offsets(lens: Sampler, cells: seq<Cell>): (keys: seq<int>)
    requires Bounded(lens)
    ensures |keys| == |cells|
  {
    if |cells| == 0 then []
    else
      var c := cells[|cells| - 1];
      Offsets(lens, cells[..|cells| - 1]) + [lens.offset(c.px, c.py, c.component)]
  }

  /** The view indices of a run of samples, in order; each selects one of the
      eight views. */
  function Views(lens: Sampler, cells: seq<Cell>): (indices: seq<int>)
    requires Bounded(lens)
    ensures |indices| == |cells|
    ensures forall i :: 0 <= i < |cells| ==> 0 <= indices[i] < ViewCount
  {
    if |cells| == 0 then []
    else
      var c := cells[|cells| - 1];
      Views(lens, cells[..|cells| - 1]) + [ViewIndex(lens, c.px, c.py, c.component) as int]
  }

  /** The i-th offset is that of the i-th sample. */
  lemma {:induction false} OffsetsAt(lens: Sampler, cells: seq<Cell>, i: nat)
    requires Bounded(lens) && i < |cells|
    ensures Offsets(lens, cells)[i] == lens.offset(cells[i].px, cells[i].py, cells[i].component)
  {
    if i < |cells| - 1 {
      OffsetsAt(lens, cells[..|cells| - 1], i);
    }
  }

  /** The i-th view index is that of the i-th sample. */
  lemma {:induction false} ViewsAt(lens: Sampler, cells: seq<Cell>, i: nat)
    requires Bounded(lens) && i < |cells|
    ensures Views(lens, cells)[i] == ViewIndex(lens, cells[i].px, cells[i].py, cells[i].component) as int
  {
    if i < |cells| - 1 {
      ViewsAt(lens, cells[..|cells| - 1], i);
    }
  }

  lemma {:induction false} OffsetsAppend(lens: Sampler, a: seq<Cell>, b: seq<Cell>)
    requires Bounded(lens)
    ensures Offsets(lens, a + b) == Offsets(lens, a) + Offsets(lens, b)
  {
    if |b| == 0 {
      assert a + b == a;
    } else {
      assert (a + b)[..|a + b| - 1] == a + b[..|b| - 1];
      OffsetsAppend(lens, a, b[..|b| - 1]);
    }
  }

  lemma {:induction false} ViewsAppend(lens: Sampler, a: seq<Cell>, b: seq<Cell>)
    requires Bounded(lens)
    ensures Views(lens, a + b) == Views(lens, a) + Views(lens, b)
  {
    if |b| == 0 {
      assert a + b == a;
    } else {
      assert (a + b)[..|a + b| - 1] == a + b[..|b| - 1];
      ViewsAppend(lens, a, b[..|b| - 1]);
    }
  }

  /** Tallying the samples of one more row of a column. */
  lemma ColumnOffsetsStep(lens: Sampler, m: map<int, int>, px: nat, py: nat)
    requires Bounded(lens)
    ensures Tally(Tally(m, Offsets(lens, Column(px, py))), Offsets(lens, Triple(px, py))) == Tally(m, Offsets(lens, Column(px, py + 1)))
  {
    OffsetsAppend(lens, Column(px, py), Triple(px, py));
    TallyAppend(m, Offsets(lens, Column(px, py)), Offsets(lens, Triple(px, py)));
  }

  /** Counting the views of one more row of a column. */
  lemma ColumnCountsStep(lens: Sampler, counts: seq<int>, px: nat, py: nat)
    requires Bounded(lens)
    ensures TallyCounts(TallyCounts(counts, Views(lens, Column(px, py))), Views(lens, Triple(px, py))) == TallyCounts(counts, Views(lens, Column(px, py + 1)))
  {
    ViewsAppend(lens, Column(px, py), Triple(px, py));
    TallyCountsAppend(counts, Views(lens, Column(px, py)), Views(lens, Triple(px, py)));
  }

  /** Tallying the samples of one more column of the grid. */
  lemma GridOffsetsStep(lens: Sampler, m: map<int, int>, px: nat, height: nat)
    requires Bounded(lens)
    ensures Tally(Tally(m, Offsets(lens, Grid(px, height))), Offsets(lens, Column(px, height))) == Tally(m, Offsets(lens, Grid(px + 1, height)))
  {
    OffsetsAppend(lens, Grid(px, height), Column(px, height));
    TallyAppend(m, Offsets(lens, Grid(px, height)), Offsets(lens, Column(px, height)));
  }

  /** Counting the views of one more column of the grid. */
  lemma GridCountsStep(lens: Sampler, counts: seq<int>, px: nat, height: nat)
    requires Bounded(lens)
    ensures TallyCounts(TallyCounts(counts, Views(lens, Grid(px, height))), Views(lens, Column(px, height))) == TallyCounts(counts, Views(lens, Grid(px + 1, height)))
  {
    ViewsAppend(lens, Grid(px, height), Column(px, height));
    TallyCountsAppend(counts, Views(lens, Grid(px, height)), Views(lens, Column(px, height)));
  }

  /** Sampling one more component of a pixel adds its offset. */
  lemma OffsetsTripleStep(lens: Sampler, px: nat, py: nat, c: nat)
    requires Bounded(lens) && c < 3
    ensures Offsets(lens, Triple(px, py)[..c + 1]) == Offsets(lens, Triple(px, py)[..c]) + [lens.offset(px, py, c)]
  {
    TripleStep(px, py, c);
    var s := Triple(px, py)[..c] + [Cell(px, py, c)];
    assert s[..|s| - 1] == Triple(px, py)[..c];
  }

  /** Sampling one more component of a pixel adds its view index. */
  lemma ViewsTripleStep(lens: Sampler, px: nat, py: nat, c: nat)
    requires Bounded(lens) && c < 3
    ensures Views(lens, Triple(px, py)[..c + 1]) == Views(lens, Triple(px, py)[..c]) + [ViewIndex(lens, px, py, c) as int]
  {
    TripleStep(px, py, c);
    var s := Triple(px, py)[..c] + [Cell(px, py, c)];
    assert s[..|s| - 1] == Triple(px, py)[..c];
  }

  /** Recording component `c` of pixel `(px, py)` with one bump of
      `_offsets` at its pixel offset extends the offset tally by that
      component. */
  lemma OffsetsTallyStep(lens: Sampler, px: nat, py: nat, c: nat,
                         offsets0: map<int, int>, before: map<int, int>, after: map<int, int>)
    requires Bounded(lens) && c < 3
    requires before == Tally(offsets0, Offsets(lens, Triple(px, py)[..c]))
    requires after == Bump(before, lens.offset(px, py, c))
    ensures after == Tally(offsets0, Offsets(lens, Triple(px, py)[..c + 1]))
  {
    var keys := Offsets(lens, Triple(px, py)[..c]);
    OffsetsTripleStep(lens, px, py, c);
    TallySnoc(offsets0, keys, lens.offset(px, py, c));
  }

  /** Recording component `c` of pixel `(px, py)` with one increment of
      `_counts` at its view extends the view tally by that component. */
  lemma CountsTallyStep(lens: Sampler, px: nat, py: nat, c: nat,
                        counts0: seq<int>, before: seq<int>, after: seq<int>)
    requires Bounded(lens) && c < 3 && ViewIndex(lens, px, py, c) < |counts0|
    requires before == TallyCounts(counts0, Views(lens, Triple(px, py)[..c]))
    requires after == before[ViewIndex(lens, px, py, c) := before[ViewIndex(lens, px, py, c)] + 1]
    ensures after == TallyCounts(counts0, Views(lens, Triple(px, py)[..c + 1]))
  {
    var indices := Views(lens, Triple(px, py)[..c]);
    ViewsTripleStep(lens, px, py, c);
    TallyCountsSnoc(counts0, indices, ViewIndex(lens, px, py, c));
  }

  /** One iteration of the component loop, as values: switching component
      c's sample into the pixel composed so far, bumping `_offsets` at its
      pixel offset and incrementing `_counts` at its view finish component c
      of the pixel and of both tallies. */
  lemma ComponentStep(lens: Sampler, views: seq<Image>, width: nat, height: nat, px: nat, py: nat, c: nat,
                      p: PixelData, offsets0: map<int, int>, counts0: seq<int>,
                      offsetsBefore: map<int, int>, countsBefore: seq<int>,
                      offsets: map<int, int>, counts: seq<int>)
    requires Bounded(lens) && Covers(views, width, height) && px < width && py < height && c < 3
    requires |counts0| == ViewCount
    requires p == Composed(lens, views, width, height, px, py, c)
    requires offsetsBefore == Tally(offsets0, Offsets(lens, Triple(px, py)[..c]))
    requires countsBefore == TallyCounts(counts0, Views(lens, Triple(px, py)[..c]))
    requires offsets == Bump(offsetsBefore, lens.offset(px, py, c))
    requires counts == countsBefore[ViewIndex(lens, px, py, c) := countsBefore[ViewIndex(lens, px, py, c)] + 1]
    ensures Take(p, c, Sample(lens, views, width, height, px, py, c)) == Composed(lens, views, width, height, px, py, c + 1)
    ensures offsets == Tally(offsets0, Offsets(lens, Triple(px, py)[..c + 1]))
    ensures counts == TallyCounts(counts0, Views(lens, Triple(px, py)[..c + 1]))
  {
    ComposedStep(lens, views, width, height, px, py, c);
    OffsetsTallyStep(lens, px, py, c, offsets0, offsetsBefore, offsets);
    CountsTallyStep(lens, px, py, c, counts0, countsBefore, counts);
  }

  /** The canvas after the first `rows` pixels of column px are written, top
      to bottom, each with the pixel of `target` at the same place. */
  function PaintColumn(canvas: Image, target: Image, px: nat, rows: nat): (img: Image)
    requires canvas.Valid() && target.Valid() && target.width == canvas.width && target.height == canvas.height
    requires px < canvas.width && rows <= canvas.height
    ensures img.Valid() && img.width == canvas.width && img.height == canvas.height
  {
    if rows == 0 then canvas
    else PaintColumn(canvas, target, px, rows - 1).Set(px, rows - 1, target.At(px, rows - 1))
  }

  /** The canvas after its first `columns` columns are written, left to right. */
  function Paint(canvas: Image, target: Image, columns: nat): (img: Image)
    requires canvas.Valid() && target.Valid() && target.width == canvas.width && target.height == canvas.height
    requires columns <= canvas.width
    ensures img.Valid() && img.width == canvas.width && img.height == canvas.height
  {
    if columns == 0 then canvas
    else PaintColumn(Paint(canvas, target, columns - 1), target, columns - 1, canvas.height)
  }

  /** Writing part of a column changes exactly those pixels, to the target's. */
  lemma {:induction false} PaintColumnAt(canvas: Image, target: Image, px: nat, rows: nat, x: nat, y: nat)
    requires canvas.Valid() && target.Valid() && target.width == canvas.width && target.height == canvas.height
    requires px < canvas.width && rows <= canvas.height && x < canvas.width && y < canvas.height
    ensures PaintColumn(canvas, target, px, rows).At(x, y) == if x == px && y < rows then target.At(x, y) else canvas.At(x, y)
  {
    if rows > 0 && !(x == px && y == rows - 1) {
      PaintColumn(canvas, target, px, rows - 1).SetOther(px, rows - 1, target.At(px, rows - 1), x, y);
      PaintColumnAt(canvas, target, px, rows - 1, x, y);
    }
  }

  /** Writing one more pixel of a column. */
  lemma PaintColumnStep(canvas: Image, target: Image, px: nat, py: nat)
    requires canvas.Valid() && target.Valid() && target.width == canvas.width && target.height == canvas.height
    requires px < canvas.width && py < canvas.height
    ensures PaintColumn(canvas, target, px, py + 1) == PaintColumn(canvas, target, px, py).Set(px, py, target.At(px, py))
  {
  }

  /** Writing the first columns changes exactly their pixels, to the target's. */
  lemma {:induction false} PaintAt(canvas: Image, target: Image, columns: nat, x: nat, y: nat)
    requires canvas.Valid() && target.Valid() && target.width == canvas.width && target.height == canvas.height
    requires columns <= canvas.width && x < canvas.width && y < canvas.height
    ensures Paint(canvas, target, columns).At(x, y) == if x < columns then target.At(x, y) else canvas.At(x, y)
  {
    if columns > 0 {
      var prev := Paint(canvas, target, columns - 1);
      PaintAt(canvas, target, columns - 1, x, y);
      PaintColumnAt(prev, target, columns - 1, canvas.height, x, y);
    }
  }

  /** Writing every column of a canvas leaves it holding exactly the target. */
  lemma PaintAll(canvas: Image, target: Image)
    requires canvas.Valid() && target.Valid() && target.width == canvas.width && target.height == canvas.height
    ensures Paint(canvas, target, canvas.width) == target
  {
    var painted := Paint(canvas, target, canvas.width);
    forall x: nat, y: nat | x < canvas.width && y < canvas.height
      ensures painted.At(x, y) == target.At(x, y)
    {
      PaintAt(canvas, target, canvas.width, x, y);
    }
    ImageExt(painted, target);
  }

  /** A whole redraw adds 3 * width * height to the total of the offset
      dictionary, and to the total of the per-view counts when each count
      grows by the number of samples taken from its view. */
  lemma GridTotals(lens: Sampler, width: nat, height: nat, m: map<int, int>, counts: seq<int>)
    requires Bounded(lens) && |counts| == ViewCount
    ensures MapSum(Tally(m, Offsets(lens, Grid(width, height)))) == MapSum(m) + 3 * width * height
    ensures Sum(TallyCounts(counts, Views(lens, Grid(width, height)))) == Sum(counts) + 3 * width * height
  {
    GridLength(width, height);
    MapSumTally(m, Offsets(lens, Grid(width, height)));
    TallyCountsSum(counts, Views(lens, Grid(width, height)));
  }

  /** View v's count grows by the number of samples a redraw takes from view v. */
  lemma GridCountsAt(lens: Sampler, width: nat, height: nat, counts: seq<int>, v: nat)
    requires Bounded(lens) && v < |counts|
    ensures TallyCounts(counts, Views(lens, Grid(width, height)))[v] == counts[v] + Count(Views(lens, Grid(width, height)), v)
  {
    TallyCountsAt(counts, Views(lens, Grid(width, height)), v);
  }

  /** Output pixels in the order they are written: columns outermost. */
  function Raster(columns: nat, height: nat): (pixels: seq<(nat, nat)>)
  {
    if columns == 0 then [] else Raster(columns - 1, height) + RasterColumn(columns - 1, height)
  }

  /** A redraw of `columns` columns writes columns * height pixels. */
  lemma {:induction false} RasterLength(columns: nat, height: nat)
    ensures |Raster(columns, height)| == columns * height
  {
    if columns > 0 {
      RasterLength(columns - 1, height);
      assert (columns - 1) * height + height == columns * height;
    }
  }

  /** The first `rows` pixels of column px, top to bottom. */
  function RasterColumn(px: nat, rows: nat): (pixels: seq<(nat, nat)>)
    ensures |pixels| == rows
  {
    if rows == 0 then [] else RasterColumn(px, rows - 1) + [(px, rows - 1)]
  }

  /** Every pixel of the canvas is written exactly once and nothing outside it is. */
  lemma {:induction false} RasterOnce(columns: nat, height: nat, x: nat, y: nat)
    ensures Count(Raster(columns, height), (x, y)) == if x < columns && y < height then 1 else 0
  {
    if columns > 0 {
      RasterOnce(columns - 1, height, x, y);
      RasterColumnOnce(columns - 1, height, x, y);
      CountAppend(Raster(columns - 1, height), RasterColumn(columns - 1, height), (x, y));
    }
  }

  lemma {:induction false} RasterColumnOnce(px: nat, rows: nat, x: nat, y: nat)
    ensures Count(RasterColumn(px, rows), (x, y)) == if x == px && y < rows then 1 else 0
  {
    if rows > 0 {
      RasterColumnOnce(px, rows - 1, x, y);
      CountAppend(RasterColumn(px, rows - 1), [(px, rows - 1)], (x, y));
    }
  }
}
