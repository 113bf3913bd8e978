# Lenticular calibration compositor, modelled in Dafny

AutoStereoCalibration shows a calibration picture for a lenticular
(auto-stereoscopic) screen. Eight source views are interleaved under a
micro-lens sheet. For each output pixel and each of its three colour
components, the lens geometry picks a view and a column offset. The chosen
view's pixel is read at the clamped column, and one channel of it is copied
into the output pixel. Two diagnostic histograms record every sample: a
dictionary of pixel offsets and an array of per-view counts. The arrow keys
step the lens angle through its sweep range. When the angle wraps, the step
carries into the lens pitch.

The model covers:

- `Pixels` (`pixels.dfy`): the 3-byte `PixelData` value type (B, G, R in
  memory order) and its byte layout.
- `ScanLines` (`scanlines.dfy`): the 24-bpp scan-line layout both bitmap
  classes share.
  - The stride rule.
  - Pixel addresses and disjoint pixel slots.
  - Byte-level read and write, with read-own-write and read-other-write.
  - Decoding a buffer into a picture (`Image`), and encoding a picture into a
    buffer, with the round trip.
- `Helpers` (`unmanaged_bitmap.dfy`): `Helpers/UnmanagedBitmap.cs`, a class
  that owns a byte array.
  - It is locked as soon as it is built, and `Initialize` computes the stride.
  - It has the lock, unlock and dispose lifecycle.
  - `SnapShot` copies the contents.
  - `GetPixel`, `SetPixel` and `GetPixelInternal` address pixels.
- `Legacy` (`legacy_bitmap.dfy`): the older `UnmanagedBitmap.cs`.
  - It is unlocked when built.
  - `LockBitmap` computes the row length and opens the access window, and
    `UnlockBitmap` closes it again.
- `Sweep` (`sweep.dfy`): the `Forward`/`Backward` state machine over the angle
  and the lens pitch.
- `Lens` (`lens.dfy`): the per-sample geometry of `Redraw`, in exact real
  arithmetic.
  - cos and tan of the angle are inputs.
  - Single-precision `%` is the truncated remainder.
  - `Math.Round` rounds half-way values to the even neighbour.
  - From this follows the bound that the raw view index lies in [-7, 7], so its
    absolute value indexes one of the 8 views.
  - `Sampler` is what the compositor needs from the geometry: the pixel offset
    and the raw view index of each (px, py, component).
- `Histograms` (`histograms.dfy`): counting, the `_offsets` dictionary update
  ("add 0 if absent, then increment"), the `_counts[i]++` update, and their
  totals.
- `Compositor` (`compositor.dfy`): what one redraw computes, as values.
  - The clamped read column and the sampled source pixel.
  - The channel switch and the composed picture.
  - The order of samples: columns, then rows, then components.
  - The canvas after each step of the loops.
  - The histogram contents and totals after a redraw, and the write-once
    property of the loops.
- `Calibrator` (`calibration.dfy`): the `Calibration` window as a class.
  - Its fields are the lens parameters, the loaded views, `_counts`,
    `_offsets` and the picture box's image.
  - The constructor, `Calibration_Load` (with the images passed in), `Forward`,
    `Backward`, `UpdateVariables` and `Redraw`.
  - `Redraw` runs as imperative nested loops that write a fresh
    `UnmanagedBitmap` through `SetPixel` and update the two histograms in
    place.
  - Each loop body is a method of its own (`RenderColumn`, `RenderPixel`,
    `ComposeComponents`, `ComposeComponent`, `Record`), proved against the
    value-level definitions in `Compositor`.

## Model

| member | source | states |
|---|---|---|
| Pixels.ToBytes | Helpers/PixelData.cs:6-12 | a pixel is three bytes, B at the lowest address, then G, then R; reading those bytes back gives the same pixel |
| Pixels.Channel | Helpers/PixelData.cs:9-11 | memory-order channel k of a pixel is byte k of its layout (0 is B, 1 is G, 2 is R) |
| Pixels.BytesRoundTrip | Helpers/PixelData.cs:6-12 | the layout is a bijection: any three bytes read as a pixel and laid out again are the same three bytes |
| ScanLines.Stride | Helpers/UnmanagedBitmap.cs:32-41 | the stride is a multiple of 4 with 3*width <= stride < 3*width + 4 |
| ScanLines.StrideIsLeast | Helpers/UnmanagedBitmap.cs:34-40 | no smaller multiple of 4 holds a row of 3*width bytes |
| ScanLines.Offset | Helpers/UnmanagedBitmap.cs:86-89 | the address y * stride + 3x of pixel (x, y); SlotInRow, SlotInBuffer and SlotsDisjoint place its slot |
| ScanLines.ReadPixel | Helpers/UnmanagedBitmap.cs:74-77 | the pixel read through GetPixelInternal: B, G and R are the three bytes at its offset, in that order |
| ScanLines.SlotInRow | Helpers/UnmanagedBitmap.cs:86-89 | the three bytes of an in-range pixel (x, y) lie inside row y |
| ScanLines.RowsOrdered | Helpers/UnmanagedBitmap.cs:86-89 | row y1 ends at or before row y2 begins, for y1 < y2 |
| ScanLines.SlotInBuffer | Helpers/UnmanagedBitmap.cs:86-89 | the slot of an in-range pixel ends inside a buffer of height*stride bytes |
| ScanLines.SlotsDisjoint | Helpers/UnmanagedBitmap.cs:86-89 | distinct in-range pixels have disjoint three-byte slots |
| ScanLines.WritePixel | Helpers/UnmanagedBitmap.cs:79-84 | writing a pixel changes no byte outside its slot and keeps the buffer's size |
| ScanLines.ReadOwnWrite | Helpers/UnmanagedBitmap.cs:74-84 | reading a pixel just written returns the written value |
| ScanLines.ReadOtherWrite | Helpers/UnmanagedBitmap.cs:74-84 | writing one pixel leaves every other in-range pixel unchanged |
| ScanLines.Image.Set | Helpers/UnmanagedBitmap.cs:79-84 | the picture with one pixel replaced has the same extent and holds the new value there |
| ScanLines.Image.SetOther | Helpers/UnmanagedBitmap.cs:79-84 | replacing one pixel of a picture leaves every other pixel as it was |
| ScanLines.ImageExt | Helpers/UnmanagedBitmap.cs:63-72 | two pictures of the same extent that agree pixel by pixel are equal |
| ScanLines.Blank | Helpers/UnmanagedBitmap.cs:16-22 | a new bitmap is all black, with the requested extent |
| ScanLines.DecodeAt | Helpers/UnmanagedBitmap.cs:74-77 | pixel (x, y) of the picture a buffer holds is the pixel stored in its slot |
| ScanLines.DecodeZeros | Helpers/UnmanagedBitmap.cs:16-22 | a zero-filled buffer holds an all-black picture |
| ScanLines.DecodeWrite | Helpers/UnmanagedBitmap.cs:79-84 | writing a pixel's bytes is replacing that pixel, and only that pixel, in the picture the buffer holds |
| ScanLines.EncodeChannel | Helpers/UnmanagedBitmap.cs:24-30 | channel k of pixel (x, y) of a copied picture sits at byte y*stride + 3x + k of its buffer |
| ScanLines.ReadEncoded | Helpers/UnmanagedBitmap.cs:24-30 | reading a pixel from the buffer of a copied picture gives that picture's pixel |
| ScanLines.DecodeEncode | Helpers/UnmanagedBitmap.cs:24-30 | the buffer of a copied picture holds exactly that picture |
| Helpers.UnmanagedBitmap.Contents | Helpers/UnmanagedBitmap.cs:10-14 | the picture held by a well-formed buffer has the bitmap's width and height |
| Helpers.UnmanagedBitmap.constructor | Helpers/UnmanagedBitmap.cs:16-22 | for a width and height both above 0 (a zero side makes `new Bitmap` throw), a new bitmap has the requested size, is locked, holds an all-black picture and has an empty write log |
| Helpers.UnmanagedBitmap.FromBitmap | Helpers/UnmanagedBitmap.cs:24-30 | the bitmap owns fresh memory, is locked and holds a copy of the source picture, so its writes never reach the source |
| Helpers.UnmanagedBitmap.Initialize | Helpers/UnmanagedBitmap.cs:32-41 | the stride becomes 3*width rounded up to a multiple of 4 |
| Helpers.UnmanagedBitmap.Lock | Helpers/UnmanagedBitmap.cs:43-47 | an unlocked, undisposed bitmap becomes locked |
| Helpers.UnmanagedBitmap.Unlock | Helpers/UnmanagedBitmap.cs:49-54 | a locked bitmap becomes unlocked, so pixel access is no longer allowed |
| Helpers.UnmanagedBitmap.Dispose | Helpers/UnmanagedBitmap.cs:56-61 | the bitmap is unlocked and disposed of; every pixel operation requires it to be locked, and Lock requires it not to be disposed |
| Helpers.UnmanagedBitmap.SnapShot | Helpers/UnmanagedBitmap.cs:63-72 | the snapshot equals the contents, and the bitmap is locked again with its contents unchanged; the snapshot is a value, so later writes do not affect it |
| Helpers.UnmanagedBitmap.GetPixel | Helpers/UnmanagedBitmap.cs:74-77 | the result is the picture's pixel at (x, y), for in-range x and y on a locked bitmap (no bounds check is made) |
| Helpers.UnmanagedBitmap.SetPixel | Helpers/UnmanagedBitmap.cs:79-84 | exactly the three bytes of (x, y) are overwritten; the picture has (x, y) replaced and every other pixel unchanged; (x, y) is appended to the ghost log of writes |
| Helpers.UnmanagedBitmap.GetPixelInternal | Helpers/UnmanagedBitmap.cs:86-89 | the address is y*stride + 3x, and its three bytes lie inside the buffer |
| Legacy.UnmanagedBitmap.FromBitmap | UnmanagedBitmap.cs:16-19 | the bitmap holds a copy of the source picture and is not locked; the row length is still 0 |
| Legacy.UnmanagedBitmap.constructor | UnmanagedBitmap.cs:21-24 | for a width and height both above 0 (a zero side makes `new Bitmap` throw), a new bitmap is all black and not locked; the row length is still 0 |
| Legacy.UnmanagedBitmap.Contents | UnmanagedBitmap.cs:9-14 | the picture held by the buffer has the bitmap's pixel extent |
| Legacy.UnmanagedBitmap.Dispose | UnmanagedBitmap.cs:26-29 | the bitmap is disposed of, without being unlocked; the base pointer then points into freed bits, so GetPixel, SetPixel, PixelAt and UnlockBitmap all require the bitmap not to be disposed |
| Legacy.UnmanagedBitmap.LockBitmap | UnmanagedBitmap.cs:50-74 | the row length becomes 3*width rounded up to a multiple of 4, and the bitmap becomes locked |
| Legacy.UnmanagedBitmap.GetPixel | UnmanagedBitmap.cs:76-81 | on a locked bitmap not yet disposed of, the result is the picture's pixel at (x, y) |
| Legacy.UnmanagedBitmap.SetPixel | UnmanagedBitmap.cs:83-88 | on a locked bitmap not yet disposed of, exactly the slot of (x, y) is overwritten; every other pixel is unchanged |
| Legacy.UnmanagedBitmap.UnlockBitmap | UnmanagedBitmap.cs:90-96 | a locked bitmap not yet disposed of becomes unlocked, ending the access window |
| Legacy.UnmanagedBitmap.PixelAt | UnmanagedBitmap.cs:98-101 | the address is y*width + 3x, where width is the row length, and its slot lies inside the buffer |
| Sweep.Forward | Calibration.cs:217-227 | the angle grows by AngleDelta; past AngleRange it becomes 0 and the pitch grows by exactly PitchDelta, otherwise the pitch is unchanged; the result is never above AngleRange |
| Sweep.Backward | Calibration.cs:229-239 | the angle shrinks by AngleDelta; below AngleStart it becomes AngleRange and the pitch shrinks by exactly PitchDelta, otherwise the pitch is unchanged; the result is never below AngleStart |
| Sweep.ForwardPitchChangesIffWrap | Calibration.cs:217-227 | a forward step changes the pitch if and only if the angle wraps |
| Sweep.BackwardPitchChangesIffWrap | Calibration.cs:229-239 | a backward step changes the pitch if and only if the angle wraps |
| Sweep.StepsKeepRange | Calibration.cs:221-223 | from inside [AngleStart, AngleRange], neither step leaves the range |
| Sweep.BackwardAfterForward | Calibration.cs:217-239 | a backward step undoes a forward step, except that a wrapped angle returns as AngleRange; the pitch is always restored |
| Sweep.ForwardAfterBackward | Calibration.cs:217-239 | a forward step undoes a backward step, except that a wrapped angle returns as 0; the pitch is always restored |
| Sweep.WrapNearEnd | Calibration.cs:219-226 | half a step before the end of the range, a forward step wraps to 0 and adds exactly PitchDelta |
| Calibrator.Calibration.Forward | Calibration.cs:217-227 | the (Angle, PitchLens) fields change exactly as Sweep.Forward says |
| Calibrator.Calibration.Backward | Calibration.cs:229-239 | the (Angle, PitchLens) fields change exactly as Sweep.Backward says |
| Lens.Trunc | Calibration.cs:89 | truncation toward zero: within 1 of its argument, with the same sign and no larger magnitude |
| Lens.FMod | Calibration.cs:89 | the single-precision remainder has magnitude below the divisor's and the sign of the dividend |
| Lens.SignOfRemainder | Calibration.cs:89 | a - b*trunc(a/b) has the sign of a |
| Lens.Round | Calibration.cs:91 | Math.Round gives an integer within 0.5 of its argument, the even one at a tie |
| Lens.RoundWithin | Calibration.cs:98 | a value within m of zero rounds to an integer within m of zero |
| Lens.ScaledRatioIndex | Calibration.cs:19 | any ratio of magnitude at most 1, scaled by NumLenses and rounded, lies in [-7, 7], and 7 < 8 views |
| Lens.MagnificationDefined | Calibration.cs:78 | the geometry has no division by zero if and only if focal point times viewer distance is neither 0 nor 1, the lens pitch is not 0 and cos(Angle) is not 0 |
| Lens.Projection | Calibration.cs:78 | projection * M * cos(Angle) = (M + 1) * PitchLens, and the projection is not 0 |
| Lens.ViewsPerLens | Calibration.cs:80 | viewsPerLens * PitchPixel = projection, and viewsPerLens is not 0 |
| Lens.XOffset | Calibration.cs:86-89 | the x offset is smaller in magnitude than the projection |
| Lens.Row | Calibration.cs:86-87 | component c of output pixel (px, py) is striped onto row l = py + c, which the x offset and the lens phase read |
| Lens.PixelOffset | Calibration.cs:91 | the pixel offset is a whole number within 1/2 of the x offset measured in pixel pitches |
| Lens.LensPhase | Calibration.cs:98 | the phase ratio inside the view index has magnitude below 1 |
| Lens.RatioBelowOne | Calibration.cs:98 | r / v has magnitude below 1 when r has magnitude below that of v |
| Lens.RawViewIndex | Calibration.cs:98 | the view index before its sign is dropped lies in [-NumLenses, NumLenses] |
| Lens.LensSampler | Calibration.cs:86-98 | the sampler of a geometry gives PixelOffset and RawViewIndex for each sample, and its raw indices are bounded |
| Lens.ViewIndex | Calibration.cs:100 | the absolute value of the raw index is at most NumLenses and below 8, so it indexes `_unmanagedImages` |
| Histograms.Count | Calibration.cs:93-96 | a value's number of occurrences never exceeds the length |
| Histograms.CountPositive | Calibration.cs:93-96 | a value occurs a positive number of times if and only if it is present |
| Histograms.CountAppend | Calibration.cs:93-96 | counting distributes over concatenation |
| Histograms.CountSnoc | Calibration.cs:93-96 | counting one more element adds one exactly when it is the value |
| Histograms.Bump | Calibration.cs:93-96 | the `_offsets` update of one sample, whose effect BumpAt states |
| Histograms.BumpAt | Calibration.cs:93-96 | a bump adds the key when absent, raises its count by exactly one and leaves every other key's count unchanged |
| Histograms.Tally | Calibration.cs:93-96 | the `_offsets` dictionary after the bumps of a run of samples, in order; its contents are given by TallyAt and TallyKeys |
| Histograms.TallyAt | Calibration.cs:93-96 | after bumping a run of keys, each key's value has grown by its number of occurrences in the run, starting from 0 for a key never seen |
| Histograms.TallyKeys | Calibration.cs:93-94 | a key is in the dictionary afterwards if and only if it was in it before or was bumped |
| Histograms.TallyAppend | Calibration.cs:93-96 | bumping a run of keys in two parts is bumping the whole run |
| Histograms.TallySnoc | Calibration.cs:93-96 | tallying one more key is one more bump |
| Histograms.SumOverRemove | Calibration.cs:129 | a dictionary's total over some keys is any one key's value plus the total over the rest |
| Histograms.SumOverAgree | Calibration.cs:129 | dictionaries that agree on some keys have the same total over them |
| Histograms.MapSumBump | Calibration.cs:93-96 | one bump adds exactly 1 to the dictionary's total |
| Histograms.MapSumTally | Calibration.cs:93-96 | bumping n keys adds exactly n to the dictionary's total |
| Histograms.SumBump | Calibration.cs:109 | `_counts[i]++` adds exactly 1 to the total of the counts |
| Histograms.TallyCounts | Calibration.cs:109 | the counts array keeps its length |
| Histograms.TallyCountsAt | Calibration.cs:109 | after a run of increments, each count has grown by the number of times its index occurs in the run |
| Histograms.TallyCountsSum | Calibration.cs:109 | when every index is in range, the counts' total grows by the number of increments |
| Histograms.CountsSum | Calibration.cs:109 | counts that grew index by index by each index's occurrences have a total grown by the run's length |
| Histograms.TallyCountsSnoc | Calibration.cs:109 | counting one more in-range index is one more increment |
| Histograms.TallyCountsAppend | Calibration.cs:109 | counting a run of indices in two parts is counting the whole run |
| Compositor.ReadColumn | Calibration.cs:102-105 | the read column is below the canvas width; it is px + pixelOffset when that is in range, 0 when it is negative, and width - 1 when it is too large |
| Compositor.Sample | Calibration.cs:102-107 | a component's source pixel: view ViewIndex at column ReadColumn(px, pixelOffset) and row py, which SampleInBounds shows lies inside that view |
| Compositor.Take | Calibration.cs:111-116 | the component switch: 0 takes the sample's R, 1 its G, 2 its B, and the other two channels are kept |
| Compositor.Composed | Calibration.cs:82-117 | the pixel after c components: it starts black (line 82), and each finished component's channel holds that component's sample channel |
| Compositor.ComposePixel | Calibration.cs:82-117 | the pixel passed to SetPixel: R from component 0's sample, G from component 1's and B from component 2's |
| Compositor.SampleInBounds | Calibration.cs:102-107 | every sample reads an existing view at a column and row inside that view |
| Compositor.ComposedStep | Calibration.cs:111-116 | switching in component c's sample (0 sets R, 1 sets G, 2 sets B) finishes component c of the pixel |
| Compositor.Compose | Calibration.cs:72-120 | the composed picture has the canvas's width and height |
| Compositor.ComposeAt | Calibration.cs:82-119 | each pixel of the composed picture has R from component 0's sample, G from component 1's and B from component 2's |
| Compositor.ComposeComposes | Calibration.cs:72-120 | Compose gives a picture whose every pixel is its composed pixel, and it is the only such picture |
| Compositor.Grid | Calibration.cs:74-84 | the samples of a redraw in loop order: columns left to right, rows top to bottom, components 0 to 2 (length and once-each by GridLength and GridOnce) |
| Compositor.Triple | Calibration.cs:84 | each output pixel takes three samples |
| Compositor.TripleStep | Calibration.cs:84 | the samples of a pixel's first c + 1 components extend those of its first c by component c |
| Compositor.Column | Calibration.cs:76-84 | a column's first `rows` rows take 3 * rows samples |
| Compositor.GridLength | Calibration.cs:74-84 | a redraw of `columns` columns takes 3 * columns * height samples |
| Compositor.ColumnOnce | Calibration.cs:76-84 | a column's run of samples holds each of its (row, component) samples exactly once and no other |
| Compositor.GridOnce | Calibration.cs:74-84 | a redraw takes every (px, py, component) sample of the canvas exactly once and no other |
| Compositor.Offsets | Calibration.cs:91 | a run of samples has one pixel offset per sample |
| Compositor.Views | Calibration.cs:98-100 | a run of samples has one view index per sample, each in [0, 8) |
| Compositor.OffsetsAt | Calibration.cs:91 | the i-th offset of a run is the pixel offset of its i-th sample |
| Compositor.ViewsAt | Calibration.cs:98-100 | the i-th view index of a run is the view index of its i-th sample |
| Compositor.OffsetsAppend | Calibration.cs:91 | the offsets of two runs are the offsets of the first followed by those of the second |
| Compositor.ViewsAppend | Calibration.cs:98-100 | the view indices of two runs are those of the first followed by those of the second |
| Compositor.ColumnOffsetsStep | Calibration.cs:93-96 | tallying one more pixel's offsets extends the column's offset tally by that row |
| Compositor.ColumnCountsStep | Calibration.cs:109 | counting one more pixel's views extends the column's view counts by that row |
| Compositor.GridOffsetsStep | Calibration.cs:93-96 | tallying one more column's offsets extends the redraw's offset tally by that column |
| Compositor.GridCountsStep | Calibration.cs:109 | counting one more column's views extends the redraw's view counts by that column |
| Compositor.OffsetsTripleStep | Calibration.cs:91 | sampling component c appends its pixel offset |
| Compositor.ViewsTripleStep | Calibration.cs:98-100 | sampling component c appends its view index |
| Compositor.OffsetsTallyStep | Calibration.cs:93-96 | one `_offsets` bump at component c's pixel offset extends the pixel's offset tally by component c |
| Compositor.CountsTallyStep | Calibration.cs:109 | one `_counts` increment at component c's view extends the pixel's view counts by component c |
| Compositor.ComponentStep | Calibration.cs:84-116 | one component iteration (sample switched in, both histograms bumped) carries the composed pixel and both tallies from component c to c + 1 |
| Compositor.PaintColumn | Calibration.cs:76-119 | writing part of a column keeps the canvas's extent |
| Compositor.Paint | Calibration.cs:74-119 | writing the first columns keeps the canvas's extent |
| Compositor.PaintColumnAt | Calibration.cs:76-119 | after the first `rows` rows of column px are copied from a target picture (the composed one, in Render), exactly those pixels hold the target's values and every other pixel is unchanged |
| Compositor.PaintColumnStep | Calibration.cs:119 | writing one more row of a column is one SetPixel of the target's pixel there |
| Compositor.PaintAt | Calibration.cs:74-119 | after the first columns are written, exactly their pixels hold the target's values and every other pixel is unchanged |
| Compositor.PaintAll | Calibration.cs:74-119 | writing every column of a canvas of the target's size leaves it equal to the target |
| Compositor.GridTotals | Calibration.cs:93-96 | a whole redraw adds exactly 3 * Width * Height to the total of `_offsets` and to the total of `_counts` |
| Compositor.GridCountsAt | Calibration.cs:109 | view v's count grows by the number of samples a redraw takes from view v |
| Compositor.RasterLength | Calibration.cs:74-76 | the loops write columns * height pixels |
| Compositor.RasterColumn | Calibration.cs:76 | a column's first `rows` rows are `rows` pixels |
| Compositor.RasterOnce | Calibration.cs:74-76 | the loops write every pixel of the canvas exactly once and nothing outside it |
| Compositor.RasterColumnOnce | Calibration.cs:76 | the row loop of column px writes each of its rows exactly once and nothing else |
| Calibrator.Calibration.constructor | Calibration.cs:13-51 | the initial viewer distance, focal point, angle and pitch; the canvas takes the picture box's size, which must be non-zero in both directions for the redraw's `new UnmanagedBitmap` to succeed; no views are loaded; both histograms are empty or zero |
| Calibrator.Calibration.Load | Calibration.cs:53-65 | eight fresh, locked views holding copies of the images, then the magnification is recomputed and the picture box holds the composed picture |
| Calibrator.Calibration.LoadViews | Calibration.cs:55-59 | the image loop: view i becomes a fresh, locked bitmap holding a copy of image i, for all eight views |
| Calibrator.Calibration.UpdateVariables | Calibration.cs:135-142 | MicroLensMagnification becomes MicroLensFocalPoint * ViewerDistance - 1, and the redraw that follows, with that magnification, leaves the composed picture in the picture box |
| Calibrator.Calibration.Redraw | Calibration.cs:70-126 | the canvas's SetPixel log is Raster(Width, Height), so the pixels are written in raster order, each exactly once (with RasterOnce); the picture box gets the composed picture; `_offsets` and `_counts` are tallied over every (pixel, component) sample in loop order, and each total grows by exactly 3 * Width * Height; neither is reset |
| Calibrator.Calibration.DrawCanvas | Calibration.cs:72-125 | a fresh canvas of the picture box's size is filled, snapshotted and disposed: its SetPixel log is Raster(Width, Height), the snapshot is the composed picture, and both histograms are tallied over the grid |
| Calibrator.Calibration.Render | Calibration.cs:74-121 | the column loop: starting from an empty write log, the canvas's SetPixel log ends as Raster(Width, Height), each pixel once, and the canvas ends up holding the composed picture with both histograms tallied over the grid |
| Calibrator.Calibration.RenderColumn | Calibration.cs:76-120 | the row loop of column px paints that column, appends RasterColumn(px, Height) to the canvas's SetPixel log, and tallies its samples |
| Calibrator.Calibration.RenderPixel | Calibration.cs:77-119 | one row iteration: the composed pixel is stored at (px, py) by one SetPixel, logged as (px, py), and its three samples are tallied |
| Calibrator.Calibration.Store | Calibration.cs:119 | one SetPixel on the canvas replaces exactly pixel (px, py) and logs it, and the views are unaffected |
| Calibrator.Calibration.ComposeComponents | Calibration.cs:82-117 | the component loop builds the composed pixel from a black one and records its three samples in order |
| Calibrator.Calibration.ComposeComponent | Calibration.cs:84-116 | one component iteration switches the sample into the pixel and records it in both histograms |
| Calibrator.Calibration.CountOffset | Calibration.cs:93-96 | `_offsets[pixelOffset]` rises by one, the key being added with count 0 first when absent; every other key is unchanged |
| Calibrator.Calibration.Record | Calibration.cs:91-109 | `_offsets` is bumped at the pixel offset (added as 0 first when absent); the index is made non-negative and below 8; `_counts` at that index is incremented and nothing else changes; the sample is read from that view at the clamped column and row py |

## Left out

- Floating point: the geometry (lines 78-98 of Calibration.cs) uses single-precision floats and `Math.Cos`/`Math.Tan`. The model uses exact reals and takes cos(Angle) and tan(Angle) as inputs. Its pixel offsets and view indices can differ from the program's where float rounding matters. The bound |raw view index| <= 7 holds in both, because it needs only a ratio of magnitude at most 1 (`Lens.ScaledRatioIndex`).
- Sweep.BackwardAfterForward, Sweep.ForwardAfterBackward: the steps undo each other in exact reals only. `Forward` and `Backward` (Calibration.cs:217-239) step single-precision floats, where adding and then subtracting a delta need not give back the starting value.
- Constants: `float` constants such as 0.001f, 0.015f and 2.845976f are the decimal reals they are written as, not their nearest single-precision values. AngleRange is the single-precision value of `(float)Math.PI * 2.1f`.
- Calibrator.Calibration.Redraw requires the geometry to have no division by zero (magnification not 0 or -1, pitch not 0, cos(Angle) not 0). The source has no guard. A focal point of 0 or a lens pitch of 0, both slider minimums (Calibration.cs:160, 171), make the projection zero, so the remainder at line 89 is NaN. C# leaves the conversion of NaN to `int` unspecified; where it gives int.MinValue, the index is still negative after line 100 and the view lookup at line 107 throws, so the redraw fails instead of drawing.
- Calibrator.Calibration.Redraw requires the loaded views to be at least as large as the canvas. `GetPixel` does no bounds check, so the source silently depends on this.
- Calibrator.Calibration.UpdateVariables: its contract states the magnification and the resulting picture but not the histogram tallies; those are stated once, on Redraw, which it calls.
- Calibrator.Calibration.Load: its contract states the loaded views, the magnification and the picture but not the histogram tallies of the redraw it runs; those are stated on Redraw.
- `Parallel.For` over rows is modelled as a sequential loop. The writes go to disjoint pixels. The unsynchronized `_offsets`/`_counts` updates are modelled as if they ran one at a time. In the program, concurrent updates can lose increments, and concurrent `ContainsKey`/`Add` calls on the dictionary (Calibration.cs:93-94) can throw a duplicate-key exception or corrupt the dictionary in the middle of a redraw.
- `Calibration_Load` reads `Images\sampleN.bmp` from disk. Here the eight images are a parameter, and `UpdateLabel` and `Focus` are not modelled.
- The constructor's `InitializeComponent` and the trackbar set-up (Calibration.cs:35, 40-50) are user interface. The trackbar handlers and the slider-to-float mapping are not modelled either.
- Key handling, sounds, the `Process` loop with `Application.DoEvents`, `Screenshot`, `UpdateLabel`, `UpdateImage` and `pictureBox.Refresh` are user interface or file output.
- Calibration.Designer.cs is not part of this model. It is WinForms layout.
- `System.Drawing`'s `Bitmap`, `LockBits`, `UnlockBits`, `GetBounds` and `Scan0` are replaced by an owned byte array. The array holds `height` scan lines of `Stride(width)` bytes, and a `locked` flag stands for the base pointer being set.
- `Helpers.UnmanagedBitmap.SnapShot`: the copy is a value (`Image`), not a new `Bitmap` object. Bitmap-object identity and `Bitmap` disposal are not modelled.
- The legacy `Bitmap` property and `PixelSize` property (UnmanagedBitmap.cs:31-48) only expose the wrapped `Bitmap` and its bounds. They are not modelled.
- The legacy `PixelData` struct (UnmanagedBitmap.cs:104-109) has the same field order as the Helpers one, so both are the single type `Pixels.PixelData`.
- Integer widths: coordinates and counts are unbounded, and 32-bit wrap-around is not modelled. Byte addresses (`y * _stride`) stay far below 2^31 for the bitmap sizes in use. The histogram counters do not: they are never reset, and each redraw adds 3 * Width * Height samples, all to one `_offsets` key when every pixel offset rounds to 0. In the program such a counter wraps past int.MaxValue after a few thousand redraws of a picture box a few hundred pixels square.
- Histograms.MapSumTally, Histograms.TallyCountsSum: the totals hold for unbounded integers only; the program's 32-bit counters eventually wrap.
- Calibrator.Calibration.Redraw: its `+ 3 * Width * Height` totals hold for unbounded integers only, for the same reason.
