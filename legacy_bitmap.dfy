/** UnmanagedBitmap.cs: the older variant of the raw bitmap. It is not locked
    when built: the row length and base pointer are set by LockBitmap and the
    pointer is cleared again by UnlockBitmap, so pixel access is only valid in
    between. */
module Legacy {
  import opened Pixels
  import opened ScanLines

  class UnmanagedBitmap {
    /** Bounds of the owned bitmap, in pixels. */
    const pixelWidth: nat
    const pixelHeight: nat
    /** The owned bitmap's pixel memory: `pixelHeight` scan lines of Stride(pixelWidth) bytes. */
    const bits: array<byte>
    /** `width`: the scan-line length in bytes, zero until the first LockBitmap. */
    var width: nat
    /** `pBase != null`: the bits are locked. */
    var locked: bool
    /** The owned bitmap has been disposed of. */
    var disposed: bool

    ghost predicate Valid()
      reads this
    {
      bits.Length == pixelHeight * Stride(pixelWidth) &&
      (width == 0 || width == Stride(pixelWidth)) &&
      (locked ==> width == Stride(pixelWidth))
    }

    /** The picture the bitmap currently holds, locked or not. */
    function Contents(): (img: Image)
      reads this, bits
      requires Valid()
      ensures img.Valid() && img.width == pixelWidth && img.height == pixelHeight
    {
      Decode(bits[..], pixelWidth, pixelHeight, Stride(pixelWidth))
    }

    /** A bitmap holding its own copy of `source`; not yet locked. */
    constructor FromBitmap(source: Image)
      requires source.Valid()
      ensures Valid() && !locked && !disposed && width == 0
      ensures pixelWidth == source.width && pixelHeight == source.height
      ensures Contents() == source
      ensures fresh(bits)
    {
      pixelWidth, pixelHeight := source.width, source.height;
      var copy := Encode(source, Stride(source.width));
      bits := new byte[|copy|](i requires 0 <= i < |copy| => copy[i]);
      width, locked, disposed := 0, false, false;
      new;
      assert bits[..] == copy;
      DecodeEncode(source, Stride(pixelWidth));
    }

    /** A new black bitmap of the given size; not yet locked. */
    constructor (width: nat, height: nat)
      requires 0 < width && 0 < height
      ensures Valid() && !locked && !disposed && this.width == 0
      ensures pixelWidth == width && pixelHeight == height
      ensures Contents() == Blank(width, height)
      ensures fresh(bits)
    {
      pixelWidth, pixelHeight := width, height;
      bits := new byte[height * Stride(width)](_ => 0);
      this.width, locked, disposed := 0, false, false;
      new;
      assert bits[..] == Zeros(pixelHeight * Stride(pixelWidth));
      DecodeZeros(pixelWidth, pixelHeight, Stride(pixelWidth));
    }

    /** Disposes of the owned bitmap (without unlocking it): the base pointer
        may still be set, but it points into freed bits, so no pixel access
        is valid afterwards. */
    method Dispose()
      modifies this`disposed
      ensures disposed
    {
      disposed := true;
    }

    /** Computes the row length, three bytes a pixel rounded up to a multiple
        of four, and locks the bits; locking twice is an error. */
    method LockBitmap()
      requires Valid() && !locked && !disposed
      modifies this`width, this`locked
      ensures Valid() && locked
      ensures width == Stride(pixelWidth)
    {
      width := pixelWidth * PixelSize;
      if width % 4 != 0 {
        width := 4 * (width / 4 + 1);
      }
      locked := true;
    }

    /** The pixel at (x, y), read through the base pointer; no bounds check. */
    method GetPixel(x: nat, y: nat) returns (colour: PixelData)
      requires Valid() && locked && !disposed
      requires x < pixelWidth && y < pixelHeight
      ensures colour == Contents().At(x, y)
    {
      var o := PixelAt(x, y);
      colour := PixelData(bits[o], bits[o + 1], bits[o + 2]);
      DecodeAt(bits[..], pixelWidth, pixelHeight, Stride(pixelWidth), x, y);
    }

    /** Overwrites the pixel at (x, y) through the base pointer, and nothing else. */
    method SetPixel(x: nat, y: nat, colour: PixelData)
      requires Valid() && locked && !disposed
      requires x < pixelWidth && y < pixelHeight
      modifies bits
      ensures bits[..] == WritePixel(old(bits[..]), pixelWidth, pixelHeight, width, x, y, colour)
      ensures Contents() == old(Contents()).Set(x, y, colour)
    {
      var o := PixelAt(x, y);
      bits[o] := colour.B;
      bits[o + 1] := colour.G;
      bits[o + 2] := colour.R;
      DecodeWrite(old(bits[..]), pixelWidth, pixelHeight, width, x, y, colour);
    }

    /** Unlocks the bits and clears the base pointer; the row length is kept. */
    method UnlockBitmap()
      requires locked && !disposed
      modifies this`locked
      ensures !locked
    {
      locked := false;
    }

    /** `pBase + y*width + 3x`: the address of pixel (x, y) while locked. */
    method PixelAt(x: nat, y: nat) returns (o: nat)
      requires Valid() && locked && !disposed
      requires x < pixelWidth && y < pixelHeight
      ensures o == Offset(width, x, y)
      ensures o + PixelSize <= bits.Length
    {
      o := y * width + x * PixelSize;
      SlotInBuffer(pixelWidth, pixelHeight, width, x, y);
    }
  }
}
