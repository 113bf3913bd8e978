/** Helpers/UnmanagedBitmap.cs: a 24-bpp bitmap that is locked for raw access
    as soon as it is built, and read and written a pixel at a time. */
module Helpers {
  import opened Pixels
  import opened ScanLines

  class UnmanagedBitmap {
    /** Extent of the owned bitmap, in pixels. */
    const width: nat
    const height: nat
    /** The owned bitmap's pixel memory: `height` scan lines of Stride(width) bytes. */
    const bits: array<byte>
    /** `_stride`, computed by Initialize. */
    var stride: nat
    /** The bits are locked and the base pointer is set (`_bitmapDataBase != null`). */
    var locked: bool
    /** The owned bitmap has been disposed of. */
    var disposed: bool
    /** Every pixel written by SetPixel so far, in the order of the writes. */
    ghost var writes: seq<(nat, nat)>

    ghost predicate Valid()
      reads this`stride
    {
      stride == Stride(width) && bits.Length == height * stride
    }

    /** The picture the bitmap currently holds. */
    function Contents(): (img: Image)
      reads this`stride, bits
      requires Valid()
      ensures img.Valid() && img.width == width && img.height == height
    {
      Decode(bits[..], width, height, stride)
    }

    /** Locked, and holding `img`: ready for pixel reads of that picture. */
    ghost predicate Holds(img: Image)
      reads this`stride, this`locked, bits
    {
      Valid() && locked && Contents() == img
    }

    /** A new black bitmap of the given size, locked and ready for pixel access.
        A bitmap has at least one row and one column. */
    constructor (width: nat, height: nat)
      requires 0 < width && 0 < height
      ensures Valid() && locked && !disposed
      ensures this.width == width && this.height == height
      ensures Contents() == Blank(width, height) && writes == []
      ensures fresh(bits)
    {
      this.width, this.height := width, height;
      bits := new byte[height * Stride(width)](_ => 0);
      locked, disposed, writes := false, false, [];
      new;
      Initialize();
      Lock();
      assert bits[..] == Zeros(height * stride);
      DecodeZeros(width, height, stride);
    }

    /** A locked bitmap holding its own copy of `source`. */
    constructor FromBitmap(source: Image)
      requires source.Valid()
      ensures Valid() && locked && !disposed
      ensures width == source.width && height == source.height
      ensures Contents() == source && writes == []
      ensures fresh(bits)
    {
      width, height := source.width, source.height;
      var copy := Encode(source, Stride(source.width));
      bits := new byte[|copy|](i requires 0 <= i < |copy| => copy[i]);
      locked, disposed, writes := false, false, [];
      new;
      Initialize();
      Lock();
      assert bits[..] == copy;
      DecodeEncode(source, stride);
    }

    /** Computes the scan-line length: three bytes a pixel, padded to four-byte alignment. */
    method Initialize()
      modifies this`stride
      ensures stride == Stride(width)
    {
      stride := width * PixelSize;
      if stride % 4 != 0 {
        stride := 4 * (stride / 4 + 1);
      }
    }

    /** Locks the bits for reading and writing; locking twice is an error. */
    method Lock()
      requires !locked && !disposed
      modifies this`locked
      ensures locked
    {
      locked := true;
    }

    /** Unlocks the bits; the base pointer becomes null. */
    method Unlock()
      requires locked
      modifies this`locked
      ensures !locked
    {
      locked := false;
    }

    /** Unlocks and disposes of the bitmap: no pixel access is possible afterwards. */
    method Dispose()
      requires locked && !disposed
      modifies this`locked, this`disposed
      ensures !locked && disposed
    {
      Unlock();
      disposed := true;
    }

    /** A copy of the current picture, taken while briefly unlocked; the bitmap
        is locked again and its contents are unchanged. */
    method SnapShot() returns (snapshot: Image)
      requires Valid() && locked && !disposed
      modifies this`locked
      ensures locked && Valid()
      ensures snapshot == Contents() == old(Contents())
    {
      Unlock();
      snapshot := Contents();
      Lock();
    }

    /** The pixel at (x, y). No bounds check is made, so the caller must stay in range. */
    method GetPixel(x: nat, y: nat) returns (colour: PixelData)
      requires Valid() && locked
      requires x < width && y < height
      ensures colour == Contents().At(x, y)
    {
      var o := GetPixelInternal(x, y);
      colour := PixelData(bits[o], bits[o + 1], bits[o + 2]);
      DecodeAt(bits[..], width, height, stride, x, y);
    }

    /** Overwrites the pixel at (x, y) and nothing else. */
    method SetPixel(x: nat, y: nat, colour: PixelData)
      requires Valid() && locked
      requires x < width && y < height
      modifies bits, this`writes
      ensures bits[..] == WritePixel(old(bits[..]), width, height, stride, x, y, colour)
      ensures Contents() == old(Contents()).Set(x, y, colour)
      ensures writes == old(writes) + [(x, y)]
    {
      writes := writes + [(x, y)];
      var o := GetPixelInternal(x, y);
      bits[o] := colour.B;
      bits[o + 1] := colour.G;
      bits[o + 2] := colour.R;
      DecodeWrite(old(bits[..]), width, height, stride, x, y, colour);
    }

    /** The address of pixel (x, y): three bytes a column, `stride` bytes a row. */
    method GetPixelInternal(x: nat, y: nat) returns (o: nat)
      requires Valid() && locked
      requires x < width && y < height
      ensures o == Offset(stride, x, y)
      ensures o + PixelSize <= bits.Length
    {
      o := y * stride + x * PixelSize;
      SlotInBuffer(width, height, stride, x, y);
    }
  }
}
