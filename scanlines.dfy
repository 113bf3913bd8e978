/** The byte layout of a 24-bpp bitmap that both UnmanagedBitmap classes rely
    on: each scan line is the pixel width times three bytes, rounded up to a
    multiple of four, and pixel (x, y) starts at byte y*stride + 3x. Also the
    value `Image`, which stands for a System.Drawing.Bitmap's pixels. */
module ScanLines {
  import opened Pixels

  /** Bytes per scan line for a bitmap `width` pixels wide. */
  function Stride(width: nat): (stride: nat)
    ensures stride % 4 == 0
    ensures width * PixelSize <= stride < width * PixelSize + 4
  {
    var bytes := width * PixelSize;
    if bytes % 4 != 0 then 4 * (bytes / 4 + 1) else bytes
  }

  /** No smaller multiple of four holds a row: the stride is the least one. */
  lemma StrideIsLeast(width: nat, s: nat)
    requires s % 4 == 0 && width * PixelSize <= s
    ensures Stride(width) <= s
  {
    var bytes := width * PixelSize;
    if bytes % 4 != 0 {
      assert s / 4 * 4 == s;
      assert bytes / 4 < s / 4;
    }
  }

  /** Address of the first byte of pixel (x, y), relative to the buffer base. */
  function Offset(stride: nat, x: nat, y: nat): nat
  {
    y * stride + x * PixelSize
  }

  /** The three bytes of an in-range pixel lie inside its own row. */
  lemma SlotInRow(width: nat, stride: nat, x: nat, y: nat)
    requires width * PixelSize <= stride && x < width
    ensures y * stride <= Offset(stride, x, y)
    ensures Offset(stride, x, y) + PixelSize <= (y + 1) * stride
  {
  }

  /** Rows do not overlap: everything in row y lies below row y + 1 and beyond. */
  lemma {:induction false} RowsOrdered(stride: nat, y1: nat, y2: nat)
    requires y1 < y2
    ensures (y1 + 1) * stride <= y2 * stride
  {
    assert y2 * stride == (y1 + 1) * stride + (y2 - y1 - 1) * stride;
  }

  /** An in-range pixel's slot ends inside a buffer of height*stride bytes. */
  lemma SlotInBuffer(width: nat, height: nat, stride: nat, x: nat, y: nat)
    requires width * PixelSize <= stride && x < width && y < height
    ensures Offset(stride, x, y) + PixelSize <= height * stride
  {
    SlotInRow(width, stride, x, y);
    if y + 1 < height {
      RowsOrdered(stride, y, height);
    }
  }

  /** Distinct in-range pixels occupy disjoint three-byte slots. */
  lemma SlotsDisjoint(width: nat, stride: nat, x1: nat, y1: nat, x2: nat, y2: nat)
    requires width * PixelSize <= stride
    requires x1 < width && x2 < width
    requires (x1, y1) != (x2, y2)
    ensures Offset(stride, x1, y1) + PixelSize <= Offset(stride, x2, y2)
         || Offset(stride, x2, y2) + PixelSize <= Offset(stride, x1, y1)
  {
    SlotInRow(width, stride, x1, y1);
    SlotInRow(width, stride, x2, y2);
    if y1 < y2 {
      RowsOrdered(stride, y1, y2);
    } else if y2 < y1 {
      RowsOrdered(stride, y2, y1);
    }
  }

  /** The bytes of a bitmap whose scan lines are `stride` apart are enough to
      hold `width` x `height` pixels. */
  ghost predicate Fits(bytes: seq<byte>, width: nat, height: nat, stride: nat)
  {
    width * PixelSize <= stride && |bytes| == height * stride
  }

  /** `*GetPixelInternal(x, y)`: the pixel stored at (x, y). */
  function ReadPixel(bytes: seq<byte>, width: nat, height: nat, stride: nat, x: nat, y: nat): (p: PixelData)
    requires Fits(bytes, width, height, stride) && x < width && y < height
  {
    SlotInBuffer(width, height, stride, x, y);
    var o := Offset(stride, x, y);
    PixelData(bytes[o], bytes[o + 1], bytes[o + 2])
  }

  /** `*GetPixelInternal(x, y) = c`: the buffer with the slot of (x, y) overwritten. */
  function WritePixel(bytes: seq<byte>, width: nat, height: nat, stride: nat, x: nat, y: nat, c: PixelData): (r: seq<byte>)
    requires Fits(bytes, width, height, stride) && x < width && y < height
    ensures Fits(r, width, height, stride)
    ensures forall i :: 0 <= i < |bytes| && !(Offset(stride, x, y) <= i < Offset(stride, x, y) + PixelSize) ==> r[i] == bytes[i]
  {
    SlotInBuffer(width, height, stride, x, y);
    var o := Offset(stride, x, y);
    bytes[o := c.B][o + 1 := c.G][o + 2 := c.R]
  }

  /** Reading a pixel just written returns the written value. */
  lemma ReadOwnWrite(bytes: seq<byte>, width: nat, height: nat, stride: nat, x: nat, y: nat, c: PixelData)
    requires Fits(bytes, width, height, stride) && x < width && y < height
    ensures ReadPixel(WritePixel(bytes, width, height, stride, x, y, c), width, height, stride, x, y) == c
  {
    SlotInBuffer(width, height, stride, x, y);
    var o := Offset(stride, x, y);
    assert WritePixel(bytes, width, height, stride, x, y, c) == bytes[o := c.B][o + 1 := c.G][o + 2 := c.R];
  }

  /** Writing one pixel leaves every other in-range pixel as it was. */
  lemma ReadOtherWrite(bytes: seq<byte>, width: nat, height: nat, stride: nat, x: nat, y: nat, c: PixelData, x2: nat, y2: nat)
    requires Fits(bytes, width, height, stride) && x < width && y < height
    requires x2 < width && y2 < height && (x2, y2) != (x, y)
    ensures ReadPixel(WritePixel(bytes, width, height, stride, x, y, c), width, height, stride, x2, y2)
         == ReadPixel(bytes, width, height, stride, x2, y2)
  {
    SlotsDisjoint(width, stride, x, y, x2, y2);
    SlotInBuffer(width, height, stride, x2, y2);
  }

  /** The pixels of a System.Drawing.Bitmap, row by row. */
  datatype Image = Image(width: nat, height: nat, rows: seq<seq<PixelData>>)
  {
    ghost predicate Valid()
    {
      |rows| == height && forall y :: 0 <= y < height ==> |rows[y]| == width
    }

    function At(x: nat, y: nat): PixelData
      requires Valid() && x < width && y < height
    {
      rows[y][x]
    }

    /** The same image with pixel (x, y) replaced by c. */
    function Set(x: nat, y: nat, c: PixelData): (img: Image)
      requires Valid() && x < width && y < height
      ensures img.Valid() && img.width == width && img.height == height
      ensures img.At(x, y) == c
    {
      Image(width, height, rows[y := rows[y][x := c]])
    }

    /** Setting one pixel leaves every other pixel as it was. */
    lemma SetOther(x: nat, y: nat, c: PixelData, x2: nat, y2: nat)
      requires Valid() && x < width && y < height && x2 < width && y2 < height && (x2, y2) != (x, y)
      ensures Set(x, y, c).At(x2, y2) == At(x2, y2)
    {
    }
  }

  /** Two images of the same extent are equal when they agree pixel by pixel. */
  lemma ImageExt(a: Image, b: Image)
    requires a.Valid() && b.Valid() && a.width == b.width && a.height == b.height
    requires forall x: nat, y: nat :: x < a.width && y < a.height ==> a.At(x, y) == b.At(x, y)
    ensures a == b
  {
    forall y | 0 <= y < a.height
      ensures a.rows[y] == b.rows[y]
    {
      forall x | 0 <= x < a.width
        ensures a.rows[y][x] == b.rows[y][x]
      {
        assert a.At(x, y) == b.At(x, y);
      }
    }
  }

  /** A freshly created bitmap: every pixel black. */
  function Blank(width: nat, height: nat): (img: Image)
    ensures img.Valid() && img.width == width && img.height == height
    ensures forall x: nat, y: nat :: x < width && y < height ==> img.At(x, y) == Black
  {
    Image(width, height, seq(height, _ => seq(width, _ => Black)))
  }

  /** A zero-filled buffer of n bytes. */
  function Zeros(n: nat): (bytes: seq<byte>)
    ensures |bytes| == n && forall i :: 0 <= i < n ==> bytes[i] == 0
  {
    seq(n, _ => 0)
  }

  /** The image held by a locked buffer. */
  function Decode(bytes: seq<byte>, width: nat, height: nat, stride: nat): (img: Image)
    requires Fits(bytes, width, height, stride)
    ensures img.Valid() && img.width == width && img.height == height
  {
    Image(width, height, seq(height, y requires 0 <= y < height =>
      seq(width, x requires 0 <= x < width => ReadPixel(bytes, width, height, stride, x, y))))
  }

  /** Pixel (x, y) of the image a buffer holds is the one stored in its slot. */
  lemma DecodeAt(bytes: seq<byte>, width: nat, height: nat, stride: nat, x: nat, y: nat)
    requires Fits(bytes, width, height, stride) && x < width && y < height
    ensures Decode(bytes, width, height, stride).At(x, y) == ReadPixel(bytes, width, height, stride, x, y)
  {
  }

  /** A zero-filled buffer holds an all-black picture. */
  lemma DecodeZeros(width: nat, height: nat, stride: nat)
    requires width * PixelSize <= stride
    ensures Decode(Zeros(height * stride), width, height, stride) == Blank(width, height)
  {
    var img := Decode(Zeros(height * stride), width, height, stride);
    forall x: nat, y: nat | x < width && y < height
      ensures img.At(x, y) == Black
    {
      SlotInBuffer(width, height, stride, x, y);
      DecodeAt(Zeros(height * stride), width, height, stride, x, y);
    }
    ImageExt(img, Blank(width, height));
  }

  /** Writing a pixel into the buffer is setting it in the image it holds. */
  lemma DecodeWrite(bytes: seq<byte>, width: nat, height: nat, stride: nat, x: nat, y: nat, c: PixelData)
    requires Fits(bytes, width, height, stride) && x < width && y < height
    ensures Decode(WritePixel(bytes, width, height, stride, x, y, c), width, height, stride)
         == Decode(bytes, width, height, stride).Set(x, y, c)
  {
    var after := Decode(WritePixel(bytes, width, height, stride, x, y, c), width, height, stride);
    var expected := Decode(bytes, width, height, stride).Set(x, y, c);
    forall x2: nat, y2: nat | x2 < width && y2 < height
      ensures after.At(x2, y2) == expected.At(x2, y2)
    {
      DecodeAt(WritePixel(bytes, width, height, stride, x, y, c), width, height, stride, x2, y2);
      if (x2, y2) == (x, y) {
        ReadOwnWrite(bytes, width, height, stride, x, y, c);
      } else {
        DecodeAt(bytes, width, height, stride, x2, y2);
        Decode(bytes, width, height, stride).SetOther(x, y, c, x2, y2);
        ReadOtherWrite(bytes, width, height, stride, x, y, c, x2, y2);
      }
    }
    ImageExt(after, expected);
  }

  /** Byte `col` of scan line y of a buffer holding `img`: a pixel channel, or
      zero padding past the last pixel. */
  function EncodeByte(img: Image, y: nat, col: nat): byte
    requires img.Valid() && y < img.height
  {
    var x, k := col / PixelSize, col % PixelSize;
    if x < img.width then Channel(img.At(x, y), k) else 0
  }

  /** Byte i of a buffer holding `img` with scan lines `stride` bytes apart. */
  function EncodeAt(img: Image, stride: nat, i: nat): byte
    requires img.Valid() && i < img.height * stride
  {
    QuotientBelow(i, stride, img.height);
    EncodeByte(img, i / stride, i % stride)
  }

  /** The buffer `LockBits` exposes for a bitmap: rows `stride` bytes apart. */
  function Encode(img: Image, stride: nat): (bytes: seq<byte>)
    requires img.Valid() && img.width * PixelSize <= stride
    ensures Fits(bytes, img.width, img.height, stride)
  {
    seq(img.height * stride, i requires 0 <= i < img.height * stride => EncodeAt(img, stride, i))
  }

  lemma MulLe(a: nat, b: nat, d: nat)
    requires a <= b
    ensures a * d <= b * d
  {
  }

  lemma QuotientBelow(i: nat, d: nat, n: nat)
    requires i < n * d
    ensures d > 0 && i / d < n
  {
    if n <= i / d {
      MulLe(n, i / d, d);
    }
  }

  lemma DivModOf(q: nat, r: nat, d: nat)
    requires r < d
    ensures (q * d + r) / d == q && (q * d + r) % d == r
  {
    var n := q * d + r;
    if n / d > q {
      MulLe(q + 1, n / d, d);
    } else if n / d < q {
      MulLe(n / d + 1, q, d);
    }
  }

  /** Channel k of pixel (x, y) sits at byte Offset + k of the encoded buffer. */
  lemma EncodeChannel(img: Image, stride: nat, x: nat, y: nat, k: nat)
    requires img.Valid() && img.width * PixelSize <= stride
    requires x < img.width && y < img.height && k < PixelSize
    ensures Offset(stride, x, y) + k < |Encode(img, stride)|
    ensures Encode(img, stride)[Offset(stride, x, y) + k] == Channel(img.At(x, y), k)
  {
    SlotInBuffer(img.width, img.height, stride, x, y);
    var i := Offset(stride, x, y) + k;
    DivModOf(y, x * PixelSize + k, stride);
    assert i / stride == y && i % stride == x * PixelSize + k;
    DivModOf(x, k, PixelSize);
    assert EncodeAt(img, stride, i) == EncodeByte(img, y, x * PixelSize + k);
  }

  /** Reading a pixel from the buffer of an image gives that image's pixel. */
  lemma ReadEncoded(img: Image, stride: nat, x: nat, y: nat)
    requires img.Valid() && img.width * PixelSize <= stride
    requires x < img.width && y < img.height
    ensures ReadPixel(Encode(img, stride), img.width, img.height, stride, x, y) == img.At(x, y)
  {
    EncodeChannel(img, stride, x, y, 0);
    EncodeChannel(img, stride, x, y, 1);
    EncodeChannel(img, stride, x, y, 2);
  }

  /** Decoding the buffer of an image gives the image back. */
  lemma DecodeEncode(img: Image, stride: nat)
    requires img.Valid() && img.width * PixelSize <= stride
    ensures Decode(Encode(img, stride), img.width, img.height, stride) == img
  {
    var back := Decode(Encode(img, stride), img.width, img.height, stride);
    forall x: nat, y: nat | x < img.width && y < img.height
      ensures back.At(x, y) == img.At(x, y)
    {
      DecodeAt(Encode(img, stride), img.width, img.height, stride, x, y);
      ReadEncoded(img, stride, x, y);
    }
    ImageExt(back, img);
  }
}
