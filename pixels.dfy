/** One 24-bit pixel as laid out in a Format24bppRgb scan line.
    The struct is declared with sequential layout and three byte fields, in
    memory order blue, green, red; the older UnmanagedBitmap.cs redeclares the
    same struct with the same field order, so both are this one type. */
module Pixels {

  /** An unsigned 8-bit channel value. */
  type byte = b: int | 0 <= b < 256

  /** The value type itself: copying it copies all three channels. */
  datatype PixelData = PixelData(B: byte, G: byte, R: byte)

  /** sizeof(PixelData): three bytes with no padding. */
  const PixelSize: nat := 3

  /** The three bytes of a pixel in memory order (B at the lowest address). */
  function ToBytes(p: PixelData): (s: seq<byte>)
    ensures |s| == PixelSize
    ensures FromBytes(s) == p
  {
    [p.B, p.G, p.R]
  }

  /** Reinterprets three consecutive bytes as a pixel, lowest address first. */
  function FromBytes(s: seq<byte>): (p: PixelData)
    requires |s| == PixelSize
  {
    PixelData(s[0], s[1], s[2])
  }

  /** Memory-order channel k of a pixel: 0 is B, 1 is G, 2 is R. */
  function Channel(p: PixelData, k: nat): (v: byte)
    requires k < PixelSize
    ensures v == ToBytes(p)[k]
  {
    if k == 0 then p.B else if k == 1 then p.G else p.R
  }

  /** Reading back the bytes of a pixel gives the same bytes: layout is a bijection. */
  lemma BytesRoundTrip(s: seq<byte>)
    requires |s| == PixelSize
    ensures ToBytes(FromBytes(s)) == s
  {
  }

  /** The black pixel `new PixelData()` gives: every field zero. */
  const Black: PixelData := PixelData(0, 0, 0)
}
