/**
 * Layout of the CGA 320x200 four-colour framebuffer.
 *
 * Even scanlines live in the bank at offset 0, odd scanlines in the bank at
 * offset 8192.  Each scanline is 80 bytes; each byte holds four 2-bit pixels,
 * the leftmost pixel in the two most significant bits.
 *
 * Coordinates are natural numbers, so the shifts and masks SetPixel applies to
 * them (y & 1, y >> 1, x >> 2, x & 3) are written as % and /, which agree with
 * them on non-negative values.  Pixel bytes are bv8, as unsigned char is.
 */
module Addressing {

  const ScreenWidth: nat := 320
  const ScreenHeight: nat := 200
  const BytesPerRow: nat := 80
  /** Offset of the odd-scanline bank. */
  const BankOffset: nat := 8192
  /** Bytes of a bank that hold pixels: 100 scanlines of 80 bytes. */
  const BankBytes: nat := 8000
  /** End of the last byte any on-screen pixel lives in. */
  const AddressedEnd: nat := BankOffset + BankBytes
  /** VIDEO_MEMORY_SIZE: the size of the offscreen buffer and of video memory. */
  const VideoMemorySize: nat := 16 * 1024

  predicate OnScreen(x: nat, y: nat)
  {
    x < ScreenWidth && y < ScreenHeight
  }

  /** The bit positions a pixel can start at inside its byte. */
  predicate ValidShift(s: nat)
  {
    s == 0 || s == 2 || s == 4 || s == 6
  }

  /** A byte offset that belongs to some scanline of one of the two banks. */
  predicate Addressed(i: nat)
  {
    i < BankBytes || BankOffset <= i < AddressedEnd
  }

  /** byteIndex of SetPixel: ((y & 1) * 8192) + ((x + ((y >> 1) * 320)) >> 2). */
  function ByteIndex(x: nat, y: nat): (i: nat)
    ensures (y % 2 == 1) ==> BankOffset <= i
  {
    (y % 2) * BankOffset + (x + (y / 2) * ScreenWidth) / 4
  }

  /** pixelBitIndex of SetPixel: 6 - (2 * (x & 3)). */
  function PixelShift(x: nat): (s: nat)
    ensures ValidShift(s)
  {
    6 - 2 * (x % 4)
  }

  /** The 2-bit pixel that starts at bit s of byte b. */
  function Field(b: bv8, s: nat): bv8
    requires s <= 6
  {
    (b >> s) & 3
  }

  /** The colour of pixel (x, y) in a buffer laid out as video memory. */
  function PixelAt(buffer: seq<bv8>, x: nat, y: nat): bv8
    requires ByteIndex(x, y) < |buffer|
  {
    Field(buffer[ByteIndex(x, y)], PixelShift(x))
  }

  /**
   * The read-modify-write of SetPixel on one byte: clear the two bits at s with
   * the mask ~(3 << s), then OR in colour << s, truncated to eight bits.
   * The pixel at s becomes the low two bits of colour, the pixels below it are
   * never touched, and the pixels above it are touched only by the bits of a
   * colour above 3, which are ORed into them.
   */
  function WithPixel(b: bv8, s: nat, colour: bv8): (r: bv8)
    requires ValidShift(s)
    ensures Field(r, s) == colour & 3
    ensures forall t: nat :: ValidShift(t) && t < s ==> Field(r, t) == Field(b, t)
    ensures forall t: nat :: ValidShift(t) && s < t ==> Field(r, t) == Field(b, t) | Field(colour << s, t)
    ensures colour < 4 ==> forall t: nat :: ValidShift(t) && t != s ==> Field(r, t) == Field(b, t)
  {
    WithPixelFields(b, s, colour);
    (b & !((3 as bv8) << s)) | (colour << s)
  }

  /** The effect of WithPixel's clear-and-OR on the pixels of the byte. */
  lemma WithPixelFields(b: bv8, s: nat, colour: bv8)
    requires ValidShift(s)
    ensures var r := (b & !((3 as bv8) << s)) | (colour << s);
      && Field(r, s) == colour & 3
      && (forall t: nat :: ValidShift(t) && t < s ==> Field(r, t) == Field(b, t))
      && (forall t: nat :: ValidShift(t) && s < t ==> Field(r, t) == Field(b, t) | Field(colour << s, t))
      && (colour < 4 ==> forall t: nat :: ValidShift(t) && t != s ==> Field(r, t) == Field(b, t))
  {
    WithPixelField(b, s, colour, s);
    forall t: nat | ValidShift(t)
      ensures var r := (b & !((3 as bv8) << s)) | (colour << s);
        && (t < s ==> Field(r, t) == Field(b, t))
        && (s < t ==> Field(r, t) == Field(b, t) | Field(colour << s, t))
        && (colour < 4 && t != s ==> Field(r, t) == Field(b, t))
    {
      WithPixelField(b, s, colour, t);
    }
  }

  /** The effect of the clear-and-OR at shift s on the pixel at shift t. */
  lemma WithPixelField(b: bv8, s: nat, colour: bv8, t: nat)
    requires ValidShift(s) && ValidShift(t)
    ensures var r := (b & !((3 as bv8) << s)) | (colour << s);
      && (t == s ==> Field(r, t) == colour & 3)
      && (t < s ==> Field(r, t) == Field(b, t))
      && (s < t ==> Field(r, t) == Field(b, t) | Field(colour << s, t))
      && (colour < 4 && t != s ==> Field(r, t) == Field(b, t))
  {
    if s == 0 {
      if t == 0 {} else if t == 2 {} else if t == 4 {} else {}
    } else if s == 2 {
      if t == 0 {} else if t == 2 {} else if t == 4 {} else {}
    } else if s == 4 {
      if t == 0 {} else if t == 2 {} else if t == 4 {} else {}
    } else {
      if t == 0 {} else if t == 2 {} else if t == 4 {} else {}
    }
  }

  /**
   * On screen, the index of SetPixel is the bank of the scanline's parity plus
   * 80 bytes per scanline of that bank plus x / 4, it lies inside the 8000 used
   * bytes of its bank, and the unsigned int sum x + (y >> 1) * 320 stays below
   * 32001, so the 16-bit arithmetic of the source never wraps.
   */
  lemma ScreenLayout(x: nat, y: nat)
    requires OnScreen(x, y)
    ensures ByteIndex(x, y) == (y % 2) * BankOffset + (y / 2) * BytesPerRow + x / 4
    ensures (y % 2) * BankOffset <= ByteIndex(x, y) < (y % 2) * BankOffset + BankBytes
    ensures Addressed(ByteIndex(x, y)) && ByteIndex(x, y) < VideoMemorySize
    ensures x + (y / 2) * ScreenWidth <= 32000
  {
    var row := y / 2;
    assert row < 100;
    assert (x + row * 320) / 4 == row * 80 + x / 4 by {
      assert x + row * 320 == 4 * (row * 80 + x / 4) + x % 4;
    }
  }

  /**
   * The pixel that lives at bit s of byte i: the inverse of the pair
   * (ByteIndex, PixelShift).  Every used byte and every pixel position in it
   * belongs to exactly one on-screen pixel.
   */
  function ScreenCoord(i: nat, s: nat): (p: (nat, nat))
    requires Addressed(i) && ValidShift(s)
    ensures OnScreen(p.0, p.1)
    ensures ByteIndex(p.0, p.1) == i && PixelShift(p.0) == s
  {
    var bank := i / BankOffset;
    var offset := i % BankOffset;
    var x := (offset % BytesPerRow) * 4 + (6 - s) / 2;
    var y := (offset / BytesPerRow) * 2 + bank;
    ScreenCoordLocates(i, s, bank, offset, x, y);
    (x, y)
  }

  /** The location of the pixel ScreenCoord picks is byte i, bit s. */
  lemma ScreenCoordLocates(i: nat, s: nat, bank: nat, offset: nat, x: nat, y: nat)
    requires Addressed(i) && ValidShift(s)
    requires bank == i / BankOffset && offset == i % BankOffset
    requires x == (offset % BytesPerRow) * 4 + (6 - s) / 2
    requires y == (offset / BytesPerRow) * 2 + bank
    ensures OnScreen(x, y) && ByteIndex(x, y) == i && PixelShift(x) == s
  {
    var row, column, k := offset / BytesPerRow, offset % BytesPerRow, (6 - s) / 2;
    assert bank < 2 && offset < BankBytes && i == bank * BankOffset + offset by {
      if i < BankBytes {} else {}
    }
    assert row < 100 && column < 80 && offset == row * BytesPerRow + column;
    assert y % 2 == bank && y / 2 == row;
    assert x % 4 == k && x / 4 == column;
    assert x + row * ScreenWidth == 4 * offset + k;
    assert (x + row * ScreenWidth) / 4 == offset;
  }

  /** Locating a pixel and mapping its location back gives the pixel again. */
  lemma ScreenCoordOfLocation(x: nat, y: nat)
    requires OnScreen(x, y)
    ensures Addressed(ByteIndex(x, y)) && ScreenCoord(ByteIndex(x, y), PixelShift(x)) == (x, y)
  {
    ScreenLayout(x, y);
    var i := ByteIndex(x, y);
    var row, column := y / 2, x / 4;
    var offset := row * BytesPerRow + column;
    assert i == (y % 2) * BankOffset + offset && offset < BankOffset;
    assert i / BankOffset == y % 2 && i % BankOffset == offset by {
      if y % 2 == 0 {} else {}
    }
    assert offset / BytesPerRow == row && offset % BytesPerRow == column;
    assert (6 - PixelShift(x)) / 2 == x % 4;
  }

  /** No two distinct on-screen pixels share a byte and a bit position. */
  lemma LocationInjective(x1: nat, y1: nat, x2: nat, y2: nat)
    requires OnScreen(x1, y1) && OnScreen(x2, y2)
    requires ByteIndex(x1, y1) == ByteIndex(x2, y2) && PixelShift(x1) == PixelShift(x2)
    ensures x1 == x2 && y1 == y2
  {
    ScreenCoordOfLocation(x1, y1);
    ScreenCoordOfLocation(x2, y2);
  }
}
