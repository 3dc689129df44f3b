/**
 * The start-up test pattern: vertical bands 20 pixels wide whose colours
 * cycle 0, 1, 2, 3, 0, ... from left to right over all 200 scanlines.
 */
module Pattern {
  import opened Addressing
  import opened PixelBuffer

  /** BLOCK_SIZE: the width of one band. */
  const BlockSize: nat := 20

  /** The colour of the band column x falls in. */
  function BandColour(x: nat): (c: bv8)
    ensures c < 4
  {
    ((x / BlockSize) % 4) as bv8
  }

  /** The colour is constant across a band and steps by (colour + 1) & 3 between bands. */
  lemma BandColourSteps(x: nat, bx: nat)
    requires x % BlockSize == 0 && x <= bx < x + BlockSize
    ensures BandColour(bx) == BandColour(x)
    ensures (BandColour(x) + 1) & 3 == BandColour(x + BlockSize)
  {
    var k := x / BlockSize;
    assert bx / BlockSize == k && (x + BlockSize) / BlockSize == k + 1;
    if k % 4 == 0 {} else if k % 4 == 1 {} else if k % 4 == 2 {} else {}
  }

  /** A byte whose four pixels all have colour c. */
  function SolidByte(c: bv8): (b: bv8)
    requires c < 4
    ensures Field(b, 0) == c && Field(b, 2) == c && Field(b, 4) == c && Field(b, 6) == c
  {
    [0x00, 0x55, 0xAA, 0xFF][c as int]
  }

  /**
   * What byte i of a used bank holds once the pattern is drawn: its column of
   * 80 gives the band, five bytes (20 pixels) to a band.
   */
  function PatternByte(i: nat): bv8
  {
    SolidByte(((i % BankOffset % BytesPerRow / 5) % 4) as bv8)
  }

  /** Every on-screen pixel has the colour of its band. */
  ghost predicate ShowsPattern(buffer: seq<bv8>)
    requires AddressedEnd <= |buffer|
  {
    forall x: nat, y: nat :: OnScreen(x, y) ==> PixelAt(buffer, x, y) == BandColour(x)
  }

  /** A byte is fixed by its four pixels. */
  lemma ByteOfFields(b: bv8, c: bv8)
    requires c < 4
    requires Field(b, 0) == c && Field(b, 2) == c && Field(b, 4) == c && Field(b, 6) == c
    ensures b == SolidByte(c)
  {
    if c == 0 {} else if c == 1 {} else if c == 2 {} else {}
  }

  /**
   * A buffer that shows the pattern holds PatternByte(i) in every used byte i:
   * the pattern fixes all 16000 bytes the screen occupies.
   */
  lemma PatternBytes(buffer: seq<bv8>, i: nat)
    requires AddressedEnd <= |buffer| && ShowsPattern(buffer)
    requires Addressed(i)
    ensures buffer[i] == PatternByte(i)
  {
    var column := i % BankOffset % BytesPerRow;
    var c := ((column / 5) % 4) as bv8;
    forall s: nat | ValidShift(s) ensures Field(buffer[i], s) == c {
      var p := ScreenCoord(i, s);
      assert p.0 / 4 == column;
      assert PixelAt(buffer, p.0, p.1) == BandColour(p.0);
    }
    ByteOfFields(buffer[i], c);
  }

  /**
   * Pixel (px, py) comes before column bx of scanline y of the band starting
   * at x, in the order DrawPattern visits pixels.
   */
  predicate Visited(px: nat, py: nat, x: nat, y: nat, bx: nat)
  {
    px < x || (px < x + BlockSize && (py < y || (py == y && px < bx)))
  }

  /** Every on-screen pixel visited so far has its band's colour. */
  ghost predicate PaintedUpTo(buffer: seq<bv8>, x: nat, y: nat, bx: nat)
    requires AddressedEnd <= |buffer|
  {
    forall px: nat, py: nat :: OnScreen(px, py) && Visited(px, py, x, y, bx) ==>
      PixelAt(buffer, px, py) == BandColour(px)
  }

  /** Painting pixel (bx, y) with its band's colour extends the painted part by one. */
  lemma PaintOne(buffer: seq<bv8>, x: nat, y: nat, bx: nat)
    requires AddressedEnd <= |buffer| && OnScreen(bx, y)
    requires x <= bx < x + BlockSize && x % BlockSize == 0
    requires PaintedUpTo(buffer, x, y, bx)
    ensures ByteIndex(bx, y) < |buffer|
    ensures PaintedUpTo(PutPixel(buffer, bx, y, BandColour(bx)), x, y, bx + 1)
    ensures forall i :: 0 <= i < |buffer| && !Addressed(i) ==> PutPixel(buffer, bx, y, BandColour(bx))[i] == buffer[i]
  {
    PutPixelEffect(buffer, bx, y, BandColour(bx));
  }

  /** A finished scanline of a band: the next scanline starts at the band's left edge. */
  lemma NextScanline(buffer: seq<bv8>, x: nat, y: nat)
    requires AddressedEnd <= |buffer|
    requires PaintedUpTo(buffer, x, y, x + BlockSize)
    ensures PaintedUpTo(buffer, x, y + 1, x)
  {
  }

  /** A finished band: the next band starts above and left of every pixel. */
  lemma NextBand(buffer: seq<bv8>, x: nat)
    requires AddressedEnd <= |buffer|
    requires PaintedUpTo(buffer, x, ScreenHeight, x)
    ensures PaintedUpTo(buffer, x + BlockSize, 0, x + BlockSize)
  {
  }

  /** Once every band is painted, the buffer shows the pattern. */
  lemma AllPainted(buffer: seq<bv8>)
    requires AddressedEnd <= |buffer|
    requires PaintedUpTo(buffer, ScreenWidth, 0, ScreenWidth)
    ensures ShowsPattern(buffer)
  {
  }

  /**
   * DrawPattern: for each band, for each scanline, for each column of the
   * band, SetPixel with the band's colour; the colour steps by (colour + 1) & 3.
   * Afterwards every on-screen pixel has its band's colour, which fixes every
   * used byte, and the bytes between and after the banks are unchanged.
   */
  method DrawPattern(buffer: array<bv8>)
    requires AddressedEnd <= buffer.Length
    modifies buffer
    ensures ShowsPattern(buffer[..])
    ensures forall i :: 0 <= i < buffer.Length && Addressed(i) ==> buffer[i] == PatternByte(i)
    ensures forall i :: 0 <= i < buffer.Length && !Addressed(i) ==> buffer[i] == old(buffer[i])
  {
    var x: nat := 0;
    var colour: bv8 := 0;
    while x < 320
      invariant x <= ScreenWidth && x % BlockSize == 0
      invariant colour == BandColour(x)
      invariant PaintedUpTo(buffer[..], x, 0, x)
      invariant forall i :: 0 <= i < buffer.Length && !Addressed(i) ==> buffer[i] == old(buffer[i])
    {
      var y: nat := 0;
      while y < 200
        invariant y <= ScreenHeight
        invariant PaintedUpTo(buffer[..], x, y, x)
        invariant forall i :: 0 <= i < buffer.Length && !Addressed(i) ==> buffer[i] == old(buffer[i])
      {
        var bx: nat := x;
        while bx < x + BlockSize
          invariant x <= bx <= x + BlockSize
          invariant PaintedUpTo(buffer[..], x, y, bx)
          invariant forall i :: 0 <= i < buffer.Length && !Addressed(i) ==> buffer[i] == old(buffer[i])
        {
          BandColourSteps(x, bx);
          PaintOne(buffer[..], x, y, bx);
          SetPixel(bx, y, colour, buffer);
          bx := bx + 1;
        }
        NextScanline(buffer[..], x, y);
        y := y + 1;
      }
      NextBand(buffer[..], x);
      BandColourSteps(x, x);
      colour := (colour + 1) & 3;
      x := x + BlockSize;
    }
    AllPainted(buffer[..]);
    forall i | 0 <= i < buffer.Length && Addressed(i) ensures buffer[i] == PatternByte(i) {
      PatternBytes(buffer[..], i);
    }
  }
}
