/**
 * Setting one pixel of a buffer laid out as CGA video memory, by a
 * read-modify-write of the byte that holds it.
 */
module PixelBuffer {
  import opened Addressing

  /** The buffer after SetPixel(x, y, colour, buffer): one byte rewritten. */
  function PutPixel(buffer: seq<bv8>, x: nat, y: nat, colour: bv8): (r: seq<bv8>)
    requires ByteIndex(x, y) < |buffer|
    ensures |r| == |buffer|
    ensures PixelAt(r, x, y) == colour & 3
    ensures forall i :: 0 <= i < |buffer| && i != ByteIndex(x, y) ==> r[i] == buffer[i]
  {
    var i := ByteIndex(x, y);
    buffer[i := WithPixel(buffer[i], PixelShift(x), colour)]
  }

  /**
   * With a colour of two bits, setting pixel (x, y) changes that pixel and no
   * other pixel of the screen, and no byte outside the two banks' used bytes.
   */
  lemma PutPixelEffect(buffer: seq<bv8>, x: nat, y: nat, colour: bv8)
    requires AddressedEnd <= |buffer|
    requires OnScreen(x, y) && colour < 4
    ensures ByteIndex(x, y) < |buffer|
    ensures forall px: nat, py: nat :: OnScreen(px, py) ==>
      PixelAt(PutPixel(buffer, x, y, colour), px, py) ==
        if px == x && py == y then colour else PixelAt(buffer, px, py)
    ensures forall i :: 0 <= i < |buffer| && !Addressed(i) ==> PutPixel(buffer, x, y, colour)[i] == buffer[i]
  {
    ScreenLayout(x, y);
    var r := PutPixel(buffer, x, y, colour);
    forall px: nat, py: nat | OnScreen(px, py)
      ensures PixelAt(r, px, py) == if px == x && py == y then colour else PixelAt(buffer, px, py)
    {
      ScreenLayout(px, py);
      if px != x || py != y {
        if ByteIndex(px, py) == ByteIndex(x, y) {
          if PixelShift(px) == PixelShift(x) {
            LocationInjective(px, py, x, y);
          }
        }
      }
    }
  }

  /**
   * SetPixel.  The caller keeps the unsigned int sum x + (y >> 1) * 320 from
   * wrapping and the index inside the buffer; every on-screen pixel does both.
   */
  method SetPixel(x: nat, y: nat, colour: bv8, buffer: array<bv8>)
    requires x + (y / 2) * ScreenWidth < 0x1_0000
    requires ByteIndex(x, y) < buffer.Length
    modifies buffer
    ensures buffer[..] == PutPixel(old(buffer[..]), x, y, colour)
  {
    var byteIndex := (y % 2) * 8192 + (x + (y / 2) * 320) / 4;
    var pixelBitIndex := 6 - 2 * (x % 4);
    var pixelMask: bv8 := !((3 as bv8) << pixelBitIndex);
    var value := buffer[byteIndex];

    value := value & pixelMask;
    value := value | (colour << pixelBitIndex);
    buffer[byteIndex] := value;
  }
}
