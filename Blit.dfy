/**
 * CopyBufferToVideoMemory: one bulk transfer of VIDEO_MEMORY_SIZE bytes from
 * the offscreen buffer to video memory at segment 0xB800, which keeps the
 * interleaved layout because the adapter reads the same layout.
 */
module Blit {
  import opened Addressing

  /** movedata(FP_SEG(buffer), FP_OFF(buffer), 0xB800, 0, VIDEO_MEMORY_SIZE). */
  method CopyBufferToVideoMemory(buffer: array<bv8>, videoMemory: array<bv8>)
    requires VideoMemorySize <= buffer.Length && videoMemory.Length == VideoMemorySize
    modifies videoMemory
    ensures videoMemory[..] == old(buffer[..VideoMemorySize])
  {
    forall i | 0 <= i < VideoMemorySize {
      videoMemory[i] := buffer[i];
    }
  }
}
