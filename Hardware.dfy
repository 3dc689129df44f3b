/**
 * The CGA adapter as the program sees it: 16 KiB of video memory at segment
 * 0xB800, the BIOS set-mode service (INT 10h, AH = 00h) and the colour select
 * register at port 0x3D9.  Mode sets and register writes go to one ghost
 * trace, in the order they happen, because a mode set reprograms the register
 * and so the order matters.
 */
module Hardware {

  /** One action on the adapter. */
  datatype Event = ModeSet(mode: bv8) | PortWrite(value: bv8)

  /** Video memory after a mode set: every byte zero. */
  ghost predicate Blank(memory: seq<bv8>)
  {
    forall i :: 0 <= i < |memory| ==> memory[i] == 0
  }

  class Adapter {
    /** Video memory at VIDEO_MEMORY_SEGMENT:0. */
    const videoMemory: array<bv8>
    /** Mode sets and colour select writes so far, oldest first. */
    ghost var events: seq<Event>

    constructor (videoMemory: array<bv8>)
      ensures this.videoMemory == videoMemory && events == []
    {
      this.videoMemory := videoMemory;
      events := [];
    }

    /**
     * int86(0x10, &regs, &regs) with ah = 0 and al = mode: the mode is set and
     * the screen cleared, so whatever video memory held is gone.
     */
    method SetMode(mode: bv8)
      modifies this, videoMemory
      ensures events == old(events) + [ModeSet(mode)]
      ensures Blank(videoMemory[..])
    {
      events := events + [ModeSet(mode)];
      forall i | 0 <= i < videoMemory.Length {
        videoMemory[i] := 0;
      }
    }

    /** outp(CGA_COLOR_SELECT_REGISTER, value). */
    method Out(value: bv8)
      modifies this
      ensures events == old(events) + [PortWrite(value)]
    {
      events := events + [PortWrite(value)];
    }
  }
}
