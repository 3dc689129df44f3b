/**
 * What main does around its keyboard loop: draw the pattern into s_pattern,
 * set palette 0 with low intensity on background 0, copy the pattern to video
 * memory, and then, for each key, update the selection, re-apply the palette
 * when asked to and copy the pattern again when that changed the mode.
 */
module Driver {
  import opened Addressing
  import opened Hardware
  import opened VideoMode
  import opened Palette
  import opened Pattern
  import opened Blit
  import opened Keys

  /** KB_KEY_ESCAPE. */
  const KeyEscape: int := 0x1B

  /** The static s_pattern, zero-initialised, after DrawPattern(s_pattern) (line 192). */
  method DrawnPattern() returns (pattern: array<bv8>)
    ensures fresh(pattern) && pattern.Length == VideoMemorySize && ShowsPattern(pattern[..])
  {
    pattern := new bv8[VideoMemorySize](_ => 0);
    DrawPattern(pattern);
  }

  class Session {
    const modes: ModeController
    const adapter: Adapter
    /** s_pattern. */
    const pattern: array<bv8>
    const videoMemory: array<bv8>
    var selection: Selection

    /**
     * The parts main sets up once: the pattern is drawn into s_pattern, video
     * memory holds a copy of it, and the selection has the values main keeps.
     * A mode switch blanks video memory, so this holds after a switch only once
     * the pattern has been copied again.
     */
    ghost predicate Prepared()
      reads this, modes, adapter, pattern, videoMemory
    {
      modes.Valid() && WellFormed(selection) &&
      adapter == modes.adapter && videoMemory == adapter.videoMemory &&
      pattern != videoMemory &&
      pattern.Length == VideoMemorySize && videoMemory.Length == VideoMemorySize &&
      ShowsPattern(pattern[..]) &&
      videoMemory[..] == pattern[..]
    }

    /**
     * Besides, the adapter is in the mode the selection needs and the last
     * thing done to it was writing the colour select value of the selection.
     */
    ghost predicate Valid()
      reads this, modes, adapter, pattern, videoMemory
    {
      Prepared() &&
      modes.currentMode == RequiredMode(selection.palette) &&
      adapter.events != [] &&
      adapter.events[|adapter.events| - 1] ==
        PortWrite(ColorSelectValue(selection.palette, selection.highIntensity, selection.backgroundColour))
    }

    /** main up to its loop (lines 187-195). */
    constructor Start(modes: ModeController)
      requires modes.Valid() && modes.adapter.videoMemory.Length == VideoMemorySize
      modifies modes, modes.adapter, modes.adapter.videoMemory
      ensures Valid() && fresh(pattern)
      ensures this.modes == modes && selection == InitialSelection
      ensures adapter.events == old(modes.adapter.events)
        + (if old(modes.currentMode) != VideoMode320x200x4 then [ModeSet(VideoMode320x200x4)] else [])
        + [PortWrite(ColorSelectValue(Palette0, 0, 0))]
      ensures modes.switches == old(modes.switches) +
        (if old(modes.currentMode) != VideoMode320x200x4 then [VideoMode320x200x4] else [])
    {
      var drawn := DrawnPattern();
      this.modes := modes;
      adapter := modes.adapter;
      videoMemory := modes.adapter.videoMemory;
      pattern := drawn;
      selection := InitialSelection;
      new;
      var changed := SetCGAPalette(modes, selection.palette, selection.highIntensity, selection.backgroundColour);
      CopyBufferToVideoMemory(pattern, videoMemory);
    }

    /**
     * One pass of main's loop after the key is read (lines 208-262).  Escape
     * ends the loop; any other key updates the selection as ApplyKey says, and
     * a command key sets the mode the palette needs if it differs and then
     * writes the colour select register once, after which video memory again
     * holds the pattern.
     */
    method Press(key: int) returns (quit: bool)
      requires Valid()
      modifies this, modes, adapter, videoMemory
      ensures quit == (key == KeyEscape)
      ensures quit ==> (selection == old(selection) && adapter.events == old(adapter.events) &&
                        modes.switches == old(modes.switches) && Valid())
      ensures !quit ==> Valid() && selection == ApplyKey(old(selection), key).selection
      ensures !quit ==> var switched := old(modes.currentMode) != RequiredMode(selection.palette);
        && modes.switches == old(modes.switches) + (if switched then [RequiredMode(selection.palette)] else [])
        && adapter.events == old(adapter.events) +
             if IsCommandKey(key) then
               (if switched then [ModeSet(RequiredMode(selection.palette))] else []) +
               [PortWrite(ColorSelectValue(selection.palette, selection.highIntensity, selection.backgroundColour))]
             else []
    {
      if key == KeyEscape {
        return true;
      }
      quit := false;
      var step := ApplyKey(selection, key);
      ApplyKeyKeepsWellFormed(selection, key);
      selection := step.selection;
      if step.refreshPalette {
        var changed := Refresh();
      }
    }

    /**
     * Lines 255-261: apply the selection with SetCGAPalette and, when that
     * switched the mode and so blanked video memory, copy the pattern to video
     * memory again.
     */
    method Refresh() returns (changed: bool)
      requires Prepared()
      modifies modes, adapter, videoMemory
      ensures Valid()
      ensures changed == (old(modes.currentMode) != RequiredMode(selection.palette))
      ensures modes.switches == old(modes.switches) + (if changed then [RequiredMode(selection.palette)] else [])
      ensures adapter.events == old(adapter.events)
        + (if changed then [ModeSet(RequiredMode(selection.palette))] else [])
        + [PortWrite(ColorSelectValue(selection.palette, selection.highIntensity, selection.backgroundColour))]
    {
      changed := SetCGAPalette(modes, selection.palette, selection.highIntensity, selection.backgroundColour);
      if changed {
        CopyBufferToVideoMemory(pattern, videoMemory);
      }
    }

    /** SetVideoMode(VIDEO_MODE_TEXT) once the loop has ended (line 265). */
    method Quit()
      requires Valid()
      modifies modes, adapter, videoMemory
      ensures modes.Valid() && modes.currentMode == VideoModeText
      ensures modes.switches == old(modes.switches) + [VideoModeText]
      ensures adapter.events == old(adapter.events) + [ModeSet(VideoModeText)]
    {
      var changed := modes.SetVideoMode(VideoModeText);
    }
  }
}
