/**
 * SetCGAPalette on its default build (without VGA_COMPATIBLE): choose the
 * graphics mode the palette needs, then write the colour select register.
 */
module Palette {
  import opened Hardware
  import opened VideoMode

  /** enum Palette. */
  datatype Palette = Palette0 | Palette1 | Palette2

  /** CGA_COLOR_SELECT_REGISTER. */
  const ColorSelectRegister: int := 0x3D9
  /** CGA_PALETTE_BIT: cyan/magenta/white instead of green/red/brown. */
  const PaletteBit: bv8 := 0x20
  /** CGA_PALETTE_INTENSITY_BIT: the high intensity variant. */
  const IntensityBit: bv8 := 0x10
  /** CGA_BACKGROUND_MASK: the background colour, one of 16. */
  const BackgroundMask: bv8 := 0x0F

  /** Palette 2 needs mode 5; palettes 0 and 1 need mode 4. */
  function RequiredMode(palette: Palette): (mode: bv8)
    ensures mode == VideoMode320x200x4 || mode == VideoMode320x200x5
    ensures (mode == VideoMode320x200x5) == (palette == Palette2)
  {
    if palette == Palette2 then VideoMode320x200x5 else VideoMode320x200x4
  }

  /**
   * The value SetCGAPalette writes: the palette bit exactly for palette 1, the
   * intensity bit exactly when highIntensity is non-zero, the low four bits of
   * the background colour, and nothing in bits 6 and 7.
   */
  function ColorSelectValue(palette: Palette, highIntensity: bv8, backgroundColour: bv8): (value: bv8)
    ensures (value & PaletteBit != 0) == (palette == Palette1)
    ensures (value & IntensityBit != 0) == (highIntensity != 0)
    ensures value & BackgroundMask == backgroundColour & BackgroundMask
    ensures value < 64
  {
    var withPalette: bv8 := if palette == Palette1 then PaletteBit else 0;
    var withBackground := withPalette | (backgroundColour & BackgroundMask);
    if highIntensity != 0 then withBackground | IntensityBit else withBackground
  }

  /** What the adapter reads out of a colour select value. */
  datatype ColorSelect = ColorSelect(alternatePalette: bool, highIntensity: bool, background: bv8)

  function DecodeColorSelect(value: bv8): (c: ColorSelect)
    ensures c.background < 16
  {
    ColorSelect(value & PaletteBit != 0, value & IntensityBit != 0, value & BackgroundMask)
  }

  /** Decoding the written value gives back what SetCGAPalette was asked for. */
  lemma DecodeColorSelectValue(palette: Palette, highIntensity: bv8, backgroundColour: bv8)
    ensures DecodeColorSelect(ColorSelectValue(palette, highIntensity, backgroundColour))
         == ColorSelect(palette == Palette1, highIntensity != 0, backgroundColour & BackgroundMask)
  {
  }

  /** Every six-bit value is written for some palette, intensity and background. */
  lemma ColorSelectValueOnto(value: bv8)
    requires value < 64
    ensures ColorSelectValue(if value & PaletteBit != 0 then Palette1 else Palette0,
                             value & IntensityBit, value & BackgroundMask) == value
  {
  }

  /**
   * Palettes 0 and 2 write the same register value; what tells them apart is
   * the mode.
   */
  lemma Palette0And2DifferOnlyInMode(highIntensity: bv8, backgroundColour: bv8)
    ensures ColorSelectValue(Palette0, highIntensity, backgroundColour)
         == ColorSelectValue(Palette2, highIntensity, backgroundColour)
    ensures RequiredMode(Palette0) != RequiredMode(Palette2)
  {
  }

  /**
   * The mode together with the register value determines the palette, whether
   * the intensity is high, and the background colour.
   */
  lemma DisplaySetupDeterminesSelection(p1: Palette, i1: bv8, b1: bv8, p2: Palette, i2: bv8, b2: bv8)
    requires RequiredMode(p1) == RequiredMode(p2)
    requires ColorSelectValue(p1, i1, b1) == ColorSelectValue(p2, i2, b2)
    ensures p1 == p2 && (i1 != 0) == (i2 != 0) && b1 & BackgroundMask == b2 & BackgroundMask
  {
    DecodeColorSelectValue(p1, i1, b1);
    DecodeColorSelectValue(p2, i2, b2);
  }

  /**
   * SetCGAPalette: requests the palette's mode from the mode controller, then
   * writes the colour select value once, and returns whether the mode changed.
   * On the adapter, the mode set (if any) comes before the write.
   */
  method SetCGAPalette(modes: ModeController, palette: Palette, highIntensity: bv8, backgroundColour: bv8)
    returns (modeChanged: bool)
    requires modes.Valid()
    modifies modes, modes.adapter, modes.adapter.videoMemory
    ensures modes.Valid()
    ensures modeChanged == (old(modes.currentMode) != RequiredMode(palette))
    ensures modes.currentMode == RequiredMode(palette)
    ensures modes.requests == old(modes.requests) + [RequiredMode(palette)]
    ensures modes.switches == if modeChanged then old(modes.switches) + [RequiredMode(palette)] else old(modes.switches)
    ensures modes.adapter.events == old(modes.adapter.events)
      + (if modeChanged then [ModeSet(RequiredMode(palette))] else [])
      + [PortWrite(ColorSelectValue(palette, highIntensity, backgroundColour))]
    ensures modeChanged ==> Blank(modes.adapter.videoMemory[..])
    ensures !modeChanged ==> modes.adapter.videoMemory[..] == old(modes.adapter.videoMemory[..])
  {
    var value: bv8 := 0;
    if palette == Palette2 {
      modeChanged := modes.SetVideoMode(VideoMode320x200x5);
    } else {
      modeChanged := modes.SetVideoMode(VideoMode320x200x4);
      if palette == Palette1 {
        value := value | PaletteBit;
      }
    }
    value := value | (backgroundColour & BackgroundMask);
    if highIntensity != 0 {
      value := value | IntensityBit;
    }
    modes.adapter.Out(value);
  }
}
