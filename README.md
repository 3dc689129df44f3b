# CGA sample: verified model

A Dafny model of `cgasamp.c`, a DOS program that drives a CGA adapter in its
320x200 four-colour modes. It covers five things:

- the cached `SetVideoMode`, which switches the hardware only when the
  requested mode differs from the cached one;
- `SetCGAPalette`, which picks mode 4 or 5 for the palette and computes the
  value of the colour select register (port 0x3D9);
- `SetPixel`, which addresses the interleaved framebuffer (even scanlines at
  offset 0, odd scanlines at offset 8192, 80 bytes per scanline, four 2-bit
  pixels per byte with the leftmost in the top bits) and updates one pixel by
  read-modify-write;
- `DrawPattern`, which draws 20-pixel vertical bands with colours cycling
  0..3, and `CopyBufferToVideoMemory`, the 16 KiB copy to video memory;
- what `main` does around its keyboard loop: the per-key update of palette,
  intensity and background, and re-applying the palette and re-copying the
  pattern when the mode changes.

Modules follow these parts:

- `Addressing`: the index and bit-position formulas, the per-byte pixel
  update, and their inverse.
- `PixelBuffer`: `SetPixel` over an `array<bv8>`.
- `Pattern`: `DrawPattern`, three nested loops.
- `Blit`: the copy.
- `Hardware`: the adapter: video memory, the BIOS set-mode call, which
  blanks video memory, and the colour select port. Mode sets and register
  writes are recorded, in order, in one ghost trace of events.
- `VideoMode`: a `ModeController` class for the static cache, with a ghost
  history of requests and of hardware switches.
- `Palette`: the register value as a function, and `SetCGAPalette` as a
  method over the mode controller and its adapter.
- `Keys`: the per-key step as a function.
- `Driver`: a `Session` class for `main`'s set-up, one loop pass and the
  return to text mode.

Bytes are `bv8`, like `unsigned char`: buffer contents, modes, colours, the
register value, the background and the intensity flag. Pixel coordinates are
natural numbers. The source's `y & 1`, `y >> 1`, `x >> 2` and `x & 3` are
written as `%` and `/`, which agree with them on non-negative values. The source
computes the byte index as `((y & 1) * 8192) + ((x + (y >> 1) * 320) >> 2)`,
and the model keeps that form. `Addressing.ScreenLayout` proves that on screen
it equals the bank offset plus 80 bytes per scanline plus `x / 4`.

One detail of the input handling, which the model does not cover: the key is
passed through `toupper` before the switch, and `KB_KEY_UP` (0x48) and
`KB_KEY_DOWN` (0x50) are the codes of `H` and `P`. So typing `h` or `p` also
steps the background colour.

## Model

| member | source | states |
|---|---|---|
| `Addressing.ByteIndex` | cgasamp.c:140 | the byte index of SetPixel; for an odd scanline it lies in the bank at 8192 (the closed form is `Addressing.ScreenLayout`) |
| `Addressing.PixelShift` | cgasamp.c:141 | the pixel's bit position is 0, 2, 4 or 6 |
| `Addressing.WithPixel` | cgasamp.c:142-152 | after clear-and-OR, the pixel at the shift holds the low two bits of the colour; lower pixels are untouched; higher pixels get the colour's excess bits ORed in, so a colour below 4 leaves the other three pixels of the byte unchanged |
| `Addressing.ScreenLayout` | cgasamp.c:140 | for x < 320, y < 200: the index is (y % 2) * 8192 + (y / 2) * 80 + x / 4; it lies in the first 8000 bytes of its bank and below 16384; the 16-bit sum stays at most 32000 |
| `Addressing.ScreenCoord` | cgasamp.c:140-141 | every used byte and bit position is the location of an on-screen pixel, which this function returns (the layout's coverage) |
| `Addressing.ScreenCoordOfLocation` | cgasamp.c:140-141 | mapping a pixel's location back gives the same pixel |
| `Addressing.LocationInjective` | cgasamp.c:140-141 | two on-screen pixels with the same byte index and bit position are the same pixel |
| `PixelBuffer.PutPixel` | cgasamp.c:140-152 | reading back the pixel gives the colour's low two bits; no other byte of the buffer changes |
| `PixelBuffer.PutPixelEffect` | cgasamp.c:140-152 | with a colour below 4, setting one on-screen pixel changes that pixel only, and no byte outside the two banks' used bytes |
| `PixelBuffer.SetPixel` | cgasamp.c:137-153 | the new buffer is the old one with the target byte read, masked, ORed and written back |
| `Pattern.BandColour` | cgasamp.c:159-171 | the value of `colour` while the band starting at x / 20 * 20 is drawn, one of the four colours |
| `Pattern.BandColourSteps` | cgasamp.c:159-170 | the colour is constant across a band, and (colour + 1) & 3 is the colour of the next band |
| `Pattern.PaintOne` | cgasamp.c:163-168 | setting the next pixel of a band with its colour extends the painted part by one pixel and touches no byte outside the used ones |
| `Pattern.PatternBytes` | cgasamp.c:157-171 | a buffer in which every pixel has its band's colour holds, in each used byte, the solid byte of the band of its column (five bytes per band) |
| `Pattern.DrawPattern` | cgasamp.c:155-176 | afterwards every pixel (x, y) on screen has colour (x / 20) % 4; every used byte is the solid byte of its band; bytes 8000..8191 and from 16192 on are unchanged |
| `Blit.CopyBufferToVideoMemory` | cgasamp.c:178-181 | video memory equals the first 16384 bytes of the buffer |
| `VideoMode.Run` | cgasamp.c:56-71 | the cache and the switches after successive SetVideoMode calls; each call switches at most once |
| `VideoMode.RunProperties` | cgasamp.c:56-71 | after a run of requests the cache holds the last mode requested and the last mode switched to; there is at most one switch per request; no switch asks for the mode already active |
| `VideoMode.RunIdempotent` | cgasamp.c:61-70 | repeating the last request changes neither the cache nor the switches |
| `VideoMode.FirstRequestSwitches` | cgasamp.c:58-68 | from the sentinel 0xFF, the first request for any other mode switches to it |
| `VideoMode.SameModeTwiceSwitchesOnce` | cgasamp.c:58-70 | one mode asked for twice from the start: exactly one switch |
| `VideoMode.TwoModesSwitchTwice` | cgasamp.c:58-70 | two different modes from the start: exactly two switches, in order |
| `VideoMode.ModeController.constructor` | cgasamp.c:58 | the cache starts at 0xFF with no requests and no switches |
| `Hardware.Adapter.SetMode` | cgasamp.c:62-65 | the BIOS set-mode call is recorded as the next adapter event, and video memory is blank afterwards |
| `Hardware.Adapter.Out` | cgasamp.c:131 | a port write is recorded as the next adapter event |
| `VideoMode.ModeController.SetVideoMode` | cgasamp.c:56-71 | the result is true exactly when the mode differs from the cache; the cache becomes the mode; exactly then one switch is recorded and one mode set happens on the adapter, blanking video memory; otherwise the adapter is untouched |
| `Palette.RequiredMode` | cgasamp.c:87-95 | palette 2 needs mode 5, palettes 0 and 1 need mode 4 |
| `Palette.ColorSelectValue` | cgasamp.c:102-124 | bit 5 is set exactly for palette 1, bit 4 exactly when the intensity flag is non-zero, the low nibble is the background's low nibble, and the value is below 64 |
| `Palette.DecodeColorSelect` | cgasamp.c:37-39 | the background field read from a register value is below 16 |
| `Palette.DecodeColorSelectValue` | cgasamp.c:102-124 | decoding the written value gives back palette 1 or not, the intensity, and the background's low nibble |
| `Palette.ColorSelectValueOnto` | cgasamp.c:37-39 | every value below 64 is written for some palette, intensity and background |
| `Palette.Palette0And2DifferOnlyInMode` | cgasamp.c:87-124 | palettes 0 and 2 write the same register value but need different modes |
| `Palette.DisplaySetupDeterminesSelection` | cgasamp.c:87-124 | the mode and the register value together determine the palette, whether intensity is high, and the background nibble |
| `Palette.SetCGAPalette` | cgasamp.c:75-135 | requests the palette's mode and returns that call's changed flag; on the adapter, the mode set (only if the mode changed) comes first and then exactly one write of the colour select value; video memory is blank after a change and untouched otherwise |
| `Keys.ApplyKey` | cgasamp.c:211-253 | the result asks for a refresh exactly for the keys 0, 1, 2, I, Up and Down; other keys change nothing; 0, 1 and 2 set the palette; I flips the intensity's low bit only; Up adds 1 and Down subtracts 1 from the background, modulo 16 |
| `Keys.BackgroundUp` | cgasamp.c:243 | (b + 1) & 0xF on an unsigned char is b + 1 modulo 16, so 15 steps up to 0 |
| `Keys.BackgroundDown` | cgasamp.c:249 | (b - 1) & 0xF on an unsigned char is b + 15 modulo 16, so 0 steps down to 15 |
| `Keys.ApplyKeyKeepsWellFormed` | cgasamp.c:187-253 | starting from intensity 0 or 1 and background below 16, every key keeps them so |
| `Keys.UpDownInverse` | cgasamp.c:241-252 | Down undoes Up and Up undoes Down |
| `Keys.ToggleTwice` | cgasamp.c:234-240 | pressing I twice restores the selection |
| `Keys.ApplyKeys` | cgasamp.c:197-263 | the selection after successive passes of main's loop; from intensity 0 or 1 and a background below 16, every key sequence keeps them so |
| `Keys.RepeatedUp` | cgasamp.c:241-246 | n presses of Up add n to the background modulo 16 and leave palette and intensity alone |
| `Keys.SixteenUpsCycle` | cgasamp.c:241-246 | sixteen presses of Up give back the same selection |
| `Driver.DrawnPattern` | cgasamp.c:183-192 | the zero-initialised static buffer of 16384 bytes shows the pattern after DrawPattern |
| `Driver.Session.Start` | cgasamp.c:187-195 | after set-up the session is valid: mode 4, the last adapter event is the register write for palette 0 with low intensity on background 0, the pattern is drawn, and video memory equals the pattern although the mode set blanked it; the adapter sees the mode set (if the mode was not already 4) and then the write |
| `Driver.Session.Press` | cgasamp.c:208-253 | Escape ends the loop and changes nothing; any other key updates the selection as ApplyKey says; a command key adds to the adapter's events the mode set (only when the mode changes) and then one register write; the session stays valid, so video memory holds the pattern again after a switch |
| `Driver.Session.Refresh` | cgasamp.c:255-261 | SetCGAPalette sets the mode if needed and writes the register for the current selection; since a mode change blanks video memory, video memory equals the pattern afterwards only because the pattern is copied again then |
| `Driver.Session.Quit` | cgasamp.c:265 | the adapter is switched back to text mode 3, by one more mode set |

## Left out

- The BIOS call `int86(0x10, ...)` that switches the mode (cgasamp.c:65) is recorded as a `ModeSet` event of `Hardware.Adapter`, and it blanks video memory. The registers of `union REGS` and the rest of the BIOS state are left out.
- Hardware.Adapter.SetMode: blanks video memory to zero bytes, which is what a set-mode call does in the graphics modes. The text mode's blank screen (space characters with attribute 7) is not modelled; the program sets text mode only on exit.
- The port write `outp(0x3D9, value)` (cgasamp.c:131) is recorded as a `PortWrite` event. What the adapter displays is not modelled, and neither is the set-mode call's reset of the register; the trace keeps the two in order instead.
- `movedata` with far-pointer segments (cgasamp.c:180) is modelled as an array copy. Segment and offset arithmetic is left out.
- Driver.Session.Refresh: does not state that the pattern is left uncopied when the mode does not change. Copying then would leave video memory as it is, so the contracts speak only of the resulting state.
- The `VGA_COMPATIBLE` build of `SetCGAPalette` (cgasamp.c:79-129) is left out. It is compiled out by default (cgasamp.c:21), and it only issues BIOS calls.
- Keyboard input is left out: `getch`, `toupper`, skipping the 0xE0 prefix, and the `while (1)` loop (cgasamp.c:197-206). `Driver.Session.Press` takes the key that results.
- The console output `printf` and `fflush` (cgasamp.c:173-174, 191) is left out.
- PixelBuffer.SetPixel: requires `x + (y >> 1) * 320` below 0x10000 and the index inside the buffer. The source does not check either. A wrapping 16-bit `unsigned int` sum is not modelled. It happens once `x + (y >> 1) * 320` reaches 0x10000, for instance at y = 408 with x = 256, and never on screen. An index past the buffer writes past it in C, and the model excludes those inputs. On screen, both hold (`Addressing.ScreenLayout`).
- Pattern.DrawPattern: requires a buffer of at least 16192 bytes, the bytes it writes. Its only caller passes the 16384-byte `s_pattern`.
- `SetCGAPalette` takes `enum Palette`. The model's `Palette` datatype has only the three enumerators, so an out-of-range enum value cannot be passed. The source would treat one like palette 0.
