/**
 * The state change one key press makes in main's loop: choose a palette,
 * toggle the intensity, or step the background colour through the 16 colours.
 */
module Keys {
  import opened Palette

  const KeyZero: int := '0' as int
  const KeyOne: int := '1' as int
  const KeyTwo: int := '2' as int
  const KeyI: int := 'I' as int
  /** KB_KEY_UP: scan code of cursor up. */
  const KeyUp: int := 0x48
  /** KB_KEY_DOWN: scan code of cursor down. */
  const KeyDown: int := 0x50

  /** currentPalette, highIntensity and backgroundColour of main. */
  datatype Selection = Selection(palette: Palette, highIntensity: bv8, backgroundColour: bv8)

  datatype KeyResult = KeyResult(selection: Selection, refreshPalette: bool)

  /** The keys the switch statement acts on. */
  predicate IsCommandKey(key: int)
  {
    key == KeyZero || key == KeyOne || key == KeyTwo || key == KeyI || key == KeyUp || key == KeyDown
  }

  /** The values main starts from, and keeps: intensity 0 or 1, background 0..15. */
  predicate WellFormed(s: Selection)
  {
    (s.highIntensity == 0 || s.highIntensity == 1) && s.backgroundColour < 16
  }

  const InitialSelection: Selection := Selection(Palette0, 0, 0)

  /**
   * The body of main's switch on the key.  A command key asks for a palette
   * refresh and every other key leaves the selection alone; I flips only the
   * low bit of the intensity; Up and Down add and subtract one modulo 16.
   */
  function ApplyKey(s: Selection, key: int): (r: KeyResult)
    ensures r.refreshPalette == IsCommandKey(key)
    ensures !r.refreshPalette ==> r.selection == s
    ensures key == KeyZero ==> r.selection == s.(palette := Palette0)
    ensures key == KeyOne ==> r.selection == s.(palette := Palette1)
    ensures key == KeyTwo ==> r.selection == s.(palette := Palette2)
    ensures key == KeyI ==> r.selection.palette == s.palette && r.selection.backgroundColour == s.backgroundColour
    ensures key == KeyI ==> r.selection.highIntensity & 0xFE == s.highIntensity & 0xFE
    ensures key == KeyI ==> r.selection.highIntensity & 1 != s.highIntensity & 1
    ensures key == KeyUp || key == KeyDown ==>
      r.selection.palette == s.palette && r.selection.highIntensity == s.highIntensity
    ensures key == KeyUp || key == KeyDown ==> r.selection.backgroundColour < 16
    ensures key == KeyUp ==> (r.selection.backgroundColour - s.backgroundColour) & 0xF == 1
    ensures key == KeyDown ==> (s.backgroundColour - r.selection.backgroundColour) & 0xF == 1
  {
    if key == KeyZero then KeyResult(s.(palette := Palette0), true)
    else if key == KeyOne then KeyResult(s.(palette := Palette1), true)
    else if key == KeyTwo then KeyResult(s.(palette := Palette2), true)
    else if key == KeyI then KeyResult(s.(highIntensity := s.highIntensity ^ 1), true)
    else if key == KeyUp then KeyResult(s.(backgroundColour := (s.backgroundColour + 1) & 0xF), true)
    else if key == KeyDown then KeyResult(s.(backgroundColour := (s.backgroundColour - 1) & 0xF), true)
    else KeyResult(s, false)
  }

  /** Up on an unsigned char background, in arithmetic modulo 16. */
  lemma BackgroundUp(b: bv8)
    ensures ((b + 1) & 0xF) as int == (b as int + 1) % 16
  {
  }

  /** Down on an unsigned char background, in arithmetic modulo 16: 0 goes to 15. */
  lemma BackgroundDown(b: bv8)
    ensures ((b - 1) & 0xF) as int == (b as int + 15) % 16
  {
  }

  /** No key takes the selection outside the values main starts from. */
  lemma ApplyKeyKeepsWellFormed(s: Selection, key: int)
    requires WellFormed(s)
    ensures WellFormed(ApplyKey(s, key).selection)
  {
  }

  /** Down undoes Up and Up undoes Down. */
  lemma UpDownInverse(s: Selection)
    requires s.backgroundColour < 16
    ensures ApplyKey(ApplyKey(s, KeyUp).selection, KeyDown).selection == s
    ensures ApplyKey(ApplyKey(s, KeyDown).selection, KeyUp).selection == s
  {
  }

  /** Pressing I twice restores the intensity. */
  lemma ToggleTwice(s: Selection)
    ensures ApplyKey(ApplyKey(s, KeyI).selection, KeyI).selection == s
  {
  }

  /**
   * The selection after a sequence of passes of main's loop, one key each; no
   * sequence of keys leaves the values main starts from.
   */
  function ApplyKeys(s: Selection, keys: seq<int>): (r: Selection)
    ensures WellFormed(s) ==> WellFormed(r)
    decreases |keys|
  {
    if keys == [] then s else ApplyKeys(ApplyKey(s, keys[0]).selection, keys[1..])
  }

  /** n presses of the same key. */
  function Repeat(key: int, n: nat): (keys: seq<int>)
    ensures |keys| == n
    ensures forall k :: 0 <= k < n ==> keys[k] == key
  {
    if n == 0 then [] else [key] + Repeat(key, n - 1)
  }

  /** n presses of Up add n to the background colour, modulo 16. */
  lemma {:induction false} RepeatedUp(s: Selection, n: nat)
    requires s.backgroundColour < 16
    ensures ApplyKeys(s, Repeat(KeyUp, n)).palette == s.palette
    ensures ApplyKeys(s, Repeat(KeyUp, n)).highIntensity == s.highIntensity
    ensures ApplyKeys(s, Repeat(KeyUp, n)).backgroundColour as int == (s.backgroundColour as int + n) % 16
    decreases n
  {
    if n > 0 {
      var t := ApplyKey(s, KeyUp).selection;
      BackgroundUp(s.backgroundColour);
      assert Repeat(KeyUp, n)[1..] == Repeat(KeyUp, n - 1);
      RepeatedUp(t, n - 1);
      AddOneThenRest(s.backgroundColour as int, t.backgroundColour as int, n);
    }
  }

  /** One step up, then n - 1 more, is n steps up, modulo 16. */
  lemma AddOneThenRest(b: int, c: int, n: nat)
    requires 0 <= b < 16 && c == (b + 1) % 16 && n > 0
    ensures (c + (n - 1)) % 16 == (b + n) % 16
  {
    if b < 15 {} else {}
  }

  /** Sixteen presses of Up come back to the same selection. */
  lemma SixteenUpsCycle(s: Selection)
    requires s.backgroundColour < 16
    ensures ApplyKeys(s, Repeat(KeyUp, 16)) == s
  {
    var r := ApplyKeys(s, Repeat(KeyUp, 16));
    RepeatedUp(s, 16);
    assert r.backgroundColour as int == s.backgroundColour as int;
  }
}
