/**
 * SetVideoMode and its cached current mode.  The BIOS call that switches the
 * adapter (INT 10h, AH = 00h) is recorded as an entry of a ghost trace of
 * hardware switches instead of being performed.
 */
module VideoMode {
  import opened Hardware

  /** VIDEO_MODE_TEXT: 80x25 text. */
  const VideoModeText: bv8 := 0x03
  /** VIDEO_MODE_320X200_4: 320x200, four colours, palettes 0 and 1. */
  const VideoMode320x200x4: bv8 := 0x04
  /** VIDEO_MODE_320X200_5: 320x200, four colours, palette 2. */
  const VideoMode320x200x5: bv8 := 0x05
  /** The initial value of the cache, which is none of the modes above. */
  const UnknownMode: bv8 := 0xFF

  /** The cached mode and the modes handed to the BIOS so far. */
  datatype ModeState = ModeState(cache: bv8, switches: seq<bv8>)

  /** No switch asks for the mode that was already active before it. */
  predicate NoRedundantSwitch(initial: bv8, switches: seq<bv8>)
  {
    (|switches| > 0 ==> switches[0] != initial) &&
    forall k :: 0 < k < |switches| ==> switches[k] != switches[k - 1]
  }

  /**
   * The effect of a run of SetVideoMode requests from a given cache: each
   * request switches the hardware at most once.
   */
  function Run(initial: bv8, requests: seq<bv8>): (r: ModeState)
    ensures |r.switches| <= |requests|
    decreases |requests|
  {
    if requests == [] then ModeState(initial, [])
    else
      var before := Run(initial, requests[..|requests| - 1]);
      var mode := requests[|requests| - 1];
      if before.cache == mode then before else ModeState(mode, before.switches + [mode])
  }

  /**
   * After a run of requests the cache holds the last mode requested, a request
   * switches the hardware at most once, the cache is the last mode switched to,
   * and the hardware is never switched to the mode the cache holds.
   */
  lemma {:induction false} RunProperties(initial: bv8, requests: seq<bv8>)
    ensures var r := Run(initial, requests);
      && r.cache == (if requests == [] then initial else requests[|requests| - 1])
      && |r.switches| <= |requests|
      && r.cache == (if r.switches == [] then initial else r.switches[|r.switches| - 1])
      && NoRedundantSwitch(initial, r.switches)
    decreases |requests|
  {
    if requests != [] {
      RunProperties(initial, requests[..|requests| - 1]);
    }
  }

  /** Asking again for the mode just asked for changes nothing. */
  lemma {:induction false} RunIdempotent(initial: bv8, requests: seq<bv8>, mode: bv8)
    ensures Run(initial, requests + [mode, mode]) == Run(initial, requests + [mode])
  {
    assert (requests + [mode, mode])[..|requests| + 1] == requests + [mode];
  }

  /** From the sentinel, the first request for a real mode always switches. */
  lemma {:induction false} FirstRequestSwitches(mode: bv8)
    requires mode != UnknownMode
    ensures Run(UnknownMode, [mode]) == ModeState(mode, [mode])
  {
    assert [mode][..0] == [];
  }

  /** The same mode twice from the sentinel: exactly one hardware switch. */
  lemma {:induction false} SameModeTwiceSwitchesOnce(mode: bv8)
    requires mode != UnknownMode
    ensures Run(UnknownMode, [mode, mode]).switches == [mode]
  {
    RunIdempotent(UnknownMode, [], mode);
    FirstRequestSwitches(mode);
  }

  /** Two different modes from the sentinel: exactly two hardware switches. */
  lemma {:induction false} TwoModesSwitchTwice(first: bv8, second: bv8)
    requires first != UnknownMode && first != second
    ensures Run(UnknownMode, [first, second]).switches == [first, second]
  {
    assert [first, second][..1] == [first];
    FirstRequestSwitches(first);
  }

  /**
   * The state of SetVideoMode: the static currentMode, plus the ghost history
   * of the modes requested and of the switches performed, and the adapter the
   * BIOS call acts on.
   */
  class ModeController {
    const adapter: Adapter
    var currentMode: bv8
    ghost var requests: seq<bv8>
    ghost var switches: seq<bv8>

    ghost predicate Valid()
      reads this
    {
      Run(UnknownMode, requests) == ModeState(currentMode, switches)
    }

    /** static unsigned char currentMode = 0xFF; */
    constructor (adapter: Adapter)
      ensures Valid() && this.adapter == adapter
      ensures currentMode == UnknownMode && requests == [] && switches == []
    {
      this.adapter := adapter;
      currentMode := UnknownMode;
      requests := [];
      switches := [];
    }

    /**
     * SetVideoMode: sets the mode through the BIOS, which clears video memory,
     * and updates the cache exactly when the requested mode differs from the
     * cached one, and says whether it did.  Otherwise the adapter is untouched.
     */
    method SetVideoMode(mode: bv8) returns (changed: bool)
      requires Valid()
      modifies this, adapter, adapter.videoMemory
      ensures Valid()
      ensures changed == (old(currentMode) != mode)
      ensures currentMode == mode
      ensures requests == old(requests) + [mode]
      ensures switches == if changed then old(switches) + [mode] else old(switches)
      ensures adapter.events == old(adapter.events) + if changed then [ModeSet(mode)] else []
      ensures changed ==> Blank(adapter.videoMemory[..])
      ensures !changed ==> adapter.videoMemory[..] == old(adapter.videoMemory[..])
    {
      assert (requests + [mode])[..|requests|] == requests;
      if currentMode != mode {
        adapter.SetMode(mode);
        switches := switches + [mode];
        currentMode := mode;
        changed := true;
      } else {
        changed := false;
      }
      requests := requests + [mode];
    }
  }
}
