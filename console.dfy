/**
 Model of `Fizzik\Utility\Console`: the dot-dot-dot console animation, a
 counter over four frames that advances on every call and can be reset.
 */
module Console {

  /** `Console::$animate_dotdotdot`, the frames in the order they are shown. */
  const Frames: seq<string> := ["", ".", "..", "..."]

  /** The frame shown by the n-th call after a reset, counting from 0: the
      frames repeat with period 4 and the n-th one is n % 4 dots. */
  function FrameAt(n: nat): (frame: string)
    ensures |frame| == n % 4
    ensures forall i :: 0 <= i < |frame| ==> frame[i] == '.'
  {
    Frames[n % |Frames|]
  }

  class Console {
    /** `$animate_dotdotdot_count`: index of the next frame. */
    var count: nat
    /** Calls of AnimateDotDotDot since construction or the last reset. */
    ghost var calls: nat

    ghost predicate Valid()
      reads this
    {
      count < |Frames| && count == calls % |Frames|
    }

    /** `__construct`: starts from a reset animation. */
    constructor ()
      ensures Valid() && count == 0 && calls == 0
    {
      new;
      ResetAnimations();
    }

    /** `animateDotDotDot`: returns the frame the counter points at and then
        advances the counter modulo the number of frames. */
    method AnimateDotDotDot() returns (frame: string)
      requires Valid()
      modifies this
      ensures Valid()
      ensures frame == Frames[old(count)]
      ensures count == (old(count) + 1) % |Frames|
      ensures calls == old(calls) + 1 && frame == FrameAt(old(calls))
    {
      frame := Frames[count];
      count := (count + 1) % |Frames|;
      calls := calls + 1;
    }

    /** `resetAnimations`: the next frame is the first one again, whatever the
        state was, so a second reset changes nothing. */
    method ResetAnimations()
      modifies this
      ensures Valid() && count == 0 && calls == 0
    {
      count := 0;
      calls := 0;
    }
  }

  /** A client of the contracts above: five calls after construction show one
      full cycle and start the next, and a reset starts over. */
  method AnimationCycle()
  {
    var console := new Console();
    var f0 := console.AnimateDotDotDot();
    var f1 := console.AnimateDotDotDot();
    var f2 := console.AnimateDotDotDot();
    var f3 := console.AnimateDotDotDot();
    var f4 := console.AnimateDotDotDot();
    assert [f0, f1, f2, f3, f4] == ["", ".", "..", "...", ""];
    console.ResetAnimations();
    console.ResetAnimations();
    var g := console.AnimateDotDotDot();
    assert g == "";
  }
}
