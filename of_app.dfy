/** The app object (src/ofApp.h:14-48) and the callbacks that change its
    state: setup, update, draw and audioOut (src/ofApp.cpp:4-136). */
module OfApp {
  import opened ColourWalk
  import opened CircleRing
  import opened Audio

  class App {
    /** The carrier and pulse phase accumulators, in radians. */
    var wavePhase: real
    var pulsePhase: real
    /** The copy of the last buffer audioOut produced, interleaved stereo. */
    var lastBuffer: seq<real>
    /** The polyline update builds from lastBuffer. */
    var waveform: seq<Vertex>
    /** The circle history, newest first. */
    var circles: seq<Circle>
    /** The colour of the next circle; advanced once per draw. */
    var currentColour: Colour
    /** The number of draw calls so far. */
    ghost var ticks: nat

    /** The history stays within MaxCircles, the current colour is where the
        colour walk from Initial is after `ticks` steps, and every stored
        circle's colour is a point of that walk. It reads only circles,
        currentColour and ticks; Update and AudioOut do not name those
        fields in their modifies clauses, so they keep Valid without
        having to state it. */
    ghost predicate Valid()
      reads this`circles, this`currentColour, this`ticks
    {
      |circles| <= MaxCircles
      && currentColour == Iterate(Initial, ticks)
      && forall k :: 0 <= k < |circles| ==> OnWalk(circles[k].colour)
    }

    /** setup: both phases at zero, the colour at opaque red, and the
        history, buffer and waveform empty. */
    constructor Setup()
      ensures Valid()
      ensures wavePhase == 0.0 && pulsePhase == 0.0
      ensures currentColour == Initial && ticks == 0
      ensures circles == [] && lastBuffer == [] && waveform == []
    {
      wavePhase, pulsePhase := 0.0, 0.0;
      currentColour := Initial;
      circles, lastBuffer, waveform := [], [], [];
      ticks := 0;
    }

    /** update: clears the waveform and adds one vertex per frame of
        lastBuffer, taken from its left channel. */
    method Update()
      modifies this`waveform
      ensures |waveform| == Frames(lastBuffer)
      ensures waveform == Waveform(lastBuffer)
    {
      waveform := [];
      var i := 0;
      while i < Frames(lastBuffer)
        invariant 0 <= i <= Frames(lastBuffer)
        invariant waveform == Waveform(lastBuffer)[..i]
      {
        waveform := waveform + [Vertex(i, lastBuffer[2 * i])];
        i := i + 1;
      }
    }

    /** draw: advances the colour, pushes a circle of the given size and that
        colour to the front, drops the back circle when there are more than
        MaxCircles, and rewrites every circle's alpha for its position.
        `size` stands for 50 + 800 * rms; `alphaAt(i)` for the byte value of
        255 * (1 - i / MAX_CIRCLES). */
    method Draw(size: real, alphaAt: nat -> Byte)
      requires Valid()
      modifies this`currentColour, this`circles, this`ticks
      ensures Valid()
      ensures ticks == old(ticks) + 1
      ensures currentColour == Step(old(currentColour))
      ensures circles == Faded(Pushed(old(circles), Circle(size, currentColour)), alphaAt)
    {
      currentColour := NextColour(currentColour);
      ticks := ticks + 1;
      var c := Circle(size, currentColour);
      circles := [c] + circles;
      if |circles| > MaxCircles {
        circles := circles[..|circles| - 1];
      }
      ghost var pushed := circles;
      assert pushed == Pushed(old(circles), c);
      var i := |circles| - 1;
      while i >= 0
        invariant -1 <= i < |pushed|
        invariant |circles| == |pushed|
        invariant forall k :: 0 <= k <= i ==> circles[k] == pushed[k]
        invariant forall k :: i < k < |circles| ==> circles[k] == FadeAt(pushed, k, alphaAt)
        modifies this`circles
      {
        var circle := circles[i];
        circles := circles[i := circle.(colour := circle.colour.(a := alphaAt(i)))];
        i := i - 1;
      }
      assert circles == Faded(pushed, alphaAt);
      assert currentColour == Iterate(Initial, ticks);
      assert forall k :: 0 <= k < |circles| ==> OnWalk(circles[k].colour) by {
        Reachable(ticks);
        TickStaysOnWalk(old(circles), c, alphaAt);
      }
    }

    /** audioOut: for every frame writes the chord at the current phases to
        both channels and advances both phases by one step; then keeps a copy
        of the buffer. `waveStep` and `pulseStep` stand for the steps computed
        from 172.5 Hz and 0.5 Hz at the buffer's sample rate, `sine` for
        std::sin. The buffer is interleaved stereo, two slots per frame. The
        phases are advanced in locals and stored back after the loop, which
        leaves the same state as advancing the fields frame by frame; the
        statements that build one frame's sample are the function Chord. */
    method AudioOut(out: array<real>, waveStep: real, pulseStep: real, sine: real -> real)
      requires out.Length % 2 == 0
      modifies this`wavePhase, this`pulsePhase, this`lastBuffer, out
      ensures out[..] == Rendered(out.Length / 2, old(wavePhase), old(pulsePhase), waveStep, pulseStep, sine)
      ensures wavePhase == PhaseAt(old(wavePhase), waveStep, out.Length / 2)
      ensures pulsePhase == PhaseAt(old(pulsePhase), pulseStep, out.Length / 2)
      ensures lastBuffer == out[..]
    {
      var frames := out.Length / 2;
      var wave, pulse := wavePhase, pulsePhase;
      ghost var sample := Samples(sine, wave, pulse, waveStep, pulseStep);
      var i := 0;
      while i < frames
        invariant 0 <= i <= frames
        invariant wave == PhaseAt(old(wavePhase), waveStep, i)
        invariant pulse == PhaseAt(old(pulsePhase), pulseStep, i)
        invariant forall j :: 0 <= j < i ==> out[2 * j] == out[2 * j + 1] == sample(j)
        modifies out
      {
        var fullSample := Chord(sine, wave, pulse);
        assert fullSample == sample(i);
        out[2 * i] := fullSample;
        out[2 * i + 1] := fullSample;
        wave := wave + waveStep;
        pulse := pulse + pulseStep;
        i := i + 1;
      }
      InterleavedUnique(frames, sample, out[..]);
      wavePhase, pulsePhase := wave, pulse;
      lastBuffer := out[..];
    }
  }
}
