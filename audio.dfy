/** The frame loops of the audio callback `ofApp::audioOut` and of the
    waveform rebuild in `ofApp::update` (src/ofApp.cpp:39-45, 95-136).
    Sample values are reals built from an abstract `sine`; the floating-point
    rounding of the source is not modelled. */
module Audio {

  // The stream is set up with two output channels (src/ofApp.cpp:16), so
  // buffers are interleaved stereo: frame i occupies slots 2i (left) and
  // 2i + 1 (right). The channel count is written as the literal 2 below.

  /** One frame's sample: three partials at 1, 1.5 and 2 times the wave phase,
      each multiplied by its own pulse at 1, 1.04 and 1.09 times the pulse
      phase, summed and scaled by 0.3 so that the mix stays within [-1, 1].
      `sine` stands for std::sin. */
  function Chord(sine: real -> real, wave: real, pulse: real): real
  {
    var low := sine(wave) * sine(pulse);
    var mid := sine(wave * 1.5) * sine(pulse * 1.04);
    var hi := sine(wave * 2.0) * sine(pulse * 1.09);
    (low + mid + hi) * 0.3
  }

  /** The product of two values in [-1, 1] is in [-1, 1]. */
  lemma ProductInUnit(x: real, y: real)
    requires -1.0 <= x <= 1.0 && -1.0 <= y <= 1.0
    ensures -1.0 <= x * y <= 1.0
  {
    if x >= 0.0 {
      if y >= 0.0 {
        assert x * y <= 1.0 * y;
      } else {
        assert x * y >= x * -1.0;
      }
    } else {
      if y >= 0.0 {
        assert x * y >= -1.0 * y;
      } else {
        assert x * y <= -1.0 * y;
      }
    }
  }

  /** With a sine bounded by 1, every sample lies in [-0.9, 0.9]. */
  lemma ChordBounded(sine: real -> real, wave: real, pulse: real)
    requires forall x :: -1.0 <= sine(x) <= 1.0
    ensures -0.9 <= Chord(sine, wave, pulse) <= 0.9
  {
    var low := sine(wave) * sine(pulse);
    var mid := sine(wave * 1.5) * sine(pulse * 1.04);
    var hi := sine(wave * 2.0) * sine(pulse * 1.09);
    ProductInUnit(sine(wave), sine(pulse));
    ProductInUnit(sine(wave * 1.5), sine(pulse * 1.04));
    ProductInUnit(sine(wave * 2.0), sine(pulse * 1.09));
    assert -1.0 <= low <= 1.0;
    assert -1.0 <= mid <= 1.0;
    assert -1.0 <= hi <= 1.0;
    var sum := low + mid + hi;
    assert -3.0 <= sum <= 3.0;
    assert Chord(sine, wave, pulse) == sum * 0.3;
  }

  /** The phase after `i` frames, each of which adds `step` to it. */
  function PhaseAt(start: real, step: real, i: nat): real
  {
    if i == 0 then start else PhaseAt(start, step, i - 1) + step
  }

  /** After `i` frames the phase has moved by exactly `i` steps; with a
      non-negative step it never decreases from one frame to a later one. */
  lemma {:induction false} PhaseAdvances(start: real, step: real, i: nat, j: nat)
    requires i <= j
    ensures PhaseAt(start, step, i) == start + i as real * step
    ensures 0.0 <= step ==> PhaseAt(start, step, i) <= PhaseAt(start, step, j)
    decreases j
  {
    if j == i {
      if i != 0 {
        PhaseAdvances(start, step, i - 1, i - 1);
        assert i as real * step == (i - 1) as real * step + step;
      }
    } else {
      PhaseAdvances(start, step, i, j - 1);
    }
  }

  /** The sample of frame `i` when the phases start at `wave0` and `pulse0`. */
  function FrameSample(sine: real -> real, wave0: real, pulse0: real, waveStep: real, pulseStep: real,
                       i: nat): real
  {
    Chord(sine, PhaseAt(wave0, waveStep, i), PhaseAt(pulse0, pulseStep, i))
  }

  /** The interleaved stereo buffer of `frames` frames whose frame i carries
      `sample(i)` on both channels. */
  function Interleaved(frames: nat, sample: nat -> real): (s: seq<real>)
    ensures |s| == 2 * frames
  {
    if frames == 0 then [] else Interleaved(frames - 1, sample) + [sample(frames - 1), sample(frames - 1)]
  }

  /** FrameSample as a function of the frame index. The buffer lemmas below
      are stated for any such function, so they never look inside Chord;
      FrameSample stays a named function so that the lambda's body is a
      single call rather than the chord of two recursive phases. */
  function Samples(sine: real -> real, wave0: real, pulse0: real, waveStep: real, pulseStep: real): nat -> real
  {
    (i: nat) => FrameSample(sine, wave0, pulse0, waveStep, pulseStep, i)
  }

  /** The buffer that audioOut writes for `frames` frames when the phases
      start at `wave0` and `pulse0`. */
  function Rendered(frames: nat, wave0: real, pulse0: real, waveStep: real, pulseStep: real,
                    sine: real -> real): seq<real>
  {
    Interleaved(frames, Samples(sine, wave0, pulse0, waveStep, pulseStep))
  }

  /** Both channels of every frame carry that frame's sample. */
  lemma {:induction false} InterleavedStereo(frames: nat, sample: nat -> real)
    ensures forall i :: 0 <= i < frames ==>
      Interleaved(frames, sample)[2 * i] == Interleaved(frames, sample)[2 * i + 1] == sample(i)
  {
    if frames != 0 {
      InterleavedStereo(frames - 1, sample);
    }
  }

  /** Interleaved is the only buffer of its length whose frames carry their
      samples on both channels. */
  lemma {:induction false} InterleavedUnique(frames: nat, sample: nat -> real, buffer: seq<real>)
    requires |buffer| == 2 * frames
    requires forall i :: 0 <= i < frames ==> buffer[2 * i] == buffer[2 * i + 1] == sample(i)
    ensures buffer == Interleaved(frames, sample)
  {
    if frames != 0 {
      var front := buffer[..2 * (frames - 1)];
      assert forall i :: 0 <= i < frames - 1 ==> front[2 * i] == buffer[2 * i] && front[2 * i + 1] == buffer[2 * i + 1];
      InterleavedUnique(frames - 1, sample, front);
      assert buffer == front + [buffer[2 * frames - 2], buffer[2 * frames - 1]];
    }
  }

  /** A polyline vertex, given by what ofMap places it from: the frame index
      (x = ofMap(frame, 0, frames, 0, width)) and the left-channel sample
      (y = ofMap(sample, -1, 1, 0, height)). */
  datatype Vertex = Vertex(frame: nat, sample: real)

  /** The number of frames in an interleaved stereo buffer. */
  function Frames(buffer: seq<real>): nat
  {
    |buffer| / 2
  }

  /** The polyline that update builds: one vertex per frame, from the left
      channel. */
  function Waveform(buffer: seq<real>): seq<Vertex>
  {
    seq(Frames(buffer), i requires 0 <= i < Frames(buffer) => Vertex(i, buffer[2 * i]))
  }

  /** The waveform of an interleaved buffer has one vertex per frame, whose
      sample is that frame's sample; an empty buffer gives an empty
      waveform. */
  lemma WaveformOfInterleaved(frames: nat, sample: nat -> real)
    ensures var w := Waveform(Interleaved(frames, sample));
      |w| == frames &&
      forall i :: 0 <= i < frames ==> w[i] == Vertex(i, sample(i))
  {
    InterleavedStereo(frames, sample);
  }
}
