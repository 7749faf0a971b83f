# AudioVisualisation core in Dafny

This project models the logic of the openFrameworks app `ofApp` (src/ofApp.cpp, src/ofApp.h) that can be stated exactly:

- **The colour walk `nextColour`** (`ColourWalk`, colour_walk.dfy). A colour is four unsigned bytes. The red, green and blue channels form a cycle r → g → b → r. One call scans the three pairs (channel, successor) in order. At the first pair whose channel is 255, or whose channel and successor are both nonzero, it moves 3 from the channel to the successor in 8-bit arithmetic, so values wrap modulo 256.
  - `Step` is the specification function.
  - `NextColour` is the source's loop over a three-slot channel table, with `break`, proved equal to `Step`.
  - Lemmas give the one-step behaviour and what the walk from the initial colour (255, 0, 0, 255) does: it never wraps, it has period 255, and it passes through pure green and pure blue.
- **The circle history of `draw`** (`CircleRing`, circle_ring.dfy). A newest-first deque bounded by `MAX_CIRCLES` = 40.
  - `Pushed` is push_front followed by pop_back when the size passes 40.
  - `Faded` is the function that the alpha loop in `App.Draw` is proved equal to: every circle's alpha is set to the value for its position.
  - Lemmas state what survives a tick, and that any run of pushes keeps the newest 40 circles.
- **The frame loops of `audioOut` and `update`** (`Audio`, audio.dfy). `audioOut` fills an interleaved stereo buffer with the same chord sample on both channels of every frame, and advances both phase accumulators once per frame. `update` builds one waveform vertex per frame from the left channel.
  - Samples are reals built from an abstract `sine`. `Chord` is one frame's sample at given phases, `PhaseAt` a phase after a number of frames, `Rendered` the whole buffer and `Waveform` the polyline built from a buffer.
  - The buffer layout, the phase bookkeeping and a bound on the chord are proved.
- **The app object** (`OfApp.App`, of_app.dfy). A class with the fields the callbacks update: the phases, `lastBuffer`, the waveform, the circle history and the current colour.
  - `Setup`, `Update`, `Draw` and `AudioOut` change these fields in place.
  - Each is proved against the functions above.
  - `Draw` keeps an invariant: the current colour is the colour walk after as many steps as there have been draw calls, and every stored circle's colour lies on the walk.

Two buffer-layout decisions apply throughout:
- Buffers are interleaved stereo: frame i occupies slots 2i and 2i + 1. The stream is opened with two output channels (src/ofApp.cpp:16).
- `ofSoundBuffer::getSample(i, c)` is modelled as slot `2 * i + c`.

## Model

| member | source | states |
|---|---|---|
| ColourWalk.Step | src/ofApp.cpp:57-67 | One call of nextColour as a function: the first of the pairs (r, g), (g, b), (b, r) whose first channel is 255, or whose two channels are both nonzero, is shifted by 3 in byte arithmetic. With no such pair the colour is returned as it was. |
| ColourWalk.NextColour | src/ofApp.cpp:52-68 | The loop over the channel table, stopping at the first firing pair, returns exactly `Step(prev)`: the first firing pair is shifted, or the colour is unchanged when none fires. |
| ColourWalk.ByteArithmeticModulo | src/ofApp.cpp:62-63 | `curr -= 3` and `next += 3` on uint8_t are subtraction and addition modulo 256. |
| ColourWalk.StepShiftsFirstFiringPair | src/ofApp.cpp:57-66 | When pair i is the first that fires, channel i becomes (c − 3) mod 256 and channel (i+1)%3 becomes (c + 3) mod 256. The third channel and alpha are unchanged. |
| ColourWalk.StepFixedIffNoneFires | src/ofApp.cpp:57-67 | A colour is returned unchanged if and only if no pair fires. |
| ColourWalk.ShiftSum | src/ofApp.cpp:61-64 | One shift changes the integer sum r + g + b by −256, 0 or 256, and by 0 when neither channel wraps. Alpha is kept. |
| ColourWalk.StepKeepsSumModulo | src/ofApp.cpp:53-64 | Every call keeps r + g + b modulo 256 and keeps alpha. |
| ColourWalk.StepWrapsBelowZero | src/ofApp.cpp:61-63 | The byte boundary: (1, 1, 0) fires on red/green and gives (254, 4, 0). The integer sum jumps by 256. |
| ColourWalk.WalkNext | src/ofApp.cpp:57-66 | An integer-only reference step: it keeps a colour on the walk (sum 255, multiples of 3, one channel zero), keeps alpha and always moves. |
| ColourWalk.StepOnWalk | src/ofApp.cpp:57-66 | On a walk colour, `nextColour` equals the reference step `WalkNext`: it never wraps and keeps the integer sum. |
| ColourWalk.Iterate | src/ofApp.cpp:72 | The colour after n draw calls, each of which replaces the current colour by one `nextColour` step. |
| ColourWalk.Reachable | src/ofApp.cpp:11 | Every colour reached from (255, 0, 0, 255) by any number of calls has r + g + b = 255, every channel a multiple of 3, at least one zero channel, and alpha 255. |
| ColourWalk.RedToGreen | src/ofApp.cpp:57-66 | From (255, 0, 0), k ≤ 85 calls give (255 − 3k, 3k, 0). |
| ColourWalk.GreenToBlue | src/ofApp.cpp:57-66 | From (0, 255, 0), k ≤ 85 calls give (0, 255 − 3k, 3k). |
| ColourWalk.BlueToRed | src/ofApp.cpp:57-66 | From (0, 0, 255), k ≤ 85 calls give (3k, 0, 255 − 3k). |
| ColourWalk.WalkFromInitial | src/ofApp.cpp:11 | The exact colour after n ≤ 255 calls from the initial colour, for each third of the cycle. |
| ColourWalk.WalkCycle | src/ofApp.cpp:11 | From the initial colour the walk reaches (0, 255, 0) after 85 calls, (0, 0, 255) after 170, and the initial colour again after 255 calls and not before. |
| ColourWalk.WalkSkipsPeriod | src/ofApp.cpp:72 | 255 more draw ticks bring the colour back to where it was. |
| ColourWalk.WalkSkipsPeriods | src/ofApp.cpp:72 | Any whole number of periods (255q draw ticks) further on, the colour is where it was. |
| ColourWalk.WalkPeriodic | src/ofApp.cpp:72 | The colour after n draw ticks is the colour after n mod 255 ticks. |
| CircleRing.Pushed | src/ofApp.cpp:73-76 | push_front of the new circle, then pop_back when the deque holds more than 40. |
| CircleRing.FadeAt | src/ofApp.cpp:78-83 | The circle at position i with only its alpha replaced by the alpha for position i. |
| CircleRing.Faded | src/ofApp.cpp:77-84 | Every stored circle with its alpha replaced by the alpha for its position; the length and the order are kept. |
| CircleRing.PushedShape | src/ofApp.cpp:73-76 | After push_front and the conditional pop_back on a ring of at most 40, the ring holds min(old + 1, 40) circles. The new circle is first and the old circles follow in order. Only the back (oldest) circle can be dropped. |
| CircleRing.FadedKeepsCircles | src/ofApp.cpp:77-84 | The alpha loop keeps the number of circles and each circle's size and r, g, b. It sets only alpha, to the value for the circle's position. |
| CircleRing.TickKeepsHistory | src/ofApp.cpp:72-84 | One draw tick: the new circle is at the front, the earlier circles follow with unchanged size and r, g, b, at most the oldest is gone, and each circle has its position's alpha. |
| CircleRing.TickStaysOnWalk | src/ofApp.cpp:72-84 | If the new colour and all stored colours are on the walk, all colours after the tick are on the walk. |
| CircleRing.PushAllKeepsNewest | src/ofApp.cpp:73-76 | Any sequence of pushes onto a ring of at most 40 leaves the newest min(total, 40) circles, newest first. |
| CircleRing.FortyFivePushes | src/ofApp.cpp:73-76 | 45 pushes onto an empty ring leave exactly the last 40 pushed, newest first. The 5 oldest are evicted. |
| Audio.Chord | src/ofApp.cpp:111-123 | One frame's sample: the sum of sin(wave)·sin(pulse), sin(1.5·wave)·sin(1.04·pulse) and sin(2·wave)·sin(1.09·pulse), times 0.3. |
| Audio.ChordBounded | src/ofApp.cpp:111-123 | With a sine bounded by 1, each chord sample lies in [−0.9, 0.9]. |
| Audio.PhaseAt | src/ofApp.cpp:130-131 | A phase after i frames, each of which adds its step once. |
| Audio.PhaseAdvances | src/ofApp.cpp:130-131 | After i frames a phase has moved by exactly i steps. With a non-negative step it never decreases. |
| Audio.FrameSample | src/ofApp.cpp:108-131 | The sample of frame i: the chord at the phases the loop has reached after i frames. |
| Audio.Rendered | src/ofApp.cpp:108-132 | The buffer audioOut writes: interleaved stereo, frame i carrying the sample of frame i on both channels. |
| Audio.Interleaved | src/ofApp.cpp:126-127 | The interleaved buffer has two slots per frame. |
| Audio.InterleavedStereo | src/ofApp.cpp:126-127 | In the buffer audioOut fills, left and right of frame i both carry frame i's sample. |
| Audio.InterleavedUnique | src/ofApp.cpp:108-132 | Any buffer of 2N slots whose frames carry their samples on both channels is that interleaved buffer. |
| Audio.Waveform | src/ofApp.cpp:39-45 | The polyline update builds: one vertex per frame of the buffer, from its left channel, in frame order. |
| Audio.WaveformOfInterleaved | src/ofApp.cpp:39-45 | The waveform of an interleaved buffer has one vertex per frame, carrying that frame's left sample. An empty buffer gives an empty waveform. |
| OfApp.App.Setup | src/ofApp.cpp:4-11 | Setup zeroes both phases and sets the colour to (255, 0, 0, 255). The history, buffer and waveform are empty, as their default construction leaves them. The app invariant holds. |
| OfApp.App.Update | src/ofApp.cpp:39-45 | The waveform is cleared and rebuilt with exactly one vertex per frame of `lastBuffer`, from its left channel. It is empty when the buffer has no frames. |
| OfApp.App.Draw | src/ofApp.cpp:72-84 | The colour advances by one `nextColour` step. The history becomes the faded push of a circle in that colour. The invariant (bounded history, colour = walk after `ticks` steps, stored colours on the walk) is preserved. |
| OfApp.App.AudioOut | src/ofApp.cpp:108-135 | The buffer becomes exactly the interleaved chord for its frames, from the old phases. Each phase has advanced N times by its step, and `lastBuffer` holds a copy of the buffer. |

## Left out

- Floating point: samples, phases and sizes are exact reals. The source's `float`/`double` rounding, and its loss of phase precision over long runs, are not modelled.
- `std::sin` is a parameter `sine` of `AudioOut`. The phase steps `(172.5 / sampleRate) * 2π` and `(0.5 / sampleRate) * 2π` (src/ofApp.cpp:98-102) are parameters `waveStep` and `pulseStep`, because they are floating-point values of the sample rate.
- OfApp.App.AudioOut: accumulates the phases in locals and stores them back after the loop, instead of updating the fields once per frame. The final state is the same. No other code runs during the loop in this model.
- OfApp.App.Draw: takes the circle size (`50 + 800 * rms`) as the parameter `size`. The per-position alpha byte (`255.0f * (1 - i / MAX_CIRCLES)` converted to unsigned char) is the parameter `alphaAt`. Both are floating-point results.
- The RMS loudness (`getRMSAmplitude`, src/ofApp.cpp:47) and the `rms` field are not modelled: floating-point numerics.
- `ofMap` placement of waveform vertices (src/ofApp.cpp:42-43): a vertex keeps the frame index and the sample that `ofMap` would place. The window size is not modelled.
- `circleWidth`, `ofPath` and all drawing calls, `ofBackground`, `ofSetFrameRate`, `ofEnableAlphaBlending` and the sound-stream setup (src/ofApp.cpp:5-6, 13-21, 71, 80-90) are not modelled: framework calls with no state of the model.
- The `audioMutex` locks (src/ofApp.cpp:30, 134) are not modelled. The cross-thread handoff of `lastBuffer` is an assignment here, and concurrency is out of scope.
- The output channel count is fixed at 2, as set up at src/ofApp.cpp:16. Other channel counts are not modelled.
- `Setup` starts `lastBuffer`, `circles` and `waveform` empty. `setup()` does not assign them: they are the default-constructed `ofSoundBuffer`, `std::deque` and `ofPolyline` members (src/ofApp.h:40-41, 46), which hold no frames, circles or vertices.
- The input-event handlers (src/ofApp.cpp:139-191) are empty and are not modelled.
