# ScoutAudioEngine PortAudio backend: cursor arithmetic, sound registry and tick handoff

This project models the core of ScoutAudioEngine's PortAudio backend in Dafny and proves properties of it. The core has three parts:

- **`MonoSound_Portaudio`** (module `MonoSound`). A mono sample vector with a 32-bit playback cursor and a loop flag. `AdvanceBy` moves the cursor one block on; it wraps for a looping sound and parks at the `END_OF_DATA` sentinel for a one-shot sound. `GoToFrame` seeks and throws past the data. `Play` and `Stop` rewind or park the cursor. `Service` copies one block of samples at the cursor into the caller's buffer, in one or two `std::copy` calls. The 32-bit truncations of `nextBegin`, `currentEnd`, `max` and `firstPartDelta` are written out (module `Uint32`). `Service` is modelled on exactly the inputs for which every iterator range it forms is in bounds (`ServiceDefined`).
- **`AudioEngine_Portaudio`'s registry** (module `AudioEngine`). An append-only vector of sounds whose handle is their index, plus the `std::set` of handles serviced each tick (`playing`). The API calls (`MakeSound`, `PlaySound`, `PlayOneShot`, `StopSound`, `StopAll`, `PauseSound`, `UnpauseSound`, `SetSoundLooping`) are pure transitions. So are the queries `IsSoundPlaying`, `IsSoundPaused`, `IsSoundLooped` and the configuration getters. The source never checks a handle. Calls that index the vector therefore require a valid handle, and `PauseSound`/`UnpauseSound`, which only touch the set, accept any handle.
- **The producer/consumer handoff** (module `Tick`). `Update` mixes one block when the dirty flag is set and clears the flag. The hardware callback copies the shared block out and sets the flag. The mutex only serialises these two steps, so each is one atomic transition of a sequential state machine. The mixing loop walks `playing` in ascending handle order. For each handle it runs `Service` into the working block, then `AdvanceBy`, then mixes the block into the sum.

Sample values, the mixing policy and channel (de)interleaving are not modelled. They are an abstract sample type `S` with an uninterpreted zero, a sample-wise `combine`, and length-preserving `interleave`/`uninterleave` functions (module `Mixing`).

Module `Protocol` ties the API together as one transition system:

- `Op` is one API call, and `Step` applies it using the corrected tick.
- `Healthy` is an invariant: a block has at least one frame, every sound holds at least one block, its length plus one more block stays below 2^32, and every cursor is `END_OF_DATA` or an index of its data. Every call preserves it, as long as each sound registered holds at least one block and one more block fits in 32 bits.
- A healthy engine always has a defined tick. That tick publishes the reference mix `WindowMix`: the cyclic windows `data[(c + i) mod len]` of the playing sounds, combined in handle order.
- Worked examples on integer samples show the source as written next to the corrected behaviour.

Two behaviours of the source are modelled as they are:

- `MakeSound` does not reject a channel count of 0. It keeps the whole signal, because only a count above 1 is split (AudioEngine.cpp:88-105).
- Handles are never validated: every call indexes `sounds_` directly. The header lists handle checks as a TODO (AudioEngine.h:14).

## Model

| member | source | states |
|---|---|---|
| Uint32.Wrap | Src/Portaudio/Sound.cpp:14-15 | A value converted to `std::uint32_t` is reduced modulo 2^32. A value already in range is kept. A sum of two 32-bit values loses 2^32. A negative difference gains 2^32. |
| MonoSound.New | Src/Portaudio/Sound.cpp:7-9 | A new sound holds the samples verbatim, does not loop and is parked at `END_OF_DATA` (Sound.h:21-23). No block can be serviced from it. |
| MonoSound.AdvanceBy | Src/Portaudio/Sound.cpp:10-39 | Advancing never changes the samples or the loop flag. A sound at `END_OF_DATA` does not move. |
| MonoSound.AdvanceByCorrected | Src/Portaudio/Sound.cpp:10-39 | The corrected advance keeps samples and loop flag and leaves `END_OF_DATA` where it is. On a looping sound it agrees with the source's advance. For a one-shot sound without 32-bit overflow it differs from the source's advance exactly when the cursor would land on the data length, which is the comparison at Sound.cpp:30. |
| MonoSound.GoToFrame | Src/Portaudio/Sound.cpp:40-45 | Seeking fails exactly when the frame is not an index of the data. Otherwise the cursor is that frame and nothing else changes. |
| MonoSound.Play | Src/Portaudio/Sound.cpp:70-73 | Play sets the cursor to frame 0 and keeps samples and loop flag. For a non-empty sound this is the same as seeking to frame 0. |
| MonoSound.Stop | Src/Portaudio/Sound.cpp:74-77 | Stop parks the cursor at `END_OF_DATA` and keeps samples and loop flag. A stopped sound no longer advances, and no block can be serviced from it. |
| MonoSound.ServiceDefined | Src/Portaudio/Sound.cpp:46-68 | The exact condition under which every iterator range `Service` forms lies inside the data and the block. It implies the cursor is an index of the data or equal to its length. |
| MonoSound.Service | Src/Portaudio/Sound.cpp:46-68 | When every copy range is in bounds, the block keeps its size. |
| MonoSound.AdvanceLooping | Src/Portaudio/Sound.cpp:17-27 | A looping cursor inside the data moves to `(c + f) mod len(data)`. It stays an index and never reaches `END_OF_DATA`. |
| MonoSound.AdvanceOneShot | Src/Portaudio/Sound.cpp:28-38 | A one-shot cursor moves to `c + f` while that is at most `len(data)`, including exactly `len(data)`. Past that it moves to `END_OF_DATA`. |
| MonoSound.AdvanceOverflowRewinds | Src/Portaudio/Sound.cpp:14-33 | When `c + f` passes 2^32 - 1, the wrapped sum sends a one-shot cursor backwards instead of stopping it. |
| MonoSound.LoopingStep | Src/Portaudio/Sound.cpp:17-27 | One looping advance from `a mod len(data)` lands on `(a + f) mod len(data)`. |
| MonoSound.LoopingCycle | Src/Portaudio/Sound.cpp:17-27 | After `k` advances a looping cursor is at `(c + k·f) mod len(data)`. It never stops, and samples and flag are kept. |
| MonoSound.OneShotBlocks | Src/Portaudio/Sound.cpp:28-38 | A one-shot sound played from 0 is at `k·f` after `k` advances while `k·f <= len(data)`. It is at `END_OF_DATA` once `k·f` exceeds `len(data)`. |
| MonoSound.OneShotLifetime | Src/Portaudio/Sound.cpp:28-38 | As written, a one-shot sound reaches `END_OF_DATA` on advance `floor(len/f) + 1` and no earlier. |
| MonoSound.OneShotBlocksCorrected | Src/Portaudio/Sound.cpp:28-38 | With the strict comparison, the cursor is at `k·f` while that is an index. It is at `END_OF_DATA` from the first `k >= 1` with `k·f >= len(data)`. |
| MonoSound.OneShotLifetimeCorrected | Src/Portaudio/Sound.cpp:28-38 | With the strict comparison, a one-shot sound ends after exactly `ceil(len/f)` advances (at least one). Until then its cursor is an index of the data. |
| MonoSound.PlayStop | Src/Portaudio/Sound.cpp:70-77 | Play rewinds to 0 and Stop parks at `END_OF_DATA`. Neither touches samples or loop flag. Stop is idempotent, and each overrides the other's cursor. |
| MonoSound.ServiceReadsWindow | Src/Portaudio/Sound.cpp:46-68 | For a block of 1 to `len(data)` samples and a cursor at most `len(data)`, every copy is in bounds. The block becomes `data[(c + i) mod len]`, whatever it held before and whatever the loop flag. |
| MonoSound.OneShotTailReadsFromStart | Src/Portaudio/Sound.cpp:46-68 | `Service` ignores the loop flag. A one-shot block running past the end continues with `data[0]`. |
| MonoSound.EmptyBlockUndefined | Src/Portaudio/Sound.cpp:57-66 | An empty block with the cursor inside the data takes the two-copy branch, which writes past the block. |
| MonoSound.PastEndUndefined | Src/Portaudio/Sound.cpp:48-66 | A cursor at `END_OF_DATA` or past the data is never serviceable. |
| MonoSound.ShortSoundSingleCopy | Src/Portaudio/Sound.cpp:51-59 | For a sound shorter than the block, the window end always lies after the cursor, so the single copy runs. It copies only `|out| - len(data)` samples from the cursor and leaves the rest of the block as it was. It stays inside the data exactly while `c + |out| <= 2 len(data)`. |
| MonoSound.ShortSoundPlaysFirstSample | Src/Portaudio/Sound.cpp:51-59 | A two-sample sound serviced into a three-sample block `[7, 8, 9]` gives `[1, 8, 9]`: only the first sample is delivered. |
| MonoSound.WrappingBlockThenAdvance | Src/Portaudio/Sound.cpp:17-66 | A wrapping block of a looping sound is the tail of the data followed by its head. The next advance puts the cursor just after that head. |
| AudioEngine.Init | Src/Portaudio/AudioEngine.cpp:23-70 | A new engine has no sounds and nothing playing. Its shared block is `framesPerBuffer × channels` silent samples, and the dirty flag is set. |
| AudioEngine.GetNrOfChannels | Src/Portaudio/AudioEngine.cpp:191-203 | One channel for mono and two for dual mono. In a well-formed engine the shared block holds that many samples per frame. |
| AudioEngine.GetFramesPerBuffer | Src/Portaudio/AudioEngine.cpp:205-208 | The block length is a 32-bit value. In a well-formed engine the shared block holds that many frames of every channel. |
| AudioEngine.GetBytesPerFrame | Src/Portaudio/AudioEngine.cpp:178-189 | A frame is 4 bytes per channel: 4 or 8 bytes. |
| AudioEngine.GetBufferSizeInBytes | Src/Portaudio/AudioEngine.cpp:210-213 | In a well-formed engine the buffer size in bytes is exactly 4 bytes per sample of the shared block. |
| AudioEngine.IsSoundPlaying | Src/Portaudio/AudioEngine.cpp:151-155 | A sound plays exactly when its cursor is not `END_OF_DATA`. A sound that does not play never advances. |
| AudioEngine.IsSoundPaused | Src/Portaudio/AudioEngine.cpp:157-161 | A sound is paused exactly when it has a cursor and is not in `playing`. A serviced sound is never paused, and neither is a stopped one. |
| AudioEngine.IsSoundLooped | Src/Portaudio/AudioEngine.cpp:163-166 | The query reports the loop flag. A looped sound with a cursor never advances to `END_OF_DATA`. |
| AudioEngine.StoredSamples | Src/Portaudio/AudioEngine.cpp:88-105 | With at most one channel the samples are kept verbatim. With more, only `len / channels` samples are kept: the first channel. Non-interleaved input keeps its prefix. |
| AudioEngine.MakeSound | Src/Portaudio/AudioEngine.cpp:83-106 | The handle is the old registry size. Exactly one sound is appended, and earlier handles keep their sounds. The new sound is not playing, not paused and not looped. `playing` and the stream are untouched. |
| AudioEngine.PlaySound | Src/Portaudio/AudioEngine.cpp:108-112 | The sound is rewound to 0 and added to `playing`. It then plays and is not paused. The loop flag, the samples and every other sound are kept. |
| AudioEngine.PlayOneShot | Src/Portaudio/AudioEngine.cpp:114-119 | Like `PlaySound`, and the sound is no longer looped. |
| AudioEngine.StopSound | Src/Portaudio/AudioEngine.cpp:121-125 | The sound is parked and removed from `playing`. It is neither playing nor paused, and nothing else changes. |
| AudioEngine.StopEach | Src/Portaudio/AudioEngine.cpp:129-132 | Every sound's cursor is `END_OF_DATA`. Samples and loop flags are kept. |
| AudioEngine.StopAll | Src/Portaudio/AudioEngine.cpp:127-134 | No sound plays or is paused, and `playing` is empty. Samples and flags are kept. |
| AudioEngine.PauseSound | Src/Portaudio/AudioEngine.cpp:136-139 | The handle leaves `playing` and no cursor moves. A registered sound is then paused exactly when it was playing. |
| AudioEngine.UnpauseSound | Src/Portaudio/AudioEngine.cpp:141-144 | The handle joins `playing`, even for a stopped sound, and no cursor moves. The sound is then not paused. |
| AudioEngine.SetSoundLooping | Src/Portaudio/AudioEngine.cpp:146-149 | Only the loop flag of that sound changes. |
| AudioEngine.PauseUnpauseRoundTrip | Src/Portaudio/AudioEngine.cpp:136-144 | Pause then unpause of a serviced sound gives back the same engine. So does unpause then pause of one that is not serviced. |
| AudioEngine.StopProperties | Src/Portaudio/AudioEngine.cpp:108-160 | Stop is idempotent, and stop after play is stop. A stopped sound that is unpaused is serviced although it neither plays nor is paused. |
| Tick.MixFrom | Src/Portaudio/AudioEngine.cpp:249-254 | The loop advances each handle in `playing` exactly once by `framesPerBuffer`. Sounds outside `playing` are left alone. |
| Tick.Publish | Src/Portaudio/AudioEngine.cpp:235-290 | A mixing pass advances exactly the sounds in `playing`. It keeps `playing` and the configuration, and clears the dirty flag. |
| Tick.Update | Src/Portaudio/AudioEngine.cpp:230-291 | With the flag clear, `Update` changes nothing. With it set, each sound in `playing` advances once by one buffer and the others are untouched. `playing` keeps finished sounds, and the flag is cleared. |
| Tick.UpdateCorrected | Src/Portaudio/AudioEngine.cpp:230-291 | The same handoff, using the corrected advance and skipping `END_OF_DATA` sounds. |
| Tick.Callback | Src/Portaudio/AudioEngine.cpp:293-314 | The callback hands out the first `frameCount × channels` samples of the shared block and sets the flag. Nothing else changes. |
| Tick.StaleBlockRepeats | Src/Portaudio/AudioEngine.cpp:293-314 | Two callbacks without an `Update` between them deliver the same block. |
| Tick.UpdateIdempotent | Src/Portaudio/AudioEngine.cpp:230-291 | A second `Update` before the next callback changes nothing. |
| Tick.CallbackThenUpdate | Src/Portaudio/AudioEngine.cpp:230-314 | After a callback, `Update` mixes again, and the next callback delivers exactly what it published. |
| Tick.MixFromIsWindowMix | Src/Portaudio/AudioEngine.cpp:244-254 | The loop, with its working block carried from sound to sound, sums exactly the reference windows of the sounds as they were before the tick. |
| Tick.SteadyIsReady | Src/Portaudio/Sound.cpp:46-68 | When every serviced sound has a cursor within its data and holds at least one block, every `Service` of the tick is defined. |
| Tick.UpdatePublishesMix | Src/Portaudio/AudioEngine.cpp:230-291 | The published block is the reference mix of the playing sounds' cyclic windows, starting from silence. For dual mono it is duplicated and interleaved. |
| Protocol.Step | Include/Scout/Portaudio/AudioEngine.h:35-62 | One API call, with the corrected tick in place of the source's `Update`. No call removes a sound or changes a registered sound's samples. Only `MakeSound` grows the registry, and only the handoff steps touch the shared block and the flag. |
| Protocol.HandlesAreFresh | Src/Portaudio/AudioEngine.cpp:83-106 | A new handle names the new sound, is not serviced, and differs from every earlier handle, which keep their sounds. |
| Protocol.CorrectedAdvanceFits | Src/Portaudio/Sound.cpp:10-39 | The corrected advance keeps a cursor an index of the data. |
| Protocol.InitHealthy | Src/Portaudio/AudioEngine.cpp:23-70 | A new engine satisfies the invariant. |
| Protocol.HealthyIsReady | Src/Portaudio/AudioEngine.cpp:249-254 | In an engine satisfying the invariant, the corrected tick is defined and publishes the reference mix. |
| Protocol.HealthyPreserved | Include/Scout/Portaudio/AudioEngine.h:35-62 | With the corrected tick, every defined API call preserves the invariant, provided each sound registered keeps at least one block of samples and one more block fits in 32 bits. |
| Protocol.AsWrittenTickBreaksHealthy | Src/Portaudio/Sound.cpp:30 | The source's own `Update` does not preserve the invariant. From a healthy engine playing a two-sample one-shot with two-frame buffers, it leaves the cursor on the data length. |
| Protocol.OneShotFirstTick | Src/Portaudio/Sound.cpp:30-32 | The first tick of a two-sample one-shot sound with two-frame buffers delivers `[1, 2]`. It leaves the cursor on the data length, 2, rather than at `END_OF_DATA`. |
| Protocol.OneShotSecondTick | Src/Portaudio/Sound.cpp:46-68 | From a cursor on the data length, the next tick wraps to `[1, 2]`. It leaves the sound at `END_OF_DATA` but still in `playing`. |
| Protocol.OneShotPlaysTwice | Src/Portaudio/Sound.cpp:30 | As written, a two-sample one-shot sound with two-frame buffers delivers `[1, 2]` twice. It then sits at `END_OF_DATA` in `playing`, where the next tick is undefined. |
| Protocol.OneShotPlaysOnce | Src/Portaudio/AudioEngine.cpp:249-254 | With the corrections, the same sound delivers `[1, 2]` and then silence, and the invariant still holds. |
| Protocol.LoopingFirstBlock | Src/Portaudio/AudioEngine.cpp:240-258 | A looping `[1, 2, 3, 4]` with three-frame buffers first delivers `[1, 2, 3]`, leaving the cursor at 3. |
| Protocol.LoopingSecondBlock | Src/Portaudio/AudioEngine.cpp:240-258 | Its second block wraps to `[4, 1, 2]`, leaving the cursor at 2. |

## Left out

- The PortAudio stream lifecycle is not modelled: `Pa_Initialize`, device selection, opening, starting, stopping and closing the stream, and the destructor. These are foreign calls.
- `framesPerBuffer` is an input rather than computed from sample rate and latency. Its computation uses floating point and `NearestUpperPowOfTwo`, whose source is not part of this model. The input is assumed to be at least 1, with `framesPerBuffer × channels` below 2^32.
- `GetBufferLatency` is not modelled: it queries the stream through a foreign call.
- `GetBitdepth` and `GetSamplerate` are not modelled: they translate enums through `ToAbstractEnum_Portaudio`, whose source is not part of this model.
- `SetSoundLooped` has the same body as `SetSoundLooping` (AudioEngine.cpp:316-319) and is modelled by it.
- `MixSignalsInPlace`, `InterleaveSignal` and `UninterleaveSignal` are uninterpreted. Their source is not part of this model. Samples are abstract, so clamping, float arithmetic and the 0.0f constant become an abstract `combine` and `zero`.
- Concurrency is not modelled. The mutex, thread timing, the `memcpy` to the device and the function-local static buffers are replaced by atomic sequential steps.
- `END_OF_DATA` has no numeric value in the model, because its definition is not part of this model. `End` is kept distinct from every index, and servicing it counts as undefined.
- The `default:` branches that throw for an unknown speaker setup or bit depth cannot be reached: the enumerations are closed.
- The callback's `try`/`catch` rethrow is not modelled.
- The source accepts sounds shorter than one block, and their ticks are not modelled beyond `Service`. Such a sound always takes the single-copy branch. It delivers only `|out| - len(data)` samples from the cursor, and the rest of the block keeps the working buffer's previous samples. The copy reads past the data once `c + |out| > 2 len(data)` (`MonoSound.ShortSoundSingleCopy`). `Protocol.HealthyPreserved` therefore requires registered sounds to hold at least one block.
- Protocol.HealthyPreserved: proved for `Protocol.Step`, which uses the corrected tick. The source's `Update` does not keep the invariant, because a one-shot cursor can land on the data length (`Protocol.AsWrittenTickBreaksHealthy`).
- The corrected tick keeps the tail wrap of `Service`, which never reads the loop flag (Sound.cpp:51-66). When the block size does not divide a one-shot sound's length, its last block continues with the opening samples, as `MonoSound.OneShotTailReadsFromStart` states. The model records this behaviour and does not correct it, because the source gives no sign of what the last block should hold instead.
- MonoSound.Service: its own contract keeps only the block size. The block's contents are stated by `MonoSound.ServiceReadsWindow` for the inputs the engine uses.
- Tick.Update: its contract states how sounds and flags change. The block it publishes is stated by `Tick.UpdatePublishesMix` for ticks whose sounds are steady, not for every tick.

## Findings

| source | as written | input that shows it | evidently intended | confidence | as-written member | corrected member |
|---|---|---|---|---|---|---|
| Src/Portaudio/Sound.cpp:30 | A one-shot advance keeps the cursor while `nextBegin <= max`, so it can land exactly on the data length. `Service` then wraps and replays the opening frames before the sound stops after `floor(len/f) + 1` advances. | Data `[1, 2]`, mono, two-frame buffers, `PlayOneShot`, two ticks. Both deliver `[1, 2]`. | Strict `nextBegin < max`: the sound stops after `ceil(len/f)` advances, so no whole block is replayed. When `f` does not divide `len`, the last block still continues with `data[..ceil(len/f)·f − len]` (`MonoSound.OneShotTailReadsFromStart`). | high (not executed) | Protocol.OneShotPlaysTwice | MonoSound.AdvanceByCorrected |
| Src/Portaudio/AudioEngine.cpp:249-254 | A sound that reached `END_OF_DATA` stays in `playing_`; `UnpauseSound` also re-inserts a stopped sound. `Update` keeps servicing it with the sentinel as the cursor, so the copy leaves the sample vector. | The same run as above: after the second tick the sound is at `END_OF_DATA` and in `playing`, and the third tick's `Service` is undefined. | `Update` skips sounds at `END_OF_DATA` (they are "not playing"). | medium (not executed) | Protocol.OneShotPlaysTwice | Tick.UpdateCorrected |

For the first finding, `MonoSound.OneShotLifetime` states the as-written lifetime. `MonoSound.OneShotLifetimeCorrected` proves the intended one. For the second, `Protocol.HealthyPreserved` and `Protocol.HealthyIsReady` prove that the corrected tick is defined in every state `Protocol.Step` reaches, provided registered sounds hold at least one block. `Protocol.AsWrittenTickBreaksHealthy` shows that the tick as written leaves that invariant. `Protocol.OneShotPlaysOnce` shows both corrections on the same input.
