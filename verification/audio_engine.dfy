/**
 The sound registry of `AudioEngine_Portaudio`: an append-only vector of mono
 sounds addressed by handle (the handle is the index), the set `playing` of
 handles serviced on each tick, and the configuration and shared output block
 the producer/consumer handoff works on (see module `Tick`).

 Every API call is a pure state transition `Engine -> Engine`. The source never
 checks a handle: operations that index the vector require `h < |sounds|`.
 */
module AudioEngine {
  import opened Uint32
  import opened MonoSound
  import opened Mixing

  datatype SpeakerSetup = Mono | DualMono

  /** The only sample format the engine supports: 32-bit floating point. */
  datatype Bitdepth = F32

  datatype Engine<S> = Engine(
    quant: Bitdepth,
    setup: SpeakerSetup,
    framesPerBuffer: U32,
    buffer: seq<S>,
    update: bool,
    sounds: seq<Sound<S>>,
    playing: set<nat>)

  function Channels(setup: SpeakerSetup): nat
  {
    match setup
    case Mono => 1
    case DualMono => 2
  }

  /** The shape every reachable engine has: the shared block holds one buffer of
      frames for every channel, and every handle in `playing` names a sound. */
  predicate Wf<S>(e: Engine<S>)
  {
    && |e.buffer| == e.framesPerBuffer * Channels(e.setup)
    && forall h | h in e.playing :: h < |e.sounds|
  }

  /** Everything but the registry is as it was. */
  ghost predicate SameStream<S>(e: Engine<S>, r: Engine<S>)
  {
    && r.quant == e.quant && r.setup == e.setup && r.framesPerBuffer == e.framesPerBuffer
    && r.buffer == e.buffer && r.update == e.update
  }

  /** `r` has the same sounds as `e` except possibly the one at handle `h`. */
  ghost predicate OthersUnchanged<S>(e: Engine<S>, r: Engine<S>, h: nat)
  {
    && |r.sounds| == |e.sounds|
    && forall k | 0 <= k < |e.sounds| && k != h :: r.sounds[k] == e.sounds[k]
  }

  // ---------------------------------------------------------------------------
  // Queries

  /** A sound plays while its cursor is not the `END_OF_DATA` sentinel, i.e. while it
      has a frame to go on from; a sound that does not play never advances. */
  predicate IsSoundPlaying<S>(e: Engine<S>, h: nat)
    requires h < |e.sounds|
    ensures IsSoundPlaying(e, h) <==> e.sounds[h].cursor.At?
    ensures !IsSoundPlaying(e, h) ==> forall frames: U32 :: AdvanceBy(e.sounds[h], frames) == e.sounds[h]
  {
    e.sounds[h].cursor != End
  }

  /** A sound is paused when it has a cursor but is not serviced; a sound in `playing`
      is never paused, and neither is a stopped one. */
  predicate IsSoundPaused<S>(e: Engine<S>, h: nat)
    requires h < |e.sounds|
    ensures IsSoundPaused(e, h) <==> e.sounds[h].cursor.At? && h !in e.playing
    ensures h in e.playing || e.sounds[h].cursor.End? ==> !IsSoundPaused(e, h)
  {
    IsSoundPlaying(e, h) && h !in e.playing
  }

  /** The loop flag: a looped sound that plays wraps on every advance and never stops. */
  predicate IsSoundLooped<S>(e: Engine<S>, h: nat)
    requires h < |e.sounds|
    ensures IsSoundLooped(e, h) == e.sounds[h].loop
    ensures IsSoundLooped(e, h) && e.sounds[h].cursor.At? ==>
              forall frames: U32 :: AdvanceBy(e.sounds[h], frames).cursor.At?
  {
    e.sounds[h].loop
  }

  // ---------------------------------------------------------------------------
  // Construction and configuration

  /** A new engine: nothing registered or playing, a silent shared block of
      `framesPerBuffer` frames per channel, and the dirty flag set so that the first
      `Update` mixes. */
  function Init<S>(quant: Bitdepth, setup: SpeakerSetup, framesPerBuffer: U32, zero: S): (r: Engine<S>)
    requires 1 <= framesPerBuffer && framesPerBuffer * Channels(setup) < LIMIT
    ensures Wf(r) && r.update
    ensures r.sounds == [] && r.playing == {}
    ensures r.setup == setup && r.framesPerBuffer == framesPerBuffer
    ensures forall i | 0 <= i < |r.buffer| :: r.buffer[i] == zero
  {
    Engine(quant, setup, framesPerBuffer, Silence(framesPerBuffer * Channels(setup), zero), true, [], {})
  }

  /** One channel for mono, two for dual mono; in a well-formed engine the shared block
      holds this many samples per frame. */
  function GetNrOfChannels<S>(e: Engine<S>): (r: nat)
    ensures (r == 1 <==> e.setup == Mono) && (r == 2 <==> e.setup == DualMono)
    ensures Wf(e) ==> |e.buffer| == e.framesPerBuffer * r
  {
    Channels(e.setup)
  }

  /** The block length in frames, a 32-bit value; in a well-formed engine the shared
      block holds this many frames of every channel. */
  function GetFramesPerBuffer<S>(e: Engine<S>): (r: nat)
    ensures r < LIMIT
    ensures Wf(e) ==> |e.buffer| == r * Channels(e.setup)
  {
    e.framesPerBuffer
  }

  /** Bytes in one frame: four bytes per 32-bit float sample, one sample per channel. */
  function GetBytesPerFrame<S>(e: Engine<S>): (r: nat)
    ensures r == 4 * GetNrOfChannels(e) && (r == 4 || r == 8)
  {
    match e.quant
    case F32 => 4 * GetNrOfChannels(e)
  }

  /** The byte size of one output buffer: in a well-formed engine, exactly the bytes of
      the shared block the callback hands to the hardware. */
  function GetBufferSizeInBytes<S>(e: Engine<S>): (r: nat)
    ensures Wf(e) ==> r == 4 * |e.buffer|
    ensures r == GetFramesPerBuffer(e) * GetBytesPerFrame(e)
  {
    e.framesPerBuffer * GetBytesPerFrame(e)
  }

  // ---------------------------------------------------------------------------
  // Registration

  /** The samples `MakeSound` keeps: with more than one channel only the first channel
      (taken from the de-interleaved signal when `interleaved`), otherwise all of them. */
  function StoredSamples<S(!new)>(data: seq<S>, nrOfChannels: nat, interleaved: bool, uninterleave: Reshape<S>): (r: seq<S>)
    ensures nrOfChannels <= 1 ==> r == data
    ensures nrOfChannels > 1 ==> |r| == |data| / nrOfChannels
    ensures nrOfChannels > 1 && !interleaved ==> r == data[..|data| / nrOfChannels]
  {
    if nrOfChannels > 1 then
      var frames := |data| / nrOfChannels;
      if interleaved then uninterleave(data, nrOfChannels)[..frames] else data[..frames]
    else
      data
  }

  /** Registers a sound and returns its handle: the old number of sounds. Exactly one
      sound is appended, stopped and not looping, and every earlier handle keeps its
      sound. A channel count of 0 is not rejected (it keeps the whole signal). */
  function MakeSound<S(!new)>(e: Engine<S>, data: seq<S>, nrOfChannels: nat, uninterleave: Reshape<S>,
                             interleaved: bool := true): (r: (Engine<S>, nat))
    ensures Wf(e) ==> Wf(r.0)
    ensures SameStream(e, r.0) && r.0.playing == e.playing
    ensures r.1 == |e.sounds| && |r.0.sounds| == |e.sounds| + 1
    ensures r.0.sounds[..|e.sounds|] == e.sounds
    ensures r.0.sounds[r.1].data == StoredSamples(data, nrOfChannels, interleaved, uninterleave)
    ensures !IsSoundPlaying(r.0, r.1) && !IsSoundPaused(r.0, r.1) && !IsSoundLooped(r.0, r.1)
  {
    var stored := StoredSamples(data, nrOfChannels, interleaved, uninterleave);
    (e.(sounds := e.sounds + [New(stored)]), |e.sounds|)
  }

  // ---------------------------------------------------------------------------
  // Playback state transitions

  /** Rewinds the sound to frame 0 and makes it serviced; the loop flag is kept. */
  function PlaySound<S>(e: Engine<S>, h: nat): (r: Engine<S>)
    requires h < |e.sounds|
    ensures Wf(e) ==> Wf(r)
    ensures SameStream(e, r) && OthersUnchanged(e, r, h) && r.playing == e.playing + {h}
    ensures r.sounds[h].cursor == At(0) && r.sounds[h].data == e.sounds[h].data
    ensures IsSoundPlaying(r, h) && !IsSoundPaused(r, h) && IsSoundLooped(r, h) == IsSoundLooped(e, h)
  {
    e.(sounds := e.sounds[h := Play(e.sounds[h])], playing := e.playing + {h})
  }

  /** Like `PlaySound`, but the sound is made non-looping first. */
  function PlayOneShot<S>(e: Engine<S>, h: nat): (r: Engine<S>)
    requires h < |e.sounds|
    ensures Wf(e) ==> Wf(r)
    ensures SameStream(e, r) && OthersUnchanged(e, r, h) && r.playing == e.playing + {h}
    ensures r.sounds[h].cursor == At(0) && r.sounds[h].data == e.sounds[h].data
    ensures IsSoundPlaying(r, h) && !IsSoundPaused(r, h) && !IsSoundLooped(r, h)
  {
    var played := Play(e.sounds[h]);
    e.(sounds := e.sounds[h := played.(loop := false)], playing := e.playing + {h})
  }

  /** Parks the cursor at `END_OF_DATA` and stops servicing the sound. */
  function StopSound<S>(e: Engine<S>, h: nat): (r: Engine<S>)
    requires h < |e.sounds|
    ensures Wf(e) ==> Wf(r)
    ensures SameStream(e, r) && OthersUnchanged(e, r, h) && r.playing == e.playing - {h}
    ensures r.sounds[h].data == e.sounds[h].data
    ensures !IsSoundPlaying(r, h) && !IsSoundPaused(r, h) && IsSoundLooped(r, h) == IsSoundLooped(e, h)
  {
    e.(sounds := e.sounds[h := Stop(e.sounds[h])], playing := e.playing - {h})
  }

  /** Every sound stopped, in registry order. */
  function StopEach<S>(sounds: seq<Sound<S>>): (r: seq<Sound<S>>)
    ensures |r| == |sounds|
    ensures forall k | 0 <= k < |r| :: r[k].cursor == End
    ensures forall k | 0 <= k < |r| :: r[k].data == sounds[k].data && r[k].loop == sounds[k].loop
  {
    if sounds == [] then [] else StopEach(sounds[..|sounds| - 1]) + [Stop(sounds[|sounds| - 1])]
  }

  /** Stops every registered sound and empties `playing`. */
  function StopAll<S>(e: Engine<S>): (r: Engine<S>)
    ensures Wf(e) ==> Wf(r)
    ensures SameStream(e, r) && r.playing == {} && |r.sounds| == |e.sounds|
    ensures forall h | 0 <= h < |r.sounds| ::
              !IsSoundPlaying(r, h) && !IsSoundPaused(r, h) && IsSoundLooped(r, h) == IsSoundLooped(e, h)
    ensures forall h | 0 <= h < |r.sounds| :: r.sounds[h].data == e.sounds[h].data
  {
    e.(sounds := StopEach(e.sounds), playing := {})
  }

  /** Stops servicing the sound without touching its cursor. The handle is not looked
      up, so any handle is accepted. */
  function PauseSound<S>(e: Engine<S>, h: nat): (r: Engine<S>)
    ensures Wf(e) ==> Wf(r)
    ensures SameStream(e, r) && r.sounds == e.sounds && r.playing == e.playing - {h}
    ensures h < |e.sounds| ==> (IsSoundPaused(r, h) <==> IsSoundPlaying(e, h))
  {
    e.(playing := e.playing - {h})
  }

  /** Services the sound again from wherever its cursor is, also when it has been
      stopped. The handle is not looked up; a handle outside the registry breaks the
      engine's shape (the next tick would index past the vector). */
  function UnpauseSound<S>(e: Engine<S>, h: nat): (r: Engine<S>)
    ensures Wf(e) && h < |e.sounds| ==> Wf(r)
    ensures SameStream(e, r) && r.sounds == e.sounds && r.playing == e.playing + {h}
    ensures h < |e.sounds| ==> !IsSoundPaused(r, h) && IsSoundPlaying(r, h) == IsSoundPlaying(e, h)
  {
    e.(playing := e.playing + {h})
  }

  /** Sets the loop flag; it takes effect at the sound's next advance. */
  function SetSoundLooping<S>(e: Engine<S>, h: nat, newLooping: bool): (r: Engine<S>)
    requires h < |e.sounds|
    ensures Wf(e) ==> Wf(r)
    ensures SameStream(e, r) && OthersUnchanged(e, r, h) && r.playing == e.playing
    ensures IsSoundLooped(r, h) == newLooping
    ensures r.sounds[h].cursor == e.sounds[h].cursor && r.sounds[h].data == e.sounds[h].data
  {
    e.(sounds := e.sounds[h := e.sounds[h].(loop := newLooping)])
  }

  // ---------------------------------------------------------------------------
  // Properties relating several calls

  /** Pausing a serviced sound and unpausing it gives back the very same engine, and
      so does unpausing a sound that is not serviced and pausing it again. */
  lemma PauseUnpauseRoundTrip<S>(e: Engine<S>, h: nat)
    ensures h in e.playing ==> UnpauseSound(PauseSound(e, h), h) == e
    ensures h !in e.playing ==> PauseSound(UnpauseSound(e, h), h) == e
  {
    if h in e.playing {
      assert (e.playing - {h}) + {h} == e.playing;
    } else {
      assert (e.playing + {h}) - {h} == e.playing;
    }
  }

  /** Stopping twice is stopping once; stopping after playing is stopping; and a stopped
      sound that is unpaused is serviced again although it neither plays nor is paused. */
  lemma StopProperties<S>(e: Engine<S>, h: nat)
    requires h < |e.sounds|
    ensures StopSound(StopSound(e, h), h) == StopSound(e, h)
    ensures StopSound(PlaySound(e, h), h) == StopSound(e, h)
    ensures var u := UnpauseSound(StopSound(e, h), h);
              h in u.playing && !IsSoundPlaying(u, h) && !IsSoundPaused(u, h)
  {
    var s := StopSound(e, h);
    assert StopSound(s, h).sounds == s.sounds;
    var p := StopSound(PlaySound(e, h), h);
    assert p.sounds == s.sounds;
    assert p.playing == s.playing;
  }
}
