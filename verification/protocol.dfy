/**
 The engine's public API as one transition system: every call is an `Op`, and
 `Step` applies it with the corrected producer step. On top of it: the registry
 never shrinks and never changes the samples it holds, and the invariant
 `Healthy` (blocks of at least one frame, every sound at least one block long
 with one more block fitting in 32 bits, and every cursor `END_OF_DATA` or an
 index of its sound's data) is kept by every call, so the corrected tick never reads outside a sound. The tick
 as written does not keep it (`AsWrittenTickBreaksHealthy`).

 The module ends with small worked examples on integer samples that show the
 behaviour of the source as written next to the corrected one.
 */
module Protocol {
  import opened Uint32
  import MonoSound
  import Mixing
  import AudioEngine
  import Tick

  datatype Op<S> =
    | MakeSound(data: seq<S>, nrOfChannels: nat, interleaved: bool)
    | PlaySound(h: nat)
    | PlayOneShot(h: nat)
    | StopSound(h: nat)
    | StopAll
    | PauseSound(h: nat)
    | UnpauseSound(h: nat)
    | SetSoundLooping(h: nat, looping: bool)
    | Update
    | Callback(frameCount: nat)

  /** Whether the source gives `op` defined behaviour in state `e`: handles that are
      looked up name a sound, the callback reads inside the shared block, and the
      producer step services only serviceable sounds. */
  predicate Enabled<S>(e: AudioEngine.Engine<S>, op: Op<S>)
    requires AudioEngine.Wf(e)
  {
    match op
    case MakeSound(_, _, _) => true
    case PlaySound(h) => h < |e.sounds|
    case PlayOneShot(h) => h < |e.sounds|
    case StopSound(h) => h < |e.sounds|
    case StopAll => true
    case PauseSound(_) => true
    case UnpauseSound(h) => h < |e.sounds|
    case SetSoundLooping(h, _) => h < |e.sounds|
    case Update => e.update ==> Tick.Ready(e, true)
    case Callback(n) => n * AudioEngine.Channels(e.setup) <= |e.buffer|
  }

  /** One API call. The registry only grows, and no call changes the samples of a sound
      already registered; only the two handoff steps touch the shared block and the
      dirty flag. */
  function Step<S(!new)>(e: AudioEngine.Engine<S>, op: Op<S>, sig: Mixing.Signals<S>): (r: AudioEngine.Engine<S>)
    requires AudioEngine.Wf(e) && Enabled(e, op)
    ensures AudioEngine.Wf(r)
    ensures |r.sounds| == |e.sounds| + (if op.MakeSound? then 1 else 0)
    ensures forall h | 0 <= h < |e.sounds| :: r.sounds[h].data == e.sounds[h].data
    ensures !op.Update? && !op.Callback? ==> r.update == e.update && r.buffer == e.buffer
    ensures r.setup == e.setup && r.framesPerBuffer == e.framesPerBuffer
  {
    match op
    case MakeSound(data, ch, il) => AudioEngine.MakeSound(e, data, ch, sig.uninterleave, il).0
    case PlaySound(h) => AudioEngine.PlaySound(e, h)
    case PlayOneShot(h) => AudioEngine.PlayOneShot(e, h)
    case StopSound(h) => AudioEngine.StopSound(e, h)
    case StopAll => AudioEngine.StopAll(e)
    case PauseSound(h) => AudioEngine.PauseSound(e, h)
    case UnpauseSound(h) => AudioEngine.UnpauseSound(e, h)
    case SetSoundLooping(h, v) => AudioEngine.SetSoundLooping(e, h, v)
    case Update => Tick.UpdateCorrected(e, sig)
    case Callback(n) => Tick.Callback(e, n).1
  }

  /** The handle `MakeSound` hands out is fresh: it names the new sound and no sound
      registered before; handles handed out earlier stay valid. */
  lemma HandlesAreFresh<S(!new)>(e: AudioEngine.Engine<S>, data: seq<S>, nrOfChannels: nat,
                                 interleaved: bool, sig: Mixing.Signals<S>)
    requires AudioEngine.Wf(e)
    ensures var made := AudioEngine.MakeSound(e, data, nrOfChannels, sig.uninterleave, interleaved);
            && made.1 < |made.0.sounds|
            && made.1 !in e.playing
            && (forall h | 0 <= h < |e.sounds| :: h != made.1 && made.0.sounds[h] == e.sounds[h])
  {
  }

  // ---------------------------------------------------------------------------
  // The invariant the corrected engine keeps

  /** A sound a tick of `frames` can always service: at least one block long, one more
      block fits in 32 bits, and the cursor, if any, is an index of the data. */
  predicate Fits<S>(s: MonoSound.Sound<S>, frames: nat)
  {
    && frames <= |s.data|
    && |s.data| + frames < LIMIT
    && (s.cursor.At? ==> s.cursor.n < |s.data|)
  }

  predicate Healthy<S>(e: AudioEngine.Engine<S>)
  {
    && AudioEngine.Wf(e)
    && 1 <= e.framesPerBuffer
    && forall h | 0 <= h < |e.sounds| :: Fits(e.sounds[h], e.framesPerBuffer)
  }

  /** The corrected advance keeps the cursor an index of the data. */
  lemma CorrectedAdvanceFits<S>(s: MonoSound.Sound<S>, frames: U32)
    requires Fits(s, frames)
    ensures Fits(MonoSound.AdvanceByCorrected(s, frames), frames)
  {
  }

  /** A new engine is healthy. */
  lemma InitHealthy<S>(quant: AudioEngine.Bitdepth, setup: AudioEngine.SpeakerSetup, frames: U32, zero: S)
    requires 1 <= frames && frames * AudioEngine.Channels(setup) < LIMIT
    ensures Healthy(AudioEngine.Init(quant, setup, frames, zero))
  {
  }

  /** In a healthy engine the corrected producer step is always defined, and it publishes
      the reference mix of the playing sounds' cyclic windows. */
  lemma HealthyIsReady<S(!new)>(e: AudioEngine.Engine<S>, sig: Mixing.Signals<S>)
    requires Healthy(e)
    ensures Tick.Ready(e, true) && Enabled(e, Update)
    ensures e.update ==>
              var m := Tick.WindowMix(e.sounds, e.playing, 0, e.framesPerBuffer, sig.combine,
                                      Mixing.Silence(e.framesPerBuffer, sig.zero));
              Tick.UpdateCorrected(e, sig).buffer == Tick.OutputBlock(e.setup, m, sig)
  {
    assert Tick.AllSteady(e, true) by {
      forall h | h in e.playing
        ensures Tick.Steady(e.sounds[h], e.framesPerBuffer)
      {
        assert Fits(e.sounds[h], e.framesPerBuffer);
      }
    }
    Tick.SteadyIsReady(e, true);
    if e.update {
      Tick.UpdatePublishesMix(e, sig, true);
    }
  }

  /** Every enabled call keeps the engine healthy, provided a sound being registered is
      at least one block long (the source accepts shorter sounds, which `Service` cannot
      read as a cyclic window). */
  lemma HealthyPreserved<S(!new)>(e: AudioEngine.Engine<S>, op: Op<S>, sig: Mixing.Signals<S>)
    requires Healthy(e) && Enabled(e, op)
    requires op.MakeSound? ==>
               var n := |AudioEngine.StoredSamples(op.data, op.nrOfChannels, op.interleaved, sig.uninterleave)|;
               e.framesPerBuffer <= n && n + e.framesPerBuffer < LIMIT
    ensures Healthy(Step(e, op, sig))
  {
    var r := Step(e, op, sig);
    match op
    case MakeSound(data, ch, il) =>
      assert r.sounds[|e.sounds|].data == AudioEngine.StoredSamples(data, ch, il, sig.uninterleave);
      assert forall h | 0 <= h < |e.sounds| :: r.sounds[h] == e.sounds[h];
    case Update =>
      if e.update {
        forall h | 0 <= h < |r.sounds|
          ensures Fits(r.sounds[h], r.framesPerBuffer)
        {
          assert Fits(e.sounds[h], e.framesPerBuffer);
          if h in e.playing {
            CorrectedAdvanceFits(e.sounds[h], e.framesPerBuffer);
          }
        }
      }
    case _ =>
  }

  // ---------------------------------------------------------------------------
  // Worked examples on integer samples

  /** Channel routines that leave the signal as it is, enough for mono sounds. */
  function KeepAll(): Mixing.Reshape<int>
  {
    (x: seq<int>, k: nat) => x
  }

  /** Integer samples mixed by plain addition, silence being 0. */
  function Summing(): Mixing.Signals<int>
  {
    Mixing.Signals(0, (a: int, b: int) => a + b, KeepAll(), KeepAll())
  }

  /** A two-sample sound registered on a mono engine with two-frame buffers and played
      as a one-shot. */
  function OneShotStart(): (r: AudioEngine.Engine<int>)
    ensures Healthy(r) && r.update && r.playing == {0} && |r.sounds| == 1
    ensures r.sounds[0] == MonoSound.Sound([1, 2], MonoSound.At(0), false)
  {
    var e0 := AudioEngine.Init(AudioEngine.F32, AudioEngine.Mono, 2, 0);
    var e1 := AudioEngine.MakeSound(e0, [1, 2], 1, KeepAll()).0;
    AudioEngine.PlayOneShot(e1, 0)
  }

  /** The first tick delivers the whole sound and, as written, leaves the cursor on the
      data length rather than at `END_OF_DATA`. */
  lemma OneShotFirstTick()
    ensures Tick.Ready(OneShotStart(), false)
    ensures var b := Tick.Callback(Tick.Update(OneShotStart(), Summing()), 2);
            && b.0 == [1, 2] && AudioEngine.Wf(b.1) && b.1.update && b.1.playing == {0}
            && b.1.sounds == [MonoSound.Sound([1, 2], MonoSound.At(2), false)]
  {
    var e := OneShotStart();
    var sig := Summing();
    assert Tick.AllSteady(e, false);
    Tick.UpdatePublishesMix(e, sig, false);
    var u := Tick.Update(e, sig);
    assert u.buffer == [1, 2];
    assert u.sounds[0] == MonoSound.Sound([1, 2], MonoSound.At(2), false);
  }

  /** The second tick as written: from the cursor left on the data length the block
      wraps to the opening frames, and the sound ends up at `END_OF_DATA` but still in
      `playing`. */
  lemma OneShotSecondTick(e: AudioEngine.Engine<int>)
    requires AudioEngine.Wf(e) && e.update && e.setup == AudioEngine.Mono && e.framesPerBuffer == 2
    requires e.playing == {0} && e.sounds == [MonoSound.Sound([1, 2], MonoSound.At(2), false)]
    ensures Tick.Ready(e, false)
    ensures var b := Tick.Callback(Tick.Update(e, Summing()), 2);
            && b.0 == [1, 2] && b.1.update && b.1.playing == {0} && b.1.framesPerBuffer == 2
            && b.1.sounds[0] == MonoSound.Sound([1, 2], MonoSound.End, false)
  {
    var sig := Summing();
    assert Tick.AllSteady(e, false);
    Tick.UpdatePublishesMix(e, sig, false);
    var u := Tick.Update(e, sig);
    assert MonoSound.Window([1, 2], 2, 2) == [1, 2];
    assert u.buffer == [1, 2];
  }

  /** The invariant is a property of the corrected tick only: from a healthy engine, the
      source's own `Update` leaves the one-shot cursor on the data length. */
  lemma AsWrittenTickBreaksHealthy()
    ensures Healthy(OneShotStart()) && Tick.Ready(OneShotStart(), false)
    ensures !Healthy(Tick.Update(OneShotStart(), Summing()))
  {
    OneShotFirstTick();
    var u := Tick.Update(OneShotStart(), Summing());
    assert u.sounds[0].cursor == MonoSound.At(2);
    assert !Fits(u.sounds[0], u.framesPerBuffer);
  }

  /** As written, the one-shot is heard twice: the first advance leaves the cursor on
      the data length, so the second tick wraps and delivers the opening frames again.
      The sound then sits at `END_OF_DATA` while still in `playing`, so the source's
      third tick would service an `END_OF_DATA` cursor. */
  lemma OneShotPlaysTwice()
    ensures Tick.Ready(OneShotStart(), false)
    ensures var b1 := Tick.Callback(Tick.Update(OneShotStart(), Summing()), 2);
            Tick.Ready(b1.1, false) &&
            var b2 := Tick.Callback(Tick.Update(b1.1, Summing()), 2);
            && b1.0 == [1, 2] && b2.0 == [1, 2]
            && b2.1.update && 0 in b2.1.playing && b2.1.sounds[0].cursor == MonoSound.End
            && !Tick.Ready(b2.1, false)
  {
    OneShotFirstTick();
    var e := Tick.Callback(Tick.Update(OneShotStart(), Summing()), 2).1;
    OneShotSecondTick(e);
    var b := Tick.Callback(Tick.Update(e, Summing()), 2).1;
    MonoSound.PastEndUndefined(b.sounds[0], 2);
  }

  /** With the corrections, the same one-shot is heard once: the second tick is silent,
      and the engine stays healthy, so every later tick is defined. */
  lemma OneShotPlaysOnce()
    ensures var e := OneShotStart();
            var b1 := Tick.Callback(Step(e, Update, Summing()), 2);
            Healthy(b1.1) &&
            var b2 := Tick.Callback(Step(b1.1, Update, Summing()), 2);
            && b1.0 == [1, 2] && b2.0 == [0, 0]
            && b2.1.sounds[0].cursor == MonoSound.End && Healthy(b2.1)
  {
    var e := OneShotStart();
    var sig := Summing();
    HealthyIsReady(e, sig);
    HealthyPreserved(e, Update, sig);
    var u1 := Step(e, Update, sig);
    assert u1.buffer == [1, 2];
    var b1 := Tick.Callback(u1, 2);
    HealthyPreserved(u1, Callback(2), sig);
    assert b1.1.sounds[0].cursor == MonoSound.End;
    HealthyIsReady(b1.1, sig);
    HealthyPreserved(b1.1, Update, sig);
    var u2 := Step(b1.1, Update, sig);
    assert u2.buffer == [0, 0];
    HealthyPreserved(u2, Callback(2), sig);
  }

  /** A four-sample sound registered on a mono engine with three-frame buffers,
      set looping and played. */
  function LoopingStart(): (r: AudioEngine.Engine<int>)
    ensures Healthy(r) && r.update && r.playing == {0} && |r.sounds| == 1
    ensures r.sounds[0] == MonoSound.Sound([1, 2, 3, 4], MonoSound.At(0), true)
  {
    var e0 := AudioEngine.Init(AudioEngine.F32, AudioEngine.Mono, 3, 0);
    var e1 := AudioEngine.MakeSound(e0, [1, 2, 3, 4], 1, KeepAll()).0;
    AudioEngine.PlaySound(AudioEngine.SetSoundLooping(e1, 0, true), 0)
  }

  /** The first block of the looping sound is `[1, 2, 3]` and leaves its cursor at 3. */
  lemma LoopingFirstBlock()
    ensures var e := LoopingStart();
            Tick.Ready(e, false) &&
            var b := Tick.Callback(Tick.Update(e, Summing()), 3);
            && b.0 == [1, 2, 3]
            && b.1.sounds[0] == MonoSound.Sound([1, 2, 3, 4], MonoSound.At(3), true)
            && b.1.update && b.1.playing == {0}
  {
    var e := LoopingStart();
    var sig := Summing();
    assert Tick.AllSteady(e, false);
    Tick.UpdatePublishesMix(e, sig, false);
    var u := Tick.Update(e, sig);
    assert u.buffer == [1, 2, 3];
  }

  /** The second block wraps past the end of the data: `[4, 1, 2]`, leaving the cursor
      at 2. */
  lemma LoopingSecondBlock()
    ensures var e := Tick.Callback(Tick.Update(LoopingStart(), Summing()), 3).1;
            Tick.Ready(e, false) &&
            var b := Tick.Callback(Tick.Update(e, Summing()), 3);
            && b.0 == [4, 1, 2]
            && b.1.sounds[0] == MonoSound.Sound([1, 2, 3, 4], MonoSound.At(2), true)
  {
    LoopingFirstBlock();
    var e := Tick.Callback(Tick.Update(LoopingStart(), Summing()), 3).1;
    var sig := Summing();
    assert Tick.AllSteady(e, false);
    Tick.UpdatePublishesMix(e, sig, false);
    var u := Tick.Update(e, sig);
    assert MonoSound.Window([1, 2, 3, 4], 3, 3) == [4, 1, 2];
    assert u.buffer == [4, 1, 2];
  }
}
