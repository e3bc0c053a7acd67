/**
 The producer/consumer handoff of `AudioEngine_Portaudio`, as a sequential state
 machine over `Engine`: the producer step `Update` mixes one block when the
 dirty flag `update` is set and clears it; the consumer step `Callback` (the
 hardware callback) copies the shared block out and sets the flag again.

 The lock only serialises the two steps, so each step is one atomic transition.
 */
module Tick {
  import opened Uint32
  import opened MonoSound
  import opened Mixing
  import opened AudioEngine

  /** Whether a tick services a sound in `playing`. As written every handle in `playing`
      is serviced; the corrected tick skips a sound whose cursor is `END_OF_DATA`. */
  predicate Serviced<S>(s: Sound<S>, corrected: bool)
  {
    !(corrected && s.cursor == End)
  }

  /** The advance a tick applies after servicing. */
  function Advance<S>(s: Sound<S>, frames: U32, corrected: bool): Sound<S>
  {
    if corrected then AdvanceByCorrected(s, frames) else AdvanceBy(s, frames)
  }

  /** The mixing loop for handles `h, h + 1, ...` in ascending order (the order in which
      a `std::set` is iterated): each serviced handle in `playing` has its sound serviced
      into the working block `work`, advanced by `frames`, and that block mixed into
      `sum`. Returns the sounds, the working block and the sum after the loop. */
  function MixFrom<S>(sounds: seq<Sound<S>>, playing: set<nat>, h: nat, frames: U32, combine: (S, S) -> S,
                      corrected: bool, work: seq<S>, sum: seq<S>): (r: (seq<Sound<S>>, seq<S>, seq<S>))
    requires h <= |sounds| && |work| == |sum|
    requires forall k | h <= k < |sounds| && k in playing && Serviced(sounds[k], corrected) ::
               ServiceDefined(sounds[k], |work|)
    ensures |r.0| == |sounds| && |r.1| == |work| && |r.2| == |sum|
    ensures forall k | 0 <= k < h :: r.0[k] == sounds[k]
    ensures forall k | h <= k < |sounds| ::
              r.0[k] == if k in playing then Advance(sounds[k], frames, corrected) else sounds[k]
    decreases |sounds| - h
  {
    if h == |sounds| then
      (sounds, work, sum)
    else if h in playing && Serviced(sounds[h], corrected) then
      var block := Service(sounds[h], work);
      MixFrom(sounds[h := Advance(sounds[h], frames, corrected)], playing, h + 1, frames, combine,
              corrected, block, Mix(sum, block, combine))
    else
      MixFrom(sounds, playing, h + 1, frames, combine, corrected, work, sum)
  }

  /** Every sound the tick services has a defined `Service` for a block of
      `framesPerBuffer` samples. */
  predicate Ready<S>(e: Engine<S>, corrected: bool)
    requires Wf(e)
  {
    forall h | h in e.playing && Serviced(e.sounds[h], corrected) :: ServiceDefined(e.sounds[h], e.framesPerBuffer)
  }

  /** The block the producer publishes for a mono mix `sum`: `sum` itself for one
      speaker, `sum` duplicated and interleaved for dual mono. */
  function OutputBlock<S(!new)>(setup: SpeakerSetup, sum: seq<S>, sig: Signals<S>): (r: seq<S>)
    ensures |r| == |sum| * Channels(setup)
  {
    match setup
    case Mono => sum
    case DualMono => sig.interleave(sum + sum, 2)
  }

  /** One mixing pass: clear the scratch blocks, run the loop over `playing`, publish the
      result into the shared block and clear the dirty flag. */
  function Publish<S(!new)>(e: Engine<S>, sig: Signals<S>, corrected: bool): (r: Engine<S>)
    requires Wf(e) && Ready(e, corrected)
    ensures Wf(r) && !r.update
    ensures r.quant == e.quant && r.setup == e.setup && r.framesPerBuffer == e.framesPerBuffer
    ensures r.playing == e.playing && |r.sounds| == |e.sounds|
    ensures forall h | 0 <= h < |e.sounds| ::
              r.sounds[h] == if h in e.playing then Advance(e.sounds[h], e.framesPerBuffer, corrected) else e.sounds[h]
  {
    var silent := Silence(e.framesPerBuffer, sig.zero);
    var loop := MixFrom(e.sounds, e.playing, 0, e.framesPerBuffer, sig.combine, corrected, silent, silent);
    e.(sounds := loop.0, buffer := OutputBlock(e.setup, loop.2, sig), update := false)
  }

  /** The producer step as written. It does nothing unless the consumer has taken the
      previous block; otherwise every sound in `playing` is serviced and advanced by one
      buffer exactly once, the others are untouched, `playing` is kept as it is (a sound
      that ran out stays in it), and the flag is cleared. */
  function Update<S(!new)>(e: Engine<S>, sig: Signals<S>): (r: Engine<S>)
    requires Wf(e)
    requires e.update ==> Ready(e, false)
    ensures Wf(r) && !r.update
    ensures !e.update ==> r == e
    ensures r.quant == e.quant && r.setup == e.setup && r.framesPerBuffer == e.framesPerBuffer
    ensures r.playing == e.playing && |r.sounds| == |e.sounds|
    ensures e.update ==> forall h | 0 <= h < |e.sounds| ::
              r.sounds[h] == if h in e.playing then AdvanceBy(e.sounds[h], e.framesPerBuffer) else e.sounds[h]
  {
    if !e.update then e else Publish(e, sig, false)
  }

  /** The producer step with both findings corrected: a sound at `END_OF_DATA` is not
      serviced, and a one-shot sound stops once its last frame has been served. */
  function UpdateCorrected<S(!new)>(e: Engine<S>, sig: Signals<S>): (r: Engine<S>)
    requires Wf(e)
    requires e.update ==> Ready(e, true)
    ensures Wf(r) && !r.update
    ensures !e.update ==> r == e
    ensures r.quant == e.quant && r.setup == e.setup && r.framesPerBuffer == e.framesPerBuffer
    ensures r.playing == e.playing && |r.sounds| == |e.sounds|
    ensures e.update ==> forall h | 0 <= h < |e.sounds| ::
              r.sounds[h] == if h in e.playing then AdvanceByCorrected(e.sounds[h], e.framesPerBuffer) else e.sounds[h]
  {
    if !e.update then e else Publish(e, sig, true)
  }

  /** The consumer step: hands `frameCount` frames of the shared block to the hardware
      and sets the dirty flag; nothing else changes. */
  function Callback<S>(e: Engine<S>, frameCount: nat): (r: (seq<S>, Engine<S>))
    requires frameCount * Channels(e.setup) <= |e.buffer|
    ensures |r.0| == frameCount * Channels(e.setup)
    ensures forall i | 0 <= i < |r.0| :: r.0[i] == e.buffer[i]
    ensures r.1.update && r.1.buffer == e.buffer && r.1.sounds == e.sounds && r.1.playing == e.playing
    ensures r.1.quant == e.quant && r.1.setup == e.setup && r.1.framesPerBuffer == e.framesPerBuffer
  {
    (e.buffer[..frameCount * Channels(e.setup)], e.(update := true))
  }

  // ---------------------------------------------------------------------------
  // The handoff protocol

  /** Without an `Update` in between, two callbacks deliver the same block: a producer
      that falls behind repeats stale audio rather than failing. */
  lemma StaleBlockRepeats<S>(e: Engine<S>, frameCount: nat)
    requires frameCount * Channels(e.setup) <= |e.buffer|
    ensures Callback(Callback(e, frameCount).1, frameCount).0 == Callback(e, frameCount).0
    ensures Callback(Callback(e, frameCount).1, frameCount).1 == Callback(e, frameCount).1
  {
  }

  /** A second `Update` without a callback in between changes nothing: at most one
      block is mixed per block consumed. */
  lemma UpdateIdempotent<S(!new)>(e: Engine<S>, sig: Signals<S>)
    requires Wf(e) && (e.update ==> Ready(e, false))
    ensures Update(Update(e, sig), sig) == Update(e, sig)
  {
  }

  /** After a callback, `Update` mixes again (it advances the playing sounds), and the
      next callback delivers exactly the block it published. */
  lemma CallbackThenUpdate<S(!new)>(e: Engine<S>, sig: Signals<S>, frameCount: nat)
    requires Wf(e) && Ready(e, false) && frameCount * Channels(e.setup) <= |e.buffer|
    ensures var u := Update(Callback(e, frameCount).1, sig);
              && !u.update
              && (forall h | 0 <= h < |e.sounds| ::
                    u.sounds[h] == if h in e.playing then AdvanceBy(e.sounds[h], e.framesPerBuffer) else e.sounds[h])
              && Callback(u, frameCount).0 == u.buffer[..frameCount * Channels(e.setup)]
  {
  }

  // ---------------------------------------------------------------------------
  // What the published block contains

  /** A sound the tick can service with the cyclic-window reading of `Service`: when it
      has a cursor, that cursor is at most the data length, and the data holds at least
      one block of `frames` and one more block fits in 32 bits. */
  predicate Steady<S>(s: Sound<S>, frames: nat)
  {
    s.cursor.At? ==> s.cursor.n <= |s.data| && 1 <= frames <= |s.data| && |s.data| + frames < LIMIT
  }

  /** Reference definition of the mix: the cyclic windows of the playing sounds with
      handles `h, h + 1, ...`, folded into `sum` in ascending handle order; a sound at
      `END_OF_DATA` contributes nothing. */
  function WindowMix<S>(sounds: seq<Sound<S>>, playing: set<nat>, h: nat, frames: nat,
                        combine: (S, S) -> S, sum: seq<S>): (r: seq<S>)
    requires h <= |sounds| && |sum| == frames
    requires forall k | h <= k < |sounds| && k in playing :: Steady(sounds[k], frames)
    ensures |r| == frames
    decreases |sounds| - h
  {
    if h == |sounds| then
      sum
    else if h in playing && sounds[h].cursor.At? then
      assert Steady(sounds[h], frames);
      var w := Window(sounds[h].data, sounds[h].cursor.n, frames);
      WindowMix(sounds, playing, h + 1, frames, combine, Mix(sum, w, combine))
    else
      WindowMix(sounds, playing, h + 1, frames, combine, sum)
  }

  /** The mixing loop, whatever the working block holds on entry and however the loop
      rewrites the sounds it has already visited, sums exactly the reference windows of
      the sounds as they were before the tick. */
  lemma {:induction false} MixFromIsWindowMix<S>(sounds: seq<Sound<S>>, original: seq<Sound<S>>,
                                                 playing: set<nat>, h: nat, frames: U32,
                                                 combine: (S, S) -> S, corrected: bool, work: seq<S>, sum: seq<S>)
    requires h <= |sounds| == |original| && |work| == |sum| == frames
    requires forall k | h <= k < |sounds| :: sounds[k] == original[k]
    requires forall k | h <= k < |sounds| && k in playing :: Steady(original[k], frames)
    requires forall k | h <= k < |sounds| && k in playing && Serviced(sounds[k], corrected) ::
               ServiceDefined(sounds[k], |work|)
    requires forall k | h <= k < |sounds| && k in playing :: Serviced(sounds[k], corrected) == sounds[k].cursor.At?
    ensures MixFrom(sounds, playing, h, frames, combine, corrected, work, sum).2
            == WindowMix(original, playing, h, frames, combine, sum)
    decreases |sounds| - h
  {
    if h < |sounds| {
      if h in playing && Serviced(sounds[h], corrected) {
        var block := Service(sounds[h], work);
        ServiceReadsWindow(sounds[h], work);
        var next := sounds[h := Advance(sounds[h], frames, corrected)];
        MixFromIsWindowMix(next, original, playing, h + 1, frames, combine, corrected, block, Mix(sum, block, combine));
      } else {
        MixFromIsWindowMix(sounds, original, playing, h + 1, frames, combine, corrected, work, sum);
      }
    }
  }

  /** Every sound in `playing` that a tick services is steady and has a cursor. */
  predicate AllSteady<S>(e: Engine<S>, corrected: bool)
    requires Wf(e)
  {
    forall h | h in e.playing ::
      Steady(e.sounds[h], e.framesPerBuffer) && Serviced(e.sounds[h], corrected) == e.sounds[h].cursor.At?
  }

  lemma SteadyIsReady<S>(e: Engine<S>, corrected: bool)
    requires Wf(e) && AllSteady(e, corrected)
    ensures Ready(e, corrected)
  {
    forall h | h in e.playing && Serviced(e.sounds[h], corrected)
      ensures ServiceDefined(e.sounds[h], e.framesPerBuffer)
    {
      ServiceReadsWindow(e.sounds[h], Silence(e.framesPerBuffer, e.sounds[h].data[0]));
    }
  }

  /** When every serviced sound is steady, the block `Update` publishes is the reference
      mix of the playing sounds' cyclic windows, starting from silence, laid out for the
      speaker setup. The corrected tick publishes the same mix, where a sound at
      `END_OF_DATA` is silent. */
  lemma UpdatePublishesMix<S(!new)>(e: Engine<S>, sig: Signals<S>, corrected: bool)
    requires Wf(e) && e.update && AllSteady(e, corrected)
    ensures Ready(e, corrected)
    ensures var m := WindowMix(e.sounds, e.playing, 0, e.framesPerBuffer, sig.combine, Silence(e.framesPerBuffer, sig.zero));
            && (!corrected ==> Update(e, sig).buffer == OutputBlock(e.setup, m, sig))
            && (corrected ==> UpdateCorrected(e, sig).buffer == OutputBlock(e.setup, m, sig))
  {
    SteadyIsReady(e, corrected);
    var silent := Silence(e.framesPerBuffer, sig.zero);
    MixFromIsWindowMix(e.sounds, e.sounds, e.playing, 0, e.framesPerBuffer, sig.combine, corrected, silent, silent);
  }
}
