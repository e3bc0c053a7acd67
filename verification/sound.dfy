/**
 The per-sound cursor model of `MonoSound_Portaudio`: a mono sample vector, a
 playback cursor and a loop flag, with the operations that move the cursor
 (`AdvanceBy`, `GoToFrame`, `Play`, `Stop`) and the one that reads a block of
 samples at the cursor without moving it (`Service`).

 The sample type `S` is abstract: nothing here looks at sample values.
 */
module MonoSound {
  import opened Uint32
  import opened Arith

  /** The playback cursor. `End` is the `END_OF_DATA` sentinel ("not advancing");
      `At(n)` holds the index of the first frame of the next block. */
  datatype Cursor = End | At(n: U32)

  datatype Sound<S> = Sound(data: seq<S>, cursor: Cursor, loop: bool)

  datatype Error = OutOfRange

  datatype Result<T> = Ok(value: T) | Err(error: Error)

  /** A freshly constructed sound: the samples verbatim, not looping, and parked at
      `END_OF_DATA`, so no block can be serviced from it until it is played. */
  function New<S>(data: seq<S>): (r: Sound<S>)
    ensures r.data == data && !r.loop && r.cursor.End?
    ensures forall size: nat :: !ServiceDefined(r, size)
  {
    Sound(data, End, false)
  }

  /** Moves the cursor on by `frames`, as the source does after each serviced block.
      A looping sound wraps (once) past the end of its data; a one-shot sound keeps
      its cursor while `cursor + frames <= len(data)` and otherwise stops. */
  function AdvanceBy<S>(s: Sound<S>, frames: U32): (r: Sound<S>)
    ensures r.data == s.data && r.loop == s.loop
    ensures s.cursor.End? ==> r == s
  {
    match s.cursor
    case End => s
    case At(c) =>
      var max := Wrap(|s.data|);
      var next := Wrap(c + frames);
      if s.loop then
        if next < max then s.(cursor := At(next)) else s.(cursor := At(next - max))
      else
        if next <= max then s.(cursor := At(next)) else s.(cursor := End)
  }

  /** `AdvanceBy` with the one-shot comparison made strict, so that a one-shot sound
      stops as soon as its last frame has been served (see the findings in README). */
  function AdvanceByCorrected<S>(s: Sound<S>, frames: U32): (r: Sound<S>)
    ensures r.data == s.data && r.loop == s.loop
    ensures s.cursor.End? ==> r == s
    ensures s.loop ==> r == AdvanceBy(s, frames)
    ensures !s.loop && s.cursor.At? && s.cursor.n + frames < LIMIT && |s.data| < LIMIT ==>
              (r != AdvanceBy(s, frames) <==> s.cursor.n + frames == |s.data|)
  {
    match s.cursor
    case End => s
    case At(c) =>
      var max := Wrap(|s.data|);
      var next := Wrap(c + frames);
      if s.loop then
        if next < max then s.(cursor := At(next)) else s.(cursor := At(next - max))
      else
        if next < max then s.(cursor := At(next)) else s.(cursor := End)
  }

  /** Seeks to `frame`; a frame beyond the data is an error (the source throws). */
  function GoToFrame<S>(s: Sound<S>, frame: U32): (r: Result<Sound<S>>)
    ensures r.Err? <==> frame >= |s.data|
    ensures r.Ok? ==> r.value.cursor == At(frame) && r.value.cursor.n < |s.data|
    ensures r.Ok? ==> r.value.data == s.data && r.value.loop == s.loop
  {
    if frame >= |s.data| then Err(OutOfRange) else Ok(s.(cursor := At(frame)))
  }

  /** Rewinds to the first frame: for a non-empty sound, the same as seeking to frame 0. */
  function Play<S>(s: Sound<S>): (r: Sound<S>)
    ensures r.cursor == At(0) && r.data == s.data && r.loop == s.loop
    ensures |s.data| > 0 ==> GoToFrame(s, 0) == Ok(r)
  {
    s.(cursor := At(0))
  }

  /** Parks the cursor at `END_OF_DATA`: the sound no longer advances and no block can
      be serviced from it. */
  function Stop<S>(s: Sound<S>): (r: Sound<S>)
    ensures r.cursor == End && r.data == s.data && r.loop == s.loop
    ensures forall frames: U32 :: AdvanceBy(r, frames) == r
    ensures forall size: nat :: !ServiceDefined(r, size)
  {
    s.(cursor := End)
  }

  /** Where the block being serviced ends in `data`, computed as the source does:
      `begin + size` in 32-bit arithmetic, minus `max` once if it reaches `max`. */
  function WindowEnd(max: U32, begin: U32, size: U32): U32
  {
    var e := Wrap(begin + size);
    if e >= max then e - max else e
  }

  /** True when every iterator range `Service` forms lies inside `data` and inside a
      block of `size` samples, i.e. when the source's copies are defined behaviour.
      A cursor at `End` is never serviceable: the sentinel is not an index of `data`. */
  predicate ServiceDefined<S>(s: Sound<S>, size: nat)
    ensures ServiceDefined(s, size) ==> s.cursor.At? && s.cursor.n <= |s.data|
  {
    match s.cursor
    case End => false
    case At(c) =>
      var max := Wrap(|s.data|);
      var e := WindowEnd(max, c, Wrap(size));
      if e > c then
        e <= |s.data| && e - c <= size
      else
        && c <= |s.data|
        && |s.data| - c <= size
        && e <= |s.data|
        && Wrap(max - c) + e <= size
  }

  /** Copies the samples at the cursor into the caller's block `out`, without moving
      the cursor: one copy when the window does not wrap, two when it does. Positions
      of `out` that no copy reaches keep their previous contents. `loop` is never
      consulted. */
  function Service<S>(s: Sound<S>, out: seq<S>): (r: seq<S>)
    requires ServiceDefined(s, |out|)
    ensures |r| == |out|
  {
    var c := s.cursor.n;
    var max := Wrap(|s.data|);
    var e := WindowEnd(max, c, Wrap(|out|));
    if e > c then
      s.data[c..e] + out[e - c..]
    else
      var first := s.data[c..] + out[|s.data| - c..];
      var split := Wrap(max - c);
      first[..split] + s.data[..e] + first[split + e..]
  }

  /** The `size` samples of `data` starting at `begin`, read cyclically. */
  function Window<S>(data: seq<S>, begin: nat, size: nat): (r: seq<S>)
    requires |data| > 0
    ensures |r| == size
  {
    seq(size, i => data[(begin + i) % |data|])
  }

  /** `frames`-sized advances applied `k` times in a row. */
  function AdvanceTimes<S>(s: Sound<S>, frames: U32, k: nat): Sound<S>
  {
    if k == 0 then s else AdvanceBy(AdvanceTimes(s, frames, k - 1), frames)
  }

  function AdvanceTimesCorrected<S>(s: Sound<S>, frames: U32, k: nat): Sound<S>
  {
    if k == 0 then s else AdvanceByCorrected(AdvanceTimesCorrected(s, frames, k - 1), frames)
  }

  // ---------------------------------------------------------------------------
  // Cursor properties

  /** A looping sound's cursor below `len(data)` advances to `(c + f) mod len(data)`:
      it stays an index of the data and never becomes `End`. */
  lemma AdvanceLooping<S>(s: Sound<S>, frames: U32)
    requires s.loop && s.cursor.At? && s.cursor.n < |s.data|
    requires frames <= |s.data| < LIMIT && s.cursor.n + frames < LIMIT
    ensures AdvanceBy(s, frames).cursor.At?
    ensures AdvanceBy(s, frames).cursor.n == (s.cursor.n + frames) % |s.data|
    ensures AdvanceBy(s, frames).cursor.n < |s.data|
  {
    var c := s.cursor.n;
    if c + frames >= |s.data| {
      ModOfShift(c + frames, |s.data|);
    } else {
      ModBelow(c + frames, |s.data|);
    }
  }

  /** A one-shot sound moves to `c + f` while that is at most `len(data)` (so the cursor
      can land exactly on `len(data)`, which is neither an index nor `End`), and to `End`
      past that. */
  lemma AdvanceOneShot<S>(s: Sound<S>, frames: U32)
    requires !s.loop && s.cursor.At?
    requires |s.data| < LIMIT && s.cursor.n + frames < LIMIT
    ensures s.cursor.n + frames <= |s.data| ==> AdvanceBy(s, frames).cursor == At(s.cursor.n + frames)
    ensures s.cursor.n + frames > |s.data| ==> AdvanceBy(s, frames).cursor == End
  {
  }

  /** The cursor is 32 bits wide: once `c + f` passes 2^32 - 1 it wraps around, and a
      one-shot sound jumps back towards its beginning instead of stopping. */
  lemma AdvanceOverflowRewinds<S>(s: Sound<S>, frames: U32)
    requires !s.loop && s.cursor.At? && |s.data| < LIMIT
    requires s.cursor.n + frames >= LIMIT && s.cursor.n + frames - LIMIT <= |s.data|
    ensures AdvanceBy(s, frames).cursor.At?
    ensures AdvanceBy(s, frames).cursor.n == s.cursor.n + frames - LIMIT
    ensures AdvanceBy(s, frames).cursor.n < s.cursor.n
  {
  }

  /** One looping advance from a cursor at `a mod len(data)` lands on
      `(a + f) mod len(data)`. */
  lemma LoopingStep<S>(s: Sound<S>, frames: U32, a: nat)
    requires s.loop && s.cursor.At? && |s.data| > 0 && s.cursor.n == a % |s.data|
    requires frames <= |s.data| && |s.data| + frames < LIMIT
    ensures AdvanceBy(s, frames).cursor == At((a + frames) % |s.data|)
  {
    AdvanceLooping(s, frames);
    ModAddMod(a, frames, |s.data|);
  }

  lemma {:induction false} LoopingCycleTimes<S>(s: Sound<S>, frames: U32, k: nat)
    requires s.loop && s.cursor.At? && s.cursor.n < |s.data|
    requires frames <= |s.data| && |s.data| + frames < LIMIT
    ensures AdvanceTimes(s, frames, k).cursor.At?
    ensures AdvanceTimes(s, frames, k).cursor.n == (s.cursor.n + Times(k, frames)) % |s.data|
    ensures AdvanceTimes(s, frames, k).data == s.data && AdvanceTimes(s, frames, k).loop
  {
    if k > 0 {
      LoopingCycleTimes(s, frames, k - 1);
      LoopingStep(AdvanceTimes(s, frames, k - 1), frames, s.cursor.n + Times(k - 1, frames));
    } else {
      ModBelow(s.cursor.n, |s.data|);
    }
  }

  /** Repeated looping advances visit `c, c + f, c + 2f, ...` modulo `len(data)` forever. */
  lemma LoopingCycle<S>(s: Sound<S>, frames: U32, k: nat)
    requires s.loop && s.cursor.At? && s.cursor.n < |s.data|
    requires frames <= |s.data| && |s.data| + frames < LIMIT
    ensures AdvanceTimes(s, frames, k).cursor.At?
    ensures AdvanceTimes(s, frames, k).cursor.n == (s.cursor.n + k * frames) % |s.data|
    ensures AdvanceTimes(s, frames, k).data == s.data && AdvanceTimes(s, frames, k).loop
  {
    LoopingCycleTimes(s, frames, k);
    TimesIsMul(k, frames);
  }

  /** Counted by blocks: a one-shot sound played from frame 0 is at frame `k * f` after
      `k` advances while `k * f <= len(data)`, and at `End` once `k * f` exceeds it. */
  lemma {:induction false} OneShotBlocks<S>(s: Sound<S>, frames: U32, k: nat)
    requires !s.loop && s.cursor == At(0)
    requires 1 <= frames && |s.data| + frames < LIMIT
    ensures k * frames <= |s.data| ==>
              AdvanceTimes(s, frames, k).cursor.At? && AdvanceTimes(s, frames, k).cursor.n == k * frames
    ensures k * frames > |s.data| ==> AdvanceTimes(s, frames, k).cursor == End
  {
    if k > 0 {
      OneShotBlocks(s, frames, k - 1);
      AdvanceTimesFrame(s, frames, k - 1);
      var prev := AdvanceTimes(s, frames, k - 1);
      var a := (k - 1) * frames;
      assert a + frames == k * frames;
      if a <= |s.data| {
        AdvanceOneShot(prev, frames);
      } else {
        assert prev.cursor == End;
      }
    }
  }

  /** A one-shot sound played from frame 0 is still at an index (`k * f`) after each
      of its first `len(data) / f` advances and reaches `End` on advance number
      `len(data) / f + 1`, never earlier. */
  lemma OneShotLifetime<S>(s: Sound<S>, frames: U32, k: nat)
    requires !s.loop && s.cursor == At(0)
    requires 1 <= frames && |s.data| + frames < LIMIT
    ensures k <= |s.data| / frames ==>
              AdvanceTimes(s, frames, k).cursor.At? && AdvanceTimes(s, frames, k).cursor.n == k * frames
    ensures k > |s.data| / frames ==> AdvanceTimes(s, frames, k).cursor == End
  {
    OneShotBlocks(s, frames, k);
    DivBound(k, |s.data|, frames);
  }

  /** The corrected advance, counted by blocks: frame `k * f` while that is an index of
      the data, `End` from the first `k` with `k * f >= len(data)` on. */
  lemma {:induction false} OneShotBlocksCorrected<S>(s: Sound<S>, frames: U32, k: nat)
    requires !s.loop && s.cursor == At(0)
    requires 1 <= frames && |s.data| + frames < LIMIT
    ensures k == 0 || k * frames < |s.data| ==>
              AdvanceTimesCorrected(s, frames, k).cursor.At?
              && AdvanceTimesCorrected(s, frames, k).cursor.n == k * frames
    ensures k > 0 && k * frames >= |s.data| ==> AdvanceTimesCorrected(s, frames, k).cursor == End
  {
    if k > 0 {
      OneShotBlocksCorrected(s, frames, k - 1);
      AdvanceTimesCorrectedFrame(s, frames, k - 1);
      var prev := AdvanceTimesCorrected(s, frames, k - 1);
      var a := (k - 1) * frames;
      assert a + frames == k * frames;
      if k - 1 == 0 || a < |s.data| {
        assert prev.cursor.At? && prev.cursor.n == a;
      } else {
        assert prev.cursor == End;
      }
    }
  }

  /** The corrected advance ends a one-shot sound after exactly `ceil(len(data) / f)`
      advances (at least one), and until then its cursor is an index of the data. */
  lemma OneShotLifetimeCorrected<S>(s: Sound<S>, frames: U32, k: nat)
    requires !s.loop && s.cursor == At(0)
    requires 1 <= frames && |s.data| + frames < LIMIT
    ensures k < (|s.data| + frames - 1) / frames ==>
              && AdvanceTimesCorrected(s, frames, k).cursor.At?
              && AdvanceTimesCorrected(s, frames, k).cursor.n == k * frames
              && AdvanceTimesCorrected(s, frames, k).cursor.n < |s.data|
    ensures k >= (|s.data| + frames - 1) / frames && k >= 1 ==>
              AdvanceTimesCorrected(s, frames, k).cursor == End
  {
    OneShotBlocksCorrected(s, frames, k);
    DivBound(k + 1, |s.data| + frames - 1, frames);
    assert (k + 1) * frames == k * frames + frames;
  }

  lemma {:induction false} AdvanceTimesFrame<S>(s: Sound<S>, frames: U32, k: nat)
    ensures AdvanceTimes(s, frames, k).data == s.data && AdvanceTimes(s, frames, k).loop == s.loop
  {
    if k > 0 {
      AdvanceTimesFrame(s, frames, k - 1);
    }
  }

  lemma {:induction false} AdvanceTimesCorrectedFrame<S>(s: Sound<S>, frames: U32, k: nat)
    ensures AdvanceTimesCorrected(s, frames, k).data == s.data
    ensures AdvanceTimesCorrected(s, frames, k).loop == s.loop
  {
    if k > 0 {
      AdvanceTimesCorrectedFrame(s, frames, k - 1);
    }
  }

  /** Play rewinds to frame 0 and Stop parks the cursor at `End`; neither touches the
      samples or the loop flag, Stop is idempotent, and each undoes the other's cursor. */
  lemma PlayStop<S>(s: Sound<S>)
    ensures Play(s).cursor == At(0) && Stop(s).cursor == End
    ensures Play(s).data == s.data && Play(s).loop == s.loop
    ensures Stop(s).data == s.data && Stop(s).loop == s.loop
    ensures Stop(Stop(s)) == Stop(s)
    ensures Stop(Play(s)) == Stop(s) && Play(Stop(s)) == Play(s)
  {
  }

  /** For a block of `1 <= size <= len(data)` samples and a cursor at most `len(data)`,
      Service is defined and fills the block with the cyclic window
      `data[(c + i) mod len(data)]`, whatever the loop flag and the block's previous
      contents. */
  lemma ServiceReadsWindow<S>(s: Sound<S>, out: seq<S>)
    requires s.cursor.At? && s.cursor.n <= |s.data|
    requires 1 <= |out| <= |s.data| && |s.data| + |out| < LIMIT
    ensures ServiceDefined(s, |out|)
    ensures Service(s, out) == Window(s.data, s.cursor.n, |out|)
  {
    var c, n, b := s.cursor.n, |s.data|, |out|;
    var r := Service(s, out);
    var w := Window(s.data, c, b);
    if c + b < n {
      forall i | 0 <= i < b
        ensures r[i] == w[i]
      {
        ModBelow(c + i, n);
      }
    } else {
      assert WindowEnd(n, c, b) == c + b - n;
      forall i | 0 <= i < b
        ensures r[i] == w[i]
      {
        if c + i < n {
          ModBelow(c + i, n);
        } else {
          ModOfShift(c + i, n);
        }
      }
    }
    assert r == w;
  }

  /** Service ignores the loop flag: near the end of a one-shot sound the block wraps
      and its sample after the last frame is `data[0]`. */
  lemma OneShotTailReadsFromStart<S>(s: Sound<S>, out: seq<S>)
    requires !s.loop && s.cursor.At? && s.cursor.n < |s.data|
    requires |out| <= |s.data| && |s.data| + |out| < LIMIT
    requires s.cursor.n + |out| > |s.data|
    ensures ServiceDefined(s, |out|)
    ensures Service(s, out)[|s.data| - s.cursor.n] == s.data[0]
  {
    ServiceReadsWindow(s, out);
    assert (s.cursor.n + (|s.data| - s.cursor.n)) % |s.data| == 0;
  }

  /** An empty block with the cursor inside the data is not serviceable: the second
      branch copies `len(data) - c` samples into it. */
  lemma EmptyBlockUndefined<S>(s: Sound<S>)
    requires s.cursor.At? && s.cursor.n < |s.data| < LIMIT
    ensures !ServiceDefined(s, 0)
  {
  }

  /** A cursor past the end of the data (in particular an `END_OF_DATA` sentinel read
      as a number larger than the data) is never serviceable. */
  lemma PastEndUndefined<S>(s: Sound<S>, size: nat)
    requires s.cursor.End? || s.cursor.n > |s.data|
    ensures !ServiceDefined(s, size)
  {
  }

  /** A sound shorter than the block (without 32-bit overflow) never takes the two-copy
      branch: the end of the window always lies after the cursor, so `Service` copies only
      `|out| - len(data)` samples from the cursor and leaves the rest of the block as it
      was. The copy stays inside the data only while `c + |out| <= 2 len(data)`. */
  lemma ShortSoundSingleCopy<S>(s: Sound<S>, out: seq<S>)
    requires s.cursor.At? && s.cursor.n <= |s.data| < |out| && s.cursor.n + |out| < LIMIT
    ensures ServiceDefined(s, |out|) <==> s.cursor.n + |out| <= 2 * |s.data|
    ensures ServiceDefined(s, |out|) ==>
              Service(s, out) == s.data[s.cursor.n..s.cursor.n + |out| - |s.data|] + out[|out| - |s.data|..]
  {
    assert WindowEnd(Wrap(|s.data|), s.cursor.n, Wrap(|out|)) == s.cursor.n + |out| - |s.data|;
  }

  /** A two-sample sound serviced into a three-sample block delivers only its first
      sample; the other two positions keep what the block held before. */
  lemma ShortSoundPlaysFirstSample()
    ensures ServiceDefined(Sound([1, 2], At(0), false), 3)
    ensures Service(Sound([1, 2], At(0), false), [7, 8, 9]) == [1, 8, 9]
  {
    ShortSoundSingleCopy(Sound([1, 2], At(0), false), [7, 8, 9]);
  }

  /** Servicing and then advancing a looping sound whose block wraps delivers the tail of
      the data followed by its head, and leaves the cursor just after that head. */
  lemma WrappingBlockThenAdvance<S>(s: Sound<S>, out: seq<S>)
    requires s.loop && s.cursor.At? && s.cursor.n < |s.data|
    requires |out| <= |s.data| && |s.data| + |out| < LIMIT
    requires s.cursor.n + |out| >= |s.data|
    ensures ServiceDefined(s, |out|)
    ensures Service(s, out) == s.data[s.cursor.n..] + s.data[..s.cursor.n + |out| - |s.data|]
    ensures AdvanceBy(s, |out|).cursor == At(s.cursor.n + |out| - |s.data|)
  {
    var c, n, b := s.cursor.n, |s.data|, |out|;
    ServiceReadsWindow(s, out);
    var w := Window(s.data, c, b);
    var v := s.data[c..] + s.data[..c + b - n];
    forall i | 0 <= i < b
      ensures w[i] == v[i]
    {
      if c + i < n {
        ModBelow(c + i, n);
      } else {
        ModOfShift(c + i, n);
      }
    }
    assert w == v;
  }
}
