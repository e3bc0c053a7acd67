/**
 The signal utilities the engine calls but that are not part of this model
 (sample-wise mixing, channel (de)interleaving), as uninterpreted collaborators
 over an abstract sample type `S`.
 */
module Mixing {

  /** An in-place rearrangement of a signal for a given channel count: it may move
      samples around but keeps the signal's length, as the source's routines that
      take the vector by reference and work inside it. */
  type Reshape<!S(!new)> = f: (seq<S>, nat) -> seq<S> | forall x, k :: |f(x, k)| == |x|
    witness (x: seq<S>, k: nat) => x

  /** The collaborators of one engine: the silent sample `zero` blocks are cleared to,
      the sample-wise `combine` of the mixing policy, and the channel routines. */
  datatype Signals<!S(!new)> = Signals(
    zero: S,
    combine: (S, S) -> S,
    interleave: Reshape<S>,
    uninterleave: Reshape<S>)

  /** A block of `n` silent samples. */
  function Silence<S>(n: nat, zero: S): (r: seq<S>)
    ensures |r| == n
  {
    seq(n, _ => zero)
  }

  /** Mixes `block` into the running `sum`, sample by sample. */
  function Mix<S>(sum: seq<S>, block: seq<S>, combine: (S, S) -> S): (r: seq<S>)
    requires |block| == |sum|
    ensures |r| == |sum|
  {
    seq(|sum|, i requires 0 <= i < |sum| => combine(sum[i], block[i]))
  }
}
