/** Packing of the preprocessed clip into the two inputs of the dual-pathway
    network: the fast pathway sees every frame, the slow pathway an evenly
    spaced quarter of them. Only the time axis is modelled; a frame is
    opaque. */
module Pathways {
  import opened Spacing

  /** The temporal stride between the two pathways. */
  const Alpha: nat := 4

  function Max(a: int, b: int): int {
    if a >= b then a else b
  }

  /** Frame indices the slow pathway keeps from a clip of t >= Alpha frames:
      an increasing selection that starts at the first frame and, from eight
      frames on, ends at the last one. */
  function SlowIndices(t: nat): (idx: seq<nat>)
    requires t >= Alpha
    ensures |idx| == t / Alpha
    ensures InRange(idx, t)
    ensures StrictlyIncreasing(idx)
    ensures idx[0] == 0
    ensures t >= 2 * Alpha ==> idx[|idx| - 1] == t - 1
    ensures idx == Linspace(t - 1, t / Alpha)
  {
    Linspace(t - 1, Max(1, t / Alpha))
  }

  /** `[slow, fast]`: the fast pathway is the clip itself; the slow one is a
      quarter-length selection of it, or the clip itself when shorter than
      four frames. */
  function Pack<F>(frames: seq<F>): (r: seq<seq<F>>)
    ensures |r| == 2
    ensures r[1] == frames
    ensures |frames| < Alpha ==> r[0] == frames
    ensures |frames| >= Alpha ==> |r[0]| == |frames| / Alpha >= 1
    ensures forall j :: 0 <= j < |r[0]| ==> r[0][j] in r[1]
    ensures |frames| >= Alpha ==> forall j :: 0 <= j < |r[0]| ==> r[0][j] == frames[SlowIndices(|frames|)[j]]
  {
    var t := |frames|;
    var slow := if t >= Alpha then Select(frames, SlowIndices(t)) else frames;
    [slow, frames]
  }
}
