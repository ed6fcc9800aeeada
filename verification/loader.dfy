/** The frame loader: uniform sampling of frame indices over the length a
    video reports, then decoding of each sampled frame, skipping the frames
    that fail to decode. The decoder is an oracle: whether it opened the
    file, the frame count it reports, and what reading each index yields. */
module Loader {
  import opened Wrappers
  import opened Spacing

  /** The cap on sampled frames that the batch driver asks for. */
  const MaxFrames: nat := 64

  /** A decoder opened on one file. `read(k)` is the outcome of seeking to
      frame k and decoding it: the frame (already converted to RGB) or None. */
  datatype VideoSource<F> = VideoSource(isOpen: bool, frameCount: int, read: nat -> Option<F>)

  function Min(a: int, b: int): int {
    if a <= b then a else b
  }

  /** The frame indices to decode: all of them when the video is short
      enough, otherwise `maxFrames` evenly spaced ones that keep the first
      frame and, when two or more are asked for, the last. A negative
      reported count yields no index at all. */
  function SampleIndices(total: int, maxFrames: nat): (r: seq<nat>)
    ensures total >= 0 ==> |r| == Min(total, maxFrames)
    ensures |r| <= maxFrames
    ensures forall i :: 0 <= i < |r| ==> r[i] < total
    ensures StrictlyIncreasing(r)
    ensures forall k :: 0 <= k < total <= maxFrames ==> k in r
    ensures total > maxFrames >= 1 ==> r[0] == 0
    ensures total > maxFrames >= 2 ==> r[maxFrames - 1] == total - 1
    ensures total > maxFrames ==> r == Linspace(total - 1, maxFrames)
  {
    if total <= maxFrames then
      var r := seq(if total < 0 then 0 else total, i requires i >= 0 => i as nat);
      forall k | 0 <= k < total
        ensures k in r
      {
        assert r[k] == k;
      }
      r
    else
      Linspace(total - 1, maxFrames)
  }

  /** The positions in `idx` whose frame decodes, in increasing order. */
  function ReadablePositions<F>(read: nat -> Option<F>, idx: seq<nat>): (p: seq<nat>)
    ensures forall j :: 0 <= j < |p| ==> p[j] < |idx| && read(idx[p[j]]).Some?
    ensures forall k :: 0 <= k < |idx| && read(idx[k]).Some? ==> k in p
    ensures StrictlyIncreasing(p)
    ensures |p| <= |idx|
  {
    Positions(idx, i => read(i).Some?)
  }

  /** Opening checks, sampling, decoding of every sampled index and the
      final emptiness check of `load_video_opencv`. */
  function LoadVideo<F>(src: VideoSource<F>, maxFrames: nat): (r: Result<seq<F>, Error>)
    ensures !src.isOpen ==> r == Failure(CannotOpen)
    ensures src.isOpen && src.frameCount == 0 ==> r == Failure(NoFrames)
    ensures src.isOpen && src.frameCount != 0 ==>
      var idx := SampleIndices(src.frameCount, maxFrames);
      (r.Success? <==> exists k :: 0 <= k < |idx| && src.read(idx[k]).Some?)
      && (r.Failure? ==> r.error == NoFramesRead)
    ensures r.Success? ==>
      var idx := SampleIndices(src.frameCount, maxFrames);
      var p := ReadablePositions(src.read, idx);
      && 0 < |r.value| <= |idx| <= maxFrames
      && |r.value| == |p|
      && forall j :: 0 <= j < |p| ==> r.value[j] == src.read(idx[p[j]]).value
  {
    if !src.isOpen then Failure(CannotOpen)
    else if src.frameCount == 0 then Failure(NoFrames)
    else
      var idx := SampleIndices(src.frameCount, maxFrames);
      var p := ReadablePositions(src.read, idx);
      var frames := seq(|p|, j requires 0 <= j < |p| => src.read(idx[p[j]]).value);
      if |frames| == 0 then
        Failure(NoFramesRead)
      else
        assert src.read(idx[p[0]]).Some?;
        Success(frames)
  }
}
