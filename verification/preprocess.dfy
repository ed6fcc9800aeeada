/** The spatial and temporal preprocessing of a decoded clip: every frame is
    brought to 256x256 and centre-cropped, then the clip is resampled to a
    fixed number of frames. Pixels are opaque; the resize is a parameter;
    intensity scaling and mean/std normalisation act per pixel and are not
    modelled. */
module Preprocess {
  import opened Spacing

  /** Side of the square every frame is resized to before cropping. */
  const NormSize: nat := 256
  /** Crop side and clip length the batch driver asks for. */
  const TargetSize: int := 224
  const TargetFrames: nat := 32

  /** A frame as rows of pixels. */
  type Grid<P> = seq<seq<P>>

  ghost predicate IsGrid<P>(g: Grid<P>, h: nat, w: nat) {
    |g| == h && forall i :: 0 <= i < h ==> |g[i]| == w
  }

  /** The second dimension of a frame array, read from its first row. */
  function Width<P>(g: Grid<P>): nat {
    if |g| == 0 then 0 else |g[0]|
  }

  /** Where a Python slice bound lands in a sequence of length n: negative
      bounds count from the end, and everything is clamped to [0, n]. */
  function SliceBound(x: int, n: nat): (b: nat)
    ensures b <= n
    ensures 0 <= x <= n ==> b == x
  {
    if x < 0 then (if x + n < 0 then 0 else x + n)
    else if x > n then n
    else x
  }

  /** Python's `s[start:stop]`. */
  function PySlice<T>(s: seq<T>, start: int, stop: int): (r: seq<T>)
    ensures 0 <= start <= stop <= |s| ==> r == s[start..stop]
    ensures 0 <= stop <= start ==> r == []
    ensures |r| <= |s|
  {
    var lo := SliceBound(start, |s|);
    var hi := SliceBound(stop, |s|);
    if lo < hi then s[lo..hi] else []
  }

  /** `(size - target) // 2`: the crop leaves equal margins on both sides,
      the odd pixel going to the far side. */
  function CropOffset(size: nat, target: int): (off: int)
    ensures 2 * off <= size - target <= 2 * off + 1
    ensures 0 <= target <= size ==> 0 <= off && off + target <= size
  {
    (size - target) / 2
  }

  /** Resizes the frame to 256x256 unless it already has that shape. */
  function Normalise<P>(g: Grid<P>, resize: Grid<P> -> Grid<P>): (r: Grid<P>)
    ensures IsGrid(g, NormSize, NormSize) ==> r == g
    ensures !IsGrid(g, NormSize, NormSize) && IsGrid(g, |g|, Width(g)) ==> r == resize(g)
    ensures IsGrid(g, |g|, Width(g)) && IsGrid(resize(g), NormSize, NormSize) ==> IsGrid(r, NormSize, NormSize)
  {
    if |g| != NormSize || Width(g) != NormSize then resize(g) else g
  }

  /** The centre crop of side `target`; no crop at all when the target is 256. */
  function CentreCrop<P>(g: Grid<P>, target: int): (r: Grid<P>)
    ensures target == NormSize ==> r == g
    ensures IsGrid(g, NormSize, NormSize) && 0 <= target <= NormSize ==>
      var off := CropOffset(NormSize, target);
      && IsGrid(r, target, target)
      && forall i, j :: 0 <= i < target && 0 <= j < target ==> r[i][j] == g[off + i][off + j]
    ensures IsGrid(g, NormSize, NormSize) && target > NormSize ==> |r| < target
  {
    if target != NormSize then
      var off := CropOffset(|g|, target);
      var rows := PySlice(g, off, off + target);
      var w := Width(g);
      var r := seq(|rows|, i requires 0 <= i < |rows| => PySlice(rows[i], CropOffset(w, target), CropOffset(w, target) + target));
      assert IsGrid(g, NormSize, NormSize) && 0 <= target <= NormSize ==>
        && rows == g[off..off + target]
        && |r| == target
        && forall i :: 0 <= i < target ==> r[i] == g[off + i][off..off + target];
      r
    else
      g
  }

  /** One frame through the spatial stage: for a rectangular frame whose
      resize is 256x256 and a target of at most 256, a `target` x `target`
      frame cut from the centre of the normalised frame. */
  function SpatialFrame<P>(g: Grid<P>, resize: Grid<P> -> Grid<P>, target: int): (r: Grid<P>)
    ensures IsGrid(g, |g|, Width(g)) && IsGrid(resize(g), NormSize, NormSize) && 0 <= target <= NormSize ==>
      var n := Normalise(g, resize);
      var off := CropOffset(NormSize, target);
      && IsGrid(r, target, target)
      && forall i, j :: 0 <= i < target && 0 <= j < target ==> r[i][j] == n[off + i][off + j]
  {
    CentreCrop(Normalise(g, resize), target)
  }

  /** `s` written out k times in a row (a tensor `repeat` along time). */
  function Repeat<T>(s: seq<T>, k: nat): (r: seq<T>)
    ensures |r| == k * |s|
  {
    if k == 0 then [] else s + Repeat(s, k - 1)
  }

  lemma {:induction false} RepeatIndex<T>(s: seq<T>, k: nat, i: nat)
    requires i < k * |s|
    ensures Repeat(s, k)[i] == s[i % |s|]
  {
    var n := |s|;
    assert k > 0;
    var rest := Repeat(s, k - 1);
    assert Repeat(s, k) == s + rest;
    if i < n {
      assert i % n == i;
    } else {
      MulPred(k, n);
      assert i - n < (k - 1) * n;
      RepeatIndex(s, k - 1, i - n);
      ModShift(i - n, n);
    }
  }

  lemma MulPred(k: nat, n: nat)
    requires k > 0
    ensures k * n == n + (k - 1) * n
  {
  }

  lemma ModShift(a: nat, n: nat)
    requires n > 0
    ensures (a + n) % n == a % n
  {
    DivBounds(a, n);
    DivBounds(a + n, n);
    var q, q' := a / n, (a + n) / n;
    assert n * q' <= a + n < n * q' + n;
    assert n * q <= a < n * q + n;
    assert n * (q + 1) == n * q + n;
    MulCancelLess(q + 1, q' + 1, n);
    MulCancelLess(q', q + 2, n);
  }

  /** `(a + b - 1) // b`, the repeat factor of the short-clip branch. */
  function CeilDiv(a: nat, b: nat): (q: nat)
    requires b > 0
    ensures q * b >= a
    ensures q * b < a + b
  {
    DivBounds(a + b - 1, b);
    (a + b - 1) / b
  }

  /** Temporal resampling to exactly `target` frames: an even-stride
      selection when the clip is longer (strictly increasing and keeping the
      first frame, and the last one too when `target >= 2`, by the contract
      of `Linspace`), repeat-and-truncate when it is
      shorter, the clip itself when it already has the right length. */
  function Resample<T>(frames: seq<T>, target: nat): (r: seq<T>)
    requires |frames| >= 1
    ensures |r| == target
    ensures forall i :: 0 <= i < |r| ==> r[i] in frames
    ensures |frames| == target ==> r == frames
    ensures |frames| < target ==> forall i :: 0 <= i < target ==> r[i] == frames[i % |frames|]
    ensures |frames| > target ==> forall i :: 0 <= i < target ==> r[i] == frames[Linspace(|frames| - 1, target)[i]]
  {
    var n := |frames|;
    if n > target then
      Select(frames, Linspace(n - 1, target))
    else if n < target then
      var k := CeilDiv(target, n);
      var r := Repeat(frames, k)[..target];
      forall i | 0 <= i < target
        ensures r[i] == frames[i % n]
      {
        RepeatIndex(frames, k, i);
      }
      r
    else
      frames
  }

  /** `preprocess_frames` without the per-pixel arithmetic. */
  function PreprocessClip<P>(frames: seq<Grid<P>>, resize: Grid<P> -> Grid<P>, targetSize: int, targetFrames: nat): (r: seq<Grid<P>>)
    requires |frames| >= 1
    ensures |r| == targetFrames
  {
    Resample(seq(|frames|, t requires 0 <= t < |frames| => SpatialFrame(frames[t], resize, targetSize)), targetFrames)
  }

  /** Whatever the resolution and length of the clip, the output has
      `targetFrames` frames of `targetSize` x `targetSize`, each the centre
      crop of some normalised input frame, provided the resize does return
      256x256 frames. */
  lemma PreprocessShape<P>(frames: seq<Grid<P>>, resize: Grid<P> -> Grid<P>, targetSize: int, targetFrames: nat)
    requires |frames| >= 1
    requires 0 <= targetSize <= NormSize
    requires forall t :: 0 <= t < |frames| ==> IsGrid(frames[t], |frames[t]|, Width(frames[t]))
    requires forall t :: 0 <= t < |frames| ==> IsGrid(resize(frames[t]), NormSize, NormSize)
    ensures forall i :: 0 <= i < targetFrames ==> IsGrid(PreprocessClip(frames, resize, targetSize, targetFrames)[i], targetSize, targetSize)
    ensures forall i :: 0 <= i < targetFrames ==>
      exists t :: 0 <= t < |frames| && PreprocessClip(frames, resize, targetSize, targetFrames)[i] == SpatialFrame(frames[t], resize, targetSize)
  {
    var spatial := seq(|frames|, t requires 0 <= t < |frames| => SpatialFrame(frames[t], resize, targetSize));
    var r := PreprocessClip(frames, resize, targetSize, targetFrames);
    forall i | 0 <= i < targetFrames
      ensures IsGrid(r[i], targetSize, targetSize)
      ensures exists t :: 0 <= t < |frames| && r[i] == SpatialFrame(frames[t], resize, targetSize)
    {
      assert r[i] in spatial;
      var t :| 0 <= t < |frames| && spatial[t] == r[i];
      var n := Normalise(frames[t], resize);
      assert IsGrid(n, NormSize, NormSize);
    }
  }
}
