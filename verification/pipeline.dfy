/** One clip through load, preprocess, pathway packing and the wrapped
    network, with the parameters the batch driver uses: at most 64 sampled
    frames, 224x224 crops, 32 frames. */
module Pipeline {
  import opened Wrappers
  import opened Spacing
  import opened Loader
  import opened Preprocess
  import opened Pathways
  import opened Extractor

  /** The two-pathway input the network receives for a decoded clip. */
  function NetInput<P>(frames: seq<Grid<P>>, resize: Grid<P> -> Grid<P>): (x: seq<seq<Grid<P>>>)
    requires |frames| >= 1
    ensures |x| == 2
    ensures |x[1]| == TargetFrames
    ensures |x[0]| == TargetFrames / Alpha
  {
    Pack(PreprocessClip(frames, resize, TargetSize, TargetFrames))
  }

  /** Whatever the resolution and the length of the decoded clip, the fast
      pathway is 32 frames and the slow pathway 8 frames, all 224x224, and
      every slow frame is one of the fast frames. */
  lemma NetInputShape<P>(frames: seq<Grid<P>>, resize: Grid<P> -> Grid<P>)
    requires |frames| >= 1
    requires forall t :: 0 <= t < |frames| ==> IsGrid(frames[t], |frames[t]|, Width(frames[t]))
    requires forall t :: 0 <= t < |frames| ==> IsGrid(resize(frames[t]), NormSize, NormSize)
    ensures var x := NetInput(frames, resize);
      && (forall i :: 0 <= i < |x[1]| ==> IsGrid(x[1][i], TargetSize, TargetSize))
      && (forall j :: 0 <= j < |x[0]| ==> IsGrid(x[0][j], TargetSize, TargetSize) && x[0][j] in x[1])
  {
    var clip := PreprocessClip(frames, resize, TargetSize, TargetFrames);
    PreprocessShape(frames, resize, TargetSize, TargetFrames);
    var x := NetInput(frames, resize);
    assert x[1] == clip;
    forall j | 0 <= j < |x[0]|
      ensures IsGrid(x[0][j], TargetSize, TargetSize)
    {
      assert x[0][j] in clip;
    }
  }

  /** The work of one iteration of the batch loop before the store write:
      decoder errors end it first, then the network's own exception, then a
      captured value the pooling or flattening rejects. */
  function ExtractVideo<P>(src: VideoSource<Grid<P>>, resize: Grid<P> -> Grid<P>, net: Net,
                           run: seq<seq<Grid<P>>> -> Result<Pass, Error>): (r: Result<Tensor, Error>)
    ensures !src.isOpen ==> r == Failure(CannotOpen)
    ensures src.isOpen && src.frameCount == 0 ==> r == Failure(NoFrames)
    ensures LoadVideo(src, MaxFrames).Failure? ==> r == Failure(LoadVideo(src, MaxFrames).error)
    ensures LoadVideo(src, MaxFrames).Success? ==>
      var x := NetInput(LoadVideo(src, MaxFrames).value, resize);
      && r == Forward(net, x, run).features
      && (run(x).Failure? ==> r == Failure(run(x).error))
      && (run(x).Success? && r.Failure? ==> r.error in {EmptyCapture, PoolRejected, FlattenRejected})
  {
    var frames :- LoadVideo(src, MaxFrames);
    var x := NetInput(frames, resize);
    Forward(net, x, run).features
  }
}
