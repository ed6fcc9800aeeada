/** The feature-extraction wrapper around the pretrained network: a hook is
    put on the head's projection layer to capture the output it emits,
    the network runs once, the hook is taken off, and the captured value is
    pooled and flattened into one feature vector per clip. The network is an
    oracle; tensors are symbolic terms recording which pooling, flattening
    and concatenation was applied to which network tensor. */
module Extractor {
  import opened Wrappers

  /** A tensor the network produced, known by identity and number of dimensions. */
  datatype Raw = Raw(id: nat, rank: nat)

  /** A tensor built from network tensors by the wrapper. `Pool` is average
      pooling of the three trailing axes to size 1, `Flatten` collapses every
      axis after the batch axis, `Concat` joins along the feature axis. */
  datatype Tensor =
    | Of(raw: Raw)
    | Pool(arg: Tensor)
    | Flatten(arg: Tensor)
    | Concat(left: Tensor, right: Tensor)

  /** What a hooked layer emitted: one tensor, or a list/tuple of them. */
  datatype Activation = Single(t: Raw) | Several(ts: seq<Raw>)

  /** The network's own output, which may or may not carry a `logits` attribute. */
  datatype NetOutput = NetOutput(value: Raw, logits: Option<Raw>)

  /** A candidate layer: present as an attribute, and whether a forward
      hook can be registered on it. */
  datatype Layer = Layer(hookable: bool)
  datatype Head = Head(proj: Option<Layer>, projection: Option<Layer>)
  datatype Net = Net(head: Option<Head>)

  datatype Site = ProjSite | ProjectionSite

  /** One forward pass: the last activation each candidate layer emitted
      (None when it did not run) and the final output. */
  datatype Pass = Pass(atProj: Option<Activation>, atProjection: Option<Activation>, output: NetOutput)

  /** The wrapper's outcome: where the hook was registered, whether it is
      still registered afterwards, and the features or the exception. */
  datatype Extraction = Extraction(hooked: Option<Site>, hookLeft: bool, features: Result<Tensor, Error>)

  /** The layer the hook goes on. `proj` is preferred; when `head.proj`
      exists but refuses the hook, the exception is swallowed and no hook is
      registered at all, even if `head.projection` exists. */
  function HookSite(net: Net): (s: Option<Site>)
    ensures s == Some(ProjSite) <==> net.head.Some? && net.head.value.proj == Some(Layer(true))
    ensures s == Some(ProjectionSite) <==>
      net.head.Some? && net.head.value.proj.None? && net.head.value.projection == Some(Layer(true))
    ensures net.head.None? ==> s.None?
  {
    match net.head
    case None => None
    case Some(h) =>
      if h.proj.Some? then
        (if h.proj.value.hookable then Some(ProjSite) else None)
      else if h.projection.Some? then
        (if h.projection.value.hookable then Some(ProjectionSite) else None)
      else
        None
  }

  /** What the hook recorded during the pass: the emission of the layer it
      is on, and nothing when no hook was registered. */
  function Captured(site: Option<Site>, pass: Pass): (c: Option<Activation>)
    ensures site.None? ==> c.None?
    ensures site == Some(ProjSite) ==> c == pass.atProj
    ensures site == Some(ProjectionSite) ==> c == pass.atProjection
  {
    match site
    case None => None
    case Some(ProjSite) => pass.atProj
    case Some(ProjectionSite) => pass.atProjection
  }

  /** Number of dimensions of a wrapper tensor. Pooling keeps the number of
      axes, flattening from axis 1 leaves two. */
  function Rank(t: Tensor): nat {
    match t
    case Of(r) => r.rank
    case Pool(a) => Rank(a)
    case Flatten(a) => if Rank(a) <= 2 then Rank(a) else 2
    case Concat(a, b) => if Rank(a) >= Rank(b) then Rank(a) else Rank(b)
  }

  /** The network tensors a wrapper tensor is made of, left to right. */
  function Leaves(t: Tensor): seq<Raw> {
    match t
    case Of(r) => [r]
    case Pool(a) => Leaves(a)
    case Flatten(a) => Leaves(a)
    case Concat(a, b) => Leaves(a) + Leaves(b)
  }

  /** The network tensors that went through pooling, left to right. */
  function PooledLeaves(t: Tensor): seq<Raw> {
    match t
    case Of(_) => []
    case Pool(a) => Leaves(a)
    case Flatten(a) => PooledLeaves(a)
    case Concat(a, b) => PooledLeaves(a) + PooledLeaves(b)
  }

  /** 3-D adaptive average pooling accepts a 4-D or a 5-D tensor. */
  predicate Poolable(x: Raw) {
    x.rank == 4 || x.rank == 5
  }

  /** A term the library evaluates without raising: pooling is applied only
      to a 4-D or 5-D tensor, flattening only to one of at least two
      dimensions, and concatenation only to tensors of equal rank. */
  ghost predicate WellFormed(t: Tensor) {
    match t
    case Of(_) => true
    case Pool(a) => (Rank(a) == 4 || Rank(a) == 5) && WellFormed(a)
    case Flatten(a) => Rank(a) >= 2 && WellFormed(a)
    case Concat(a, b) => Rank(a) == Rank(b) && WellFormed(a) && WellFormed(b)
  }

  /** The ranks a lone captured tensor can have without a library error:
      2 (flattened as is), or 4 and 5 (pooled, then flattened). */
  predicate Reducible(x: Raw) {
    x.rank == 2 || Poolable(x)
  }

  /** The outcome `r` of reducing one captured tensor `x`: it succeeds
      exactly for a reducible rank, yields a two-dimensional tensor made of
      `x` alone, pooled exactly when `x` has more than two dimensions and
      built only from steps the library accepts, and otherwise fails in the
      step that rejects `x`. */
  ghost predicate ReducedFrom(r: Result<Tensor, Error>, x: Raw) {
    && (r.Success? <==> Reducible(x))
    && (r.Success? ==>
         && Leaves(r.value) == [x]
         && PooledLeaves(r.value) == (if x.rank > 2 then [x] else [])
         && Rank(r.value) == 2
         && WellFormed(r.value))
    && (r.Failure? ==> r.error == (if x.rank > 2 then PoolRejected else FlattenRejected))
  }

  /** `adaptive_avg_pool3d(x, (1, 1, 1)).flatten(start_dim=1)`. */
  function PoolFlat(x: Raw): (t: Tensor)
    requires Poolable(x)
    ensures Leaves(t) == [x] && PooledLeaves(t) == [x] && Rank(t) == 2
    ensures WellFormed(t)
  {
    var pooled := Pool(Of(x));
    assert Leaves(pooled) == [x] && Rank(pooled) == x.rank;
    Flatten(pooled)
  }

  /** A lone captured tensor: pooled only when it has more than two
      dimensions, then flattened from axis 1. */
  function Reduce(x: Raw): (r: Result<Tensor, Error>)
    ensures ReducedFrom(r, x)
  {
    if x.rank > 2 then
      if Poolable(x) then
        Success(PoolFlat(x))
      else
        Failure(PoolRejected)
    else if x.rank < 2 then
      Failure(FlattenRejected)
    else
      Success(Flatten(Of(x)))
  }

  /** The decision tree over what the hook captured. */
  function Dispatch(captured: Option<Activation>, out: NetOutput): (r: Result<Tensor, Error>)
    ensures captured.None? ==>
      r == Success(Of(if out.logits.Some? then out.logits.value else out.value))
    ensures captured == Some(Several([])) ==> r == Failure(EmptyCapture)
    ensures captured.Some? && captured.value.Several? && |captured.value.ts| == 2 ==>
      var ts := captured.value.ts;
      && (r.Success? <==> Poolable(ts[0]) && Poolable(ts[1]))
      && (r.Success? ==> Leaves(r.value) == ts && PooledLeaves(r.value) == ts && Rank(r.value) == 2)
      && (r.Success? ==>
           && r.value.Concat?
           && Leaves(r.value.left) == PooledLeaves(r.value.left) == [ts[0]]
           && Leaves(r.value.right) == PooledLeaves(r.value.right) == [ts[1]]
           && Rank(r.value.left) == Rank(r.value.right) == 2)
      && (r.Failure? ==> r.error == PoolRejected)
    ensures captured.Some? && captured.value.Several? && |captured.value.ts| != 2 && |captured.value.ts| > 0 ==>
      ReducedFrom(r, captured.value.ts[0])
    ensures captured.Some? && captured.value.Single? ==> ReducedFrom(r, captured.value.t)
    ensures r.Failure? ==> r.error in {EmptyCapture, PoolRejected, FlattenRejected}
    ensures r.Success? ==> WellFormed(r.value)
  {
    match captured
    case None =>
      Success(if out.logits.Some? then Of(out.logits.value) else Of(out.value))
    case Some(Several(ts)) =>
      if |ts| == 2 then
        if !Poolable(ts[0]) || !Poolable(ts[1]) then
          Failure(PoolRejected)
        else
          var slow := PoolFlat(ts[0]);
          var fast := PoolFlat(ts[1]);
          assert ts == [ts[0], ts[1]];
          Success(Concat(slow, fast))
      else if |ts| == 0 then
        Failure(EmptyCapture)
      else
        Reduce(ts[0])
    case Some(Single(x)) =>
      Reduce(x)
  }

  /** `SlowFastFeatureExtractor.forward`. The hook is removed after a pass
      that returns; a pass that raises leaves it registered, since the
      removal is not in a `finally`. */
  function Forward<X>(net: Net, x: X, run: X -> Result<Pass, Error>): (e: Extraction)
    ensures e.hooked == HookSite(net)
    ensures e.hookLeft <==> e.hooked.Some? && run(x).Failure?
    ensures run(x).Failure? ==> e.features == Failure(run(x).error)
    ensures run(x).Success? ==>
      e.features == Dispatch(Captured(HookSite(net), run(x).value), run(x).value.output)
    ensures run(x).Success? && e.hooked.None? ==>
      var out := run(x).value.output;
      e.features == Success(Of(if out.logits.Some? then out.logits.value else out.value))
  {
    var site := HookSite(net);
    match run(x)
    case Failure(err) => Extraction(site, site.Some?, Failure(err))
    case Success(pass) => Extraction(site, false, Dispatch(Captured(site, pass), pass.output))
  }

  /** When the head has a `proj` attribute, nothing the `projection` layer
      emits can change the features. */
  lemma ProjShadowsProjection<X>(net: Net, x: X, run: X -> Result<Pass, Error>, run': X -> Result<Pass, Error>)
    requires net.head.Some? && net.head.value.proj.Some?
    requires run(x).Success? && run'(x).Success?
    requires run(x).value.atProj == run'(x).value.atProj
    requires run(x).value.output == run'(x).value.output
    ensures Forward(net, x, run).features == Forward(net, x, run').features
  {
  }
}
