/** The batch driver of `process_videos`: every discovered video is run
    through extraction and the store write, and exactly one report record is
    kept per video, whether it succeeded or failed. Discovery, the clock and
    the keyed store are oracles: the list of videos, the elapsed time of the
    k-th iteration, and whether the store accepts a name given what it holds. */
module Batch {
  import opened Wrappers
  import opened Spacing

  datatype Status<S> = Succeeded(shape: S) | Failed(error: Error)

  /** One entry of the per-video results list. */
  datatype Record<V, S> = Record(video: V, name: string, status: Status<S>, time: real)

  /** The aggregate counters returned by the driver. */
  datatype Stats<S> = Stats(total: nat, successful: nat, failed: nat, processingTimes: seq<real>, featureShapes: seq<S>)

  /** A feature vector written to the keyed store under a name. */
  datatype Entry<T> = Entry(name: string, feature: T)

  /** The shapes of the successful records, in order. */
  function SuccessShapes<V, S>(rs: seq<Record<V, S>>): (shapes: seq<S>)
    ensures |shapes| <= |rs|
  {
    if |rs| == 0 then []
    else SuccessShapes(rs[..|rs| - 1]) + (if rs[|rs| - 1].status.Succeeded? then [rs[|rs| - 1].status.shape] else [])
  }

  /** The times of the successful records, in order. */
  function SuccessTimes<V, S>(rs: seq<Record<V, S>>): (times: seq<real>)
    ensures |times| <= |rs|
  {
    if |rs| == 0 then []
    else SuccessTimes(rs[..|rs| - 1]) + (if rs[|rs| - 1].status.Succeeded? then [rs[|rs| - 1].time] else [])
  }

  /** The positions of the successful records, in increasing order. */
  function SuccessPositions<V, S>(rs: seq<Record<V, S>>): (p: seq<nat>)
    ensures forall j :: 0 <= j < |p| ==> p[j] < |rs| && rs[p[j]].status.Succeeded?
    ensures forall k :: 0 <= k < |rs| && rs[k].status.Succeeded? ==> k in p
    ensures StrictlyIncreasing(p)
    ensures |p| <= |rs|
  {
    Positions(rs, (rec: Record<V, S>) => rec.status.Succeeded?)
  }

  /** The store entries a results list accounts for: one per successful
      record, in order, holding that video's extracted feature under the
      record's name. */
  ghost function Entries<V, T, S>(rs: seq<Record<V, S>>, extract: V -> Result<T, Error>): seq<Entry<T>> {
    if |rs| == 0 then []
    else
      var last := rs[|rs| - 1];
      Entries(rs[..|rs| - 1], extract)
        + (if last.status.Succeeded? && extract(last.video).Success? then [Entry(last.name, extract(last.video).value)] else [])
  }

  /** The number of failed records. */
  function FailCount<V, S>(rs: seq<Record<V, S>>): (n: nat)
    ensures n <= |rs|
  {
    if |rs| == 0 then 0
    else FailCount(rs[..|rs| - 1]) + (if rs[|rs| - 1].status.Failed? then 1 else 0)
  }

  /** Every record is either a success or a failure, so the successes and
      failures of a results list add up to its length. */
  lemma {:induction false} CountsPartition<V, S>(rs: seq<Record<V, S>>)
    ensures |SuccessShapes(rs)| + FailCount(rs) == |rs|
    ensures |SuccessTimes(rs)| == |SuccessShapes(rs)|
  {
    if |rs| > 0 {
      CountsPartition(rs[..|rs| - 1]);
    }
  }

  lemma AppendRecord<V, S>(rs: seq<Record<V, S>>, rec: Record<V, S>)
    ensures SuccessShapes(rs + [rec]) == SuccessShapes(rs) + (if rec.status.Succeeded? then [rec.status.shape] else [])
    ensures SuccessTimes(rs + [rec]) == SuccessTimes(rs) + (if rec.status.Succeeded? then [rec.time] else [])
    ensures FailCount(rs + [rec]) == FailCount(rs) + (if rec.status.Failed? then 1 else 0)
    ensures SuccessPositions(rs + [rec]) == SuccessPositions(rs) + (if rec.status.Succeeded? then [|rs|] else [])
  {
    assert (rs + [rec])[..|rs|] == rs;
  }

  /** The report when discovery finds nothing. */
  function EmptyStats<S>(): (s: Stats<S>)
    ensures s.total == s.successful == s.failed == 0
    ensures s.processingTimes == [] && s.featureShapes == []
  {
    Stats(0, 0, 0, [], [])
  }

  /** The status a video may end with given what extraction returned: the
      extraction error, or a success with the feature's shape unless the
      store refused it. */
  ghost predicate StatusFits<T, S>(status: Status<S>, x: Result<T, Error>, shapeOf: T -> S) {
    match x
    case Failure(e) => status == Failed(e)
    case Success(f) => status == Succeeded(shapeOf(f)) || status == Failed(WriteRejected)
  }

  /** The record of the k-th video belongs to that video. */
  ghost predicate RecordFits<V, T, S>(rec: Record<V, S>, v: V, k: nat, stem: V -> string, extract: V -> Result<T, Error>,
                                      shapeOf: T -> S, elapsed: nat -> real) {
    && rec.video == v
    && rec.name == stem(v)
    && rec.time == elapsed(k)
    && StatusFits(rec.status, extract(v), shapeOf)
  }

  /** The counters and lists kept about the results of `videos[..|results|]`:
      the shapes and times of the successes, the number of failures, and one
      store entry per success, holding that video's feature under its stem. */
  ghost predicate Summarises<V, T, S>(stats: Stats<S>, results: seq<Record<V, S>>, written: seq<Entry<T>>,
                                      videos: seq<V>, stem: V -> string, extract: V -> Result<T, Error>) {
    && |results| <= |videos|
    && stats.featureShapes == SuccessShapes(results)
    && stats.processingTimes == SuccessTimes(results)
    && stats.failed == FailCount(results)
    && stats.successful == |stats.featureShapes| == |written|
    && var p := SuccessPositions(results);
       && |written| == |p|
       && forall j :: 0 <= j < |p| ==>
            extract(videos[p[j]]).Success? && written[j] == Entry(stem(videos[p[j]]), extract(videos[p[j]]).value)
  }

  /** Counter updates for one more record: only the matching branch's
      counters move. */
  function Tally<S>(stats: Stats<S>, status: Status<S>, time: real): (s: Stats<S>)
    ensures s.total == stats.total
    ensures status.Succeeded? ==>
      && s.failed == stats.failed
      && s.successful == stats.successful + 1
      && s.processingTimes == stats.processingTimes + [time]
      && s.featureShapes == stats.featureShapes + [status.shape]
    ensures status.Failed? ==>
      && s.failed == stats.failed + 1
      && s.successful == stats.successful
      && s.processingTimes == stats.processingTimes
      && s.featureShapes == stats.featureShapes
  {
    match status
    case Succeeded(shape) =>
      stats.(successful := stats.successful + 1,
             processingTimes := stats.processingTimes + [time],
             featureShapes := stats.featureShapes + [shape])
    case Failed(_) =>
      stats.(failed := stats.failed + 1)
  }

  /** One more video keeps the summary: its record is appended, the
      counters are tallied, and a success adds that video's entry. */
  lemma SummaryStep<V, T, S>(stats: Stats<S>, results: seq<Record<V, S>>, written: seq<Entry<T>>,
                             videos: seq<V>, stem: V -> string, extract: V -> Result<T, Error>, shapeOf: T -> S,
                             rec: Record<V, S>, written': seq<Entry<T>>)
    requires Summarises(stats, results, written, videos, stem, extract)
    requires |results| < |videos|
    requires rec.video == videos[|results|] && rec.name == stem(rec.video)
    requires StatusFits(rec.status, extract(rec.video), shapeOf)
    requires rec.status.Succeeded? ==> written' == written + [Entry(rec.name, extract(rec.video).value)]
    requires rec.status.Failed? ==> written' == written
    ensures Summarises(Tally(stats, rec.status, rec.time), results + [rec], written', videos, stem, extract)
  {
    AppendRecord(results, rec);
    var p := SuccessPositions(results);
    var p' := SuccessPositions(results + [rec]);
    forall j | 0 <= j < |p'|
      ensures extract(videos[p'[j]]).Success?
      ensures written'[j] == Entry(stem(videos[p'[j]]), extract(videos[p'[j]]).value)
    {
      if j < |p| {
        assert p'[j] == p[j];
      }
    }
  }

  /** The store's answer decides every successfully extracted video: its
      record is a success exactly when the store accepted its name, given the
      entries written for the videos before it. */
  ghost predicate StoreDecides<V, T, S>(results: seq<Record<V, S>>, videos: seq<V>, stem: V -> string,
                                        extract: V -> Result<T, Error>, accepts: (seq<Entry<T>>, string) -> bool) {
    && |results| <= |videos|
    && forall k :: 0 <= k < |results| && extract(videos[k]).Success? ==>
         (results[k].status.Succeeded? <==> accepts(Entries(results[..k], extract), stem(videos[k])))
  }

  /** One more video keeps the store's answers deciding the records, and
      extends the entries by that video's feature when it succeeded. */
  lemma DecidesStep<V, T, S>(results: seq<Record<V, S>>, videos: seq<V>, stem: V -> string,
                             extract: V -> Result<T, Error>, accepts: (seq<Entry<T>>, string) -> bool, rec: Record<V, S>)
    requires StoreDecides(results, videos, stem, extract, accepts)
    requires |results| < |videos|
    requires rec.video == videos[|results|] && rec.name == stem(rec.video)
    requires extract(rec.video).Success? ==> (rec.status.Succeeded? <==> accepts(Entries(results, extract), rec.name))
    ensures StoreDecides(results + [rec], videos, stem, extract, accepts)
    ensures Entries(results + [rec], extract) == Entries(results, extract)
      + (if rec.status.Succeeded? && extract(rec.video).Success? then [Entry(rec.name, extract(rec.video).value)] else [])
  {
    var rs := results + [rec];
    assert rs[..|results|] == results;
    forall k | 0 <= k < |results|
      ensures rs[..k] == results[..k]
    {
    }
  }

  /** The per-video loop. `extract` is load, preprocess and inference;
      `shapeOf` reads the shape of a feature vector; `accepts(written, name)`
      says whether the store takes one more entry under `name` after the
      entries `written`; `elapsed(k)` is the time measured for the k-th video. */
  method ProcessVideos<V, T, S>(videos: seq<V>, stem: V -> string, extract: V -> Result<T, Error>,
                                shapeOf: T -> S, accepts: (seq<Entry<T>>, string) -> bool, elapsed: nat -> real)
    returns (stats: Stats<S>, results: seq<Record<V, S>>, written: seq<Entry<T>>)
    ensures |videos| == 0 ==> stats == EmptyStats() && results == [] && written == []
    ensures stats.total == |videos| == |results|
    ensures stats.successful + stats.failed == stats.total
    ensures forall k :: 0 <= k < |results| ==> RecordFits(results[k], videos[k], k, stem, extract, shapeOf, elapsed)
    ensures Summarises(stats, results, written, videos, stem, extract)
    ensures written == Entries(results, extract)
    ensures StoreDecides(results, videos, stem, extract, accepts)
  {
    if |videos| == 0 {
      return EmptyStats(), [], [];
    }
    stats := Stats(|videos|, 0, 0, [], []);
    results := [];
    written := [];
    var k := 0;
    while k < |videos|
      invariant 0 <= k <= |videos| && |results| == k
      invariant stats.total == |videos|
      invariant forall i :: 0 <= i < k ==> RecordFits(results[i], videos[i], i, stem, extract, shapeOf, elapsed)
      invariant Summarises(stats, results, written, videos, stem, extract)
      invariant written == Entries(results, extract)
      invariant StoreDecides(results, videos, stem, extract, accepts)
    {
      var v := videos[k];
      var name := stem(v);
      ghost var writtenBefore := written;
      var status: Status<S>;
      match extract(v) {
        case Failure(e) =>
          status := Failed(e);
        case Success(feature) =>
          if accepts(written, name) {
            written := written + [Entry(name, feature)];
            status := Succeeded(shapeOf(feature));
          } else {
            status := Failed(WriteRejected);
          }
      }
      var rec := Record(v, name, status, elapsed(k));
      SummaryStep(stats, results, writtenBefore, videos, stem, extract, shapeOf, rec, written);
      DecidesStep(results, videos, stem, extract, accepts, rec);
      results := results + [rec];
      stats := Tally(stats, status, rec.time);
      k := k + 1;
    }
    CountsPartition(results);
  }
}
