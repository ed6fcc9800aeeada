# SlowFast visual feature extraction: index and dispatch logic

This project models the pure integer, index and control logic of the
feature-extraction script `src/visual_head/pipeline_visual_head.py`. The
script turns each video clip into one embedding vector using a pretrained
two-pathway (SlowFast) network. The model covers these parts:

- **Frame loader** (`Loader`). It samples frame indices uniformly over the
  frame count the decoder reports. It decodes each sampled index, skips the
  frames that fail, and raises on an unopenable video, on a zero frame
  count, and when no frame decodes.
- **Preprocessor** (`Preprocess`). Each frame is brought to 256x256 and
  centre-cropped, with Python slice semantics. The clip is then resampled to
  a fixed number of frames: even-stride selection when it is longer,
  repeat-and-truncate when it is shorter.
- **Pathway packer** (`Pathways`). It builds the input `[slow, fast]`. The
  fast pathway is the clip itself. The slow pathway is an evenly spaced
  selection of `T // 4` frames, or the clip itself when `T < 4`.
- **Extractor wrapper** (`Extractor`). A forward hook goes on `head.proj`,
  or else on `head.projection`. The network runs once, and the hook is
  removed when the pass returns. The captured value then goes through a
  decision tree: a pair, another list, a bare tensor, or nothing captured.
- **Single-clip pipeline** (`Pipeline`). It chains the steps above with the
  driver's parameters: 64 sampled frames, 224x224 crops and 32 frames.
- **Batch driver** (`Batch`). Each video gets exactly one report record.
  The success and failure counters move only in their own branch.

The values the script passes between libraries are opaque:
- Frames and pixels are type parameters.
- The network is an oracle that returns what each candidate layer emitted and its final output.
- Tensors built by the wrapper are symbolic terms recording which network tensors were pooled, flattened and concatenated.
- The video decoder is an oracle: whether it opened the file, the frame count it reports, and what reading each index yields.
- The clock is an oracle giving the elapsed time of the k-th iteration.
- The keyed store is an oracle saying whether it accepts one more name.

`int(linspace(0, last, m))` is idealised as the exact rational grid,
truncated: point `i` is `floor(i * last / (m - 1))` for `m >= 2`. It is
`[0]` for `m = 1` and empty for `m = 0`.

## Model

| member | source | states |
|---|---|---|
| Spacing.Linspace | src/visual_head/pipeline_visual_head.py:93 | `m` indices, each at most `last`. They start at 0, end at `last` when there are two or more, and never decrease. They strictly increase when there are at most `last + 1` of them |
| Spacing.LinspaceValue | src/visual_head/pipeline_visual_head.py:93 | the grid is evenly spaced: with `m >= 2` points, point `i` is the largest integer with `(m - 1) * point <= i * last`, that is `floor(i * last / (m - 1))` |
| Spacing.Select | src/visual_head/pipeline_visual_head.py:136 | the selection has one element per index, and element `j` is the source element at position `idx[j]` |
| Spacing.Positions | src/visual_head/pipeline_visual_head.py:96-101 | the positions of the elements a test accepts: each one accepted, none missed, strictly increasing and in range |
| Loader.SampleIndices | src/visual_head/pipeline_visual_head.py:90-93 | there are `min(total, maxFrames)` indices, all below `total` and strictly increasing. Every frame is taken when the video fits under the cap. A longer video is sampled on the evenly spaced grid `Linspace(total - 1, maxFrames)`, from frame 0 and up to frame `total - 1` when at least two frames are asked for |
| Loader.ReadablePositions | src/visual_head/pipeline_visual_head.py:96-101 | exactly the sampled positions whose decode succeeds, in increasing order |
| Loader.LoadVideo | src/visual_head/pipeline_visual_head.py:78-108 | an unopenable video and a zero frame count fail before any read. Otherwise it succeeds iff some sampled frame decodes, and the error is "no frames read". The frames are the successfully decoded sampled frames, in sampling order: non-empty and no more than were sampled |
| Preprocess.PySlice | src/visual_head/pipeline_visual_head.py:125 | a Python slice equals the ordinary subsequence when its bounds are in range, and it is never longer than the sequence |
| Preprocess.CropOffset | src/visual_head/pipeline_visual_head.py:123-124 | the offset leaves equal margins, the odd pixel going to the far side; the window fits when `0 <= target <= size` |
| Preprocess.Normalise | src/visual_head/pipeline_visual_head.py:118-119 | a frame that is already 256x256 is returned untouched. Any other rectangular frame is replaced by what the resize returns, so the result is 256x256 whenever the resize yields that shape |
| Preprocess.CentreCrop | src/visual_head/pipeline_visual_head.py:121-125 | on a 256x256 frame with `0 <= target <= 256`, the result is `target` x `target` and pixel `(i, j)` is pixel `(off + i, off + j)` of the frame. A target of 256 leaves the frame unchanged; a target above 256 yields fewer rows than asked |
| Preprocess.SpatialFrame | src/visual_head/pipeline_visual_head.py:116-127 | a rectangular frame whose resize is 256x256 becomes a `target` x `target` frame, and pixel `(i, j)` is pixel `(off + i, off + j)` of the normalised frame |
| Preprocess.Repeat | src/visual_head/pipeline_visual_head.py:139 | a clip repeated `k` times has `k` times its frames |
| Preprocess.RepeatIndex | src/visual_head/pipeline_visual_head.py:139 | element `i` of a sequence repeated `k` times is element `i mod n` |
| Preprocess.CeilDiv | src/visual_head/pipeline_visual_head.py:138 | the repeat factor times `T` covers the target, with less than one copy to spare |
| Preprocess.Resample | src/visual_head/pipeline_visual_head.py:133-139 | exactly `target` frames, each one of the input frames. A clip of the right length is unchanged. In a shorter clip, output frame `i` is input frame `i mod T`. In a longer clip, output frame `i` is input frame `Linspace(T - 1, target)[i]`: a strictly increasing selection that starts at the first frame and, when `target >= 2`, ends at the last |
| Preprocess.PreprocessClip | src/visual_head/pipeline_visual_head.py:111-139 | the preprocessed clip has exactly `targetFrames` frames |
| Preprocess.PreprocessShape | src/visual_head/pipeline_visual_head.py:116-139 | for any input resolution and length, every output frame is `targetSize` x `targetSize` and is the crop of some input frame |
| Pathways.SlowIndices | src/visual_head/pipeline_visual_head.py:155 | the slow indices are the evenly spaced grid `Linspace(T - 1, T // 4)`: `T // 4` strictly increasing indices below `T`, starting at 0 and, from 8 frames on, ending at `T - 1` |
| Pathways.Pack | src/visual_head/pipeline_visual_head.py:149-162 | the result is `[slow, fast]` and `fast` is the input unchanged. When `T >= 4`, `slow` has `T // 4 >= 1` frames, and slow frame `j` is fast frame `SlowIndices(T)[j]`. When `T < 4`, `slow` is the input. Every slow frame is a fast frame |
| Extractor.HookSite | src/visual_head/pipeline_visual_head.py:37-44 | `proj` is hooked iff the head has it and it accepts the hook. `projection` is hooked iff the head has no `proj` and `projection` exists and accepts the hook. A model without a head gets no hook |
| Extractor.Captured | src/visual_head/pipeline_visual_head.py:52-53 | with no hook nothing is captured; otherwise the capture is exactly what the hooked layer emitted |
| Extractor.PoolFlat | src/visual_head/pipeline_visual_head.py:56-59 | pooling then flattening a 4-D or 5-D tensor yields a two-dimensional tensor made of that tensor alone, pooled, in a form the library evaluates without raising (pooling of a 4-D or 5-D tensor, then flattening) |
| Extractor.Reduce | src/visual_head/pipeline_visual_head.py:62-69 | a lone tensor is reduced successfully iff it is 2-D, 4-D or 5-D. The result is two-dimensional, made of that tensor alone, pooled iff the tensor has more than two dimensions, and applies pooling and flattening only where the library accepts them. Otherwise the error is the pooling error above two dimensions and the flattening error below |
| Extractor.Dispatch | src/visual_head/pipeline_visual_head.py:52-73 | with nothing captured, the result is the network output (`logits` first). An empty captured list fails. A captured pair succeeds iff both tensors are 4-D or 5-D. It then yields the concatenation of two two-dimensional tensors, the pooled and flattened slow tensor on the left and the pooled and flattened fast tensor on the right, and otherwise the pooling error. Another non-empty list is reduced like its first element, and a bare tensor like itself: pooled iff it has more than two dimensions, then flattened. That fails with the pooling error above two dimensions unless 4-D or 5-D, and with the flattening error below two. Every successful result applies pooling, flattening and concatenation only where the library accepts them. No other failure exists |
| Extractor.Forward | src/visual_head/pipeline_visual_head.py:28-73 | the hook site is `HookSite(net)`, and the hook is still registered afterwards iff it was registered and the forward pass raised. The network's exception propagates. After a pass that returns, the features are `Dispatch` applied to what the hook site captured and the network output; without a hook that is `logits` when present, else the raw output |
| Extractor.ProjShadowsProjection | src/visual_head/pipeline_visual_head.py:39-42 | when the head has `proj`, what `projection` emits never changes the features |
| Pipeline.NetInput | src/visual_head/pipeline_visual_head.py:239-246 | the network input has two pathways: 8 slow frames and 32 fast frames |
| Pipeline.NetInputShape | src/visual_head/pipeline_visual_head.py:239-246 | for any decoded clip, every frame of both pathways is 224x224 and every slow frame is a fast frame |
| Pipeline.ExtractVideo | src/visual_head/pipeline_visual_head.py:239-251 | decoder errors come first and propagate unchanged. Otherwise the result is the extractor's features on the packed, preprocessed clip: the network's own exception, or after a pass that returns, a value or an empty-capture, pooling or flattening error |
| Batch.CountsPartition | src/visual_head/pipeline_visual_head.py:259-285 | the successes and failures of a results list add up to its length, and there are as many success times as success shapes |
| Batch.EmptyStats | src/visual_head/pipeline_visual_head.py:208-214 | the report for an empty discovery has zero total, successes and failures, and empty time and shape lists |
| Batch.SuccessPositions | src/visual_head/pipeline_visual_head.py:259-269 | the positions of the successful records: every success and only successes, in increasing order |
| Batch.SummaryStep | src/visual_head/pipeline_visual_head.py:259-285 | one more video's record, tally and store entry keep the summary of the results so far |
| Batch.DecidesStep | src/visual_head/pipeline_visual_head.py:236-269 | one more video keeps every successful extraction's record decided by the store's answer, and adds that video's entry exactly when it succeeded |
| Batch.Tally | src/visual_head/pipeline_visual_head.py:267-269 | a success increments the success counter and appends the time and the shape to their lists; a failure increments only the failure counter. The total never changes |
| Batch.ProcessVideos | src/visual_head/pipeline_visual_head.py:198-285 | one record per video, in discovery order, carrying its stem and its time. A failed extraction records that error. A successful extraction records a success with the feature shape exactly when the store accepts its name, given the entries written for the earlier videos, and a write failure otherwise. `successful + failed == total_videos == len(videos)`. The shapes and times are those of the successes in order. The store receives one entry per successful record, in order, holding that video's extracted feature under its stem. Empty discovery returns zeros and nothing else |

## Left out

- Pixel arithmetic: `cv2.resize` interpolation, the BGR-to-RGB conversion, `/255.0`, and the 0.45/0.225 mean/std normalisation. They are floating-point library calls that act on each pixel, so they do not affect which frames are kept or the output shape. The resize is a parameter; the colour conversion is folded into the decoder oracle.
- Spacing.Linspace: float rounding of `np.linspace`/`torch.linspace` before truncation is not modelled; the exact rational grid is used.
- The pretrained network (`slowfast_r50`), its loading and the forward pass. The pass is an oracle returning the last activation emitted at `head.proj` and at `head.projection`, plus the final output.
- `adaptive_avg_pool3d`, `flatten`, `torch.cat`, `squeeze` and `unsqueeze` are not computed. Pooling, flattening and concatenation are kept as symbolic terms. `unsqueeze(0)` adds the batch axis. `.squeeze()` drops every axis of size 1; the model does not track it, and the feature's shape is the opaque `shapeOf`.
- Extractor.Dispatch: only the number of dimensions is modelled. A 4-D/5-D check guards pooling, and a check for at least two dimensions guards flattening. Channel counts, axis sizes and the batch-size match that `torch.cat` needs are not modelled, so a pair whose pooled tensors disagree in batch size still succeeds in the model.
- Device moves between CPU and GPU. They do not change values.
- `find_all_videos`, the directory listing printed on empty discovery, h5py file handling, JSON writing, `time.time`/`strftime`, `print`, `argparse` and `main`. They are I/O; discovery becomes the input list of videos, and the clock becomes an oracle.
- The averaged processing time and the "feature dimension" field of the JSON report. They are computed in the I/O layer from lists the model does produce.
- Batch.ProcessVideos: the error text `str(e)` is modelled as an error kind, and the video path as the video value itself.
- Loader.SampleIndices: the cap is a natural number. `np.linspace` raises for a negative cap, and that is not modelled.
- Preprocess.Resample: it requires at least one frame. The loader never returns an empty clip, and the script cannot unpack the shape of an empty array.
- Loader.LoadVideo: the decoded frames are assumed to share one shape. Stacking them with `np.array` at line 108 of the script raises when they differ, which makes that video a failure; the model returns the frames instead.
- Preprocess.PreprocessShape: it assumes that each frame is a rectangular array, as a NumPy frame is. It also assumes that the resize returns 256x256. The script checks the resolution of the whole clip once; the model checks it per frame, which is the same thing for a clip whose frames share one shape.
- Batch.ProcessVideos: nothing is assumed about the store's behaviour on a repeated name; `accepts` may answer either way.

## Code notes

- The slow pathway has `max(1, T // 4)` frames when `T >= 4`, so `T // 4` of them. When `T < 4` it is the whole clip.
- The hook is removed only after a forward pass that returns, since there is no `finally`. `Extractor.Forward` follows this: a pass that raises leaves the hook registered.
- `create_dataset` runs inside the per-video `try`. A store that refuses a name, for instance one already written, turns that video into a failure, and one that accepts it makes the video a success. `Batch.ProcessVideos` states both directions in terms of the `accepts` oracle.
