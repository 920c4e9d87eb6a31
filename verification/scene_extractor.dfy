/** `SceneExtractor.extract` and `_describe_frames`: sample every `fi`-th
    frame, buffer the frames, and caption them a batch at a time. The video
    decoder and the captioning model are oracles: `read(i)` is the frame at
    index `i` (`None` when the read fails) and `caption(frames)` is the
    model's list of captions (`None` when it raises). */
module SceneExtractor {
  import opened Wrappers
  import opened Arith
  import opened PyValue

  /** The placeholder caption `_describe_frames` returns for every frame of a failed batch. */
  const ErrorDescription: string := "Error in description"

  /** Python's `int()` of a float: truncation toward zero. */
  function Truncate(x: real): (r: int)
    ensures x >= 0.0 ==> r >= 0 && r as real <= x < r as real + 1.0
    ensures x < 0.0 ==> r <= 0 && r as real - 1.0 < x <= r as real
  {
    if x >= 0.0 then x.Floor else -((-x).Floor)
  }

  /** `frame_interval = int(fps * self.interval)`: zero exactly when the
      product lies strictly between -1 and 1, and non-zero only for a
      non-zero frame rate, so `frame_count / fps` cannot divide by zero once
      `range` has accepted the step. */
  function FrameInterval(fps: real, interval: real): (fi: int)
    ensures fi == 0 <==> -1.0 < fps * interval < 1.0
    ensures fi != 0 ==> fps != 0.0
  {
    Truncate(fps * interval)
  }

  /** `len(range(0, total, step))`. */
  function SampleCount(total: int, step: int): nat
    requires step != 0
  {
    if step > 0 then (if total <= 0 then 0 else (total - 1) / step + 1)
    else (if total >= 0 then 0 else (-total - 1) / (-step) + 1)
  }

  /** `range(0, total_frames, frame_interval)`: the frame indices visited.
      With a positive step they are the multiples of the step in
      `[0, total)`, increasing; with a negative step the multiples in
      `(total, 0]`, decreasing. Each sign's pair of facts fixes the list. */
  function SampledIndices(total: int, step: int): (r: seq<int>)
    requires step != 0
    ensures |r| == SampleCount(total, step)
    ensures forall k :: 0 <= k < |r| ==> r[k] == k * step
    ensures step > 0 ==> forall x :: x in r <==> 0 <= x < total && x % step == 0
    ensures step > 0 ==> forall k, l :: 0 <= k < l < |r| ==> r[k] < r[l]
    ensures step < 0 ==> forall x :: x in r <==> total < x <= 0 && x % step == 0
    ensures step < 0 ==> forall k, l :: 0 <= k < l < |r| ==> r[k] > r[l]
  {
    var r := seq(SampleCount(total, step), k => k * step);
    if step > 0 then
      UpwardRange(total, step, r);
      r
    else
      DownwardRange(total, step, r);
      r
  }

  /** `r` lists `range(0, total, step)` position by position. */
  predicate IsRange(total: int, step: int, r: seq<int>)
    requires step != 0
  {
    |r| == SampleCount(total, step) && forall k :: 0 <= k < |r| ==> r[k] == k * step
  }

  lemma MulSucc(a: int, b: int)
    ensures a * (b + 1) == a * b + a
  {
  }

  lemma MulMonotone(a: int, b: int, c: nat)
    requires a <= b
    ensures a * c <= b * c
  {
  }

  /** For a positive step, the `k`-th multiple lies below `total` exactly when `k` is a visited position. */
  lemma {:induction false} BelowTotal(total: int, step: int, k: nat)
    requires step > 0
    ensures k * step < total <==> k < SampleCount(total, step)
  {
    if total > 0 {
      var q := (total - 1) / step;
      assert q * step <= total - 1 < q * step + step;
      if k <= q {
        MulMonotone(k, q, step);
      } else {
        MulMonotone(q + 1, k, step);
        assert (q + 1) * step == q * step + step;
      }
    } else {
      MulMonotone(0, k, step);
    }
  }

  /** Euclidean division is unique: quotient and remainder are determined. */
  lemma DivModUnique(x: int, d: int, q: int, m: int)
    requires d > 0 && 0 <= m < d && x == d * q + m
    ensures x / d == q && x % d == m
  {
    var q' := x / d;
    if q' > q {
      MulMonotone(q + 1, q', d);
    } else if q' < q {
      MulMonotone(q' + 1, q, d);
    }
  }

  lemma MultipleOfStep(k: nat, step: int)
    requires step > 0
    ensures (k * step) % step == 0 && (k * step) / step == k
  {
    DivModUnique(k * step, step, k, 0);
  }

  /** A visited index is a multiple of the step in `[0, total)`. */
  lemma SampledIndexIsMultiple(total: int, step: int, k: nat)
    requires step > 0 && k < SampleCount(total, step)
    ensures 0 <= k * step < total && (k * step) % step == 0
  {
    BelowTotal(total, step, k);
    MulMonotone(0, k, step);
    MultipleOfStep(k, step);
  }

  /** A multiple of the step in `[0, total)` is visited, at position `x / step`. */
  lemma MultipleIsSampled(total: int, step: int, x: int)
    requires step > 0 && 0 <= x < total && x % step == 0
    ensures x / step < SampleCount(total, step) && (x / step) * step == x
  {
    var k := x / step;
    assert k * step == x;
    BelowTotal(total, step, k);
  }

  /** With a positive step the range is the multiples of the step below
      `total`, in increasing order. */
  lemma UpwardRange(total: int, step: int, r: seq<int>)
    requires step > 0 && IsRange(total, step, r)
    ensures forall x :: x in r <==> 0 <= x < total && x % step == 0
    ensures forall k, l :: 0 <= k < l < |r| ==> r[k] < r[l]
  {
    forall x | x in r ensures 0 <= x < total && x % step == 0 {
      var k :| 0 <= k < |r| && r[k] == x;
      SampledIndexIsMultiple(total, step, k);
    }
    forall x | 0 <= x < total && x % step == 0 ensures x in r {
      MultipleIsSampled(total, step, x);
      assert r[x / step] == x;
    }
    forall k, l | 0 <= k < l < |r| ensures r[k] < r[l] {
      MulMonotone(k + 1, l, step);
    }
  }

  /** Divisibility by `d` is the same for `x`, for `-x`, and by `-d`. */
  lemma DivisibleMirror(x: int, d: int)
    requires d > 0
    ensures x % d == 0 <==> (-x) % d == 0
    ensures x % (-d) == 0 <==> x % d == 0
  {
    if x % d == 0 {
      DivModUnique(-x, d, -(x / d), 0);
    }
    if (-x) % d == 0 {
      DivModUnique(x, d, -((-x) / d), 0);
    }
    var q := x / (-d);
    var m := x % (-d);
    assert x == (-d) * q + m && 0 <= m < d;
    DivModUnique(x, d, -q, m);
  }

  /** With a negative step the range mirrors the range of `-step` up to
      `-total`: the multiples of the step in `(total, 0]`, decreasing. */
  lemma DownwardRange(total: int, step: int, r: seq<int>)
    requires step < 0 && IsRange(total, step, r)
    ensures forall x :: x in r <==> total < x <= 0 && x % step == 0
    ensures forall k, l :: 0 <= k < l < |r| ==> r[k] > r[l]
  {
    var mirror := seq(|r|, k requires 0 <= k < |r| => -r[k]);
    assert IsRange(-total, -step, mirror) by {
      forall k | 0 <= k < |r| ensures mirror[k] == k * (-step) {
        assert r[k] == k * step;
      }
    }
    UpwardRange(-total, -step, mirror);
    forall x ensures x in r <==> total < x <= 0 && x % step == 0 {
      DivisibleMirror(x, -step);
      if x in r {
        var k :| 0 <= k < |r| && r[k] == x;
        assert mirror[k] == -x;
      }
      if -x in mirror {
        var k :| 0 <= k < |mirror| && mirror[k] == -x;
        assert r[k] == x;
      }
    }
    forall k, l | 0 <= k < l < |r| ensures r[k] > r[l] {
      assert mirror[k] < mirror[l];
    }
  }

  /** For a positive step, the flush test `frame_count + frame_interval >= total_frames`
      holds exactly at the last visited index. */
  lemma LastSampleTest(total: int, step: int, j: nat)
    requires step > 0 && j < SampleCount(total, step)
    ensures j * step + step >= total <==> j == SampleCount(total, step) - 1
  {
    BelowTotal(total, step, j + 1);
    assert (j + 1) * step == j * step + step;
  }

  // ---------------------------------------------------------------------
  // Captioning.

  /** `_describe_frames`: the captioner's output, or one placeholder per frame when it raises. */
  function DescribeFrames<F>(frames: seq<F>, caption: seq<F> -> Option<seq<string>>): (r: seq<string>)
    ensures caption(frames).None? ==> |r| == |frames| && forall i :: 0 <= i < |r| ==> r[i] == ErrorDescription
    ensures caption(frames).Some? ==> r == caption(frames).value
  {
    match caption(frames)
    case Some(descriptions) => descriptions
    case None => seq(|frames|, _ => ErrorDescription)
  }

  /** A frame read from the video, with the index it was read at. */
  datatype Sample<F> = Sample(index: int, frame: F)

  function Frames<F>(samples: seq<Sample<F>>): seq<F> {
    seq(|samples|, i requires 0 <= i < |samples| => samples[i].frame)
  }

  function Indices<F>(samples: seq<Sample<F>>): seq<int> {
    seq(|samples|, i requires 0 <= i < |samples| => samples[i].index)
  }

  /** A scene record: a dict with exactly `start_time` and `description`. */
  function SceneRecord(time: real, description: string): (d: Dict)
    ensures d.Keys == {"start_time", "description"}
    ensures d["start_time"] == Num(time) && d["description"] == Str(description)
  {
    map["start_time" := Num(time), "description" := Str(description)]
  }

  /** The records one flush appends: `zip(frame_times, batch_descriptions)`,
      with `frame_times[i] = frame_count / fps`. */
  function FlushRecords<F>(batch: seq<Sample<F>>, fps: real, caption: seq<F> -> Option<seq<string>>): (r: seq<Dict>)
    requires fps != 0.0
    ensures |r| == Min(|batch|, |DescribeFrames(Frames(batch), caption)|)
    ensures forall i :: 0 <= i < |r| ==> r[i].Keys == {"start_time", "description"}
    ensures forall i :: 0 <= i < |r| ==>
      r[i] == SceneRecord(batch[i].index as real / fps, DescribeFrames(Frames(batch), caption)[i])
  {
    var descriptions := DescribeFrames(Frames(batch), caption);
    seq(Min(|batch|, |descriptions|), i requires 0 <= i < Min(|batch|, |descriptions|) =>
      SceneRecord(batch[i].index as real / fps, descriptions[i]))
  }

  /** The batches concatenated in flush order. */
  function Flatten<T>(batches: seq<seq<T>>): seq<T> {
    if |batches| == 0 then [] else Flatten(batches[..|batches| - 1]) + batches[|batches| - 1]
  }

  /** The scene list after flushing `batches` in order. */
  function RecordsOf<F>(batches: seq<seq<Sample<F>>>, fps: real, caption: seq<F> -> Option<seq<string>>): seq<Dict>
    requires fps != 0.0
  {
    if |batches| == 0 then []
    else RecordsOf(batches[..|batches| - 1], fps, caption) + FlushRecords(batches[|batches| - 1], fps, caption)
  }

  /** Every batch was captioned with one description per frame. */
  ghost predicate CaptionsComplete<F>(batches: seq<seq<Sample<F>>>, caption: seq<F> -> Option<seq<string>>) {
    forall b :: b in batches ==> |DescribeFrames(Frames(b), caption)| == |b|
  }

  /** Every record has exactly the keys `start_time` and `description`. */
  predicate SceneShaped(records: seq<Dict>) {
    forall k :: 0 <= k < |records| ==> records[k].Keys == {"start_time", "description"}
  }

  /** One record per sample, in order, each timed `index / fps`. */
  predicate TimedBy<F>(records: seq<Dict>, samples: seq<Sample<F>>, fps: real)
    requires fps != 0.0
  {
    && |records| == |samples|
    && forall k :: 0 <= k < |records| ==>
         "start_time" in records[k] && records[k]["start_time"] == Num(samples[k].index as real / fps)
  }

  lemma TimedByAppend<F>(r1: seq<Dict>, s1: seq<Sample<F>>, r2: seq<Dict>, s2: seq<Sample<F>>, fps: real)
    requires fps != 0.0 && TimedBy(r1, s1, fps) && TimedBy(r2, s2, fps)
    ensures TimedBy(r1 + r2, s1 + s2, fps)
  {
    forall k | 0 <= k < |r1 + r2|
      ensures "start_time" in (r1 + r2)[k] && (r1 + r2)[k]["start_time"] == Num((s1 + s2)[k].index as real / fps)
    {
      if k < |r1| {
        assert (r1 + r2)[k] == r1[k] && (s1 + s2)[k] == s1[k];
      } else {
        assert (r1 + r2)[k] == r2[k - |r1|] && (s1 + s2)[k] == s2[k - |r1|];
      }
    }
  }

  lemma ShapedAppend(r1: seq<Dict>, r2: seq<Dict>)
    requires SceneShaped(r1) && SceneShaped(r2)
    ensures SceneShaped(r1 + r2)
  {
    forall k | 0 <= k < |r1 + r2| ensures (r1 + r2)[k].Keys == {"start_time", "description"} {
      if k < |r1| {
        assert (r1 + r2)[k] == r1[k];
      } else {
        assert (r1 + r2)[k] == r2[k - |r1|];
      }
    }
  }

  /** A completely captioned batch flushes one record per frame, timed `index / fps`. */
  lemma FlushTimed<F>(batch: seq<Sample<F>>, fps: real, caption: seq<F> -> Option<seq<string>>)
    requires fps != 0.0 && |DescribeFrames(Frames(batch), caption)| == |batch|
    ensures TimedBy(FlushRecords(batch, fps, caption), batch, fps)
  {
  }

  lemma CaptionsCompleteInit<F>(batches: seq<seq<Sample<F>>>, caption: seq<F> -> Option<seq<string>>)
    requires |batches| > 0 && CaptionsComplete(batches, caption)
    ensures CaptionsComplete(batches[..|batches| - 1], caption)
    ensures |DescribeFrames(Frames(batches[|batches| - 1]), caption)| == |batches[|batches| - 1]|
  {
    assert batches[|batches| - 1] in batches;
    forall b | b in batches[..|batches| - 1] ensures |DescribeFrames(Frames(b), caption)| == |b| {
      assert b in batches;
    }
  }

  /** When every batch is captioned completely, the scenes are one record
      per flushed frame, in flush order, timed `index / fps`. Otherwise no
      more records than frames. Every record has exactly a start time and
      a description. */
  lemma {:induction false} RecordsOfFrames<F>(batches: seq<seq<Sample<F>>>, fps: real, caption: seq<F> -> Option<seq<string>>)
    requires fps != 0.0
    ensures |RecordsOf(batches, fps, caption)| <= |Flatten(batches)|
    ensures SceneShaped(RecordsOf(batches, fps, caption))
    ensures CaptionsComplete(batches, caption) ==> TimedBy(RecordsOf(batches, fps, caption), Flatten(batches), fps)
    decreases |batches|
  {
    if |batches| > 0 {
      var init := batches[..|batches| - 1];
      var last := batches[|batches| - 1];
      RecordsOfFrames(init, fps, caption);
      var before := RecordsOf(init, fps, caption);
      var added := FlushRecords(last, fps, caption);
      assert RecordsOf(batches, fps, caption) == before + added;
      assert Flatten(batches) == Flatten(init) + last;
      ShapedAppend(before, added);
      if CaptionsComplete(batches, caption) {
        CaptionsCompleteInit(batches, caption);
        FlushTimed(last, fps, caption);
        TimedByAppend(before, Flatten(init), added, last, fps);
      }
    }
  }

  /** The first visited position whose read fails, or the number of positions when none fails. */
  function FirstFailure<F>(read: int -> Option<F>, indices: seq<int>): (f: nat)
    ensures f <= |indices|
    ensures forall k :: 0 <= k < f ==> read(indices[k]).Some?
    ensures f < |indices| ==> read(indices[f]).None?
  {
    if |indices| == 0 then 0
    else if read(indices[0]).None? then 0
    else 1 + FirstFailure(read, indices[1..])
  }

  /** How many frames reach the captioner with a positive step: all of them
      when every read succeeds; otherwise the whole batches completed before
      the failed read (with a batch size below one, only the final index
      flushes, so none). */
  function FlushedCount(n: nat, failure: nat, batchSize: int): nat
    requires failure <= n
  {
    if failure == n then n
    else if batchSize >= 1 then failure - failure % batchSize
    else 0
  }

  lemma SplitByBatches(f: int, batchSize: int, full: int, pending: int)
    requires batchSize >= 1 && full >= 0 && 0 <= pending < batchSize
    requires f == batchSize * full + pending
    ensures f - f % batchSize == batchSize * full
  {
    DivModUnique(f, batchSize, full, pending);
  }

  lemma IndicesAppend<F>(samples: seq<Sample<F>>, s: Sample<F>)
    ensures Indices(samples + [s]) == Indices(samples) + [s.index]
  {
  }

  lemma RemainderDrop(f: nat, batchSize: int)
    requires batchSize >= 1
    ensures (f - f % batchSize) % batchSize == 0
    ensures f - batchSize < f - f % batchSize <= f
  {
    DivModUnique(f - f % batchSize, batchSize, f / batchSize, 0);
  }

  lemma FlattenAppend<T>(batches: seq<seq<T>>, b: seq<T>)
    ensures Flatten(batches + [b]) == Flatten(batches) + b
  {
    assert (batches + [b])[..|batches|] == batches;
  }

  /** Batch sizes while the loop runs: every batch holds one to `batch_size`
      frames, the buffer stays below `batch_size`, and with a positive step
      only the final index can flush a partial batch. */
  ghost predicate BatchSizes<F>(step: int, batchSize: int, n: nat, j: nat,
                                batches: seq<seq<Sample<F>>>, pending: seq<Sample<F>>)
  {
    && (forall b :: b in batches ==> 1 <= |b| && (batchSize >= 1 ==> |b| <= batchSize))
    && (batchSize >= 1 ==> |pending| < batchSize)
    && (step > 0 && j < n && batchSize >= 1 ==>
         (forall b :: b in batches ==> |b| == batchSize) && |Flatten(batches)| == batchSize * |batches|)
    && (step > 0 && j < n && batchSize < 1 ==> batches == [])
    && (step > 0 && batchSize >= 1 ==> forall k :: 0 <= k < |batches| - 1 ==> |batches[k]| == batchSize)
    && (step > 0 && j == n ==> pending == [])
    && (step > 0 && batchSize < 1 ==> |batches| <= 1)
  }

  /** Every batch holds one to `batch_size` frames (at least one whatever the batch size). */
  ghost predicate BatchesBounded<F>(batches: seq<seq<Sample<F>>>, batchSize: int) {
    forall b :: b in batches ==> 1 <= |b| && (batchSize >= 1 ==> |b| <= batchSize)
  }

  /** The flushed frames are the samples of a prefix of the visited indices
      no longer than the first failed read; with a positive step the prefix
      has `FlushedCount` elements and every batch but the last is full, or,
      with a batch size below one, there is at most one batch (only the
      final index flushes). */
  ghost predicate FlushedPrefix<F>(step: int, total: int, batchSize: int, read: int -> Option<F>,
                                   batches: seq<seq<Sample<F>>>)
    requires step != 0
  {
    var indices := SampledIndices(total, step);
    && |Flatten(batches)| <= FirstFailure(read, indices)
    && Indices(Flatten(batches)) == indices[..|Flatten(batches)|]
    && (step > 0 ==> |Flatten(batches)| == FlushedCount(|indices|, FirstFailure(read, indices), batchSize))
    && (step > 0 && batchSize >= 1 ==> forall k :: 0 <= k < |batches| - 1 ==> |batches[k]| == batchSize)
    && (step > 0 && batchSize < 1 ==> |batches| <= 1)
  }

  /** Every buffered or flushed frame is the frame read at its index. */
  ghost predicate ReadBack<F>(read: int -> Option<F>, batches: seq<seq<Sample<F>>>, pending: seq<Sample<F>>) {
    && (forall b, s :: b in batches && s in b ==> read(s.index) == Some(s.frame))
    && (forall s :: s in pending ==> read(s.index) == Some(s.frame))
  }

  /** The loop invariant after the first `j` visited positions: the flushed
      batches followed by the buffer are the samples of those positions, the
      scene list is the flushed batches' records, and the sizes are as above. */
  ghost predicate Batching<F>(fps: real, step: int, batchSize: int,
                              read: int -> Option<F>, caption: seq<F> -> Option<seq<string>>,
                              indices: seq<int>, j: nat,
                              scenes: seq<Dict>, batches: seq<seq<Sample<F>>>, pending: seq<Sample<F>>)
  {
    && fps != 0.0
    && j <= |indices|
    && scenes == RecordsOf(batches, fps, caption)
    && Indices(Flatten(batches) + pending) == indices[..j]
    && ReadBack(read, batches, pending)
    && BatchSizes(step, batchSize, |indices|, j, batches, pending)
  }

  /** The flush test of the loop after a frame joins the buffer. */
  predicate FlushNow<F>(pending: seq<Sample<F>>, batchSize: int, index: int, step: int, total: int) {
    |pending| == batchSize || index + step >= total
  }

  lemma CoverageStep<F>(indices: seq<int>, j: nat, flushed: seq<Sample<F>>, pending: seq<Sample<F>>, s: Sample<F>)
    requires j < |indices| && s.index == indices[j]
    requires Indices(flushed + pending) == indices[..j]
    ensures Indices(flushed + (pending + [s])) == indices[..j + 1]
  {
    IndicesAppend(flushed + pending, s);
    assert indices[..j + 1] == indices[..j] + [indices[j]];
    assert flushed + (pending + [s]) == flushed + pending + [s];
  }

  /** Buffering the frame read at position `j` without flushing keeps the invariant. */
  lemma BufferStep<F>(fps: real, step: int, total: int, batchSize: int,
                      read: int -> Option<F>, caption: seq<F> -> Option<seq<string>>,
                      indices: seq<int>, j: nat,
                      scenes: seq<Dict>, batches: seq<seq<Sample<F>>>, pending: seq<Sample<F>>)
    requires step != 0 && indices == SampledIndices(total, step)
    requires Batching(fps, step, batchSize, read, caption, indices, j, scenes, batches, pending)
    requires j < |indices| && read(indices[j]).Some?
    requires !FlushNow(pending + [Sample(indices[j], read(indices[j]).value)], batchSize, indices[j], step, total)
    ensures Batching(fps, step, batchSize, read, caption, indices, j + 1, scenes, batches,
                     pending + [Sample(indices[j], read(indices[j]).value)])
  {
    var sample := Sample(indices[j], read(indices[j]).value);
    CoverageStep(indices, j, Flatten(batches), pending, sample);
    if step > 0 {
      LastSampleTest(total, step, j);
    }
  }

  lemma FlushSizes<F>(step: int, total: int, batchSize: int, indices: seq<int>, j: nat,
                      batches: seq<seq<Sample<F>>>, pending: seq<Sample<F>>, s: Sample<F>)
    requires step != 0 && indices == SampledIndices(total, step) && j < |indices|
    requires BatchSizes(step, batchSize, |indices|, j, batches, pending)
    requires FlushNow(pending + [s], batchSize, indices[j], step, total)
    ensures BatchSizes(step, batchSize, |indices|, j + 1, batches + [pending + [s]], [])
  {
    var full := pending + [s];
    var batches' := batches + [full];
    assert 1 <= |full| && (batchSize >= 1 ==> |full| <= batchSize);
    assert forall b :: b in batches' ==> b in batches || b == full;
    if step > 0 {
      LastSampleTest(total, step, j);
      assert j + 1 < |indices| ==> |full| == batchSize;
      if batchSize >= 1 {
        assert forall b :: b in batches ==> |b| == batchSize;
        assert forall k :: 0 <= k < |batches'| - 1 ==> batches'[k] in batches;
        if j + 1 < |indices| {
          FlattenAppend(batches, full);
          MulSucc(batchSize, |batches|);
        }
      }
    }
  }

  lemma FlushReadBack<F>(read: int -> Option<F>, batches: seq<seq<Sample<F>>>, pending: seq<Sample<F>>, s: Sample<F>)
    requires ReadBack(read, batches, pending) && read(s.index) == Some(s.frame)
    ensures ReadBack(read, batches + [pending + [s]], [])
  {
    var full := pending + [s];
    assert forall b :: b in batches + [full] ==> b in batches || b == full;
    assert forall x :: x in full ==> x in pending || x == s;
  }

  /** Buffering the frame read at position `j` and flushing keeps the invariant. */
  lemma FlushStep<F>(fps: real, step: int, total: int, batchSize: int,
                     read: int -> Option<F>, caption: seq<F> -> Option<seq<string>>,
                     indices: seq<int>, j: nat,
                     scenes: seq<Dict>, batches: seq<seq<Sample<F>>>, pending: seq<Sample<F>>)
    requires step != 0 && indices == SampledIndices(total, step)
    requires Batching(fps, step, batchSize, read, caption, indices, j, scenes, batches, pending)
    requires j < |indices| && read(indices[j]).Some?
    requires FlushNow(pending + [Sample(indices[j], read(indices[j]).value)], batchSize, indices[j], step, total)
    ensures
      var full := pending + [Sample(indices[j], read(indices[j]).value)];
      Batching(fps, step, batchSize, read, caption, indices, j + 1,
               scenes + FlushRecords(full, fps, caption), batches + [full], [])
  {
    var sample := Sample(indices[j], read(indices[j]).value);
    var full := pending + [sample];
    var batches' := batches + [full];
    CoverageStep(indices, j, Flatten(batches), pending, sample);
    FlattenAppend(batches, full);
    assert Flatten(batches') + [] == Flatten(batches) + full;
    assert batches'[..|batches|] == batches;
    assert RecordsOf(batches', fps, caption) == RecordsOf(batches, fps, caption) + FlushRecords(full, fps, caption);
    FlushSizes(step, total, batchSize, indices, j, batches, pending, sample);
    FlushReadBack(read, batches, pending, sample);
  }

  /** Once the loop stops, at the end or at the first failed read, the
      flushed frames are a prefix of the visited indices of the length
      `FlushedCount` gives. */
  lemma BatchingExit<F>(fps: real, step: int, total: int, batchSize: int,
                        read: int -> Option<F>, caption: seq<F> -> Option<seq<string>>,
                        indices: seq<int>, j: nat,
                        scenes: seq<Dict>, batches: seq<seq<Sample<F>>>, pending: seq<Sample<F>>)
    requires step != 0 && indices == SampledIndices(total, step)
    requires Batching(fps, step, batchSize, read, caption, indices, j, scenes, batches, pending)
    requires j == FirstFailure(read, indices)
    ensures BatchesBounded(batches, batchSize)
    ensures FlushedPrefix(step, total, batchSize, read, batches)
  {
    assert |Indices(Flatten(batches) + pending)| == j;
    assert Indices(Flatten(batches)) == Indices(Flatten(batches) + pending)[..|Flatten(batches)|];
    if step > 0 && j < |indices| && batchSize >= 1 {
      SplitByBatches(j, batchSize, |batches|, |pending|);
    }
  }

  /** With complete captions, the scenes follow the visited indices one to
      one up to the number of frames flushed. */
  lemma CompleteScenes<F>(fps: real, batchSize: int, caption: seq<F> -> Option<seq<string>>,
                          indices: seq<int>, failure: nat, scenes: seq<Dict>, batches: seq<seq<Sample<F>>>)
    requires fps != 0.0 && failure <= |indices|
    requires scenes == RecordsOf(batches, fps, caption) && CaptionsComplete(batches, caption)
    requires |Flatten(batches)| == FlushedCount(|indices|, failure, batchSize) <= |indices|
    requires Indices(Flatten(batches)) == indices[..|Flatten(batches)|]
    ensures forall k :: 0 <= k < |scenes| ==> "start_time" in scenes[k]
    ensures failure == |indices| ==>
      && |scenes| == |indices|
      && forall k :: 0 <= k < |indices| ==> scenes[k]["start_time"] == Num(indices[k] as real / fps)
    ensures failure < |indices| && batchSize >= 1 ==>
      |scenes| % batchSize == 0 && failure - batchSize < |scenes| <= failure
  {
    RecordsOfFrames(batches, fps, caption);
    var flushed := Flatten(batches);
    assert forall k :: 0 <= k < |flushed| ==> flushed[k].index == Indices(flushed)[k];
    if failure < |indices| && batchSize >= 1 {
      RemainderDrop(failure, batchSize);
    }
  }

  /** One pass of the loop body after a successful read: buffer the frame
      and flush the buffer when it is full or the index is the last one. */
  method VisitFrame<F>(fps: real, step: int, total: int, batchSize: int,
                       read: int -> Option<F>, caption: seq<F> -> Option<seq<string>>,
                       indices: seq<int>, j: nat,
                       scenes: seq<Dict>, batches: seq<seq<Sample<F>>>, pending: seq<Sample<F>>)
    returns (scenes': seq<Dict>, batches': seq<seq<Sample<F>>>, pending': seq<Sample<F>>)
    requires step != 0 && indices == SampledIndices(total, step)
    requires Batching(fps, step, batchSize, read, caption, indices, j, scenes, batches, pending)
    requires j < |indices| && read(indices[j]).Some?
    ensures Batching(fps, step, batchSize, read, caption, indices, j + 1, scenes', batches', pending')
  {
    var index := indices[j];
    var sample := Sample(index, read(index).value);
    if FlushNow(pending + [sample], batchSize, index, step, total) {
      FlushStep(fps, step, total, batchSize, read, caption, indices, j, scenes, batches, pending);
      var full := pending + [sample];
      scenes' := scenes + FlushRecords(full, fps, caption);
      batches' := batches + [full];
      pending' := [];
    } else {
      BufferStep(fps, step, total, batchSize, read, caption, indices, j, scenes, batches, pending);
      scenes' := scenes;
      batches' := batches;
      pending' := pending + [sample];
    }
  }

  /** The sampling loop of `SceneExtractor.extract` (lines 30-50) for a
      usable step: visit `range(0, total, step)`, stop at the first failed
      read, buffer frames, and flush a batch to the captioner when it is
      full or the last index is reached. `batches` lists the frame batches
      handed to `_describe_frames`, in call order. */
  method SampleFrames<F>(fps: real, step: int, total: int, batchSize: int,
                         read: int -> Option<F>, caption: seq<F> -> Option<seq<string>>)
    returns (scenes: seq<Dict>, batches: seq<seq<Sample<F>>>)
    requires step != 0 && fps != 0.0
    // the scenes are the flushed batches' records, in flush order
    ensures scenes == RecordsOf(batches, fps, caption)
    // each batch holds between one and `batch_size` frames, read at their own index
    ensures BatchesBounded(batches, batchSize)
    ensures ReadBack(read, batches, [])
    // the batches partition a prefix of the visited indices, up to the first failed read
    ensures FlushedPrefix(step, total, batchSize, read, batches)
  {
    var indices := SampledIndices(total, step);
    ghost var failure := FirstFailure(read, indices);
    scenes := [];
    var pending: seq<Sample<F>> := [];
    batches := [];
    var j := 0;
    var failed := false;
    while j < |indices| && !failed
      invariant j <= failure
      invariant failed ==> j == failure < |indices|
      invariant Batching(fps, step, batchSize, read, caption, indices, j, scenes, batches, pending)
      decreases |indices| - j, if failed then 0 else 1
    {
      var frame := read(indices[j]);
      if frame.None? {
        failed := true;
      } else {
        scenes, batches, pending := VisitFrame(fps, step, total, batchSize, read, caption, indices, j, scenes, batches, pending);
        j := j + 1;
      }
    }
    BatchingExit(fps, step, total, batchSize, read, caption, indices, j, scenes, batches, pending);
  }

  /** `SceneExtractor.extract` after the capture is open: `range` rejects a
      zero step before anything is read, and otherwise the sampling loop
      runs. */
  method Extract<F>(fps: real, interval: real, total: int, batchSize: int,
                    read: int -> Option<F>, caption: seq<F> -> Option<seq<string>>)
    returns (r: Result<seq<Dict>, PyError>, batches: seq<seq<Sample<F>>>)
    ensures r.Failure? <==> FrameInterval(fps, interval) == 0
    ensures r.Failure? ==> r.error == ValueError && batches == []
    ensures r.Success? ==> fps != 0.0 && r.value == RecordsOf(batches, fps, caption)
    ensures r.Success? ==> forall k :: 0 <= k < |r.value| ==> r.value[k].Keys == {"start_time", "description"}
    ensures forall b :: b in batches ==> 1 <= |b| && (batchSize >= 1 ==> |b| <= batchSize)
    // the batches are the frames read, partitioning a prefix of the visited indices
    ensures r.Success? ==> ReadBack(read, batches, [])
    ensures r.Success? ==> FlushedPrefix(FrameInterval(fps, interval), total, batchSize, read, batches)
    // with complete captions and every read successful: one scene per visited index, in order
    ensures r.Success? && FrameInterval(fps, interval) > 0 && CaptionsComplete(batches, caption) ==>
      var indices := SampledIndices(total, FrameInterval(fps, interval));
      FirstFailure(read, indices) == |indices| ==>
        && |r.value| == |indices|
        && forall k :: 0 <= k < |indices| ==> r.value[k]["start_time"] == Num(indices[k] as real / fps)
    // with complete captions and a failed read: the unflushed frames are lost, whole batches only
    ensures r.Success? && FrameInterval(fps, interval) > 0 && CaptionsComplete(batches, caption) && batchSize >= 1 ==>
      var indices := SampledIndices(total, FrameInterval(fps, interval));
      FirstFailure(read, indices) < |indices| ==>
        |r.value| % batchSize == 0 && FirstFailure(read, indices) - batchSize < |r.value| <= FirstFailure(read, indices)
  {
    var fi := FrameInterval(fps, interval);
    if fi == 0 {
      return Failure(ValueError), [];
    }
    var scenes;
    scenes, batches := SampleFrames(fps, fi, total, batchSize, read, caption);
    RecordsOfFrames(batches, fps, caption);
    if fi > 0 && CaptionsComplete(batches, caption) {
      var indices := SampledIndices(total, fi);
      CompleteScenes(fps, batchSize, caption, indices, FirstFailure(read, indices), scenes, batches);
    }
    r := Success(scenes);
  }
}
