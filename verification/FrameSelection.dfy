/**
 Which frames a run renders, and which worker renders which of them
 (internal/pipeline/renderer.go, countFramesToRender and buildWorkerChunks).

 A run over `total` frames with step `step` renders frames 0, step, 2*step, ... and
 always the last frame, total-1.  The selected frames are numbered 0, 1, 2, ...; these
 sequence numbers are what the reorder buffer sorts by.
 */
module FrameSelection {
  import opened Sequences

  function Min(a: int, b: int): int {
    if a <= b then a else b
  }

  /** How many frames are selected. */
  function SelectedCount(total: int, step: int): nat
    requires step >= 1
  {
    if total <= 0 then 0 else (total + step - 2) / step + 1
  }

  /** The selected frame with sequence number k. */
  function SelectedFrame(total: int, step: int, k: nat): int {
    Min(k * step, total - 1)
  }

  /** All selected frames, by sequence number. */
  function Selected(total: int, step: int): (s: seq<int>)
    requires step >= 1
    ensures |s| == SelectedCount(total, step)
  {
    seq(SelectedCount(total, step), k requires 0 <= k => SelectedFrame(total, step, k))
  }

  /** The last sequence number is the first whose multiple of step reaches total-1. */
  lemma LastSelected(total: int, step: int)
    requires step >= 1 && total >= 1
    ensures (SelectedCount(total, step) - 1) * step >= total - 1
    ensures (SelectedCount(total, step) - 2) * step < total - 1
  {
    var x := total + step - 2;
    var q := x / step;
    assert x == q * step + x % step;
    assert (q - 1) * step == q * step - step;
  }

  lemma MulMonotone(a: int, b: int, c: int)
    requires a <= b && c >= 0
    ensures a * c <= b * c
  {
  }

  /** Only the last selected frame can be off the grid of multiples of step. */
  lemma OnGrid(total: int, step: int, k: nat)
    requires step >= 1 && k < SelectedCount(total, step)
    ensures k < SelectedCount(total, step) - 1 ==> k * step < total - 1 && SelectedFrame(total, step, k) == k * step
    ensures k == SelectedCount(total, step) - 1 ==> SelectedFrame(total, step, k) == total - 1
    ensures 0 <= SelectedFrame(total, step, k) < total
  {
    LastSelected(total, step);
    var n := SelectedCount(total, step);
    if k < n - 1 {
      MulMonotone(k, n - 2, step);
    }
  }

  /**
   The selection is exactly what the documentation of frame stepping promises: the
   multiples of step below total, and the last frame, in strictly ascending order.
   */
  lemma SelectedCharacterised(total: int, step: int)
    requires step >= 1
    ensures var s := Selected(total, step);
            && (forall j, k :: 0 <= j < k < |s| ==> s[j] < s[k])
            && (forall f :: f in s <==> 0 <= f < total && (f % step == 0 || f == total - 1))
  {
    var s := Selected(total, step);
    forall j, k | 0 <= j < k < |s| ensures s[j] < s[k] {
      OnGrid(total, step, j);
      OnGrid(total, step, k);
      MulMonotone(j + 1, k, step);
    }
    forall f ensures f in s <==> 0 <= f < total && (f % step == 0 || f == total - 1) {
      if f in s {
        var k: nat :| k < |s| && s[k] == f;
        OnGrid(total, step, k);
        if f == k * step {
          MultipleHasNoRemainder(k, step);
        }
      }
      if 0 <= f < total && (f % step == 0 || f == total - 1) {
        var k := PositionOf(total, step, f);
      }
    }
  }

  lemma PositionOf(total: int, step: int, f: int) returns (k: nat)
    requires step >= 1 && 0 <= f < total && (f % step == 0 || f == total - 1)
    ensures k < SelectedCount(total, step) && Selected(total, step)[k] == f
  {
    LastSelected(total, step);
    if f == total - 1 {
      k := SelectedCount(total, step) - 1;
    } else {
      k := f / step;
      assert f == k * step;
      if k > SelectedCount(total, step) - 1 {
        MulMonotone(SelectedCount(total, step) - 1, k, step);
      }
    }
  }

  lemma MultipleHasNoRemainder(k: int, step: int)
    requires step >= 1
    ensures (k * step) % step == 0
  {
    var x := k * step;
    var q, r := x / step, x % step;
    assert x == q * step + r;
    if k > q {
      MulMonotone(q + 1, k, step);
    } else if k < q {
      MulMonotone(k, q, step);
      MulMonotone(k + 1, q, step);
    }
  }

  method CountFramesToRender(totalFrames: int, step: int) returns (n: int)
    ensures n == SelectedCount(totalFrames, if step <= 1 then 1 else step)
  {
    if totalFrames <= 0 {
      return 0;
    }
    if step <= 1 {
      return totalFrames;
    }
    n := 0;
    var i := 0;
    while i < totalFrames
      invariant n >= 0 && i == n * step
      invariant n > 0 ==> (n - 1) * step <= totalFrames - 1
    {
      n := n + 1;
      i := i + step;
    }
    GridCount(totalFrames, step, n);
    if (totalFrames - 1) % step != 0 {
      n := n + 1;
    }
  }

  /** The multiples of step below total, plus the last frame if it is not one of them. */
  lemma GridCount(total: int, step: int, n: int)
    requires step >= 1 && total >= 1 && (n - 1) * step <= total - 1 < n * step
    ensures SelectedCount(total, step) == if (total - 1) % step != 0 then n + 1 else n
  {
    var r := (total - 1) % step;
    assert total - 1 == (total - 1) / step * step + r;
    assert n * step == (n - 1) * step + step;
    QuotientUnique(total - 1, (total - 1) / step, n - 1, step);
    LastSelected(total, step);
    if r != 0 {
      CountIsUnique(n + 1, SelectedCount(total, step), total, step);
    } else {
      assert (n - 2) * step == (n - 1) * step - step;
      CountIsUnique(n, SelectedCount(total, step), total, step);
    }
  }

  lemma QuotientUnique(x: int, p: int, q: int, step: int)
    requires step >= 1
    requires p * step <= x < p * step + step
    requires q * step <= x < q * step + step
    ensures p == q
  {
    if p < q {
      MulMonotone(p + 1, q, step);
    } else if q < p {
      MulMonotone(q + 1, p, step);
    }
  }

  lemma CountIsUnique(n: int, c: int, total: int, step: int)
    requires step >= 1
    requires (n - 1) * step >= total - 1 > (n - 2) * step
    requires (c - 1) * step >= total - 1 > (c - 2) * step
    ensures n == c
  {
    if n < c {
      MulMonotone(n - 1, c - 2, step);
    } else if c < n {
      MulMonotone(c - 1, n - 2, step);
    }
  }

  // ----- Splitting the selected frames into worker chunks -----

  /** First sequence number of worker w's chunk, when n frames are split among `workers`. */
  function ChunkStart(n: nat, workers: int, w: int): int
    requires workers >= 1
  {
    w * (n / workers) + Min(w, n % workers)
  }

  function ChunkSize(n: nat, workers: int, w: int): int
    requires workers >= 1
  {
    n / workers + if w < n % workers then 1 else 0
  }

  function Chunk(total: int, step: int, workers: int, w: int): (c: seq<int>)
    requires step >= 1 && 0 <= w < workers
    ensures |c| == ChunkSize(SelectedCount(total, step), workers, w)
  {
    var n := SelectedCount(total, step);
    ChunksInRange(n, workers, w);
    Selected(total, step)[ChunkStart(n, workers, w)..ChunkStart(n, workers, w + 1)]
  }

  /** Consecutive chunks meet, sizes differ by at most one, and larger chunks come first. */
  lemma ChunkStep(n: nat, workers: int, w: int)
    requires 0 <= w < workers
    ensures ChunkStart(n, workers, w + 1) == ChunkStart(n, workers, w) + ChunkSize(n, workers, w)
    ensures n / workers <= ChunkSize(n, workers, w) <= n / workers + 1
  {
    assert (w + 1) * (n / workers) == w * (n / workers) + n / workers;
  }

  /** The workers that get one more are the first ones. */
  lemma ChunkSizesDescend(n: nat, workers: int, v: int, w: int)
    requires 0 <= v <= w < workers
    ensures ChunkSize(n, workers, v) >= ChunkSize(n, workers, w)
  {
  }

  lemma ChunkEnds(n: nat, workers: int)
    requires workers >= 1
    ensures ChunkStart(n, workers, 0) == 0
    ensures ChunkStart(n, workers, workers) == n
  {
    assert n == workers * (n / workers) + n % workers;
  }

  lemma ChunkStartsAscend(n: nat, workers: int, v: int, w: int)
    requires 0 <= v <= w <= workers && workers >= 1
    ensures ChunkStart(n, workers, v) <= ChunkStart(n, workers, w)
  {
    MulMonotone(v, w, n / workers);
  }

  lemma ChunksInRange(n: nat, workers: int, w: int)
    requires 0 <= w < workers
    ensures 0 <= ChunkStart(n, workers, w) <= ChunkStart(n, workers, w + 1) <= n
    ensures ChunkStart(n, workers, w + 1) == ChunkStart(n, workers, w) + ChunkSize(n, workers, w)
  {
    ChunkStep(n, workers, w);
    ChunkEnds(n, workers);
    ChunkStartsAscend(n, workers, 0, w);
    ChunkStartsAscend(n, workers, w + 1, workers);
  }

  ghost predicate InChunk(n: nat, workers: int, w: int, k: int)
    requires workers >= 1
  {
    0 <= w < workers && ChunkStart(n, workers, w) <= k < ChunkStart(n, workers, w + 1)
  }

  /** Every sequence number belongs to one worker ... */
  lemma {:induction false} OwnerExists(n: nat, workers: int, k: nat, upTo: nat) returns (w: int)
    requires 1 <= upTo <= workers && k < ChunkStart(n, workers, upTo)
    ensures InChunk(n, workers, w, k)
  {
    if ChunkStart(n, workers, upTo - 1) <= k {
      w := upTo - 1;
    } else {
      ChunkEnds(n, workers);
      w := OwnerExists(n, workers, k, upTo - 1);
    }
  }

  /** ... and to one only. */
  lemma OwnerUnique(n: nat, workers: int, v: int, w: int, k: int)
    requires workers >= 1 && InChunk(n, workers, v, k) && InChunk(n, workers, w, k)
    ensures v == w
  {
    if v < w {
      ChunkStartsAscend(n, workers, v + 1, w);
    } else if w < v {
      ChunkStartsAscend(n, workers, w + 1, v);
    }
  }

  ghost predicate HasOwner(n: nat, workers: int, k: int)
    requires workers >= 1
  {
    exists w :: InChunk(n, workers, w, k)
  }

  /** baseSeq + localSeq numbers the chunks' frames by 0..n-1, each number used once. */
  lemma SequenceNumbersBijective(n: nat, workers: int)
    requires workers >= 1
    ensures forall k :: 0 <= k < n <==> HasOwner(n, workers, k)
    ensures forall v, w, k :: InChunk(n, workers, v, k) && InChunk(n, workers, w, k) ==> v == w
  {
    ChunkEnds(n, workers);
    forall k ensures 0 <= k < n <==> HasOwner(n, workers, k) {
      if 0 <= k < n {
        var w := OwnerExists(n, workers, k, workers);
      }
      if HasOwner(n, workers, k) {
        var w :| InChunk(n, workers, w, k);
        ChunksInRange(n, workers, w);
      }
    }
    forall v, w, k | InChunk(n, workers, v, k) && InChunk(n, workers, w, k) ensures v == w {
      OwnerUnique(n, workers, v, w, k);
    }
  }

  /** Concatenating the chunks in worker order gives back the selected frames. */
  lemma {:induction false} ChunksConcatenate(total: int, step: int, workers: int, chunks: seq<seq<int>>)
    requires step >= 1 && |chunks| <= workers && workers >= 1
    requires forall w :: 0 <= w < |chunks| ==> chunks[w] == Chunk(total, step, workers, w)
    ensures 0 <= ChunkStart(SelectedCount(total, step), workers, |chunks|) <= SelectedCount(total, step)
    ensures Flatten(chunks) == Selected(total, step)[..ChunkStart(SelectedCount(total, step), workers, |chunks|)]
  {
    var n := SelectedCount(total, step);
    ChunkEnds(n, workers);
    if chunks != [] {
      var w := |chunks| - 1;
      ChunksConcatenate(total, step, workers, chunks[..w]);
      ChunksInRange(n, workers, w);
      var s := Selected(total, step);
      var mid := ChunkStart(n, workers, w);
      var end := ChunkStart(n, workers, w + 1);
      assert s[..mid] + s[mid..end] == s[..end];
    }
  }

  lemma ChunkIs(total: int, step: int, workers: int, w: int)
    requires step >= 1 && 0 <= w < workers
    ensures var n := SelectedCount(total, step);
            var start, size := ChunkStart(n, workers, w), ChunkSize(n, workers, w);
            && size == n / workers + (if w < n % workers then 1 else 0)
            && 0 <= size && 0 <= start && start + size == ChunkStart(n, workers, w + 1) <= n
            && Chunk(total, step, workers, w) == Selected(total, step)[start..start + size]
  {
    ChunksInRange(SelectedCount(total, step), workers, w);
  }

  /** Earlier chunks are at least as long as later ones, by at most one frame. */
  ghost predicate FirstGetMore(chunks: seq<seq<int>>) {
    forall v, w :: 0 <= v <= w < |chunks| ==> |chunks[w]| <= |chunks[v]| <= |chunks[w]| + 1
  }

  lemma ChunksAreBalanced(total: int, step: int, workers: int, chunks: seq<seq<int>>)
    requires step >= 1 && |chunks| == workers >= 1
    requires forall w :: 0 <= w < workers ==> chunks[w] == Chunk(total, step, workers, w)
    ensures FirstGetMore(chunks)
  {
    var n := SelectedCount(total, step);
    forall v, w | 0 <= v <= w < workers
      ensures ChunkSize(n, workers, w) <= ChunkSize(n, workers, v) <= ChunkSize(n, workers, w) + 1
    {
      ChunkSizesDescend(n, workers, v, w);
    }
  }

  method BuildWorkerChunks(totalFrames: int, step: int, workersArg: int)
      returns (chunks: seq<seq<int>>, offsets: seq<int>)
    requires step >= 1
    ensures var workers := if workersArg <= 0 then 1 else workersArg;
            var n := SelectedCount(totalFrames, step);
            && |chunks| == |offsets| == workers
            && (forall w :: 0 <= w < workers ==> chunks[w] == Chunk(totalFrames, step, workers, w))
            && (forall w :: 0 <= w < workers ==> offsets[w] == ChunkStart(n, workers, w))
            && FirstGetMore(chunks)
            && Flatten(chunks) == Selected(totalFrames, step)
  {
    hide SelectedCount, SelectedFrame, ChunkStart, Chunk, ChunkSize, FirstGetMore;
    var workers := if workersArg <= 0 then 1 else workersArg;
    var frames := CollectFrames(totalFrames, step);
    ghost var n := SelectedCount(totalFrames, step);

    var chunkOf := new seq<int>[workers](_ => []);
    var offsetOf := new int[workers](_ => 0);
    ChunkEnds(n, workers);
    if |frames| == 0 {
      chunks, offsets := chunkOf[..], offsetOf[..];
      forall w | 0 <= w < workers
        ensures chunks[w] == Chunk(totalFrames, step, workers, w) && offsets[w] == ChunkStart(n, workers, w)
      {
        ChunksInRange(n, workers, w);
        ChunkIs(totalFrames, step, workers, w);
      }
      ChunksConcatenate(totalFrames, step, workers, chunks);
      ChunksAreBalanced(totalFrames, step, workers, chunks);
      return;
    }
    var base := |frames| / workers;
    var extra := |frames| % workers;
    var idx, seqNo := 0, 0;
    for w := 0 to workers
      invariant idx == seqNo == ChunkStart(n, workers, w)
      invariant forall v :: 0 <= v < w ==> chunkOf[v] == Chunk(totalFrames, step, workers, v)
      invariant forall v :: 0 <= v < w ==> offsetOf[v] == ChunkStart(n, workers, v)
      invariant forall v :: w <= v < workers ==> chunkOf[v] == []
    {
      ChunkIs(totalFrames, step, workers, w);
      var size := base;
      if w < extra {
        size := size + 1;
      }
      offsetOf[w] := seqNo;
      if size == 0 {
        continue;
      }
      chunkOf[w] := chunkOf[w] + frames[idx..idx + size];
      idx := idx + size;
      seqNo := seqNo + size;
    }
    chunks, offsets := chunkOf[..], offsetOf[..];
    ChunksConcatenate(totalFrames, step, workers, chunks);
    ChunksAreBalanced(totalFrames, step, workers, chunks);
  }

  /** The frame-collecting prologue of buildWorkerChunks. */
  method CollectFrames(totalFrames: int, step: int) returns (frames: seq<int>)
    requires step >= 1
    ensures frames == Selected(totalFrames, step)
  {
    frames := [];
    var i := 0;
    while i < totalFrames
      invariant i == |frames| * step
      invariant |frames| > 0 ==> (|frames| - 1) * step <= totalFrames - 1
      invariant forall k :: 0 <= k < |frames| ==> frames[k] == k * step && k * step <= totalFrames - 1
    {
      frames := frames + [i];
      i := i + step;
    }
    if totalFrames > 0 {
      GridIsSelected(totalFrames, step, frames);
      if |frames| > 0 && frames[|frames| - 1] != totalFrames - 1 {
        frames := frames + [totalFrames - 1];
      }
    }
  }

  /** The grid, with the last frame if that is off it, is the selection. */
  lemma GridIsSelected(total: int, step: int, grid: seq<int>)
    requires step >= 1 && total >= 1 && (|grid| - 1) * step <= total - 1 < |grid| * step
    requires forall k :: 0 <= k < |grid| ==> grid[k] == k * step
    ensures |grid| > 0
    ensures Selected(total, step) == if grid[|grid| - 1] != total - 1 then grid + [total - 1] else grid
  {
    hide SelectedCount;
    GridCount(total, step, |grid|);
    GridCovers(total, step, |grid|);
    forall k | 0 <= k < |grid| ensures SelectedFrame(total, step, k) == grid[k] {
      MulMonotone(k, |grid| - 1, step);
    }
    assert |grid| * step >= total - 1;
  }

  /** Whether the last frame lies on the grid decides whether it has to be added. */
  lemma GridCovers(total: int, step: int, n: int)
    requires step >= 1 && total >= 1 && (n - 1) * step <= total - 1 < n * step
    ensures (total - 1) % step == 0 <==> (n - 1) * step == total - 1
    ensures n >= 1
  {
    assert total - 1 == (total - 1) / step * step + (total - 1) % step;
    assert n * step == (n - 1) * step + step;
    QuotientUnique(total - 1, (total - 1) / step, n - 1, step);
    if n < 1 {
      MulMonotone(n, 0, step);
    }
  }
}
