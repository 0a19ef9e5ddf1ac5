/**
 Distributed rendering (internal/distributed/shards.go): the frames of a video are cut into
 contiguous shards, each rendered on its own with its start as frame offset.
 */
module Shards {
  import opened Wrappers
  import opened Frames
  import opened FrameSelection
  import opened Pipeline
  import opened PipelineTheorems
  import opened Writer
  import opened EndToEnd

  datatype Shard = Shard(index: int, start: int, end: int) {
    function FrameCount(): int {
      if end < start then 0 else end - start + 1
    }
  }

  datatype ShardError = TotalFramesNotPositive | ShardCountNotPositive

  /** Shard i when n frames are cut into `count` shards. */
  function ShardAt(n: nat, count: int, i: int): Shard
    requires count >= 1
  {
    Shard(i, ChunkStart(n, count, i), ChunkStart(n, count, i + 1) - 1)
  }

  /** The number of shards really built. */
  function ShardTotal(totalFrames: int, shardCount: int): int {
    Min(shardCount, totalFrames)
  }

  /**
   In the order of their indices 0, 1, 2, ... the shards meet without gap or overlap, from frame
   0 to the last one; none is empty, and the longer ones, by one frame, come first.
   */
  ghost predicate IsTiling(shards: seq<Shard>, total: int) {
    && shards != []
    && shards[0].start == 0 && shards[|shards| - 1].end == total - 1
    && (forall i :: 0 <= i < |shards| ==> shards[i].index == i && shards[i].start <= shards[i].end)
    && (forall i :: 0 <= i < |shards| - 1 ==> shards[i + 1].start == shards[i].end + 1)
    && (forall i, j :: 0 <= i <= j < |shards| ==>
          shards[j].FrameCount() <= shards[i].FrameCount() <= shards[j].FrameCount() + 1)
  }

  method BuildShards(totalFrames: int, shardCountArg: int) returns (r: Result<seq<Shard>, ShardError>)
    ensures totalFrames <= 0 ==> r == Failure(TotalFramesNotPositive)
    ensures totalFrames > 0 && shardCountArg <= 0 ==> r == Failure(ShardCountNotPositive)
    ensures totalFrames > 0 && shardCountArg > 0 ==>
              && r.Success?
              && |r.value| == ShardTotal(totalFrames, shardCountArg)
              && (forall i :: 0 <= i < |r.value| ==> r.value[i] == ShardAt(totalFrames, |r.value|, i))
              && IsTiling(r.value, totalFrames)
              && |r.value| == if shardCountArg <= totalFrames then shardCountArg else totalFrames
  {
    if totalFrames <= 0 {
      return Failure(TotalFramesNotPositive);
    }
    if shardCountArg <= 0 {
      return Failure(ShardCountNotPositive);
    }
    var shardCount := shardCountArg;
    if shardCount > totalFrames {
      shardCount := totalFrames;
    }
    hide IsTiling, ChunkStart;
    var base := totalFrames / shardCount;
    var extra := totalFrames % shardCount;
    var shards := [];
    var start := 0;
    ChunkEnds(totalFrames, shardCount);
    for i := 0 to shardCount
      invariant |shards| == i && start == ChunkStart(totalFrames, shardCount, i)
      invariant forall j :: 0 <= j < i ==> shards[j] == ShardAt(totalFrames, shardCount, j)
    {
      ChunkStep(totalFrames, shardCount, i);
      var size := base;
      if i < extra {
        size := size + 1;
      }
      var end := start + size - 1;
      shards := shards + [Shard(i, start, end)];
      start := end + 1;
    }
    ShardsTile(totalFrames, shardCount);
    assert shards == AllShards(totalFrames, shardCount);
    return Success(shards);
  }

  function AllShards(total: nat, count: int): (shards: seq<Shard>)
    requires count >= 1
    ensures |shards| == count
  {
    seq(count, i => ShardAt(total, count, i))
  }

  /** The shards tile 0..total-1, and their sizes are those of an even split. */
  lemma ShardsTile(total: nat, count: int)
    requires 1 <= count <= total
    ensures IsTiling(AllShards(total, count), total)
    ensures forall i :: 0 <= i < count ==>
              total / count <= ShardAt(total, count, i).FrameCount() <= total / count + 1
  {
    hide ChunkStart, ChunkSize;
    ChunkEnds(total, count);
    AtLeastOneEach(total, count);
    forall i | 0 <= i < count
      ensures ShardAt(total, count, i).FrameCount() == ChunkSize(total, count, i)
              && total / count <= ChunkSize(total, count, i) <= total / count + 1
    {
      ChunkStep(total, count, i);
    }
    forall i, j | 0 <= i <= j < count ensures ChunkSize(total, count, j) <= ChunkSize(total, count, i) {
      ChunkSizesDescend(total, count, i, j);
    }
  }

  /**
   The index says where a shard belongs: however the shards come back, listing them by index
   gives the plan again.
   */
  lemma IndexOrderIsPlan(total: nat, count: int, shards: seq<Shard>)
    requires 1 <= count <= total && multiset(shards) == multiset(AllShards(total, count))
    requires forall i, j :: 0 <= i < j < |shards| ==> shards[i].index <= shards[j].index
    ensures shards == AllShards(total, count)
  {
    var plan := AllShards(total, count);
    assert |multiset(shards)| == |shards| && |multiset(plan)| == |plan|;
    forall i | 0 <= i < |shards| ensures 0 <= shards[i].index < count && shards[i] == plan[shards[i].index] {
      assert shards[i] in multiset(shards);
      assert shards[i] in plan;
    }
    forall i, j | 0 <= i < j < |shards| ensures shards[i].index < shards[j].index {
      if shards[i].index == shards[j].index {
        TwiceInList(shards, i, j);
        OnceInPlan(total, count, shards[i].index);
      }
    }
    forall i | 0 <= i < count ensures shards[i].index == i {
      IndexAtLeast(shards, i);
      IndexAtMost(shards, count, i);
    }
  }

  lemma TwiceInList(shards: seq<Shard>, i: int, j: int)
    requires 0 <= i < j < |shards| && shards[i] == shards[j]
    ensures multiset(shards)[shards[i]] >= 2
  {
    assert shards == shards[..j] + [shards[j]] + shards[j + 1..];
    assert shards[..j][i] == shards[i];
    assert shards[i] in multiset(shards[..j]);
  }

  lemma OnceInPlan(total: nat, count: int, k: int)
    requires count >= 1 && 0 <= k < count
    ensures multiset(AllShards(total, count))[ShardAt(total, count, k)] == 1
  {
    var plan := AllShards(total, count);
    assert plan == plan[..k] + [plan[k]] + plan[k + 1..];
    assert plan[k] !in multiset(plan[..k]) && plan[k] !in multiset(plan[k + 1..]);
  }

  /** Strictly ascending indices below count, as many as count, are 0, 1, 2, and so on: no less, and no more. */
  lemma {:induction false} IndexAtLeast(shards: seq<Shard>, i: nat)
    requires i < |shards| && shards[0].index >= 0
    requires forall k, j :: 0 <= k < j < |shards| ==> shards[k].index < shards[j].index
    ensures shards[i].index >= i
  {
    if i > 0 {
      IndexAtLeast(shards, i - 1);
    }
  }

  lemma {:induction false} IndexAtMost(shards: seq<Shard>, count: int, i: nat)
    requires i < |shards| == count && shards[count - 1].index < count
    requires forall k, j :: 0 <= k < j < |shards| ==> shards[k].index < shards[j].index
    ensures shards[i].index <= i
    decreases count - i
  {
    if i + 1 < count {
      IndexAtMost(shards, count, i + 1);
    }
  }

  lemma AtLeastOneEach(total: nat, count: int)
    requires 1 <= count <= total
    ensures total / count >= 1
  {
    assert total == total / count * count + total % count;
  }

  /**
   With step 1 a worker's chunk is a shard: for as many workers as there are shards, chunk w
   lists the frames of shard w; workers beyond the number of frames, which BuildShards would
   clamp away, get nothing.
   */
  lemma ChunksAreShards(total: nat, workers: int, w: int)
    requires total >= 1 && 0 <= w < workers
    ensures var count := ShardTotal(total, workers);
            && (w < count ==>
                  var shard := ShardAt(total, count, w);
                  && |Chunk(total, 1, workers, w)| == shard.FrameCount()
                  && forall j :: 0 <= j < shard.FrameCount() ==> Chunk(total, 1, workers, w)[j] == shard.start + j)
            && (w >= count ==> Chunk(total, 1, workers, w) == [])
  {
    var count := ShardTotal(total, workers);
    ClampedStarts(total, workers, w);
    ChunksInRange(total, workers, w);
    if w < count {
      ClampedStarts(total, workers, w + 1);
      var start := ChunkStart(total, workers, w);
      forall j | 0 <= j < ChunkSize(total, workers, w) ensures Chunk(total, 1, workers, w)[j] == start + j {
        OnGrid(total, 1, start + j);
      }
    }
  }

  lemma ClampedStarts(total: nat, workers: int, w: int)
    requires total >= 1 && 0 <= w <= workers && workers >= 1
    ensures var count := ShardTotal(total, workers);
            && (w <= count ==> ChunkStart(total, workers, w) == ChunkStart(total, count, w))
            && (w >= count ==> ChunkStart(total, workers, w) == total)
  {
    if workers > total {
      assert total / workers == 0 && total % workers == total by {
        SmallQuotient(total, workers);
      }
      assert total / total == 1 && total % total == 0;
    } else {
      ChunkEnds(total, workers);
    }
  }

  lemma SmallQuotient(x: nat, y: int)
    requires x < y
    ensures x / y == 0 && x % y == x
  {
  }

  // ----- Rendering the shards and concatenating them -----

  /** The render of shard i: --frames its frame count, --frame-offset its start. */
  function ShardConfig(c: Config, count: int, i: int, workers: int): (d: Config)
    requires ValidConfig(c) && 1 <= count <= c.total && 0 <= i < count
    ensures ValidConfig(d)
  {
    var shard := ShardAt(c.total, count, i);
    MakeConfig(shard.FrameCount(), c.step, workers, shard.start, c.keepFrames, c.pathOf, c.image)
  }

  /** The shards' videos one after the other. */
  function ShardedVideo(c: Config, count: int, workers: int -> int, upTo: nat): seq<Bytes>
    requires ValidConfig(c) && 1 <= count <= c.total && upTo <= count
  {
    if upTo == 0 then []
    else ShardedVideo(c, count, workers, upTo - 1) + Video(ShardConfig(c, count, upTo - 1, workers(upTo - 1)))
  }

  /** The sharded video is as long as the frames of its shards. */
  lemma {:induction false} ShardedVideoLength(c: Config, count: int, workers: int -> int, upTo: nat)
    requires ValidConfig(c) && 1 <= count <= c.total && upTo <= count
    ensures |ShardedVideo(c, count, workers, upTo)| == ChunkStart(c.total, count, upTo)
  {
    hide ChunkStart;
    ChunkEnds(c.total, count);
    if upTo > 0 {
      ShardedVideoLength(c, count, workers, upTo - 1);
      ChunksInRange(c.total, count, upTo - 1);
      assert ShardConfig(c, count, upTo - 1, workers(upTo - 1)).total == ShardAt(c.total, count, upTo - 1).FrameCount();
    }
  }

  /** Position ChunkStart(i) + j of the sharded video is position j of shard i's own video. */
  lemma {:induction false} ShardedVideoAt(c: Config, count: int, workers: int -> int, upTo: nat, i: int, j: int)
    requires ValidConfig(c) && 1 <= count <= c.total && upTo <= count
    requires 0 <= i < upTo && 0 <= j < ShardAt(c.total, count, i).FrameCount()
    ensures var k := ChunkStart(c.total, count, i) + j;
            && 0 <= k < |ShardedVideo(c, count, workers, upTo)|
            && ShardedVideo(c, count, workers, upTo)[k] == ShardImage(c, count, i, j)
  {
    hide ChunkStart;
    var before := ShardedVideo(c, count, workers, upTo - 1);
    ShardedVideoLength(c, count, workers, upTo - 1);
    ShardedVideoLength(c, count, workers, upTo);
    ChunksInRange(c.total, count, i);
    if i == upTo - 1 {
      var d := ShardConfig(c, count, i, workers(i));
      ShardStart(c, count, i, workers(i));
      assert Video(d)[j] == ShardImage(c, count, i, j);
      assert ShardedVideo(c, count, workers, upTo)[|before| + j] == Video(d)[j];
    } else {
      ShardedVideoAt(c, count, workers, upTo - 1, i, j);
    }
  }

  lemma ShardStart(c: Config, count: int, i: int, workers: int)
    requires ValidConfig(c) && 1 <= count <= c.total && 0 <= i < count
    ensures var d := ShardConfig(c, count, i, workers);
            && d.total == ShardAt(c.total, count, i).FrameCount()
            && d.offset == ShardAt(c.total, count, i).start == ChunkStart(c.total, count, i)
            && d.step == c.step && d.image == c.image
  {
    ChunksInRange(c.total, count, i);
  }

  /** What shard i shows at its position j. */
  function ShardImage(c: Config, count: int, i: int, j: int): Bytes
    requires ValidConfig(c) && 1 <= count <= c.total
  {
    var shard := ShardAt(c.total, count, i);
    c.image(HoldFrame(shard.FrameCount(), c.step, j) + shard.start)
  }

  /**
   Distributed rendering is plain rendering, for every number of shards and of workers in
   each, when every frame is rendered (step 1).
   */
  lemma ShardingPreservesVideo(c: Config, count: int, workers: int -> int)
    requires ValidConfig(c) && c.offset == 0 && c.step == 1 && 1 <= count <= c.total
    ensures ShardedVideo(c, count, workers, count) == Video(c)
  {
    hide ChunkStart;
    ShardedVideoLength(c, count, workers, count);
    ChunkEnds(c.total, count);
    forall k | 0 <= k < c.total ensures ShardedVideo(c, count, workers, count)[k] == Video(c)[k] {
      var i := OwnerExists(c.total, count, k, count);
      ChunksInRange(c.total, count, i);
      var j := k - ChunkStart(c.total, count, i);
      ShardedVideoAt(c, count, workers, count, i, j);
      assert HoldFrame(c.total, 1, k) == k && HoldFrame(ShardAt(c.total, count, i).FrameCount(), 1, j) == j;
    }
  }

  /**
   With frame stepping it is not: each shard ends on its own last frame and restarts the
   grid.  On a page whose frames all differ, sharding keeps the video if and only if every
   frame is rendered anyway, or there is one shard, or there are just two frames.
   */
  lemma ShardingPreservesVideoIff(c: Config, count: int, workers: int -> int)
    requires ValidConfig(c) && c.offset == 0 && 1 <= count <= c.total
    requires forall f, g :: c.image(f) == c.image(g) ==> f == g
    ensures ShardedVideo(c, count, workers, count) == Video(c) <==> c.step == 1 || count == 1 || c.total == 2
  {
    if c.step == 1 {
      ShardingPreservesVideo(c, count, workers);
    } else if count == 1 || c.total == 2 {
      SmallShardings(c, count, workers);
    } else {
      SteppedShardsDiffer(c, count, workers);
    }
  }

  lemma SmallShardings(c: Config, count: int, workers: int -> int)
    requires ValidConfig(c) && c.offset == 0 && 1 <= count <= c.total
    requires count == 1 || c.total == 2
    ensures ShardedVideo(c, count, workers, count) == Video(c)
  {
    hide ChunkStart;
    ShardedVideoLength(c, count, workers, count);
    ChunkEnds(c.total, count);
    if count == 1 {
      forall k | 0 <= k < c.total ensures ShardedVideo(c, count, workers, count)[k] == Video(c)[k] {
        ShardedVideoAt(c, count, workers, count, 0, k);
      }
    } else {
      TwoSingleFrames();
      ShardedVideoAt(c, count, workers, count, 0, 0);
      ShardedVideoAt(c, count, workers, count, 1, 0);
      SmallQuotient(0, c.step);
    }
  }

  lemma TwoSingleFrames()
    ensures ShardAt(2, 2, 0) == Shard(0, 0, 0) && ShardAt(2, 2, 1) == Shard(1, 1, 1)
  {
    hide ChunkStart, ChunkSize;
    ChunkEnds(2, 2);
    ChunkStep(2, 2, 0);
    ChunkStep(2, 2, 1);
  }

  /** Around the first shard boundary one of the two frames is off the unsharded grid. */
  lemma SteppedShardsDiffer(c: Config, count: int, workers: int -> int)
    requires ValidConfig(c) && c.offset == 0 && 2 <= count <= c.total && c.step >= 2 && c.total != 2
    requires forall f, g :: c.image(f) == c.image(g) ==> f == g
    ensures ShardedVideo(c, count, workers, count) != Video(c)
  {
    hide ChunkStart;
    var v := ShardedVideo(c, count, workers, count);
    ShardedVideoLength(c, count, workers, count);
    ShardsTile(c.total, count);
    ChunksInRange(c.total, count, 0);
    ChunksInRange(c.total, count, 1);
    ChunkEnds(c.total, count);
    var b := ShardAt(c.total, count, 0).end;
    assert ShardAt(c.total, count, 0).start == 0 && ShardAt(c.total, count, 1).start == b + 1;
    ShardedVideoAt(c, count, workers, count, 0, b);
    ShardedVideoAt(c, count, workers, count, 1, 0);
    FirstOfShard(c, count);
    assert v[b] == c.image(b) && v[b + 1] == c.image(b + 1);
    if b % c.step != 0 {
      OffGrid(b, c.step);
      assert Video(c)[b] == c.image(b / c.step * c.step);
    } else {
      BoundaryInside(c.total, count, c.step);
      NextIsOffGrid(b, c.step);
      assert Video(c)[b + 1] == c.image((b + 1) / c.step * c.step);
    }
  }

  lemma OffGrid(b: int, step: int)
    requires step >= 1 && b % step != 0
    ensures b / step * step != b
  {
    assert b == b / step * step + b % step;
  }

  lemma FirstOfShard(c: Config, count: int)
    requires ValidConfig(c) && 2 <= count <= c.total
    ensures ShardImage(c, count, 1, 0) == c.image(ShardAt(c.total, count, 1).start)
  {
    ShardsTile(c.total, count);
    HeldWithinStep(ShardAt(c.total, count, 1).FrameCount(), c.step, 0);
  }

  lemma NextIsOffGrid(b: int, step: int)
    requires step >= 2 && b % step == 0
    ensures (b + 1) / step * step != b + 1
  {
    assert b == b / step * step;
    assert (b + 1) == (b + 1) / step * step + (b + 1) % step;
    QuotientUnique(b + 1, b / step, (b + 1) / step, step);
  }

  /** If the first shard's last frame is on the grid, the next frame is not the last of all. */
  lemma BoundaryInside(total: nat, count: int, step: int)
    requires 2 <= count <= total && step >= 2 && total != 2
    requires ShardAt(total, count, 0).end % step == 0
    ensures ShardAt(total, count, 0).end + 1 < total - 1
  {
    hide ChunkStart, ChunkSize;
    var first, second := ShardAt(total, count, 0).FrameCount(), ShardAt(total, count, 1).FrameCount();
    ShardsTile(total, count);
    assert ShardAt(total, count, 0).start == 0;
    SizesDescend(total, count);
    ChunkEnds(total, count);
    ChunkStartsAscend(total, count, 2, count);
    if count > 2 {
      assert ShardAt(total, count, 2).FrameCount() >= 1;
      ChunkStartsAscend(total, count, 3, count);
    }
    SmallQuotient(1, step);
  }

  lemma SizesDescend(total: nat, count: int)
    requires 2 <= count <= total
    ensures ShardAt(total, count, 0).FrameCount() <= ShardAt(total, count, 1).FrameCount() + 1
  {
    ShardsTile(total, count);
    assert ShardAt(total, count, 0).FrameCount() <= total / count + 1;
    assert ShardAt(total, count, 1).FrameCount() >= total / count;
  }

  /**
   The same for real runs: render the shards with whatever worker counts, without failure or
   cancellation, stream each through the writer and concatenate; the encoder input is that of
   one unsharded run.  runs[i] is the final state of shard i's pipeline.
   */
  lemma DistributedRefinement(c: Config, count: int, workers: int -> int, whole: State, runs: seq<State>,
                              files: map<string, Bytes>)
    requires ValidConfig(c) && CapturesNonEmpty(c) && c.offset == 0 && c.step == 1 && 1 <= count <= c.total
    requires Succeeded(c, whole) && |runs| == count
    requires forall i :: 0 <= i < count ==> Succeeded(ShardConfig(c, count, i, workers(i)), runs[i])
    ensures ConcatOutputs(c, count, workers, runs, files, count) == Output(c, whole, files)
  {
    SucceededOutput(c, whole, files);
    OutputsAreVideos(c, count, workers, runs, files, count);
    ShardingPreservesVideo(c, count, workers);
  }

  /** A finished run without failure or cancellation. */
  ghost predicate Succeeded(c: Config, s: State)
    requires ValidConfig(c)
  {
    Reachable(c, s) && Quiescent(c, s) && !s.outerCancelled && s.firstErr.None?
  }

  /** The images the writer sends to an encoder that accepts them all. */
  function Output(c: Config, s: State, files: map<string, Bytes>): seq<Bytes> {
    DataOf(PlanVideo(s.received, files, c.total).writes)
  }

  function ConcatOutputs(c: Config, count: int, workers: int -> int, runs: seq<State>, files: map<string, Bytes>,
                         upTo: nat): seq<Bytes>
    requires ValidConfig(c) && 1 <= count <= c.total && upTo <= count == |runs|
  {
    if upTo == 0 then []
    else ConcatOutputs(c, count, workers, runs, files, upTo - 1)
         + Output(ShardConfig(c, count, upTo - 1, workers(upTo - 1)), runs[upTo - 1], files)
  }

  lemma SucceededOutput(c: Config, s: State, files: map<string, Bytes>)
    requires ValidConfig(c) && CapturesNonEmpty(c) && Succeeded(c, s)
    ensures Output(c, s, files) == Video(c)
  {
    UncancelledOutcome(c, s);
    PlanOfWholeStream(c, files);
  }

  lemma {:induction false} OutputsAreVideos(c: Config, count: int, workers: int -> int, runs: seq<State>,
                                            files: map<string, Bytes>, upTo: nat)
    requires ValidConfig(c) && CapturesNonEmpty(c) && 1 <= count <= c.total && upTo <= count == |runs|
    requires forall i :: 0 <= i < count ==> Succeeded(ShardConfig(c, count, i, workers(i)), runs[i])
    ensures ConcatOutputs(c, count, workers, runs, files, upTo) == ShardedVideo(c, count, workers, upTo)
  {
    hide Succeeded, Output;
    if upTo > 0 {
      OutputsAreVideos(c, count, workers, runs, files, upTo - 1);
      SucceededOutput(ShardConfig(c, count, upTo - 1, workers(upTo - 1)), runs[upTo - 1], files);
    }
  }
}
