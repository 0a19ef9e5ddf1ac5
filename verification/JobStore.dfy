/** The in-memory job registry (internal/jobs/store.go). */
module JobStore {
  import opened Wrappers

  datatype Status = Queued | Rendering | Done | Failed

  predicate Terminal(s: Status) {
    s.Done? || s.Failed?
  }

  /** What changes in a job record; times are clock readings. */
  datatype JobData = JobData(status: Status, progress: real, eta: string, outputPath: string, error: string,
                             startedAt: Option<int>, doneAt: Option<int>)

  /** The record NewJob makes. */
  const NEW_JOB := JobData(Queued, 0.0, "", "", "", None, None)

  /** A job record; the store and its readers share it. */
  class Job {
    const id: string
    const createdAt: int
    var data: JobData

    constructor (id: string, createdAt: int)
      ensures this.id == id && this.createdAt == createdAt && data == NEW_JOB
    {
      this.id := id;
      this.createdAt := createdAt;
      this.data := NEW_JOB;
    }
  }

  /** What the store knows of a job, as a value. */
  datatype Info = Info(status: Status, createdAt: int)

  /** A finished job created before the cutoff. */
  predicate Expired(info: Info, cutoff: int) {
    Terminal(info.status) && info.createdAt < cutoff
  }

  /** Prune drops the finished jobs created before the cutoff, and nothing else. */
  function Pruned(jobs: map<string, Info>, cutoff: int): map<string, Info> {
    map id | id in jobs && !Expired(jobs[id], cutoff) :: jobs[id]
  }

  /** The jobs with the given status. */
  function WithStatus(jobs: map<string, Info>, status: Status): set<string> {
    set id | id in jobs && jobs[id].status == status
  }

  function SnapshotOf(jobs: map<string, Job>): map<string, Info>
    reads jobs.Values
  {
    map id | id in jobs :: Info(jobs[id].data.status, jobs[id].createdAt)
  }

  class Store {
    var jobs: map<string, Job>

    /** Each job is filed under its own id. */
    ghost predicate Valid()
      reads this
    {
      forall id :: id in jobs ==> jobs[id].id == id
    }

    function Snapshot(): map<string, Info>
      reads this, jobs.Values
    {
      SnapshotOf(jobs)
    }

    constructor ()
      ensures Valid() && jobs == map[]
    {
      jobs := map[];
    }

    method Put(job: Job)
      requires Valid()
      modifies this
      ensures Valid() && jobs == old(jobs)[job.id := job]
    {
      jobs := jobs[job.id := job];
    }

    method Get(id: string) returns (job: Job?)
      ensures if id in jobs then job == jobs[id] else job == null
    {
      job := if id in jobs then jobs[id] else null;
    }

    /** Applies fn to the record filed under id; every other record keeps its data. */
    method Update(id: string, fn: JobData -> JobData) returns (found: bool)
      requires Valid()
      modifies set job | job in jobs.Values :: job`data
      ensures Valid() && jobs == old(jobs)
      ensures found <==> id in jobs
      ensures found ==> jobs[id].data == fn(old(jobs[id].data))
      ensures forall other :: other in jobs && other != id ==> jobs[other].data == old(jobs[other].data)
      ensures Snapshot() == if found then old(Snapshot())[id := Info(fn(old(jobs[id].data)).status, jobs[id].createdAt)]
                            else old(Snapshot())
    {
      if id !in jobs {
        return false;
      }
      var j := jobs[id];
      assert j in jobs.Values;
      j.data := fn(j.data);
      return true;
    }

    /**
     The records of all jobs, newest first.  The map is walked in an arbitrary order; the
     result holds every stored job once, by nonincreasing creation time.
     */
    method List() returns (out: array<Job>)
      requires Valid()
      ensures fresh(out)
      ensures SortedNewestFirst(out[..]) && Lists(out[..], jobs)
    {
      var found: seq<Job> := [];
      var left := jobs.Keys;
      while left != {}
        invariant left <= jobs.Keys
        invariant |found| + |left| == |jobs|
        invariant forall job :: job in found ==> job.id in jobs && jobs[job.id] == job && job.id !in left
        invariant forall id :: id in jobs && id !in left ==> jobs[id] in found
        decreases |left|
      {
        var id :| id in left;
        assert jobs[id].id == id;
        found := found + [jobs[id]];
        left := left - {id};
      }
      out := new Job[|found|](i requires 0 <= i < |found| => found[i]);
      assert out[..] == found;
      SortByCreation(out);
      SameElements(found, out[..]);
    }

    /** Deletes the finished jobs older than the cutoff and counts them. */
    method Prune(cutoff: int) returns (pruned: nat)
      requires Valid()
      modifies this
      ensures Valid()
      ensures Snapshot() == Pruned(old(Snapshot()), cutoff)
      ensures Part(jobs, old(jobs))
      ensures pruned == |old(jobs)| - |jobs|
    {
      hide Expired, Pruned, PruneProgress, SnapshotOf;
      pruned := 0;
      ghost var before, was := jobs, SnapshotOf(jobs);
      var left := jobs.Keys;
      PruneStart(before, cutoff);
      while left != {}
        invariant PruneProgress(was, jobs.Keys, left, cutoff)
        invariant Part(jobs, before) && pruned == |before| - |jobs|
        decreases |left|
      {
        var id :| id in left;
        PruneStep(was, jobs.Keys, left, cutoff, id);
        var j := jobs[id];
        InSnapshot(before, id, cutoff);
        if (j.data.status == Done || j.data.status == Failed) && j.createdAt < cutoff {
          DropOne(jobs, id);
          jobs := jobs - {id};
          pruned := pruned + 1;
        }
        left := left - {id};
      }
      PruneEnd(before, jobs, cutoff);
    }

    /** How many jobs there are of each status. */
    method Counts() returns (counts: map<Status, nat>)
      ensures CountsOf(counts, Snapshot())
    {
      hide WithStatus;
      counts := map[Queued := 0, Rendering := 0, Done := 0, Failed := 0];
      var left := jobs.Keys;
      ghost var snapshot := Snapshot();
      NothingCounted();
      assert (map id | id in snapshot && id !in left :: snapshot[id]) == map[];
      while left != {}
        invariant left <= jobs.Keys && snapshot == Snapshot()
        invariant CountsOf(counts, map id | id in snapshot && id !in left :: snapshot[id])
        decreases |left|
      {
        var id :| id in left;
        ghost var seen := map id | id in snapshot && id !in left :: snapshot[id];
        var status := jobs[id].data.status;
        CountOneMore(counts, seen, id, snapshot[id]);
        counts := counts[status := counts[status] + 1];
        left := left - {id};
        assert (map id | id in snapshot && id !in left :: snapshot[id]) == seen[id := snapshot[id]];
      }
      assert (map id | id in snapshot && id !in left :: snapshot[id]) == snapshot;
    }
  }

  ghost predicate CountsOf(counts: map<Status, nat>, jobs: map<string, Info>) {
    && counts.Keys == {Queued, Rendering, Done, Failed}
    && forall status :: status in counts ==> counts[status] == |WithStatus(jobs, status)|
  }

  lemma NothingCounted()
    ensures CountsOf(map[Queued := 0, Rendering := 0, Done := 0, Failed := 0], map[])
  {
  }

  lemma CountOneMore(counts: map<Status, nat>, seen: map<string, Info>, id: string, info: Info)
    requires CountsOf(counts, seen) && id !in seen
    ensures info.status in counts
    ensures CountsOf(counts[info.status := counts[info.status] + 1], seen[id := info])
  {
    assert info.status.Queued? || info.status.Rendering? || info.status.Done? || info.status.Failed?;
    forall status | status in counts
      ensures |WithStatus(seen[id := info], status)|
           == |WithStatus(seen, status)| + if status == info.status then 1 else 0
    {
      hide WithStatus;
      OneMoreWithStatus(seen, id, info, status);
    }
  }

  lemma OneMoreWithStatus(seen: map<string, Info>, id: string, info: Info, status: Status)
    requires id !in seen
    ensures |WithStatus(seen[id := info], status)|
         == |WithStatus(seen, status)| + if status == info.status then 1 else 0
  {
    if status == info.status {
      assert WithStatus(seen[id := info], status) == WithStatus(seen, status) + {id};
    } else {
      assert WithStatus(seen[id := info], status) == WithStatus(seen, status);
    }
  }

  lemma InSnapshot(jobs: map<string, Job>, id: string, cutoff: int)
    requires id in jobs
    ensures var j := jobs[id];
            id in SnapshotOf(jobs) && (Expired(SnapshotOf(jobs)[id], cutoff)
                                       <==> (j.data.status == Done || j.data.status == Failed) && j.createdAt < cutoff)
  {
  }

  /** Of the ids walked so far, exactly the expired ones are no longer kept. */
  ghost predicate PruneProgress(was: map<string, Info>, kept: set<string>, left: set<string>, cutoff: int) {
    && left <= kept <= was.Keys
    && forall id :: id in was && id !in left ==> (id in kept <==> !Expired(was[id], cutoff))
  }

  ghost predicate Part(some: map<string, Job>, all: map<string, Job>) {
    forall id :: id in some ==> id in all && some[id] == all[id]
  }

  lemma PruneStart(jobs: map<string, Job>, cutoff: int)
    ensures PruneProgress(SnapshotOf(jobs), jobs.Keys, jobs.Keys, cutoff)
  {
  }

  lemma PruneStep(was: map<string, Info>, kept: set<string>, left: set<string>, cutoff: int, id: string)
    requires PruneProgress(was, kept, left, cutoff) && id in left
    ensures id in kept && id in was
    ensures PruneProgress(was, if Expired(was[id], cutoff) then kept - {id} else kept, left - {id}, cutoff)
  {
  }

  lemma PruneEnd(before: map<string, Job>, now: map<string, Job>, cutoff: int)
    requires PruneProgress(SnapshotOf(before), now.Keys, {}, cutoff) && Part(now, before)
    ensures SnapshotOf(now) == Pruned(SnapshotOf(before), cutoff)
  {
  }

  lemma DropOne(jobs: map<string, Job>, id: string)
    requires id in jobs
    ensures (jobs - {id}).Keys == jobs.Keys - {id} && |jobs - {id}| == |jobs| - 1
  {
    assert |jobs| == |jobs.Keys| && |jobs - {id}| == |(jobs - {id}).Keys|;
  }

  /** The counts of the four statuses add up to the number of jobs. */
  lemma CountsAddUp(jobs: map<string, Info>)
    ensures |WithStatus(jobs, Queued)| + |WithStatus(jobs, Rendering)| + |WithStatus(jobs, Done)|
            + |WithStatus(jobs, Failed)|
         == |jobs|
  {
    var queued, rendering := WithStatus(jobs, Queued), WithStatus(jobs, Rendering);
    var done, failed := WithStatus(jobs, Done), WithStatus(jobs, Failed);
    assert jobs.Keys == queued + rendering + done + failed;
    assert |queued + rendering| == |queued| + |rendering|;
    assert |queued + rendering + done| == |queued + rendering| + |done|;
    assert |queued + rendering + done + failed| == |queued + rendering + done| + |failed|;
  }

  /** Pruning keeps unfinished and recent jobs, removes the rest, and doing it again changes nothing. */
  lemma PruneIsExact(jobs: map<string, Info>, cutoff: int)
    ensures forall id :: id in jobs ==>
              (id in Pruned(jobs, cutoff) <==> !Terminal(jobs[id].status) || jobs[id].createdAt >= cutoff)
    ensures Pruned(Pruned(jobs, cutoff), cutoff) == Pruned(jobs, cutoff)
  {
  }

  // ----- The exchange sort of List -----

  ghost predicate SortedNewestFirst(jobs: seq<Job>) {
    forall i, k :: 0 <= i < k < |jobs| ==> jobs[i].createdAt >= jobs[k].createdAt
  }

  /** out lists exactly the jobs in the map, each once. */
  ghost predicate Lists(out: seq<Job>, jobs: map<string, Job>) {
    && |out| == |jobs|
    && (forall id :: id in jobs ==> jobs[id] in out)
    && (forall job :: job in out ==> job.id in jobs && jobs[job.id] == job)
  }

  lemma SameElements(a: seq<Job>, b: seq<Job>)
    requires multiset(a) == multiset(b)
    ensures |a| == |b| && forall job :: job in a <==> job in b
  {
    assert |multiset(a)| == |multiset(b)|;
    forall job ensures job in a <==> job in b {
      assert job in a <==> job in multiset(a);
      assert job in b <==> job in multiset(b);
    }
  }

  method Swap(a: array<Job>, i: nat, k: nat)
    requires i < k < a.Length
    modifies a
    ensures a[..] == old(a[..])[i := old(a[k])][k := old(a[i])]
    ensures multiset(a[..]) == multiset(old(a[..]))
  {
    a[i], a[k] := a[k], a[i];
  }

  method SortByCreation(a: array<Job>)
    modifies a
    ensures SortedNewestFirst(a[..]) && multiset(a[..]) == multiset(old(a[..]))
  {
    var i := 0;
    while i < a.Length - 1
      invariant 0 <= i <= a.Length
      invariant PrefixDone(a[..], i) && multiset(a[..]) == multiset(old(a[..]))
    {
      var k := i + 1;
      while k < a.Length
        invariant i < k <= a.Length
        invariant PrefixDone(a[..], i) && NewestSoFar(a[..], i, k) && multiset(a[..]) == multiset(old(a[..]))
      {
        if a[k].createdAt > a[i].createdAt {
          SwapKeeps(a[..], i, k);
          Swap(a, i, k);
        }
        k := k + 1;
      }
      i := i + 1;
    }
  }

  /** Positions below i are sorted and at least as new as everything after them. */
  ghost predicate PrefixDone(s: seq<Job>, i: int) {
    forall p, q :: 0 <= p < i && p < q < |s| ==> s[p].createdAt >= s[q].createdAt
  }

  ghost predicate NewestSoFar(s: seq<Job>, i: int, k: int)
    requires 0 <= i < |s| && k <= |s|
  {
    forall q :: i < q < k ==> s[i].createdAt >= s[q].createdAt
  }

  lemma SwapKeeps(s: seq<Job>, i: int, k: int)
    requires 0 <= i < k < |s| && PrefixDone(s, i) && NewestSoFar(s, i, k) && s[k].createdAt > s[i].createdAt
    ensures var t := s[i := s[k]][k := s[i]]; PrefixDone(t, i) && NewestSoFar(t, i, k + 1)
  {
    var t := s[i := s[k]][k := s[i]];
    forall p, q | 0 <= p < i && p < q < |t| ensures t[p].createdAt >= t[q].createdAt {
      assert t[p] == s[p] && (t[q] == s[q] || t[q] == s[i] || t[q] == s[k]);
    }
  }
}
