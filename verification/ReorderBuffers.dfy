/**
 The reorder buffer (internal/pipeline/renderer.go, ReorderBuffer): frames come in
 in any order, numbered by sequence number, and go out in sequence.
 */
module ReorderBuffers {
  import opened Frames
  import opened Sequences

  /** The fields of a ReorderBuffer, as a value. */
  datatype ReorderState = ReorderState(buf: map<int, FrameInOrder>, next: int, total: int, closed: bool)

  datatype Drained = Drained(buf: map<int, FrameInOrder>, next: int, emitted: seq<FrameInOrder>)

  lemma RemovedIsSmaller(buf: map<int, FrameInOrder>, k: int)
    requires k in buf
    ensures |buf - {k}| == |buf| - 1
  {
    assert (buf - {k}).Keys == buf.Keys - {k};
    assert |buf| == |buf.Keys| && |buf - {k}| == |(buf - {k}).Keys|;
  }

  /** Emits the longest run of buffered frames that starts at `next`. */
  function Drain(buf: map<int, FrameInOrder>, next: int): Drained
    decreases |buf|
  {
    if next in buf then
      RemovedIsSmaller(buf, next);
      var rest := Drain(buf - {next}, next + 1);
      Drained(rest.buf, rest.next, [buf[next]] + rest.emitted)
    else
      Drained(buf, next, [])
  }

  /** Which run that is, and what stays in the buffer. */
  lemma {:induction false} DrainIsLongestRun(buf: map<int, FrameInOrder>, next: int)
    ensures var d := Drain(buf, next);
            && d.next == next + |d.emitted| && d.next !in buf
            && (forall k :: next <= k < d.next ==> k in buf && d.emitted[k - next] == buf[k])
            && d.buf == map k | k in buf && !(next <= k < d.next) :: buf[k]
    decreases |buf|
  {
    var d := Drain(buf, next);
    if next in buf {
      RemovedIsSmaller(buf, next);
      DrainIsLongestRun(buf - {next}, next + 1);
      RunExtends(buf, next, Drain(buf - {next}, next + 1), d);
    } else {
      assert buf == map k | k in buf && !(next <= k < next) :: buf[k];
    }
  }

  lemma RunExtends(buf: map<int, FrameInOrder>, next: int, rest: Drained, d: Drained)
    requires next in buf && d == Drained(rest.buf, rest.next, [buf[next]] + rest.emitted)
    requires rest.next == next + 1 + |rest.emitted|
    requires forall k :: next + 1 <= k < rest.next ==>
               k in buf - {next} && rest.emitted[k - (next + 1)] == (buf - {next})[k]
    requires rest.buf == map k | k in buf - {next} && !(next + 1 <= k < rest.next) :: (buf - {next})[k]
    ensures forall k :: next <= k < d.next ==> k in buf && d.emitted[k - next] == buf[k]
    ensures d.buf == map k | k in buf && !(next <= k < d.next) :: buf[k]
  {
    forall k | next <= k < d.next ensures k in buf && d.emitted[k - next] == buf[k] {
      if k > next {
        assert d.emitted[k - next] == rest.emitted[k - (next + 1)];
        assert k in buf - {next};
      }
    }
  }

  lemma DrainOne(buf: map<int, FrameInOrder>, next: int)
    requires next in buf
    ensures var d, rest := Drain(buf, next), Drain(buf - {next}, next + 1);
            d.buf == rest.buf && d.next == rest.next && d.emitted == [buf[next]] + rest.emitted
  {
  }

  lemma DrainNone(buf: map<int, FrameInOrder>, next: int)
    requires next !in buf
    ensures Drain(buf, next) == Drained(buf, next, [])
  {
  }

  /** What is left of a Push once the pushed frame is in the buffer. */
  function FinishPush(s: ReorderState): ReorderState {
    var d := Drain(s.buf, s.next);
    s.(buf := d.buf, next := d.next, closed := d.next == s.total)
  }

  /** The state after a Push, and the frames the Push sends. */
  function Pushed(s: ReorderState, seqNo: int, item: FrameInOrder): ReorderState {
    if s.closed then s else FinishPush(s.(buf := s.buf[seqNo := item]))
  }

  function SentByPush(s: ReorderState, seqNo: int, item: FrameInOrder): seq<FrameInOrder> {
    if s.closed then [] else Drain(s.buf[seqNo := item], s.next).emitted
  }

  class ReorderBuffer {
    var buf: map<int, FrameInOrder>
    var next: int
    const total: int
    var closed: bool
    /** Everything sent on the `out` channel so far, and whether the channel is closed. */
    var out: seq<FrameInOrder>
    var outClosed: bool

    ghost predicate Valid()
      reads this
    {
      outClosed == closed
    }

    function State(): ReorderState
      reads this
    {
      ReorderState(buf, next, total, closed)
    }

    constructor (total: int)
      ensures Valid() && State() == ReorderState(map[], 0, total, false) && out == []
    {
      this.total := total;
      buf, next, closed := map[], 0, false;
      out, outClosed := [], false;
    }

    method Send(item: FrameInOrder)
      requires !outClosed   // a send on a closed channel panics
      modifies this`out
      ensures out == old(out) + [item]
    {
      out := out + [item];
    }

    method CloseOut()
      requires !outClosed   // closing a closed channel panics
      modifies this`outClosed
      ensures outClosed
    {
      outClosed := true;
    }

    method Push(seqNo: int, frame: int, path: string, data: Bytes)
      requires Valid()
      modifies this
      ensures Valid()
      ensures State() == Pushed(old(State()), seqNo, FrameInOrder(frame, path, data))
      ensures out == old(out) + SentByPush(old(State()), seqNo, FrameInOrder(frame, path, data))
      ensures old(closed) ==> State() == old(State()) && out == old(out)
    {
      if closed {
        return;
      }
      buf := buf[seqNo := FrameInOrder(frame, path, data)];
      ghost var full := Drain(buf, next);
      ghost var rest := full;
      while next in buf
        invariant !closed && !outClosed
        invariant rest == Drain(buf, next)
        invariant rest.buf == full.buf && rest.next == full.next
        invariant out + rest.emitted == old(out) + full.emitted
        decreases |buf|
      {
        RemovedIsSmaller(buf, next);
        DrainOne(buf, next);
        ghost var after := Drain(buf - {next}, next + 1);
        assert out + rest.emitted == (out + [buf[next]]) + after.emitted;
        Send(buf[next]);
        buf := buf - {next};
        next := next + 1;
        rest := after;
      }
      DrainNone(buf, next);
      if next == total {
        closed := true;
        CloseOut();
      }
    }

    method ForceClose()
      requires Valid()
      modifies this
      ensures Valid() && closed
      ensures State() == old(State()).(closed := true) && out == old(out)
    {
      if closed {
        return;
      }
      closed := true;
      CloseOut();
    }
  }

  // ----- Any arrival order gives the same output -----

  ghost predicate InRange(frames: seq<FrameInOrder>, arrivals: seq<int>) {
    forall i :: 0 <= i < |arrivals| ==> 0 <= arrivals[i] < |frames|
  }

  /** The buffer after pushing frames[k] for each k in arrivals, starting from empty. */
  ghost function AfterArrivals(frames: seq<FrameInOrder>, arrivals: seq<int>): ReorderState
    requires InRange(frames, arrivals)
  {
    if arrivals == [] then
      ReorderState(map[], 0, |frames|, false)
    else
      var last := |arrivals| - 1;
      Pushed(AfterArrivals(frames, arrivals[..last]), arrivals[last], frames[arrivals[last]])
  }

  /** Everything those pushes send. */
  ghost function SentByArrivals(frames: seq<FrameInOrder>, arrivals: seq<int>): seq<FrameInOrder>
    requires InRange(frames, arrivals)
  {
    if arrivals == [] then
      []
    else
      var last := |arrivals| - 1;
      SentByArrivals(frames, arrivals[..last])
      + SentByPush(AfterArrivals(frames, arrivals[..last]), arrivals[last], frames[arrivals[last]])
  }

  /** State s holds exactly the arrived frames: a sent prefix, and a buffer of later ones. */
  ghost predicate HoldsArrived(s: ReorderState, frames: seq<FrameInOrder>, arrived: set<int>) {
    && s.total == |frames|
    && 0 <= s.next <= |frames| && s.next !in arrived
    && (forall k :: 0 <= k < s.next ==> k in arrived)
    && (forall k :: k in s.buf <==> k in arrived && k >= s.next)
    && (forall k :: k in s.buf ==> k < |frames| && s.buf[k] == frames[k])
    && (s.closed <==> s.next == |frames| && arrived != {})
  }

  /** The run that goes out after frames[k] has arrived consists of arrived frames, in order. */
  lemma ArrivalGoesOut(s: ReorderState, frames: seq<FrameInOrder>, arrived: set<int>, k: int)
    requires HoldsArrived(s, frames, arrived) && 0 <= k < |frames| && k !in arrived
    ensures var d := Drain(s.buf[k := frames[k]], s.next);
            && s.next <= d.next <= |frames| && d.emitted == frames[s.next..d.next]
            && forall j :: s.next <= j < d.next ==> j in arrived + {k}
  {
    hide Drain;
    var buf := s.buf[k := frames[k]];
    var d := Drain(buf, s.next);
    DrainIsLongestRun(buf, s.next);
    forall j | s.next <= j < d.next
      ensures j in buf && buf[j] == d.emitted[j - s.next] && j < |frames| && j in arrived + {k}
    {
      assert j in buf;
      assert j == k || j in s.buf;
    }
    if d.next > s.next {
      assert d.next - 1 in buf;
    }
    forall i | 0 <= i < |d.emitted| ensures d.emitted[i] == frames[s.next..d.next][i] {
      assert d.emitted[s.next + i - s.next] == buf[s.next + i];
    }
  }

  lemma ArrivalStep(s: ReorderState, frames: seq<FrameInOrder>, arrived: set<int>, k: int)
    requires HoldsArrived(s, frames, arrived) && 0 <= k < |frames| && k !in arrived
    ensures var t := Pushed(s, k, frames[k]);
            && HoldsArrived(t, frames, arrived + {k})
            && s.next <= t.next
            && SentByPush(s, k, frames[k]) == frames[s.next..t.next]
  {
    hide Drain;
    DrainIsLongestRun(s.buf[k := frames[k]], s.next);
    ArrivalGoesOut(s, frames, arrived, k);
  }

  function Arrived(arrivals: seq<int>): set<int> {
    set k | k in arrivals
  }

  lemma ArrivedSplit(arrivals: seq<int>)
    requires arrivals != []
    requires Distinct(arrivals)
    ensures Distinct(arrivals[..|arrivals| - 1])
    ensures var last := |arrivals| - 1;
            arrivals[last] !in Arrived(arrivals[..last])
                && Arrived(arrivals) == Arrived(arrivals[..last]) + {arrivals[last]}
  {
    var last := |arrivals| - 1;
    assert arrivals == arrivals[..last] + [arrivals[last]];
  }

  /**
   However the frames arrive, what has been sent is the frames before the first one still
   missing, in order; the rest of what arrived waits in the buffer; and the channel is
   closed exactly when everything has arrived (which takes at least one arrival).
   */
  lemma {:induction false} ArrivalOrderIrrelevant(frames: seq<FrameInOrder>, arrivals: seq<int>)
    requires InRange(frames, arrivals) && Distinct(arrivals)
    ensures HoldsArrived(AfterArrivals(frames, arrivals), frames, Arrived(arrivals))
    ensures SentByArrivals(frames, arrivals) == frames[..AfterArrivals(frames, arrivals).next]
  {
    if arrivals != [] {
      hide HoldsArrived, Pushed, SentByPush, Arrived;
      var k := arrivals[|arrivals| - 1];
      var before := arrivals[..|arrivals| - 1];
      ArrivedSplit(arrivals);
      ArrivalOrderIrrelevant(frames, before);
      var s := AfterArrivals(frames, before);
      ArrivalStep(s, frames, Arrived(before), k);
      var t := Pushed(s, k, frames[k]);
      assert AfterArrivals(frames, arrivals) == t;
      assert frames[..s.next] + frames[s.next..t.next] == frames[..t.next];
    }
  }
}
