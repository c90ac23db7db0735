/**
 * The bounded outbound queue of one dashboard socket: live frames wait in it
 * during a backfill; it is dropped for good when it overflows.
 */
module SocketQueue {
  import opened Basics

  // A frame and its sequence number, as the dashboard publisher numbers them.
  datatype QueuedFrame = QueuedFrame(seqNo: int, json: string)

  datatype SnapshotReason = InvalidSeq | RedisReset | SeqOutOfWindow | SlowConsumer

  datatype Message = FrameSent(frame: QueuedFrame) | SnapshotRequired(tenantId: string, reason: SnapshotReason)

  const OUTBOUND_QUEUE_MAX_DEPTH := 200

  function Sends(frames: seq<QueuedFrame>): (r: seq<Message>)
    ensures |r| == |frames| && forall i :: 0 <= i < |frames| ==> r[i] == FrameSent(frames[i])
  {
    seq(|frames|, i requires 0 <= i < |frames| => FrameSent(frames[i]))
  }

  // ----------------------------------------------------------------- stable sort

  predicate Sorted(frames: seq<QueuedFrame>) {
    forall i, j :: 0 <= i < j < |frames| ==> frames[i].seqNo <= frames[j].seqNo
  }

  function InsertBySeq(f: QueuedFrame, sorted: seq<QueuedFrame>): (r: seq<QueuedFrame>)
    ensures multiset(r) == multiset(sorted) + multiset{f} && |r| == |sorted| + 1
  {
    if sorted == [] || f.seqNo <= sorted[0].seqNo then
      assert multiset([f] + sorted) == multiset{f} + multiset(sorted);
      [f] + sorted
    else
      assert sorted == [sorted[0]] + sorted[1..];
      [sorted[0]] + InsertBySeq(f, sorted[1..])
  }

  // frames.sort((a, b) => a.seq - b.seq), which keeps equal frames in order.
  function SortBySeq(frames: seq<QueuedFrame>): (r: seq<QueuedFrame>)
    ensures multiset(r) == multiset(frames) && |r| == |frames|
  {
    if frames == [] then []
    else
      assert frames == [frames[0]] + frames[1..];
      InsertBySeq(frames[0], SortBySeq(frames[1..]))
  }

  lemma InsertedIsOne(f: QueuedFrame, sorted: seq<QueuedFrame>, g: QueuedFrame)
    requires g in InsertBySeq(f, sorted)
    ensures g == f || g in sorted
  {
    assert g in multiset(InsertBySeq(f, sorted));
  }

  lemma {:induction false} InsertKeepsSorted(f: QueuedFrame, sorted: seq<QueuedFrame>)
    requires Sorted(sorted)
    ensures Sorted(InsertBySeq(f, sorted))
  {
    if sorted != [] && f.seqNo > sorted[0].seqNo {
      var rest := InsertBySeq(f, sorted[1..]);
      InsertKeepsSorted(f, sorted[1..]);
      forall j | 0 <= j < |rest|
        ensures sorted[0].seqNo <= rest[j].seqNo
      {
        InsertedIsOne(f, sorted[1..], rest[j]);
      }
    }
  }

  lemma {:induction false} SortSorts(frames: seq<QueuedFrame>)
    ensures Sorted(SortBySeq(frames))
  {
    if frames != [] {
      SortSorts(frames[1..]);
      InsertKeepsSorted(frames[0], SortBySeq(frames[1..]));
    }
  }

  // The first-arrived frame with a sequence number.
  function FirstWith(frames: seq<QueuedFrame>, n: int): (r: Option<QueuedFrame>)
    ensures r.Some? ==> r.value in frames && r.value.seqNo == n
    ensures r.None? ==> forall f :: f in frames ==> f.seqNo != n
  {
    if frames == [] then None
    else if frames[0].seqNo == n then Some(frames[0])
    else FirstWith(frames[1..], n)
  }

  lemma {:induction false} InsertIsFirst(f: QueuedFrame, sorted: seq<QueuedFrame>, n: int)
    requires Sorted(sorted)
    ensures FirstWith(InsertBySeq(f, sorted), n) == (if f.seqNo == n then Some(f) else FirstWith(sorted, n))
  {
    if sorted != [] && f.seqNo > sorted[0].seqNo {
      InsertIsFirst(f, sorted[1..], n);
    }
  }

  lemma {:induction false} SortKeepsFirst(frames: seq<QueuedFrame>, n: int)
    ensures FirstWith(SortBySeq(frames), n) == FirstWith(frames, n)
  {
    if frames != [] {
      SortKeepsFirst(frames[1..], n);
      SortSorts(frames[1..]);
      InsertIsFirst(frames[0], SortBySeq(frames[1..]), n);
    }
  }

  // ------------------------------------------------------------------------ flush

  // The frames the flush loop sends from a sorted queue.
  function Walk(sorted: seq<QueuedFrame>, highWater: int): seq<QueuedFrame> {
    if sorted == [] then []
    else if sorted[0].seqNo <= highWater then Walk(sorted[1..], highWater)
    else if sorted[0].seqNo != highWater + 1 then []
    else [sorted[0]] + Walk(sorted[1..], highWater + 1)
  }

  lemma WalkAt(sorted: seq<QueuedFrame>, i: nat, highWater: int)
    requires i < |sorted|
    ensures Walk(sorted[i..], highWater) ==
            (if sorted[i].seqNo <= highWater then Walk(sorted[i + 1..], highWater)
             else if sorted[i].seqNo != highWater + 1 then []
             else [sorted[i]] + Walk(sorted[i + 1..], highWater + 1))
    ensures Walk(sorted[|sorted|..], highWater) == []
  {
    assert sorted[i..][1..] == sorted[i + 1..];
  }

  lemma SendsCons(log: seq<Message>, f: QueuedFrame, rest: seq<QueuedFrame>)
    ensures log + Sends([f] + rest) == log + [FrameSent(f)] + Sends(rest)
  {
  }

  function Flushed(frames: seq<QueuedFrame>, lastDelivered: int): seq<QueuedFrame> {
    Walk(SortBySeq(frames), lastDelivered)
  }

  predicate IsFirst(frames: seq<QueuedFrame>, f: QueuedFrame) {
    FirstWith(frames, f.seqNo) == Some(f)
  }

  // The longest gap-free run after a sequence number: each number once, as its
  // first-arrived frame, up to a number the queue does not have.
  predicate IsLongestRun(frames: seq<QueuedFrame>, last: int, run: seq<QueuedFrame>) {
    (forall i :: 0 <= i < |run| ==> run[i].seqNo == last + 1 + i && IsFirst(frames, run[i])) &&
    FirstWith(frames, last + 1 + |run|) == None
  }

  lemma RunExtends(frames: seq<QueuedFrame>, last: int, run: seq<QueuedFrame>)
    requires frames != [] && frames[0].seqNo == last + 1 && IsLongestRun(frames[1..], last + 1, run)
    ensures IsLongestRun(frames, last, [frames[0]] + run)
  {
    var longer := [frames[0]] + run;
    forall i | 0 <= i < |longer|
      ensures longer[i].seqNo == last + 1 + i && IsFirst(frames, longer[i])
    {
      if i > 0 {
        assert longer[i] == run[i - 1] && IsFirst(frames[1..], run[i - 1]);
      }
    }
  }

  lemma {:induction false} WalkIsLongestRun(sorted: seq<QueuedFrame>, last: int)
    requires Sorted(sorted)
    ensures IsLongestRun(sorted, last, Walk(sorted, last))
  {
    if sorted != [] {
      var f, rest := sorted[0], sorted[1..];
      if f.seqNo <= last {
        WalkIsLongestRun(rest, last);
      } else if f.seqNo == last + 1 {
        WalkIsLongestRun(rest, last + 1);
        RunExtends(sorted, last, Walk(rest, last + 1));
      } else {
        assert forall g :: g in sorted ==> g.seqNo >= f.seqNo;
      }
    }
  }

  // Flushing any queue, unsorted, with gaps and duplicates, sends exactly its longest
  // gap-free run.
  lemma FlushedIsLongestRun(frames: seq<QueuedFrame>, last: int, run: seq<QueuedFrame>)
    ensures IsLongestRun(frames, last, run) <==> run == Flushed(frames, last)
  {
    var sorted, walked := SortBySeq(frames), Flushed(frames, last);
    SortSorts(frames);
    WalkIsLongestRun(sorted, last);
    forall n: int
      ensures FirstWith(sorted, n) == FirstWith(frames, n)
    {
      SortKeepsFirst(frames, n);
    }
    forall i | 0 <= i < |walked|
      ensures IsFirst(frames, walked[i])
    {
      assert IsFirst(sorted, walked[i]);
    }
    if IsLongestRun(frames, last, run) {
      NoLonger(frames, last, run, walked);
      NoLonger(frames, last, walked, run);
      forall i | 0 <= i < |run|
        ensures run[i] == walked[i]
      {
        assert IsFirst(frames, run[i]) && IsFirst(frames, walked[i]);
      }
    }
  }

  lemma RunHas(frames: seq<QueuedFrame>, last: int, run: seq<QueuedFrame>, k: nat)
    requires IsLongestRun(frames, last, run) && k < |run|
    ensures FirstWith(frames, last + 1 + k).Some?
  {
    assert IsFirst(frames, run[k]);
  }

  lemma NoLonger(frames: seq<QueuedFrame>, last: int, a: seq<QueuedFrame>, b: seq<QueuedFrame>)
    requires IsLongestRun(frames, last, a) && IsLongestRun(frames, last, b)
    ensures |b| <= |a|
  {
    if |a| < |b| {
      RunHas(frames, last, b, |a|);
    }
  }

  // ------------------------------------------------------------------- the queue

  // A queue: its frames, whether it was dropped, and how often the slow-consumer
  // handler was called.
  datatype QueueState = QueueState(frames: seq<QueuedFrame>, dropped: bool, notices: nat)

  const EMPTY_QUEUE := QueueState([], false, 0)

  predicate QueueValid(q: QueueState, maxDepth: nat) {
    |q.frames| <= maxDepth && q.notices == (if q.dropped then 1 else 0) && (q.dropped ==> q.frames == [])
  }

  function Enqueued(q: QueueState, maxDepth: nat, f: QueuedFrame): QueueState {
    if q.dropped then q
    else if |q.frames| >= maxDepth then QueueState([], true, q.notices + 1)
    else q.(frames := q.frames + [f])
  }

  predicate Overflows(q: QueueState, maxDepth: nat) {
    !q.dropped && |q.frames| >= maxDepth
  }

  function Cleared(q: QueueState): QueueState {
    if q.dropped then q else q.(frames := [])
  }

  /** A WebSocket: whether it is open and what was sent on it. */
  class Socket {
    var open: bool
    var log: seq<Message>

    constructor ()
      ensures open && log == []
    {
      open := true;
      log := [];
    }

    method Send(m: Message)
      requires open
      modifies this`log
      ensures log == old(log) + [m]
    {
      log := log + [m];
    }
  }

  class OutboundQueue {
    const ws: Socket
    const tenantId: string
    const maxDepth: nat
    var frames: seq<QueuedFrame>
    var dropped: bool
    var notices: nat

    constructor (ws: Socket, tenantId: string, maxDepth: nat := OUTBOUND_QUEUE_MAX_DEPTH)
      ensures this.ws == ws && this.tenantId == tenantId && this.maxDepth == maxDepth && State() == EMPTY_QUEUE
    {
      this.ws := ws;
      this.tenantId := tenantId;
      this.maxDepth := maxDepth;
      frames, dropped, notices := [], false, 0;
    }

    function State(): QueueState
      reads this
    {
      QueueState(frames, dropped, notices)
    }

    // False when the socket is a slow consumer.
    method Enqueue(f: QueuedFrame) returns (accepted: bool)
      modifies this, ws`log
      ensures State() == Enqueued(old(State()), maxDepth, f)
      ensures accepted <==> !old(dropped) && |old(frames)| < maxDepth
      ensures ws.log == old(ws.log) + (if Overflows(old(State()), maxDepth) && ws.open
                                       then [SnapshotRequired(tenantId, SlowConsumer)] else [])
    {
      if dropped {
        return false;
      }
      if |frames| >= maxDepth {
        HandleSlowConsumer();
        return false;
      }
      frames := frames + [f];
      accepted := true;
    }

    method HandleSlowConsumer()
      modifies this, ws`log
      ensures State() == QueueState([], true, old(notices) + 1)
      ensures ws.log == old(ws.log) + (if ws.open then [SnapshotRequired(tenantId, SlowConsumer)] else [])
    {
      dropped := true;
      frames := [];
      notices := notices + 1;
      if ws.open {
        ws.Send(SnapshotRequired(tenantId, SlowConsumer));
      }
    }

    // The loop of a flush, over the sorted frames.
    method SendRun(sorted: seq<QueuedFrame>, lastDelivered: int) returns (sent: nat)
      modifies ws`log
      ensures var run := if ws.open then Walk(sorted, lastDelivered) else [];
        sent == |run| && ws.log == old(ws.log) + Sends(run)
    {
      var highWater := lastDelivered;
      sent := 0;
      var i := 0;
      assert sorted[0..] == sorted;
      while i < |sorted|
        invariant 0 <= i <= |sorted|
        invariant ws.open ==> sent + |Walk(sorted[i..], highWater)| == |Walk(sorted, lastDelivered)|
        invariant ws.open ==>
                    ws.log + Sends(Walk(sorted[i..], highWater)) == old(ws.log) + Sends(Walk(sorted, lastDelivered))
        invariant !ws.open ==> sent == 0 && ws.log == old(ws.log)
      {
        var frame := sorted[i];
        WalkAt(sorted, i, highWater);
        if frame.seqNo <= highWater {
          i := i + 1;
          continue;
        }
        if frame.seqNo != highWater + 1 {
          break;
        }
        if ws.open {
          SendsCons(ws.log, frame, Walk(sorted[i + 1..], highWater + 1));
          ws.Send(FrameSent(frame));
          highWater := frame.seqNo;
          sent := sent + 1;
        }
        i := i + 1;
      }
      assert ws.log + Sends([]) == ws.log;
    }

    // Sends the frames after lastDelivered in order; returns how many were sent.
    method Flush(lastDelivered: int) returns (sent: nat)
      modifies this, ws`log
      ensures State() == Cleared(old(State()))
      ensures var run := if old(dropped) || !ws.open then [] else Flushed(old(frames), lastDelivered);
        sent == |run| && ws.log == old(ws.log) + Sends(run)
    {
      sent := 0;
      if dropped {
        return;
      }
      frames := SortBySeq(frames);
      sent := SendRun(frames, lastDelivered);
      frames := [];
    }

    // Discards all queued frames.
    method Clear()
      modifies this
      ensures State() == old(State()).(frames := [])
    {
      frames := [];
    }
  }

  // -------------------------------------------------------------------------- runs

  datatype QueueStep = Arrives(frame: QueuedFrame) | Flushes(lastDelivered: int) | Clears

  function QueueNext(q: QueueState, maxDepth: nat, step: QueueStep): QueueState {
    match step
    case Arrives(f) => Enqueued(q, maxDepth, f)
    case Flushes(_) => Cleared(q)
    case Clears => q.(frames := [])
  }

  function QueueRun(q: QueueState, maxDepth: nat, steps: seq<QueueStep>): QueueState
    decreases |steps|
  {
    if steps == [] then q else QueueRun(QueueNext(q, maxDepth, steps[0]), maxDepth, steps[1..])
  }

  // Frames that arrive with no flush in between are all kept, in order, as long as they
  // fit; else the queue is dropped with one notice.
  lemma {:induction false} ArrivalsAreKept(q: QueueState, maxDepth: nat, arrivals: seq<QueuedFrame>)
    requires QueueValid(q, maxDepth) && !q.dropped
    ensures QueueRun(q, maxDepth, seq(|arrivals|, i requires 0 <= i < |arrivals| => QueueStep.Arrives(arrivals[i]))) ==
            if |q.frames| + |arrivals| <= maxDepth then QueueState(q.frames + arrivals, false, 0)
            else QueueState([], true, 1)
    decreases |arrivals|
  {
    var steps := seq(|arrivals|, i requires 0 <= i < |arrivals| => QueueStep.Arrives(arrivals[i]));
    if arrivals == [] {
      assert q.frames + arrivals == q.frames;
    } else {
      var rest := arrivals[1..];
      var next := Enqueued(q, maxDepth, arrivals[0]);
      assert steps[1..] == seq(|rest|, i requires 0 <= i < |rest| => QueueStep.Arrives(rest[i]));
      if next.dropped {
        QueueStaysBounded(next, maxDepth, steps[1..]);
      } else {
        ArrivalsAreKept(next, maxDepth, rest);
        assert next.frames + rest == q.frames + arrivals;
      }
    }
  }

  // In every run the depth stays within its bound, a dropped queue stays dropped, and
  // the slow-consumer notice is given at most once.
  lemma {:induction false} QueueStaysBounded(q: QueueState, maxDepth: nat, steps: seq<QueueStep>)
    requires QueueValid(q, maxDepth)
    ensures QueueValid(QueueRun(q, maxDepth, steps), maxDepth)
    ensures q.dropped ==> QueueRun(q, maxDepth, steps) == q
    decreases |steps|
  {
    if steps != [] {
      QueueStaysBounded(QueueNext(q, maxDepth, steps[0]), maxDepth, steps[1..]);
    }
  }
}
