/**
 * Reconnect backfill and live relay for one dashboard socket: a subscribe is
 * answered from the ring of recent frames, and live frames wait meanwhile.
 */
module Backfill {
  import opened Basics
  import opened SocketQueue

  const MAX_BACKFILL_FRAMES := 60
  const MAX_BACKFILL_BYTES := 256 * 1024

  // ------------------------------------------------------------ planning a backfill

  datatype RingEntry = RingFrame(frame: QueuedFrame) | Malformed(text: string)

  datatype RingRead = ReadFailed | RingIs(entries: seq<RingEntry>)

  datatype LastSeq = NoSeq | NotAnInteger | SeqIs(n: int)

  datatype Plan = CaughtUp | Refuse(reason: SnapshotReason) | Replay(frames: seq<QueuedFrame>)

  function FramesOf(entries: seq<RingEntry>): (r: seq<QueuedFrame>)
    ensures forall f :: f in r <==> RingFrame(f) in entries
  {
    if entries == [] then []
    else
      assert entries == entries[..|entries| - 1] + [entries[|entries| - 1]];
      FramesOf(entries[..|entries| - 1]) +
      (match entries[|entries| - 1] case RingFrame(f) => [f] case Malformed(_) => [])
  }

  function Newer(frames: seq<QueuedFrame>, lastSeq: int): (r: seq<QueuedFrame>)
    ensures forall f :: f in r <==> f in frames && f.seqNo > lastSeq
  {
    if frames == [] then []
    else
      assert frames == frames[..|frames| - 1] + [frames[|frames| - 1]];
      Newer(frames[..|frames| - 1], lastSeq) +
      (if frames[|frames| - 1].seqNo > lastSeq then [frames[|frames| - 1]] else [])
  }

  function TotalBytes(frames: seq<QueuedFrame>): nat {
    if frames == [] then 0 else TotalBytes(frames[..|frames| - 1]) + |frames[|frames| - 1].json|
  }

  // What a subscribe is answered with.
  function PlanFor(lastSeq: LastSeq, read: RingRead): Plan {
    if !lastSeq.SeqIs? || lastSeq.n < 0 then Refuse(InvalidSeq)
    else if read.ReadFailed? || read.entries == [] then Refuse(RedisReset)
    else
      var all := FramesOf(read.entries);
      var newer := SortBySeq(Newer(all, lastSeq.n));
      if newer == [] then CaughtUp
      else if all != [] && lastSeq.n < SortBySeq(all)[0].seqNo - 1 then Refuse(SeqOutOfWindow)
      else if |newer| > MAX_BACKFILL_FRAMES || TotalBytes(newer) > MAX_BACKFILL_BYTES then Refuse(SeqOutOfWindow)
      else Replay(newer)
  }

  // ------------------------------------------------------------- one socket's state

  // What the gateway holds for a socket, and what was sent on it.
  datatype Session = Session(open: bool, log: seq<Message>, subscribed: bool, backfilling: bool,
                             lastDelivered: int, queue: Option<QueueState>)

  function QueueOf(s: Session): QueueState {
    match s.queue case Some(q) => q case None => EMPTY_QUEUE
  }

  function SendAll(s: Session, messages: seq<Message>): Session {
    if s.open then s.(log := s.log + messages) else s
  }

  // A live frame for this socket.
  function Live(s: Session, tenantId: string, maxDepth: nat, f: QueuedFrame): Session {
    if s.backfilling then
      SendAll(s.(queue := Some(Enqueued(QueueOf(s), maxDepth, f))),
              if Overflows(QueueOf(s), maxDepth) then [SnapshotRequired(tenantId, SlowConsumer)] else [])
    else if f.seqNo <= s.lastDelivered || !s.open then s
    else s.(log := s.log + [FrameSent(f)], lastDelivered := f.seqNo)
  }

  // The dispatcher only reaches subscribed, open sockets.
  function Dispatched(s: Session, tenantId: string, maxDepth: nat, f: QueuedFrame): Session {
    if s.subscribed && s.open then Live(s, tenantId, maxDepth, f) else s
  }

  function Begun(s: Session): Session {
    s.(subscribed := true, backfilling := true, queue := Some(QueueOf(s)))
  }

  function LastOf(frames: seq<QueuedFrame>, otherwise: int): int {
    if frames == [] then otherwise else frames[|frames| - 1].seqNo
  }

  function Replayed(s: Session, frames: seq<QueuedFrame>, lastSeq: int): Session {
    SendAll(s, Sends(frames)).(lastDelivered := if s.open then LastOf(frames, lastSeq) else lastSeq,
                               backfilling := false)
  }

  function Drained(s: Session): Session {
    var q := QueueOf(s);
    if s.queue.None? || q.dropped then s
    else SendAll(s, Sends(Flushed(q.frames, s.lastDelivered))).(queue := Some(Cleared(q)))
  }

  function Subscribed(s: Session, tenantId: string, lastSeq: LastSeq, read: RingRead): Session {
    match PlanFor(lastSeq, read)
    case Refuse(reason) => SendAll(s, [SnapshotRequired(tenantId, reason)])
    case CaughtUp => s.(subscribed := true, backfilling := false)
    case Replay(frames) => Drained(Replayed(Begun(s), frames, lastSeq.n))
  }

  // ------------------------------------------------- what an accepted subscribe sends

  // The ring holds every sequence number from lo to hi, each once.
  ghost predicate Contiguous(entries: seq<RingEntry>, lo: int, hi: int) {
    lo <= hi && DistinctSeqs(FramesOf(entries)) &&
    (forall f :: f in FramesOf(entries) ==> lo <= f.seqNo <= hi) &&
    (forall n :: lo <= n <= hi ==> HasSeq(FramesOf(entries), n))
  }

  predicate HasSeq(frames: seq<QueuedFrame>, n: int) {
    exists f :: f in frames && f.seqNo == n
  }

  predicate DistinctSeqs(frames: seq<QueuedFrame>) {
    forall i, j :: 0 <= i < j < |frames| ==> frames[i].seqNo != frames[j].seqNo
  }

  // Strictly ascending sequence numbers.
  predicate Rising(frames: seq<QueuedFrame>) {
    forall i, j :: 0 <= i < j < |frames| ==> frames[i].seqNo < frames[j].seqNo
  }

  // Exactly the numbers after lo, up to hi, in order.
  predicate Covers(frames: seq<QueuedFrame>, lo: int, hi: int) {
    |frames| == hi - lo && forall i :: 0 <= i < |frames| ==> frames[i].seqNo == lo + 1 + i
  }

  lemma {:induction false} NewerDistinct(frames: seq<QueuedFrame>, lastSeq: int)
    requires DistinctSeqs(frames)
    ensures DistinctSeqs(Newer(frames, lastSeq))
  {
    if frames != [] {
      var front, last := frames[..|frames| - 1], frames[|frames| - 1];
      NewerDistinct(front, lastSeq);
      forall f | f in Newer(front, lastSeq)
        ensures f.seqNo != last.seqNo
      {
        var i :| 0 <= i < |front| && front[i] == f;
      }
    }
  }

  lemma {:induction false} InsertRises(f: QueuedFrame, sorted: seq<QueuedFrame>)
    requires Rising(sorted) && !HasSeq(sorted, f.seqNo)
    ensures Rising(InsertBySeq(f, sorted))
  {
    if sorted != [] {
      assert sorted[0] in sorted;
      if f.seqNo > sorted[0].seqNo {
        var rest := InsertBySeq(f, sorted[1..]);
        InsertRises(f, sorted[1..]);
        forall j | 0 <= j < |rest|
          ensures sorted[0].seqNo < rest[j].seqNo
        {
          InsertedIsOne(f, sorted[1..], rest[j]);
        }
      }
    }
  }

  lemma SortHasSame(frames: seq<QueuedFrame>, f: QueuedFrame)
    ensures f in SortBySeq(frames) <==> f in frames
  {
    assert f in multiset(SortBySeq(frames)) <==> f in multiset(frames);
  }

  lemma {:induction false} SortRises(frames: seq<QueuedFrame>)
    requires DistinctSeqs(frames)
    ensures Rising(SortBySeq(frames))
  {
    if frames != [] {
      SortRises(frames[1..]);
      forall f | f in SortBySeq(frames[1..])
        ensures f.seqNo != frames[0].seqNo
      {
        SortHasSame(frames[1..], f);
        var i :| 0 <= i < |frames[1..]| && frames[1..][i] == f;
      }
      InsertRises(frames[0], SortBySeq(frames[1..]));
    }
  }

  lemma HeadIn(frames: seq<QueuedFrame>)
    ensures frames != [] ==> frames[0] in frames
  {
  }

  // Rising frames that are exactly those of the numbers after lo, up to hi.
  lemma {:induction false} RisingCovers(frames: seq<QueuedFrame>, lo: int, hi: int)
    requires Rising(frames) && lo <= hi
    requires forall f :: f in frames ==> lo < f.seqNo <= hi
    requires forall n :: lo < n <= hi ==> HasSeq(frames, n)
    ensures Covers(frames, lo, hi)
    decreases hi - lo
  {
    if lo == hi {
      HeadIn(frames);
    } else {
      assert HasSeq(frames, lo + 1);
      var f :| f in frames && f.seqNo == lo + 1;
      var i :| 0 <= i < |frames| && frames[i] == f;
      assert frames[0] in frames;
      assert i == 0;
      var rest := frames[1..];
      forall n | lo + 1 < n <= hi
        ensures HasSeq(rest, n)
      {
        assert HasSeq(frames, n);
        var g :| g in frames && g.seqNo == n;
        var j :| 0 <= j < |frames| && frames[j] == g;
        assert rest[j - 1] == g;
      }
      forall g | g in rest
        ensures lo + 1 < g.seqNo <= hi
      {
        var j :| 0 <= j < |rest| && rest[j] == g;
        assert frames[j + 1] == g && g in frames;
      }
      RisingCovers(rest, lo + 1, hi);
      forall k | 0 <= k < |frames|
        ensures frames[k].seqNo == lo + 1 + k
      {
        if k > 0 {
          assert frames[k] == rest[k - 1];
        }
      }
    }
  }

  function Replayable(entries: seq<RingEntry>, n: int): seq<QueuedFrame> {
    SortBySeq(Newer(FramesOf(entries), n))
  }

  lemma ReplayableHas(entries: seq<RingEntry>, n: int, f: QueuedFrame)
    ensures f in Replayable(entries, n) <==> f in FramesOf(entries) && f.seqNo > n
  {
    SortHasSame(Newer(FramesOf(entries), n), f);
  }

  lemma NothingNewer(entries: seq<RingEntry>, lo: int, hi: int, n: int)
    requires Contiguous(entries, lo, hi)
    ensures Replayable(entries, n) == [] <==> n >= hi
  {
    var newer := Replayable(entries, n);
    assert HasSeq(FramesOf(entries), hi);
    var newest :| newest in FramesOf(entries) && newest.seqNo == hi;
    ReplayableHas(entries, n, newest);
    if newer != [] {
      ReplayableHas(entries, n, newer[0]);
    }
  }

  lemma ReplayableCovers(entries: seq<RingEntry>, lo: int, hi: int, n: int)
    requires Contiguous(entries, lo, hi) && lo - 1 <= n < hi
    ensures Covers(Replayable(entries, n), n, hi)
  {
    var all, newer := FramesOf(entries), Replayable(entries, n);
    NewerDistinct(all, n);
    SortRises(Newer(all, n));
    forall f | f in newer
      ensures n < f.seqNo <= hi
    {
      ReplayableHas(entries, n, f);
    }
    forall k | n < k <= hi
      ensures HasSeq(newer, k)
    {
      assert HasSeq(all, k);
      var f :| f in all && f.seqNo == k;
      ReplayableHas(entries, n, f);
    }
    RisingCovers(newer, n, hi);
  }

  // On a contiguous ring a subscribe is answered exactly so: up to date sockets get
  // nothing, sockets within the window get every number after theirs in order, within
  // the limits, and all others are refused.
  lemma AnswerOnContiguousRing(entries: seq<RingEntry>, lo: int, hi: int, n: int)
    requires Contiguous(entries, lo, hi) && n >= 0
    ensures var plan := PlanFor(SeqIs(n), RingIs(entries));
      var newer := Replayable(entries, n);
      if n >= hi then plan == CaughtUp
      else if n < lo - 1 || hi - n > MAX_BACKFILL_FRAMES || TotalBytes(newer) > MAX_BACKFILL_BYTES
        then plan == Refuse(SeqOutOfWindow)
      else plan == Replay(newer) && Covers(newer, n, hi)
  {
    assert HasSeq(FramesOf(entries), lo);
    OldestIs(FramesOf(entries), lo);
    NothingNewer(entries, lo, hi, n);
    if lo - 1 <= n < hi {
      ReplayableCovers(entries, lo, hi, n);
    }
    AnswerFrom(entries, FramesOf(entries), Replayable(entries, n), lo, hi, n);
  }

  lemma AnswerFrom(entries: seq<RingEntry>, all: seq<QueuedFrame>, newer: seq<QueuedFrame>, lo: int, hi: int, n: int)
    requires all == FramesOf(entries) && newer == Replayable(entries, n) && n >= 0
    requires all != [] && SortBySeq(all)[0].seqNo == lo
    requires newer == [] <==> n >= hi
    requires lo - 1 <= n < hi ==> |newer| == hi - n
    requires n < lo - 1 ==> n < hi
    ensures PlanFor(SeqIs(n), RingIs(entries)) ==
      if n >= hi then CaughtUp
      else if n < lo - 1 || hi - n > MAX_BACKFILL_FRAMES || TotalBytes(newer) > MAX_BACKFILL_BYTES
        then Refuse(SeqOutOfWindow)
      else Replay(newer)
  {
  }

  lemma OldestIs(frames: seq<QueuedFrame>, lo: int)
    requires HasSeq(frames, lo) && forall f :: f in frames ==> lo <= f.seqNo
    ensures frames != [] && SortBySeq(frames)[0].seqNo == lo
  {
    var f :| f in frames && f.seqNo == lo;
    var sorted := SortBySeq(frames);
    SortSorts(frames);
    SortHasSame(frames, f);
    SortHasSame(frames, sorted[0]);
    var i :| 0 <= i < |sorted| && sorted[i] == f;
  }

  // ------------------------------------------------------------------- the service

  lemma RetainOne(entries: seq<RingEntry>, i: nat, lastSeq: int)
    requires i < |entries|
    ensures Newer(FramesOf(entries[..i + 1]), lastSeq) ==
            Newer(FramesOf(entries[..i]), lastSeq) +
            (if entries[i].RingFrame? && entries[i].frame.seqNo > lastSeq then [entries[i].frame] else [])
  {
    assert entries[..i + 1][..i] == entries[..i];
    var all := FramesOf(entries[..i]);
    if entries[i].RingFrame? {
      var f := entries[i].frame;
      assert (all + [f])[..|all|] == all;
    } else {
      assert all + [] == all;
    }
  }

  class SocketWrapper {
    const ws: Socket
    const tenantId: string
    var lastDeliveredSeq: int
    var subscribed: bool
    var backfilling: bool

    constructor (ws: Socket, tenantId: string)
      ensures this.ws == ws && this.tenantId == tenantId && lastDeliveredSeq == 0 && !subscribed && !backfilling
    {
      this.ws := ws;
      this.tenantId := tenantId;
      lastDeliveredSeq, subscribed, backfilling := 0, false, false;
    }
  }

  /** One queue per socket that ever needed one. */
  class BackfillService {
    const maxDepth: nat
    var queues: map<Socket, OutboundQueue>

    constructor (maxDepth: nat)
      ensures this.maxDepth == maxDepth && queues == map[]
    {
      this.maxDepth := maxDepth;
      queues := map[];
    }

    // The socket's queue, if it has one, is its own.
    predicate Serves(wrapper: SocketWrapper)
      reads this
    {
      wrapper.ws in queues ==>
        queues[wrapper.ws].ws == wrapper.ws && queues[wrapper.ws].tenantId == wrapper.tenantId &&
        queues[wrapper.ws].maxDepth == maxDepth
    }

    function QueueObjects(wrapper: SocketWrapper): set<object>
      reads this
    {
      if wrapper.ws in queues then {queues[wrapper.ws]} else {}
    }

    function SessionOf(wrapper: SocketWrapper): Session
      reads this, wrapper, wrapper.ws, QueueObjects(wrapper)
    {
      Session(wrapper.ws.open, wrapper.ws.log, wrapper.subscribed, wrapper.backfilling, wrapper.lastDeliveredSeq,
              if wrapper.ws in queues then Some(queues[wrapper.ws].State()) else None)
    }

    method GetOrCreateQueue(wrapper: SocketWrapper) returns (queue: OutboundQueue)
      requires Serves(wrapper)
      modifies this
      ensures Serves(wrapper) && wrapper.ws in queues && queues[wrapper.ws] == queue
      ensures queues == if wrapper.ws in old(queues) then old(queues) else old(queues)[wrapper.ws := queue]
      ensures wrapper.ws !in old(queues) ==> fresh(queue) && queue.State() == EMPTY_QUEUE
    {
      if wrapper.ws !in queues {
        var created := new OutboundQueue(wrapper.ws, wrapper.tenantId, maxDepth);
        queues := queues[wrapper.ws := created];
      }
      queue := queues[wrapper.ws];
    }

    method SendSnapshotRequired(ws: Socket, tenantId: string, reason: SnapshotReason)
      modifies ws`log
      ensures ws.log == old(ws.log) + (if ws.open then [SnapshotRequired(tenantId, reason)] else [])
    {
      if ws.open {
        ws.Send(SnapshotRequired(tenantId, reason));
      }
    }

    method DeliverLiveFrame(wrapper: SocketWrapper, f: QueuedFrame) returns (delivered: bool)
      requires Serves(wrapper)
      modifies this, wrapper, wrapper.ws`log, QueueObjects(wrapper)
      ensures Serves(wrapper)
      ensures SessionOf(wrapper) == Live(old(SessionOf(wrapper)), wrapper.tenantId, maxDepth, f)
      ensures fresh(QueueObjects(wrapper) - old(QueueObjects(wrapper)))
      ensures queues.Keys <= old(queues).Keys + {wrapper.ws}
      ensures forall ws :: ws in old(queues) ==> ws in queues && queues[ws] == old(queues)[ws]
    {
      if wrapper.backfilling {
        var queue := GetOrCreateQueue(wrapper);
        delivered := queue.Enqueue(f);
        return;
      }
      if f.seqNo <= wrapper.lastDeliveredSeq {
        return true;
      }
      if wrapper.ws.open {
        wrapper.ws.Send(FrameSent(f));
        wrapper.lastDeliveredSeq := f.seqNo;
        return true;
      }
      delivered := false;
    }

    // What the loop over the ring retains.
    method Retain(entries: seq<RingEntry>, lastSeq: int) returns (parsed: seq<QueuedFrame>)
      ensures parsed == Newer(FramesOf(entries), lastSeq)
    {
      parsed := [];
      var i := 0;
      while i < |entries|
        invariant 0 <= i <= |entries|
        invariant parsed == Newer(FramesOf(entries[..i]), lastSeq)
      {
        RetainOne(entries, i, lastSeq);
        if entries[i].RingFrame? && entries[i].frame.seqNo > lastSeq {
          parsed := parsed + [entries[i].frame];
        }
        i := i + 1;
      }
      assert entries[..i] == entries;
    }

    // The frames of a backfill, in order, while the socket is open.
    method SendBackfill(wrapper: SocketWrapper, frames: seq<QueuedFrame>, lastSeq: int)
      modifies wrapper, wrapper.ws`log
      ensures wrapper.ws.log == old(wrapper.ws.log) + (if wrapper.ws.open then Sends(frames) else [])
      ensures wrapper.lastDeliveredSeq == (if wrapper.ws.open then LastOf(frames, lastSeq) else lastSeq)
      ensures wrapper.subscribed == old(wrapper.subscribed) && wrapper.backfilling == old(wrapper.backfilling)
    {
      var lastSent := lastSeq;
      var i := 0;
      while i < |frames|
        invariant 0 <= i <= |frames| && wrapper.ws.open == old(wrapper.ws.open)
        invariant !wrapper.ws.open ==> i == 0
        invariant wrapper.ws.log == old(wrapper.ws.log) + Sends(frames[..i])
        invariant lastSent == LastOf(frames[..i], lastSeq)
        invariant wrapper.subscribed == old(wrapper.subscribed) && wrapper.backfilling == old(wrapper.backfilling)
      {
        if !wrapper.ws.open {
          break;
        }
        wrapper.ws.Send(FrameSent(frames[i]));
        lastSent := frames[i].seqNo;
        assert Sends(frames[..i + 1]) == Sends(frames[..i]) + [FrameSent(frames[i])];
        i := i + 1;
      }
      if wrapper.ws.open {
        assert frames[..i] == frames;
      }
      wrapper.lastDeliveredSeq := lastSent;
    }

    // The checks of a subscribe, in order.
    method MakePlan(lastSeq: LastSeq, read: RingRead) returns (plan: Plan)
      ensures plan == PlanFor(lastSeq, read)
    {
      if !lastSeq.SeqIs? || lastSeq.n < 0 {
        return Refuse(InvalidSeq);
      }
      if read.ReadFailed? || read.entries == [] {
        return Refuse(RedisReset);
      }
      var parsed := Retain(read.entries, lastSeq.n);
      if |parsed| == 0 {
        return CaughtUp;
      }
      var all := SortBySeq(FramesOf(read.entries));
      if all != [] && lastSeq.n < all[0].seqNo - 1 {
        return Refuse(SeqOutOfWindow);
      }
      var sortedFrames := SortBySeq(parsed);
      if |sortedFrames| > MAX_BACKFILL_FRAMES || TotalBytes(sortedFrames) > MAX_BACKFILL_BYTES {
        return Refuse(SeqOutOfWindow);
      }
      plan := Plan.Replay(sortedFrames);
    }

    // True when the socket now receives live frames, false when it was told to take a snapshot.
    method HandleSubscribe(wrapper: SocketWrapper, lastSeq: LastSeq, read: RingRead) returns (live: bool)
      requires Serves(wrapper)
      modifies this, wrapper, wrapper.ws`log, QueueObjects(wrapper)
      ensures Serves(wrapper)
      ensures SessionOf(wrapper) == Subscribed(old(SessionOf(wrapper)), wrapper.tenantId, lastSeq, read)
      ensures live <==> !PlanFor(lastSeq, read).Refuse?
    {
      var plan := MakePlan(lastSeq, read);
      live := !plan.Refuse?;
      match plan {
        case Refuse(reason) =>
          SendSnapshotRequired(wrapper.ws, wrapper.tenantId, reason);
        case CaughtUp =>
          wrapper.subscribed := true;
          wrapper.backfilling := false;
        case Replay(frames) =>
          Accept(wrapper, frames, lastSeq.n);
      }
    }

    method Accept(wrapper: SocketWrapper, frames: seq<QueuedFrame>, lastSeq: int)
      requires Serves(wrapper)
      modifies this, wrapper, wrapper.ws`log, QueueObjects(wrapper)
      ensures Serves(wrapper)
      ensures SessionOf(wrapper) == Drained(Replayed(Begun(old(SessionOf(wrapper))), frames, lastSeq))
    {
      wrapper.backfilling := true;
      wrapper.subscribed := true;
      var queue := GetOrCreateQueue(wrapper);
      SendBackfill(wrapper, frames, lastSeq);
      wrapper.backfilling := false;
      assert SessionOf(wrapper) == Replayed(Begun(old(SessionOf(wrapper))), frames, lastSeq);
      if !queue.dropped {
        var flushed := queue.Flush(wrapper.lastDeliveredSeq);
      }
    }

    // Delivering to one socket leaves the sessions of the others as they are.
    method DispatchTo(wrapper: SocketWrapper, f: QueuedFrame, ghost others: set<SocketWrapper>)
      requires Serves(wrapper)
      requires forall w :: w in others ==> Serves(w) && w != wrapper && w.ws != wrapper.ws
      modifies this, wrapper, wrapper.ws`log, QueueObjects(wrapper)
      ensures Serves(wrapper)
      ensures SessionOf(wrapper) == Dispatched(old(SessionOf(wrapper)), wrapper.tenantId, maxDepth, f)
      ensures forall w :: w in others ==> Serves(w)
      ensures forall w :: w in others ==> SessionOf(w) == old(SessionOf(w))
      ensures forall w :: w in others ==> QueueObjects(w) == old(QueueObjects(w))
    {
      if wrapper.subscribed && wrapper.ws.open {
        var delivered := DeliverLiveFrame(wrapper, f);
      }
    }

    // A published frame of a tenant, for each of its sockets.
    method HandleMessage(sockets: seq<SocketWrapper>, f: QueuedFrame)
      requires forall i :: 0 <= i < |sockets| ==> Serves(sockets[i])
      requires forall i, j :: 0 <= i < j < |sockets| ==> sockets[i] != sockets[j] && sockets[i].ws != sockets[j].ws
      modifies this, sockets, set w | w in sockets :: w.ws`log, set w | w in sockets && w.ws in queues :: queues[w.ws]
      ensures forall i :: 0 <= i < |sockets| ==>
        SessionOf(sockets[i]) == Dispatched(old(SessionOf(sockets[i])), sockets[i].tenantId, maxDepth, f)
    {
      var i := 0;
      while i < |sockets|
        invariant 0 <= i <= |sockets|
        invariant forall j :: i <= j < |sockets| ==> Serves(sockets[j])
        invariant forall j :: i <= j < |sockets| ==> SessionOf(sockets[j]) == old(SessionOf(sockets[j]))
        invariant forall j :: i <= j < |sockets| ==> QueueObjects(sockets[j]) == old(QueueObjects(sockets[j]))
        invariant forall j :: 0 <= j < i ==> Serves(sockets[j])
        invariant forall j :: 0 <= j < i ==>
          SessionOf(sockets[j]) == Dispatched(old(SessionOf(sockets[j])), sockets[j].tenantId, maxDepth, f)
      {
        DispatchTo(sockets[i], f, set j | 0 <= j < |sockets| && j != i :: sockets[j]);
        i := i + 1;
      }
    }
  }
}
