/**
 * What a subscribed socket is sent, exactly: of the frames published after an accepted
 * subscribe those whose numbers pass all before, and after a reconnect every number once.
 */
module LiveDelivery {
  import opened SocketQueue
  import opened Backfill
  import opened DeliveryOrder

  // The data frames of a log.
  function DataOf(log: seq<Message>): seq<QueuedFrame> {
    if log == [] then []
    else
      var last := log[|log| - 1];
      DataOf(log[..|log| - 1]) + (if last.FrameSent? then [last.frame] else [])
  }

  lemma DataOfMore(log: seq<Message>, m: Message)
    ensures DataOf(log + [m]) == DataOf(log) + if m.FrameSent? then [m.frame] else []
  {
    assert (log + [m])[..|log|] == log;
  }

  lemma {:induction false} DataOfSends(log: seq<Message>, frames: seq<QueuedFrame>)
    ensures DataOf(log + Sends(frames)) == DataOf(log) + frames
    decreases |frames|
  {
    if frames == [] {
      assert log + Sends(frames) == log;
    } else {
      var front, last := frames[..|frames| - 1], frames[|frames| - 1];
      assert log + Sends(frames) == (log + Sends(front)) + [FrameSent(last)];
      DataOfSends(log, front);
      DataOfMore(log + Sends(front), FrameSent(last));
      assert frames == front + [last];
    }
  }

  predicate OpenUpTo(calls: seq<Call>, i: nat)
    requires i <= |calls|
  {
    forall j :: 0 <= j < i ==> !calls[j].Closes?
  }

  // A frame published before the socket closes whose number passes the mark and all
  // numbers published before.
  predicate IsRecord(calls: seq<Call>, i: nat, mark: int)
    requires i < |calls|
  {
    calls[i].Publishes? && OpenUpTo(calls, i) && mark < calls[i].frame.seqNo &&
    forall j :: 0 <= j < i && calls[j].Publishes? ==> calls[j].frame.seqNo < calls[i].frame.seqNo
  }

  // The records among the first k calls, in order.
  function Records(calls: seq<Call>, k: nat, mark: int): seq<QueuedFrame>
    requires k <= |calls|
  {
    if k == 0 then []
    else Records(calls, k - 1, mark) + if IsRecord(calls, k - 1, mark) then [calls[k - 1].frame] else []
  }

  lemma {:induction false} RunStep(s: Session, tenantId: string, maxDepth: nat, calls: seq<Call>, k: nat)
    requires k < |calls|
    ensures CallRun(s, tenantId, maxDepth, calls[..k + 1]) ==
            CallNext(CallRun(s, tenantId, maxDepth, calls[..k]), tenantId, maxDepth, calls[k])
    decreases k
  {
    if k == 0 {
      assert calls[..1][1..] == [] && calls[..0] == [];
    } else {
      assert calls[..k + 1][1..] == calls[1..][..k] && calls[..k][1..] == calls[1..][..k - 1];
      RunStep(CallNext(s, tenantId, maxDepth, calls[0]), tenantId, maxDepth, calls[1..], k - 1);
    }
  }

  // The delivered mark covers what was published before the socket closed, and is the
  // first mark or one of these numbers.
  ghost predicate MarkCovers(calls: seq<Call>, k: nat, mark: int, now: int)
    requires k <= |calls|
  {
    mark <= now &&
    (forall j :: 0 <= j < k && calls[j].Publishes? ==> calls[j].frame.seqNo <= now) &&
    (now == mark || exists j :: 0 <= j < k && calls[j].Publishes? && calls[j].frame.seqNo == now)
  }

  // What holds after k calls.
  ghost predicate HasDelivered(s: Session, r: Session, calls: seq<Call>, k: nat)
    requires k <= |calls|
  {
    r.subscribed && !r.backfilling && (r.open <==> OpenUpTo(calls, k)) &&
    DataOf(r.log) == DataOf(s.log) + Records(calls, k, s.lastDelivered) &&
    (r.open ==> MarkCovers(calls, k, s.lastDelivered, r.lastDelivered))
  }

  lemma NothingYet(s: Session, calls: seq<Call>)
    requires s.subscribed && s.open && !s.backfilling
    ensures HasDelivered(s, s, calls, 0)
  {
    assert DataOf(s.log) + [] == DataOf(s.log);
  }

  lemma {:induction false} DeliveredSoFar(s: Session, tenantId: string, maxDepth: nat, calls: seq<Call>, k: nat)
    requires s.subscribed && s.open && !s.backfilling && NoneAccepted(calls) && k <= |calls|
    ensures HasDelivered(s, CallRun(s, tenantId, maxDepth, calls[..k]), calls, k)
    decreases k
  {
    hide HasDelivered, DeliveryOrder.CallNext;
    if k == 0 {
      assert calls[..0] == [];
      NothingYet(s, calls);
    } else {
      DeliveredSoFar(s, tenantId, maxDepth, calls, k - 1);
      RunStep(s, tenantId, maxDepth, calls, k - 1);
      OneCall(s, CallRun(s, tenantId, maxDepth, calls[..k - 1]), tenantId, maxDepth, calls, k - 1);
    }
  }

  lemma OneCall(s: Session, before: Session, tenantId: string, maxDepth: nat, calls: seq<Call>, k: nat)
    requires k < |calls| && NoneAccepted(calls) && HasDelivered(s, before, calls, k)
    ensures HasDelivered(s, CallNext(before, tenantId, maxDepth, calls[k]), calls, k + 1)
  {
    var next := CallNext(before, tenantId, maxDepth, calls[k]);
    NextCall(before, tenantId, maxDepth, calls, k, s.lastDelivered);
    assert DataOf(next.log) == DataOf(s.log) + Records(calls, k + 1, s.lastDelivered);
  }

  lemma NextCall(before: Session, tenantId: string, maxDepth: nat, calls: seq<Call>, k: nat, mark: int)
    requires k < |calls| && NoneAccepted(calls) && before.subscribed && !before.backfilling
    requires before.open <==> OpenUpTo(calls, k)
    requires before.open ==> MarkCovers(calls, k, mark, before.lastDelivered)
    ensures var r := CallNext(before, tenantId, maxDepth, calls[k]);
      r.subscribed && !r.backfilling && (r.open <==> OpenUpTo(calls, k + 1)) &&
      DataOf(r.log) == DataOf(before.log) + (if IsRecord(calls, k, mark) then [calls[k].frame] else []) &&
      (r.open ==> MarkCovers(calls, k + 1, mark, r.lastDelivered))
  {
    match calls[k]
    case Closes =>
    case Subscribes(lastSeq, read) =>
      DataOfMore(before.log, SnapshotRequired(tenantId, PlanFor(lastSeq, read).reason));
    case Publishes(f) =>
      if before.open {
        RecordExactly(calls, k, mark, before.lastDelivered);
        if f.seqNo > before.lastDelivered {
          DataOfMore(before.log, FrameSent(f));
        }
      }
  }

  lemma RecordExactly(calls: seq<Call>, k: nat, mark: int, now: int)
    requires k < |calls| && calls[k].Publishes? && OpenUpTo(calls, k) && MarkCovers(calls, k, mark, now)
    ensures IsRecord(calls, k, mark) <==> now < calls[k].frame.seqNo
  {
  }

  // After an accepted subscribe, until the next accepted one, an open socket is sent
  // exactly the published frames that pass its mark and all numbers published before.
  lemma DeliveredExactly(s: Session, tenantId: string, maxDepth: nat, calls: seq<Call>)
    requires s.subscribed && s.open && !s.backfilling && NoneAccepted(calls)
    ensures DataOf(CallRun(s, tenantId, maxDepth, calls).log) ==
            DataOf(s.log) + Records(calls, |calls|, s.lastDelivered)
  {
    DeliveredSoFar(s, tenantId, maxDepth, calls, |calls|);
    assert calls[..|calls|] == calls;
  }

  // The numbers after hi are published one by one.
  predicate CountsOn(calls: seq<Call>, hi: int) {
    forall i :: 0 <= i < |calls| ==> calls[i].Publishes? && calls[i].frame.seqNo == hi + 1 + i
  }

  lemma {:induction false} AllAreRecords(calls: seq<Call>, k: nat, hi: int)
    requires k <= |calls| && CountsOn(calls, hi)
    ensures |Records(calls, k, hi)| == k
    ensures forall i :: 0 <= i < k ==> Records(calls, k, hi)[i].seqNo == hi + 1 + i
    decreases k
  {
    if k > 0 {
      AllAreRecords(calls, k - 1, hi);
      assert IsRecord(calls, k - 1, hi);
    }
  }

  // After any whole calls, a client that reconnects with number n on an open socket and a
  // contiguous ring, and is answered with a replay, gets the numbers after n without a gap
  // and once each: those of the ring and then those published.
  lemma ReconnectHasNoGap(before: seq<Call>, tenantId: string, maxDepth: nat, s: Session, n: int,
                          entries: seq<RingEntry>, lo: int, hi: int, calls: seq<Call>)
    requires s == CallRun(NEW_SESSION, tenantId, maxDepth, before).(log := []) && s.open
    requires Contiguous(entries, lo, hi) && PlanFor(SeqIs(n), RingIs(entries)).Replay? && CountsOn(calls, hi)
    ensures
      var r := CallRun(Subscribed(s, tenantId, SeqIs(n), RingIs(entries)), tenantId, maxDepth, calls);
      Covers(DataOf(r.log), n, hi + |calls|)
  {
    QueueStaysEmpty(NEW_SESSION, tenantId, maxDepth, before);
    var frames, r := PlanFor(SeqIs(n), RingIs(entries)).frames, Subscribed(s, tenantId, SeqIs(n), RingIs(entries));
    ReplayedLog(s, tenantId, n, entries, lo, hi);
    DeliveredExactly(r, tenantId, maxDepth, calls);
    AllAreRecords(calls, |calls|, hi);
    CoversOn(frames, Records(calls, |calls|, hi), n, hi);
  }

  lemma ReplayedLog(s: Session, tenantId: string, n: int, entries: seq<RingEntry>, lo: int, hi: int)
    requires Quiet(s) && s.log == [] && s.open
    requires Contiguous(entries, lo, hi) && PlanFor(SeqIs(n), RingIs(entries)).Replay?
    ensures
      var frames := PlanFor(SeqIs(n), RingIs(entries)).frames;
      var r := Subscribed(s, tenantId, SeqIs(n), RingIs(entries));
      r.subscribed && r.open && !r.backfilling && r.lastDelivered == hi && DataOf(r.log) == frames &&
      Covers(frames, n, hi)
  {
    var frames := PlanFor(SeqIs(n), RingIs(entries)).frames;
    QuietReplay(s, frames, n);
    AnswerOnContiguousRing(entries, lo, hi, n);
    DataOfSends([], frames);
  }

  lemma CoversOn(frames: seq<QueuedFrame>, more: seq<QueuedFrame>, n: int, hi: int)
    requires Covers(frames, n, hi) && forall i :: 0 <= i < |more| ==> more[i].seqNo == hi + 1 + i
    ensures Covers(frames + more, n, hi + |more|)
  {
  }
}
