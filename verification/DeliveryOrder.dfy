/**
 * The order in which a dashboard socket receives frames: one subscribe session step by
 * step, with frames published at any moment in between, and runs of whole handler calls.
 */
module DeliveryOrder {
  import opened Basics
  import opened SocketQueue
  import opened Backfill

  // --------------------------------------------------------- the session step by step

  // The phases of one subscribe session.
  datatype Phase = Replaying(pending: seq<QueuedFrame>, lastSent: int) | Draining | Relaying

  datatype Relay = Relay(session: Session, phase: Phase)

  datatype RelayStep = Arrives(frame: QueuedFrame) | SendNext | Finish | Drain | SocketCloses

  function RelayNext(m: Relay, tenantId: string, maxDepth: nat, step: RelayStep): Relay {
    match step
    case Arrives(f) => m.(session := Dispatched(m.session, tenantId, maxDepth, f))
    case SocketCloses => m.(session := m.session.(open := false))
    case SendNext =>
      if !m.phase.Replaying? || m.phase.pending == [] then m
      else if !m.session.open then m.(phase := Replaying([], m.phase.lastSent))
      else
        var f := m.phase.pending[0];
        Relay(m.session.(log := m.session.log + [FrameSent(f)]), Replaying(m.phase.pending[1..], f.seqNo))
    case Finish =>
      if !m.phase.Replaying? || m.phase.pending != [] then m
      else Relay(m.session.(lastDelivered := m.phase.lastSent, backfilling := false), Draining)
    case Drain =>
      if m.phase.Draining? then Relay(Drained(m.session), Relaying) else m
  }

  function RelayRun(m: Relay, tenantId: string, maxDepth: nat, steps: seq<RelayStep>): Relay
    decreases |steps|
  {
    if steps == [] then m else RelayRun(RelayNext(m, tenantId, maxDepth, steps[0]), tenantId, maxDepth, steps[1..])
  }

  // The start of a session: nothing sent in it yet.
  function Opened(s: Session, plan: Plan, lastSeq: int): Relay
    requires !plan.Refuse?
  {
    var s0 := s.(log := []);
    match plan
    case CaughtUp => Relay(s0.(subscribed := true, backfilling := false), Relaying)
    case Replay(frames) => Relay(Begun(s0), Replaying(frames, lastSeq))
  }

  // ------------------------------------------------------------------ ascending logs

  // Later data frames have greater numbers.
  predicate DataAscends(log: seq<Message>) {
    forall i, j :: 0 <= i < j < |log| && log[i].FrameSent? && log[j].FrameSent? ==>
      log[i].frame.seqNo < log[j].frame.seqNo
  }

  predicate SentUpTo(log: seq<Message>, hi: int) {
    forall i :: 0 <= i < |log| && log[i].FrameSent? ==> log[i].frame.seqNo <= hi
  }

  lemma NoticeKeepsOrder(log: seq<Message>, tenantId: string, reason: SnapshotReason, hi: int)
    requires DataAscends(log)
    ensures DataAscends(log + [SnapshotRequired(tenantId, reason)])
    ensures SentUpTo(log, hi) ==> SentUpTo(log + [SnapshotRequired(tenantId, reason)], hi)
  {
  }

  lemma FrameAscendsIff(log: seq<Message>, f: QueuedFrame)
    requires DataAscends(log)
    ensures DataAscends(log + [FrameSent(f)]) <==> SentUpTo(log, f.seqNo - 1)
  {
    var longer := log + [FrameSent(f)];
    if DataAscends(longer) {
      forall i | 0 <= i < |log| && log[i].FrameSent?
        ensures log[i].frame.seqNo <= f.seqNo - 1
      {
        assert longer[i].frame.seqNo < longer[|log|].frame.seqNo;
      }
    }
  }

  lemma FrameRaises(log: seq<Message>, f: QueuedFrame, hi: int)
    requires SentUpTo(log, hi) && hi <= f.seqNo
    ensures SentUpTo(log + [FrameSent(f)], f.seqNo)
  {
  }

  // Rising frames above everything sent keep the order.
  lemma {:induction false} RisingKeepsOrder(log: seq<Message>, last: int, run: seq<QueuedFrame>)
    requires DataAscends(log) && SentUpTo(log, last) && Rising(run)
    requires forall i :: 0 <= i < |run| ==> last < run[i].seqNo
    ensures DataAscends(log + Sends(run)) && SentUpTo(log + Sends(run), LastOf(run, last))
    decreases |run|
  {
    if run == [] {
      assert log + Sends(run) == log;
    } else {
      var front, f := run[..|run| - 1], run[|run| - 1];
      RisingKeepsOrder(log, last, front);
      FrameAscendsIff(log + Sends(front), f);
      FrameRaises(log + Sends(front), f, LastOf(front, last));
      SendsSnoc(log, run);
    }
  }

  lemma SendsSnoc(log: seq<Message>, run: seq<QueuedFrame>)
    requires run != []
    ensures log + Sends(run) == log + Sends(run[..|run| - 1]) + [FrameSent(run[|run| - 1])]
  {
  }

  // What a flush sends rises from the delivered mark and stays within the queue's numbers.
  lemma FlushRises(frames: seq<QueuedFrame>, last: int)
    ensures Rising(Flushed(frames, last))
    ensures forall i :: 0 <= i < |Flushed(frames, last)| ==> last < Flushed(frames, last)[i].seqNo
    ensures forall p :: Below(frames, p) && last <= p ==> LastOf(Flushed(frames, last), last) <= p
  {
    var run := Flushed(frames, last);
    FlushedIsLongestRun(frames, last, run);
    if run != [] {
      assert IsFirst(frames, run[|run| - 1]);
    }
  }

  predicate Below(frames: seq<QueuedFrame>, p: int) {
    forall f :: f in frames ==> f.seqNo <= p
  }

  // ----------------------------------------------------- one session, step by step

  // What every moment of a session satisfies that has not repeated a frame.
  predicate Ordered(m: Relay) {
    DataAscends(m.session.log) &&
    match m.phase
    case Replaying(pending, lastSent) =>
      m.session.backfilling && SentUpTo(m.session.log, lastSent) && Rising(pending) &&
      forall i :: 0 <= i < |pending| ==> lastSent < pending[i].seqNo
    case Draining => !m.session.backfilling && SentUpTo(m.session.log, m.session.lastDelivered)
    case Relaying => !m.session.backfilling
  }

  // A frame that passes the delivered mark although one with its number or a later one
  // was sent in the session.
  predicate Repeats(m: Relay, step: RelayStep) {
    step.Arrives? && m.phase.Relaying? && m.session.subscribed && m.session.open &&
    step.frame.seqNo > m.session.lastDelivered && !SentUpTo(m.session.log, step.frame.seqNo - 1)
  }

  predicate NeverRepeats(m: Relay, tenantId: string, maxDepth: nat, steps: seq<RelayStep>)
    decreases |steps|
  {
    steps == [] ||
    (!Repeats(m, steps[0]) && NeverRepeats(RelayNext(m, tenantId, maxDepth, steps[0]), tenantId, maxDepth, steps[1..]))
  }

  lemma ArrivalOrder(m: Relay, tenantId: string, maxDepth: nat, f: QueuedFrame)
    requires Ordered(m)
    ensures var next := RelayNext(m, tenantId, maxDepth, RelayStep.Arrives(f));
      if Repeats(m, RelayStep.Arrives(f)) then !DataAscends(next.session.log) else Ordered(next)
  {
    var s := m.session;
    if s.subscribed && s.open {
      if s.backfilling {
        assert s.log + [] == s.log;
        NoticeKeepsOrder(s.log, tenantId, SlowConsumer, m.phase.lastSent);
      } else if f.seqNo > s.lastDelivered {
        FrameAscendsIff(s.log, f);
        if m.phase.Draining? {
          FrameRaises(s.log, f, s.lastDelivered);
        }
      }
    }
  }

  lemma OtherStepOrder(m: Relay, tenantId: string, maxDepth: nat, step: RelayStep)
    requires Ordered(m) && !step.Arrives?
    ensures Ordered(RelayNext(m, tenantId, maxDepth, step))
  {
    if step.SendNext? && m.phase.Replaying? && m.phase.pending != [] && m.session.open {
      var f := m.phase.pending[0];
      FrameAscendsIff(m.session.log, f);
      FrameRaises(m.session.log, f, m.phase.lastSent);
    } else if step.Drain? && m.phase.Draining? {
      var frames := QueueOf(m.session).frames;
      FlushRises(frames, m.session.lastDelivered);
      RisingKeepsOrder(m.session.log, m.session.lastDelivered, Flushed(frames, m.session.lastDelivered));
    }
  }

  lemma StepLogGrows(m: Relay, tenantId: string, maxDepth: nat, step: RelayStep)
    ensures m.session.log <= RelayNext(m, tenantId, maxDepth, step).session.log
  {
  }

  lemma {:induction false} LogGrows(m: Relay, tenantId: string, maxDepth: nat, steps: seq<RelayStep>)
    ensures m.session.log <= RelayRun(m, tenantId, maxDepth, steps).session.log
    decreases |steps|
  {
    if steps != [] {
      StepLogGrows(m, tenantId, maxDepth, steps[0]);
      LogGrows(RelayNext(m, tenantId, maxDepth, steps[0]), tenantId, maxDepth, steps[1..]);
    }
  }

  lemma PrefixAscends(log: seq<Message>, longer: seq<Message>)
    requires log <= longer && DataAscends(longer)
    ensures DataAscends(log)
  {
    assert forall i :: 0 <= i < |log| ==> log[i] == longer[i];
  }

  lemma {:induction false} AscendsIffNeverRepeats(m: Relay, tenantId: string, maxDepth: nat, steps: seq<RelayStep>)
    requires Ordered(m)
    ensures DataAscends(RelayRun(m, tenantId, maxDepth, steps).session.log) <==>
            NeverRepeats(m, tenantId, maxDepth, steps)
    decreases |steps|
  {
    if steps != [] {
      var step, next := steps[0], RelayNext(m, tenantId, maxDepth, steps[0]);
      if step.Arrives? {
        ArrivalOrder(m, tenantId, maxDepth, step.frame);
      } else {
        OtherStepOrder(m, tenantId, maxDepth, step);
      }
      if Repeats(m, step) {
        LogGrows(next, tenantId, maxDepth, steps[1..]);
        if DataAscends(RelayRun(next, tenantId, maxDepth, steps[1..]).session.log) {
          PrefixAscends(next.session.log, RelayRun(next, tenantId, maxDepth, steps[1..]).session.log);
        }
      } else {
        AscendsIffNeverRepeats(next, tenantId, maxDepth, steps[1..]);
      }
    }
  }

  lemma ReplayIsRising(entries: seq<RingEntry>, n: int)
    requires DistinctSeqs(FramesOf(entries))
    ensures Rising(Replayable(entries, n))
    ensures forall i :: 0 <= i < |Replayable(entries, n)| ==> n < Replayable(entries, n)[i].seqNo
  {
    var all, frames := FramesOf(entries), Replayable(entries, n);
    NewerDistinct(all, n);
    SortRises(Newer(all, n));
    forall i | 0 <= i < |frames|
      ensures n < frames[i].seqNo
    {
      ReplayableHas(entries, n, frames[i]);
    }
  }

  lemma OpensOrdered(s: Session, n: int, entries: seq<RingEntry>)
    requires !PlanFor(SeqIs(n), RingIs(entries)).Refuse? && DistinctSeqs(FramesOf(entries))
    ensures Ordered(Opened(s, PlanFor(SeqIs(n), RingIs(entries)), n))
  {
    match PlanFor(SeqIs(n), RingIs(entries))
    case CaughtUp =>
    case Replay(frames) =>
      ReplayIsRising(entries, n);
      assert frames == Replayable(entries, n);
      ReplayOrdered(s, frames, n);
  }

  lemma ReplayOrdered(s: Session, frames: seq<QueuedFrame>, n: int)
    requires Rising(frames) && forall i :: 0 <= i < |frames| ==> n < frames[i].seqNo
    ensures Ordered(Opened(s, Replay(frames), n))
  {
    assert Opened(s, Replay(frames), n).session.log == [];
  }

  // Within one session on a ring with distinct numbers, over every interleaving of
  // publishes, backfill sends, queueing, flush and closing, and whatever is published,
  // the numbers sent strictly ascend exactly when no frame passes the delivered mark
  // after its number or a later one was sent.
  lemma SessionsAscend(s: Session, tenantId: string, maxDepth: nat, n: int, entries: seq<RingEntry>,
                       steps: seq<RelayStep>)
    requires !PlanFor(SeqIs(n), RingIs(entries)).Refuse? && DistinctSeqs(FramesOf(entries))
    ensures var m := Opened(s, PlanFor(SeqIs(n), RingIs(entries)), n);
      DataAscends(RelayRun(m, tenantId, maxDepth, steps).session.log) <==> NeverRepeats(m, tenantId, maxDepth, steps)
  {
    OpensOrdered(s, n, entries);
    AscendsIffNeverRepeats(Opened(s, PlanFor(SeqIs(n), RingIs(entries)), n), tenantId, maxDepth, steps);
  }

  // ------------------------------------------------------- publishers that count up

  // Published numbers only grow: each arrival is above all earlier ones.
  predicate Increasing(steps: seq<RelayStep>, p: int)
    decreases |steps|
  {
    steps == [] ||
    if steps[0].Arrives? then p < steps[0].frame.seqNo && Increasing(steps[1..], steps[0].frame.seqNo)
    else Increasing(steps[1..], p)
  }

  // Nothing queued, and nothing sent beyond the delivered mark, is above p.
  predicate Bounded(m: Relay, p: int) {
    Below(QueueOf(m.session).frames, p) &&
    (m.phase.Relaying? ==> SentUpTo(m.session.log, if m.session.lastDelivered < p then p else m.session.lastDelivered))
  }

  lemma StepStaysBounded(m: Relay, tenantId: string, maxDepth: nat, step: RelayStep, p: int)
    requires Ordered(m) && Bounded(m, p) && (step.Arrives? ==> p < step.frame.seqNo)
    ensures !Repeats(m, step)
    ensures Bounded(RelayNext(m, tenantId, maxDepth, step), if step.Arrives? then step.frame.seqNo else p)
  {
    if step.Drain? && m.phase.Draining? {
      var s := m.session;
      var frames := QueueOf(s).frames;
      FlushRises(frames, s.lastDelivered);
      RisingKeepsOrder(s.log, s.lastDelivered, Flushed(frames, s.lastDelivered));
      assert Below(frames, if s.lastDelivered < p then p else s.lastDelivered);
    }
  }

  lemma {:induction false} IncreasingNeverRepeats(m: Relay, tenantId: string, maxDepth: nat, steps: seq<RelayStep>,
                                                  p: int)
    requires Ordered(m) && Bounded(m, p) && Increasing(steps, p)
    ensures NeverRepeats(m, tenantId, maxDepth, steps)
    decreases |steps|
  {
    if steps != [] {
      var step := steps[0];
      StepStaysBounded(m, tenantId, maxDepth, step, p);
      if step.Arrives? {
        ArrivalOrder(m, tenantId, maxDepth, step.frame);
      } else {
        OtherStepOrder(m, tenantId, maxDepth, step);
      }
      IncreasingNeverRepeats(RelayNext(m, tenantId, maxDepth, step), tenantId, maxDepth, steps[1..],
                             if step.Arrives? then step.frame.seqNo else p);
    }
  }

  // So a publisher whose numbers increase is always received in order.
  lemma IncreasingPublisherAscends(s: Session, tenantId: string, maxDepth: nat, n: int, entries: seq<RingEntry>,
                                   steps: seq<RelayStep>, p: int)
    requires !PlanFor(SeqIs(n), RingIs(entries)).Refuse? && DistinctSeqs(FramesOf(entries))
    requires Below(QueueOf(s).frames, p) && Increasing(steps, p)
    ensures
      var m := Opened(s, PlanFor(SeqIs(n), RingIs(entries)), n);
      DataAscends(RelayRun(m, tenantId, maxDepth, steps).session.log)
  {
    var m := Opened(s, PlanFor(SeqIs(n), RingIs(entries)), n);
    OpensOrdered(s, n, entries);
    IncreasingNeverRepeats(m, tenantId, maxDepth, steps, p);
    SessionsAscend(s, tenantId, maxDepth, n, entries, steps);
  }

  // ---------------------------------------------------------------- a repeated frame

  // A new socket.
  const NEW_SESSION := Session(true, [], false, false, 0, None)

  // A run of the fine-grained session that repeats a frame: frame 2 is published during
  // the replay of frame 1, flushed, and published again, and the flush has not moved the
  // delivered mark.
  lemma FlushedFrameIsRepeated(tenantId: string, maxDepth: nat, one: QueuedFrame, two: QueuedFrame)
    requires maxDepth > 0 && one.seqNo == 1 && two.seqNo == 2 && |one.json| <= MAX_BACKFILL_BYTES
    ensures var plan := PlanFor(SeqIs(0), RingIs([RingFrame(one)]));
      var steps := [RelayStep.Arrives(two), SendNext, Finish, Drain, RelayStep.Arrives(two)];
      !plan.Refuse? &&
      RelayRun(Opened(NEW_SESSION, plan, 0), tenantId, maxDepth, steps).session.log ==
      [FrameSent(one), FrameSent(two), FrameSent(two)]
  {
    OneFramePlan(one);
    var m0 := Opened(NEW_SESSION, Replay([one]), 0);
    FiveSteps(m0, tenantId, maxDepth, RelayStep.Arrives(two), SendNext, Finish, Drain, RelayStep.Arrives(two));
    var drained := Relay(Session(true, [FrameSent(one), FrameSent(two)], true, false, 1, Some(EMPTY_QUEUE)), Relaying);
    QueuedThenReplayed(m0, tenantId, maxDepth, one, two);
    DrainsTwo(tenantId, maxDepth, one, two);
    assert RelayNext(drained, tenantId, maxDepth, RelayStep.Arrives(two)).session.log ==
           drained.session.log + [FrameSent(two)];
  }

  function BeforeDrain(one: QueuedFrame, two: QueuedFrame): Relay {
    Relay(Session(true, [FrameSent(one)], true, false, 1, Some(QueueState([two], false, 0))), Draining)
  }

  lemma QueuedThenReplayed(m: Relay, tenantId: string, maxDepth: nat, one: QueuedFrame, two: QueuedFrame)
    requires maxDepth > 0 && one.seqNo == 1 && m == Opened(NEW_SESSION, Replay([one]), 0)
    ensures var queued := RelayNext(m, tenantId, maxDepth, RelayStep.Arrives(two));
      RelayNext(RelayNext(queued, tenantId, maxDepth, SendNext), tenantId, maxDepth, Finish) == BeforeDrain(one, two)
  {
    var queued := RelayNext(m, tenantId, maxDepth, RelayStep.Arrives(two));
    assert m.session.log + [] == [] && EMPTY_QUEUE.frames + [two] == [two];
    assert queued == Relay(Session(true, [], true, true, 0, Some(QueueState([two], false, 0))), Replaying([one], 0));
    assert [one][1..] == [] && [] + [FrameSent(one)] == [FrameSent(one)];
  }

  lemma DrainsTwo(tenantId: string, maxDepth: nat, one: QueuedFrame, two: QueuedFrame)
    requires two.seqNo == 2
    ensures RelayNext(BeforeDrain(one, two), tenantId, maxDepth, Drain) ==
            Relay(Session(true, [FrameSent(one), FrameSent(two)], true, false, 1, Some(EMPTY_QUEUE)), Relaying)
  {
    assert [two][1..] == [] && FirstWith([two], 3) == None && IsFirst([two], two);
    FlushedIsLongestRun([two], 1, [two]);
    assert Sends([two]) == [FrameSent(two)];
    assert [FrameSent(one)] + Sends([two]) == [FrameSent(one), FrameSent(two)];
  }

  lemma OneFrameRead(one: QueuedFrame)
    ensures FramesOf([RingFrame(one)]) == [one]
  {
    assert [RingFrame(one)][..0] == [];
    assert FramesOf([RingFrame(one)]) == [] + [one];
  }

  lemma OneFrameSelected(one: QueuedFrame)
    requires one.seqNo == 1
    ensures SortBySeq(Newer([one], 0)) == [one] && SortBySeq([one]) == [one]
  {
    assert [one][..0] == [] && Newer([one], 0) == [] + [one];
    assert [one][1..] == [] && SortBySeq([one]) == [one] + [];
  }

  lemma OneFrameFits(one: QueuedFrame)
    ensures TotalBytes([one]) == |one.json|
  {
    assert [one][..0] == [];
  }

  lemma OneFramePlan(one: QueuedFrame)
    requires one.seqNo == 1 && |one.json| <= MAX_BACKFILL_BYTES
    ensures PlanFor(SeqIs(0), RingIs([RingFrame(one)])) == Replay([one])
  {
    OneFrameRead(one);
    OneFrameSelected(one);
    OneFrameFits(one);
    AnswerFrom([RingFrame(one)], [one], [one], 1, 1, 0);
  }

  lemma FiveSteps(m: Relay, tenantId: string, maxDepth: nat, a: RelayStep, b: RelayStep, c: RelayStep, d: RelayStep,
                  e: RelayStep)
    ensures RelayRun(m, tenantId, maxDepth, [a, b, c, d, e]) ==
            RelayNext(RelayNext(RelayNext(RelayNext(RelayNext(m, tenantId, maxDepth, a), tenantId, maxDepth, b),
                                          tenantId, maxDepth, c), tenantId, maxDepth, d), tenantId, maxDepth, e)
  {
    assert [a, b, c, d, e][1..] == [b, c, d, e] && [b, c, d, e][1..] == [c, d, e] && [c, d, e][1..] == [d, e];
    assert [d, e][1..] == [e] && [e][1..] == [];
    var m1 := RelayNext(m, tenantId, maxDepth, a);
    var m2 := RelayNext(m1, tenantId, maxDepth, b);
    var m3 := RelayNext(m2, tenantId, maxDepth, c);
    var m4 := RelayNext(m3, tenantId, maxDepth, d);
    assert RelayRun(m, tenantId, maxDepth, [a, b, c, d, e]) == RelayRun(m1, tenantId, maxDepth, [b, c, d, e]);
    assert RelayRun(m1, tenantId, maxDepth, [b, c, d, e]) == RelayRun(m2, tenantId, maxDepth, [c, d, e]);
    assert RelayRun(m2, tenantId, maxDepth, [c, d, e]) == RelayRun(m3, tenantId, maxDepth, [d, e]);
    assert RelayRun(m3, tenantId, maxDepth, [d, e]) == RelayRun(m4, tenantId, maxDepth, [e]);
  }

  // ---------------------------------------------- the handler is one run of the steps

  function Sending(n: nat): seq<RelayStep> {
    if n == 0 then [] else [SendNext] + Sending(n - 1)
  }

  function AllSent(m: Relay): Relay
    requires m.phase.Replaying?
  {
    if m.session.open then
      Relay(m.session.(log := m.session.log + Sends(m.phase.pending)),
            Replaying([], LastOf(m.phase.pending, m.phase.lastSent)))
    else Relay(m.session, Replaying([], m.phase.lastSent))
  }

  lemma {:induction false} SendingSendsAll(m: Relay, tenantId: string, maxDepth: nat, n: nat, rest: seq<RelayStep>)
    requires m.phase.Replaying? && (if m.session.open then |m.phase.pending| == n else n == 0 ==> m.phase.pending == [])
    ensures RelayRun(m, tenantId, maxDepth, Sending(n) + rest) == RelayRun(AllSent(m), tenantId, maxDepth, rest)
    decreases n
  {
    if n == 0 {
      assert Sending(0) + rest == rest;
      assert m.session.log + Sends([]) == m.session.log;
    } else {
      var next := RelayNext(m, tenantId, maxDepth, SendNext);
      assert (Sending(n) + rest)[1..] == Sending(n - 1) + rest;
      SendingSendsAll(next, tenantId, maxDepth, n - 1, rest);
      OneSent(m, tenantId, maxDepth);
    }
  }

  lemma OneSent(m: Relay, tenantId: string, maxDepth: nat)
    requires m.phase.Replaying? && (m.session.open ==> m.phase.pending != [])
    ensures RelayNext(m, tenantId, maxDepth, SendNext).phase.Replaying?
    ensures AllSent(RelayNext(m, tenantId, maxDepth, SendNext)) == AllSent(m)
  {
    if m.session.open {
      var pending := m.phase.pending;
      assert pending == [pending[0]] + pending[1..];
      SendsCons(m.session.log, pending[0], pending[1..]);
    }
  }

  // Handling an accepted subscribe in one go is the run that sends every pending frame,
  // finishes and drains, with nothing in between.
  lemma HandlingIsARun(s: Session, tenantId: string, maxDepth: nat, n: int, read: RingRead)
    requires s.log == [] && PlanFor(SeqIs(n), read).Replay?
    ensures var frames := PlanFor(SeqIs(n), read).frames;
      RelayRun(Opened(s, Replay(frames), n), tenantId, maxDepth, Sending(|frames|) + [Finish, Drain]) ==
      Relay(Subscribed(s, tenantId, SeqIs(n), read), Relaying)
  {
    hide Backfill.PlanFor, SocketQueue.Flushed;
    var frames := PlanFor(SeqIs(n), read).frames;
    var m := Opened(s, Replay(frames), n);
    SendingSendsAll(m, tenantId, maxDepth, |frames|, [Finish, Drain]);
    FinishAndDrain(AllSent(m), tenantId, maxDepth);
    assert RelayNext(AllSent(m), tenantId, maxDepth, Finish) == Relay(Replayed(Begun(s), frames, n), Draining);
  }

  lemma FinishAndDrain(m: Relay, tenantId: string, maxDepth: nat)
    ensures RelayRun(m, tenantId, maxDepth, [Finish, Drain]) ==
            RelayNext(RelayNext(m, tenantId, maxDepth, Finish), tenantId, maxDepth, Drain)
  {
    var done := RelayNext(m, tenantId, maxDepth, Finish);
    assert [Finish, Drain][1..] == [Drain] && [Drain][1..] == [];
    assert RelayRun(m, tenantId, maxDepth, [Finish, Drain]) == RelayRun(done, tenantId, maxDepth, [Drain]) ==
           RelayRun(RelayNext(done, tenantId, maxDepth, Drain), tenantId, maxDepth, []);
  }

  // --------------------------------------------------------- runs of whole handler calls

  // The subscribe handler does not pause after reading the ring, so on one thread its
  // calls and the dispatcher's alternate as wholes.
  datatype Call = Subscribes(lastSeq: LastSeq, read: RingRead) | Publishes(frame: QueuedFrame) | Closes

  function CallNext(s: Session, tenantId: string, maxDepth: nat, call: Call): Session {
    match call
    case Subscribes(lastSeq, read) => Subscribed(s, tenantId, lastSeq, read)
    case Publishes(f) => Dispatched(s, tenantId, maxDepth, f)
    case Closes => s.(open := false)
  }

  function CallRun(s: Session, tenantId: string, maxDepth: nat, calls: seq<Call>): Session
    decreases |calls|
  {
    if calls == [] then s else CallRun(CallNext(s, tenantId, maxDepth, calls[0]), tenantId, maxDepth, calls[1..])
  }

  predicate Quiet(s: Session) {
    !s.backfilling && QueueOf(s) == EMPTY_QUEUE
  }

  // Between whole calls no socket is in a backfill and no frame is queued.
  lemma {:induction false} QueueStaysEmpty(s: Session, tenantId: string, maxDepth: nat, calls: seq<Call>)
    requires Quiet(s)
    ensures Quiet(CallRun(s, tenantId, maxDepth, calls))
    decreases |calls|
  {
    if calls != [] {
      QueueStaysEmpty(CallNext(s, tenantId, maxDepth, calls[0]), tenantId, maxDepth, calls[1..]);
    }
  }

  function AfterReplay(s: Session, frames: seq<QueuedFrame>, lastSeq: int): Session {
    Drained(Replayed(Begun(s), frames, lastSeq))
  }

  // With nothing queued a replay sends its frames and nothing else.
  lemma QuietReplay(s: Session, frames: seq<QueuedFrame>, lastSeq: int)
    requires Quiet(s)
    ensures var r := AfterReplay(s, frames, lastSeq);
      r.log == (if s.open then s.log + Sends(frames) else s.log) && r.subscribed && !r.backfilling &&
      r.lastDelivered == (if s.open then LastOf(frames, lastSeq) else lastSeq)
  {
    QuietDrain(Replayed(Begun(s), frames, lastSeq));
  }

  lemma QuietDrain(s: Session)
    requires s.queue == Some(EMPTY_QUEUE)
    ensures Drained(s) == s
  {
    assert Flushed([], s.lastDelivered) == [];
    assert s.log + Sends([]) == s.log;
  }

  // After any whole calls, a subscribe accepted on a contiguous ring and an open socket
  // sends exactly the numbers after the client's, up to the newest, in order.
  lemma AcceptedSendsExactly(calls: seq<Call>, tenantId: string, maxDepth: nat, s: Session, n: int,
                             entries: seq<RingEntry>, lo: int, hi: int)
    requires s == CallRun(NEW_SESSION, tenantId, maxDepth, calls) && s.open
    requires Contiguous(entries, lo, hi) && PlanFor(SeqIs(n), RingIs(entries)).Replay?
    ensures
      var frames := PlanFor(SeqIs(n), RingIs(entries)).frames;
      var r := Subscribed(s, tenantId, SeqIs(n), RingIs(entries));
      Covers(frames, n, hi) && |frames| <= MAX_BACKFILL_FRAMES && TotalBytes(frames) <= MAX_BACKFILL_BYTES &&
      r.log == s.log + Sends(frames) && r.subscribed && !r.backfilling && r.lastDelivered == hi
  {
    QueueStaysEmpty(NEW_SESSION, tenantId, maxDepth, calls);
    QuietReplay(s, PlanFor(SeqIs(n), RingIs(entries)).frames, n);
    AnswerOnContiguousRing(entries, lo, hi, n);
  }

  // What is wrong with a subscribe on a ring that holds lo to hi.
  predicate MustRefuse(lastSeq: LastSeq, read: RingRead, lo: int, hi: int) {
    !lastSeq.SeqIs? || lastSeq.n < 0 || read.ReadFailed? || read.entries == [] || lastSeq.n < lo - 1 ||
    (lastSeq.n < hi &&
     (hi - lastSeq.n > MAX_BACKFILL_FRAMES || TotalBytes(Replayable(read.entries, lastSeq.n)) > MAX_BACKFILL_BYTES))
  }

  // A malformed number, no ring, or a gap that the ring or the limits do not cover.
  function ReasonFor(lastSeq: LastSeq, read: RingRead): SnapshotReason {
    if !lastSeq.SeqIs? || lastSeq.n < 0 then InvalidSeq
    else if read == ReadFailed || read == RingIs([]) then RedisReset
    else SeqOutOfWindow
  }

  predicate IsOneNotice(s: Session, r: Session, tenantId: string) {
    |r.log| == |s.log| + 1 && r.log[|s.log|].SnapshotRequired? &&
    r == s.(log := s.log + [SnapshotRequired(tenantId, r.log[|s.log|].reason)])
  }

  // On an open socket a subscribe gives exactly one snapshot_required, no data frame and
  // no other change, exactly when it must be refused.
  lemma RefusedExactly(s: Session, tenantId: string, lastSeq: LastSeq, read: RingRead, lo: int, hi: int)
    requires s.open && (read.RingIs? && read.entries != [] ==> Contiguous(read.entries, lo, hi))
    ensures IsOneNotice(s, Subscribed(s, tenantId, lastSeq, read), tenantId) <==> MustRefuse(lastSeq, read, lo, hi)
    ensures MustRefuse(lastSeq, read, lo, hi) ==>
              Subscribed(s, tenantId, lastSeq, read) ==
              s.(log := s.log + [SnapshotRequired(tenantId, ReasonFor(lastSeq, read))])
  {
    if lastSeq.SeqIs? && lastSeq.n >= 0 && read.RingIs? && read.entries != [] {
      AnswerOnContiguousRing(read.entries, lo, hi, lastSeq.n);
    }
    var plan := PlanFor(lastSeq, read);
    if plan.Replay? {
      ReplayStartsWithData(s, tenantId, lastSeq, read);
    }
  }

  lemma ReplayStartsWithData(s: Session, tenantId: string, lastSeq: LastSeq, read: RingRead)
    requires s.open && PlanFor(lastSeq, read).Replay?
    ensures !IsOneNotice(s, Subscribed(s, tenantId, lastSeq, read), tenantId)
  {
    var frames := PlanFor(lastSeq, read).frames;
    assert s.log + Sends(frames) <= Subscribed(s, tenantId, lastSeq, read).log;
    assert (s.log + Sends(frames))[|s.log|] == FrameSent(frames[0]);
  }

  // No further subscribe is accepted.
  predicate NoneAccepted(calls: seq<Call>) {
    forall i :: 0 <= i < |calls| && calls[i].Subscribes? ==> PlanFor(calls[i].lastSeq, calls[i].read).Refuse?
  }

  lemma {:induction false} PublishedInOrder(s: Session, tenantId: string, maxDepth: nat, calls: seq<Call>)
    requires !s.backfilling && DataAscends(s.log) && NoneAccepted(calls)
    requires SentUpTo(s.log, s.lastDelivered)
    ensures DataAscends(CallRun(s, tenantId, maxDepth, calls).log)
    decreases |calls|
  {
    if calls != [] {
      if calls[0].Publishes? {
        var f := calls[0].frame;
        if f.seqNo > s.lastDelivered {
          FrameAscendsIff(s.log, f);
          FrameRaises(s.log, f, s.lastDelivered);
        }
      } else if calls[0].Subscribes? {
        NoticeKeepsOrder(s.log, tenantId, PlanFor(calls[0].lastSeq, calls[0].read).reason, s.lastDelivered);
      }
      PublishedInOrder(CallNext(s, tenantId, maxDepth, calls[0]), tenantId, maxDepth, calls[1..]);
    }
  }

  lemma ReplayIsReplayable(n: int, entries: seq<RingEntry>, frames: seq<QueuedFrame>)
    requires PlanFor(SeqIs(n), RingIs(entries)) == Replay(frames)
    ensures frames == Replayable(entries, n)
  {
  }

  lemma ReplayInOrder(r: Session, open: bool, n: int, frames: seq<QueuedFrame>)
    requires Rising(frames) && forall i :: 0 <= i < |frames| ==> n < frames[i].seqNo
    requires r.log == (if open then Sends(frames) else []) && r.lastDelivered == (if open then LastOf(frames, n) else n)
    ensures DataAscends(r.log) && SentUpTo(r.log, r.lastDelivered)
  {
    RisingKeepsOrder([], n, frames);
    assert [] + Sends(frames) == Sends(frames);
  }

  lemma SubscribedInOrder(s: Session, n: int, frames: seq<QueuedFrame>)
    requires Quiet(s) && s.log == [] && Rising(frames) && forall i :: 0 <= i < |frames| ==> n < frames[i].seqNo
    ensures var r := AfterReplay(s, frames, n);
      !r.backfilling && DataAscends(r.log) && SentUpTo(r.log, r.lastDelivered)
  {
    QuietReplay(s, frames, n);
    assert [] + Sends(frames) == Sends(frames);
    ReplayInOrder(AfterReplay(s, frames, n), s.open, n, frames);
  }

  // In runs of whole calls a session is always in order, whatever numbers are published:
  // the log from an accepted subscribe on, until the next accepted one, strictly ascends.
  lemma WholeCallsAscend(before: seq<Call>, tenantId: string, maxDepth: nat, s: Session, n: int,
                         entries: seq<RingEntry>, calls: seq<Call>)
    requires s == CallRun(NEW_SESSION, tenantId, maxDepth, before).(log := [])
    requires !PlanFor(SeqIs(n), RingIs(entries)).Refuse? && DistinctSeqs(FramesOf(entries)) && NoneAccepted(calls)
    ensures DataAscends(CallRun(Subscribed(s, tenantId, SeqIs(n), RingIs(entries)), tenantId, maxDepth, calls).log)
  {
    QueueStaysEmpty(NEW_SESSION, tenantId, maxDepth, before);
    var plan := PlanFor(SeqIs(n), RingIs(entries));
    if plan.Replay? {
      ReplayIsReplayable(n, entries, plan.frames);
      ReplayIsRising(entries, n);
      SubscribedInOrder(s, n, plan.frames);
    }
    PublishedInOrder(Subscribed(s, tenantId, SeqIs(n), RingIs(entries)), tenantId, maxDepth, calls);
  }

  // ------------------------------------------------------- above the client's number

  predicate SentAbove(log: seq<Message>, n: int) {
    forall i :: 0 <= i < |log| && log[i].FrameSent? ==> n < log[i].frame.seqNo
  }

  // The first frame that passes the delivered mark while the socket is open is above n.
  predicate FirstPassesAbove(calls: seq<Call>, mark: int, n: int)
    decreases |calls|
  {
    calls == [] || calls[0].Closes? ||
    if calls[0].Publishes? && calls[0].frame.seqNo > mark then n < calls[0].frame.seqNo
    else FirstPassesAbove(calls[1..], mark, n)
  }

  lemma {:induction false} ClosedSendsNoFrames(s: Session, tenantId: string, maxDepth: nat, calls: seq<Call>)
    requires !s.open && NoneAccepted(calls)
    ensures CallRun(s, tenantId, maxDepth, calls).log == s.log
    decreases |calls|
  {
    if calls != [] {
      ClosedSendsNoFrames(CallNext(s, tenantId, maxDepth, calls[0]), tenantId, maxDepth, calls[1..]);
    }
  }

  lemma {:induction false} LogOnlyGrows(s: Session, tenantId: string, maxDepth: nat, calls: seq<Call>)
    requires !s.backfilling && NoneAccepted(calls)
    ensures s.log <= CallRun(s, tenantId, maxDepth, calls).log
    decreases |calls|
  {
    if calls != [] {
      LogOnlyGrows(CallNext(s, tenantId, maxDepth, calls[0]), tenantId, maxDepth, calls[1..]);
    }
  }

  lemma {:induction false} PublishedAbove(s: Session, tenantId: string, maxDepth: nat, calls: seq<Call>, n: int)
    requires s.subscribed && s.open && !s.backfilling && SentAbove(s.log, n) && NoneAccepted(calls)
    ensures SentAbove(CallRun(s, tenantId, maxDepth, calls).log, n) <==>
            n <= s.lastDelivered || FirstPassesAbove(calls, s.lastDelivered, n)
    decreases |calls|
  {
    if calls != [] {
      var next := CallNext(s, tenantId, maxDepth, calls[0]);
      if calls[0].Closes? {
        ClosedSendsNoFrames(next, tenantId, maxDepth, calls[1..]);
      } else if calls[0].Publishes? && s.lastDelivered < calls[0].frame.seqNo <= n {
        LogOnlyGrows(next, tenantId, maxDepth, calls[1..]);
        assert next.log[|s.log|] == FrameSent(calls[0].frame);
      } else {
        PublishedAbove(next, tenantId, maxDepth, calls[1..], n);
      }
    }
  }

  // After any whole calls, what a socket is sent from an accepted subscribe on, until the
  // next accepted one, is above the client's number exactly when the subscribe was answered
  // with a replay, or the socket is closed, or its delivered mark had reached that number,
  // or the first frame that passes the mark is above it: being caught up does not move
  // the mark.
  lemma SentAboveExactly(before: seq<Call>, tenantId: string, maxDepth: nat, s: Session, n: int,
                         entries: seq<RingEntry>, calls: seq<Call>)
    requires s == CallRun(NEW_SESSION, tenantId, maxDepth, before).(log := [])
    requires !PlanFor(SeqIs(n), RingIs(entries)).Refuse? && NoneAccepted(calls)
    ensures
      var r := CallRun(Subscribed(s, tenantId, SeqIs(n), RingIs(entries)), tenantId, maxDepth, calls);
      SentAbove(r.log, n) <==>
      PlanFor(SeqIs(n), RingIs(entries)).Replay? || !s.open || n <= s.lastDelivered ||
      FirstPassesAbove(calls, s.lastDelivered, n)
  {
    QueueStaysEmpty(NEW_SESSION, tenantId, maxDepth, before);
    var plan, r := PlanFor(SeqIs(n), RingIs(entries)), Subscribed(s, tenantId, SeqIs(n), RingIs(entries));
    if plan.Replay? {
      ReplayIsNewer(n, entries, plan.frames);
      ReplayAbove(s, n, plan.frames);
    }
    if s.open {
      PublishedAbove(r, tenantId, maxDepth, calls, n);
    } else {
      ClosedSendsNoFrames(r, tenantId, maxDepth, calls);
    }
  }

  lemma ReplayAbove(s: Session, n: int, frames: seq<QueuedFrame>)
    requires Quiet(s) && s.log == [] && forall i :: 0 <= i < |frames| ==> n < frames[i].seqNo
    ensures var r := AfterReplay(s, frames, n);
      r.open == s.open && r.subscribed && !r.backfilling && SentAbove(r.log, n) && n <= r.lastDelivered &&
      (!s.open ==> r.log == [])
  {
    hide SocketQueue.Flushed;
    QuietReplay(s, frames, n);
    assert [] + Sends(frames) == Sends(frames);
  }

  lemma ReplayIsNewer(n: int, entries: seq<RingEntry>, frames: seq<QueuedFrame>)
    requires PlanFor(SeqIs(n), RingIs(entries)) == Replay(frames)
    ensures forall i :: 0 <= i < |frames| ==> n < frames[i].seqNo
  {
    ReplayIsReplayable(n, entries, frames);
    forall i | 0 <= i < |frames|
      ensures n < frames[i].seqNo
    {
      ReplayableHas(entries, n, frames[i]);
    }
  }

  // A new socket that is caught up at 5 and is then sent frame 3.
  lemma CaughtUpSocketGetsOlderFrame(tenantId: string, maxDepth: nat, three: QueuedFrame, five: QueuedFrame)
    requires three.seqNo == 3 && five.seqNo == 5
    ensures PlanFor(SeqIs(5), RingIs([RingFrame(five)])) == CaughtUp
    ensures
      var r := Subscribed(NEW_SESSION, tenantId, SeqIs(5), RingIs([RingFrame(five)]));
      CallRun(r, tenantId, maxDepth, [Publishes(three)]).log == [FrameSent(three)]
  {
    OneFrameRead(five);
    assert [five][..0] == [] && Newer([five], 5) == [] + [];
    var r := Subscribed(NEW_SESSION, tenantId, SeqIs(5), RingIs([RingFrame(five)]));
    assert [Publishes(three)][1..] == [];
    assert CallRun(r, tenantId, maxDepth, [Publishes(three)]) == Dispatched(r, tenantId, maxDepth, three);
  }
}
