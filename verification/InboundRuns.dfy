/**
 * What every run of the inbound sync keeps, for any order and any number of
 * webhook deliveries, reconciliation inserts, queue deliveries and failures.
 */
module InboundRuns {
  import opened Basics
  import opened Json
  import opened JiraEvents
  import opened InboundSync

  datatype Step =
    | Received(event: Key, connectionId: string, eventType: string, issueId: Option<string>, payload: Json)
    | Synthesised(event: Key, issue: string, payload: Json)
    | Delivered(event: Key, now: int, fault: bool)

  function Next(env: Env, db: Db, step: Step): Db {
    match step
    case Received(event, connectionId, eventType, issueId, payload) =>
      Ingest(db, event, connectionId, eventType, issueId, payload)
    case Synthesised(event, issue, payload) => InsertSynthetic(db, event, issue, payload)
    case Delivered(event, now, fault) => Deliver(env, db, event, now, fault)
  }

  function Run(env: Env, db: Db, steps: seq<Step>): Db
    decreases |steps|
  {
    if steps == [] then db else Run(env, Next(env, db, steps[0]), steps[1..])
  }

  // ------------------------------------------------------------- what a commit does

  // The effect of a delivery on tickets, history, outbox and audit trail.
  datatype Effect =
    | NoEffect
    | Comments(ticket: Key, linkId: string)
    | Moves(ticket: Key, to: TicketStatus, linkId: string)

  function WithEffect(db: Db, event: Key, now: int, effect: Effect): Db
    requires effect.Moves? ==> effect.ticket in db.tickets
  {
    match effect
    case NoEffect => db
    case Comments(ticket, linkId) => db.(outbox := db.outbox + [CommentAdded(ticket, linkId)])
    case Moves(ticket, to, linkId) => Transition(db, event, ticket, to, linkId, now)
  }

  predicate SameBooks(a: Db, b: Db) {
    a.tickets == b.tickets && a.history == b.history && a.outbox == b.outbox && a.audit == b.audit
  }

  predicate LegalEffect(db: Db, effect: Effect) {
    effect.Moves? ==> effect.ticket in db.tickets && Allowed(db.tickets[effect.ticket].status, effect.to)
  }

  lemma ChangeEffect(env: Env, db: Db, event: Key, i: nat, c: ClassifiedEvent, mapping: Mapping, now: int)
    returns (effect: Effect)
    requires i < |db.links|
    ensures LegalEffect(db, effect)
    ensures SameBooks(ApplyChange(env, db, event, i, c, mapping, now).db, WithEffect(db, event, now, effect))
  {
    var link := db.links[i];
    var key := Key(link.tenant, link.ticketId);
    if c.kind.IssueDeleted? {
      effect := NoEffect;
    } else if c.kind.IssueStatusChanged? && mapping.rules.applyInboundStatus {
      effect := StatusEffect(db, event, link, c.jiraStatus, mapping, now);
    } else if c.comment.Some? && mapping.rules.applyInboundComments {
      var comment := c.comment.value;
      if !comment.isEdit && HasOrganization(db, key) && !HasMirror(db.comments, link.tenant, comment.id) {
        effect := Comments(key, link.id);
      } else {
        effect := NoEffect;
      }
    } else {
      effect := NoEffect;
    }
  }

  lemma StatusEffect(db: Db, event: Key, link: Link, status: Option<JiraStatus>, mapping: Mapping, now: int)
    returns (effect: Effect)
    ensures LegalEffect(db, effect)
    ensures SameBooks(StatusChange(db, event, link, status, mapping, now).db, WithEffect(db, event, now, effect))
  {
    var key := Key(link.tenant, link.ticketId);
    effect := NoEffect;
    if status.Some? {
      var target := TargetStatus(mapping, status.value);
      if target.Some? && key in db.tickets && Allowed(db.tickets[key].status, target.value)
         && db.tickets[key].status != target.value {
        effect := Moves(key, target.value, link.id);
      }
    }
  }

  // A committed transaction marks its envelope terminal and has one legal effect.
  lemma TransactEffect(env: Env, db: Db, event: Key, now: int, after: Db) returns (effect: Effect)
    requires event in db.envelopes && Transact(env, db, event, now) == Ok(after)
    ensures LegalEffect(db, effect) && SameBooks(after, WithEffect(db, event, now, effect))
    ensures after.mappings == db.mappings && after.connections == db.connections
    ensures exists state :: IsVerdict(state) && after.envelopes == Mark(db, event, state).envelopes
    ensures |after.links| == |db.links|
  {
    var resolved := ResolveLink(db, event.tenant, db.envelopes[event].issueId);
    effect := NoEffect;
    if resolved.None? {
      assert IsVerdict(Skipped(Unlinked));
    } else {
      effect := TransactOnLinkEffect(env, db, event, resolved.value, now, after);
    }
  }

  predicate IsVerdict(state: EnvelopeState) {
    state.Processed? || state.Skipped?
  }

  lemma TransactOnLinkEffect(env: Env, db: Db, event: Key, i: nat, now: int, after: Db) returns (effect: Effect)
    requires event in db.envelopes && i < |db.links| && TransactOnLink(env, db, event, i, now) == Ok(after)
    ensures LegalEffect(db, effect) && SameBooks(after, WithEffect(db, event, now, effect))
    ensures after.mappings == db.mappings && after.connections == db.connections
    ensures exists state :: IsVerdict(state) && after.envelopes == Mark(db, event, state).envelopes
    ensures |after.links| == |db.links|
  {
    var link, envelope := db.links[i], db.envelopes[event];
    var connection := LoadConnection(db, link);
    effect := NoEffect;
    if link.orphaned {
      assert IsVerdict(Skipped(Orphaned));
    } else if connection.None? {
      assert IsVerdict(Skipped(RevokedConnection));
    } else {
      var c := ClassifyJiraEvent(envelope.eventType, envelope.payload, connection.value.integrationAccountId,
                                 link.jiraUpdatedAt, env.parseDate).value;
      if c.isLoopOrigin {
        assert IsVerdict(Skipped(OriginLoop));
      } else if c.isStale {
        assert IsVerdict(Skipped(StaleEvent));
      } else {
        effect := ApplyEventEffect(env, db, event, i, c, now, after);
      }
    }
  }

  lemma ApplyEventEffect(env: Env, db: Db, event: Key, i: nat, c: ClassifiedEvent, now: int, after: Db)
    returns (effect: Effect)
    requires event in db.envelopes && i < |db.links| && ApplyEvent(env, db, event, i, c, now) == Ok(after)
    ensures LegalEffect(db, effect) && SameBooks(after, WithEffect(db, event, now, effect))
    ensures after.mappings == db.mappings && after.connections == db.connections
    ensures exists state :: IsVerdict(state) && after.envelopes == Mark(db, event, state).envelopes
    ensures |after.links| == |db.links|
  {
    var mapping := LoadMapping(db, db.links[i]);
    ChangeKeeps(env, db, event, i, c, mapping, now);
    effect := ChangeEffect(env, db, event, i, c, mapping, now);
    var reason := ApplyChange(env, db, event, i, c, mapping, now).reason;
    var state := match reason case Some(r) => Skipped(r) case None => Processed;
    assert IsVerdict(state);
    assert after.envelopes == Mark(db, event, state).envelopes;
  }

  // A delivery commits one legal effect and a verdict, or changes nothing but the
  // state and attempt count of its own envelope.
  lemma DeliverEffect(env: Env, db: Db, event: Key, now: int, fault: bool) returns (effect: Effect)
    ensures var after := Deliver(env, db, event, now, fault);
      LegalEffect(db, effect) && SameBooks(after, WithEffect(db, event, now, effect)) &&
      after.mappings == db.mappings && after.connections == db.connections && |after.links| == |db.links| &&
      (!Commits(env, db, event, now, fault) ==>
         effect.NoEffect? && after.links == db.links && after.comments == db.comments)
    ensures OnlyEnvelope(db, Deliver(env, db, event, now, fault), event, Claimable(db, event),
                         Commits(env, db, event, now, fault))
  {
    if Commits(env, db, event, now, fault) {
      effect := ClaimedEffect(env, db, Claimed(db, event), event, now, Deliver(env, db, event, now, fault));
    } else {
      effect := NoEffect;
    }
  }

  lemma ClaimedEffect(env: Env, db: Db, claimed: Db, event: Key, now: int, after: Db) returns (effect: Effect)
    requires event in db.envelopes && claimed == Claimed(db, event) && Transact(env, claimed, event, now) == Ok(after)
    ensures LegalEffect(db, effect) && SameBooks(after, WithEffect(db, event, now, effect))
    ensures after.mappings == db.mappings && after.connections == db.connections && |after.links| == |db.links|
    ensures OnlyEnvelope(db, after, event, true, true)
  {
    effect := TransactEffect(env, claimed, event, now, after);
    var state :| IsVerdict(state) && after.envelopes == Mark(claimed, event, state).envelopes;
    VerdictOnly(db, event, state, after);
    ClaimHasNoEffect(db, event, now, effect);
  }

  lemma ClaimHasNoEffect(db: Db, event: Key, now: int, effect: Effect)
    requires event in db.envelopes && LegalEffect(Claimed(db, event), effect)
    ensures LegalEffect(db, effect)
    ensures SameBooks(WithEffect(Claimed(db, event), event, now, effect), WithEffect(db, event, now, effect))
  {
  }

  lemma VerdictOnly(db: Db, event: Key, state: EnvelopeState, after: Db)
    requires event in db.envelopes && IsVerdict(state)
    requires after.envelopes == Mark(Claimed(db, event), event, state).envelopes
    ensures OnlyEnvelope(db, after, event, true, true)
  {
  }

  // Only this event's envelope changes: to a verdict when committed, to failed when
  // claimed without a commit.
  predicate OnlyEnvelope(db: Db, after: Db, event: Key, claimed: bool, committed: bool) {
    after.envelopes.Keys == db.envelopes.Keys &&
    (forall other :: other in db.envelopes && other != event ==> after.envelopes[other] == db.envelopes[other]) &&
    (event in db.envelopes ==>
       after.envelopes[event].payload == db.envelopes[event].payload &&
       after.envelopes[event].issueId == db.envelopes[event].issueId &&
       after.envelopes[event].eventType == db.envelopes[event].eventType &&
       (if committed then IsVerdict(after.envelopes[event].state)
        else if claimed then after.envelopes[event].state.Failed?
        else after.envelopes[event] == db.envelopes[event]))
  }

  // -------------------------------------------------------------- at most once

  predicate Settled(db: Db, event: Key) {
    event in db.envelopes && (IsVerdict(db.envelopes[event].state) || db.envelopes[event].state.Ignored?)
  }

  predicate CommitsOn(env: Env, db: Db, step: Step, event: Key) {
    step.Delivered? && step.event == event && Commits(env, db, event, step.now, step.fault)
  }

  // How many deliveries of an event commit in a run.
  function CommitCount(env: Env, db: Db, steps: seq<Step>, event: Key): nat
    decreases |steps|
  {
    if steps == [] then 0
    else
      (if CommitsOn(env, db, steps[0], event) then 1 else 0) +
      CommitCount(env, Next(env, db, steps[0]), steps[1..], event)
  }

  lemma SettledStays(env: Env, db: Db, step: Step, event: Key)
    requires Settled(db, event)
    ensures Next(env, db, step).envelopes.Keys >= {event} && Next(env, db, step).envelopes[event] == db.envelopes[event]
    ensures !CommitsOn(env, db, step, event)
  {
    if step.Delivered? {
      var effect := DeliverEffect(env, db, step.event, step.now, step.fault);
    }
  }

  lemma CommitSettles(env: Env, db: Db, step: Step, event: Key)
    requires CommitsOn(env, db, step, event)
    ensures Settled(Next(env, db, step), event)
  {
    var effect := DeliverEffect(env, db, event, step.now, step.fault);
  }

  // A settled envelope is never reclaimed: its row stays as it is for ever.
  lemma {:induction false} SettledForever(env: Env, db: Db, steps: seq<Step>, event: Key)
    requires Settled(db, event)
    ensures event in Run(env, db, steps).envelopes && Run(env, db, steps).envelopes[event] == db.envelopes[event]
    ensures CommitCount(env, db, steps, event) == 0
    decreases |steps|
  {
    if steps != [] {
      SettledStays(env, db, steps[0], event);
      SettledForever(env, Next(env, db, steps[0]), steps[1..], event);
    }
  }

  // Over any run the effects of an event commit at most once.
  lemma {:induction false} AtMostOneCommit(env: Env, db: Db, steps: seq<Step>, event: Key)
    ensures CommitCount(env, db, steps, event) <= 1
    decreases |steps|
  {
    if steps != [] {
      if CommitsOn(env, db, steps[0], event) {
        CommitSettles(env, db, steps[0], event);
        SettledForever(env, Next(env, db, steps[0]), steps[1..], event);
      } else {
        AtMostOneCommit(env, Next(env, db, steps[0]), steps[1..], event);
      }
    }
  }

  // Rows that an event leaves behind.
  function QueuedFor(outbox: seq<OutboxRow>, event: Key): nat {
    if outbox == [] then 0
    else QueuedFor(outbox[..|outbox| - 1], event) +
         (if outbox[|outbox| - 1].WebhookQueued? && outbox[|outbox| - 1].event == event then 1 else 0)
  }

  function AuditedFor(audit: seq<AuditRow>, event: Key): nat {
    if audit == [] then 0
    else AuditedFor(audit[..|audit| - 1], event) + (if audit[|audit| - 1].event == event then 1 else 0)
  }

  lemma {:induction false} QueuedConcat(a: seq<OutboxRow>, b: seq<OutboxRow>, event: Key)
    ensures QueuedFor(a + b, event) == QueuedFor(a, event) + QueuedFor(b, event)
    decreases |b|
  {
    if b == [] {
      assert a + b == a;
    } else {
      assert (a + b)[..|a + b| - 1] == a + b[..|b| - 1];
      QueuedConcat(a, b[..|b| - 1], event);
    }
  }

  // One outbox row at most, none before the envelope exists; one audited change at
  // most, none before the envelope has its verdict.
  predicate OnceOnly(db: Db, event: Key) {
    QueuedFor(db.outbox, event) <= (if event in db.envelopes then 1 else 0) &&
    AuditedFor(db.audit, event) <= (if event in db.envelopes && IsVerdict(db.envelopes[event].state) then 1 else 0)
  }

  lemma EffectQueuesNothing(db: Db, event: Key, now: int, effect: Effect, other: Key)
    requires LegalEffect(db, effect)
    ensures QueuedFor(WithEffect(db, event, now, effect).outbox, other) == QueuedFor(db.outbox, other)
    ensures AuditedFor(WithEffect(db, event, now, effect).audit, other)
         <= AuditedFor(db.audit, other) + (if other == event then 1 else 0)
  {
    match effect
    case NoEffect =>
    case Comments(ticket, linkId) =>
      QueuedConcat(db.outbox, [CommentAdded(ticket, linkId)], other);
    case Moves(ticket, to, linkId) =>
      TransitionQueuesNothing(db, ticket, to, linkId, other);
      AuditedLast(db.audit, AuditRow(event, ticket, db.tickets[ticket].status, to), other);
  }

  lemma AuditedLast(audit: seq<AuditRow>, row: AuditRow, event: Key)
    ensures AuditedFor(audit + [row], event) == AuditedFor(audit, event) + if row.event == event then 1 else 0
  {
    assert (audit + [row])[..|audit|] == audit;
  }

  lemma TransitionQueuesNothing(db: Db, ticket: Key, to: TicketStatus, linkId: string, other: Key)
    requires ticket in db.tickets
    ensures QueuedFor(db.outbox + TransitionEvents(ticket, db.tickets[ticket].status, to, linkId), other)
         == QueuedFor(db.outbox, other)
  {
    var events := TransitionEvents(ticket, db.tickets[ticket].status, to, linkId);
    QueuedConcat(db.outbox, events, other);
    NoneQueued(events, other);
  }

  lemma {:induction false} NoneQueued(rows: seq<OutboxRow>, event: Key)
    requires forall i :: 0 <= i < |rows| ==> !rows[i].WebhookQueued?
    ensures QueuedFor(rows, event) == 0
  {
    if rows != [] {
      NoneQueued(rows[..|rows| - 1], event);
    }
  }

  lemma StepKeepsOnceOnly(env: Env, db: Db, step: Step, event: Key)
    requires OnceOnly(db, event)
    ensures OnceOnly(Next(env, db, step), event)
  {
    match step
    case Received(e, connectionId, eventType, _, _) =>
      QueuedConcat(db.outbox, [WebhookQueued(e, connectionId, eventType)], event);
      assert QueuedFor([WebhookQueued(e, connectionId, eventType)][..0], event) == 0;
    case Synthesised(e, _, _) =>
    case Delivered(e, now, fault) =>
      var effect := DeliverEffect(env, db, e, now, fault);
      EffectQueuesNothing(db, e, now, effect, event);
  }

  // Each event has one envelope (a row of the map), and over any run from a database
  // without duplicates at most one outbox row and one applied status change.
  lemma {:induction false} OnceOnlyForever(env: Env, db: Db, steps: seq<Step>, event: Key)
    requires OnceOnly(db, event)
    ensures OnceOnly(Run(env, db, steps), event)
    decreases |steps|
  {
    if steps != [] {
      StepKeepsOnceOnly(env, db, steps[0], event);
      OnceOnlyForever(env, Next(env, db, steps[0]), steps[1..], event);
    }
  }

  // No committed state shows an envelope in 'processing'.
  predicate NoneProcessing(db: Db) {
    forall event :: event in db.envelopes ==> !db.envelopes[event].state.Processing?
  }

  lemma {:induction false} NeverProcessing(env: Env, db: Db, steps: seq<Step>)
    requires NoneProcessing(db)
    ensures NoneProcessing(Run(env, db, steps))
    decreases |steps|
  {
    if steps != [] {
      if steps[0].Delivered? {
        var effect := DeliverEffect(env, db, steps[0].event, steps[0].now, steps[0].fault);
      }
      NeverProcessing(env, Next(env, db, steps[0]), steps[1..]);
    }
  }

  // --------------------------------------------------------- the story of a ticket

  function HistoryOf(history: seq<HistoryRow>, ticket: Key): seq<HistoryRow> {
    if history == [] then []
    else
      var last := history[|history| - 1];
      HistoryOf(history[..|history| - 1], ticket) + (if last.ticket == ticket then [last] else [])
  }

  // The transitions announced by ticket.updated rows.
  function UpdatesOf(outbox: seq<OutboxRow>, ticket: Key): seq<HistoryRow> {
    if outbox == [] then []
    else
      var last := outbox[|outbox| - 1];
      UpdatesOf(outbox[..|outbox| - 1], ticket) +
      (if last.TicketUpdated? && last.ticket == ticket
       then [HistoryRow(ticket, last.fromStatus, last.toStatus)]
       else [])
  }

  // Whether the SLA clock is paused after replaying the events of a ticket.
  function Paused(start: bool, outbox: seq<OutboxRow>, ticket: Key): bool {
    if outbox == [] then start
    else
      var last := outbox[|outbox| - 1];
      if last == SlaPause(ticket) then true
      else if last == SlaResume(ticket) then false
      else Paused(start, outbox[..|outbox| - 1], ticket)
  }

  // A connected chain of allowed transitions.
  predicate Chain(rows: seq<HistoryRow>, from: TicketStatus, to: TicketStatus) {
    if rows == [] then from == to
    else
      var last := rows[|rows| - 1];
      last.toStatus == to && Allowed(last.fromStatus, to) && Chain(rows[..|rows| - 1], from, last.fromStatus)
  }

  // A ticket that started with a status and a version, and what the tables say since.
  predicate Story(db: Db, ticket: Key, status: TicketStatus, version: int) {
    ticket in db.tickets &&
    Chain(HistoryOf(db.history, ticket), status, db.tickets[ticket].status) &&
    db.tickets[ticket].version == version + |HistoryOf(db.history, ticket)| &&
    UpdatesOf(db.outbox, ticket) == HistoryOf(db.history, ticket)
  }

  // The replayed clock agrees with the status.
  predicate ClockAgrees(db: Db, ticket: Key) {
    ticket in db.tickets &&
    (IsPending(db.tickets[ticket].status) ==> Paused(false, db.outbox, ticket)) &&
    (db.tickets[ticket].status.New? || db.tickets[ticket].status.Open? ==> !Paused(false, db.outbox, ticket))
  }

  lemma {:induction false} UpdatesConcat(a: seq<OutboxRow>, b: seq<OutboxRow>, ticket: Key)
    ensures UpdatesOf(a + b, ticket) == UpdatesOf(a, ticket) + UpdatesOf(b, ticket)
    decreases |b|
  {
    if b == [] {
      assert a + b == a;
    } else {
      assert (a + b)[..|a + b| - 1] == a + b[..|b| - 1];
      UpdatesConcat(a, b[..|b| - 1], ticket);
    }
  }

  lemma {:induction false} PausedConcat(start: bool, a: seq<OutboxRow>, b: seq<OutboxRow>, ticket: Key)
    ensures Paused(start, a + b, ticket) == Paused(Paused(start, a, ticket), b, ticket)
    decreases |b|
  {
    if b == [] {
      assert a + b == a;
    } else {
      assert (a + b)[..|a + b| - 1] == a + b[..|b| - 1];
      PausedConcat(start, a, b[..|b| - 1], ticket);
    }
  }

  lemma OneRow(start: bool, row: OutboxRow, ticket: Key)
    ensures UpdatesOf([row], ticket) ==
            (if row.TicketUpdated? && row.ticket == ticket
             then [HistoryRow(ticket, row.fromStatus, row.toStatus)]
             else [])
    ensures Paused(start, [row], ticket) ==
            (if row == SlaPause(ticket) then true else if row == SlaResume(ticket) then false else start)
  {
    assert [row][..0] == [];
  }

  // The rows of one transition announce it once.
  lemma TransitionAnnounced(start: bool, key: Key, from: TicketStatus, to: TicketStatus, linkId: string, ticket: Key)
    ensures UpdatesOf(TransitionEvents(key, from, to, linkId), ticket) ==
            (if key == ticket then [HistoryRow(key, from, to)] else [])
  {
    hide InboundSync.PausesSla, InboundSync.ResumesSla, Paused;
    var updated, resolved := TicketUpdated(key, from, to, linkId), TicketResolved(key, linkId);
    var a := [updated];
    var b := if to.Resolved? then [resolved] else [];
    var c := if PausesSla(from, to) then [SlaPause(key)] else if ResumesSla(from, to) then [SlaResume(key)] else [];
    UpdatesConcat(a + b, c, ticket);
    UpdatesConcat(a, b, ticket);
    OneRow(start, updated, ticket);
    OneRow(start, resolved, ticket);
    OneRow(start, SlaPause(key), ticket);
    OneRow(start, SlaResume(key), ticket);
  }

  // And set the clock.
  lemma TransitionTimed(start: bool, key: Key, from: TicketStatus, to: TicketStatus, linkId: string, ticket: Key)
    ensures Paused(start, TransitionEvents(key, from, to, linkId), ticket) ==
            (if key == ticket && PausesSla(from, to) then true
             else if key == ticket && ResumesSla(from, to) then false else start)
  {
    hide InboundSync.PausesSla, InboundSync.ResumesSla, UpdatesOf;
    var updated, resolved := TicketUpdated(key, from, to, linkId), TicketResolved(key, linkId);
    var a := [updated];
    var b := if to.Resolved? then [resolved] else [];
    var c := if PausesSla(from, to) then [SlaPause(key)] else if ResumesSla(from, to) then [SlaResume(key)] else [];
    PausedConcat(start, a + b, c, ticket);
    PausedConcat(start, a, b, ticket);
    OneRow(start, updated, ticket);
    OneRow(start, resolved, ticket);
    OneRow(start, SlaPause(key), ticket);
    OneRow(start, SlaResume(key), ticket);
  }

  lemma TransitionRows(start: bool, key: Key, from: TicketStatus, to: TicketStatus, linkId: string, ticket: Key)
    ensures UpdatesOf(TransitionEvents(key, from, to, linkId), ticket) ==
            (if key == ticket then [HistoryRow(key, from, to)] else [])
    ensures Paused(start, TransitionEvents(key, from, to, linkId), ticket) ==
            (if key == ticket && PausesSla(from, to) then true
             else if key == ticket && ResumesSla(from, to) then false else start)
  {
    TransitionAnnounced(start, key, from, to, linkId, ticket);
    TransitionTimed(start, key, from, to, linkId, ticket);
  }

  lemma MoveKeepsStory(db: Db, event: Key, key: Key, to: TicketStatus, linkId: string, now: int,
                       ticket: Key, status: TicketStatus, version: int)
    requires Story(db, ticket, status, version) && key in db.tickets && Allowed(db.tickets[key].status, to)
    ensures Story(Transition(db, event, key, to, linkId, now), ticket, status, version)
  {
    hide InboundSync.TransitionEvents, InboundSync.Allowed, UpdatesOf, HistoryOf, Paused;
    var from := db.tickets[key].status;
    var row := HistoryRow(key, from, to);
    UpdatesConcat(db.outbox, TransitionEvents(key, from, to, linkId), ticket);
    TransitionRows(false, key, from, to, linkId, ticket);
    HistoryMore(db.history, row, ticket);
    if key == ticket {
      ChainMore(HistoryOf(db.history, ticket), row, status, from);
    }
  }

  lemma HistoryMore(history: seq<HistoryRow>, row: HistoryRow, ticket: Key)
    ensures HistoryOf(history + [row], ticket) ==
            (if row.ticket == ticket then HistoryOf(history, ticket) + [row] else HistoryOf(history, ticket))
  {
    assert (history + [row])[..|history|] == history;
  }

  lemma ChainMore(h: seq<HistoryRow>, row: HistoryRow, status: TicketStatus, from: TicketStatus)
    requires Chain(h, status, from) && row.fromStatus == from && Allowed(from, row.toStatus)
    ensures Chain(h + [row], status, row.toStatus)
  {
    assert (h + [row])[..|h|] == h;
  }

  lemma MoveKeepsClock(db: Db, event: Key, key: Key, to: TicketStatus, linkId: string, now: int, ticket: Key)
    requires ClockAgrees(db, ticket) && key in db.tickets && Allowed(db.tickets[key].status, to)
    ensures ClockAgrees(Transition(db, event, key, to, linkId, now), ticket)
  {
    var from := db.tickets[key].status;
    PausedConcat(false, db.outbox, TransitionEvents(key, from, to, linkId), ticket);
    TransitionRows(Paused(false, db.outbox, ticket), key, from, to, linkId, ticket);
  }

  lemma StepKeepsStory(env: Env, db: Db, step: Step, ticket: Key, status: TicketStatus, version: int)
    requires Story(db, ticket, status, version)
    ensures Story(Next(env, db, step), ticket, status, version)
  {
    hide InboundSync.Transact, Chain, Paused;
    match step
    case Received(e, connectionId, eventType, _, _) =>
      var row := WebhookQueued(e, connectionId, eventType);
      UpdatesConcat(db.outbox, [row], ticket);
      OneRow(false, row, ticket);
    case Synthesised(e, _, _) =>
    case Delivered(e, now, fault) =>
      var effect := DeliverEffect(env, db, e, now, fault);
      match effect
      case NoEffect =>
      case Comments(key, linkId) =>
        UpdatesConcat(db.outbox, [CommentAdded(key, linkId)], ticket);
        OneRow(false, CommentAdded(key, linkId), ticket);
      case Moves(key, to, linkId) =>
        MoveKeepsStory(db, e, key, to, linkId, now, ticket, status, version);
  }

  lemma StepKeepsClock(env: Env, db: Db, step: Step, ticket: Key)
    requires ClockAgrees(db, ticket)
    ensures ClockAgrees(Next(env, db, step), ticket)
  {
    match step
    case Received(e, connectionId, eventType, _, _) =>
      var row := WebhookQueued(e, connectionId, eventType);
      PausedConcat(false, db.outbox, [row], ticket);
      OneRow(Paused(false, db.outbox, ticket), row, ticket);
    case Synthesised(e, _, _) =>
    case Delivered(e, now, fault) =>
      var effect := DeliverEffect(env, db, e, now, fault);
      match effect
      case NoEffect =>
      case Comments(key, linkId) =>
        PausedConcat(false, db.outbox, [CommentAdded(key, linkId)], ticket);
        OneRow(Paused(false, db.outbox, ticket), CommentAdded(key, linkId), ticket);
      case Moves(key, to, linkId) =>
        MoveKeepsClock(db, e, key, to, linkId, now, ticket);
  }

  // Over every run a ticket's history stays a connected chain of allowed transitions,
  // the version counts it, and each transition has its one ticket.updated row.
  lemma {:induction false} StoryForever(env: Env, db: Db, steps: seq<Step>, ticket: Key, status: TicketStatus,
                                        version: int)
    requires Story(db, ticket, status, version)
    ensures Story(Run(env, db, steps), ticket, status, version)
    decreases |steps|
  {
    if steps != [] {
      StepKeepsStory(env, db, steps[0], ticket, status, version);
      StoryForever(env, Next(env, db, steps[0]), steps[1..], ticket, status, version);
    }
  }

  // Replaying the SLA events leaves the clock paused whenever the ticket is pending
  // and running whenever it is new or open.
  lemma {:induction false} ClockForever(env: Env, db: Db, steps: seq<Step>, ticket: Key)
    requires ClockAgrees(db, ticket)
    ensures ClockAgrees(Run(env, db, steps), ticket)
    decreases |steps|
  {
    if steps != [] {
      StepKeepsClock(env, db, steps[0], ticket);
      ClockForever(env, Next(env, db, steps[0]), steps[1..], ticket);
    }
  }

  // A fresh ticket that no row mentions yet starts the story and agrees with its clock.
  lemma FreshTicketStarts(db: Db, ticket: Key)
    requires ticket in db.tickets && db.tickets[ticket].status.New?
    requires forall row :: row in db.history ==> row.ticket != ticket
    requires forall row :: row in db.outbox ==> !Mentions(row, ticket)
    ensures Story(db, ticket, New, db.tickets[ticket].version) && ClockAgrees(db, ticket)
  {
    NoHistory(db.history, ticket);
    NoRows(db.outbox, ticket);
  }

  predicate Mentions(row: OutboxRow, ticket: Key) {
    !row.WebhookQueued? && row.ticket == ticket
  }

  lemma {:induction false} NoHistory(history: seq<HistoryRow>, ticket: Key)
    requires forall row :: row in history ==> row.ticket != ticket
    ensures HistoryOf(history, ticket) == []
  {
    if history != [] {
      NoHistory(history[..|history| - 1], ticket);
    }
  }

  lemma {:induction false} NoRows(outbox: seq<OutboxRow>, ticket: Key)
    requires forall row :: row in outbox ==> !Mentions(row, ticket)
    ensures UpdatesOf(outbox, ticket) == [] && !Paused(false, outbox, ticket)
  {
    if outbox != [] {
      NoRows(outbox[..|outbox| - 1], ticket);
      assert !Mentions(outbox[|outbox| - 1], ticket);
    }
  }

  // ------------------------------------------------------------- link timestamps

  predicate NotBefore(later: Option<int>, earlier: Option<int>) {
    earlier.Some? ==> later.Some? && later.value >= earlier.value
  }

  lemma LinkStepForward(env: Env, db: Db, event: Key, i: nat, now: int, after: Db, j: nat)
    requires event in db.envelopes && i < |db.links| && j < |db.links|
    requires TransactOnLink(env, db, event, i, now) == Ok(after)
    ensures |after.links| == |db.links| && NotBefore(after.links[j].jiraUpdatedAt, db.links[j].jiraUpdatedAt)
    ensures after.links[j].id == db.links[j].id
  {
    var link, envelope := db.links[i], db.envelopes[event];
    var connection := LoadConnection(db, link);
    if !link.orphaned && connection.Some? {
      var account := connection.value.integrationAccountId;
      ClassifiedTime(envelope.eventType, envelope.payload, account, link.jiraUpdatedAt, env.parseDate);
      var c :=
        ClassifyJiraEvent(envelope.eventType, envelope.payload, account, link.jiraUpdatedAt, env.parseDate).value;
      if !c.isLoopOrigin && !c.isStale {
        ChangeKeeps(env, db, event, i, c, LoadMapping(db, link), now);
      }
    }
  }

  lemma StepForward(env: Env, db: Db, step: Step, j: nat)
    requires j < |db.links|
    ensures |Next(env, db, step).links| == |db.links|
    ensures NotBefore(Next(env, db, step).links[j].jiraUpdatedAt, db.links[j].jiraUpdatedAt)
    ensures Next(env, db, step).links[j].id == db.links[j].id
  {
    if step.Delivered? && Commits(env, db, step.event, step.now, step.fault) {
      var claimed := Claimed(db, step.event);
      var resolved := ResolveLink(claimed, step.event.tenant, claimed.envelopes[step.event].issueId);
      if resolved.Some? {
        LinkStepForward(env, claimed, step.event, resolved.value, step.now, Next(env, db, step), j);
      }
    }
  }

  // In any run no link's jira_updated_at ever moves back.
  lemma {:induction false} NeverBackwards(env: Env, db: Db, steps: seq<Step>, j: nat)
    requires j < |db.links|
    ensures |Run(env, db, steps).links| == |db.links|
    ensures NotBefore(Run(env, db, steps).links[j].jiraUpdatedAt, db.links[j].jiraUpdatedAt)
    ensures Run(env, db, steps).links[j].id == db.links[j].id
    decreases |steps|
  {
    if steps != [] {
      StepForward(env, db, steps[0], j);
      NeverBackwards(env, Next(env, db, steps[0]), steps[1..], j);
    }
  }

  // ------------------------------------------------------------- orphaned links

  lemma OrphanUntouched(env: Env, db: Db, event: Key, i: nat, now: int, after: Db, j: nat)
    requires event in db.envelopes && i < |db.links| && j < |db.links|
    requires TransactOnLink(env, db, event, i, now) == Ok(after)
    requires db.links[j].orphaned
    ensures |after.links| == |db.links| && after.links[j] == db.links[j]
  {
    var link, envelope := db.links[i], db.envelopes[event];
    var connection := LoadConnection(db, link);
    if !link.orphaned && connection.Some? {
      var c := ClassifyJiraEvent(envelope.eventType, envelope.payload, connection.value.integrationAccountId,
                                 link.jiraUpdatedAt, env.parseDate).value;
      if !c.isLoopOrigin && !c.isStale {
        ChangeKeeps(env, db, event, i, c, LoadMapping(db, link), now);
      }
    }
  }

  lemma StepKeepsOrphan(env: Env, db: Db, step: Step, j: nat)
    requires j < |db.links| && db.links[j].orphaned
    ensures j < |Next(env, db, step).links| && Next(env, db, step).links[j] == db.links[j]
  {
    if step.Delivered? && Commits(env, db, step.event, step.now, step.fault) {
      var claimed := Claimed(db, step.event);
      var resolved := ResolveLink(claimed, step.event.tenant, claimed.envelopes[step.event].issueId);
      if resolved.Some? {
        OrphanUntouched(env, claimed, step.event, resolved.value, step.now, Next(env, db, step), j);
      }
    }
  }

  // After the deletion of its issue nothing changes a link any more.
  lemma {:induction false} OrphanedForever(env: Env, db: Db, steps: seq<Step>, j: nat)
    requires j < |db.links| && db.links[j].orphaned
    ensures j < |Run(env, db, steps).links| && Run(env, db, steps).links[j] == db.links[j]
    decreases |steps|
  {
    if steps != [] {
      StepKeepsOrphan(env, db, steps[0], j);
      OrphanedForever(env, Next(env, db, steps[0]), steps[1..], j);
    }
  }

  // ----------------------------------------------------------- mirrored comments

  function MirrorCount(rows: seq<Comment>, tenant: string, ref: string): nat {
    if rows == [] then 0
    else (if IsMirrorOf(rows[0], tenant, ref) then 1 else 0) + MirrorCount(rows[1..], tenant, ref)
  }

  lemma {:induction false} MirrorCountLast(rows: seq<Comment>, row: Comment, tenant: string, ref: string)
    ensures MirrorCount(rows + [row], tenant, ref) ==
            MirrorCount(rows, tenant, ref) + if IsMirrorOf(row, tenant, ref) then 1 else 0
  {
    if rows == [] {
      assert [] + [row] == [row] && [row][1..] == [];
    } else {
      assert (rows + [row])[1..] == rows[1..] + [row];
      MirrorCountLast(rows[1..], row, tenant, ref);
    }
  }

  lemma {:induction false} NoMirrorNoCount(rows: seq<Comment>, tenant: string, ref: string)
    requires !HasMirror(rows, tenant, ref)
    ensures MirrorCount(rows, tenant, ref) == 0
  {
    if rows != [] {
      assert rows[0] in rows;
      NoMirrorNoCount(rows[1..], tenant, ref);
    }
  }

  lemma {:induction false} EditsKeepCount(rows: seq<Comment>, editTenant: string, editRef: string, body: string,
                                          tenant: string, ref: string)
    ensures MirrorCount(EditMirrors(rows, editTenant, editRef, body), tenant, ref) == MirrorCount(rows, tenant, ref)
  {
    if rows != [] {
      EditsKeepCount(rows[1..], editTenant, editRef, body, tenant, ref);
      var edited := EditMirrors(rows, editTenant, editRef, body);
      assert edited[1..] == EditMirrors(rows[1..], editTenant, editRef, body);
    }
  }

  lemma CommentKeepsMirrors(env: Env, db: Db, link: Link, comment: JiraComment, visibility: string, tenant: string,
                            ref: string)
    requires MirrorCount(db.comments, tenant, ref) <= 1
    ensures MirrorCount(CommentChange(env, db, link, comment, visibility).db.comments, tenant, ref) <= 1
  {
    var key, body := Key(link.tenant, link.ticketId), MirroredBody(env, comment);
    if comment.isEdit {
      EditsKeepCount(db.comments, link.tenant, comment.id, body, tenant, ref);
    } else if HasOrganization(db, key) && !HasMirror(db.comments, link.tenant, comment.id) {
      MirrorCountLast(db.comments, Comment(key, body, visibility, Some(comment.id)), tenant, ref);
      NoMirrorNoCount(db.comments, link.tenant, comment.id);
    }
  }

  lemma ChangeKeepsMirrors(env: Env, db: Db, event: Key, i: nat, c: ClassifiedEvent, mapping: Mapping, now: int,
                           tenant: string, ref: string)
    requires i < |db.links| && MirrorCount(db.comments, tenant, ref) <= 1
    ensures MirrorCount(ApplyChange(env, db, event, i, c, mapping, now).db.comments, tenant, ref) <= 1
  {
    var link := db.links[i];
    if c.kind.IssueDeleted? {
      MirrorCountLast(db.comments, Comment(Key(link.tenant, link.ticketId), DeletedNote(link), "internal", None),
                      tenant, ref);
    } else if c.comment.Some? {
      CommentKeepsMirrors(env, db, link, c.comment.value, mapping.rules.commentVisibility, tenant, ref);
    }
  }

  lemma OnLinkKeepsMirrors(env: Env, db: Db, event: Key, i: nat, now: int, after: Db, tenant: string, ref: string)
    requires event in db.envelopes && i < |db.links| && TransactOnLink(env, db, event, i, now) == Ok(after)
    requires MirrorCount(db.comments, tenant, ref) <= 1
    ensures MirrorCount(after.comments, tenant, ref) <= 1
  {
    var link, envelope := db.links[i], db.envelopes[event];
    var connection := LoadConnection(db, link);
    if !link.orphaned && connection.Some? {
      var c := ClassifyJiraEvent(envelope.eventType, envelope.payload, connection.value.integrationAccountId,
                                 link.jiraUpdatedAt, env.parseDate).value;
      if !c.isLoopOrigin && !c.isStale {
        ChangeKeepsMirrors(env, db, event, i, c, LoadMapping(db, link), now, tenant, ref);
      }
    }
  }

  lemma StepKeepsMirrors(env: Env, db: Db, step: Step, tenant: string, ref: string)
    requires MirrorCount(db.comments, tenant, ref) <= 1
    ensures MirrorCount(Next(env, db, step).comments, tenant, ref) <= 1
  {
    if step.Delivered? && Commits(env, db, step.event, step.now, step.fault) {
      var claimed := Claimed(db, step.event);
      var resolved := ResolveLink(claimed, step.event.tenant, claimed.envelopes[step.event].issueId);
      if resolved.Some? {
        OnLinkKeepsMirrors(env, claimed, step.event, resolved.value, step.now, Next(env, db, step), tenant, ref);
      }
    }
  }

  // Over any run a Jira comment has at most one mirror in a tenant.
  lemma {:induction false} OneMirrorForever(env: Env, db: Db, steps: seq<Step>, tenant: string, ref: string)
    requires MirrorCount(db.comments, tenant, ref) <= 1
    ensures MirrorCount(Run(env, db, steps).comments, tenant, ref) <= 1
    decreases |steps|
  {
    if steps != [] {
      StepKeepsMirrors(env, db, steps[0], tenant, ref);
      OneMirrorForever(env, Next(env, db, steps[0]), steps[1..], tenant, ref);
    }
  }
}
