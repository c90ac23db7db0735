/**
 * The inbound half of the Jira sync: webhook ingestion with deduplication, and
 * the worker that claims one envelope and applies it in one transaction.
 *
 * The database is a value; a transaction is one atomic step from one value to
 * the next. A thrown error rolls the transaction back and marks the envelope
 * failed.
 */
module InboundSync {
  import opened Basics
  import opened Json
  import opened JiraEvents

  // ---------------------------------------------------------------------- tables

  // A row key: the tenant and an id unique within it.
  datatype Key = Key(tenant: string, id: string)

  datatype TicketStatus =
    | New | Open | PendingCustomer | PendingEngineering | Resolved | Closed
    | OtherStatus(name: string)

  datatype SkipReason =
    | Unlinked | Orphaned | RevokedConnection | OriginLoop | StaleEvent | UnmappedStatus | NoApplicableChange

  datatype EnvelopeState = Pending | Processing | Processed | Skipped(reason: SkipReason) | Failed | Ignored

  datatype Envelope = Envelope(eventType: string, issueId: Option<string>, payload: Json, state: EnvelopeState,
                               attempts: nat)

  datatype LinkState = LinkPending | LinkLinked | LinkFailed | LinkRemoved

  datatype Link = Link(id: string, tenant: string, ticketId: string, connectionId: string, mappingId: string,
                       issueId: Option<string>, issueKey: Option<string>, state: LinkState, orphaned: bool,
                       jiraStatus: Option<string>, jiraAssignee: Option<string>,
                       jiraUpdatedAt: Option<int>, lastSyncedAt: Option<int>)

  // An empty id or category stands for an absent one.
  datatype StatusMapEntry = StatusMapEntry(jiraStatusId: string, jiraStatusCategory: string,
                                           opsninjaStatus: TicketStatus)

  datatype SyncRules = SyncRules(applyInboundStatus: bool, autoResolveOnJiraDone: bool,
                                 applyInboundComments: bool, commentVisibility: string)

  datatype Mapping = Mapping(statusMap: seq<StatusMapEntry>, rules: SyncRules, enabled: bool)

  datatype Connection = Connection(revoked: bool, integrationAccountId: Option<string>)

  datatype Ticket = Ticket(status: TicketStatus, version: int, organizationId: string, resolvedAt: Option<int>)

  datatype HistoryRow = HistoryRow(ticket: Key, fromStatus: TicketStatus, toStatus: TicketStatus)

  datatype OutboxRow =
    | WebhookQueued(event: Key, connectionId: string, eventType: string)
    | TicketUpdated(ticket: Key, fromStatus: TicketStatus, toStatus: TicketStatus, linkId: string)
    | TicketResolved(ticket: Key, linkId: string)
    | SlaPause(ticket: Key)
    | SlaResume(ticket: Key)
    | CommentAdded(ticket: Key, linkId: string)

  datatype AuditRow = AuditRow(event: Key, ticket: Key, before: TicketStatus, after: TicketStatus)

  datatype Comment = Comment(ticket: Key, body: string, visibility: string, externalRef: Option<string>)

  datatype Db = Db(
    envelopes: map<Key, Envelope>,
    links: seq<Link>,
    mappings: map<Key, Mapping>,
    connections: map<Key, Connection>,
    tickets: map<Key, Ticket>,
    history: seq<HistoryRow>,
    outbox: seq<OutboxRow>,
    audit: seq<AuditRow>,
    comments: seq<Comment>)

  // Date parsing and rich-text rendering are foreign code.
  datatype Env = Env(parseDate: string -> Option<int>, renderAdf: Json -> string)

  // ------------------------------------------------------------- transition tables

  predicate Allowed(from: TicketStatus, to: TicketStatus) {
    match from
    case New => to in {Open, PendingCustomer, PendingEngineering, Resolved}
    case Open => to in {PendingCustomer, PendingEngineering, Resolved, Closed}
    case PendingCustomer => to in {Open, PendingEngineering, Resolved, Closed}
    case PendingEngineering => to in {Open, PendingCustomer, Resolved, Closed}
    case Resolved => to in {Open, Closed}
    case Closed => to == Open
    case OtherStatus(_) => false
  }

  predicate IsPending(status: TicketStatus) {
    status.PendingCustomer? || status.PendingEngineering?
  }

  predicate PausesSla(from: TicketStatus, to: TicketStatus) {
    match from
    case New => to in {PendingCustomer, PendingEngineering}
    case Open => to in {PendingCustomer, PendingEngineering}
    case PendingCustomer => to == PendingEngineering
    case PendingEngineering => to == PendingCustomer
    case _ => false
  }

  predicate ResumesSla(from: TicketStatus, to: TicketStatus) {
    from in {PendingCustomer, PendingEngineering, Resolved, Closed} && to == Open
  }

  // --------------------------------------------------------------- reading tables

  predicate IsLive(link: Link, tenant: string, issueId: string) {
    link.tenant == tenant && link.issueId == Some(issueId) && (link.state.LinkLinked? || link.state.LinkPending?)
  }

  // The first live link of an issue at or after position i.
  function FindLink(links: seq<Link>, tenant: string, issueId: string, i: nat): (r: Option<nat>)
    requires i <= |links|
    ensures r.Some? ==> i <= r.value < |links| && IsLive(links[r.value], tenant, issueId)
    ensures r.Some? ==> forall j :: i <= j < r.value ==> !IsLive(links[j], tenant, issueId)
    ensures r.None? ==> forall j :: i <= j < |links| ==> !IsLive(links[j], tenant, issueId)
    decreases |links| - i
  {
    if i == |links| then None
    else if IsLive(links[i], tenant, issueId) then Some(i)
    else FindLink(links, tenant, issueId, i + 1)
  }

  function ResolveLink(db: Db, tenant: string, issueId: Option<string>): (r: Option<nat>)
    ensures r.Some? ==> r.value < |db.links| && db.links[r.value].tenant == tenant
  {
    if issueId.None? || issueId.value == "" then None else FindLink(db.links, tenant, issueId.value, 0)
  }

  const NO_RULES := SyncRules(true, false, true, "internal")

  function LoadMapping(db: Db, link: Link): Mapping {
    var key := Key(link.tenant, link.mappingId);
    if key in db.mappings && db.mappings[key].enabled then db.mappings[key] else Mapping([], NO_RULES, false)
  }

  function LoadConnection(db: Db, link: Link): Option<Connection> {
    var key := Key(link.tenant, link.connectionId);
    if key in db.connections && !db.connections[key].revoked then Some(db.connections[key]) else None
  }

  predicate EntryMatches(entry: StatusMapEntry, status: JiraStatus) {
    (entry.jiraStatusId != "" && entry.jiraStatusId == status.id) ||
    (entry.jiraStatusCategory != "" && entry.jiraStatusCategory == status.categoryKey)
  }

  predicate IsFirstMatch(statusMap: seq<StatusMapEntry>, status: JiraStatus, i: nat) {
    i < |statusMap| && EntryMatches(statusMap[i], status) &&
    forall j :: 0 <= j < i ==> !EntryMatches(statusMap[j], status)
  }

  // The ticket status a Jira status is translated to: the first matching entry.
  function Translate(statusMap: seq<StatusMapEntry>, status: JiraStatus): (r: Option<TicketStatus>)
    ensures r.None? <==> forall entry :: entry in statusMap ==> !EntryMatches(entry, status)
    ensures forall i: nat :: IsFirstMatch(statusMap, status, i) ==> r == Some(statusMap[i].opsninjaStatus)
  {
    if statusMap == [] then None
    else if EntryMatches(statusMap[0], status) then Some(statusMap[0].opsninjaStatus)
    else Translate(statusMap[1..], status)
  }

  function TargetStatus(mapping: Mapping, status: JiraStatus): Option<TicketStatus> {
    match Translate(mapping.statusMap, status)
    case None => None
    case Some(mapped) =>
      Some(if mapping.rules.autoResolveOnJiraDone && status.categoryKey == "done" then Resolved else mapped)
  }

  // The link an issue resolves to, while events are applied to it.
  predicate IsLiveLink(db: Db, tenant: string, issueId: string, i: nat) {
    ResolveLink(db, tenant, Some(issueId)) == Some(i) && !db.links[i].orphaned && LoadConnection(db, db.links[i]).Some?
  }

  // ------------------------------------------------------------------ transactions

  // What applying a change gives: a reason to skip the envelope, if any, and the new tables.
  datatype Change = Change(reason: Option<SkipReason>, db: Db)

  function TransitionEvents(ticket: Key, from: TicketStatus, to: TicketStatus, linkId: string): seq<OutboxRow> {
    [TicketUpdated(ticket, from, to, linkId)] +
    (if to.Resolved? then [TicketResolved(ticket, linkId)] else []) +
    (if PausesSla(from, to) then [SlaPause(ticket)] else if ResumesSla(from, to) then [SlaResume(ticket)] else [])
  }

  function Transition(db: Db, event: Key, key: Key, to: TicketStatus, linkId: string, now: int): Db
    requires key in db.tickets
  {
    var ticket := db.tickets[key];
    var resolvedAt := if to.Resolved? then Some(now) else ticket.resolvedAt;
    db.(
      tickets := db.tickets[key := ticket.(status := to, version := ticket.version + 1, resolvedAt := resolvedAt)],
      history := db.history + [HistoryRow(key, ticket.status, to)],
      outbox := db.outbox + TransitionEvents(key, ticket.status, to, linkId),
      audit := db.audit + [AuditRow(event, key, ticket.status, to)])
  }

  function StatusChange(db: Db, event: Key, link: Link, status: Option<JiraStatus>, mapping: Mapping,
                        now: int): Change {
    if status.None? then Change(Some(NoApplicableChange), db)
    else
      match TargetStatus(mapping, status.value)
      case None => Change(Some(UnmappedStatus), db)
      case Some(to) =>
        var key := Key(link.tenant, link.ticketId);
        if key !in db.tickets then Change(Some(NoApplicableChange), db)
        else if db.tickets[key].status == to then Change(None, db)
        else if !Allowed(db.tickets[key].status, to) then Change(Some(NoApplicableChange), db)
        else Change(None, Transition(db, event, key, to, link.id, now))
  }

  const MARKER_LINE := "\n" + ORIGIN_MARKER

  function MirroredBody(env: Env, comment: JiraComment): string {
    env.renderAdf(comment.body) +
    (match comment.authorDisplayName
     case Some(name) => if name == "" then " (via Jira)" else " (via Jira — " + name + ")"
     case None => " (via Jira)") +
    MARKER_LINE
  }

  predicate IsMirrorOf(row: Comment, tenant: string, ref: string) {
    row.ticket.tenant == tenant && row.externalRef == Some(ref)
  }

  function EditMirrors(rows: seq<Comment>, tenant: string, ref: string, body: string): (r: seq<Comment>)
    ensures |r| == |rows|
  {
    if rows == [] then []
    else
      [if IsMirrorOf(rows[0], tenant, ref) then rows[0].(body := body) else rows[0]] +
      EditMirrors(rows[1..], tenant, ref, body)
  }

  predicate HasMirror(rows: seq<Comment>, tenant: string, ref: string) {
    exists row :: row in rows && IsMirrorOf(row, tenant, ref)
  }

  predicate HasOrganization(db: Db, key: Key) {
    key in db.tickets && db.tickets[key].organizationId != ""
  }

  function CommentChange(env: Env, db: Db, link: Link, comment: JiraComment, visibility: string): Change {
    var key := Key(link.tenant, link.ticketId);
    var body := MirroredBody(env, comment);
    if comment.isEdit then Change(None, db.(comments := EditMirrors(db.comments, link.tenant, comment.id, body)))
    else if !HasOrganization(db, key) then Change(Some(NoApplicableChange), db)
    else if HasMirror(db.comments, link.tenant, comment.id) then Change(None, db)
    else Change(None, db.(comments := db.comments + [Comment(key, body, visibility, Some(comment.id))],
                          outbox := db.outbox + [CommentAdded(key, link.id)]))
  }

  function DeletedNote(link: Link): string {
    "[System] Linked Jira issue " + (if link.issueKey.Some? then link.issueKey.value else "unknown") +
    " was deleted. No further sync will occur."
  }

  function Deletion(db: Db, i: nat): Db
    requires i < |db.links|
  {
    var link := db.links[i];
    var key := Key(link.tenant, link.ticketId);
    var orphaned := db.(links := db.links[i := link.(orphaned := true)]);
    if HasOrganization(db, key) then
      orphaned.(comments := db.comments + [Comment(key, DeletedNote(link), "internal", None)])
    else orphaned
  }

  function ApplyChange(env: Env, db: Db, event: Key, i: nat, c: ClassifiedEvent, mapping: Mapping, now: int): Change
    requires i < |db.links|
  {
    var link := db.links[i];
    if c.kind.IssueDeleted? then Change(None, Deletion(db, i))
    else if c.kind.IssueStatusChanged? && mapping.rules.applyInboundStatus then
      StatusChange(db, event, link, c.jiraStatus, mapping, now)
    else if c.comment.Some? && mapping.rules.applyInboundComments then
      CommentChange(env, db, link, c.comment.value, mapping.rules.commentVisibility)
    else if !c.kind.IssueAssigneeChanged? then Change(Some(NoApplicableChange), db)
    else Change(None, db)
  }

  // The link row after an applied event.
  function Synced(link: Link, c: ClassifiedEvent, now: int): Link {
    link.(
      jiraStatus := if c.jiraStatus.Some? then Some(c.jiraStatus.value.name) else link.jiraStatus,
      jiraAssignee := if c.jiraAssignee.SetTo? then c.jiraAssignee.name else link.jiraAssignee,
      jiraUpdatedAt := if c.jiraUpdatedAt.At? then Some(c.jiraUpdatedAt.ms) else link.jiraUpdatedAt,
      lastSyncedAt := Some(now))
  }

  function Mark(db: Db, event: Key, state: EnvelopeState): Db
    requires event in db.envelopes
  {
    db.(envelopes := db.envelopes[event := db.envelopes[event].(state := state)])
  }

  function ApplyEvent(env: Env, db: Db, event: Key, i: nat, c: ClassifiedEvent, now: int): Result<Db, string>
    requires event in db.envelopes && i < |db.links|
  {
    // An unparsable date cannot be written to the link row.
    if c.jiraUpdatedAt.InvalidStamp? then Err("invalid input syntax for type timestamp")
    else
      var change := ApplyChange(env, db, event, i, c, LoadMapping(db, db.links[i]), now);
      ChangeKeeps(env, db, event, i, c, LoadMapping(db, db.links[i]), now);
      var synced := change.db.(links := change.db.links[i := Synced(change.db.links[i], c, now)]);
      Ok(Mark(synced, event, match change.reason case Some(reason) => Skipped(reason) case None => Processed))
  }

  // Same envelopes, mappings and connections, and the same links but for one orphan mark.
  predicate SameButLink(before: Db, after: Db, i: nat, orphaned: bool)
    requires i < |before.links|
  {
    after.envelopes == before.envelopes && after.mappings == before.mappings &&
    after.connections == before.connections &&
    after.links == before.links[i := before.links[i].(orphaned := orphaned)]
  }

  lemma DeletionKeeps(db: Db, i: nat)
    requires i < |db.links|
    ensures SameButLink(db, Deletion(db, i), i, true)
  {
  }

  lemma StatusChangeKeeps(db: Db, event: Key, i: nat, status: Option<JiraStatus>, mapping: Mapping, now: int)
    requires i < |db.links|
    ensures SameButLink(db, StatusChange(db, event, db.links[i], status, mapping, now).db, i, db.links[i].orphaned)
  {
    assert db.links[i := db.links[i]] == db.links;
  }

  lemma CommentChangeKeeps(env: Env, db: Db, i: nat, comment: JiraComment, visibility: string)
    requires i < |db.links|
    ensures SameButLink(db, CommentChange(env, db, db.links[i], comment, visibility).db, i, db.links[i].orphaned)
  {
    assert db.links[i := db.links[i]] == db.links;
  }

  lemma ChangeKeeps(env: Env, db: Db, event: Key, i: nat, c: ClassifiedEvent, mapping: Mapping, now: int)
    requires i < |db.links|
    ensures SameButLink(db, ApplyChange(env, db, event, i, c, mapping, now).db, i,
                        db.links[i].orphaned || c.kind.IssueDeleted?)
  {
    if c.kind.IssueDeleted? {
      DeletionKeeps(db, i);
    } else if c.kind.IssueStatusChanged? && mapping.rules.applyInboundStatus {
      StatusChangeKeeps(db, event, i, c.jiraStatus, mapping, now);
    } else if c.comment.Some? && mapping.rules.applyInboundComments {
      CommentChangeKeeps(env, db, i, c.comment.value, mapping.rules.commentVisibility);
    } else {
      assert db.links[i := db.links[i]] == db.links;
    }
  }

  function TransactOnLink(env: Env, db: Db, event: Key, i: nat, now: int): Result<Db, string>
    requires event in db.envelopes && i < |db.links|
  {
    var link, envelope := db.links[i], db.envelopes[event];
    if link.orphaned then Ok(Mark(db, event, Skipped(Orphaned)))
    else
      match LoadConnection(db, link)
      case None => Ok(Mark(db, event, Skipped(RevokedConnection)))
      case Some(connection) =>
        match ClassifyJiraEvent(envelope.eventType, envelope.payload, connection.integrationAccountId,
                                link.jiraUpdatedAt, env.parseDate)
        case Err(e) => Err(e)
        case Ok(c) =>
          if c.isLoopOrigin then Ok(Mark(db, event, Skipped(OriginLoop)))
          else if c.isStale then Ok(Mark(db, event, Skipped(StaleEvent)))
          else ApplyEvent(env, db, event, i, c, now)
  }

  // The transaction from after the claim to the commit; Err is a thrown error.
  function Transact(env: Env, db: Db, event: Key, now: int): Result<Db, string>
    requires event in db.envelopes
  {
    match ResolveLink(db, event.tenant, db.envelopes[event].issueId)
    case None => Ok(Mark(db, event, Skipped(Unlinked)))
    case Some(i) => TransactOnLink(env, db, event, i, now)
  }

  predicate Claimable(db: Db, event: Key) {
    event in db.envelopes && (db.envelopes[event].state.Pending? || db.envelopes[event].state.Failed?)
  }

  function Claimed(db: Db, event: Key): Db
    requires event in db.envelopes
  {
    var envelope := db.envelopes[event];
    db.(envelopes := db.envelopes[event := envelope.(state := Processing, attempts := envelope.attempts + 1)])
  }

  function MarkedFailed(db: Db, event: Key): Db
    requires event in db.envelopes
  {
    var envelope := db.envelopes[event];
    db.(envelopes := db.envelopes[event := envelope.(state := Failed, attempts := envelope.attempts + 1)])
  }

  predicate Commits(env: Env, db: Db, event: Key, now: int, fault: bool) {
    Claimable(db, event) && !fault && Transact(env, Claimed(db, event), event, now).Ok?
  }

  // One delivery to the worker. `fault` is a database error at some point after the claim.
  function Deliver(env: Env, db: Db, event: Key, now: int, fault: bool): Db {
    if !Claimable(db, event) then db
    else if Commits(env, db, event, now, fault) then Transact(env, Claimed(db, event), event, now).value
    else MarkedFailed(db, event)
  }

  // -------------------------------------------------------------------- ingestion

  predicate IsKnownType(eventType: string) {
    eventType in {"jira:issue_updated", "jira:issue_created", "jira:issue_deleted",
                  "comment_created", "comment_updated", "comment_deleted"}
  }

  function NewEnvelope(eventType: string, issueId: Option<string>, payload: Json): Envelope {
    Envelope(eventType, issueId, payload, if IsKnownType(eventType) then Pending else Ignored, 0)
  }

  // The event id: the payload's own, or its type and timestamp, or the clock.
  function EventIdOf(payload: Json, now: string): string {
    if Given(Prop(payload, "id")) then TextOf(Prop(payload, "id").value)
    else
      EventTypeOf(payload) + "-" +
      (if Given(Prop(payload, "timestamp")) then TextOf(Prop(payload, "timestamp").value) else now)
  }

  function EventTypeOf(payload: Json): string {
    if Given(Prop(payload, "webhookEvent")) then TextOf(Prop(payload, "webhookEvent").value) else "unknown"
  }

  // value ?? fallback takes the value.
  predicate Given(value: Option<Json>) {
    value.Some? && value.value != JNull
  }

  // A redelivered payload keeps its event id, whatever the clock says, exactly when it
  // carries an id or a timestamp.
  lemma RedeliveryKeepsId(payload: Json, a: string, b: string)
    ensures EventIdOf(payload, a) == EventIdOf(payload, b) <==>
            Given(Prop(payload, "id")) || Given(Prop(payload, "timestamp")) || a == b
  {
    var prefix := EventTypeOf(payload) + "-";
    assert (prefix + a)[|prefix|..] == a && (prefix + b)[|prefix|..] == b;
  }

  function IssueIdOf(payload: Json): Option<string> {
    GetString(Some(payload), ["issue", "id"])
  }

  // Inserting an envelope; the unique index on tenant and event id rejects duplicates.
  function Ingest(db: Db, event: Key, connectionId: string, eventType: string, issueId: Option<string>,
                  payload: Json): Db {
    if event in db.envelopes then db
    else
      db.(envelopes := db.envelopes[event := NewEnvelope(eventType, issueId, payload)],
          outbox :=
            if IsKnownType(eventType) then db.outbox + [WebhookQueued(event, connectionId, eventType)]
            else db.outbox)
  }

  // A received payload, by its own names: a new event is stored whole under the tenant and
  // its id, waiting if its type is one the worker is sent, and queued once; a known one
  // changes nothing.
  lemma ReceivedIsStored(db: Db, tenant: string, connectionId: string, payload: Json, now: string, id: string,
                         eventType: string, issue: Json, issueId: string)
    requires Prop(payload, "id") == Some(JStr(id)) && Prop(payload, "webhookEvent") == Some(JStr(eventType))
    requires Prop(payload, "issue") == Some(issue) && Prop(issue, "id") == Some(JStr(issueId))
    ensures
      var event := Key(tenant, EventIdOf(payload, now));
      var after := Ingest(db, event, connectionId, EventTypeOf(payload), IssueIdOf(payload), payload);
      var isSent := eventType in {"jira:issue_updated", "jira:issue_created", "jira:issue_deleted", "comment_created",
                                  "comment_updated", "comment_deleted"};
      event == Key(tenant, id) &&
      if event in db.envelopes then after == db
      else after == db.(
             envelopes := db.envelopes[Key(tenant, id) := Envelope(eventType, Some(issueId), payload,
                                                                   if isSent then Pending else Ignored, 0)],
             outbox := db.outbox + if isSent then [WebhookQueued(Key(tenant, id), connectionId, eventType)] else [])
  {
    assert ["issue", "id"][1..] == ["id"] && ["id"][1..] == [];
    assert db.outbox + [] == db.outbox;
    assert GetString(Some(payload), ["issue", "id"]) == GetString(Some(issue), ["id"]) == Some(issueId);
  }

  // A reconciliation envelope: inserted without an outbox row, or rejected as a duplicate.
  function InsertSynthetic(db: Db, event: Key, issueId: string, payload: Json): Db {
    if event in db.envelopes then db
    else db.(envelopes := db.envelopes[event := Envelope("jira:issue_updated", Some(issueId), payload, Pending, 0)])
  }

  // ------------------------------------------------------------- the running system

  datatype ProcessingResult = ProcessedOne | SkippedOne(reason: SkipReason) | Threw

  // What a committed delivery reports: the verdict on its envelope.
  predicate Reports(result: ProcessingResult, db: Db, event: Key) {
    event in db.envelopes &&
    match result
    case ProcessedOne => db.envelopes[event].state == Processed
    case SkippedOne(reason) => db.envelopes[event].state == Skipped(reason)
    case Threw => db.envelopes[event].state == Failed
  }

  /** The worker and the receiver over one database. */
  class InboundHandler {
    const env: Env
    var db: Db

    constructor (env: Env, db: Db)
      ensures this.env == env && this.db == db
    {
      this.env := env;
      this.db := db;
    }

    method Receive(tenant: string, connectionId: string, payload: Json, now: string) returns (deduped: bool, event: Key)
      modifies this
      ensures event == Key(tenant, EventIdOf(payload, now))
      ensures db == Ingest(old(db), event, connectionId, EventTypeOf(payload), IssueIdOf(payload), payload)
      ensures deduped == (event in old(db).envelopes)
    {
      event := Key(tenant, EventIdOf(payload, now));
      var eventType, issueId := EventTypeOf(payload), IssueIdOf(payload);
      var state := if IsKnownType(eventType) then Pending else Ignored;
      deduped := event in db.envelopes;
      if !deduped {
        db := db.(envelopes := db.envelopes[event := Envelope(eventType, issueId, payload, state, 0)]);
      }
      if !deduped && state.Pending? {
        db := db.(outbox := db.outbox + [WebhookQueued(event, connectionId, eventType)]);
      }
    }

    method ClaimEnvelope(event: Key) returns (claimed: bool)
      modifies this
      ensures claimed == Claimable(old(db), event)
      ensures db == if claimed then Claimed(old(db), event) else old(db)
    {
      claimed := event in db.envelopes && (db.envelopes[event].state.Pending? || db.envelopes[event].state.Failed?);
      if claimed {
        var envelope := db.envelopes[event];
        db := db.(envelopes :=
          db.envelopes[event := envelope.(state := Processing, attempts := envelope.attempts + 1)]);
      }
    }

    method MarkEnvelope(event: Key, state: EnvelopeState)
      requires event in db.envelopes
      modifies this
      ensures db == Mark(old(db), event, state)
    {
      db := db.(envelopes := db.envelopes[event := db.envelopes[event].(state := state)]);
    }

    // The outbox events of a transition, pushed one by one.
    method CollectEvents(key: Key, from: TicketStatus, to: TicketStatus, linkId: string)
      returns (events: seq<OutboxRow>)
      ensures events == TransitionEvents(key, from, to, linkId)
    {
      events := [TicketUpdated(key, from, to, linkId)];
      if to.Resolved? {
        events := events + [TicketResolved(key, linkId)];
      }
      if PausesSla(from, to) {
        events := events + [SlaPause(key)];
      } else if ResumesSla(from, to) {
        events := events + [SlaResume(key)];
      }
    }

    method InsertOutbox(events: seq<OutboxRow>)
      modifies this
      ensures db == old(db).(outbox := old(db).outbox + events)
    {
      var k := 0;
      while k < |events|
        invariant 0 <= k <= |events|
        invariant db == old(db).(outbox := old(db).outbox + events[..k])
      {
        db := db.(outbox := db.outbox + [events[k]]);
        assert old(db).outbox + events[..k] + [events[k]] == old(db).outbox + events[..k + 1];
        k := k + 1;
      }
      assert events[..k] == events;
    }

    method ApplyStatusChange(event: Key, link: Link, status: Option<JiraStatus>, mapping: Mapping, now: int)
      returns (reason: Option<SkipReason>)
      modifies this
      ensures Change(reason, db) == StatusChange(old(db), event, link, status, mapping, now)
    {
      if status.None? {
        return Some(NoApplicableChange);
      }
      var target := TargetStatus(mapping, status.value);
      if target.None? {
        return Some(UnmappedStatus);
      }
      var to := target.value;
      var key := Key(link.tenant, link.ticketId);
      if key !in db.tickets {
        return Some(NoApplicableChange);
      }
      var ticket := db.tickets[key];
      if ticket.status == to {
        return None;
      }
      if !Allowed(ticket.status, to) {
        return Some(NoApplicableChange);
      }
      var resolvedAt := if to.Resolved? then Some(now) else ticket.resolvedAt;
      db := db.(tickets :=
        db.tickets[key := ticket.(status := to, resolvedAt := resolvedAt, version := ticket.version + 1)]);
      db := db.(history := db.history + [HistoryRow(key, ticket.status, to)]);
      var events := CollectEvents(key, ticket.status, to, link.id);
      InsertOutbox(events);
      db := db.(audit := db.audit + [AuditRow(event, key, ticket.status, to)]);
      reason := None;
    }

    method ApplyComment(link: Link, comment: JiraComment, visibility: string) returns (reason: Option<SkipReason>)
      modifies this
      ensures Change(reason, db) == CommentChange(env, old(db), link, comment, visibility)
    {
      var body := MirroredBody(env, comment);
      if comment.isEdit {
        db := db.(comments := EditMirrors(db.comments, link.tenant, comment.id, body));
        return None;
      }
      var key := Key(link.tenant, link.ticketId);
      if !HasOrganization(db, key) {
        return Some(NoApplicableChange);
      }
      if HasMirror(db.comments, link.tenant, comment.id) {
        return None;
      }
      db := db.(comments := db.comments + [Comment(key, body, visibility, Some(comment.id))]);
      db := db.(outbox := db.outbox + [CommentAdded(key, link.id)]);
      reason := None;
    }

    method ApplyIssueDeleted(i: nat)
      requires i < |db.links|
      modifies this
      ensures db == Deletion(old(db), i)
    {
      var link := db.links[i];
      db := db.(links := db.links[i := link.(orphaned := true)]);
      var key := Key(link.tenant, link.ticketId);
      if !HasOrganization(db, key) {
        return;
      }
      db := db.(comments := db.comments + [Comment(key, DeletedNote(link), "internal", None)]);
    }

    // The changes of one classified event, then the link row, then the envelope.
    method Apply(event: Key, i: nat, c: ClassifiedEvent, now: int) returns (result: ProcessingResult)
      requires event in db.envelopes && i < |db.links|
      modifies this
      ensures result.Threw? <==> ApplyEvent(env, old(db), event, i, c, now).Err?
      ensures !result.Threw? ==> Reports(result, db, event)
      ensures !result.Threw? ==> Ok(db) == ApplyEvent(env, old(db), event, i, c, now)
    {
      var link := db.links[i];
      var mapping := LoadMapping(db, link);
      ChangeKeeps(env, db, event, i, c, mapping, now);
      var reason := None;
      if c.kind.IssueDeleted? {
        ApplyIssueDeleted(i);
      } else if c.kind.IssueStatusChanged? && mapping.rules.applyInboundStatus {
        reason := ApplyStatusChange(event, link, c.jiraStatus, mapping, now);
      } else if c.comment.Some? && mapping.rules.applyInboundComments {
        reason := ApplyComment(link, c.comment.value, mapping.rules.commentVisibility);
      } else if !c.kind.IssueAssigneeChanged? {
        reason := Some(NoApplicableChange);
      }
      if c.jiraUpdatedAt.InvalidStamp? {
        return Threw;
      }
      db := db.(links := db.links[i := Synced(db.links[i], c, now)]);
      if reason.Some? {
        MarkEnvelope(event, Skipped(reason.value));
        return SkippedOne(reason.value);
      }
      MarkEnvelope(event, Processed);
      result := ProcessedOne;
    }

    // The body of the transaction after the claim.
    method Transaction(event: Key, now: int) returns (result: ProcessingResult)
      requires event in db.envelopes
      modifies this
      ensures result.Threw? <==> Transact(env, old(db), event, now).Err?
      ensures !result.Threw? ==> Reports(result, db, event)
      ensures !result.Threw? ==> Ok(db) == Transact(env, old(db), event, now)
    {
      var envelope := db.envelopes[event];
      var resolved := ResolveLink(db, event.tenant, envelope.issueId);
      if resolved.None? {
        MarkEnvelope(event, Skipped(Unlinked));
        return SkippedOne(Unlinked);
      }
      var link := db.links[resolved.value];
      if link.orphaned {
        MarkEnvelope(event, Skipped(Orphaned));
        return SkippedOne(Orphaned);
      }
      var connection := LoadConnection(db, link);
      if connection.None? {
        MarkEnvelope(event, Skipped(RevokedConnection));
        return SkippedOne(RevokedConnection);
      }
      var classified := ClassifyJiraEvent(envelope.eventType, envelope.payload, connection.value.integrationAccountId,
                                          link.jiraUpdatedAt, env.parseDate);
      if classified.Err? {
        return Threw;
      }
      if classified.value.isLoopOrigin {
        MarkEnvelope(event, Skipped(OriginLoop));
        return SkippedOne(OriginLoop);
      }
      if classified.value.isStale {
        MarkEnvelope(event, Skipped(StaleEvent));
        return SkippedOne(StaleEvent);
      }
      result := Apply(event, resolved.value, classified.value, now);
    }

    method MarkFailed(event: Key)
      requires event in db.envelopes
      modifies this
      ensures db == MarkedFailed(old(db), event)
    {
      var envelope := db.envelopes[event];
      db := db.(envelopes := db.envelopes[event := envelope.(state := Failed, attempts := envelope.attempts + 1)]);
    }

    // One message from the queue.
    method Handle(event: Key, now: int, fault: bool) returns (result: ProcessingResult)
      modifies this
      ensures db == Deliver(env, old(db), event, now, fault)
      ensures result.Threw? <==> Claimable(old(db), event) && !Commits(env, old(db), event, now, fault)
      ensures Claimable(old(db), event) ==> Reports(result, db, event)
      ensures !Claimable(old(db), event) ==> result == SkippedOne(NoApplicableChange)
    {
      var snapshot := db;
      var claimed := ClaimEnvelope(event);
      if !claimed {
        return SkippedOne(NoApplicableChange);
      }
      result := Transaction(event, now);
      if fault || result.Threw? {
        db := snapshot;
        MarkFailed(event);
        return Threw;
      }
    }
  }
}
