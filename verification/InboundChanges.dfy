/**
 * What a delivered event does to the ticket of its link: where an update moves it, what a
 * comment mirrors, what a deletion leaves.
 */
module InboundChanges {
  import opened Basics
  import opened Json
  import opened JiraEvents
  import opened InboundSync
  import opened InboundRuns
  import opened InboundConvergence
  import opened TransitionTable
  import LikePattern

  // ----------------------------------------------------------- reading an update

  // Some item of the change log is about a field.
  predicate IsAbout(item: Json, name: string) {
    item.JObj? && Get(item.fields, "field") == Some(JStr(name))
  }

  predicate SomeIsAbout(items: seq<Json>, name: string) {
    exists i :: 0 <= i < |items| && IsAbout(items[i], name)
  }

  predicate NoneIsNull(items: seq<Json>) {
    forall i :: 0 <= i < |items| ==> items[i] != JNull
  }

  lemma {:induction false} SomeItemExactly(items: seq<Json>, name: string)
    requires NoneIsNull(items)
    ensures SomeItemHasField(items, name) == Ok(SomeIsAbout(items, name))
  {
    if items != [] {
      SomeItemExactly(items[1..], name);
      if SomeIsAbout(items[1..], name) {
        var i :| 0 <= i < |items[1..]| && IsAbout(items[1..][i], name);
        assert IsAbout(items[i + 1], name);
      }
      if SomeIsAbout(items, name) && !IsAbout(items[0], name) {
        var i :| 0 <= i < |items| && IsAbout(items[i], name);
        assert IsAbout(items[1..][i - 1], name);
      }
    }
  }

  // An update concerns the status unless its change log is about the assignee and not
  // about the status.
  predicate ConcernsStatus(payload: Json) {
    var items := ChangelogItems(payload);
    IsObject(IssueFields(payload)) ==> SomeIsAbout(items, "status") || !SomeIsAbout(items, "assignee")
  }

  function StatusIn(payload: Json): Option<JiraStatus> {
    if IsObject(IssueFields(payload)) then StatusOf(IssueFields(payload).value) else None
  }

  predicate IsReadable(e: Envelope) {
    IsIssueUpdate(e.eventType) && NoneIsNull(ChangelogItems(e.payload))
  }

  lemma UpdateRead(env: Env, e: Envelope, account: Option<string>, linkUpdatedAt: Option<int>)
    requires IsReadable(e)
    ensures var r := ClassifiedBy(env, e, account, linkUpdatedAt);
      r.Ok? && !r.value.isLoopOrigin && r.value.comment.None? && r.value.jiraStatus == StatusIn(e.payload) &&
      r.value.kind == (if ConcernsStatus(e.payload) then IssueStatusChanged else IssueAssigneeChanged)
  {
    SomeItemExactly(ChangelogItems(e.payload), "status");
    SomeItemExactly(ChangelogItems(e.payload), "assignee");
  }

  // ------------------------------------------------------------- where a ticket moves

  // The rules of a link: those of its mapping while that is enabled, else the defaults.
  predicate AreRulesOf(db: Db, link: Link, mapping: Mapping) {
    var key := Key(link.tenant, link.mappingId);
    if key in db.mappings && db.mappings[key].enabled then mapping == db.mappings[key]
    else mapping == Mapping([], SyncRules(true, false, true, "internal"), false)
  }

  // The status a Jira status asks for.
  ghost predicate AsksFor(mapping: Mapping, status: JiraStatus, to: TicketStatus) {
    exists i: nat :: IsFirstMatch(mapping.statusMap, status, i) &&
      if mapping.rules.autoResolveOnJiraDone && status.categoryKey == "done" then to.Resolved?
      else to == mapping.statusMap[i].opsninjaStatus
  }

  predicate IsUnmapped(mapping: Mapping, status: JiraStatus) {
    forall entry :: entry in mapping.statusMap ==> !EntryMatches(entry, status)
  }

  datatype Decision = MovesTo(to: TicketStatus) | Stays(reason: Option<SkipReason>)

  // What a Jira status decides for a ticket.
  ghost predicate IsDecided(db: Db, key: Key, mapping: Mapping, status: Option<JiraStatus>, d: Decision) {
    match d
    case MovesTo(to) =>
      status.Some? && AsksFor(mapping, status.value, to) && key in db.tickets && db.tickets[key].status != to &&
      (db.tickets[key].status, to) in TRANSITION_TABLE
    case Stays(None) =>
      status.Some? && key in db.tickets && AsksFor(mapping, status.value, db.tickets[key].status)
    case Stays(Some(reason)) =>
      (reason.UnmappedStatus? && status.Some? && IsUnmapped(mapping, status.value)) ||
      (reason.NoApplicableChange? &&
       (status.None? ||
        exists to :: AsksFor(mapping, status.value, to) &&
          (key !in db.tickets ||
           (db.tickets[key].status != to && (db.tickets[key].status, to) !in TRANSITION_TABLE))))
  }

  function SlaRows(key: Key, from: TicketStatus, to: TicketStatus): seq<OutboxRow>
    requires (from, to) in TRANSITION_TABLE
  {
    var rule := TRANSITION_TABLE[(from, to)];
    if rule.slaPause || (IsPending(from) && IsPending(to)) then [SlaPause(key)]
    else if rule.slaResume then [SlaResume(key)]
    else []
  }

  // A ticket moved: its row, and one row each in the history, the audit trail and the
  // outbox, with those of the resolution and of the clock.
  predicate IsMoved(db: Db, after: Db, event: Key, key: Key, to: TicketStatus, linkId: string, now: int)
    requires key in db.tickets && (db.tickets[key].status, to) in TRANSITION_TABLE
  {
    var ticket := db.tickets[key];
    after.tickets == db.tickets[key := Ticket(to, ticket.version + 1, ticket.organizationId,
                                              if to.Resolved? then Some(now) else ticket.resolvedAt)] &&
    after.history == db.history + [HistoryRow(key, ticket.status, to)] &&
    after.audit == db.audit + [AuditRow(event, key, ticket.status, to)] &&
    after.outbox == db.outbox + [TicketUpdated(key, ticket.status, to, linkId)] +
                    (if to.Resolved? then [TicketResolved(key, linkId)] else []) +
                    SlaRows(key, ticket.status, to)
  }

  ghost predicate CarriesOut(db: Db, after: Db, event: Key, link: Link, now: int, d: Decision) {
    var key := Key(link.tenant, link.ticketId);
    after.comments == db.comments &&
    match d
    case MovesTo(to) =>
      key in db.tickets && (db.tickets[key].status, to) in TRANSITION_TABLE &&
      IsMoved(db, after, event, key, to, link.id, now)
    case Stays(_) => SameBooks(after, db)
  }

  lemma {:induction false} FirstMatchIs(statusMap: seq<StatusMapEntry>, status: JiraStatus) returns (i: nat)
    requires exists entry :: entry in statusMap && EntryMatches(entry, status)
    ensures IsFirstMatch(statusMap, status, i)
  {
    i := 0;
    if !EntryMatches(statusMap[0], status) {
      var entry :| entry in statusMap && EntryMatches(entry, status);
      var j :| 0 <= j < |statusMap| && statusMap[j] == entry;
      assert statusMap[1..][j - 1] == entry;
      var rest := FirstMatchIs(statusMap[1..], status);
      i := rest + 1;
      forall k | 0 <= k < i
        ensures !EntryMatches(statusMap[k], status)
      {
        if k > 0 {
          assert statusMap[k] == statusMap[1..][k - 1];
        }
      }
    }
  }

  lemma TargetIsAskedFor(mapping: Mapping, status: JiraStatus)
    ensures TargetStatus(mapping, status).None? <==> IsUnmapped(mapping, status)
    ensures forall to :: AsksFor(mapping, status, to) <==> TargetStatus(mapping, status) == Some(to)
  {
    if !IsUnmapped(mapping, status) {
      var i := FirstMatchIs(mapping.statusMap, status);
      assert Translate(mapping.statusMap, status) == Some(mapping.statusMap[i].opsninjaStatus);
    }
  }

  lemma StatusChangeDecides(db: Db, event: Key, link: Link, status: Option<JiraStatus>, mapping: Mapping, now: int)
    returns (d: Decision)
    ensures IsDecided(db, Key(link.tenant, link.ticketId), mapping, status, d)
    ensures CarriesOut(db, StatusChange(db, event, link, status, mapping, now).db, event, link, now, d)
    ensures StatusChange(db, event, link, status, mapping, now).reason == if d.MovesTo? then None else d.reason
  {
    var key := Key(link.tenant, link.ticketId);
    if status.None? {
      d := Stays(Some(NoApplicableChange));
    } else {
      TargetIsAskedFor(mapping, status.value);
      match TargetStatus(mapping, status.value)
      case None =>
        d := Stays(Some(UnmappedStatus));
      case Some(to) =>
        assert AsksFor(mapping, status.value, to);
        if key !in db.tickets {
          d := Stays(Some(NoApplicableChange));
        } else if db.tickets[key].status == to {
          d := Stays(None);
        } else {
          AllowsTheSame(db.tickets[key].status, to);
          if Allowed(db.tickets[key].status, to) {
            d := MovesTo(to);
            SameSideEffects(db.tickets[key].status, to);
          } else {
            d := Stays(Some(NoApplicableChange));
          }
        }
    }
  }

  // At most one decision applies.
  lemma DecidedOnce(db: Db, key: Key, mapping: Mapping, status: Option<JiraStatus>, a: Decision, b: Decision)
    requires IsDecided(db, key, mapping, status, a) && IsDecided(db, key, mapping, status, b)
    ensures a == b
  {
    if status.Some? {
      TargetIsAskedFor(mapping, status.value);
    }
  }

  // ------------------------------------------------------------ delivered to the link

  // An event that is applied: readable in time, not older than the link, not OpsNinja's own.
  predicate IsApplied(env: Env, e: Envelope, account: Option<string>, linkUpdatedAt: Option<int>) {
    !IsOwn(env, e, account) && !UpdatedStamp(e.payload, env.parseDate).InvalidStamp? &&
    !IsStale(UpdatedStamp(e.payload, env.parseDate), linkUpdatedAt)
  }

  // A claimable event of the issue of a live link.
  predicate IsPendingOn(db: Db, event: Key, i: nat) {
    Claimable(db, event) && db.envelopes[event].issueId.Some? &&
    IsLiveLink(db, event.tenant, db.envelopes[event].issueId.value, i)
  }

  function AccountFor(db: Db, link: Link): Option<string> {
    match LoadConnection(db, link)
    case Some(connection) => connection.integrationAccountId
    case None => None
  }

  function VerdictOf(reason: Option<SkipReason>): EnvelopeState {
    match reason
    case Some(r) => Skipped(r)
    case None => Processed
  }

  lemma DeliveredApplies(env: Env, db: Db, claimed: Db, event: Key, i: nat, now: int, c: ClassifiedEvent)
    requires IsPendingOn(db, event, i) && claimed == Claimed(db, event)
    requires IsApplied(env, db.envelopes[event], AccountFor(db, db.links[i]), db.links[i].jiraUpdatedAt)
    requires ClassifiedBy(env, db.envelopes[event], AccountFor(db, db.links[i]), db.links[i].jiraUpdatedAt) == Ok(c)
    ensures
      var after := Deliver(env, db, event, now, false);
      var change := ApplyChange(env, claimed, event, i, c, LoadMapping(db, db.links[i]), now);
      SameBooks(after, change.db) && after.comments == change.db.comments && |after.links| == |db.links| &&
      after.links[i].orphaned == c.kind.IssueDeleted? &&
      event in after.envelopes && after.envelopes[event].state == VerdictOf(change.reason)
  {
    ClassifiedAlike(env, db.envelopes[event], AccountFor(db, db.links[i]), db.links[i].jiraUpdatedAt);
    AppliedOnLink(env, claimed, event, i, now, c);
    assert ResolveLink(claimed, event.tenant, claimed.envelopes[event].issueId) == Some(i);
  }

  lemma AppliedOnLink(env: Env, db: Db, event: Key, i: nat, now: int, c: ClassifiedEvent)
    requires event in db.envelopes && i < |db.links| && !db.links[i].orphaned && LoadConnection(db, db.links[i]).Some?
    requires ClassifiedBy(env, db.envelopes[event], AccountFor(db, db.links[i]), db.links[i].jiraUpdatedAt) == Ok(c)
    requires !c.isLoopOrigin && !c.isStale && !c.jiraUpdatedAt.InvalidStamp?
    ensures
      var r := TransactOnLink(env, db, event, i, now);
      var change := ApplyChange(env, db, event, i, c, LoadMapping(db, db.links[i]), now);
      r.Ok? && SameBooks(r.value, change.db) && r.value.comments == change.db.comments &&
      |r.value.links| == |db.links| && r.value.links[i].orphaned == c.kind.IssueDeleted? &&
      event in r.value.envelopes && r.value.envelopes[event].state == VerdictOf(change.reason)
  {
    ChangeKeeps(env, db, event, i, c, LoadMapping(db, db.links[i]), now);
  }

  lemma LoadsItsRules(db: Db, link: Link, mapping: Mapping)
    requires AreRulesOf(db, link, mapping)
    ensures LoadMapping(db, link) == mapping
  {
  }

  // Delivering an update to a live link: one that concerns the status is decided by the
  // rules of the link, and the decision is carried out; any other moves nothing.
  lemma UpdateDecides(env: Env, db: Db, event: Key, i: nat, mapping: Mapping, now: int) returns (d: Decision)
    requires IsPendingOn(db, event, i) && IsReadable(db.envelopes[event]) && AreRulesOf(db, db.links[i], mapping)
    requires IsApplied(env, db.envelopes[event], AccountFor(db, db.links[i]), db.links[i].jiraUpdatedAt)
    ensures
      var after, link, payload := Deliver(env, db, event, now, false), db.links[i], db.envelopes[event].payload;
      event in after.envelopes &&
      if ConcernsStatus(payload) && mapping.rules.applyInboundStatus then
        IsDecided(db, Key(link.tenant, link.ticketId), mapping, StatusIn(payload), d) &&
        CarriesOut(db, after, event, link, now, d) &&
        after.envelopes[event].state == VerdictOf(if d.MovesTo? then None else d.reason)
      else
        SameBooks(after, db) && after.comments == db.comments &&
        after.envelopes[event].state == if ConcernsStatus(payload) then Skipped(NoApplicableChange) else Processed
  {
    hide JiraEvents.ClassifyJiraEvent, InboundSync.Deliver, InboundSync.StatusChange, IsDecided, CarriesOut;
    var link, e := db.links[i], db.envelopes[event];
    var claimed := Claimed(db, event);
    UpdateRead(env, e, AccountFor(db, link), link.jiraUpdatedAt);
    LoadsItsRules(db, link, mapping);
    var c := ClassifiedBy(env, e, AccountFor(db, link), link.jiraUpdatedAt).value;
    DeliveredApplies(env, db, claimed, event, i, now, c);
    d := StatusChangeDecides(claimed, event, link, StatusIn(e.payload), mapping, now);
    if ConcernsStatus(e.payload) && mapping.rules.applyInboundStatus {
      SameDecision(db, claimed, event, link, mapping, StatusIn(e.payload), d);
      SameChange(db, claimed, StatusChange(claimed, event, link, StatusIn(e.payload), mapping, now).db,
                 Deliver(env, db, event, now, false), event, link, now, d);
    }
  }

  lemma SameChange(db: Db, claimed: Db, changed: Db, after: Db, event: Key, link: Link, now: int, d: Decision)
    requires event in db.envelopes && claimed == Claimed(db, event) && CarriesOut(claimed, changed, event, link, now, d)
    requires SameBooks(after, changed) && after.comments == changed.comments
    ensures CarriesOut(db, after, event, link, now, d)
  {
  }

  // A claim decides nothing.
  lemma SameDecision(db: Db, claimed: Db, event: Key, link: Link, mapping: Mapping, status: Option<JiraStatus>,
                     d: Decision)
    requires event in db.envelopes && claimed == Claimed(db, event)
    requires IsDecided(claimed, Key(link.tenant, link.ticketId), mapping, status, d)
    ensures IsDecided(db, Key(link.tenant, link.ticketId), mapping, status, d)
  {
  }

  // --------------------------------------------------------------------- comments

  // What the mirror of a comment says.
  function MirrorText(env: Env, payload: Json): string {
    var name := GetString(Prop(payload, "comment"), ["author", "displayName"]);
    env.renderAdf(if CommentBody(payload).Some? then CommentBody(payload).value else JNull) +
    (if name.Some? && name.value != "" then " (via Jira — " + name.value + ")" else " (via Jira)") +
    "\n" + ORIGIN_MARKER
  }

  // A mirror, sent back as plain text, is recognised as OpsNinja's own.
  lemma MirrorIsOwn(env: Env, payload: Json)
    ensures BodyContainsOriginMarker(Some(JStr(MirrorText(env, payload))))
  {
    var text := MirrorText(env, payload);
    var at := |text| - |ORIGIN_MARKER|;
    assert text[at..] == ORIGIN_MARKER;
    assert LikePattern.OccursAt(ORIGIN_MARKER, text, at);
  }

  lemma CommentRead(env: Env, e: Envelope, account: Option<string>, linkUpdatedAt: Option<int>)
    requires NamesComment(e.eventType, e.payload)
    ensures var r := ClassifiedBy(env, e, account, linkUpdatedAt);
      r.Ok? && r.value.comment.Some? && !r.value.kind.IssueDeleted? && !r.value.kind.IssueStatusChanged? &&
      !r.value.kind.IssueAssigneeChanged? &&
      Some(r.value.comment.value.id) == GetString(Prop(e.payload, "comment"), ["id"]) &&
      MirroredBody(env, r.value.comment.value) == MirrorText(env, e.payload) &&
      (r.value.comment.value.isEdit <==> e.eventType == "comment_updated")
  {
  }

  lemma {:induction false} EditedAt(rows: seq<Comment>, tenant: string, ref: string, body: string, j: nat)
    requires j < |rows|
    ensures EditMirrors(rows, tenant, ref, body)[j] ==
            if IsMirrorOf(rows[j], tenant, ref) then rows[j].(body := body) else rows[j]
  {
    if j > 0 {
      EditedAt(rows[1..], tenant, ref, body, j - 1);
    }
  }

  predicate IsMirrored(db: Db, link: Link, id: string) {
    exists row :: row in db.comments && IsMirrorOf(row, link.tenant, id)
  }

  predicate HasAnOrganization(db: Db, key: Key) {
    key in db.tickets && db.tickets[key].organizationId != ""
  }

  // An edit rewrites the mirrors of the comment and nothing else.
  predicate IsEdited(db: Db, after: Db, link: Link, id: string, text: string) {
    |after.comments| == |db.comments| && after.outbox == db.outbox &&
    forall j :: 0 <= j < |db.comments| ==>
      after.comments[j] == if IsMirrorOf(db.comments[j], link.tenant, id) then db.comments[j].(body := text)
                           else db.comments[j]
  }

  // A new comment gets one mirror and one outbox row, unless it has a mirror already or
  // the ticket has no organization.
  predicate IsAdded(db: Db, after: Db, link: Link, id: string, text: string, visibility: string) {
    var key := Key(link.tenant, link.ticketId);
    if HasAnOrganization(db, key) && !IsMirrored(db, link, id) then
      after.comments == db.comments + [Comment(key, text, visibility, Some(id))] &&
      after.outbox == db.outbox + [CommentAdded(key, link.id)]
    else after.comments == db.comments && after.outbox == db.outbox
  }

  lemma CommentChanged(env: Env, db: Db, link: Link, comment: JiraComment, visibility: string)
    ensures
      var change, text := CommentChange(env, db, link, comment, visibility), MirroredBody(env, comment);
      change.db.tickets == db.tickets && change.db.history == db.history && change.db.audit == db.audit &&
      if comment.isEdit then change.reason.None? && IsEdited(db, change.db, link, comment.id, text)
      else IsAdded(db, change.db, link, comment.id, text, visibility) &&
           change.reason == if HasAnOrganization(db, Key(link.tenant, link.ticketId)) then None
                            else Some(NoApplicableChange)
  {
    if comment.isEdit {
      forall j | 0 <= j < |db.comments|
        ensures EditMirrors(db.comments, link.tenant, comment.id, MirroredBody(env, comment))[j] ==
                if IsMirrorOf(db.comments[j], link.tenant, comment.id)
                then db.comments[j].(body := MirroredBody(env, comment)) else db.comments[j]
      {
        EditedAt(db.comments, link.tenant, comment.id, MirroredBody(env, comment), j);
      }
    }
  }

  // Delivering a comment to a live link whose rules mirror comments.
  lemma CommentMirrors(env: Env, db: Db, event: Key, i: nat, mapping: Mapping, id: string, now: int)
    requires IsPendingOn(db, event, i) && AreRulesOf(db, db.links[i], mapping) && mapping.rules.applyInboundComments
    requires NamesComment(db.envelopes[event].eventType, db.envelopes[event].payload)
    requires GetString(Prop(db.envelopes[event].payload, "comment"), ["id"]) == Some(id)
    requires IsApplied(env, db.envelopes[event], AccountFor(db, db.links[i]), db.links[i].jiraUpdatedAt)
    ensures
      var after, link, e := Deliver(env, db, event, now, false), db.links[i], db.envelopes[event];
      event in after.envelopes && after.tickets == db.tickets && after.history == db.history &&
      after.audit == db.audit &&
      if e.eventType == "comment_updated" then
        IsEdited(db, after, link, id, MirrorText(env, e.payload)) && after.envelopes[event].state == Processed
      else
        IsAdded(db, after, link, id, MirrorText(env, e.payload), mapping.rules.commentVisibility) &&
        after.envelopes[event].state == if HasAnOrganization(db, Key(link.tenant, link.ticketId)) then Processed
                                        else Skipped(NoApplicableChange)
  {
    hide JiraEvents.ClassifyJiraEvent, InboundSync.Deliver, InboundSync.CommentChange, MirrorText,
      InboundSync.MirroredBody;
    var link, e := db.links[i], db.envelopes[event];
    CommentRead(env, e, AccountFor(db, link), link.jiraUpdatedAt);
    LoadsItsRules(db, link, mapping);
    var c := ClassifiedBy(env, e, AccountFor(db, link), link.jiraUpdatedAt).value;
    DeliveredApplies(env, db, Claimed(db, event), event, i, now, c);
    CommentChanged(env, Claimed(db, event), link, c.comment.value, mapping.rules.commentVisibility);
  }

  // --------------------------------------------------------------------- deletions

  // Delivering a deletion to a live link orphans it and leaves an internal note with the
  // ticket, when that has an organization.
  lemma DeletionNotes(env: Env, db: Db, event: Key, i: nat, now: int)
    requires IsPendingOn(db, event, i) && db.envelopes[event].eventType == "jira:issue_deleted"
    requires IsApplied(env, db.envelopes[event], AccountFor(db, db.links[i]), db.links[i].jiraUpdatedAt)
    ensures
      var after, link := Deliver(env, db, event, now, false), db.links[i];
      var key, name := Key(link.tenant, link.ticketId), if link.issueKey.Some? then link.issueKey.value else "unknown";
      var note := "[System] Linked Jira issue " + name + " was deleted. No further sync will occur.";
      event in after.envelopes && after.envelopes[event].state == Processed && SameBooks(after, db) &&
      |after.links| == |db.links| && after.links[i].orphaned &&
      after.comments == if key in db.tickets && db.tickets[key].organizationId != ""
                        then db.comments + [Comment(key, note, "internal", None)] else db.comments
  {
    var link, e := db.links[i], db.envelopes[event];
    var r := ClassifiedBy(env, e, AccountFor(db, link), link.jiraUpdatedAt);
    assert r.Ok? && r.value.kind.IssueDeleted?;
    DeliveredApplies(env, db, Claimed(db, event), event, i, now, r.value);
  }

  // ------------------------------------------------------------------------- skips

  // Why a claimed event is skipped before it is applied, in the order of the checks.
  function SkipOf(env: Env, db: Db, e: Envelope, tenant: string): Option<SkipReason> {
    match ResolveLink(db, tenant, e.issueId)
    case None => Some(Unlinked)
    case Some(i) =>
      var link := db.links[i];
      var key := Key(link.tenant, link.connectionId);
      if link.orphaned then Some(Orphaned)
      else if key !in db.connections || db.connections[key].revoked then Some(RevokedConnection)
      else if IsOwn(env, e, db.connections[key].integrationAccountId) then Some(OriginLoop)
      else if IsStale(UpdatedStamp(e.payload, env.parseDate), link.jiraUpdatedAt) then Some(StaleEvent)
      else None
  }

  // Such an event is marked with its reason and changes nothing else. An update whose
  // change log holds a null throws before its time is looked at.
  lemma SkippedWithReason(env: Env, db: Db, event: Key, now: int)
    requires Claimable(db, event) && (IsIssueUpdate(db.envelopes[event].eventType) ==> IsReadable(db.envelopes[event]))
    requires SkipOf(env, db, db.envelopes[event], event.tenant).Some?
    ensures
      var after := Deliver(env, db, event, now, false);
      after.links == db.links && SameBooks(after, db) && after.comments == db.comments &&
      event in after.envelopes &&
      after.envelopes[event].state == Skipped(SkipOf(env, db, db.envelopes[event], event.tenant).value)
  {
    var e, resolved := db.envelopes[event], ResolveLink(db, event.tenant, db.envelopes[event].issueId);
    if resolved.Some? {
      var link := db.links[resolved.value];
      SkippedOnLink(env, Claimed(db, event), event, resolved.value, now);
    }
  }

  lemma SkippedOnLink(env: Env, db: Db, event: Key, i: nat, now: int)
    requires event in db.envelopes && i < |db.links|
    requires IsIssueUpdate(db.envelopes[event].eventType) ==> IsReadable(db.envelopes[event])
    ensures
      var e, link := db.envelopes[event], db.links[i];
      var r, key := TransactOnLink(env, db, event, i, now), Key(link.tenant, link.connectionId);
      (link.orphaned ==> r == Ok(Mark(db, event, Skipped(Orphaned)))) &&
      (!link.orphaned && (key !in db.connections || db.connections[key].revoked) ==>
         r == Ok(Mark(db, event, Skipped(RevokedConnection)))) &&
      (!link.orphaned && key in db.connections && !db.connections[key].revoked ==>
         var account := db.connections[key].integrationAccountId;
         (IsOwn(env, e, account) ==> r == Ok(Mark(db, event, Skipped(OriginLoop)))) &&
         (!IsOwn(env, e, account) && IsStale(UpdatedStamp(e.payload, env.parseDate), link.jiraUpdatedAt) ==>
            r == Ok(Mark(db, event, Skipped(StaleEvent)))))
  {
    var e, link := db.envelopes[event], db.links[i];
    var connection := LoadConnection(db, link);
    if !link.orphaned && connection.Some? {
      ClassifiedAlike(env, e, connection.value.integrationAccountId, link.jiraUpdatedAt);
      if IsIssueUpdate(e.eventType) {
        UpdateRead(env, e, connection.value.integrationAccountId, link.jiraUpdatedAt);
      }
    }
  }
}
