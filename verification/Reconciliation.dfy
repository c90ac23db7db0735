/**
 * Reconciliation: comparing Jira search results with the cached links and
 * synthesising update events for issues that have drifted, so that the inbound
 * worker heals the link.
 */
module Reconciliation {
  import opened Basics
  import opened Json
  import opened JiraEvents
  import opened InboundSync
  import opened InboundRuns

  // ------------------------------------------------------------------ data model

  datatype IssueStatus = IssueStatus(id: string, name: Option<string>, categoryKey: string)

  datatype IssueAssignee = IssueAssignee(displayName: string, accountId: string)

  datatype SearchIssue = SearchIssue(id: string, key: string, summary: string, updated: string,
                                     status: IssueStatus, assignee: Option<IssueAssignee>, resolution: Option<string>)

  datatype CachedLink = CachedLink(linkId: string, jiraStatus: Option<string>, jiraAssignee: Option<string>,
                                   jiraUpdatedAt: Option<int>)

  function CachedOf(link: Link): CachedLink {
    CachedLink(link.id, link.jiraStatus, link.jiraAssignee, link.jiraUpdatedAt)
  }

  datatype DriftField = StatusDrift | AssigneeDrift | UpdatedDrift

  // Lower-casing, date parsing and the SHA-256 prefix are foreign code.
  datatype Foreign = Foreign(lower: string -> string, parseDate: string -> Option<int>, hash: string -> string)

  // -------------------------------------------------------------- drift detection

  function OrEmpty(text: Option<string>): string {
    if text.Some? then text.value else ""
  }

  predicate StatusAgrees(foreign: Foreign, issue: SearchIssue, cached: CachedLink) {
    foreign.lower(OrEmpty(issue.status.name)) == foreign.lower(OrEmpty(cached.jiraStatus))
  }

  function AssigneeName(issue: SearchIssue): Option<string> {
    if issue.assignee.Some? then Some(issue.assignee.value.displayName) else None
  }

  // The cached time is known and not older than a valid time in Jira.
  predicate TimeAgrees(foreign: Foreign, issue: SearchIssue, cached: CachedLink) {
    cached.jiraUpdatedAt.Some? &&
    (foreign.parseDate(issue.updated).Some? ==> foreign.parseDate(issue.updated).value <= cached.jiraUpdatedAt.value)
  }

  predicate NoDrift(foreign: Foreign, issue: SearchIssue, cached: CachedLink) {
    StatusAgrees(foreign, issue, cached) && AssigneeName(issue) == cached.jiraAssignee &&
    TimeAgrees(foreign, issue, cached)
  }

  function DriftedFields(foreign: Foreign, issue: SearchIssue, cached: CachedLink): (r: seq<DriftField>)
    ensures r == [] <==> NoDrift(foreign, issue, cached)
  {
    (if StatusAgrees(foreign, issue, cached) then [] else [StatusDrift]) +
    (if AssigneeName(issue) == cached.jiraAssignee then [] else [AssigneeDrift]) +
    (if TimeAgrees(foreign, issue, cached) then [] else [UpdatedDrift])
  }

  // Each field is named exactly when it has drifted.
  lemma NamesTheDrift(foreign: Foreign, issue: SearchIssue, cached: CachedLink)
    ensures var r := DriftedFields(foreign, issue, cached);
      (StatusDrift in r <==>
         foreign.lower(OrEmpty(issue.status.name)) != foreign.lower(OrEmpty(cached.jiraStatus))) &&
      (AssigneeDrift in r <==> AssigneeName(issue) != cached.jiraAssignee) &&
      (UpdatedDrift in r <==>
         cached.jiraUpdatedAt.None? ||
         (foreign.parseDate(issue.updated).Some? &&
          foreign.parseDate(issue.updated).value > cached.jiraUpdatedAt.value))
  {
  }

  method DetectDrift(foreign: Foreign, issue: SearchIssue, cached: CachedLink)
    returns (hasDrift: bool, driftedFields: seq<DriftField>, syntheticEventId: string)
    ensures hasDrift <==> !NoDrift(foreign, issue, cached)
    ensures driftedFields == DriftedFields(foreign, issue, cached)
    ensures syntheticEventId == SyntheticEventId(foreign, issue)
  {
    driftedFields := [];
    var jiraStatusName := match issue.status.name case Some(name) => name case None => "";
    var cachedStatus := match cached.jiraStatus case Some(name) => name case None => "";
    if foreign.lower(jiraStatusName) != foreign.lower(cachedStatus) {
      driftedFields := driftedFields + [StatusDrift];
    }
    var jiraAssignee := match issue.assignee case Some(a) => Some(a.displayName) case None => None;
    if jiraAssignee != cached.jiraAssignee {
      driftedFields := driftedFields + [AssigneeDrift];
    }
    if cached.jiraUpdatedAt.Some? {
      var jiraUpdatedMs := foreign.parseDate(issue.updated);
      if jiraUpdatedMs.Some? && jiraUpdatedMs.value > cached.jiraUpdatedAt.value {
        driftedFields := driftedFields + [UpdatedDrift];
      }
    } else {
      driftedFields := driftedFields + [UpdatedDrift];
    }
    hasDrift := |driftedFields| > 0;
    syntheticEventId := SyntheticEventId(foreign, issue);
  }

  // -------------------------------------------------------------- synthetic events

  // Deterministic in the issue and its update time.
  function SyntheticEventId(foreign: Foreign, issue: SearchIssue): string {
    "recon:" + foreign.hash(issue.id + ":" + issue.updated)
  }

  // Without collisions of the hash, two search results share an event id exactly when they
  // are of the same issue and time.
  lemma EventIdsExactly(foreign: Foreign, a: SearchIssue, b: SearchIssue)
    requires ':' !in a.id && ':' !in b.id
    requires forall x, y :: foreign.hash(x) == foreign.hash(y) ==> x == y
    ensures SyntheticEventId(foreign, a) == SyntheticEventId(foreign, b) <==> a.id == b.id && a.updated == b.updated
  {
    var x, y := a.id + ":" + a.updated, b.id + ":" + b.updated;
    assert SyntheticEventId(foreign, a)[6..] == foreign.hash(x) && SyntheticEventId(foreign, b)[6..] == foreign.hash(y);
    if x == y {
      assert x[|a.id|] == ':' && y[|b.id|] == ':';
      assert |a.id| == |b.id|;
      assert a.id == x[..|a.id|] && b.id == y[..|b.id|];
      assert a.updated == x[|a.id| + 1..] && b.updated == y[|b.id| + 1..];
    }
  }

  function TextOrNull(text: Option<string>): Json {
    if text.Some? then JStr(text.value) else JNull
  }

  function StatusJson(status: IssueStatus): Json {
    JObj([Field("id", JStr(status.id)), Field("name", TextOrNull(status.name)),
          Field("statusCategory", JObj([Field("key", JStr(status.categoryKey))]))])
  }

  function AssigneeJson(assignee: Option<IssueAssignee>): Json {
    match assignee
    case None => JNull
    case Some(a) => JObj([Field("displayName", JStr(a.displayName)), Field("accountId", JStr(a.accountId))])
  }

  function ResolutionJson(resolution: Option<string>): Json {
    if resolution.Some? then JObj([Field("name", JStr(resolution.value))]) else JNull
  }

  function IssueFieldsJson(issue: SearchIssue): Json {
    JObj([Field("summary", JStr(issue.summary)), Field("updated", JStr(issue.updated)),
          Field("status", StatusJson(issue.status)), Field("assignee", AssigneeJson(issue.assignee)),
          Field("resolution", ResolutionJson(issue.resolution))])
  }

  function IssueJson(issue: SearchIssue): Json {
    JObj([Field("id", JStr(issue.id)), Field("key", JStr(issue.key)), Field("fields", IssueFieldsJson(issue))])
  }

  function DriftJson(fields: seq<DriftField>): seq<Json> {
    seq(|fields|, i requires 0 <= i < |fields| =>
      JStr(match fields[i]
           case StatusDrift => "status"
           case AssigneeDrift => "assignee"
           case UpdatedDrift => "updated"))
  }

  // The payload mirrors a real issue update, so that the worker handles it unchanged.
  function SyntheticPayload(issue: SearchIssue, cached: CachedLink, drifted: seq<DriftField>): Json {
    JObj([Field("webhookEvent", JStr("jira:issue_updated")), Field("issue_event_type_name", JStr("issue_generic")),
          Field("issue", IssueJson(issue)), Field("_synthetic", JBool(true)),
          Field("_reconDriftFields", JArr(DriftJson(drifted))), Field("_reconLinkId", JStr(cached.linkId))])
  }

  // ---------------------------------------------------- how the worker reads them

  lemma {:induction false} GetAt(fields: seq<Field>, i: nat, key: string)
    requires i < |fields| && fields[i].key == key && forall j :: 0 <= j < i ==> fields[j].key != key
    ensures Get(fields, key) == Some(fields[i].value)
    decreases i
  {
    if i > 0 {
      GetAt(fields[1..], i - 1, key);
    }
  }

  lemma SyntheticIssue(issue: SearchIssue, cached: CachedLink, drifted: seq<DriftField>)
    ensures Prop(SyntheticPayload(issue, cached, drifted), "issue") == Some(IssueJson(issue))
  {
    GetAt(SyntheticPayload(issue, cached, drifted).fields, 2, "issue");
  }

  lemma {:induction false} GetMissing(fields: seq<Field>, key: string)
    requires forall j :: 0 <= j < |fields| ==> fields[j].key != key
    ensures Get(fields, key) == None
  {
    if fields != [] {
      GetMissing(fields[1..], key);
    }
  }

  lemma SyntheticHasNoChangelog(issue: SearchIssue, cached: CachedLink, drifted: seq<DriftField>)
    ensures Prop(SyntheticPayload(issue, cached, drifted), "changelog") == None
  {
    GetMissing(SyntheticPayload(issue, cached, drifted).fields, "changelog");
  }

  lemma IssueHasFields(issue: SearchIssue)
    ensures Prop(IssueJson(issue), "fields") == Some(IssueFieldsJson(issue))
  {
    GetAt(IssueJson(issue).fields, 2, "fields");
  }

  lemma IssueUpdated(issue: SearchIssue)
    ensures Prop(IssueFieldsJson(issue), "updated") == Some(JStr(issue.updated))
  {
    GetAt(IssueFieldsJson(issue).fields, 1, "updated");
  }

  lemma IssueStatusProp(issue: SearchIssue)
    ensures Prop(IssueFieldsJson(issue), "status") == Some(StatusJson(issue.status))
  {
    GetAt(IssueFieldsJson(issue).fields, 2, "status");
  }

  lemma IssueAssigneeProp(issue: SearchIssue)
    ensures Prop(IssueFieldsJson(issue), "assignee") == Some(AssigneeJson(issue.assignee))
  {
    GetAt(IssueFieldsJson(issue).fields, 3, "assignee");
  }

  lemma StatusProps(status: IssueStatus)
    ensures Prop(StatusJson(status), "id") == Some(JStr(status.id))
    ensures Prop(StatusJson(status), "name") == Some(TextOrNull(status.name))
    ensures Prop(StatusJson(status), "statusCategory") == Some(JObj([Field("key", JStr(status.categoryKey))]))
  {
    var fields := StatusJson(status).fields;
    GetAt(fields, 0, "id");
    GetAt(fields, 1, "name");
    GetAt(fields, 2, "statusCategory");
  }

  function StatusTold(status: IssueStatus): JiraStatus {
    JiraStatus(status.id, OrEmpty(status.name), status.categoryKey)
  }

  lemma StatusRead(issue: SearchIssue)
    ensures StatusOf(IssueFieldsJson(issue)) == Some(StatusTold(issue.status))
  {
    IssueStatusProp(issue);
    var status := StatusJson(issue.status);
    StatusProps(issue.status);
    var category := JObj([Field("key", JStr(issue.status.categoryKey))]);
    GetAt(category.fields, 0, "key");
    var path := ["statusCategory", "key"];
    assert path[1..] == ["key"] && ["key"][1..] == [];
    assert GetString(Some(status), path) == GetString(Some(category), path[1..]) ==
           GetString(Prop(category, "key"), []);
  }

  lemma AssigneeRead(issue: SearchIssue)
    ensures AssigneeOf(IssueFieldsJson(issue)) == AssigneeName(issue)
  {
    IssueAssigneeProp(issue);
    if issue.assignee.Some? {
      var assignee := AssigneeJson(issue.assignee);
      assert Prop(assignee, "displayName") == Some(JStr(issue.assignee.value.displayName));
      assert ["displayName"][1..] == [];
    }
  }

  lemma StampRead(issue: SearchIssue, cached: CachedLink, drifted: seq<DriftField>, parseDate: string -> Option<int>)
    ensures UpdatedStamp(SyntheticPayload(issue, cached, drifted), parseDate) ==
            (if issue.updated == "" then NoStamp
             else match parseDate(issue.updated) case None => InvalidStamp case Some(ms) => At(ms))
  {
    var payload := SyntheticPayload(issue, cached, drifted);
    SyntheticIssue(issue, cached, drifted);
    IssueHasFields(issue);
    IssueUpdated(issue);
    var path := ["issue", "fields", "updated"];
    assert path[1..] == ["fields", "updated"] && path[1..][1..] == ["updated"] && path[1..][1..][1..] == [];
    assert GetString(Some(payload), path) == GetString(Some(IssueJson(issue)), path[1..])
        == GetString(Some(IssueFieldsJson(issue)), path[1..][1..]) == GetString(Some(JStr(issue.updated)), []);
  }

  // The worker reads back exactly what the search result said.
  lemma SyntheticIsClassified(issue: SearchIssue, cached: CachedLink, drifted: seq<DriftField>, account: Option<string>,
                              linkUpdatedAt: Option<int>, parseDate: string -> Option<int>)
    ensures var payload := SyntheticPayload(issue, cached, drifted);
      var stamp := UpdatedStamp(payload, parseDate);
      ClassifyJiraEvent("jira:issue_updated", payload, account, linkUpdatedAt, parseDate) ==
      Ok(ClassifiedEvent(IssueStatusChanged, Some(StatusTold(issue.status)), SetTo(AssigneeName(issue)), None, stamp,
                         false, IsStale(stamp, linkUpdatedAt)))
  {
    var payload := SyntheticPayload(issue, cached, drifted);
    SyntheticIssue(issue, cached, drifted);
    SyntheticHasNoChangelog(issue, cached, drifted);
    IssueHasFields(issue);
    StatusRead(issue);
    AssigneeRead(issue);
    assert ChangelogItems(payload) == [];
    assert IssueFields(payload) == Some(IssueFieldsJson(issue));
    UpdateIsDispatched(payload, account, linkUpdatedAt, parseDate);
  }

  lemma UpdateIsDispatched(payload: Json, account: Option<string>, linkUpdatedAt: Option<int>,
                           parseDate: string -> Option<int>)
    ensures ClassifyJiraEvent("jira:issue_updated", payload, account, linkUpdatedAt, parseDate) ==
            ClassifyIssueUpdate(payload, Unclassified(UpdatedStamp(payload, parseDate), linkUpdatedAt))
  {
    var eventType := "jira:issue_updated";
    assert eventType != "jira:issue_deleted" && !IsCommentEvent(eventType) && IsIssueUpdate(eventType);
  }

  // ----------------------------------------------------------------------- healing

  // When the worker can bring the link up to a search result: its time is valid and
  // not older than the link's (or is missing and the link has one).
  predicate CanHeal(foreign: Foreign, updated: string, linkUpdatedAt: Option<int>) {
    if updated == "" then linkUpdatedAt.Some?
    else foreign.parseDate(updated).Some? && NotBefore(foreign.parseDate(updated), linkUpdatedAt)
  }

  // The link after the worker has handled a synthetic event.
  function Healed(foreign: Foreign, issue: SearchIssue, cached: CachedLink): CachedLink {
    CachedLink(cached.linkId, Some(OrEmpty(issue.status.name)), AssigneeName(issue),
               if issue.updated == "" then cached.jiraUpdatedAt else foreign.parseDate(issue.updated))
  }

  // An older search result leaves the link as it is.
  function HandledLink(foreign: Foreign, issue: SearchIssue, cached: CachedLink): CachedLink {
    if issue.updated == "" || NotBefore(foreign.parseDate(issue.updated), cached.jiraUpdatedAt)
    then Healed(foreign, issue, cached) else cached
  }

  // A stored synthetic event.
  predicate IsSynthetic(db: Db, event: Key, issue: SearchIssue, cached: CachedLink, drifted: seq<DriftField>) {
    event in db.envelopes && db.envelopes[event].eventType == "jira:issue_updated" &&
    db.envelopes[event].issueId == Some(issue.id) &&
    db.envelopes[event].payload == SyntheticPayload(issue, cached, drifted)
  }

  lemma SyntheticOnLink(env: Env, foreign: Foreign, db: Db, event: Key, i: nat, now: int,
                        issue: SearchIssue, cached: CachedLink, drifted: seq<DriftField>)
    requires IsSynthetic(db, event, issue, cached, drifted) && env.parseDate == foreign.parseDate
    requires i < |db.links| && !db.links[i].orphaned && LoadConnection(db, db.links[i]).Some?
    ensures var r := TransactOnLink(env, db, event, i, now);
      var valid := issue.updated == "" || foreign.parseDate(issue.updated).Some?;
      (r.Ok? <==> valid) &&
      (r.Ok? ==> |r.value.links| == |db.links|) &&
      (r.Ok? ==> CachedOf(r.value.links[i]) == HandledLink(foreign, issue, CachedOf(db.links[i])))
  {
    var link, envelope := db.links[i], db.envelopes[event];
    var account := LoadConnection(db, link).value.integrationAccountId;
    SyntheticIsClassified(issue, cached, drifted, account, link.jiraUpdatedAt, foreign.parseDate);
    StampRead(issue, cached, drifted, foreign.parseDate);
    var c :=
      ClassifyJiraEvent("jira:issue_updated", envelope.payload, account, link.jiraUpdatedAt, foreign.parseDate).value;
    if !c.isStale {
      ChangeKeeps(env, db, event, i, c, LoadMapping(db, link), now);
    }
  }

  // A search result says the same as another of the issue and its time.
  predicate SaysSame(foreign: Foreign, a: SearchIssue, b: SearchIssue) {
    foreign.lower(OrEmpty(a.status.name)) == foreign.lower(OrEmpty(b.status.name)) && AssigneeName(a) == AssigneeName(b)
  }

  lemma HealedDrift(foreign: Foreign, issue: SearchIssue, earlier: SearchIssue, cached: CachedLink)
    requires CanHeal(foreign, issue.updated, cached.jiraUpdatedAt) && foreign.parseDate("").None?
    requires earlier.updated == issue.updated
    ensures NoDrift(foreign, issue, Healed(foreign, earlier, cached)) <==> SaysSame(foreign, issue, earlier)
  {
  }

  // The claimed and handled event, as the delivery leaves the link.
  lemma ClaimedSynthetic(env: Env, foreign: Foreign, stored: Db, claimed: Db, event: Key, i: nat, now: int,
                         issue: SearchIssue, cached: CachedLink, drifted: seq<DriftField>)
    requires IsSynthetic(stored, event, issue, cached, drifted) && env.parseDate == foreign.parseDate
    requires foreign.parseDate("").None? && claimed == Claimed(stored, event)
    requires IsLiveLink(stored, event.tenant, issue.id, i)
    ensures var r := Transact(env, claimed, event, now);
      (r.Ok? ==> |r.value.links| == |stored.links|) &&
      (CanHeal(foreign, issue.updated, stored.links[i].jiraUpdatedAt) ==>
         r.Ok? && CachedOf(r.value.links[i]) == Healed(foreign, issue, CachedOf(stored.links[i]))) &&
      (!CanHeal(foreign, issue.updated, stored.links[i].jiraUpdatedAt) && r.Ok? ==>
         CachedOf(r.value.links[i]) == CachedOf(stored.links[i]) ||
         CachedOf(r.value.links[i]).jiraUpdatedAt.None?)
  {
    SyntheticOnLink(env, foreign, claimed, event, i, now, issue, cached, drifted);
  }

  // Synthesising the event of a drifted issue and delivering it once leaves no drift
  // exactly when the issue's time allows it and, if an event of the same issue and time
  // was stored before, that one was not handled yet and says the same: a stored event is
  // not inserted again, and once it has its verdict it is not claimed again either.
  lemma HealsExactly(env: Env, foreign: Foreign, db: Db, event: Key, i: nat, now: int, issue: SearchIssue,
                     earlier: SearchIssue, storedLink: CachedLink, storedFields: seq<DriftField>)
    requires env.parseDate == foreign.parseDate && foreign.parseDate("").None?
    requires event == Key(event.tenant, SyntheticEventId(foreign, issue))
    requires earlier.id == issue.id && earlier.updated == issue.updated
    requires Claimable(db, event) ==> IsSynthetic(db, event, earlier, storedLink, storedFields)
    requires IsLiveLink(db, event.tenant, issue.id, i) && !NoDrift(foreign, issue, CachedOf(db.links[i]))
    ensures var after := Deliver(env, Synthesise(foreign, db, event, issue, CachedOf(db.links[i])), event, now, false);
      |after.links| == |db.links| &&
      (NoDrift(foreign, issue, CachedOf(after.links[i])) <==>
         (event in db.envelopes ==> Claimable(db, event) && SaysSame(foreign, issue, earlier)) &&
         CanHeal(foreign, issue.updated, db.links[i].jiraUpdatedAt))
  {
    var cached := CachedOf(db.links[i]);
    var stored := Synthesise(foreign, db, event, issue, cached);
    assert ResolveLink(stored, event.tenant, Some(issue.id)) == ResolveLink(db, event.tenant, Some(issue.id));
    if Claimable(db, event) {
      ClaimedSynthetic(env, foreign, stored, Claimed(stored, event), event, i, now, earlier, storedLink, storedFields);
      if CanHeal(foreign, issue.updated, db.links[i].jiraUpdatedAt) {
        HealedDrift(foreign, issue, earlier, cached);
      }
    } else if event !in db.envelopes {
      ClaimedSynthetic(env, foreign, stored, Claimed(stored, event), event, i, now, issue, cached,
                       DriftedFields(foreign, issue, cached));
      if CanHeal(foreign, issue.updated, db.links[i].jiraUpdatedAt) {
        HealedDrift(foreign, issue, issue, cached);
      }
    }
  }

  function Synthesise(foreign: Foreign, db: Db, event: Key, issue: SearchIssue, cached: CachedLink): Db {
    InsertSynthetic(db, event, issue.id, SyntheticPayload(issue, cached, DriftedFields(foreign, issue, cached)))
  }

  // A concrete drifted issue that is not healed: its search result is older than the link.
  lemma OlderResultIsNotHealed(renderAdf: Json -> string, now: int)
    ensures var foreign := Foreign(s => s, (s: string) => if s == "" then None else Some(1), s => s);
      var env := Env(foreign.parseDate, renderAdf);
      var link := Link("l", "t", "k", "c", "m", Some("7"), None, LinkLinked, false, Some("Open"), None, Some(2), None);
      var db := Db(map[], [link], map[], map[Key("t", "c") := Connection(false, None)], map[], [], [], [], []);
      var issue := SearchIssue("7", "P-7", "", "earlier", IssueStatus("3", Some("Done"), "done"), None, None);
      var event := Key("t", SyntheticEventId(foreign, issue));
      var after := Deliver(env, Synthesise(foreign, db, event, issue, CachedOf(link)), event, now, false);
      !NoDrift(foreign, issue, CachedOf(link)) && |after.links| == 1 &&
      !NoDrift(foreign, issue, CachedOf(after.links[0]))
  {
    var foreign := Foreign(s => s, (s: string) => if s == "" then None else Some(1), s => s);
    var env := Env(foreign.parseDate, renderAdf);
    var link := Link("l", "t", "k", "c", "m", Some("7"), None, LinkLinked, false, Some("Open"), None, Some(2), None);
    var db := Db(map[], [link], map[], map[Key("t", "c") := Connection(false, None)], map[], [], [], [], []);
    var issue := SearchIssue("7", "P-7", "", "earlier", IssueStatus("3", Some("Done"), "done"), None, None);
    var event := Key("t", SyntheticEventId(foreign, issue));
    assert "Open"[0] != "Done"[0];
    assert IsLiveLink(db, "t", "7", 0);
    HealsExactly(env, foreign, db, event, 0, now, issue, issue, CachedOf(link), []);
  }

  // A concrete drifted issue that is not healed although its result is newer than the link:
  // its event was skipped before, while the connection was revoked.
  lemma SettledEventIsNotHealed(renderAdf: Json -> string, now: int)
    ensures var foreign := Foreign(s => s, (s: string) => if s == "" then None else Some(3), s => s);
      var env := Env(foreign.parseDate, renderAdf);
      var link := Link("l", "t", "k", "c", "m", Some("7"), None, LinkLinked, false, Some("Open"), None, Some(2), None);
      var issue := SearchIssue("7", "P-7", "", "later", IssueStatus("3", Some("Done"), "done"), None, None);
      var event := Key("t", SyntheticEventId(foreign, issue));
      var skipped := Envelope("jira:issue_updated", Some("7"), SyntheticPayload(issue, CachedOf(link), [StatusDrift]),
                              Skipped(RevokedConnection), 1);
      var db := Db(map[event := skipped], [link], map[], map[Key("t", "c") := Connection(false, None)], map[], [], [],
                   [], []);
      var after := Deliver(env, Synthesise(foreign, db, event, issue, CachedOf(link)), event, now, false);
      CanHeal(foreign, issue.updated, link.jiraUpdatedAt) && !NoDrift(foreign, issue, CachedOf(link)) &&
      |after.links| == 1 && !NoDrift(foreign, issue, CachedOf(after.links[0]))
  {
    assert "Open"[0] != "Done"[0];
  }

  // --------------------------------------------------------------------- the job

  datatype Counters = Counters(issuesScanned: nat, driftDetected: nat, eventsSynthesised: nat)

  // What the job has done so far: the database, its counters, the queue messages that
  // were accepted, and its watermark.
  datatype Progress = Progress(db: Db, counters: Counters, sent: seq<Key>, lastUpdatedAt: Option<string>)

  // A run on a snapshot of links. Without a queue nothing is sent; `accepts` says which
  // messages the queue takes, and the job goes on when it does not take one.
  datatype Job = Job(foreign: Foreign, tenant: string, links: map<string, CachedLink>, hasQueue: bool,
                     accepts: Key -> bool)

  function Enqueued(job: Job, event: Key): seq<Key> {
    if job.hasQueue && job.accepts(event) then [event] else []
  }

  function EventOf(job: Job, issue: SearchIssue): Key {
    Key(job.tenant, SyntheticEventId(job.foreign, issue))
  }

  predicate Drifts(job: Job, issue: SearchIssue) {
    issue.id in job.links && !NoDrift(job.foreign, issue, job.links[issue.id])
  }

  function Insert(job: Job, db: Db, issue: SearchIssue): Db
    requires issue.id in job.links
  {
    Synthesise(job.foreign, db, EventOf(job, issue), issue, job.links[issue.id])
  }

  function Scanned(p: Progress, issue: SearchIssue): Progress {
    p.(counters := p.counters.(issuesScanned := p.counters.issuesScanned + 1),
       lastUpdatedAt := if issue.updated != "" then Some(issue.updated) else p.lastUpdatedAt)
  }

  function ProcessIssue(job: Job, p: Progress, issue: SearchIssue): Progress {
    var s := Scanned(p, issue);
    if !Drifts(job, issue) then s
    else
      var isNew := EventOf(job, issue) !in s.db.envelopes;
      s.(db := Insert(job, s.db, issue),
         counters := s.counters.(driftDetected := s.counters.driftDetected + 1,
                                 eventsSynthesised := s.counters.eventsSynthesised + if isNew then 1 else 0),
         sent := s.sent + if isNew then Enqueued(job, EventOf(job, issue)) else [])
  }

  function ProcessPage(job: Job, p: Progress, issues: seq<SearchIssue>): Progress {
    if issues == [] then p
    else ProcessIssue(job, ProcessPage(job, p, issues[..|issues| - 1]), issues[|issues| - 1])
  }

  class ReconciliationJob {
    const job: Job
    var db: Db
    var counters: Counters
    var sent: seq<Key>
    var lastUpdatedAt: Option<string>

    constructor (job: Job, db: Db)
      ensures this.job == job && Done() == Progress(db, Counters(0, 0, 0), [], None)
    {
      this.job := job;
      this.db := db;
      counters := Counters(0, 0, 0);
      sent := [];
      lastUpdatedAt := None;
    }

    function Done(): Progress
      reads this
    {
      Progress(db, counters, sent, lastUpdatedAt)
    }

    method InsertSyntheticEvent(event: Key, issueId: string, payload: Json) returns (inserted: bool)
      modifies this`db
      ensures db == InsertSynthetic(old(db), event, issueId, payload)
      ensures inserted <==> event !in old(db).envelopes
    {
      inserted := event !in db.envelopes;
      if inserted {
        db := db.(envelopes :=
          db.envelopes[event := Envelope("jira:issue_updated", Some(issueId), payload, Pending, 0)]);
      }
    }

    method Scan(issue: SearchIssue)
      modifies this
      ensures Done() == ProcessIssue(job, old(Done()), issue)
    {
      counters := counters.(issuesScanned := counters.issuesScanned + 1);
      if issue.updated != "" {
        lastUpdatedAt := Some(issue.updated);
      }
      if issue.id !in job.links {
        return;
      }
      var cached := job.links[issue.id];
      var hasDrift, driftedFields, syntheticEventId := DetectDrift(job.foreign, issue, cached);
      if !hasDrift {
        return;
      }
      counters := counters.(driftDetected := counters.driftDetected + 1);
      var event := Key(job.tenant, syntheticEventId);
      var inserted := InsertSyntheticEvent(event, issue.id, SyntheticPayload(issue, cached, driftedFields));
      if inserted {
        counters := counters.(eventsSynthesised := counters.eventsSynthesised + 1);
        EnqueueSyntheticEvent(event);
      }
    }

    method EnqueueSyntheticEvent(event: Key)
      modifies this`sent
      ensures sent == old(sent) + Enqueued(job, event)
    {
      if !job.hasQueue {
        return;
      }
      if job.accepts(event) {
        sent := sent + [event];
      }
    }

    // The issues of one page of search results.
    method ScanPage(issues: seq<SearchIssue>)
      modifies this
      ensures Done() == ProcessPage(job, old(Done()), issues)
    {
      var i := 0;
      while i < |issues|
        invariant 0 <= i <= |issues|
        invariant Done() == ProcessPage(job, old(Done()), issues[..i])
      {
        Scan(issues[i]);
        assert issues[..i + 1][..i] == issues[..i];
        i := i + 1;
      }
      assert issues[..i] == issues;
    }
  }

  // ------------------------------------------------------------------ what a page does

  // Every drifted issue has its envelope afterwards, and no envelope is lost.
  lemma {:induction false} DriftIsStored(job: Job, p: Progress, issues: seq<SearchIssue>)
    ensures ProcessPage(job, p, issues).db.envelopes.Keys >= p.db.envelopes.Keys
    ensures forall issue :: issue in issues && Drifts(job, issue) ==>
              EventOf(job, issue) in ProcessPage(job, p, issues).db.envelopes
  {
    if issues != [] {
      var front := issues[..|issues| - 1];
      DriftIsStored(job, p, front);
      assert issues == front + [issues[|issues| - 1]];
    }
  }

  // The counter counts exactly the envelopes inserted, and no more messages are sent:
  // as many when there is a queue that takes them all.
  lemma {:induction false} CountsInserts(job: Job, p: Progress, issues: seq<SearchIssue>)
    ensures var r := ProcessPage(job, p, issues);
      r.counters.eventsSynthesised - p.counters.eventsSynthesised == |r.db.envelopes| - |p.db.envelopes| &&
      0 <= |r.sent| - |p.sent| <= r.counters.eventsSynthesised - p.counters.eventsSynthesised &&
      (job.hasQueue && (forall event :: job.accepts(event)) ==>
         |r.sent| - |p.sent| == r.counters.eventsSynthesised - p.counters.eventsSynthesised) &&
      r.counters.issuesScanned == p.counters.issuesScanned + |issues| &&
      r.counters.driftDetected - p.counters.driftDetected >= r.counters.eventsSynthesised - p.counters.eventsSynthesised
  {
    if issues != [] {
      CountsInserts(job, p, issues[..|issues| - 1]);
      var q, issue := ProcessPage(job, p, issues[..|issues| - 1]), issues[|issues| - 1];
      if Drifts(job, issue) && EventOf(job, issue) !in q.db.envelopes {
        var r := ProcessPage(job, p, issues);
        assert r.db.envelopes.Keys == q.db.envelopes.Keys + {EventOf(job, issue)};
        assert |r.db.envelopes.Keys| == |r.db.envelopes| && |q.db.envelopes.Keys| == |q.db.envelopes|;
      }
    }
  }

  // On a database that already has the envelopes, a page inserts and sends nothing.
  lemma {:induction false} NothingTwice(job: Job, p: Progress, issues: seq<SearchIssue>)
    requires forall issue :: issue in issues && Drifts(job, issue) ==> EventOf(job, issue) in p.db.envelopes
    ensures var r := ProcessPage(job, p, issues);
      r.db == p.db && r.sent == p.sent && r.counters.eventsSynthesised == p.counters.eventsSynthesised
  {
    if issues != [] {
      NothingTwice(job, p, issues[..|issues| - 1]);
    }
  }

  // Rerunning on the same snapshot inserts no second envelope, whatever the inbound
  // sync did in between.
  lemma RerunInsertsNothing(job: Job, p: Progress, issues: seq<SearchIssue>, env: Env, steps: seq<Step>,
                            again: Progress)
    requires again.db == Run(env, ProcessPage(job, p, issues).db, steps)
    ensures var r := ProcessPage(job, again, issues);
      r.db == again.db && r.sent == again.sent && r.counters.eventsSynthesised == again.counters.eventsSynthesised
  {
    var db := ProcessPage(job, p, issues).db;
    DriftIsStored(job, p, issues);
    RunKeepsKeys(env, db, steps);
    NothingTwice(job, again, issues);
  }

  lemma {:induction false} RunKeepsKeys(env: Env, db: Db, steps: seq<Step>)
    ensures Run(env, db, steps).envelopes.Keys >= db.envelopes.Keys
    decreases |steps|
  {
    if steps != [] {
      if steps[0].Delivered? {
        var effect := DeliverEffect(env, db, steps[0].event, steps[0].now, steps[0].fault);
      }
      RunKeepsKeys(env, Next(env, db, steps[0]), steps[1..]);
    }
  }
}
