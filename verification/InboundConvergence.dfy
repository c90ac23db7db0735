/**
 * Convergence of a link to its Jira issue: whatever order, repetition and failure
 * the updates of an issue are delivered in, the link ends with what the newest
 * delivered update says.
 */
module InboundConvergence {
  import opened Basics
  import opened JiraEvents
  import opened InboundSync
  import opened InboundRuns

  // What a link shows of its Jira issue.
  datatype View = View(status: Option<string>, assignee: Option<string>, updatedAt: Option<int>)

  function Shown(link: Link): View {
    View(link.jiraStatus, link.jiraAssignee, link.jiraUpdatedAt)
  }

  // An issue update with a valid time, a status and a readable change log.
  predicate IsUpdate(env: Env, e: Envelope) {
    IsIssueUpdate(e.eventType) && UpdatedStamp(e.payload, env.parseDate).At? &&
    IsObject(IssueFields(e.payload)) && StatusOf(IssueFields(e.payload).value).Some? &&
    SomeItemHasField(ChangelogItems(e.payload), "status").Ok? &&
    SomeItemHasField(ChangelogItems(e.payload), "assignee").Ok?
  }

  function TimeOf(env: Env, e: Envelope): int
    requires IsUpdate(env, e)
  {
    UpdatedStamp(e.payload, env.parseDate).ms
  }

  // What an update says about the issue.
  function Told(env: Env, e: Envelope): View
    requires IsUpdate(env, e)
  {
    var fields := IssueFields(e.payload).value;
    View(Some(StatusOf(fields).value.name), AssigneeOf(fields), Some(TimeOf(env, e)))
  }

  // An issue and its one live link.
  datatype Subject = Subject(tenant: string, issueId: string, link: nat)

  predicate Concerns(e: Envelope, event: Key, subject: Subject) {
    event.tenant == subject.tenant && e.issueId == Some(subject.issueId)
  }

  predicate IsLinked(db: Db, subject: Subject) {
    IsLiveLink(db, subject.tenant, subject.issueId, subject.link)
  }

  function AccountOf(db: Db, subject: Subject): Option<string>
    requires IsLinked(db, subject)
  {
    LoadConnection(db, db.links[subject.link]).value.integrationAccountId
  }

  function ClassifiedBy(env: Env, e: Envelope, account: Option<string>, linkUpdatedAt: Option<int>):
      Result<ClassifiedEvent, string> {
    ClassifyJiraEvent(e.eventType, e.payload, account, linkUpdatedAt, env.parseDate)
  }

  // Whether an event is OpsNinja's own.
  predicate IsOwn(env: Env, e: Envelope, account: Option<string>) {
    ClassifiedBy(env, e, account, None).Ok? && ClassifiedBy(env, e, account, None).value.isLoopOrigin
  }

  // An event says nothing of status and assignee but what `told` says.
  predicate Agrees(c: ClassifiedEvent, told: View) {
    (c.jiraStatus.Some? ==> told.status == Some(c.jiraStatus.value.name)) &&
    (c.jiraAssignee.SetTo? ==> told.assignee == c.jiraAssignee.name)
  }

  // An event that cannot keep a link from showing `told`: OpsNinja's own, or one with an
  // unreadable time, or no deletion and either earlier, or at the same time or without a
  // time and with nothing else to say.
  predicate IsHarmless(env: Env, e: Envelope, account: Option<string>, told: View)
    requires told.updatedAt.Some?
  {
    match ClassifiedBy(env, e, account, None)
    case Err(_) => true
    case Ok(c) =>
      c.isLoopOrigin || c.jiraUpdatedAt.InvalidStamp? ||
      (!c.kind.IssueDeleted? &&
       match c.jiraUpdatedAt
       case At(ms) => ms < told.updatedAt.value || (ms == told.updatedAt.value && Agrees(c, told))
       case _ => Agrees(c, told))
  }

  predicate Tells(env: Env, e: Envelope, told: View) {
    IsUpdate(env, e) && Told(env, e) == told && !e.state.Processing? && !e.state.Ignored?
  }

  // ------------------------------------------------------------- links in one step

  predicate SameIdentity(a: Link, b: Link) {
    a.id == b.id && a.tenant == b.tenant && a.connectionId == b.connectionId && a.issueId == b.issueId &&
    a.state == b.state
  }

  lemma {:induction false} FindSame(before: seq<Link>, after: seq<Link>, tenant: string, issueId: string, i: nat)
    requires |before| == |after| && i <= |before|
    requires forall j :: 0 <= j < |before| ==> SameIdentity(before[j], after[j])
    ensures FindLink(after, tenant, issueId, i) == FindLink(before, tenant, issueId, i)
    decreases |before| - i
  {
    if i < |before| {
      FindSame(before, after, tenant, issueId, i + 1);
    }
  }

  lemma OnLinkTouchesOne(env: Env, db: Db, event: Key, i: nat, now: int, after: Db, j: nat)
    requires event in db.envelopes && i < |db.links| && j < |db.links|
    requires TransactOnLink(env, db, event, i, now) == Ok(after)
    ensures |after.links| == |db.links| && SameIdentity(db.links[j], after.links[j])
    ensures i != j ==> after.links[j] == db.links[j]
  {
    var link, envelope := db.links[i], db.envelopes[event];
    var connection := LoadConnection(db, link);
    if !link.orphaned && connection.Some? {
      var c := ClassifyJiraEvent(envelope.eventType, envelope.payload, connection.value.integrationAccountId,
                                 link.jiraUpdatedAt, env.parseDate).value;
      if !c.isLoopOrigin && !c.isStale {
        ChangeKeeps(env, db, event, i, c, LoadMapping(db, link), now);
      }
    }
  }

  // A step keeps every link's identity, and touches only the link its event resolves to.
  lemma StepTouchesOne(env: Env, db: Db, step: Step, j: nat)
    requires j < |db.links|
    ensures var after := Next(env, db, step);
      |after.links| == |db.links| && SameIdentity(db.links[j], after.links[j]) && after.connections == db.connections &&
      (after.links[j] != db.links[j] ==>
         step.Delivered? && Claimable(db, step.event) &&
         ResolveLink(db, step.event.tenant, db.envelopes[step.event].issueId) == Some(j))
  {
    if step.Delivered? && Commits(env, db, step.event, step.now, step.fault) {
      var after := Next(env, db, step);
      var effect := DeliverEffect(env, db, step.event, step.now, step.fault);
      ClaimedTouchesOne(env, db, Claimed(db, step.event), step.event, step.now, after, j);
    }
  }

  lemma ClaimedTouchesOne(env: Env, db: Db, claimed: Db, event: Key, now: int, after: Db, j: nat)
    requires event in db.envelopes && claimed == Claimed(db, event) && Transact(env, claimed, event, now) == Ok(after)
    requires j < |db.links|
    ensures |after.links| == |db.links| && SameIdentity(db.links[j], after.links[j])
    ensures after.links[j] != db.links[j] ==> ResolveLink(db, event.tenant, db.envelopes[event].issueId) == Some(j)
  {
    var resolved := ResolveLink(claimed, event.tenant, claimed.envelopes[event].issueId);
    if resolved.Some? {
      OnLinkTouchesOne(env, claimed, event, resolved.value, now, after, j);
    }
  }

  // --------------------------------------------------------- applying one update

  lemma UpdateClassified(env: Env, e: Envelope, account: Option<string>, linkUpdatedAt: Option<int>)
    requires IsUpdate(env, e)
    ensures var r := ClassifyJiraEvent(e.eventType, e.payload, account, linkUpdatedAt, env.parseDate);
      r.Ok? && !r.value.isLoopOrigin && !r.value.kind.IssueDeleted? && r.value.jiraUpdatedAt == At(TimeOf(env, e)) &&
      (r.value.isStale <==> linkUpdatedAt.Some? && TimeOf(env, e) < linkUpdatedAt.value) &&
      r.value.jiraStatus == StatusOf(IssueFields(e.payload).value) &&
      r.value.jiraAssignee == SetTo(AssigneeOf(IssueFields(e.payload).value))
  {
    var unclassified := Unclassified(UpdatedStamp(e.payload, env.parseDate), linkUpdatedAt);
    assert ClassifyIssueUpdate(e.payload, unclassified).Ok?;
  }

  // On a live link an update either is older than the link and changes nothing, or
  // makes the link show what it says. Either way its envelope is settled.
  lemma UpdateApplies(env: Env, db: Db, event: Key, i: nat, now: int)
    requires event in db.envelopes && IsUpdate(env, db.envelopes[event]) && i < |db.links|
    requires !db.links[i].orphaned && LoadConnection(db, db.links[i]).Some?
    ensures var r := TransactOnLink(env, db, event, i, now);
      r.Ok? && |r.value.links| == |db.links| && !r.value.links[i].orphaned &&
      Shown(r.value.links[i]) == (if IsStale(At(TimeOf(env, db.envelopes[event])), db.links[i].jiraUpdatedAt)
                                  then Shown(db.links[i]) else Told(env, db.envelopes[event]))
  {
    var link, envelope := db.links[i], db.envelopes[event];
    var account := LoadConnection(db, link).value.integrationAccountId;
    UpdateClassified(env, envelope, account, link.jiraUpdatedAt);
    var c := ClassifyJiraEvent(envelope.eventType, envelope.payload, account, link.jiraUpdatedAt, env.parseDate).value;
    if !c.isStale {
      ChangeKeeps(env, db, event, i, c, LoadMapping(db, link), now);
    }
  }

  // The link's time matters for staleness only.
  lemma ClassifiedAlike(env: Env, e: Envelope, account: Option<string>, linkUpdatedAt: Option<int>)
    ensures var r, r0 := ClassifiedBy(env, e, account, linkUpdatedAt), ClassifiedBy(env, e, account, None);
      (r.Err? <==> r0.Err?) &&
      (r.Ok? ==> r.value == r0.value.(isStale := IsStale(UpdatedStamp(e.payload, env.parseDate), linkUpdatedAt)) &&
                 r.value.jiraUpdatedAt == UpdatedStamp(e.payload, env.parseDate))
  {
  }

  predicate NotAfter(updatedAt: Option<int>, t: int) {
    updatedAt.Some? ==> updatedAt.value <= t
  }

  // A committed event on a live link: one of OpsNinja's own or a stale one leaves the link
  // as it is, any other writes its time, status and assignee.
  lemma EventApplies(env: Env, db: Db, event: Key, i: nat, now: int, after: Db)
    requires event in db.envelopes && i < |db.links| && TransactOnLink(env, db, event, i, now) == Ok(after)
    requires !db.links[i].orphaned && LoadConnection(db, db.links[i]).Some?
    ensures |after.links| == |db.links|
    ensures
      var link, e := db.links[i], db.envelopes[event];
      var r := ClassifiedBy(env, e, LoadConnection(db, link).value.integrationAccountId, None);
      r.Ok? &&
      if r.value.isLoopOrigin || IsStale(r.value.jiraUpdatedAt, link.jiraUpdatedAt) then after.links[i] == link
      else !r.value.jiraUpdatedAt.InvalidStamp? && after.links[i].orphaned == r.value.kind.IssueDeleted? &&
           Shown(after.links[i]) == Shown(Synced(link, r.value, now))
  {
    var link, e := db.links[i], db.envelopes[event];
    var account := LoadConnection(db, link).value.integrationAccountId;
    ClassifiedAlike(env, e, account, link.jiraUpdatedAt);
    var c := ClassifiedBy(env, e, account, link.jiraUpdatedAt).value;
    if !c.isLoopOrigin && !c.isStale {
      ChangeKeeps(env, db, event, i, c, LoadMapping(db, link), now);
    }
  }

  // On a live link that shows `told` a committed event leaves it live and showing `told`
  // exactly when it is harmless, or a deletion that is earlier.
  lemma HarmlessExactly(env: Env, db: Db, event: Key, i: nat, now: int, told: View, after: Db)
    requires event in db.envelopes && i < |db.links| && TransactOnLink(env, db, event, i, now) == Ok(after)
    requires !db.links[i].orphaned && LoadConnection(db, db.links[i]).Some?
    requires told.updatedAt.Some? && Shown(db.links[i]) == told
    ensures |after.links| == |db.links|
    ensures
      var account := LoadConnection(db, db.links[i]).value.integrationAccountId;
      !after.links[i].orphaned && Shown(after.links[i]) == told <==>
      IsHarmless(env, db.envelopes[event], account, told) ||
      IsStale(UpdatedStamp(db.envelopes[event].payload, env.parseDate), told.updatedAt)
  {
    var account := LoadConnection(db, db.links[i]).value.integrationAccountId;
    ClassifiedAlike(env, db.envelopes[event], account, None);
    EventApplies(env, db, event, i, now, after);
  }

  // A harmless event also keeps a link that is not after `told` not after it.
  lemma HarmlessKeeps(env: Env, db: Db, event: Key, i: nat, now: int, told: View, after: Db)
    requires event in db.envelopes && i < |db.links| && TransactOnLink(env, db, event, i, now) == Ok(after)
    requires !db.links[i].orphaned && LoadConnection(db, db.links[i]).Some? && told.updatedAt.Some?
    requires IsHarmless(env, db.envelopes[event], LoadConnection(db, db.links[i]).value.integrationAccountId, told)
    ensures |after.links| == |db.links| && !after.links[i].orphaned
    ensures Shown(db.links[i]) == told ==> Shown(after.links[i]) == told
    ensures NotAfter(db.links[i].jiraUpdatedAt, told.updatedAt.value) ==>
              NotAfter(after.links[i].jiraUpdatedAt, told.updatedAt.value)
  {
    EventApplies(env, db, event, i, now, after);
  }

  // ------------------------------------------------------------------ the invariant

  predicate IsSettled(db: Db, event: Key) {
    event in db.envelopes && IsVerdict(db.envelopes[event].state)
  }

  // The link is live; it shows the newest update once that one has its verdict, and no
  // later time until then.
  predicate Tracks(db: Db, subject: Subject, newest: Key, account: Option<string>, told: View) {
    IsLinked(db, subject) && AccountOf(db, subject) == account && told.updatedAt.Some? &&
    if IsSettled(db, newest) then Shown(db.links[subject.link]) == told
    else NotAfter(db.links[subject.link].jiraUpdatedAt, told.updatedAt.value)
  }

  // A step never removes an event or changes what it says, and leaves a stuck one stuck.
  lemma StepKeepsEvents(env: Env, db: Db, step: Step, event: Key)
    requires event in db.envelopes
    ensures event in Next(env, db, step).envelopes
    ensures var before, after := db.envelopes[event], Next(env, db, step).envelopes[event];
      after.eventType == before.eventType && after.issueId == before.issueId && after.payload == before.payload &&
      (before.state.Processing? || before.state.Ignored? ==> after.state == before.state)
  {
    if step.Delivered? {
      var effect := DeliverEffect(env, db, step.event, step.now, step.fault);
    }
  }

  predicate AppliesTo(env: Env, db: Db, step: Step, subject: Subject) {
    step.Delivered? && Commits(env, db, step.event, step.now, step.fault) &&
    Concerns(db.envelopes[step.event], step.event, subject)
  }

  lemma ResolvesSame(env: Env, db: Db, step: Step, subject: Subject)
    requires IsLinked(db, subject)
    ensures var after := Next(env, db, step);
      ResolveLink(after, subject.tenant, Some(subject.issueId)) == Some(subject.link) &&
      LoadConnection(after, after.links[subject.link]) == LoadConnection(db, db.links[subject.link])
  {
    var after := Next(env, db, step);
    forall j | 0 <= j < |db.links|
      ensures |after.links| == |db.links| && SameIdentity(db.links[j], after.links[j]) &&
              after.connections == db.connections
    {
      StepTouchesOne(env, db, step, j);
    }
    FindSame(db.links, after.links, subject.tenant, subject.issueId, 0);
  }

  // A step settles no event but the one it commits, and unsettles none.
  lemma SettledUnless(env: Env, db: Db, step: Step, event: Key)
    ensures IsSettled(Next(env, db, step), event) <==> IsSettled(db, event) || CommitsOn(env, db, step, event)
  {
    if step.Delivered? {
      var effect := DeliverEffect(env, db, step.event, step.now, step.fault);
    }
  }

  // A step that applies no event of the issue leaves the link as it is.
  lemma OtherStepTracks(env: Env, db: Db, step: Step, subject: Subject, newest: Key, account: Option<string>,
                        told: View)
    requires Tracks(db, subject, newest, account, told) && !AppliesTo(env, db, step, subject)
    requires newest in db.envelopes ==> Concerns(db.envelopes[newest], newest, subject)
    ensures Tracks(Next(env, db, step), subject, newest, account, told)
  {
    StepTouchesOne(env, db, step, subject.link);
    ResolvesSame(env, db, step, subject);
    SettledUnless(env, db, step, newest);
  }

  // Committing the newest update.
  lemma NewestStepTracks(env: Env, db: Db, step: Step, subject: Subject, account: Option<string>, told: View)
    requires AppliesTo(env, db, step, subject) && Tracks(db, subject, step.event, account, told)
    requires Tells(env, db.envelopes[step.event], told)
    ensures Tracks(Next(env, db, step), subject, step.event, account, told)
  {
    ClaimedUpdateApplies(env, db, Claimed(db, step.event), step.event, subject, step.now);
    ResolvesSame(env, db, step, subject);
    SettledUnless(env, db, step, step.event);
  }

  lemma ClaimedUpdateApplies(env: Env, db: Db, claimed: Db, event: Key, subject: Subject, now: int)
    requires event in db.envelopes && claimed == Claimed(db, event) && IsUpdate(env, db.envelopes[event])
    requires Concerns(db.envelopes[event], event, subject) && IsLinked(db, subject)
    ensures var r, link := Transact(env, claimed, event, now), db.links[subject.link];
      r.Ok? && |r.value.links| == |db.links| && !r.value.links[subject.link].orphaned &&
      Shown(r.value.links[subject.link]) == (if IsStale(At(TimeOf(env, db.envelopes[event])), link.jiraUpdatedAt)
                                             then Shown(link) else Told(env, db.envelopes[event]))
  {
    UpdateApplies(env, claimed, event, subject.link, now);
  }

  // Committing any other event of the issue.
  lemma HarmlessStepTracks(env: Env, db: Db, step: Step, subject: Subject, newest: Key, account: Option<string>,
                           told: View)
    requires Tracks(db, subject, newest, account, told) && AppliesTo(env, db, step, subject) && step.event != newest
    requires IsHarmless(env, db.envelopes[step.event], account, told)
    ensures Tracks(Next(env, db, step), subject, newest, account, told)
  {
    ClaimedHarmlessKeeps(env, db, Claimed(db, step.event), step.event, subject, step.now, told, Next(env, db, step));
    ResolvesSame(env, db, step, subject);
    SettledUnless(env, db, step, newest);
  }

  lemma ClaimedHarmlessKeeps(env: Env, db: Db, claimed: Db, event: Key, subject: Subject, now: int, told: View,
                             after: Db)
    requires event in db.envelopes && claimed == Claimed(db, event) && told.updatedAt.Some?
    requires Concerns(db.envelopes[event], event, subject) && IsLinked(db, subject)
    requires IsHarmless(env, db.envelopes[event], AccountOf(db, subject), told)
    requires Transact(env, claimed, event, now) == Ok(after)
    ensures |after.links| == |db.links| && !after.links[subject.link].orphaned
    ensures Shown(db.links[subject.link]) == told ==> Shown(after.links[subject.link]) == told
    ensures NotAfter(db.links[subject.link].jiraUpdatedAt, told.updatedAt.value) ==>
              NotAfter(after.links[subject.link].jiraUpdatedAt, told.updatedAt.value)
  {
    HarmlessKeeps(env, claimed, event, subject.link, now, told, after);
  }

  // ------------------------------------------------------------------- convergence

  // A step commits no event of the issue but the newest update and harmless ones.
  predicate IsHarmlessStep(env: Env, db: Db, step: Step, subject: Subject, newest: Key, account: Option<string>,
                           told: View)
    requires told.updatedAt.Some?
  {
    AppliesTo(env, db, step, subject) && step.event != newest ==>
      IsHarmless(env, db.envelopes[step.event], account, told)
  }

  predicate OthersHarmless(env: Env, db: Db, steps: seq<Step>, subject: Subject, newest: Key,
                           account: Option<string>, told: View)
    requires told.updatedAt.Some?
    decreases |steps|
  {
    steps == [] ||
    (IsHarmlessStep(env, db, steps[0], subject, newest, account, told) &&
     OthersHarmless(env, Next(env, db, steps[0]), steps[1..], subject, newest, account, told))
  }

  // An event is delivered without a fault at some point of a run after it was stored.
  predicate DeliveredIn(env: Env, db: Db, steps: seq<Step>, event: Key)
    decreases |steps|
  {
    steps != [] &&
    ((steps[0].Delivered? && steps[0].event == event && !steps[0].fault && event in db.envelopes) ||
     DeliveredIn(env, Next(env, db, steps[0]), steps[1..], event))
  }

  // An event that is stored in the end is, while stored, the same event.
  lemma {:induction false} RunKeepsEvents(env: Env, db: Db, steps: seq<Step>, event: Key)
    requires event in db.envelopes
    ensures event in Run(env, db, steps).envelopes
    ensures var before, after := db.envelopes[event], Run(env, db, steps).envelopes[event];
      after.eventType == before.eventType && after.issueId == before.issueId && after.payload == before.payload &&
      (before.state.Processing? || before.state.Ignored? ==> after.state == before.state)
    decreases |steps|
  {
    if steps != [] {
      StepKeepsEvents(env, db, steps[0], event);
      RunKeepsEvents(env, Next(env, db, steps[0]), steps[1..], event);
    }
  }

  lemma StepTracks(env: Env, db: Db, step: Step, subject: Subject, newest: Key, account: Option<string>, told: View)
    requires Tracks(db, subject, newest, account, told)
    requires IsHarmlessStep(env, db, step, subject, newest, account, told)
    requires newest in db.envelopes ==>
               Concerns(db.envelopes[newest], newest, subject) && Tells(env, db.envelopes[newest], told)
    ensures Tracks(Next(env, db, step), subject, newest, account, told)
  {
    if !AppliesTo(env, db, step, subject) {
      OtherStepTracks(env, db, step, subject, newest, account, told);
    } else if step.event == newest {
      NewestStepTracks(env, db, step, subject, account, told);
    } else {
      HarmlessStepTracks(env, db, step, subject, newest, account, told);
    }
  }

  lemma {:induction false} RunTracks(env: Env, db: Db, steps: seq<Step>, subject: Subject, newest: Key,
                                     account: Option<string>, told: View)
    requires Tracks(db, subject, newest, account, told)
    requires OthersHarmless(env, db, steps, subject, newest, account, told)
    requires newest in Run(env, db, steps).envelopes && Concerns(Run(env, db, steps).envelopes[newest], newest, subject)
    requires Tells(env, Run(env, db, steps).envelopes[newest], told)
    ensures Tracks(Run(env, db, steps), subject, newest, account, told)
    ensures DeliveredIn(env, db, steps, newest) ==> IsSettled(Run(env, db, steps), newest)
    decreases |steps|
  {
    if steps != [] {
      var step, next := steps[0], Next(env, db, steps[0]);
      if newest in db.envelopes {
        RunKeepsEvents(env, db, steps, newest);
      }
      StepTracks(env, db, step, subject, newest, account, told);
      RunTracks(env, next, steps[1..], subject, newest, account, told);
      if step.Delivered? && step.event == newest && !step.fault && newest in db.envelopes {
        FaultlessDeliverySettles(env, db, step, subject, told);
        SettledForever(env, next, steps[1..], newest);
      }
    }
  }

  lemma FaultlessDeliverySettles(env: Env, db: Db, step: Step, subject: Subject, told: View)
    requires step.Delivered? && !step.fault && step.event in db.envelopes && IsLinked(db, subject)
    requires Tells(env, db.envelopes[step.event], told) && Concerns(db.envelopes[step.event], step.event, subject)
    ensures IsSettled(Next(env, db, step), step.event)
  {
    ClaimedUpdateApplies(env, db, Claimed(db, step.event), step.event, subject, step.now);
    SettledUnless(env, db, step, step.event);
  }

  // Whatever events are delivered in whatever order, how often, with whatever failures,
  // a live link ends with the status, the assignee and the time of the issue's newest
  // update, once that one was delivered without a fault, exactly when the link does not
  // start at a later time. The other events of the issue that commit in the run only
  // have to be harmless.
  lemma Converges(env: Env, db: Db, steps: seq<Step>, subject: Subject, newest: Key, told: View)
    requires IsLinked(db, subject) && !IsSettled(db, newest)
    requires newest in Run(env, db, steps).envelopes && Concerns(Run(env, db, steps).envelopes[newest], newest, subject)
    requires Tells(env, Run(env, db, steps).envelopes[newest], told) && DeliveredIn(env, db, steps, newest)
    requires OthersHarmless(env, db, steps, subject, newest, AccountOf(db, subject), told)
    ensures |Run(env, db, steps).links| == |db.links|
    ensures IsLinked(Run(env, db, steps), subject) && Shown(Run(env, db, steps).links[subject.link]) == told <==>
            NotAfter(db.links[subject.link].jiraUpdatedAt, told.updatedAt.value)
  {
    NeverBackwards(env, db, steps, subject.link);
    if NotAfter(db.links[subject.link].jiraUpdatedAt, told.updatedAt.value) {
      RunTracks(env, db, steps, subject, newest, AccountOf(db, subject), told);
    }
  }

  // Every stored event of the issue but the newest update is harmless.
  predicate OthersStoredHarmless(env: Env, db: Db, subject: Subject, newest: Key, account: Option<string>, told: View)
    requires told.updatedAt.Some?
  {
    forall event :: event in db.envelopes && Concerns(db.envelopes[event], event, subject) && event != newest ==>
      IsHarmless(env, db.envelopes[event], account, told)
  }

  // Then all are harmless whenever they commit.
  lemma {:induction false} StoredHarmless(env: Env, db: Db, steps: seq<Step>, subject: Subject, newest: Key,
                                          account: Option<string>, told: View)
    requires told.updatedAt.Some? && OthersStoredHarmless(env, Run(env, db, steps), subject, newest, account, told)
    ensures OthersHarmless(env, db, steps, subject, newest, account, told)
    decreases |steps|
  {
    if steps != [] {
      var step := steps[0];
      if AppliesTo(env, db, step, subject) && step.event != newest {
        RunKeepsEvents(env, db, steps, step.event);
        assert Concerns(Run(env, db, steps).envelopes[step.event], step.event, subject);
      }
      StoredHarmless(env, Next(env, db, step), steps[1..], subject, newest, account, told);
    }
  }

  // --------------------------------------------------------- outdated by a later event

  lemma OtherDelivered(env: Env, db: Db, subject: Subject, other: Key, now: int)
    requires IsLinked(db, subject) && Claimable(db, other) && Concerns(db.envelopes[other], other, subject)
    requires !IsIssueUpdate(db.envelopes[other].eventType) && db.envelopes[other].eventType != "jira:issue_deleted"
    ensures
      var after := Deliver(env, db, other, now, false);
      var link, stamp := db.links[subject.link], UpdatedStamp(db.envelopes[other].payload, env.parseDate);
      var writes := stamp.At? && !IsOwn(env, db.envelopes[other], AccountOf(db, subject)) &&
                    !IsStale(stamp, link.jiraUpdatedAt);
      |after.links| == |db.links| && !after.links[subject.link].orphaned &&
      Shown(after.links[subject.link]) ==
        View(link.jiraStatus, link.jiraAssignee, if writes then Some(stamp.ms) else link.jiraUpdatedAt)
  {
    if Commits(env, db, other, now, false) {
      ClaimedEventApplies(env, db, Claimed(db, other), other, subject, now);
      ClassifiedAlike(env, db.envelopes[other], AccountOf(db, subject), None);
      OtherClassified(env, db.envelopes[other], AccountOf(db, subject));
    } else {
      ClassifiedAlike(env, db.envelopes[other], AccountOf(db, subject), None);
      OtherCommits(env, db, Claimed(db, other), other, subject, now);
    }
  }

  lemma ClaimedEventApplies(env: Env, db: Db, claimed: Db, event: Key, subject: Subject, now: int)
    requires event in db.envelopes && claimed == Claimed(db, event) && Transact(env, claimed, event, now).Ok?
    requires Concerns(db.envelopes[event], event, subject) && IsLinked(db, subject)
    ensures
      var after, link, i := Transact(env, claimed, event, now).value, db.links[subject.link], subject.link;
      var r := ClassifiedBy(env, db.envelopes[event], AccountOf(db, subject), None);
      |after.links| == |db.links| && r.Ok? &&
      if r.value.isLoopOrigin || IsStale(r.value.jiraUpdatedAt, link.jiraUpdatedAt) then after.links[i] == link
      else !r.value.jiraUpdatedAt.InvalidStamp? && after.links[i].orphaned == r.value.kind.IssueDeleted? &&
           Shown(after.links[i]) == Shown(Synced(link, r.value, now))
  {
    EventApplies(env, claimed, event, subject.link, now, Transact(env, claimed, event, now).value);
  }

  // Anything but an issue update says nothing of status and assignee.
  lemma OtherClassified(env: Env, e: Envelope, account: Option<string>)
    requires !IsIssueUpdate(e.eventType) && e.eventType != "jira:issue_deleted"
    ensures var r := ClassifiedBy(env, e, account, None);
      r.Ok? && r.value.jiraStatus.None? && r.value.jiraAssignee.NotGiven? && !r.value.kind.IssueDeleted?
  {
  }

  // Such an event is only rolled back for an unreadable time.
  lemma OtherCommits(env: Env, db: Db, claimed: Db, other: Key, subject: Subject, now: int)
    requires IsLinked(db, subject) && other in db.envelopes && Concerns(db.envelopes[other], other, subject)
    requires claimed == Claimed(db, other) && Transact(env, claimed, other, now).Err?
    requires !IsIssueUpdate(db.envelopes[other].eventType) && db.envelopes[other].eventType != "jira:issue_deleted"
    ensures UpdatedStamp(db.envelopes[other].payload, env.parseDate).InvalidStamp?
  {
    ClassifiedAlike(env, db.envelopes[other], AccountOf(db, subject), db.links[subject.link].jiraUpdatedAt);
    OtherClassified(env, db.envelopes[other], AccountOf(db, subject));
  }

  lemma UpdateDelivered(env: Env, db: Db, subject: Subject, update: Key, now: int)
    requires IsLinked(db, subject) && Claimable(db, update) && Concerns(db.envelopes[update], update, subject)
    requires IsUpdate(env, db.envelopes[update])
    ensures
      var after, link := Deliver(env, db, update, now, false), db.links[subject.link];
      |after.links| == |db.links| && update in after.envelopes &&
      if NotAfter(link.jiraUpdatedAt, TimeOf(env, db.envelopes[update]))
      then Shown(after.links[subject.link]) == Told(env, db.envelopes[update])
      else Shown(after.links[subject.link]) == Shown(link) && after.envelopes[update].state == Skipped(StaleEvent)
  {
    ClaimedUpdateApplies(env, db, Claimed(db, update), update, subject, now);
    if !NotAfter(db.links[subject.link].jiraUpdatedAt, TimeOf(env, db.envelopes[update])) {
      ClaimedIsStale(env, db, Claimed(db, update), update, subject, now);
    }
  }

  lemma ClaimedIsStale(env: Env, db: Db, claimed: Db, update: Key, subject: Subject, now: int)
    requires IsLinked(db, subject) && update in db.envelopes && Concerns(db.envelopes[update], update, subject)
    requires claimed == Claimed(db, update) && IsUpdate(env, db.envelopes[update])
    requires !NotAfter(db.links[subject.link].jiraUpdatedAt, TimeOf(env, db.envelopes[update]))
    ensures Transact(env, claimed, update, now) == Ok(Mark(claimed, update, Skipped(StaleEvent)))
  {
    UpdateClassified(env, db.envelopes[update], AccountOf(db, subject), db.links[subject.link].jiraUpdatedAt);
  }

  // A delivery leaves every other event's row as it is.
  lemma DeliveryKeepsOthers(env: Env, db: Db, event: Key, now: int, fault: bool, other: Key)
    requires other in db.envelopes && other != event
    ensures other in Deliver(env, db, event, now, fault).envelopes
    ensures Deliver(env, db, event, now, fault).envelopes[other] == db.envelopes[other]
  {
    var effect := DeliverEffect(env, db, event, now, fault);
  }

  // Delivering one more event of the issue that is no update and no deletion, and then an
  // update: the update is applied exactly when it is older than neither the link nor, unless
  // that one is OpsNinja's own, the other event. Otherwise it is skipped for good, and what
  // it says of status and assignee is lost.
  lemma LaterEventOutdates(env: Env, db: Db, subject: Subject, other: Key, update: Key, first: int, second: int)
    requires IsLinked(db, subject) && other != update && Claimable(db, other) && Claimable(db, update)
    requires Concerns(db.envelopes[other], other, subject) && Concerns(db.envelopes[update], update, subject)
    requires !IsIssueUpdate(db.envelopes[other].eventType) && db.envelopes[other].eventType != "jira:issue_deleted"
    requires IsUpdate(env, db.envelopes[update])
    ensures
      var after := Run(env, db, [Delivered(other, first, false), Delivered(update, second, false)]);
      var link, t := db.links[subject.link], TimeOf(env, db.envelopes[update]);
      var stamp := UpdatedStamp(db.envelopes[other].payload, env.parseDate);
      |after.links| == |db.links| && update in after.envelopes &&
      if NotAfter(link.jiraUpdatedAt, t) && (stamp.At? && t < stamp.ms ==>
                                               IsOwn(env, db.envelopes[other], AccountOf(db, subject)))
      then Shown(after.links[subject.link]) == Told(env, db.envelopes[update])
      else after.links[subject.link].jiraStatus == link.jiraStatus &&
           after.links[subject.link].jiraAssignee == link.jiraAssignee &&
           after.envelopes[update].state == Skipped(StaleEvent)
  {
    var one, two := Delivered(other, first, false), Delivered(update, second, false);
    var middle := Next(env, db, one);
    OtherDelivered(env, db, subject, other, first);
    ResolvesSame(env, db, one, subject);
    DeliveryKeepsOthers(env, db, other, first, false, update);
    UpdateDelivered(env, middle, subject, update, second);
    assert [one, two][1..] == [two] && [two][1..] == [];
    assert Run(env, db, [one, two]) == Run(env, middle, [two]) == Run(env, Next(env, middle, two), []);
  }
}
