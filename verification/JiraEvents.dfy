/**
 * Classification of raw Jira webhook payloads: what happened to the issue, when,
 * whether the event is older than what the link already shows, and whether
 * OpsNinja caused it itself.
 */
module JiraEvents {
  import opened Basics
  import opened Json
  import opened LikePattern

  const ORIGIN_MARKER := "<!-- opsninja-sync -->"

  datatype JiraEventKind =
    | IssueStatusChanged
    | IssueAssigneeChanged
    | CommentCreated
    | CommentUpdated
    | IssueDeleted
    | Unsupported

  datatype JiraStatus = JiraStatus(id: string, name: string, categoryKey: string)

  datatype JiraComment = JiraComment(id: string, body: Json, authorAccountId: Option<string>,
                                     authorDisplayName: Option<string>, isEdit: bool)

  // `issue.fields.updated` as a Date: missing, unparsable, or milliseconds.
  datatype Stamp = NoStamp | InvalidStamp | At(ms: int)

  // An assignee is undefined, or set to a display name or to null.
  datatype Assignee = NotGiven | SetTo(name: Option<string>)

  datatype ClassifiedEvent = ClassifiedEvent(
    kind: JiraEventKind,
    jiraStatus: Option<JiraStatus>,
    jiraAssignee: Assignee,
    comment: Option<JiraComment>,
    jiraUpdatedAt: Stamp,
    isLoopOrigin: bool,
    isStale: bool)

  // ------------------------------------------------------------ reading payloads

  // value[key]; None stands for `undefined`.
  function Prop(value: Json, key: string): Option<Json> {
    match value
    case JObj(fields) => Get(fields, key)
    case _ => None
  }

  // The value at the end of a path of keys, when it is a string.
  function GetString(value: Option<Json>, path: seq<string>): Option<string>
    decreases |path|
  {
    if path == [] then
      match value
      case Some(JStr(s)) => Some(s)
      case _ => None
    else if value.None? then None
    else GetString(Prop(value.value, path[0]), path[1..])
  }

  method GetStringAt(value: Json, path: seq<string>) returns (r: Option<string>)
    ensures r == GetString(Some(value), path)
  {
    var cur := Some(value);
    var i := 0;
    while i < |path|
      invariant 0 <= i <= |path|
      invariant GetString(Some(value), path) == GetString(cur, path[i..])
    {
      if cur.None? || !(cur.value.JObj? || cur.value.JArr?) {
        UndefinedStays(path[i..]);
        return None;
      }
      assert path[i..][1..] == path[i + 1..];
      cur := Prop(cur.value, path[i]);
      i := i + 1;
    }
    r := match cur case Some(JStr(s)) => Some(s) case _ => None;
  }

  lemma UndefinedStays(path: seq<string>)
    ensures GetString(None, path) == None
  {
  }

  predicate Truthy(value: Option<Json>) {
    match value
    case None => false
    case Some(JNull) => false
    case Some(JBool(b)) => b
    case Some(JNum(text)) => text != "0"
    case Some(JStr(s)) => s != ""
    case _ => true
  }

  // String(value ?? '')
  function StringOf(value: Option<Json>): string {
    match value
    case None => ""
    case Some(v) => TextOf(v)
  }

  function TextOf(v: Json): string
    decreases v
  {
    match v
    case JNull => ""
    case JBool(b) => if b then "true" else "false"
    case JNum(text) => text
    case JStr(s) => s
    case JArr(items) => TextOfItems(items)
    case JObj(_) => "[object Object]"
  }

  function TextOfItems(items: seq<Json>): string
    decreases items
  {
    if items == [] then ""
    else TextOf(items[0]) + (if |items| == 1 then "" else "," + TextOfItems(items[1..]))
  }

  function ExtractTextFromAdf(adf: Option<Json>): string
    decreases if adf.Some? then 1 else 0, if adf.Some? then adf.value else JNull
  {
    match adf
    case Some(JStr(s)) => s
    case Some(JObj(fields)) =>
      (match Get(fields, "content")
       case Some(JArr(nodes)) =>
         assert Field("content", JArr(nodes)) in fields;
         TextOfNodes(nodes)
       case _ => "")
    case _ => ""
  }

  function TextOfNodes(nodes: seq<Json>): string
    decreases 1, nodes
  {
    if nodes == [] then "" else ExtractTextFromAdf(Some(nodes[0])) + TextOfNodes(nodes[1..])
  }

  // text.includes(part)
  predicate Includes(text: string, part: string) {
    exists i :: 0 <= i <= |text| && OccursAt(part, text, i)
  }

  predicate BodyContainsOriginMarker(body: Option<Json>) {
    Includes(ExtractTextFromAdf(body), ORIGIN_MARKER)
  }

  // -------------------------------------------------------------- classification

  // The stamp of a payload; an empty string counts as missing.
  function UpdatedStamp(payload: Json, parseDate: string -> Option<int>): Stamp {
    match GetString(Some(payload), ["issue", "fields", "updated"])
    case None => NoStamp
    case Some(s) =>
      if s == "" then NoStamp
      else match parseDate(s)
        case None => InvalidStamp
        case Some(ms) => At(ms)
  }

  // Strictly older than the link's last known timestamp; an invalid date compares false.
  predicate IsStale(stamp: Stamp, linkUpdatedAt: Option<int>) {
    stamp.At? && linkUpdatedAt.Some? && stamp.ms < linkUpdatedAt.value
  }

  // items.some(i => typeof i === 'object' && i.field === name); a null item throws.
  function SomeItemHasField(items: seq<Json>, name: string): Result<bool, string>
    decreases |items|
  {
    if items == [] then Ok(false)
    else
      match items[0]
      case JNull => Err("TypeError")
      case JObj(fields) =>
        if Get(fields, "field") == Some(JStr(name)) then Ok(true) else SomeItemHasField(items[1..], name)
      case _ => SomeItemHasField(items[1..], name)
  }

  function ChangelogItems(payload: Json): seq<Json> {
    match Prop(payload, "changelog")
    case Some(log) =>
      (match Prop(log, "items")
       case Some(JArr(items)) => items
       case _ => [])
    case None => []
  }

  function StatusOf(fields: Json): Option<JiraStatus> {
    var status := Prop(fields, "status");
    if Truthy(status) then
      Some(JiraStatus(
        StringOf(Prop(status.value, "id")),
        StringOf(Prop(status.value, "name")),
        match GetString(status, ["statusCategory", "key"]) case Some(key) => key case None => "undefined"))
    else None
  }

  function AssigneeOf(fields: Json): Option<string> {
    var assignee := Prop(fields, "assignee");
    if Truthy(assignee) then GetString(assignee, ["displayName"]) else None
  }

  function IssueFields(payload: Json): Option<Json> {
    match Prop(payload, "issue")
    case Some(issue) => if issue == JNull then Prop(payload, "fields") else Prop(issue, "fields")
    case None => Prop(payload, "fields")
  }

  predicate IsObject(value: Option<Json>) {
    value.Some? && (value.value.JObj? || value.value.JArr?)
  }

  predicate IsIssueUpdate(eventType: string) {
    eventType == "jira:issue_updated" || eventType == "jira:issue_created"
  }

  predicate IsCommentEvent(eventType: string) {
    eventType == "comment_created" || eventType == "comment_updated"
  }

  function ClassifyIssueUpdate(payload: Json, unclassified: ClassifiedEvent): Result<ClassifiedEvent, string> {
    var fields := IssueFields(payload);
    if !IsObject(fields) then Ok(unclassified.(kind := IssueStatusChanged))
    else
      var items := ChangelogItems(payload);
      match (SomeItemHasField(items, "status"), SomeItemHasField(items, "assignee"))
      case (Ok(hasStatusChange), Ok(hasAssigneeChange)) =>
        Ok(unclassified.(
          kind := if hasStatusChange || !hasAssigneeChange then IssueStatusChanged else IssueAssigneeChanged,
          jiraStatus := StatusOf(fields.value),
          jiraAssignee := SetTo(AssigneeOf(fields.value))))
      case (Err(e), _) => Err(e)
      case (_, Err(e)) => Err(e)
  }

  function ClassifyComment(eventType: string, payload: Json, integrationAccountId: Option<string>,
                           unclassified: ClassifiedEvent): ClassifiedEvent {
    var comment := Prop(payload, "comment");
    var id := if IsObject(comment) then GetString(comment, ["id"]) else None;
    if id.None? || id.value == "" then unclassified
    else
      var author := GetString(comment, ["author", "accountId"]);
      var body := Prop(comment.value, "body");
      var authorIsIntegration :=
        integrationAccountId.Some? && integrationAccountId.value != "" && author == integrationAccountId;
      unclassified.(
        kind := if eventType == "comment_created" then CommentCreated else CommentUpdated,
        comment := Some(JiraComment(id.value, if body.Some? then body.value else JNull, author,
                                    GetString(comment, ["author", "displayName"]), eventType == "comment_updated")),
        isLoopOrigin := authorIsIntegration || BodyContainsOriginMarker(body))
  }

  function Unclassified(stamp: Stamp, linkUpdatedAt: Option<int>): ClassifiedEvent {
    ClassifiedEvent(Unsupported, None, NotGiven, None, stamp, false, IsStale(stamp, linkUpdatedAt))
  }

  // Err stands for a thrown TypeError.
  function ClassifyJiraEvent(eventType: string, payload: Json, integrationAccountId: Option<string>,
                             linkUpdatedAt: Option<int>, parseDate: string -> Option<int>):
      Result<ClassifiedEvent, string> {
    var unclassified := Unclassified(UpdatedStamp(payload, parseDate), linkUpdatedAt);
    if eventType == "jira:issue_deleted" then Ok(unclassified.(kind := IssueDeleted))
    else if IsCommentEvent(eventType) then Ok(ClassifyComment(eventType, payload, integrationAccountId, unclassified))
    else if IsIssueUpdate(eventType) then ClassifyIssueUpdate(payload, unclassified)
    else Ok(unclassified)
  }

  // ------------------------------------------------------------------ properties

  // What classification says about time, whatever the event is.
  lemma ClassifiedTime(eventType: string, payload: Json, account: Option<string>, linkUpdatedAt: Option<int>,
                       parseDate: string -> Option<int>)
    ensures var r := ClassifyJiraEvent(eventType, payload, account, linkUpdatedAt, parseDate);
      r.Ok? ==>
        r.value.jiraUpdatedAt == UpdatedStamp(payload, parseDate) &&
        r.value.isStale == IsStale(UpdatedStamp(payload, parseDate), linkUpdatedAt)
  {
  }

  // A rich-text document: its nodes are objects at every level, never bare strings.
  predicate IsAdf(adf: Json)
    decreases adf
  {
    match adf
    case JObj(fields) =>
      (match Get(fields, "content")
       case Some(JArr(nodes)) =>
         assert Field("content", JArr(nodes)) in fields;
         forall i :: 0 <= i < |nodes| ==> IsAdf(nodes[i])
       case _ => true)
    case _ => false
  }

  lemma {:induction false} AdfHasNoText(adf: Json)
    requires IsAdf(adf)
    ensures ExtractTextFromAdf(Some(adf)) == ""
    decreases adf
  {
    match Get(adf.fields, "content")
    case Some(JArr(nodes)) =>
      assert Field("content", JArr(nodes)) in adf.fields;
      NodesHaveNoText(nodes);
    case _ =>
  }

  lemma {:induction false} NodesHaveNoText(nodes: seq<Json>)
    requires forall i :: 0 <= i < |nodes| ==> IsAdf(nodes[i])
    ensures TextOfNodes(nodes) == ""
    decreases nodes
  {
    if nodes != [] {
      AdfHasNoText(nodes[0]);
      NodesHaveNoText(nodes[1..]);
    }
  }

  // A comment event that names its comment.
  predicate NamesComment(eventType: string, payload: Json) {
    IsCommentEvent(eventType) && IsObject(Prop(payload, "comment")) &&
    var id := GetString(Prop(payload, "comment"), ["id"]);
    id.Some? && id.value != ""
  }

  predicate IsByAccount(payload: Json, account: Option<string>) {
    account.Some? && account.value != "" && GetString(Prop(payload, "comment"), ["author", "accountId"]) == account
  }

  function CommentBody(payload: Json): Option<Json> {
    match Prop(payload, "comment")
    case Some(comment) => Prop(comment, "body")
    case None => None
  }

  // A comment counts as OpsNinja's own exactly when its author is the integration
  // account or the marker occurs in the text extracted from its body.
  lemma OwnCommentFound(eventType: string, payload: Json, account: Option<string>, linkUpdatedAt: Option<int>,
                        parseDate: string -> Option<int>)
    requires NamesComment(eventType, payload)
    ensures var r := ClassifyJiraEvent(eventType, payload, account, linkUpdatedAt, parseDate);
      r.Ok? &&
      (r.value.isLoopOrigin <==> IsByAccount(payload, account) || BodyContainsOriginMarker(CommentBody(payload)))
  {
  }

  // For a plain-string body that is the marker in the body.
  lemma OwnPlainCommentFound(eventType: string, payload: Json, account: Option<string>, linkUpdatedAt: Option<int>,
                             parseDate: string -> Option<int>, body: string)
    requires NamesComment(eventType, payload) && CommentBody(payload) == Some(JStr(body))
    ensures var r := ClassifyJiraEvent(eventType, payload, account, linkUpdatedAt, parseDate);
      r.Ok? && (r.value.isLoopOrigin <==> IsByAccount(payload, account) || Includes(body, ORIGIN_MARKER))
  {
    OwnCommentFound(eventType, payload, account, linkUpdatedAt, parseDate);
  }

  // For a rich-text body the marker in the text is never seen: only the author counts.
  lemma OwnAdfCommentFoundByAuthorOnly(eventType: string, payload: Json, account: Option<string>,
                                       linkUpdatedAt: Option<int>, parseDate: string -> Option<int>, body: Json)
    requires NamesComment(eventType, payload) && CommentBody(payload) == Some(body) && IsAdf(body)
    ensures var r := ClassifyJiraEvent(eventType, payload, account, linkUpdatedAt, parseDate);
      r.Ok? && (r.value.isLoopOrigin <==> IsByAccount(payload, account))
  {
    OwnCommentFound(eventType, payload, account, linkUpdatedAt, parseDate);
    AdfHasNoText(body);
    assert |ORIGIN_MARKER| > 0;
  }

  // { type: "text", text }
  function TextNode(text: string): Json {
    JObj([Field("type", JStr("text")), Field("text", JStr(text))])
  }

  // { id: "1", body: { type: "doc", content: [text] } }, without an author.
  function DocComment(text: string): Json {
    JObj([Field("id", JStr("1")),
          Field("body", JObj([Field("type", JStr("doc")), Field("content", JArr([TextNode(text)]))]))])
  }

  // A concrete rich-text comment that carries the marker and is not recognised.
  lemma MarkerInTextIsMissed(account: Option<string>, linkUpdatedAt: Option<int>, parseDate: string -> Option<int>)
    ensures var payload := JObj([Field("comment", DocComment(ORIGIN_MARKER))]);
      var r := ClassifyJiraEvent("comment_created", payload, account, linkUpdatedAt, parseDate);
      r.Ok? && r.value.kind.CommentCreated? && !r.value.isLoopOrigin
  {
    var payload := JObj([Field("comment", DocComment(ORIGIN_MARKER))]);
    DocCommentProps(ORIGIN_MARKER);
    var comment := Prop(payload, "comment");
    assert comment == Some(DocComment(ORIGIN_MARKER));
    assert ["id"][1..] == [];
    assert GetString(comment, ["id"]) == Some("1");
    assert ["author", "accountId"][0] == "author" && GetString(comment, ["author", "accountId"]) == None;
    OwnAdfCommentFoundByAuthorOnly("comment_created", payload, account, linkUpdatedAt, parseDate,
                                   CommentBody(payload).value);
  }

  lemma DocCommentProps(text: string)
    ensures var comment := DocComment(text);
      Prop(comment, "id") == Some(JStr("1")) && Prop(comment, "author") == None &&
      Prop(comment, "body").Some? && IsAdf(Prop(comment, "body").value)
  {
    var fields := DocComment(text).fields;
    assert fields[1..][1..] == [];
    var body := fields[1].value;
    assert Get(fields, "body") == Get(fields[1..], "body") == Some(body);
    TextNodeIsAdf(text);
    assert Get(body.fields, "content") == Get(body.fields[1..], "content") == Some(JArr([TextNode(text)]));
  }

  lemma TextNodeIsAdf(text: string)
    ensures IsAdf(TextNode(text))
  {
    var fields := TextNode(text).fields;
    assert fields[1..][1..] == [];
    assert Get(fields, "content") == Get(fields[1..], "content") == Get(fields[1..][1..], "content");
  }
}
