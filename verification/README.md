# OpsNinja core protocols, modelled and proved

A Dafny model of four parts of the OpsNinja repository, with proofs of what they are for.

* **Filter compiler.** A ticket filter is an AND/OR tree of conditions. `FilterAst`, `FieldRegistry` and
  `FilterValidate` model the tree, the allow-listed fields and the validation walk; `FilterCompile` models the
  compiler that prints SQL text with `$n` placeholders while it fills one shared parameter array. `SqlSyntax` is a
  lexer and a precedence parser for the printed predicates, `SqlSemantics` their three-valued evaluation on a ticket
  row and its related tables, and `FilterMeaning` an independent meaning of filters that mentions no SQL.
  `StandardFields` says, without the registry, where the values of each field are found, which conditions are accepted
  and what is bound. `CompileTokens`, `CompileText`, `CompileParse`, `CompileMeaning` and `FilterTheorems` connect them:
  the printed text lexes, parses back and evaluates to the meaning. `LikePattern` treats LIKE escaping, `FilterEdit` and
  `FilterRemoval` the chip list of the queue page, `JsonText`, `JsonReader` (a reader by the grammar of RFC 8259) and
  `CanonicalJson` the canonical JSON behind filter signatures and webhook payloads.
* **Jira inbound sync.** `JiraEvents` classifies webhook payloads; `InboundSync` models the database tables, the
  deduplicating receiver and the worker's transaction; `InboundRuns` and `InboundConvergence` prove what every run of
  receipts, deliveries, duplicates and failures keeps; `InboundChanges` what a delivered event does to its ticket, with
  the ticket lifecycle the API declares in `TransitionTable` as the reference; `Reconciliation` models drift detection
  and the synthetic events that heal it.
* **Token bucket.** `TokenBucket` models the Redis script that limits outbound Jira calls, over exact reals, with
  keys that may be dropped at any moment from their expiry on; `RateLimitExact` proves it exactly as generous as its
  bound.
* **Realtime gateway.** `SocketQueue` is the bounded outbound queue of a socket, `Backfill` the reconnect handshake
  and live relay, `Registry` the connection registry and the per-principal cap. `DeliveryOrder` proves in which order
  a socket receives its frames, in two models: one in which frames may be published between any two sends of a replay,
  and one in which handler calls alternate as wholes, as they do on one thread; `LiveDelivery` proves what it receives.

`Basics`, `Text` and `Json` hold small shared types. Objects whose methods update fields are classes with those
fields; each of their methods is proved against a function of the old state, and the properties are lemmas about these
functions. A database transaction is one atomic step on the tables; a run is a sequence of steps.

## Where the code and its comments disagree

The model follows the code.

* `eq` on `tag_id` and `affected_area` is allowed by the registry but printed as a bare column outside EXISTS
  (packages/filter-compiler/src/compile.ts:168-173), so the query names a table that is not in scope.
  `AcceptedFiltersRun` says exactly when this happens and `TagEqualityIsUnresolved` gives a filter.
* The registry names the columns category_path, sla_state and has_jira_link of tickets and area_id of
  ticket_affected_areas (packages/filter-compiler/src/field-registry.ts:126-228), which the tables of packages/db do not
  have; the model takes them to exist.
* `sortKeys` assigns `sorted["__proto__"]`, which creates no property, so an own `__proto__` key is lost and two
  different values can share a signature (`ProtoKeyIsLost`). `SortKeysDecidesEquivalence` is exact with these keys
  erased, `SortKeysIsComplete` without them.
* `extractTextFromAdf` ignores `text` fields, so the origin marker is never found in a rich-text comment
  (`OwnAdfCommentFoundByAuthorOnly`, and `MarkerInTextIsMissed` for a concrete comment). It is found exactly where it
  occurs in a plain-string body (`OwnPlainCommentFound`).
* `flush` does not move the socket's delivered mark. In the model where frames may be published during a replay a
  flushed frame that is published again is sent again (`FlushedFrameIsRepeated` is such a run from a new socket), and
  `SessionsAscend` says for arbitrary publishers exactly when the numbers ascend. Only that model reaches it: the
  handler does not pause between its ring read and the flush
  (apps/realtime-gateway/src/gateway/backfill.service.ts:168-194), so on one thread its queue is always empty
  (`QueueStaysEmpty`) and sessions are always in order (`WholeCallsAscend`).
* A subscribe answered as caught up does not move the delivered mark
  (apps/realtime-gateway/src/gateway/backfill.service.ts:121-127), so the socket can be sent a number at or below the
  client's own. `SentAboveExactly` says exactly when it is not, `CaughtUpSocketGetsOlderFrame` gives a case.
* A synthetic event does not always heal. With a time that is unreadable, or older than the link's, or missing on a link
  without one, the drift stays (`HealsExactly`, and `OlderResultIsNotHealed` for a concrete issue). And because the event
  id depends only on the issue and its time, an event that already has its verdict is neither inserted nor claimed
  again: while the issue keeps its time, reconciliation does not heal the drift any more, and only an event of the issue
  itself can (`HealsExactly`, and `SettledEventIsNotHealed` for a concrete issue).
* The order of an issue's events is judged by one time for all kinds of events, so a comment that is later than an update
  and is delivered first makes that update stale: its status and assignee are never applied (`LaterEventOutdates`).
* The worker's transition table is meant to mirror the API's. The allowed moves, the resumes and the resolutions are the
  same (`AllowsTheSame`, `SameSideEffects`), but between the two pending statuses only the worker pauses the clock again
  (apps/jira-sync-worker/src/inbound/inbound.handler.ts:68,
  apps/api/src/modules/tickets/lifecycle/transition-table.ts:111-133).
* The audit insert names `jiraEventId`, which is not in scope there
  (apps/jira-sync-worker/src/inbound/inbound.handler.ts:525), and the queue consumer passes it under another name
  (apps/jira-sync-worker/src/sqs-consumer.service.ts:150-154): the intended identifier is modelled.
* The comment insert resolves conflicts on a constraint that exists only as a unique index
  (packages/db/migrations/0032_jira_inbound_sync.sql:15-17), so as written it throws: the intended deduplication is
  modelled. An edited comment
  without a mirror changes nothing, although a comment in the code announces an insert.
* A webhook without an id and a timestamp gets an event id from the clock, so its redelivery is not deduplicated
  (`RedeliveryKeepsId` says exactly when it is).
* A bucket with a capacity below one token allows nothing and, at capacity zero, tells no number of milliseconds
  (`SmallBucketAllowsNothing`).
* A `lastSeq` beyond the newest frame is answered as caught up, as a comment in the code says.

## Model

| member | source | states |
|---|---|---|
| LikePattern.ReplacesAreOnePass | packages/filter-compiler/src/compile.ts:45-48 | The three successive replaces give the same text as one pass that puts a backslash before each backslash, percent sign and underscore. |
| LikePattern.ContainsPatternFindsText | packages/filter-compiler/src/compile.ts:156-166 | For every text and value, LIKE with the bound pattern matches exactly when the value occurs in the text. |
| LikePattern.ContainsPatternFindsFoldedText | packages/filter-compiler/src/compile.ts:156-166 | ILIKE with the bound pattern matches exactly when the folded value occurs in the folded text, for every fold that leaves the three pattern characters alone. |
| FilterAst.CountIsConditions | packages/filter-compiler/src/ast.ts:84-87 | The node count is the number of conditions in the tree, groups not counted. |
| FilterAst.MaxDepthShifts | packages/filter-compiler/src/ast.ts:89-93 | Depth counted from any starting level is the depth counted from zero plus that level. |
| FilterAst.DepthIsLongestPath | packages/filter-compiler/src/ast.ts:89-93 | The depth is the length of the longest path to a node: it is at most d exactly when no path is longer. |
| FieldRegistry.Issues | packages/filter-compiler/src/field-registry.ts:39-56 | A schema reports no issue exactly when it accepts the value. |
| FilterValidate.ErrorLog.Push | packages/filter-compiler/src/validate.ts:39-50 | Appends one error to the shared list and keeps the earlier ones. |
| FilterValidate.ConditionErrors | packages/filter-compiler/src/validate.ts:44-131 | The errors of a condition are empty exactly when its field is known, its operator allowed and its value accepted for that operator. |
| FilterValidate.PushIssues | packages/filter-compiler/src/validate.ts:83-89 | The loop pushes one error per schema issue, in order, at the element's path. |
| FilterValidate.ValidateCondition | packages/filter-compiler/src/validate.ts:44-131 | Pushes exactly the errors of the condition, with the early returns of the code. |
| FilterValidate.ValidateNode | packages/filter-compiler/src/validate.ts:39-137 | Pushes exactly the errors of the subtree, in left-to-right order with their paths. |
| FilterValidate.NoErrorsIffWellFormed | packages/filter-compiler/src/validate.ts:39-137 | The walk finds no error exactly when every condition of the tree, at every depth, is well formed. |
| FilterValidate.ErrorsAreReports | packages/filter-compiler/src/validate.ts:39-137 | Every error of the walk names, by its path, a condition of the tree, and its code says what is wrong with it. |
| FilterValidate.FaultsAreReported | packages/filter-compiler/src/validate.ts:39-137 | Every ill-formed condition, at every path, has an error at its path with a code that says what is wrong. |
| FilterValidate.ValidateFilterAst | packages/filter-compiler/src/validate.ts:168-196 | Accepts exactly the filters within depth 4 and 50 conditions whose conditions are all well formed, returns them unchanged, and otherwise reports an exceeded depth or size exactly when it is exceeded and else only errors that name a condition and its fault. |
| FilterCompile.ParamList.Add | packages/filter-compiler/src/compile.ts:54-57 | Binds one parameter and returns the placeholder with the new length of the list. |
| FilterCompile.ResolveValues | packages/filter-compiler/src/compile.ts:198-200 | Succeeds with every value resolved in order, and fails exactly when some value cannot be resolved. |
| FilterCompile.AddAll | packages/filter-compiler/src/compile.ts:128-134 | Binds all values in order and returns their consecutive placeholders joined by commas. |
| FilterCompile.EmitCondition | packages/filter-compiler/src/compile.ts:81-185 | The imperative condition compiler returns the text and pushes the parameters of the specification, or throws the same error and only leaves extra parameters. |
| FilterCompile.EmitChildren | packages/filter-compiler/src/compile.ts:217-219 | Children compile left to right on the shared list and the first throw wins. |
| FilterCompile.EmitNode | packages/filter-compiler/src/compile.ts:206-238 | The recursive compiler with its shared list computes the specification function at every depth and every starting list. |
| FilterCompile.CompileToPredicate | packages/filter-compiler/src/compile.ts:252-261 | The whole compilation, started on an empty list, gives the specified text and parameters or the specified error. |
| CompileMeaning.CompilesIff | packages/filter-compiler/src/compile.ts:81-238 | A filter compiles without a throw exactly when each of its conditions does, whatever its depth and the number of parameters already bound. |
| CompileMeaning.ValidCompiles | packages/filter-compiler/src/validate.ts:168-196 | Every accepted filter compiles without reaching any of the compiler's throws. |
| CompileText.CompiledTextLexes | packages/filter-compiler/src/compile.ts:81-238 | The printed text of every compiled filter splits into exactly the intended tokens. |
| CompileParse.CompiledTextParses | packages/filter-compiler/src/compile.ts:81-238 | The printed text parses, with AND above OR and BETWEEN next to AND joins, to the one expression the filter stands for. |
| CompileMeaning.NodeResolves | packages/filter-compiler/src/compile.ts:103-185 | Every name and placeholder of the printed expression is in scope exactly when no related table's column is printed outside EXISTS. |
| CompileMeaning.CompilePreservesMeaning | packages/filter-compiler/src/compile.ts:252-261 | Parsing and running the printed text with its parameters on any ticket and any related rows gives the three-valued meaning of the filter, or an unresolved name exactly for bare related columns. |
| FilterTheorems.StandardCatalogIsSound | packages/filter-compiler/src/field-registry.ts:101-228 | Every registry entry's column text names the intended column in plain characters and its schemas fit its operators. |
| StandardFields.StandardFieldsAreKept | packages/filter-compiler/src/field-registry.ts:101-228 | The registry keeps to an independent table of the fields: in which column of the ticket or of which related table their values are, by which column that table names the ticket, and which are instants. |
| StandardFields.AcceptsExactly | packages/filter-compiler/src/field-registry.ts:101-228 | A condition is well formed exactly when an independent table offers its operator for the field and the operator takes the value. |
| StandardFields.ValidExactly | packages/filter-compiler/src/validate.ts:168-196 | A filter is accepted exactly when no node is deeper than 4, it has at most 50 conditions, and each of them is accepted by that table. |
| StandardFields.ValuesAreBoundInOrder | packages/filter-compiler/src/compile.ts:126-200 | The parameters of a compiled filter are the values of its conditions from left to right, on a time field the instant each stands for. |
| StandardFields.TimesAreBoundAsInstants | packages/filter-compiler/src/compile.ts:63-75 | Each value of an accepted condition on created_at, updated_at or resolved_at is bound as the instant its relative token or date text stands for. |
| FilterTheorems.AcceptedFiltersRun | packages/filter-compiler/src/compile.ts:252-261 | Every filter the validator accepts compiles, and the query answers the filter's meaning, read from the independent table of the fields, on every ticket, except exactly when it holds an equality on a tag or an affected area. |
| FilterTheorems.TagEqualityIsUnresolved | packages/filter-compiler/src/compile.ts:168-173 | A concrete accepted filter on a tag whose compiled query cannot be resolved. |
| FilterTheorems.PlaceholdersOnceInOrder | packages/filter-compiler/src/compile.ts:54-57 | In the printed text $1 to $n occur once each and in order, n being the number of parameters. |
| FilterTheorems.ValuesNeverShapeSql | packages/filter-compiler/src/compile.ts:126-170 | Two accepted filters with the same tree, fields, operators and array lengths compile to the identical text with equally many parameters. |
| FilterTheorems.ShapeDecidesText | packages/filter-compiler/src/compile.ts:81-238 | The same for any two filters that compile, at any number of parameters already bound. |
| FilterEdit.ChipsAreConditions | apps/web-agent/features/queue/FilterChipBar.tsx:19-29 | The chips are the filter's conditions in left-to-right order. |
| FilterEdit.RemovesOneCondition | apps/web-agent/features/queue/FilterChipBar.tsx:31-50 | Removing the path of the k-th chip leaves the condition list without its k-th entry, in order. |
| FilterEdit.RemovingNeverDeepens | apps/web-agent/features/queue/FilterChipBar.tsx:31-50 | Removing at any path never increases the depth. |
| FilterEdit.RemovingChipIsFaithful | apps/web-agent/features/queue/FilterChipBar.tsx:19-50 | Removing a chip takes away exactly its condition, never deepens the filter and keeps an accepted filter accepted. |
| FilterRemoval.RemovedChipMeans | apps/web-agent/features/queue/FilterChipBar.tsx:19-50 | On every ticket, removing a chip leaves what the filter means when that condition has the neutral value of its group, and a group it leaves empty the neutral value of its parent; when nothing is left, every ticket passes. |
| FilterRemoval.RemovedMeans | apps/web-agent/features/queue/FilterChipBar.tsx:31-50 | The same for the node at any path. |
| FilterEdit.AddedConditions | apps/web-agent/features/queue/AddFilterDrawer.tsx:177-185 | Adding a condition appends it to the condition list. |
| FilterEdit.AddedMeaning | apps/web-agent/features/queue/AddFilterDrawer.tsx:177-185 | On every ticket the new filter means the old one AND the new condition. |
| FilterEdit.AddedValidity | apps/web-agent/features/queue/AddFilterDrawer.tsx:177-185 | The new filter is accepted exactly when there is room for one more condition and the merge does not nest a filter that is already deepest. |
| FilterEdit.AddThenRemove | apps/web-agent/features/queue/AddFilterDrawer.tsx:177-185 | Removing the chip just added gives a filter that means the old one. |
| JsonText.WriteUnique | packages/filter-compiler/src/signature.ts:38-40 | Serialised values followed by any text can be told apart: equal texts have equal values and equal rests. |
| JsonText.StringifyInjective | packages/filter-compiler/src/signature.ts:38-40 | Two values with the same JSON text are the same value. |
| JsonReader.ReadsBack | packages/filter-compiler/src/signature.ts:38-40 | A reader by the grammar of RFC 8259 reads a printed value back and leaves what follows it. |
| JsonReader.StringifyReadsBack | packages/webhooks/src/canonical-payload.ts:54 | Reading the JSON text of a value gives the value. |
| CanonicalJson.SortKeysOf | packages/filter-compiler/src/signature.ts:24-36 | The recursion with its loops over items and sorted keys computes the specification function. |
| CanonicalJson.SortKeysCanonical | packages/filter-compiler/src/signature.ts:24-36 | Sorting gives a value whose keys ascend in property order at every depth and that equals the original up to key order and erased __proto__ keys. |
| CanonicalJson.CanonicalIsUnique | packages/filter-compiler/src/signature.ts:24-36 | Two canonical values that are equal up to key order are equal. |
| CanonicalJson.SortKeysDecidesEquivalence | packages/filter-compiler/src/signature.ts:24-36 | Two values have the same sorted form exactly when they are equal up to object key order at every depth, __proto__ keys aside. |
| CanonicalJson.SortKeysIsComplete | packages/filter-compiler/src/signature.ts:24-36 | Without __proto__ keys the sorted form is a complete invariant of equality up to key order. |
| CanonicalJson.SortKeysKeepsValue | packages/filter-compiler/src/signature.ts:24-36 | The sorted form equals the value up to key order exactly when the value has no __proto__ key at any depth. |
| CanonicalJson.ProtoKeyIsLost | packages/filter-compiler/src/signature.ts:29-33 | Two different values, one with an own __proto__ key, that sort to the same value. |
| CanonicalJson.SortKeysIdempotent | packages/filter-compiler/src/signature.ts:24-36 | Sorting a sorted value changes nothing. |
| CanonicalJson.CanonicalTextDecidesEquivalence | packages/filter-compiler/src/signature.ts:38-54 | The canonical text, and so any signature of it, depends exactly on the value up to key order. |
| CanonicalJson.CanonicalStringifyDecidesEquivalence | packages/webhooks/src/canonical-payload.ts:31-55 | Two events are sent as the same text exactly when their envelopes are equal and their data is equal up to key order. |
| CanonicalJson.EventReadsBack | packages/webhooks/src/canonical-payload.ts:46-55 | A receiver reads the sent text as an object with exactly the members id, type, occurredAt, tenantId and data, the first four as given and the data up to key order and __proto__ keys. |
| CanonicalJson.CanonicalTextReadsBack | packages/filter-compiler/src/signature.ts:38-40 | The canonical text reads back as a canonical value equal to the original up to key order and __proto__ keys. |
| TokenBucket.JiraRateLimiter.TryConsume | apps/jira-sync-worker/src/outbound/rate-limiter.ts:39-69 | For every capacity, fractional, zero and negative ones included, and every window of whole milliseconds, the script answers and leaves the bucket as specified, writes nothing on a denial and touches no other tenant. |
| TokenBucket.SmallBucketAllowsNothing | apps/jira-sync-worker/src/outbound/rate-limiter.ts:53-61 | A call is only ever allowed for a capacity of at least one, whatever the bucket holds, and a capacity of zero gives a denial without a number of milliseconds. |
| TokenBucket.RefillFacts | apps/jira-sync-worker/src/outbound/rate-limiter.ts:54-66 | The refill over one window is the capacity, and the time to live is two windows. |
| TokenBucket.FullOnceExpirable | apps/jira-sync-worker/src/outbound/rate-limiter.ts:53-66 | A bucket whose key may be dropped is full again. |
| TokenBucket.WindowBound | apps/jira-sync-worker/src/outbound/rate-limiter.ts:39-69 | In any interval of any run, from any starting bucket and with keys dropped at any permitted moments, at most capacity plus length times capacity over window calls are allowed. |
| TokenBucket.ExpiryInvisible | apps/jira-sync-worker/src/outbound/rate-limiter.ts:48-66 | Every answer of a run, retry hints included, is the one given when no key is ever dropped. |
| TokenBucket.SchedulesAgree | apps/jira-sync-worker/src/outbound/rate-limiter.ts:48-66 | Two runs with the same calls and different dropped keys give the same answers. |
| TokenBucket.WaitIsExact | apps/jira-sync-worker/src/outbound/rate-limiter.ts:57-61 | After a denial the bucket reaches one token exactly when the hinted wait is over. |
| TokenBucket.RetryHintExact | apps/jira-sync-worker/src/outbound/rate-limiter.ts:57-61 | After a denial and any later steps without a success, a call is allowed exactly from the hinted moment on. |
| TokenBucket.NoEarlySuccess | apps/jira-sync-worker/src/outbound/rate-limiter.ts:57-61 | No call before the hinted moment is allowed, whatever happens in between. |
| TokenBucket.ReachedIsSound | apps/jira-sync-worker/src/outbound/rate-limiter.ts:63-66 | Every bucket a run reaches has no negative tokens and never expires before it is full. |
| RateLimitExact.AllowedExactly | apps/jira-sync-worker/src/outbound/rate-limiter.ts:39-69 | After any run on a new key, with keys dropped at any permitted moments, a call is allowed exactly when every interval that ends with it still keeps the bound. |
| JiraEvents.GetStringAt | apps/jira-sync-worker/src/inbound/event-classifier.ts:83-90 | The loop over the path reads what the recursive path lookup reads. |
| JiraEvents.ClassifiedTime | apps/jira-sync-worker/src/inbound/event-classifier.ts:131-153 | Whatever the event type, the classified time is the payload's, and the event is stale exactly when it is valid and strictly older than the link's time. |
| JiraEvents.AdfHasNoText | apps/jira-sync-worker/src/inbound/event-classifier.ts:92-99 | The text extracted from any rich-text document is empty. |
| JiraEvents.OwnCommentFound | apps/jira-sync-worker/src/inbound/event-classifier.ts:159-193 | Every comment with an id counts as OpsNinja's own exactly when its author is the integration account or the marker occurs in the extracted text. |
| JiraEvents.OwnPlainCommentFound | apps/jira-sync-worker/src/inbound/event-classifier.ts:92-110 | With a plain-string body that is exactly when its author is the integration account or the marker occurs in the body. |
| JiraEvents.OwnAdfCommentFoundByAuthorOnly | apps/jira-sync-worker/src/inbound/event-classifier.ts:159-193 | A comment with a rich-text body counts as OpsNinja's own exactly when its author is the integration account. |
| JiraEvents.MarkerInTextIsMissed | apps/jira-sync-worker/src/inbound/event-classifier.ts:92-99 | A concrete comment whose rich text contains the marker is classified as foreign, for every integration account. |
| InboundSync.FindLink | apps/jira-sync-worker/src/inbound/inbound.handler.ts:331-354 | Finds the first live link of the issue, and nothing exactly when there is none. |
| InboundSync.InboundHandler.Receive | apps/jira-webhook-receiver/src/ingest.service.ts:135-208 | The event id is the payload's id, else its type with its timestamp or the clock; a new id gets one envelope and, for a known type, one outbox row; a duplicate changes nothing and is reported. |
| InboundSync.RedeliveryKeepsId | apps/jira-webhook-receiver/src/ingest.service.ts:140-143 | A payload received at two clock readings gets the same event id exactly when it carries an id or a timestamp, or the readings are equal. |
| InboundSync.ReceivedIsStored | apps/jira-webhook-receiver/src/ingest.service.ts:135-200 | A payload with an id, a type and an issue is stored whole under the tenant and its id, pending and queued once if the worker handles its type, and else ignored; a known id changes nothing. |
| InboundSync.InboundHandler.ClaimEnvelope | apps/jira-sync-worker/src/inbound/inbound.handler.ts:304-325 | Claims exactly pending and failed envelopes, counting the attempt. |
| InboundSync.InboundHandler.MarkEnvelope | apps/jira-sync-worker/src/inbound/inbound.handler.ts:663-683 | Changes only the state of this envelope. |
| InboundSync.InboundHandler.ApplyStatusChange | apps/jira-sync-worker/src/inbound/inbound.handler.ts:394-535 | Returns the skip reason of the code or moves the ticket with its version, history row, audit row and outbox rows in order. |
| InboundSync.InboundHandler.ApplyComment | apps/jira-sync-worker/src/inbound/inbound.handler.ts:541-615 | Edits the mirrored comment in place, or inserts a mirror with one outbox row unless one exists or the ticket has no organization; the insert is the intended one. |
| InboundSync.InboundHandler.ApplyIssueDeleted | apps/jira-sync-worker/src/inbound/inbound.handler.ts:621-657 | Orphans the link and adds one internal note when the ticket has an organization. |
| InboundSync.InboundHandler.Apply | apps/jira-sync-worker/src/inbound/inbound.handler.ts:192-255 | Applies one classified event, then the link row, then the envelope's verdict, and reports processed or skipped with the reason; throws exactly for an unreadable time. |
| InboundSync.InboundHandler.Transaction | apps/jira-sync-worker/src/inbound/inbound.handler.ts:145-255 | The checks of the worker in order, each with its skip reason, and the applied event; the reported outcome is the verdict stored in the envelope with its reason, or the throw. |
| InboundSync.InboundHandler.MarkFailed | apps/jira-sync-worker/src/inbound/inbound.handler.ts:279-288 | Marks the envelope failed and counts the attempt. |
| InboundSync.InboundHandler.Handle | apps/jira-sync-worker/src/inbound/inbound.handler.ts:126-298 | One delivery either does nothing, commits the whole transaction and reports its verdict, or rolls it back, marks the envelope failed and rethrows. |
| InboundSync.ChangeKeeps | apps/jira-sync-worker/src/inbound/inbound.handler.ts:192-221 | Applying any change keeps envelopes, mappings, connections and all link rows but for the orphan mark of a deletion. |
| TransitionTable.AllowsTheSame | apps/api/src/modules/tickets/lifecycle/transition-table.ts:70-160 | The worker allows exactly the transitions of the API. |
| TransitionTable.SameSideEffects | apps/api/src/modules/tickets/lifecycle/transition-table.ts:70-160 | On every allowed transition worker and API agree on resuming and resolving, and on pausing but for a move between the two pending statuses, where only the worker pauses. |
| InboundChanges.UpdateDecides | apps/jira-sync-worker/src/inbound/inbound.handler.ts:145-535 | Delivering an applicable update to a live link: one that concerns the status moves the ticket exactly to the status asked for (resolved under auto-resolve for a done category, else that of the first matching entry), when it exists, differs and may be reached, with all its rows; otherwise nothing moves and the skip reason is the stated one. |
| InboundChanges.DecidedOnce | apps/jira-sync-worker/src/inbound/inbound.handler.ts:402-449 | At most one decision applies to a Jira status. |
| InboundChanges.CommentMirrors | apps/jira-sync-worker/src/inbound/inbound.handler.ts:218-225 | Delivering an applicable comment mirrors it once with its text, attribution, marker and visibility and one outbox row, or rewrites its mirrors when it is an edit, and touches nothing else. |
| InboundChanges.MirrorIsOwn | apps/jira-sync-worker/src/inbound/inbound.handler.ts:549-551 | A mirrored text that comes back as a plain comment is recognised as OpsNinja's own. |
| InboundChanges.DeletionNotes | apps/jira-sync-worker/src/inbound/inbound.handler.ts:621-657 | Delivering a deletion orphans the link and leaves one internal note that names the issue, when the ticket has an organization. |
| InboundChanges.SkippedWithReason | apps/jira-sync-worker/src/inbound/inbound.handler.ts:145-195 | An unlinked, orphaned, revoked, own or stale event is marked with the first of these reasons and changes nothing else. |
| InboundRuns.TransactEffect | apps/jira-sync-worker/src/inbound/inbound.handler.ts:126-255 | A committed transaction settles its envelope and has one effect on the books: none, one mirrored comment, or one allowed transition. |
| InboundRuns.DeliverEffect | apps/jira-sync-worker/src/inbound/inbound.handler.ts:126-298 | A delivery that does not commit changes nothing but the state and attempt count of its own envelope. |
| InboundRuns.SettledForever | apps/jira-sync-worker/src/inbound/inbound.handler.ts:304-325 | A processed, skipped or ignored envelope is never reclaimed: its row stays the same over any run. |
| InboundRuns.AtMostOneCommit | apps/jira-sync-worker/src/inbound/inbound.handler.ts:126-325 | Over any run of duplicates, redeliveries and failures the effects of an event commit at most once. |
| InboundRuns.OnceOnlyForever | apps/jira-webhook-receiver/src/ingest.service.ts:153-201 | Over any run each event has at most one outbox row, none before its envelope, and at most one audited change, none before its verdict. |
| InboundRuns.NeverProcessing | apps/jira-sync-worker/src/inbound/inbound.handler.ts:304-325 | No committed state shows an envelope in processing. |
| InboundRuns.StoryForever | apps/jira-sync-worker/src/inbound/inbound.handler.ts:439-514 | Over every run a ticket's history is a connected chain of allowed transitions from its first status to its present one, its version grew by the length of the history, and the ticket.updated rows are the history. |
| InboundRuns.ClockForever | apps/jira-sync-worker/src/inbound/inbound.handler.ts:56-74 | Over every run replaying the SLA events leaves the clock paused when the ticket is pending and running when it is new or open. |
| InboundRuns.FreshTicketStarts | apps/jira-sync-worker/src/inbound/inbound.handler.ts:56-74 | A new ticket that no row mentions satisfies both invariants. |
| InboundSync.Translate | apps/jira-sync-worker/src/inbound/inbound.handler.ts:406-410 | A Jira status translates to the status of the first matching entry, and to nothing exactly when no entry matches. |
| InboundRuns.OrphanedForever | apps/jira-sync-worker/src/inbound/inbound.handler.ts:153-159 | After the deletion of its issue no run changes a link any more. |
| InboundRuns.OneMirrorForever | apps/jira-sync-worker/src/inbound/inbound.handler.ts:549-602 | With the intended comment insert, over any run a Jira comment has at most one mirrored comment in a tenant. |
| InboundRuns.NeverBackwards | apps/jira-sync-worker/src/inbound/inbound.handler.ts:172-245 | In any run no link's jira_updated_at ever moves back. |
| InboundConvergence.StepTouchesOne | apps/jira-sync-worker/src/inbound/inbound.handler.ts:223-245 | A step keeps every link's identity and changes only the link its claimed event resolves to. |
| InboundConvergence.UpdateApplies | apps/jira-sync-worker/src/inbound/inbound.handler.ts:172-245 | On a live link an issue update either is older and leaves what the link shows, or makes it show the update's status, assignee and time. |
| InboundConvergence.HarmlessExactly | apps/jira-sync-worker/src/inbound/inbound.handler.ts:172-245 | On a live link that shows what an update said, a committed event leaves it live and showing that exactly when the event is OpsNinja's own, or earlier, or at the same time or without a time and with nothing else to say of status and assignee, or has an unreadable time; a deletion only when it is earlier. |
| InboundConvergence.Converges | apps/jira-sync-worker/src/inbound/inbound.handler.ts:172-253 | For any order, duplication, failure and interleaving with other events, a live link ends with the status, assignee and time of the issue's newest update, one without a verdict at the start, once it was delivered without a fault, exactly when the link does not start at a later time; the other events of the issue that commit in the run need only be harmless. |
| InboundConvergence.StoredHarmless | apps/jira-sync-worker/src/inbound/inbound.handler.ts:172-253 | When every other stored event of the issue is harmless, so is every other event that commits, in any run. |
| InboundConvergence.LaterEventOutdates | apps/jira-sync-worker/src/inbound/inbound.handler.ts:172-190 | A comment, or other event that is no update and no deletion, delivered before an update: the update is shown exactly when it is not older than the link and, unless the comment is OpsNinja's own, not older than the comment; otherwise it is skipped as stale and status and assignee stay as they were. |
| Reconciliation.DriftedFields | apps/jira-sync-worker/src/reconciliation/drift-detector.ts:109-149 | No field has drifted exactly when statuses agree without regard to case, assignees are equal and the cached time is known and not older. |
| Reconciliation.NamesTheDrift | apps/jira-sync-worker/src/reconciliation/drift-detector.ts:115-139 | Status, assignee and time are each named exactly when they have drifted. |
| Reconciliation.EventIdsExactly | apps/jira-sync-worker/src/reconciliation/drift-detector.ts:94-98 | Without hash collisions two search results share an event id exactly when issue and time are the same. |
| Reconciliation.DetectDrift | apps/jira-sync-worker/src/reconciliation/drift-detector.ts:109-149 | The pushes give exactly the drifted fields in order, and the event id. |
| Reconciliation.SyntheticIsClassified | apps/jira-sync-worker/src/reconciliation/drift-detector.ts:160-194 | The worker reads back from a synthetic payload exactly the status, assignee and time of the search result. |
| Reconciliation.HealsExactly | apps/jira-sync-worker/src/reconciliation/drift-detector.ts:109-194 | Synthesising the event of a drifted issue on a live link and delivering it once leaves no drift exactly when its time is valid and not older than the link's, or missing while the link has one, and the event, if one of the same issue and time was stored before, can still be claimed and says the same status and assignee. |
| Reconciliation.OlderResultIsNotHealed | apps/jira-sync-worker/src/reconciliation/drift-detector.ts:109-194 | A concrete drifted issue, with a search result older than its link, that is still drifted after its synthetic event was delivered. |
| Reconciliation.SettledEventIsNotHealed | apps/jira-sync-worker/src/reconciliation/drift-detector.ts:109-194 | A concrete drifted issue, with a search result newer than its link, whose event was skipped while the connection was revoked and that is still drifted after it was synthesised and delivered again. |
| Reconciliation.ReconciliationJob.InsertSyntheticEvent | apps/jira-sync-worker/src/reconciliation/reconciliation.job.ts:494-518 | Inserts the envelope exactly when its event id is new, and reports it. |
| Reconciliation.ReconciliationJob.Scan | apps/jira-sync-worker/src/reconciliation/reconciliation.job.ts:223-254 | One issue of the page loop with its counters, watermark and insert, and the queue message where there is a queue that takes it. |
| Reconciliation.ReconciliationJob.EnqueueSyntheticEvent | apps/jira-sync-worker/src/reconciliation/reconciliation.job.ts:520-546 | Sends one message, or none without a queue or when the queue does not take it, and goes on either way. |
| Reconciliation.ReconciliationJob.ScanPage | apps/jira-sync-worker/src/reconciliation/reconciliation.job.ts:223-254 | The loop over a page. |
| Reconciliation.DriftIsStored | apps/jira-sync-worker/src/reconciliation/reconciliation.job.ts:223-254 | After a page every drifted linked issue has its envelope and none was lost. |
| Reconciliation.CountsInserts | apps/jira-sync-worker/src/reconciliation/reconciliation.job.ts:223-254 | eventsSynthesised counts exactly the new envelopes; the messages sent are never more, and as many when there is a queue that takes them all. |
| Reconciliation.RerunInsertsNothing | apps/jira-sync-worker/src/reconciliation/reconciliation.job.ts:223-254 | A rerun on the same snapshot inserts and sends nothing, whatever the inbound sync did in between. |
| SocketQueue.SortKeepsFirst | apps/realtime-gateway/src/gateway/outbound-queue.ts:86-87 | Sorting keeps, for each number, its first-arrived frame first. |
| SocketQueue.FlushedIsLongestRun | apps/realtime-gateway/src/gateway/outbound-queue.ts:80-112 | For any queue, unsorted, with duplicates and gaps, the flushed frames are the one longest gap-free run after the delivered number, each number once. |
| SocketQueue.OutboundQueue.Enqueue | apps/realtime-gateway/src/gateway/outbound-queue.ts:62-72 | Appends below the bound; at the bound drops the queue and sends one slow-consumer notice; does nothing once dropped. |
| SocketQueue.OutboundQueue.HandleSlowConsumer | apps/realtime-gateway/src/gateway/outbound-queue.ts:142-163 | Drops and empties the queue, notifies once and tells an open socket. |
| SocketQueue.OutboundQueue.Flush | apps/realtime-gateway/src/gateway/outbound-queue.ts:80-112 | Sends exactly the longest gap-free run on an open socket and nothing on a closed one, returns the number sent and empties the queue. |
| SocketQueue.OutboundQueue.Clear | apps/realtime-gateway/src/gateway/outbound-queue.ts:134-136 | Empties the queue and sends nothing. |
| SocketQueue.QueueStaysBounded | apps/realtime-gateway/src/gateway/outbound-queue.ts:62-163 | In every run the depth stays within its bound, a dropped queue stays dropped and at most one notice is given. |
| SocketQueue.ArrivalsAreKept | apps/realtime-gateway/src/gateway/outbound-queue.ts:62-72 | Frames that arrive with no flush in between are all kept in order as long as they fit, else the queue is dropped with one notice. |
| Backfill.BackfillService.Retain | apps/realtime-gateway/src/gateway/backfill.service.ts:105-116 | The loop keeps exactly the readable frames above the client's number, in ring order. |
| Backfill.BackfillService.MakePlan | apps/realtime-gateway/src/gateway/backfill.service.ts:75-164 | The checks of a subscribe, in order, give the specified plan. |
| Backfill.AnswerOnContiguousRing | apps/realtime-gateway/src/gateway/backfill.service.ts:75-164 | On a contiguous ring a subscribe is caught up, refused, or answered with exactly the numbers after the client's up to the newest, and each exactly when the window and the frame and byte limits say so. |
| DeliveryOrder.SessionsAscend | apps/realtime-gateway/src/gateway/backfill.service.ts:167-239 | Within one session on a ring with distinct numbers, over every interleaving of publishes, backfill sends, queueing, flush and closing and for arbitrary published numbers, the numbers sent strictly ascend exactly when no frame passes the delivered mark after its number or a later one was sent. |
| DeliveryOrder.IncreasingPublisherAscends | apps/realtime-gateway/src/gateway/backfill.service.ts:167-239 | So a publisher whose numbers increase is received in order in every interleaving. |
| DeliveryOrder.FlushedFrameIsRepeated | apps/realtime-gateway/src/gateway/backfill.service.ts:196-239 | A concrete run of the interleaved model from a new socket that sends one frame twice. |
| DeliveryOrder.HandlingIsARun | apps/realtime-gateway/src/gateway/backfill.service.ts:167-209 | Handling an accepted subscribe in one go is the fine-grained run with nothing in between. |
| DeliveryOrder.QueueStaysEmpty | apps/realtime-gateway/src/gateway/backfill.service.ts:168-194 | Between whole handler calls, in any order, no socket is in a backfill and its queue is empty. |
| DeliveryOrder.AcceptedSendsExactly | apps/realtime-gateway/src/gateway/backfill.service.ts:166-209 | After any whole calls from a new socket on, a subscribe accepted on a contiguous ring and an open socket sends exactly the missing numbers in order, within the limits, and leaves the socket live at the newest. |
| DeliveryOrder.RefusedExactly | apps/realtime-gateway/src/gateway/backfill.service.ts:75-164 | On an open socket a subscribe gives one snapshot_required, no data frame and no other change exactly when its number is malformed, the ring is unreadable or empty, or the gap is outside the window or beyond the frame or byte limit, each with its own reason. |
| DeliveryOrder.WholeCallsAscend | apps/realtime-gateway/src/gateway/backfill.service.ts:167-239 | After any whole calls, what a socket is sent from an accepted subscribe until the next accepted one strictly ascends, whatever numbers are published in whatever order and however many subscribes are refused in between. |
| DeliveryOrder.SentAboveExactly | apps/realtime-gateway/src/gateway/backfill.service.ts:119-239 | After any whole calls, every frame a socket is sent from an accepted subscribe until the next accepted one is above the client's number exactly when the answer was a replay, or the socket is closed, or its delivered mark had reached that number, or the first frame that passes the mark is above it. |
| DeliveryOrder.CaughtUpSocketGetsOlderFrame | apps/realtime-gateway/src/gateway/backfill.service.ts:121-127 | A new socket that is caught up at 5 and is then sent frame 3. |
| LiveDelivery.DeliveredExactly | apps/realtime-gateway/src/gateway/backfill.service.ts:216-239 | After an accepted subscribe, until the next accepted one, an open socket is sent exactly the published frames whose numbers pass its mark and all numbers published before. |
| LiveDelivery.ReconnectHasNoGap | apps/realtime-gateway/src/gateway/backfill.service.ts:166-239 | After any whole calls, a client answered with a replay from a contiguous ring gets the numbers after its own without a gap and once each, those of the ring and then those published. |
| Backfill.BackfillService.SendBackfill | apps/realtime-gateway/src/gateway/backfill.service.ts:175-181 | The send loop sends all frames in order on an open socket, none on a closed one, and sets the delivered mark. |
| Backfill.BackfillService.Accept | apps/realtime-gateway/src/gateway/backfill.service.ts:166-209 | Marks the socket, replays, flips it to live and flushes the queue unless it was dropped. |
| Backfill.BackfillService.HandleSubscribe | apps/realtime-gateway/src/gateway/backfill.service.ts:68-210 | The whole handler leaves the socket, its flags, its queue and its sent messages as specified. |
| Backfill.BackfillService.DeliverLiveFrame | apps/realtime-gateway/src/gateway/backfill.service.ts:216-239 | A live frame is queued during a backfill, skipped at or below the delivered mark, and else sent on an open socket. |
| Backfill.BackfillService.GetOrCreateQueue | apps/realtime-gateway/src/gateway/backfill.service.ts:261-270 | Returns the socket's own queue, creating an empty one at most once. |
| Backfill.BackfillService.SendSnapshotRequired | apps/realtime-gateway/src/gateway/backfill.service.ts:272-297 | Sends one snapshot_required with its reason on an open socket. |
| Backfill.BackfillService.HandleMessage | apps/realtime-gateway/src/redis/pubsub.subscriber.ts:128-153 | The loop dispatches a published frame to every subscribed, open socket among those given and to no other, each independently. |
| Registry.ConnectionRegistry.Add | apps/realtime-gateway/src/gateway/connection-registry.ts:36-65 | Updates the three indexes as specified and returns the registered wrapper, which holds this socket and this principal. |
| Registry.ConnectionRegistry.Remove | apps/realtime-gateway/src/gateway/connection-registry.ts:70-93 | Removes the socket from the three indexes as specified, dropping an empty bucket and a zero counter. |
| Registry.ConnectionRegistry.GetTenantSockets | apps/realtime-gateway/src/gateway/connection-registry.ts:99-101 | Returns exactly the registered wrappers of the tenant. |
| Registry.ConnectionRegistry.OnConnection | apps/realtime-gateway/src/gateway/dashboard.gateway.ts:191-204 | Refuses exactly at the principal's cap; else the socket is registered with exactly the given principal, in the bucket of that principal's tenant and in no other, and every other socket keeps its wrapper. |
| Registry.AddKeepsValidIffFresh | apps/realtime-gateway/src/gateway/connection-registry.ts:36-65 | Adding keeps the indexes in agreement exactly when the socket is not registered yet. |
| Registry.RemoveKeepsValid | apps/realtime-gateway/src/gateway/connection-registry.ts:70-93 | Removing any socket keeps the indexes in agreement. |
| Registry.RemoveIsIdempotent | apps/realtime-gateway/src/gateway/connection-registry.ts:70-93 | Removing twice is removing once. |
| Registry.RemoveUndoesAdd | apps/realtime-gateway/src/gateway/connection-registry.ts:36-93 | Removing a socket just added restores all three indexes. |
| Registry.IndexesAlwaysAgree | apps/realtime-gateway/src/gateway/dashboard.gateway.ts:191-204 | Under any interleaving of connects and closes the tenant buckets partition the registered sockets, no bucket is empty, every counter is its principal's number of sockets, and no principal exceeds its cap. |
| Registry.ConnectRegisters | apps/realtime-gateway/src/gateway/connection-registry.ts:36-65 | A connection below its cap registers the new socket for its principal in its tenant alone and touches no other socket; at the cap nothing changes. |
| Registry.RegisteredExactly | apps/realtime-gateway/src/gateway/dashboard.gateway.ts:191-204 | After any run a socket is registered for a principal, in that tenant alone, exactly when its own connection for that principal was accepted and it has not closed since. |

## Left out

Deliberate limits of members in the table:

- TokenBucket.JiraRateLimiter.TryConsume: does not model the answer given when Redis is down, floating-point rounding, the reply's text form, a clock that goes back, or a window below one millisecond, whose refill rate is infinite or negative.
- TokenBucket.WindowBound: fixes capacity and window for a whole run, as do the other results about runs, although every call could pass others; all callers use the default.
- TokenBucket.RetryHintExact: starts from buckets the script can have written, because an arbitrary hash could expire early.
- FilterTheorems.AcceptedFiltersRun: does not model PostgreSQL beyond the printed predicates; values are compared as texts, instants and booleans, the case fold maps characters one by one, and the columns the registry names are taken to exist.
- JsonReader.StringifyReadsBack: asks that the numbers of a value are JSON numbers, as JavaScript prints them.
- FieldRegistry.Issues: does not model the wording of the messages, or the internals of the date parser and of the relative-date calendar, which are parameters.
- JsonText.StringifyInjective: numbers are carried as their printed text, and strings are sequences of characters, not of UTF-16 units.
- InboundSync.InboundHandler.Handle: does not model a failure before or during the claim, a commit lost in transit, or two pods with different clocks; rollback and failure mark are one step after a won claim.
- InboundSync.InboundHandler.ApplyComment: models the intended insert, because the one as written names a constraint that does not exist; rendering of rich text is a parameter, and the columns of time stamps and random row ids are not modelled.
- InboundRuns.OneMirrorForever: is proved of the intended comment insert.
- InboundChanges.UpdateDecides: is about updates whose change log holds no null, because a null there makes the classifier throw.
- InboundSync.FindLink: reads LIMIT 1 without an order as the first row.
- InboundConvergence.Converges: asks that the newest update has a readable time and a status, and that the other events of the issue that commit are harmless, because any other event does change what a link shows or orphans it (InboundConvergence.HarmlessExactly); an earlier deletion is not counted as harmless, because it orphans a link that has not seen the newest update yet.
- Reconciliation.HealsExactly: takes the hash of the event id as a parameter, and an event stored under this id to come from a search result of the same issue and time.
- DeliveryOrder.SessionsAscend: holds within one session, because a second subscribe may replay frames, and on a ring without repeated numbers; frame numbers are integers and ring entries without a number are unreadable.
- DeliveryOrder.AcceptedSendsExactly: says nothing about frames published between the ring read and the subscription, which the dispatcher skips.
- Backfill.BackfillService.HandleMessage: takes the tenant's sockets as an argument; that the registry returns exactly these is Registry.ConnectionRegistry.GetTenantSockets.
- Registry.IndexesAlwaysAgree: does not cover the pod-wide cap, which is checked at the upgrade and not when the socket is registered.

Parts of the repository that are not modelled:

- Structural parsing of filters by Zod, and the relative-date calendar of the filter clock.
- SHA-256, HMAC, KMS and AES; signatures stop at the canonical text.
- Postgres, Redis, SQS and WebSocket clients, connection pools, advisory locks, logging and metrics.
- The pagination, run records, pending-link repair and watermark of the reconciliation job.
- The realtime notification after a commit, the outbound half of the Jira sync and its retry tables.
- The slow-consumer path after a drop, flushUnordered (which no caller uses), heartbeats, draining and scope revalidation of the gateway.
- ADF rendering, JQL building, API routes, React rendering, authentication and tenant isolation.
