# Cadenza verification

A Dafny model of the parts of Cadenza, a control plane for OpenTelemetry Collectors, whose behaviour
depends on state, order, time or arithmetic, with proofs of what they promise. Check it with
`dafny verify dfyconfig.toml`.

Code that changes state is modelled by classes and methods with loops. Each such method is proved equal to
a function on values, and the theorems are about that function: about every input, every run, or every
interleaving.

| files | what they model |
|---|---|
| `Text`, `EditScript`, `Hunks`, `UnifiedFormat` | `internal/diff/diff.go` and the parser `parseUnified` of `web/src/lib/diff.ts` |
| `LlmReply`, `Breaker`, `Retry`, `StableChain`, `ResponseCache` | the decorators around the language model in `internal/agent/llm.go` |
| `Registry`, `OpAmpServer`, `OpAmpHistory`, `PushQueue` | `internal/opampserver`, one step at a time and over whole runs |
| `ConfigSubset`, `Confirm`, `Delivery` | `internal/agent/subset.go`, `internal/agent/confirm.go`, and its sessions over whole runs of the server |
| `TaskLifecycle`, `Dispatch`, `DispatchLaws`, `ConfigApi` | `internal/task/task.go`, the tools of `internal/agent/tools.go`, and the two requests of `internal/api` that create tasks with a config |
| `ConfigRuns`, `RunLaws`, `RequestLaws`, `TaskHistories` | whole runs of these: what is pushed, what is recorded, how tasks end, what the event log holds |
| `MessageLog`, `TimeFilter`, `OpsStats`, `StatsMeaning` | paging and time filters of `internal/store/sqlstore.go`, statistics of `internal/api/stats.go` |

What is outside the model enters as a parameter: the clock, the answers of the language model, whether a
write or a send succeeds, what the registry answers while a push is confirmed, YAML parsing, digests and
case folding. Locked sections are single steps. Streams are the finite sequences they deliver. The
patch format is that of POSIX.1-2017, `diff`, section "Diff -u or -U Output Format"; that a missing field of a message means "unchanged" is the section
"Agent Status Compression" of the OpAMP specification.

## Where code and documentation differ

The model follows the code.

* `docs/design-1.1.0.md:124` announces Myers' algorithm; `internal/diff/diff.go` fills an LCS table.
* `internal/diff/diff.go:26` says that identical inputs give an empty diff. Above the cell limit they do not:
  `UnifiedFormat.EmptyIff` gives the exact condition, `UnifiedFormat.LargeTextDiffersFromItself` an input.
* `internal/agent/subset.go:96` says that a redacted value matches any pushed value. Only strings match:
  `ConfigSubset.RedactedMatchesIff`. The comment on lists at line 34 suggests that order matters for lists of
  equal length; it does not (`ConfigSubset.YamlSubset`).
* `internal/agent/llm.go:300` says that the cache key covers tool declarations. It covers the messages alone.
  `ResponseCache.ToolChangeUnseen` is a run of two calls that gets the wrong answer, and
  `ResponseCache.CacheSoundIff` says for which models the cache is sound all the same.
* `internal/agent/llm.go:157-161` describes a cooldown during which no request gets through, and after it one
  half-open probe. `Breaker.EarlyAdmissionIff` says exactly which calls do get through during a cooldown,
  `Breaker.ProbesIff` which ones after it (all, until failures open the breaker again), and
  `Breaker.FailedProbeReopensIff` when a failed probe reopens the breaker at once.
* `internal/agent/tools.go:625` promises that a status that cannot be written does not leave the task in
  applying. It does when marking the task failed is lost as well, when the lost write is another one than
  that of done, and after the error returns that had nothing to push. `DispatchLaws.DispatchEnds` is the exact
  condition, and `RunLaws.StuckForEver` shows that nothing gets such a task out again.
* `internal/agent/tools.go:715` says that a version row is written after a successful push. apply_config writes it
  without looking at the result of its push. That makes no difference behind a running server, which refuses no
  push: `RunLaws.RowsWerePushed`.
* `internal/agent/subset.go:17-19` says that the caller makes up for deletions, which containment cannot see, by the
  restart command and the time of reports. No time is compared, and there is no restart command after a first poll
  that succeeds. A push that deletes a key of what the collector has reported counts as confirmed at once, without
  any new message: `Delivery.DeletionConfirmedAtOnce`, with a session in `Delivery.ReportAndPushSession`.
* `internal/store/sqlstore.go:496-497` promises an upper bound that includes its whole second. In the last
  second of the year 9999 it does not: `TimeFilter.FilterCorrectIff`, `TimeFilter.LastSecondExists`.

## Model

| member | source | states |
|---|---|---|
| Text.SplitLinesKeepsText | internal/diff/diff.go:212-224 | splitting loses nothing but line endings: joined again, the lines give the CRLF-normalised text with its last line terminated |
| Text.SplitLinesOneLine | internal/diff/diff.go:212-224 | no line of a split text contains a newline |
| Text.SameLinesIff | internal/diff/diff.go:212-224 | two texts split into the same lines exactly when they agree after normalising CRLF and terminating the last line |
| Text.UnlinesSplit | internal/diff/diff.go:223 | joining what the split at newlines gives restores the text |
| Text.NormalizeCrlf | internal/diff/diff.go:214 | each CRLF becomes one newline, whatever stands around it |
| Text.PlainLinesKeepText | internal/diff/diff.go:212-224 | for a text without CRLF the joined lines are the text itself with its last line terminated |
| Text.CrlfUnseenIff | internal/diff/diff.go:212-224 | writing one line ending as CRLF leaves the lines as they are exactly when no other carriage return stands in front of it |
| EditScript.FillTable | internal/diff/diff.go:59-75 | filling the table in place leaves in every entry the LCS length of the two suffixes |
| EditScript.LcsIsMaximum | internal/diff/diff.go:60-75 | the recurrence gives the greatest length over all common subsequences, and some common subsequence attains it |
| EditScript.CommonAtMostLcs | internal/diff/diff.go:60-75 | no common subsequence is longer than the table entry |
| EditScript.Walk | internal/diff/diff.go:76-91 | the walk emits a prefix of the script and stops where one side has run out |
| EditScript.LcsOps | internal/diff/diff.go:58-99 | table, walk and flush together emit the script |
| EditScript.ScriptCorrect | internal/diff/diff.go:58-99 | the script consumes exactly a, produces exactly b, and keeps as many lines as the LCS is long |
| EditScript.ScriptIsMinimal | internal/diff/diff.go:58-99 | no edit script from a to b has fewer deletions plus additions |
| EditScript.ScriptDeletionsFirst | internal/diff/diff.go:84-89 | because ties delete, no addition is directly followed by a deletion |
| Hunks.Changed | internal/diff/diff.go:136-142 | the first loop collects the indices of the changed operations in order |
| Hunks.MergedSpans | internal/diff/diff.go:146-165 | the second loop merges the context windows from left to right |
| Hunks.SpansExact | internal/diff/diff.go:146-165 | the spans are in order with at least one unshown operation between them, and show exactly the operations within three of a change |
| Hunks.ApartUnique | internal/diff/diff.go:146-165 | spans that are apart are determined by what they show, so there is one correct merge |
| Hunks.ChangeInOneSpan | internal/diff/diff.go:146-165 | every changed operation lies in exactly one span |
| Hunks.Advance | internal/diff/diff.go:170-181 | skipping unshown operations advances both line numbers by the lines consumed on each side |
| Hunks.ShowSpan | internal/diff/diff.go:182-206 | crossing a span yields its hunk, with the line before as start of an empty side |
| Hunks.MakeHunks | internal/diff/diff.go:133-210 | the loops with one forward cursor produce the hunk of every span, numbered from the start of the script |
| Hunks.PatchRebuilds | internal/diff/diff.go:134-210 | for any script from a to b, a patch program that locates the hunks by their headers alone and checks both positions, both counts and all old lines turns a into b |
| Hunks.ReversePatchRestores | internal/diff/diff.go:134-210 | with the two sides of every hunk exchanged the same program turns b back into a |
| UnifiedFormat.RenderBody | internal/diff/diff.go:117-121 | the inner loop prints one terminated line per operation |
| UnifiedFormat.Render | internal/diff/diff.go:112-124 | the loops print the file headers and every hunk of the script under its header |
| UnifiedFormat.HasChangeLoop | internal/diff/diff.go:102-109 | true exactly when some operation is not kept |
| UnifiedFormat.ReplaceWhole | internal/diff/diff.go:36-41 | the fallback deletes every old line and then adds every new line |
| UnifiedFormat.Unified | internal/diff/diff.go:27-49 | splits, chooses between table and fallback by the cell limit, and prints the script if it changes anything |
| UnifiedFormat.NoChangeIff | internal/diff/diff.go:33-47 | the chosen script changes nothing exactly when the lines are equal and the table is within the cell limit |
| UnifiedFormat.EmptyIff | internal/diff/diff.go:24-49 | the diff is empty exactly when the texts have the same lines and the table is within the cell limit |
| UnifiedFormat.CrlfCopyIff | internal/diff/diff.go:27-49 | within the cell limit a text and its copy with one line ending written as CRLF have an empty diff, exactly unless another carriage return stands in front of it |
| UnifiedFormat.LargeTextDiffersFromItself | internal/diff/diff.go:34-47 | a text of n blank lines with n * n above the cell limit has a diff with itself that is not empty |
| UnifiedFormat.ReadPrinted | internal/diff/diff.go:112-124 | an independent reader of the POSIX format gets back every printed hunk, headers and operations alike |
| UnifiedFormat.UnifiedIsAPatch | internal/diff/diff.go:27-49 | for all texts, on both paths, the returned text read back and applied to the lines of a gives the lines of b |
| UnifiedFormat.ParseUnified | web/src/lib/diff.ts:54-73 | one pass returns the classified lines, and its two counters are the additions and deletions among them |
| UnifiedFormat.ParsePrinted | web/src/lib/diff.ts:54-73 | parsing printed hunks returns all shown operations except those whose printed line looks like a file header |
| UnifiedFormat.HunksShowChanges | internal/diff/diff.go:134-210 | the hunks together hold every change of the script once and in order |
| UnifiedFormat.RoundTripIff | web/src/lib/diff.ts:54-73 | parsing what Unified prints returns the shown operations exactly when no deleted line starts with "-- " and no added line with "++ ", and then both counters are those of the script |
| Breaker.CircuitModel.constructor | internal/agent/llm.go:78-83 | a new breaker is closed with no failures |
| Breaker.CircuitModel.TryEnter | internal/agent/llm.go:155-166 | the first locked section: closed lets through; open lets through, closed and with no failures, only after the cooldown |
| Breaker.CircuitModel.RecordFailure | internal/agent/llm.go:186-197 | one more failure; at the threshold the breaker opens for a cooldown from now |
| Breaker.CircuitModel.RecordSuccess | internal/agent/llm.go:199-207 | closes the breaker and forgets the failures |
| Breaker.CircuitModel.Settle | internal/agent/llm.go:169-184 | the answer is handed on unchanged, a closed channel as an error, and charged as a success or a failure |
| Breaker.CircuitModel.GenerateContent | internal/agent/llm.go:154-184 | a call reaches the inner model exactly when it is let through, is charged by its outcome, and hands on the inner stream unchanged |
| Breaker.RunKeepsInvariant | internal/agent/llm.go:154-207 | after any sequential run on a forward clock: an open breaker waits out its last opening, openings are spaced, and failures pay for them |
| Breaker.OpeningsBounded | internal/agent/llm.go:186-197 | openings are more than a cooldown apart, and openings times threshold is at most the number of failures |
| Breaker.AllFailingCharged | internal/agent/llm.go:154-197 | when every inner call fails, the calls let through are the openings times the threshold plus the failures still counted |
| Breaker.RateBound | internal/agent/llm.go:154-207 | over a model that always fails at most threshold * (T / cooldown + 1) calls are let through in elapsed time T |
| Breaker.OpenIffAtThreshold | internal/agent/llm.go:154-207 | under any interleaving of call starts and ends and any clock, open means exactly that the failures have reached the threshold |
| Breaker.EarlyAdmissionIff | internal/agent/llm.go:154-207 | under any interleaving on a forward clock, a call that starts within the cooldown of a failure that left the breaker open is let through exactly when some call ended well in between and no later failure opened the breaker again |
| Breaker.AdmissionIff | internal/agent/llm.go:154-207 | under any interleaving on a forward clock a call is turned away exactly when it starts within the cooldown of an opening after which nothing has closed the breaker |
| Breaker.ProbesIff | internal/agent/llm.go:157-161 | once the cooldown of an opening is over every call is let through, however many, except exactly those that a later opening turns away |
| Breaker.LateSuccessEndsCooldown | internal/agent/llm.go:199-207 | a run in which a call that started before the opening ends well and the next one is let through at once |
| Breaker.FailedProbeReopensIff | internal/agent/llm.go:157-161 | a failed call after the cooldown reopens the breaker at once exactly when the threshold is at most one |
| Retry.GenerateContent | internal/agent/llm.go:98-135 | at most maxRetries + 1 inner calls; every sleep is double the one before and follows a retryable failure; without cancellation the reply is that of the last attempt, which was the last allowed or not retryable |
| Retry.SleepsAreEarned | internal/agent/llm.go:101-126 | every sleep follows a retryable error, returned or as first response |
| Retry.FirstOtherDecides | internal/agent/llm.go:101-131 | the first answer that is not such an error ends the call: a good stream and a permanent error are handed on as they are, a closed stream is an error, and there is no sleep after it |
| Retry.AllTransientExhausts | internal/agent/llm.go:99-115 | when all maxRetries + 1 answers are retryable errors and every sleep wakes, all are asked for and the last error is reported |
| Retry.CancelledSleepEnds | internal/agent/llm.go:110-112 | a sleep that is cancelled ends the call with the cancellation |
| Retry.DoublingClosed | internal/agent/llm.go:99-112 | the sleep before retry k + 1 is the base delay times 2^k |
| Retry.BackoffTotal | internal/agent/llm.go:99-127 | k retries sleep the base delay times 2^k - 1 in total |
| StableChain.Generate | internal/agent/llm.go:77-83 | with the breaker outside the retries one outer call charges at most one failure however many inner calls it makes, and makes none while the breaker cools down; for negative maxRetries an admitted call never answers and charges nothing |
| StableChain.InnerRateBound | internal/agent/llm.go:77-83 | over a model that always fails the chain makes at most (maxRetries + 1) * threshold * (T / cooldown + 1) inner calls in elapsed time T |
| ResponseCache.CacheModel.constructor | internal/agent/llm.go:84-86 | a new cache is empty |
| ResponseCache.CacheModel.Get | internal/agent/llm.go:263-275 | returns the entry until its time has passed, and drops it then |
| ResponseCache.CacheModel.Put | internal/agent/llm.go:277-281 | stores the response until ttl from now |
| ResponseCache.CacheModel.GenerateContent | internal/agent/llm.go:227-258 | asks the inner model exactly without a fresh entry, and stores exactly the successful answers of one response |
| ResponseCache.EntryOrigin | internal/agent/llm.go:263-281 | every entry was stored by an earlier call with that key that reached the inner model |
| ResponseCache.HitOrigin | internal/agent/llm.go:227-281 | a hit returns the answer of an earlier call with the same key, stored at most ttl before, for any clock and any answers |
| ResponseCache.AskedGetsAnswer | internal/agent/llm.go:236-258 | a call that reaches the inner model hands the whole answer on, a closed stream as an error |
| ResponseCache.CacheRefines | internal/agent/llm.go:227-258 | for an injective key, and a model whose stored answers depend on the messages alone, every call of every run gets what the model answers to its own request, whatever the clock says; an empty stream becomes an error |
| ResponseCache.ToolChangeUnseen | internal/agent/llm.go:300-312 | the same messages with other tools, asked at once, get the stored answer to the first request |
| ResponseCache.CacheSoundIff | internal/agent/llm.go:227-312 | every run gets the model's own answers if and only if no stored answer depends on anything but the messages |
| ResponseCache.InnerCallsApart | internal/agent/llm.go:263-281 | on a forward clock two inner calls for a key whose first answer was stored are more than ttl apart |
| ResponseCache.RepeatIsHit | internal/agent/llm.go:227-281 | on a forward clock a good answer of one response is used again for the same key for as long as ttl |
| CollectorRegistry.Registry.constructor | internal/opampserver/registry.go:39-49 | a new registry has five empty maps over the given store |
| CollectorRegistry.Registry.Upsert | internal/opampserver/registry.go:52-64 | sets the record with a status, binds the connection if there is one, and writes through |
| CollectorRegistry.Registry.Remove | internal/opampserver/registry.go:94-102 | removes the connection and the three reports of it and keeps the record |
| CollectorRegistry.Registry.SetCapabilities | internal/opampserver/registry.go:113-117 | sets the capability bits of one uid |
| CollectorRegistry.Registry.SetReportedHash | internal/opampserver/registry.go:129-137 | sets the acknowledged hash, or clears it for the empty one |
| CollectorRegistry.Registry.SetReportedEffective | internal/opampserver/registry.go:149-153 | sets the reported config of one uid |
| CollectorRegistry.Registry.MarkOne | internal/opampserver/registry.go:167-173 | the loop body: marks one stale record and writes it through |
| CollectorRegistry.Registry.MarkOffline | internal/opampserver/registry.go:164-174 | in any order of iteration exactly the stale collectors become offline, in the registry and, where the write succeeds, in the store |
| OpAmpServer.OpAmpServer.CollectorFromMessage | internal/opampserver/server.go:161-205 | starts from the known record; identifying attributes overwrite, others only fill in, health and config change only when reported |
| OpAmpServer.IdentifiedMeans | internal/opampserver/server.go:167-174 | the last identifying value of a key counts, and without one the name stays |
| OpAmpServer.FilledInMeans | internal/opampserver/server.go:175-186 | other attributes count for a name that is still empty, and then the first value that is not empty does |
| OpAmpServer.HexSpells | internal/opampserver/server.go:108 | two hex digits spell each byte of an instance uid |
| OpAmpServer.DecodableIff | internal/opampserver/server.go:263 | what can be decoded is an even number of hex digits, of either case |
| OpAmpServer.OpAmpServer.TakePending | internal/opampserver/server.go:338-347 | returns the queued config and removes it |
| OpAmpServer.OpAmpServer.NoteRemote | internal/opampserver/server.go:126-136 | an APPLIED ack sets the hash, a FAILED one clears it, anything else leaves it |
| OpAmpServer.OpAmpServer.Backfill | internal/opampserver/server.go:116-120 | an unknown collector is first taken over from the store |
| OpAmpServer.OpAmpServer.OnMessage | internal/opampserver/server.go:107-158 | the whole message step on registry, store and queue, whichever of its two writes to the store fail, and its answer: full state is requested while reports or names are missing, the queued config is handed over |
| OpAmpServer.OpAmpServer.UidForConn | internal/opampserver/server.go:232-239 | finds a uid bound to the connection whenever there is one |
| OpAmpServer.OpAmpServer.OnConnectionClose | internal/opampserver/server.go:222-229 | unbinds a uid bound to the connection, or does nothing |
| OpAmpServer.OpAmpServer.PushConfig | internal/opampserver/server.go:255-278 | sent over the connection, or queued when there is none or the send fails; nothing else changes |
| OpAmpServer.OpAmpServer.SendRestart | internal/opampserver/server.go:307-326 | sent exactly when the collector is connected, accepts restarts, has a hex uid and the send succeeds |
| OpAmpServer.OpAmpServer.RecordConfigVersion | internal/agent/tools.go:717-739 | writes the intended config to registry and store, whichever of the two writes to the store fail, and never to the reported config |
| OpAmpHistory.ServerIsProduct | internal/opampserver/server.go:107-301 | over every run the server is the product of independent cells, one per uid: no step mixes collectors up |
| OpAmpHistory.AlwaysConsistent | internal/opampserver/registry.go:52-102 | over every run the keys of the three report maps are within those of the connections, and these within those of the collectors |
| OpAmpHistory.PushNeverRefused | internal/opampserver/server.go:263-266 | the error return for a uid that is not hex is never taken |
| OpAmpHistory.CellFold | internal/opampserver/server.go:116-141 | in a durable run what is held for a uid is what its message history says |
| OpAmpHistory.StatusIsLatestReport | internal/opampserver/server.go:188-200 | from an empty store, a collector is healthy or unhealthy exactly when its latest health report since it was last marked offline says so |
| OpAmpHistory.ReportsAreLatest | internal/opampserver/server.go:126-141 | the reported config and the acknowledged hash are the latest reported since the uid was connected, whatever version records write |
| OpAmpHistory.FullReportIff | internal/opampserver/server.go:146-151 | over every run a message is answered with a demand for a full report exactly when its sender has reported no config since it connected, this message included, or its host name or version is still unknown |
| OpAmpHistory.FirstMessageAsks | internal/opampserver/server.go:146-151 | so the first message after a restart or a close asks, unless it reports a config |
| OpAmpHistory.ReportedIsNotAsked | internal/opampserver/server.go:146-151 | and after a report nothing is asked for as long as the sender stays connected and its names are known |
| OpAmpHistory.RecordAfterMessage | internal/opampserver/server.go:161-205 | the record after a message in terms of the one known before, in the registry or in the store: names, config, status, time, uid and group |
| OpAmpHistory.RestartIff | internal/opampserver/server.go:307-326 | over every run a restart command is sent exactly when the collector is connected, its last message had the capability bit 1024, and the connection takes it |
| OpAmpHistory.GroupNeverChanges | internal/opampserver/server.go:161-165 | no step changes the group a collector was stored with |
| OpAmpHistory.RestartTransparent | internal/opampserver/server.go:113-123 | with successful writes, a restart right before a message leaves the sender's record as without it |
| OpAmpHistory.ReplacedCloseIsNoop | internal/opampserver/server.go:222-239 | with one uid per connection, closing a connection its uid has already replaced changes nothing |
| PushQueue.QueueStep | internal/opampserver/server.go:255-301 | the queued config of a uid changes only when a push waits, a message takes it, or a restart loses it |
| PushQueue.PushesConserved | internal/opampserver/server.go:255-301 | pushes to a uid = direct sends + handovers + overwritten + lost in a restart + the one still waiting |
| PushQueue.AnswerWasPushed | internal/opampserver/server.go:152-156 | every config a message answers with was pushed earlier to that same uid |
| PushQueue.DeliveredOnce | internal/opampserver/server.go:338-347 | each push is delivered at most once |
| PushQueue.HandoverIsLatestUnlessSent | internal/opampserver/server.go:271-301 | a handed-over config is the latest push unless later ones were sent directly |
| PushQueue.StaleHandover | internal/opampserver/server.go:271-277 | after a failed send followed by a successful one the next message gets the older config |
| ConfigSubset.YamlSubset | internal/agent/subset.go:36-90 | the loops decide the declarative relation; the attempt in list order adds nothing to it |
| ConfigSubset.InOrder | internal/agent/subset.go:61-72 | a match in list order is a match in any order |
| ConfigSubset.SubsetOf | internal/agent/subset.go:21-30 | true exactly when both texts parse and the pushed tree is contained |
| ConfigSubset.Reflexive | internal/agent/subset.go:36-115 | every document contains itself |
| ConfigSubset.GrowthKeepsContainment | internal/agent/subset.go:36-90 | containment survives keys and list elements added to the reported document at any depth |
| ConfigSubset.Transitive | internal/agent/subset.go:36-115 | containment is transitive on strings when the middle document is unredacted |
| ConfigSubset.TransitiveIff | internal/agent/subset.go:36-115 | between documents of strings, containment passes through a document exactly when no placeholder is in it |
| ConfigSubset.ScalarTransitiveIff | internal/agent/subset.go:95-115 | over all documents, containment passes through a single scalar exactly when that is not a string |
| ConfigSubset.RedactedMatchesIff | internal/agent/subset.go:95-110 | a reported placeholder matches a pushed scalar exactly when that is a string or prints alike |
| ConfigSubset.StringsMatchIff | internal/agent/subset.go:95-115 | two strings match exactly when they agree up to case or one of them is the placeholder |
| ConfigSubset.OtherScalarsMatchIff | internal/agent/subset.go:95-115 | any other two scalars match exactly when they print alike |
| ConfigSubset.DeletionsUnseen | internal/agent/subset.go:17-20 | removing a key from the pushed document goes unnoticed |
| Confirm.WaitConfirm | internal/agent/confirm.go:104-122 | against any answers: confirmed exactly when the last poll saw the ack or a containing config, no earlier poll did, at most ceil(timeout / interval) + 1 polls |
| Confirm.PushAndConfirm | internal/agent/confirm.go:72-97 | one push first; online success exactly when the last poll saw the config; a second phase only after a failed first one with the capability; it gives up no earlier than the timeout, or half of it without the capability, and no phase waits for another poll once half the timeout has passed; with exact sleeps it takes less than timeout + 2 * interval, and what a poll within half the timeout can see is confirmed without a restart command |
| Confirm.SessionShape | internal/agent/confirm.go:72-97 | the push comes first and only there, at most one restart follows, after the whole first phase, and polls are numbered without gaps |
| Confirm.DefaultTimeoutPolls | internal/agent/confirm.go:14-21 | with the default timeout of 12 s a phase polls at most 31 times |
| Delivery.SeenIff | internal/agent/confirm.go:104-122 | a poll succeeds exactly when some message of the collector shows the config: an ack of its digest or a report that contains it, with nothing after it that replaces it |
| Delivery.AcceptedIff | internal/agent/confirm.go:72-97 | over any run of the server a session never fails; for an online collector it reports success exactly when at its last poll such a message exists, and for one that was not online always |
| Delivery.OldMessageConfirms | internal/agent/confirm.go:85-89 | when a message from before the push shows the config and the collector stays silent, the first poll confirms and no restart command is sent |
| Delivery.NewMessageConfirms | internal/agent/confirm.go:99-103 | when no message shows the config at the time of the push, success for an online collector means that one sent since does |
| Delivery.DeletionConfirmedAtOnce | internal/agent/subset.go:17-19 | a push that deletes a key of the latest reported config is confirmed by that report at the first poll |
| Delivery.ReportAndPushSession | internal/agent/confirm.go:72-97 | for any two configs a session exists in which the collector has reported the first, is pushed the second and stays silent until the first poll |
| Delivery.ServerNeverFails | internal/opampserver/server.go:255-278 | no push through a running server fails |
| Delivery.OfflineAccepted | internal/agent/confirm.go:81-84 | for every uid some push over some run succeeds: that to a collector nobody has heard of |
| TaskLifecycle.Service.RecordEvent | internal/task/task.go:51-58 | appends the event, or loses it silently |
| TaskLifecycle.Service.Create | internal/task/task.go:35-48 | stores a new task with a status and logs its creation |
| TaskLifecycle.Service.Approve | internal/task/task.go:61-76 | moves a task that awaits approval to applying and logs it, or changes nothing |
| TaskLifecycle.Service.Reject | internal/task/task.go:79-95 | moves a task that awaits approval to rejected and logs it, or changes nothing |
| TaskLifecycle.Service.SetStatus | internal/task/task.go:98-112 | makes a legal transition and logs it, or changes nothing |
| TaskLifecycle.LegalTransitions | internal/task/task.go:125-148 | the thirteen legal transitions, and no others |
| TaskLifecycle.RejectionIsRecorded | internal/task/task.go:79-95 | over every run a rejected task names the approver and the reason of the call that rejected it |
| TaskLifecycle.ApprovalIsRecorded | internal/task/task.go:61-76 | over every run a task in applying or done names the approver of a call that approved it |
| TaskLifecycle.EventsChain | internal/task/task.go:35-148 | over every run a task's events chain from its creation through legal transitions to its stored status |
| TaskLifecycle.TerminalStays | internal/task/task.go:125-148 | once done or rejected a task never changes again |
| TaskLifecycle.DoneWasApproved | internal/task/task.go:125-148 | the history of a done task ends awaiting_approval, applying, done |
| TaskLifecycle.ApplyingNeedsApproval | internal/task/task.go:61-76 | a task never enters applying more often than awaiting_approval |
| TaskLifecycle.HistoryBounded | internal/task/task.go:125-148 | apart from pending self-loops a history has at most 6 + 5 * retries events |
| TaskLifecycle.BoundAttained | internal/task/task.go:125-148 | for every number of retries some legal history has exactly that many |
| Dispatch.Deps.RecordConfigVersion | internal/agent/tools.go:717-739 | appends a version row with a higher id and sets the effective config in registry and store, each of whose two writes may fail; without the row nothing else is written |
| Dispatch.Deps.SetTaskError | internal/agent/tools.go:704-713 | notes an error on the task, if the write succeeds, and leaves its status |
| Dispatch.Deps.MarkTaskFailed | internal/agent/tools.go:208-216 | marks the task failed with a note, or leaves it when that write is lost |
| Dispatch.Deps.Finish | internal/agent/tools.go:624-637 | done with a note when unconfirmed; when done cannot be written the task is marked failed and the dispatch returns an error |
| Dispatch.Deps.TargetCollectors | internal/agent/tools.go:265-283 | every stored collector whose uid or group is the target, each once, and no other; an empty target names none |
| Dispatch.Deps.FindVersion | internal/agent/tools.go:652-669 | the newest row of that collector with that id |
| Dispatch.Deps.DispatchRollbackContent | internal/agent/tools.go:675-701 | a failed push fails the task; otherwise a row and the finishing writes, each of which may be lost |
| Dispatch.Deps.DispatchRollback | internal/agent/tools.go:641-671 | without collector, content or version it returns an error and changes nothing |
| Dispatch.Deps.Serve | internal/agent/tools.go:612-623 | the loop skips failed pushes and leaves one row for every other target |
| Dispatch.Deps.DispatchGroup | internal/agent/tools.go:605-637 | no collector fails the task; otherwise exactly the collectors of its target are served and the task is finished |
| Dispatch.Deps.DispatchApprove | internal/agent/tools.go:584-638 | approval, the three kinds of task and every error return, whichever writes fail, with the collectors those of the task's target, each once |
| Dispatch.Deps.Push | internal/agent/tools.go:614-618 | hands one config over for one collector, logs it with what came of it, and returns that |
| Dispatch.Deps.GenerateYaml | internal/agent/tools.go:392-407 | the first usable answer of at most three attempts |
| Dispatch.Deps.DraftConfig | internal/agent/tools.go:334-375 | the task goes through generating and validating to awaiting_approval, or stops where a step or a write fails |
| Dispatch.Deps.Offer | internal/agent/tools.go:372-388 | a separate write puts the config on the task, which with approval off is dispatched at once to the collectors of its target |
| Dispatch.Deps.HandleGenerateConfig | internal/agent/tools.go:328-389 | without target or description nothing changes; otherwise the task is drafted, validated twice and offered, and it can only be served to the collectors matching target |
| Dispatch.Deps.HandleOptimizeConfig | internal/agent/tools.go:462-518 | the same for one known collector, validated once, served to the collectors matching uid |
| Dispatch.Deps.HandleApplyConfig | internal/agent/tools.go:521-546 | succeeds exactly with approval off, a valid config and some collector matching target, and then pushes to each of them once and records a row for each, refused or not |
| Dispatch.Deps.ApplyOne | internal/agent/tools.go:539-542 | one push without confirmation, and the row whatever comes of it |
| DispatchLaws.DispatchEnds | internal/agent/tools.go:584-701 | whichever writes fail: an approved task is done exactly when the dispatch succeeds; it stays in applying exactly when there was nothing to push, or the push was impossible and that could not be written, or done could not be written and marking it failed was lost or, for an upgrade, not tried; otherwise it is failed |
| DispatchLaws.DispatchLeaves | internal/agent/tools.go:584-701 | nothing changes in the tasks but status, approver and note of the approved one, and both are determined by what could be pushed and written |
| DispatchLaws.GenerateEnds | internal/agent/tools.go:328-389 | with approval off a drafted task stays in applying exactly when the write of its config was lost or, with no matching collector or done unwritten, that of failed; done, failed and awaiting_approval are characterised likewise |
| DispatchLaws.DraftLeaves | internal/agent/tools.go:334-375 | a draft adds one task, touches no other, and ends where the first step or write fails |
| DispatchLaws.DispatchPushes | internal/agent/tools.go:597-623 | an approval pushes exactly the config the task offers, in order, to the collectors it reaches, or nothing without one |
| DispatchLaws.ReachedExactly | internal/agent/tools.go:605-613 | those are exactly the collectors of the task's target, or the one of a rollback, each once |
| DispatchLaws.DispatchReaches | internal/agent/tools.go:605-623 | exactly the task's collectors whose push was accepted and row written have the config as newest version, and as stored effective config where one of its two writes succeeded; every other collector keeps both |
| DispatchLaws.RollbackInForce | internal/agent/tools.go:641-701 | a rollback to a row whose push is accepted and whose row is written puts that row's config in force |
| Dispatch.FirstUsableMeans | internal/agent/tools.go:394-406 | the result is the first of three answers that is there, not empty and valid, and there is none exactly when none of them is |
| ConfigApi.Handlers.ApplyTask | internal/api/apply.go:36-144 | a valid config for a known collector becomes a task that awaits approval, dispatched at once when approval is off; every other request changes nothing |
| ConfigApi.Handlers.RollbackTask | internal/api/handlers.go:494-609 | a version of the collector or a git file that validates becomes a rollback task that awaits approval; every other request changes nothing |
| RunLaws.HistoryAppendOnly | internal/agent/tools.go:717-728 | over every run version rows and pushes are only appended, and the ids of rows ascend, with or without gaps |
| RunLaws.OfferFixed | internal/agent/tools.go:641-671 | the config a task offers never changes: neither later requests nor new version rows touch it |
| RunLaws.ReviewedIsPushed | internal/agent/tools.go:584-638 | whenever a task showed a config, an approval at any later time pushes exactly that config to exactly the collectors that then belong to the task's target, or the one of a rollback, each once |
| RunLaws.ApprovalReaches | internal/agent/tools.go:265-283 | an approval in a run pushes a generated config to exactly the stored collectors whose uid or group is the task's target, and the file of a rollback to exactly its collector |
| RunLaws.OnlyValidatedPushed | internal/opampserver/server.go:249-255 | callers keep the demand of PushConfig: over every run each config pushed or recorded was accepted by the validator |
| RunLaws.PushOrigin | internal/agent/tools.go:521-524 | with REQUIRE_APPROVAL on, every push of a run stems from the approval of a task that was awaiting it, goes to a collector of that task and carries its config |
| RunLaws.RowOrigin | internal/agent/tools.go:715-728 | whatever pushes return, every version row was written by a step that pushed its config to its collector, and that push was not refused except exactly for rows of apply_config whose push was |
| RunLaws.RowsWerePushed | internal/agent/tools.go:715-728 | in every run whose pushes go through a running server, with approval on or off, every version row stems from a push that was sent or queued, not refused |
| RunLaws.NoTaskStuck | internal/agent/tools.go:624-627 | over every run that loses no finishing write, with a validator that refuses the empty config, no task is left in applying |
| RunLaws.StuckForEver | internal/agent/tools.go:624-627 | a task that is left in applying stays there, unchanged, for the rest of every run |
| RunLaws.RollbackRestores | internal/agent/tools.go:641-701 | whatever was newest at some time, a later rollback to it whose push is accepted puts exactly that config in force again, with anything in between |
| RequestLaws.ApplyConfigMeans | internal/agent/tools.go:521-546 | with approval off a valid config is pushed to exactly the stored collectors whose uid or group is the target and becomes the newest version of each whose row is written; otherwise nothing changes |
| RequestLaws.SubmissionMeans | internal/api/apply.go:36-144 | the exact conditions under which a config becomes a task, the whole row of that task, and what follows with approval off |
| RequestLaws.FindMeans | internal/agent/tools.go:652-669 | the search for a version finds the row of that collector with that id, and only that |
| RequestLaws.RollbackRequestMeans | internal/api/handlers.go:494-609 | the exact conditions under which a rollback becomes a task, and the whole row of that task |
| TaskHistories.OnePassPerTask | internal/task/task.go:125-148 | over every run of the tools and requests, one at a time, whichever status writes fail, each task's log is one pass through the machine of at most six events, and a done task was approved right before |
| TaskHistories.LateWriteIff | internal/agent/tools.go:372-377 | as a step of its own, the write of the whole row after a draft would keep the log in line with the table exactly when the status is still the one that was read |
| TaskHistories.ApprovalBetweenIsUndone | internal/agent/tools.go:372-377 | an approval in between is undone by that write, and the task can be approved once more |
| MessageLog.TurnAround | internal/store/sqlstore.go:666-671 | the in-place loop reverses the rows |
| MessageLog.ListMessages | internal/store/sqlstore.go:623-673 | the last rows below a cursor or the first after one, in ascending order, with the session's total |
| MessageLog.PageSize | internal/store/sqlstore.go:625-673 | a page has as many messages as were asked for, 50 by default, or all there are: the first after a cursor, otherwise the last |
| MessageLog.PageSplits | internal/store/sqlstore.go:637-643 | what lies below the oldest id of a page, followed by the page, is what the page was taken from |
| MessageLog.WalkReturnsAll | internal/store/sqlstore.go:617-673 | walking back from the tail returns every message present at the first call once and in order, whatever is appended between calls |
| MessageLog.RefreshExtends | internal/store/sqlstore.go:634-636 | asking after the last id seen extends what was seen without gap or repeat |
| TimeFilter.StampsOrdered | internal/store/sqlstore.go:230-234 | seconds are ordered as their Gregorian calendar stamps are |
| TimeFilter.BoundsOrdered | internal/store/sqlstore.go:230-234 | up to the year 9999 the 19-character texts of two times compare as their whole seconds do |
| TimeFilter.CutIsSecond | internal/store/sqlstore.go:236-241 | the first 19 characters of a stored time are its whole second, whatever its fraction, and the zero time has none |
| TimeFilter.ZeroIsYearOne | internal/store/sqlstore.go:236-241 | the zero time, stored as the empty text, is the start of the first of January of the year 1 |
| TimeFilter.FilterExact | internal/store/sqlstore.go:492-504 | for all times up to the year 9999 the filter selects the seconds from that of since to that of until, and for an upper bound in the very last second only those up to the year 1000 |
| TimeFilter.FilterCorrectIff | internal/store/sqlstore.go:492-504 | the filter selects what it promises for every stored time exactly when there is no upper bound in the last second of the year 9999 |
| TimeFilter.ZeroTimeListedIff | internal/store/sqlstore.go:236-241 | a task stored without a time is selected exactly when there is no lower bound |
| TimeFilter.LastSecondExists | internal/store/sqlstore.go:501-504 | an upper bound in that last second exists |
| TimeFilter.WholeSecondMisordered | internal/store/sqlstore.go:492-496 | uncut, the text of a whole second comes after every fraction of that second |
| OpsStats.TouchSpan | internal/api/stats.go:201-215 | the loop body creates a span for a new task and records the times of one event in it |
| OpsStats.Spans | internal/api/stats.go:189-215 | the single pass leaves for every task the first and last times that the whole log has for it, and the tasks in order of appearance |
| OpsStats.FirstTimeMeans | internal/api/stats.go:203-211 | a first time is that of a matching event before which no matching event has a time |
| OpsStats.Measure | internal/api/stats.go:223-239 | the durations one span adds, with the first event standing in for a missing applying |
| OpsStats.Durations | internal/api/stats.go:223-239 | the loop collects the durations of all spans in order |
| OpsStats.Summarize | internal/api/stats.go:254-271 | count, average, median and 90th percentile of the durations in milliseconds |
| OpsStats.ComputeOpsStats | internal/api/stats.go:165-251 | the loops compute the statistics that the tasks and the declarative spans define |
| StatsMeaning.StatsMean | internal/api/stats.go:165-251 | every field of the result, told by tasks and events alone: how long each task waited for its approval, took to dispatch and to roll back, each as often as there are tasks with that duration, and the counts and the rate |
| StatsMeaning.SummaryMeans | internal/api/stats.go:254-271 | a summary gives count, average and the 50th and 90th nearest-rank percentiles of the durations in whole milliseconds, and zeros without any |
| OpsStats.PercentileIsNearestRank | internal/api/stats.go:274-286 | the least element that at least p percent of the elements do not exceed |
| OpsStats.PercentileMonotone | internal/api/stats.go:274-286 | a higher percentile is never smaller |
| OpsStats.MedianAtMostP90 | internal/api/stats.go:254-271 | in every summary the median is at most the 90th percentile |
| OpsStats.SummaryOfPermuted | internal/api/stats.go:254-271 | a summary does not depend on the order of the durations |
| OpsStats.StatsUnchangedByReinterleaving | internal/api/stats.go:165-251 | the statistics do not change when the log is reinterleaved keeping each task's order |

## Left out

- Retry.GenerateContent: for a negative maxRetries the source returns a nil stream without an error, and reading it blocks for ever; the model returns nothing.
- StableChain.Generate: stands for a call with no other call beside it; the cache in front of it, which only adds hits, is modelled in ResponseCache.
- OpAmpServer.OpAmpServer.OnMessage: the config map of a message is one string, because the order in which several files are joined is that of a Go map.
- ConfigSubset.YamlSubset: mapping keys are strings, and a string that spells the printed form of a map or list never equals one.
- Dispatch.Deps.DispatchApprove: event writes succeed, and the texts of notes are reduced to two constants; what a push does to the queue and to the agent is in OpAmpServer and Confirm.
- Dispatch.Deps.Push: the outcome is a parameter, as no registry is read here; Delivery says which outcomes a running server allows, and RunLaws.BehindServer ties those of a run to it.
- Dispatch.Deps.HandleGenerateConfig: base snapshot, input text, model name and session of a task are not modelled, nor is the prompt; the first validation is a predicate of the text, the second may disagree with it.
- RunLaws.OnlyValidatedPushed: tasks are created by the modelled tools and requests; the demo data and edits of the database beside them are not.
- TaskHistories.OnePassPerTask: each request is handled as one atomic step; requests that overlap inside a handler are not covered but for LateWriteIff and ApprovalBetweenIsUndone, which show that the result does not extend to them.
- TaskLifecycle.EventsChain: needs every event to be written; a lost event breaks the chain, as nothing waits for it.
- TimeFilter.FilterExact: later years than 9999 are outside RFC 3339 and are not covered.
- OpsStats.ComputeOpsStats: the success rate is an exact quotient, not a rounded one.
- Service methods read and write a task without comparing versions; each of them, and each tool or request as a whole, is one atomic step here.
- Collector records are values in maps; handing out pointers to them, and writes through such pointers, are not modelled.
- The handler of upgrade_collector is a step of the runs only, and the audit log is not modelled.
- SQL text, paging of tasks, drivers, schema migration, HTTP handlers, sessions, protobuf, git and the otelcol binary are not modelled.
- Failed reads from the store are not modelled, and durations and counters do not overflow.
- diffText of web/src/lib/diff.ts relies on a library whose source is not part of this model.
