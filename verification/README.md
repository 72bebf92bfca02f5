# Verified models of the AFM core

AFM runs AI agents and keeps records of what they did. This project models the parts of it that hold the most state
and arithmetic, in the form the program has them: value transformations as functions and lemmas, objects with mutable
fields as classes, protocols as steps of a state machine whose invariants hold in every interleaving.

| module | what it is about |
|---|---|
| `NativeSchema` | the strict variant of a JSON Schema that a model is given, and turning its answer back |
| `Framing`, `CdpProxy` | cutting byte streams into pieces; the Chrome pipe framer and the request-id mapping of its proxy |
| `JobRecord`, `JobJournal`, `JobStore`, `JobContents` | the durable journal of agent jobs: records, replay, the store over a disk that may fail or lose power at any byte, and what the file says of what callers gave |
| `SharedRecords`, `JobRevisions`, `RevisionCaches` | snapshots that share the journal's storage, revisions that identify content, and the caches keyed by them |
| `Usage`, `Analytics`, `AnalyticsEntries`, `AnalyticsQuery`, `UsageTotals`, `StageSnapshot`, `TaskCosts`, `Folding` | joining two usage ledgers with the journal, filtering and grouping, what a stage froze, cost of task subtrees; `Folding` holds the general sums |
| `Outbox`, `OutboxService` | the Telegram outbox as a protocol, and its operations as the service runs them |
| `MeshBridge` | the bridge between the agent mesh and the Assistant |
| `ChromeSessions` | who launches, owns and closes each stage's Chrome |
| `TaskTree` | the required gate over the task tree, from below and from above |
| `SkillMounts` | choosing mounts that make skill libraries visible in a container |
| `FakeClock` | the test clock |
| `MessageSplit` | splitting text for Telegram by UTF-16 code units |

What the outside world does (disks, the network, other goroutines) is a parameter of a step or an arbitrary choice
inside a method, so every statement holds for all outcomes. JSON encoding of journal records is a parameter `Codec`
with the assumption `Faithful` (encoding an acceptable record gives a clean line that decodes to it).

Where the code does less than its comments or its tests suggest, the model follows the code and states exactly when the
promise holds:

- The strict variant of a JSON Schema accepts some answers that stay invalid after the pass. Node by node the causes
  are: a required name without a property of its own (`RequiredExact`); an enum or constant of which the variant accepts
  a value that the pass turns into an unlisted one, such as an object with null fields, or a constant outside the enum
  beside it, because the variant gives that enum up (`ValuesExact`, `ConstOutsideEnum`, `ObjectEnumFails`); an optional
  property that is read as taking null and does not, such as one pinned to another constant (`NullsExact`,
  `PinnedNullExact`); an anyOf branch below which a property can be null and be taken out, since the pass does not look
  into branches (`BranchExact`, `BranchPropertiesExact`, `BranchPropertiesFail`); and an anyOf whose every branch asks
  for a name that the pass may take out (`BranchRequiredExact`). Each of these lemmas is an equivalence for schemas
  sound otherwise, and `StrictSound` covers what has none of them.
- A journal fact reported as stored survives every later power loss exactly when the Open that created the file
  returned without an error, or the file was found again after a loss: a failed directory sync latches that store only,
  and the next Open does not repeat it (`AcknowledgedSurviveExact`, `AcknowledgedMayVanish`).
- In a journal whose directory entry is durable, a fact reported as a repeat is durable exactly when an Append has been
  accepted since the present Open (`RepeatDurable`, `RepeatMayBeLost`, `RepeatDurableExact`).
- Usage records are folded once exactly when no job has two beginnings (`FoldsEveryRecordOnce`), and totals show all
  tokens exactly when no unmetered record carries some (`TotalsConserveTokens`).
- A finish after the moment of a stage picture leaves the picture alone exactly for jobs of the present run
  (`LateEndExact`).
- The outbox mark that precedes every send survives a power loss exactly when a directory sync has succeeded since it
  was set; without it an item can be failed as never sent although it was taken (`MarkOutlastsPowerLossExact`,
  `SentButFailed`). A failed item can come back while it is being delivered (`FailedMayComeBack`).
- A pipe message over the limit is refused only if a read leaves it unfinished in the buffer, so it depends on how the
  reads fall; `LimitExact` says for which streams no division is refused.

## Model

| member | source | states |
|---|---|---|
| NativeSchema.StrictSound | schema/native.go:161-248 | every answer the strict variant of a supported schema accepts is, once the rejected nulls are dropped, valid under the schema itself |
| NativeSchema.AnswerExact | schema/native.go:161-318 | for a node supported but for its required names and listed values, a single answer comes back valid if and only if all required names have properties and the answer becomes a listed value |
| NativeSchema.RequiredExact | schema/native.go:182-200 | for a node supported otherwise an answer comes back valid if and only if, should it be an object, every required name has a property |
| NativeSchema.ValuesExact | schema/native.go:161-200 | for a node supported otherwise every answer comes back valid if and only if each enum value or constant its variant accepts becomes a listed value |
| NativeSchema.ConstOutsideEnum | schema/native.go:165-174 | a reachable constant makes answers come back valid if and only if the enum beside it lists it |
| NativeSchema.NullsExact | schema/native.go:204-248 | for an open node that accepts an object, every answer comes back valid if and only if each optional property read as taking null, and whose variant does, takes it itself |
| NativeSchema.PinnedNullExact | schema/native.go:165-174 | for an optional property with a constant, null is harmless exactly unless the property's other keywords accept null and the constant is not null |
| NativeSchema.BranchExact | schema/native.go:178-184 | with a single anyOf branch every answer comes back valid if and only if no answer to the branch's variant holds a null the pass would have dropped outside a branch |
| NativeSchema.BranchPropertiesExact | schema/native.go:178-184 | if such nulls are within reach of an answer, every answer comes back valid if and only if each property below the branch is required, takes null or cannot be null |
| NativeSchema.BranchRequiredExact | schema/native.go:178-200 | with branches that ask for names beside properties, every answer comes back valid if and only if some branch asks only for properties that are never taken out |
| NativeSchema.BranchPropertiesFail | schema/native.go:178-184 | the smallest instance: one optional property inside a branch, for any name, and an answer that stays invalid |
| NativeSchema.ObjectEnumFails | schema/native.go:161-200 | the smallest instance for enums: a listed object with a null field, and the answer that stays invalid |
| NativeSchema.StrictComplete | schema/native.go:161-226 | the variant loses no valid value that has only named fields where the variant closes an object: filling absent properties with null makes it acceptable |
| NativeSchema.FillRoundTrip | schema/native.go:288-318 | filling such a value with nulls and dropping them again gives the value back, when no property takes null on its own account |
| NativeSchema.AnswersExact | schema/native.go:161-318 | the answers that come back from the strict variant are exactly the valid values that have only named fields where the variant closes an object |
| NativeSchema.DropLeavesValid | schema/native.go:290-318 | an answer valid under the schema is never changed |
| NativeSchema.DropIdempotent | schema/native.go:290-318 | dropping rejected nulls twice changes nothing more |
| NativeSchema.DropRejectedNulls | schema/native.go:290-318 | the pass removes, at every depth, exactly the null fields their property rejects, and reports whether it removed any |
| NativeSchema.StrictNode | schema/native.go:161-202 | the keyword-by-keyword rewriting gives the strict variant the lemmas are about, whatever the order of the properties |
| NativeSchema.StrictProperties | schema/native.go:187-197 | each property is rewritten, and may be null exactly if it was optional |
| NativeSchema.SharedValueType | schema/native.go:102-116 | finds the one type all listed values have, or says that there is none |
| NativeSchema.TypedKeepsMeaning | schema/native.go:70-98 | adding the type of an untyped enum or constant changes no verdict |
| NativeSchema.TypedConstAgrees | schema/native.go:70-98 | after typing, a scalar constant of an untyped node can no longer be confused with null |
| NativeSchema.NativeAnswerValid | schema/native.go:51-66 | the two steps together: an answer accepted by the derived schema is valid under the contract after normalisation, which is stable |
| NativeSchema.ContractAnswerUntouched | schema/native.go:264-286 | an answer that meets the contract already passes normalisation unchanged |
| Framing.CutAppend | pkg/browser/proxy.go:33-53 | cutting a stream in two goes, carrying the rest over, is cutting it once |
| Framing.CutJoin | pkg/browser/proxy.go:56-61 | terminating pieces and cutting them apart again gives the pieces back |
| Framing.CutSound | pkg/browser/proxy.go:33-53 | the pieces and the rest together are the whole stream |
| CdpProxy.PipeFramer.FeedChecked | pkg/browser/proxy.go:33-53 | one read emits exactly the messages it completes and keeps the rest, and fails if and only if the rest is over the limit |
| CdpProxy.FramesRoundTrip | pkg/browser/proxy.go:56-61 | the concatenated frames of NUL-free messages are read back as those messages, in order, with nothing left over |
| CdpProxy.ChunkIndependent | pkg/browser/proxy.go:33-53 | however a stream is divided into reads, without an error the messages are its NUL-split and the buffer is its remainder |
| CdpProxy.LimitExact | pkg/browser/proxy.go:33-53 | no division of a stream into reads fails if and only if every message in it and its remainder fit the limit |
| CdpProxy.Proxy.FromClient | pkg/browser/proxy.go:89-109 | a request with an id gets the next global id, is forwarded under it with its own body, and is remembered with its client and own id; anything else passes unchanged |
| CdpProxy.Proxy.FromChrome | pkg/browser/proxy.go:113-141 | a known id, a null one counting as 0, goes to its client with the client's id and is forgotten, an unknown one is dropped, a message without an id is broadcast |
| CdpProxy.Proxy.Disconnect | pkg/browser/proxy.go:145-153 | exactly the pending requests of that client are forgotten |
| CdpProxy.PendingExact | pkg/browser/proxy.go:89-153 | in every run the pending table is exactly the requests still owed an answer |
| CdpProxy.RoutingExact | pkg/browser/proxy.go:113-141 | in every run a response reaches one client if and only if that client's request is owed it, with its own id restored, and is never broadcast |
| CdpProxy.IssuedOnce | pkg/browser/proxy.go:89-109 | no global id is given to two requests |
| CdpProxy.RoundTrip | pkg/browser/proxy.go:89-141 | after any run, the first answer under the id that was forwarded to Chrome goes to the requesting client alone, with its own id and the answer's body, unless it left |
| CdpProxy.WithoutID | pkg/browser/proxy.go:89-121 | a message without an id is forwarded and broadcast as it is and leaves no trace |
| CdpProxy.StrangeID | pkg/browser/proxy.go:119-134 | in every run a pipe message whose id is no 64-bit integer is broadcast as it is, but one whose id is null is dropped |
| CdpProxy.AnsweredAtMostOnce | pkg/browser/proxy.go:113-141 | a second response with the same id is dropped |
| CdpProxy.NothingAfterDisconnect | pkg/browser/proxy.go:145-153 | a response to a client that has left is dropped |
| JobRecord.ClipBytes | pkg/agentjobs/record.go:169-178 | the loop lowering the cut finds the longest prefix within the limit that splits no encoded character |
| JobRecord.ClipKeepsRunes | pkg/agentjobs/record.go:169-178 | clipping the encoding of a text gives the encoding of a prefix of the text |
| JobRecord.KeptAsExact | pkg/agentjobs/record.go:127-178 | the stored form has the record's kind, job, labels, outcome, duration, segment and instants, in UTC, its title cut to 120 characters and its reason to the whole runes within 64 bytes, and nothing else has |
| JobRecord.NormalizedIdempotent | pkg/agentjobs/record.go:127-133 | normalising a normalised record changes nothing, which replay relies on |
| JobJournal.AddedSound | pkg/agentjobs/journal.go:81-103 | adding a record classified as new keeps records and facts in bijection and never gives a job both started and start_failed |
| JobJournal.ScanSound | pkg/agentjobs/journal.go:134-200 | every journal that any file replays to has these properties |
| JobJournal.ScanGrows | pkg/agentjobs/journal.go:183-200 | reading on only adds records and reasons |
| JobJournal.Replay | pkg/agentjobs/journal.go:134-161 | the loop over the bytes yields the journal of the complete lines and the offset just past the last of them |
| JobJournal.Journal.TakeLine | pkg/agentjobs/journal.go:164-181 | one line is skipped, read as the header, ends the reading, or is replayed as a record, as the line scan says |
| JobJournal.Journal.ReplayLine | pkg/agentjobs/journal.go:183-200 | one complete line adds its record, repeats one, or leaves a reason |
| JobStore.CrashAtAnyByte | pkg/agentjobs/store.go:35-148 | whatever byte a crash cuts an append at, reopening recovers the earlier facts, and the new one exactly if its whole line was written, and the store is ready to go on |
| JobStore.BootReady | pkg/agentjobs/store.go:35-71 | from any file content and with any failure, opening gives a store whose memory and file agree, or one that refuses writes |
| JobStore.PutReady | pkg/agentjobs/store.go:116-148 | every append keeps memory and file in agreement |
| JobStore.RunDurable | pkg/agentjobs/store.go:35-175 | over all runs of starts, appends, stops, crashes and power losses that may take the file, the file holds every fact acknowledged since it was made and nothing that was never appended, and obeys the journal's rules |
| JobStore.AcknowledgedSurviveExact | pkg/agentjobs/store.go:73-82 | in any run all acknowledged facts outlive every next power loss if and only if the Open that created the file returned no error, or the file was there after an earlier loss |
| JobStore.ForgottenWithTheFile | pkg/agentjobs/store.go:73-82 | an acknowledged fact is lost in no other way than with the whole file, in a power loss before its directory entry was durable |
| JobStore.AcknowledgedMayVanish | pkg/agentjobs/store.go:35-82 | for any fact: a failed directory sync, a restart that reports no error, an accepted append, and a power loss that takes the file |
| JobStore.RepeatDurable | pkg/agentjobs/store.go:116-148 | in every run a repeat outlives any power loss once an append has been accepted since the present Open |
| JobStore.RepeatMayBeLost | pkg/agentjobs/store.go:116-148 | for any fact: written but not synced, recovered by the next Open, repeated with success, and lost in a power loss |
| JobStore.RepeatDurableExact | pkg/agentjobs/store.go:116-148 | over all runs of a secured journal, every repeat is durable if and only if an append has been accepted since the present Open |
| JobStore.File.Write | pkg/agentjobs/store.go:106-111 | a write puts down all of the line, or a part of it, or all of it without syncing, and reports success only in the first case |
| JobStore.Store.Append | pkg/agentjobs/store.go:116-148 | the method does to the file and to the journal what the specification says; an accepted record is the last one, kept with every field of it, and a write failure latches the store |
| JobStore.Store.Close | pkg/agentjobs/store.go:165-175 | closing keeps what was read and refuses later appends |
| JobStore.Open | pkg/agentjobs/store.go:35-71 | opening an existing or a new file, with any failure, gives the specified disk, directory entry and store |
| JobStore.OpenExisting | pkg/agentjobs/store.go:35-71 | a file with a header is truncated to its complete lines and continued |
| JobStore.OpenAnew | pkg/agentjobs/store.go:35-82 | a file without a header is restarted with one, written and synced before anything else; only a successful directory sync makes its entry durable |
| JobContents.AppendExact | pkg/agentjobs/store.go:116-148 | from the record as given and the records there: when an Append is invalid, a repeat, a conflict or accepted, and that the new record is the given one |
| JobContents.FileWasGiven | pkg/agentjobs/store.go:35-175 | in every run each record of the file is one given to Append, with every field of it |
| JobContents.AcceptedIsLast | pkg/agentjobs/store.go:116-148 | in every run an accepted record is the last of the file, with every field of it, and acknowledged |
| JobContents.HeaderWasGiven | pkg/agentjobs/store.go:35-82 | in every run the file's header holds the start and the offset some Open was given |
| JobContents.HeaderStays | pkg/agentjobs/store.go:35-175 | nothing but a power loss changes a header once written |
| SharedRecords.Append | pkg/agentjobs/journal.go:100-103 | an append writes in place only beyond the visible items, and otherwise moves to new storage |
| SharedRecords.RecordList.Add | pkg/agentjobs/journal.go:100-103 | a record added later never shows in, and never changes, a snapshot taken before |
| SharedRecords.RecordList.Snapshot | pkg/agentjobs/journal.go:122-130 | a snapshot shows the records so far without copying, with no room to append in place |
| SharedRecords.RecordList.AppendToWindow | pkg/agentjobs/journal.go:120-130 | what a holder appends to a snapshot lands in storage of its own and disturbs neither journal nor snapshots |
| JobRevisions.RevisionDeterminesContent | pkg/agentjobs/journal.go:122-130 | over a session of appends revisions never decrease, snapshots only extend, and equal revisions mean equal records and health |
| JobRevisions.PutExtends | pkg/agentjobs/store.go:116-148 | one append, whatever its outcome, extends the content, and changes the revision exactly if it changes the content |
| RevisionCaches.LaterRevision | pkg/accounting/store.go:132-174 | each revision of the usage store is one record more or its end, so two revisions never have the same content |
| RevisionCaches.DisciplinedExact | pkg/accounting/analytics_cache.go:62-106 | a store can serve as a source of the cached facts if and only if its revisions never fall and one revision has one content |
| RevisionCaches.UsageIsSource | pkg/accounting/store.go:132-174 | every history of the usage store is of that kind, and no two of its revisions have one content |
| RevisionCaches.JobsAreSource | pkg/agentjobs/journal.go:122-130 | every session of the job store is of that kind: its snapshots of one revision show the same header, records and health |
| RevisionCaches.UsageStore.AppendRecord | pkg/accounting/store.go:132-167 | a record counts only once encoded, written and synced, and then takes one revision; the first failure ends the store and takes one |
| RevisionCaches.UsageStore.MarkUnavailable | pkg/accounting/store.go:170-174 | the end of the store takes a revision and keeps the records |
| RevisionCaches.UsageStore.Publish | pkg/accounting/provider.go:63-69 | a built bundle is cached only while its revision is current, and the cached revision never goes back |
| RevisionCaches.UsageStore.CostSnapshot | pkg/accounting/provider.go:42-72 | whatever others append or cache meanwhile, the result is the bundle of one revision's content, current at some time during the call |
| RevisionCaches.Analytics.Facts | pkg/accounting/analytics_cache.go:62-106 | under any interleaving the facts are built from the contents at revisions that were current during the call, cached or not |
| RevisionCaches.Analytics.Locked | pkg/accounting/analytics_cache.go:79-105 | under the lock a matching key returns the cached facts, otherwise they are rebuilt from usage read again |
| Usage.Summarize | pkg/accounting/ledger.go:254-284 | the summary holds the sums, the counts and the models of the records, and is priced only if there is a metered record and every one has a price |
| Usage.ModelsExact | pkg/accounting/ledger.go:254-284 | every model named is listed once, in the order of first mention |
| Usage.MeasureUnordered | pkg/accounting/ledger.go:254-284 | a sum over records depends on which records there are, not on their order |
| Analytics.BuildFacts | pkg/accounting/analytics.go:289-352 | the builder's loops give the join of journal and ledgers, in which every entry's agent is registered |
| Analytics.BuiltAttributed | pkg/accounting/analytics.go:569-655 | whatever the ledgers and the journal hold, every entry's agent is registered, so no query meets an unknown one |
| AnalyticsEntries.EntriesDescribeSources | pkg/accounting/analytics.go:289-457 | the facts hold, in order, one entry for each beginning of a job and each usage record of no known job, and each says of its source which agent and stage it belongs to, when it was, how it ended and with what model |
| AnalyticsEntries.AgentsDescribeSources | pkg/accounting/analytics.go:569-682 | every agent has an entry, is of the kind the metadata names or else its first source, and is outside the run's total exactly if that kind is the Assistant's |
| Analytics.EntriesFoldSources | pkg/accounting/analytics.go:356-457 | entry by entry, the facts fold the records claimed by a job or left as a record of their own |
| Analytics.FoldsEveryRecordOnce | pkg/accounting/analytics.go:356-457 | every record of both ledgers is folded exactly once if and only if no job with usage has two beginnings |
| Analytics.NextBase | pkg/accounting/analytics.go:507-540 | the next recording segment is the least later base |
| Analytics.DropOverlappingOffsets | pkg/accounting/analytics.go:507-540 | offsets are dropped exactly for entries that reach into the next segment |
| AnalyticsQuery.MatchEntry | pkg/accounting/analytics_query.go:180-208 | the filter, one test after the other, decides whether an entry matches |
| AnalyticsQuery.Select | pkg/accounting/analytics_query.go:169-178 | the selection holds exactly the matching entries, in order, and their agents are known |
| Folding.KeepExact | pkg/accounting/analytics_query.go:169-178 | a selection holds every occurrence of the elements wanted and no other |
| AnalyticsQuery.Accumulator.Add | pkg/accounting/analytics_query.go:264-293 | adding an entry adds its share to every counter, duration, token category and cost |
| AnalyticsQuery.MetricsOf | pkg/accounting/analytics_query.go:295-318 | the metrics of entries are the sum of their shares |
| AnalyticsQuery.SumBacked | pkg/accounting/analytics_query.go:264-310 | a sum shows tokens, duration or cost only when an entry counted for them |
| AnalyticsQuery.FiguresExact | pkg/accounting/analytics_query.go:218-310 | every counter, duration and token category of a sum is the amount of what each entry adds to it by itself |
| AnalyticsQuery.TimeFiguresExact | pkg/accounting/analytics_query.go:218-280 | a sum counts the jobs and those running, and adds up what they took: as measured, or since their start, never less than nothing |
| AnalyticsQuery.CostIsAmount | pkg/accounting/analytics_query.go:264-293 | the cost of a sum is that of its metered and priced entries |
| AnalyticsQuery.Totals | pkg/accounting/analytics_query.go:333-336 | totals cover exactly the selected entries inside the run's total |
| AnalyticsQuery.Outside | pkg/accounting/analytics_query.go:339-346 | the outside metrics cover exactly the others |
| AnalyticsQuery.Rows | pkg/accounting/analytics_query.go:350-389 | one row for each key among the entries shown, with the metrics of its entries |
| AnalyticsQuery.RowsAddUp | pkg/accounting/analytics_query.go:333-389 | model rows add up to the totals and agent rows to totals plus outside, in every counter, duration, category and cost |
| AnalyticsQuery.RowIsDrillDown | pkg/accounting/analytics_query.go:169-389 | a row of the breakdown shows what selecting its agent, or inside the run's total its model, shows |
| AnalyticsQuery.ScopeExact | pkg/accounting/analytics_query.go:180-208 | an entry matches a narrow scope if and only if it is the entry's own |
| AnalyticsQuery.ScopesPartition | pkg/accounting/analytics_query.go:197-208 | stages, run-wide and unattributed entries together sum to all entries |
| UsageTotals.EntriesHoldLedgers | pkg/accounting/analytics.go:316-457 | the entries hold exactly the tokens of both ledgers |
| UsageTotals.TotalsConserveTokens | pkg/accounting/analytics_query.go:264-346 | totals and outside together show the ledgers' tokens if and only if no entry without metered records carries tokens |
| StageSnapshot.Snapshot | pkg/accounting/analytics_stage.go:48-155 | the loop counts the stage's jobs by class and sums its usage as of a moment, and the picture claims what the two rules below say |
| StageSnapshot.JobsAtExact | pkg/accounting/analytics_stage.go:48-90 | the counts are those of jobs begun by the moment, ended by it, and under way, and the duration is that of the ended ones |
| StageSnapshot.UsageAtExact | pkg/accounting/analytics_stage.go:48-90 | the tokens are those of metered entries of the stage that are not of a job begun later or under way, and the counts are theirs |
| StageSnapshot.CompleteExact | pkg/accounting/analytics_stage.go:92-119 | the job part is complete, and silent about reasons, if and only if the journal saw the whole stage and nothing is running, interrupted or about to start |
| StageSnapshot.FigureExact | pkg/accounting/analytics_stage.go:121-155 | when tokens are shown, when they are full or partial, and that no reason is given exactly for a full figure |
| StageSnapshot.FactsEndMeasured | pkg/accounting/analytics.go:390-409 | every finished job of built facts has the measured end the snapshot relies on |
| StageSnapshot.JobsFromJournal | pkg/accounting/analytics_stage.go:48-109 | the job part of a picture depends on the journal alone, not on usage or placing |
| StageSnapshot.StageFrozen | pkg/accounting/analytics_stage.go:48-109 | later starts, and later finishes of live jobs, leave count, classes and duration of the picture unchanged |
| StageSnapshot.CompleteIsFinal | pkg/accounting/analytics_stage.go:19-31 | after a complete picture nothing recorded later, from live jobs or not, changes its job part |
| StageSnapshot.LateEndExact | pkg/accounting/analytics.go:390-409 | a finish after the moment leaves a job's class alone if and only if the job is live |
| TaskCosts.Walk.SubtreeOf | pkg/accounting/ledger.go:194-216 | the memoised recursion returns the sum over the task's subtree, whatever was memoised before |
| TaskCosts.Walk.SubtreeOfAny | pkg/accounting/ledger.go:194-216 | the recursion ends on every parent map, cyclic ones included |
| TaskCosts.OwnCosts | pkg/accounting/ledger.go:174-184 | the loop over the records gives each task its own cost, and whether all of it is known |
| TaskCosts.ChildLists | pkg/accounting/ledger.go:186-189 | the lists built from the parent map, in whatever order, hold each child once under its parent |
| TaskCosts.ComputeTaskCosts | pkg/accounting/ledger.go:174-228 | from records and parent map alone, in whatever order the maps are read, every task with a record or a parent gets its own cost and the total of its subtree |
| TaskCosts.SubtreeCountsDescendantsOnce | pkg/accounting/ledger.go:174-228 | a subtree holds exactly the task's descendants, each once |
| TaskCosts.TopLevelTasks | pkg/accounting/ledger.go:165-168 | a task is top-level if and only if it is absent from the parent map or mapped to the empty string |
| TaskCosts.TopsPartition | pkg/accounting/ledger.go:165-228 | every task is below exactly one top-level task, whichever way that one is marked |
| TaskCosts.TopTotalsAddUp | pkg/accounting/ledger.go:165-228 | the totals of the top-level tasks, absent or mapped to the empty string, add up to all own costs |
| TaskCosts.OwnCostsAddUp | pkg/accounting/ledger.go:174-184 | the own costs of all tasks are the costs of the records that name a task, each counted once |
| TaskCosts.TopTotalsAreTheRecords | pkg/accounting/ledger.go:165-228 | the totals of the top-level tasks are the costs of all records that name a task |
| Outbox.EveryAttemptIsTheSame | telegram-bot/sync.go:60-135 | across retries, restarts and power losses every attempt of an item is the same request under the item's own ID |
| Outbox.RequestsAskWhatWasQueued | telegram-bot/sync.go:109-137 | in every run each attempt and each message the receiver keeps says, field by field, what was asked when its item was queued |
| Outbox.ItemsStayWhatWasQueued | telegram-bot/sync.go:60-163 | whatever becomes of an item, its run, kind, content and recipients are those it was queued with |
| Outbox.AtMostOneMessage | telegram-bot/sync.go:109-143 | with a receiver that recognises request IDs at most one message exists for an item, with the content that was queued |
| Outbox.AcceptedIsTrue | telegram-bot/sync.go:144-162 | an item shown as accepted or replied was taken under the message ID and in the thread it shows, and only such an item shows a message ID |
| Outbox.AcceptanceExact | telegram-bot/sync.go:144-162 | acceptance shows at the recipients, the stage of a discussion and the attached participant, and at nobody else |
| Outbox.RunFailedExact | telegram-bot/connect.go:90-105 | a changed run fails its unanswered items with all their recipients and leaves the others |
| Outbox.RepliedExact | telegram-bot/sync.go:377-395 | an item the receiver took is replied if and only if there are recipients and all of them replied; every recipient is accounted for, and marked failed when the item failed |
| Outbox.RepliedWasRead | telegram-bot/sync.go:372-465 | in every run, with restarts and power losses, a recipient shown as replied has had a reply to that very message read, and a replied item one from each recipient |
| Outbox.ReadIsShown | telegram-bot/sync.go:372-465 | a reply that is read and saved shows at the item it answers |
| Outbox.NoSendBeforeTheMark | telegram-bot/sync.go:103-107 | in every run, also across process crashes, a request leaves only when the visible file says the item was attempted |
| Outbox.MarkOutlastsPowerLossExact | telegram-bot/store.go:221-282 | the mark survives every possible power loss if and only if a directory sync has succeeded since it was set |
| Outbox.SentIsNeverIneligible | telegram-bot/sync.go:77-102 | unless a power loss took an update back, an item that was ever sent is never failed by the checks made before a first attempt |
| Outbox.SentButFailed | telegram-bot/store.go:221-282 | any item that can be sent can be taken by the receiver and still be failed as unsent, by a power loss after an unsynced mark |
| Outbox.StatusMoves | telegram-bot/sync.go:62-163 | an accepted item stays accepted or becomes replied, a replied one stays, a failed one stays unless it is being delivered |
| Outbox.FailedMayComeBack | telegram-bot/connect.go:53-64 | a registration that fails an item between its loading and its marking does not stop the delivery |
| OutboxService.Bot.Deliver | telegram-bot/sync.go:62-163 | one delivery, with the store updates that resolving its run makes, performs exactly the protocol's steps for its circumstances, in order |
| OutboxService.Bot.Resolve | telegram-bot/connect.go:76-117 | what resolving the run writes: nothing, the time and state of its connection, or the failing of a changed run's items |
| OutboxService.Bot.Decide | telegram-bot/sync.go:62-108 | for a resolved run the item is given up, failed or marked and sent, as the checks say |
| OutboxService.Bot.Proceed | telegram-bot/sync.go:103-108 | an eligible item is marked first, and attempted only when the marking was saved completely |
| OutboxService.Bot.Attempted | telegram-bot/sync.go:109-162 | the request is made and its answer recorded as acceptance, failure or nothing |
| OutboxService.OutcomeExact | telegram-bot/sync.go:62-163 | an eligible item is accepted if it was taken and the answer heard, failed if refused and heard, and otherwise stays unknown, after exactly one attempt and with no other item changed |
| OutboxService.CheckItem | telegram-bot/sync.go:74-102 | the checks one after the other give the verdict, and apply only before a first attempt |
| OutboxService.CheckExact | telegram-bot/sync.go:74-102 | exactly when a first attempt is ruled out, put off or made; a replay is never checked |
| OutboxService.Bot.Update | telegram-bot/store.go:221-282 | memory follows the visible file: unchanged before the rename, changed after it even when an error is returned |
| OutboxService.Bot.SetOutbound | telegram-bot/actions.go:534-544 | one item is replaced, or nothing when it is missing |
| OutboxService.Bot.ProcessReply | telegram-bot/sync.go:372-465 | a reply from the mesh or a discussion is recorded at every item it answers, and turns an item replied when it was the last one missing |
| OutboxService.Bot.FailRunItems | telegram-bot/connect.go:53-64 | a changed run fails exactly its items that are queued or unknown |
| MeshBridge.Bridge.Reconcile | cmd/afm/run_side_agent_mesh.go:123-305 | one pass keeps the invariant, never moves the cursor back, admits at most one turn, answers only what the journal says, reports idle only when every foreign message found at its start has its outcome, and stops short only for a failed call, a busy Assistant or a turn under way |
| MeshBridge.Bridge.ReconcileAvailable | cmd/afm/run_side_agent_mesh.go:148-252 | the cursor passes a foreign message only with a side reply, a failure mark, or a finished turn and closed receipt for an automatic result, and all replies sent fit the journal at one moment of the pass |
| MeshBridge.Bridge.WorkPage | cmd/afm/run_side_agent_mesh.go:168-240 | a page is worked through in order up to the first message that has to wait |
| MeshBridge.Bridge.Settle | cmd/afm/run_side_agent_mesh.go:169-238 | one message reaches its durable outcome, or the pass stops there for cause, having started at most its turn |
| MeshBridge.Bridge.ReconcileUnavailable | cmd/afm/run_side_agent_mesh.go:258-305 | without the Assistant's journal every foreign message is answered with an apology, marked failed or, if an automatic result, released, unless a call failed |
| MeshBridge.Bridge.PublishTerminal | cmd/afm/run_side_agent_mesh.go:358-399 | the text of a completed turn is sent if it is not blank and the failure text otherwise, and success means a side reply in the thread or a failure mark |
| MeshBridge.MeshPort.SendReply | cmd/afm/run_side_agent_mesh.go:372-384 | done means one new reply to the message's sender with exactly the given body, and the first to that message |
| MeshBridge.Bridge.HasSideTerminal | cmd/afm/run_side_agent_mesh.go:339-356 | a yes rests on a reply of the Assistant to that message in its thread, on whatever page |
| MeshBridge.Bridge.constructor | cmd/afm/run_side_agent_mesh.go:35-57 | a new bridge starts at cursor zero with the invariant, from the journals alone |
| MeshBridge.TurnOfSource | cmd/afm/run_side_agent_mesh.go:172-230 | a source has at most one turn ever, which was asked the message's text in its thread on behalf of its sender, and everything before it in the inbox has its outcome |
| MeshBridge.Lives | cmd/afm/run_side_agent_mesh.go:94-118 | over any number of bridges and passes the invariant holds, there are at most as many new turns as passes, and each reply sent is the first to its source and is the text of its turn, the failure text for want of one, or the apology |
| MeshBridge.SideMeshTurns | cmd/afm/run_side_agent_mesh.go:312-337 | one pass over the journal gives the turns of sources and the outcomes of turns |
| MeshBridge.TurnsExact | cmd/afm/run_side_agent_mesh.go:318-323 | a source has the last turn accepted for it, and one exactly if some was |
| MeshBridge.OutcomesExact | cmd/afm/run_side_agent_mesh.go:324-334 | a turn has the outcome of its last end, with the last text before it if it completed |
| MeshBridge.BoundedExact | cmd/afm/run_side_agent_mesh.go:401-413 | a text is sent as it is if it fits, and otherwise as many whole characters of it as leave room for the mark, which is within the limit |
| MeshBridge.OutcomeMeans | cmd/afm/run_side_agent_mesh.go:312-337 | the outcome found for a source is the last non-blank text before the last end of its last turn, if that completed, and there is no other |
| MeshBridge.PageMessages | pkg/orchestrator/agentcomm_messages.go:577-594 | a page holds the first messages after the cursor, in order, without a gap |
| ChromeSessions.ClosedExactlyOnce | pkg/browser/session.go:189-214 | in every interleaving no Chrome is closed twice, an open one has exactly one owner, and a closed session's is closed once launcher and closer are through |
| ChromeSessions.ClosedByItsOwner | pkg/browser/manager.go:199-212 | a Chrome is closed by its launcher exactly when the session was closed before the handoff, and otherwise by the session's closer |
| ChromeSessions.NothingLeaksAfterClose | pkg/browser/manager.go:255-284 | after the manager's Close, with no launch or teardown under way, every Chrome ever launched was closed once |
| ChromeSessions.EvictionSparesOthers | pkg/browser/manager.go:245-251 | a mapping disappears only for its own session, torn down or failed, or with the manager's Close |
| ChromeSessions.FailureIsNotCached | pkg/browser/manager.go:214-251 | once a client waiting on a failed session was turned away, in every continuation that session is off the table and nobody who connects waits on it |
| ChromeSessions.ConnectFindsTheLiveSession | pkg/browser/manager.go:163-184 | a client never binds to a session past its eviction, and two sessions of one key are never both alive |
| ChromeSessions.LaunchComesUp | pkg/browser/manager.go:193-213 | a launch that succeeds gives an open session a fresh Chrome of its own |
| ChromeSessions.WaitingIsServed | pkg/browser/session.go:45-58 | a client waiting on a session that is up and open is served by it |
| ChromeSessions.NoClientOnClosedSession | pkg/browser/session.go:45-58 | no client stays attached to a closed session with an open socket, and a late registration is turned away |
| ChromeSessions.RunKeeps | pkg/browser/manager.go:163-284 | the invariant behind these results holds after every run of steps |
| ChromeSessions.Session.HandOff | pkg/browser/manager.go:199-209 | under the lock the launcher keeps its Chrome exactly if the session is closed |
| ChromeSessions.Session.TakeForClosing | pkg/browser/session.go:193-196 | under the lock the closer closes the session and takes the connection stored so far |
| ChromeSessions.Session.Register | pkg/browser/session.go:47-57 | a client is listed, or finds its socket closed |
| ChromeSessions.Session.DetachClients | pkg/browser/session.go:204-209 | every listed client's socket is closed and later registrations are refused |
| ChromeSessions.Manager.FindOrCreate | pkg/browser/manager.go:163-184 | the mapped session or a new one, unless the manager is closed |
| ChromeSessions.Manager.EvictSession | pkg/browser/manager.go:245-251 | removes the session only while it is the mapped one |
| ChromeSessions.Manager.TakeSessions | pkg/browser/manager.go:255-266 | the first Close takes all sessions, a second none |
| TaskTree.ValidateTree | pkg/assistants/tree.go:61-86 | accepts exactly when every task's chain of parents ends at a root, and otherwise names a task and its error |
| TaskTree.TreeExact | pkg/assistants/tree.go:61-86 | the tree is accepted if and only if every edge is sound and a depth exists that grows along edges, so no chain is cyclic |
| TaskTree.ValidatedExact | pkg/assistants/tree.go:61-86 | for a list of uniquely named tasks, acceptance means that every edge is sound and a depth exists that grows along edges |
| TaskTree.BlocksRootCompletion | pkg/assistants/tree.go:93-110 | the climb answers whether the chain of required parents reaches a root, and no where a link is broken |
| TaskTree.ChainExact | pkg/assistants/tree.go:93-110 | a task blocks if and only if a path of required tasks leads from it to a root, whether links are broken or not |
| TaskTree.RequiredGateOpen | pkg/assistants/tree.go:130-144 | the recursion from above returns the first open required task in its order |
| TaskTree.GateExact | pkg/assistants/tree.go:93-144 | from the roots the gate is open if and only if some unclosed task blocks seen from below, and the task returned is one |
| TaskTree.ValidatedGate | pkg/assistants/tree.go:61-144 | from the list to the gate: once uniquely named tasks are accepted, the gate finds a task if and only if some unclosed task of the list blocks the stage, and it is one |
| SkillMounts.FindLongestCovering | cmd/afm/run_skills_docker.go:126-134 | the longest destination that covers a path |
| SkillMounts.FollowFirstLink | cmd/afm/run_skills_docker.go:137-163 | the path with its first link below the destination replaced |
| SkillMounts.LinkExact | cmd/afm/run_skills_docker.go:137-163 | the path followed is the one through the first component that is not plain, if that is a link, with the rest of the path kept |
| SkillMounts.ContainerEnd | cmd/afm/run_skills_docker.go:98-111 | where a path ends inside the container, within the allowed hops |
| SkillMounts.EndExact | cmd/afm/run_skills_docker.go:98-111 | a walk of such hops leads from the path to its end, and the end allows no hop or the hops are used up |
| SkillMounts.WalksStable | cmd/afm/run_skills_docker.go:70-124 | mounts that were needed never change the walk of a library that was visible |
| SkillMounts.WalkUnblocked | cmd/afm/run_skills_docker.go:98-124 | mounting the path where a walk got stuck makes the walk end there, visible |
| SkillMounts.SkillMountDirs | cmd/afm/run_skills_docker.go:70-81 | the choice ends with at most one mount a library, none of them unneeded, and leaves every library visible |
| FakeClock.Clock.Register | pkg/clock/fake.go:52-59 | a new point joins at the end with its deadline |
| FakeClock.Clock.Remove | pkg/clock/fake.go:63-71 | the point leaves the list, the others keep their order, and the result says whether it was live |
| FakeClock.Clock.Reset | pkg/clock/fake.go:132-147 | a timer set anew waits once, at the end, with an empty channel |
| FakeClock.Clock.Receive | pkg/clock/fake.go:122-122 | reading a channel takes its tick and leaves everything else |
| FakeClock.Clock.Advance | pkg/clock/fake.go:77-105 | every due point fires in order, tickers get their next deadline, and no entry is ever listed twice |
| FakeClock.FiringExact | pkg/clock/fake.go:77-105 | a due point gets a tick unless one is unread, a timer then waits no more, a ticker waits for its first later deadline, and no other point changes |
| FakeClock.OrderKept | pkg/clock/fake.go:77-105 | those that wait on keep their order |
| FakeClock.StepWellFormed | pkg/clock/fake.go:52-159 | no registering, stopping, resetting, reading or advancing ever lists a point twice or one that was never registered |
| FakeClock.AdvanceComposes | pkg/clock/fake.go:77-105 | advancing by a and then b leaves the same waiters, order, deadlines and channel occupancy as advancing by a + b |
| FakeClock.TickerInStep | pkg/clock/fake.go:52-159 | over any run of registrations, stops, resets, reads and advances, until it is stopped itself a ticker waits, its deadline later than now and whole periods after its first |
| FakeClock.TimerFiresOnTime | pkg/clock/fake.go:52-159 | over any run that leaves it alone a timer waits exactly until its deadline and its channel holds a tick exactly from then on |
| FakeClock.StoppedStaysSilent | pkg/clock/fake.go:63-105 | over any such run a stopped point never fires again unless it is set anew |
| MessageSplit.TextPrefix | telegram-bot/ui.go:16-32 | the part and the rest are the text, and the part is the longest within the limit |
| MessageSplit.ShortText | telegram-bot/ui.go:34-40 | a text that fits is unchanged, a longer one is a prefix and the mark, and the result fits if and only if the text or the mark does |
| MessageSplit.View.AppendText | telegram-bot/ui.go:51-63 | nothing is lost and every part of the view stays within the limit |
| MessageSplit.PlanChunks | telegram-bot/ui_decisions.go:58-70 | the chunks concatenate to the source, each fits, and none could have taken the next character |
| MessageSplit.EncodedWhole | telegram-bot/ui.go:12-32 | cutting between characters never splits a surrogate pair |
| MessageSplit.HeaderFits | telegram-bot/ui_decisions.go:83-119 | the space kept for headers holds any header of a plan or of a revision's draft |
| MessageSplit.NumberedFits | telegram-bot/ui_decisions.go:83-119 | any number of chunks that keep to the body limit fit the message limit once numbered |
| MessageSplit.NumberedExact | telegram-bot/ui_decisions.go:83-119 | each message begins with the intro, says in digits which part of how many it is, and ends with its chunk |
| MessageSplit.RenderPlan | telegram-bot/ui_decisions.go:83-119 | the messages are the numbered parts of the draft, if any, and of the plan, whose chunks make up exactly the two sources, each message within the limit, header included |

## Left out

- Network, processes, Docker, Telegram calls, clocks and randomness: their results are parameters or arbitrary choices; ids and digests are fresh or equal.
- Rendering, commands, configuration, SDK wrappers and prompt installation: they would add only easy members.
- JSON text: `JobStore` and `JobJournal` take encoding and decoding as a parameter; blank lines are judged by ASCII white space.
- `inlineRefs`, `$ref`, titles, descriptions and tuple forms of items: schemas are taken after references are resolved.
- Maps changed in place in schema/native.go (`typeConstAndEnum`, `nullable`, the nested decoded answer) are modelled as new values, so aliasing between schema nodes is not captured.
- Mutexes: a method, or a step of a protocol, is one critical section; what others do in between is an explicit step or a call that changes everything they could change.
- Float rounding and unsigned 64-bit wrap-around of token sums: costs are `real` and counts are unbounded.
- Money through totals: a job with one unpriced record shows no cost, so only the additivity of what is shown is stated (`RowsAddUp`).
- `Timeline`, `assignOrdinals`, titles, model descriptions, `Completeness` and the phase maps of `buildCostBundle`: display of what is modelled; the caches hold for any function that builds the bundle or the facts.
- `usage.jsonl` after a crash: pkg/accounting/store.go ignores a torn last line but does not cut it before appending, so no recovery is claimed.
- Uniqueness of the revision text of facts across concurrent readers: the sum of two revisions is not injective.
- JobStore.Open: truncation takes effect at once and completely; path handling and directory creation are not modelled.
- NativeSchema.BranchExact: is stated for a single branch; with several, an answer spoilt for one branch may suit another, and `StrictSound` covers those whose branches the pass overlooks nothing in.
- NativeSchema.StrictComplete: beside and inside an anyOf all properties have to be required (`Expressible`), because the pass does not look into branches.
- Analytics.BuildFacts: titles, catalog order and model ordinals are left out.
- RevisionCaches.Analytics.Facts: the metadata source is any store of the kind `DisciplinedExact` describes; the file behind it is not modelled, and the state of the usage source, part of the original key, is taken as part of that source's content.
- Outbox.SentIsNeverIneligible: power losses that take back an update are excluded, and `SentButFailed` shows why.
- Outbox.StatusMoves: power losses that take back an update are excluded, because the older file may hold an older status.
- Outbox.AtMostOneMessage: rests on the receiver's handling of request IDs, which lives in another program.
- Receipts shown to users, thread caches, `Seen` markers and pending stage actions of the bot are not modelled.
- MeshBridge.Bridge.Reconcile: says nothing about messages that arrive during the pass, so a last message at closing time is not covered; notices to the user interface and invalid UTF-8 in a text are left out.
- The mesh and the Assistant's manager in `MeshBridge` are only what the bridge relies on: an ordered log, durable marks, replies that stay, and client ids that are never given a second turn.
- ChromeSessions.NothingLeaksAfterClose: supposes that launches and teardowns under way come to an end; removal of profile directories and the message pumps are not modelled.
- FakeClock: the time stamp of a tick that was not consumed may differ between one advance and two; `AdvanceComposes` compares everything else. `BlockUntil` is left out.
- SkillMounts: paths are sequences of components, already cleaned; the walk is stated for any hop limit, the program's being 40.
- MessageSplit.RenderPlan: part numbers have at most 18 digits, that is, texts are shorter than 10 to the 18th.
- TaskTree.BlocksRootCompletion: cyclic parents, which validation refuses, are excluded; on a cycle of required tasks the original has no end.
- TaskCosts.ComputeTaskCosts: the sums are stated for acyclic parent maps; on cyclic ones only that the walk ends.
