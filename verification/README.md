# Verified models of the semantic intelligence layer

This project models the stateful middle of the repository in Dafny and proves
what its code promises over whole runs, interleavings and unbounded logs.

| area | files |
|---|---|
| the backfill pipeline: feeder, workers, closer, reorder collector, cancellation | `Backfill.dfy` |
| the asynchronous log handler: producers, bounded queue, drop counter, drain goroutine, shutdown | `AsyncLog.dfy` |
| the watcher daemon: windowed search, grouping, ranking, per-tenant cap, checkpoints | `SessionStore.dfy`, `Candidates.dfy`, `WatcherStore.dfy`, `Checkpoints.dfy`, `Grounds.dfy`, `Comeback.dfy`, `Progress.dfy`, `Daemon.dfy`, `Cycles.dfy` |
| the investigation run, the log it is stored in, the policy that gates it, and the evidence it merges | `Policy.dfy`, `AgentStore.dfy`, `Harness.dfy`, `RunRecovery.dfy`, `Investigation.dfy`, `Evidence.dfy` |
| the access-to-session timeline answers | `Timeline.dfy` |
| the retrieval index: tokenizer, document stores, ranking, document builders | `Terms.dfy`, `Retrieval.dfy`, `RetrievalStores.dfy`, `Versions.dfy`, `Answers.dfy`, `Index.dfy`, `IndexedSearch.dfy` |
| shared: events, text over ASCII, times, sorting | `Events.dfy`, `Text.dfy`, `Times.dfy`, `Sorting.dfy`, `Wrappers.dfy` |

What the model computes is stated twice over: each operation against a function or
predicate of the model, and that function in terms of the inputs themselves, with
the texts, numbers and orders of the code spelled out (`Investigation`, `Grounds`,
`Answers`, `Versions` and the lemmas named `...Meaning` and `...Exactly`).

How the code's form is kept. Goroutines become step systems whose atomic steps
are the channel operations and the regions under a mutex; every theorem about
them quantifies over all step sequences. Loops that update variables are methods
with invariants, proved against a recursive function or a declarative predicate;
structs that are updated in place are classes (`Backfill.Reorder`,
`AsyncLog.AsyncState`, the stores, `Daemon.Watcher`). Time is an integer, a file
is the sequence of records appended to it. Clock readings, policy answers, tool
answers, search failures and store failures are read from environments that are
parameters of the theorems, so the theorems hold for all of them.

Where the code does not do what its surroundings suggest, the code is modelled
and the exact condition is proved:

- the file-backed retrieval search filters before it folds, so it chooses from
  the memory store's hits if and only if no hit has a later version that fails
  the filter (`HitsAgreeExactly`, `AnswersAgreeExactly`, `StaleMatchExists`);
- the file search keeps the first greatest version of a document and the memory
  store the last one appended, so over logs that are out of order they agree if
  and only if the last version of each document is the first greatest
  (`AgreeExactly`, `HalfIndexedAgainDisagrees`);
- a checkpoint is compared with the latest event by id alone, and ingest gives a
  record that is read again its old id and a new IngestedAt, so an id can be
  checkpointed twice if and only if another event could be the latest in between
  (`IdComesBackExactly`, `ReingestedIdComesBack`); replaying the raw log, which
  normalisation does on every run, never does it (`ReplayNeverComesBack`);
- searchSessions cuts each query to five before it merges by id, so copies of one
  event can crowd out other matches; it answers with the newest five if and only
  if five different answered events are no older than anything it missed
  (`SessionsAreNewestExactly`, `ReplayHidesMatches`);
- `detectCandidates` reads its map by trimmed id and writes it back by the id as
  it came, so it groups correctly if and only if the ids past the first
  qualifying event of a subscriber are trimmed (`GroupingExactly`,
  `SpacedIdSplitsGroup`);
- the short-session test multiplies nanoseconds in 64 bits, so it is right for
  every threshold if and only if the session time is at most 9223372036 seconds
  (`ShortSessionExactly`);
- a run that ends awaiting approval is read back in its final form if and only
  if its last snapshot is strictly later than the one before (`GetRecoversFinal`,
  `AwaitingRunIsLost`);
- the words "later accepted" are not backed by an order check
  (`LaterAcceptedExactly`, `LaterAcceptedCanBeWrong`);
- the logger's drop counter also counts Error records that are then handled
  directly, and wraps at 2^64 (`DropsAccounted`, `NothingElseIsLost`);
- two subscribers share a checkpoint if and only if their sanitized tenant and
  subscriber texts coincide (`KeysCollideExactly`).

The longer proofs use `hide` to keep function bodies they do not need out of the
verifier's sight.

## Model

| member | source | states |
|---|---|---|
| `Backfill.ProcessedMeaning` | cmd/backfill/main.go:232-254 | a file gives its record exactly when it can be read, is not blank and holds JSON between its outer spaces; otherwise the error names the file and what is wrong with it |
| `Backfill.StepInv` | cmd/backfill/main.go:147-226 | every step of feeder, workers, closer, collector or cancellation keeps the pipeline invariant: right contents, sequential output, custody of indices, goroutine control, meaning of the return |
| `Backfill.RunInv` | cmd/backfill/main.go:147-229 | the invariant holds after every interleaving |
| `Backfill.OutputIsSequentialPrefix` | cmd/backfill/main.go:195-254 | under every interleaving and cancellation the output is the records of the first files in order: index, source, path and trimmed content of each, and each of those files is good |
| `Backfill.EveryIndexInOnePlace` | cmd/backfill/main.go:147-226 | an index handed out is in exactly one of worker, results buffer, pending map and output until somebody cancels, and in at most one ever after |
| `Backfill.ReturnMeaning` | cmd/backfill/main.go:201-254 | nil means a record of every file; without outside cancellation or write failure nil is returned exactly when every file is good; any other return names a file and what is really wrong with it, or a cancelled and shorter output |
| `Backfill.SomeStep` | cmd/backfill/main.go:153-226 | while any goroutine is alive some step other than outside cancellation is enabled |
| `Backfill.StepLowersWeight` | cmd/backfill/main.go:147-229 | every step lowers one numeric measure |
| `Backfill.RunLowersWeight` | cmd/backfill/main.go:147-229 | a run is no longer than the measure it uses up |
| `Backfill.EveryRunEnds` | cmd/backfill/main.go:124-230 | no run has more than 6 steps a file plus one a worker plus 4, and a run that can go no further has ended every goroutine, whatever failed or was cancelled |
| `Backfill.AllWorkAtOnce` | cmd/backfill/main.go:153-187 | as many files are processed at once as there are workers |
| `Backfill.BufferFillsBackwards` | cmd/backfill/main.go:148-187 | all of them may finish, last file first, before the collector takes anything: a result a worker waits in the buffer |
| `Backfill.CancelStopsNothing` | cmd/backfill/main.go:158-186 | cancelling disables no step and commutes with every step, as a select may still choose another ready case |
| `Backfill.AnythingMayFail` | cmd/backfill/main.go:195-222 | the caller may cancel once at any time, and any write may fail |
| `Backfill.Reorder.Accept` | cmd/backfill/main.go:201-222 | one result: an error stops at once and writes nothing; otherwise exactly the consecutive pending records from next on are written and removed, up to the first gap or write error |
| `Backfill.DrainIsEmits` | cmd/backfill/main.go:208-222 | that inner loop is a run of emit steps of the pipeline |
| `AsyncLog.StepInv` | internal/platform/logging/async_handler.go:49-124 | every step of a producer, of Shutdown or of the drain goroutine keeps queue order, drop accounting, direct-call accounting and control |
| `AsyncLog.RunInv` | internal/platform/logging/async_handler.go:49-124 | the invariant holds after every interleaving |
| `AsyncLog.DeliveredInOrder` | internal/platform/logging/async_handler.go:49-109 | no send hits a closed queue, accepted records are delivered once each in queue order, and all of them once done is closed |
| `AsyncLog.DropsAccounted` | internal/platform/logging/async_handler.go:62-68 | refused records equal the counter plus the count in hand plus the reported counts plus whole wraps of 64 bits; at done the queue is empty, the counter 0 and, below 2^64 drops, the reports sum to all of them |
| `AsyncLog.LoggedIsFiled` | internal/platform/logging/async_handler.go:49-70 | each Handle call files its record exactly once as accepted, refused or bypassed |
| `AsyncLog.RefusedExactlyWhenFull` | internal/platform/logging/async_handler.go:49-70 | in every run a record is refused exactly as often as it is logged while the handler is open and the queue is full, bypassed exactly as often as it is logged after the close, and otherwise accepted |
| `AsyncLog.NothingElseIsLost` | internal/platform/logging/async_handler.go:49-109 | after a finished shutdown a record was handled once for every time it was logged, except, if its level is below 8, the times it was logged with the handler open and the queue full |
| `AsyncLog.ShutdownEnds` | internal/platform/logging/async_handler.go:86-109 | once closed the drain goroutine closes done within 4 steps a queued record plus 7, whatever producers do meanwhile, and is stuck only when done |
| `AsyncLog.DrainWaitsExactly` | internal/platform/logging/async_handler.go:102-109 | the drain goroutine waits for nothing but a record to arrive or the queue to be closed |
| `AsyncLog.ProducersNeverWait` | internal/platform/logging/async_handler.go:49-92 | Handle and the body of Shutdown never wait, and owed direct calls are made in any order |
| `AsyncLog.AsyncState.Handle` | internal/platform/logging/async_handler.go:49-70 | the three branches of Handle on the shared state, with the 64-bit wrap of the counter |
| `AsyncLog.AsyncState.Close` | internal/platform/logging/async_handler.go:86-92 | after the once-only body of Shutdown the handler is closed, and nothing else changed |
| `AsyncLog.AsyncState.FlushDropped` | internal/platform/logging/async_handler.go:111-124 | takes the counter, and reports it exactly when it was not zero |
| `AsyncLog.AsyncState.Run` | internal/platform/logging/async_handler.go:102-109 | the drain loop after close makes exactly the calls of the specification and leaves queue and counter empty |
| `AsyncLog.DrainRunMatches` | internal/platform/logging/async_handler.go:102-124 | that loop is a run of the step system, with the same end state and calls |
| `AsyncLog.HandleRunMatches` | internal/platform/logging/async_handler.go:49-70 | a Handle call that nothing comes in between of is a run of the step system: its region under the mutex and the direct call it owes, with the effect of AsyncState.Handle |
| `AsyncLog.CloseMatches` | internal/platform/logging/async_handler.go:86-92 | the once-only body of Shutdown is its step, and a second one changes nothing |
| `Text.CharactersMeaning` | internal/contracts/unified/retrieval/types.go:125-125 | which characters are white space, and what lower-casing does to each letter of the alphabet and to nothing else |
| `Text.TrimCut` | internal/contracts/unified/retrieval/types.go:150-162 | trimming cuts off characters of the trimmed kind only, from both ends, until neither end has one |
| `Text.ContainsMeaning` | internal/agents/harness/investigation.go:1407-1414 | a text contains another where it occurs as a stretch |
| `Text.StringOrder` | internal/contracts/unified/retrieval/types.go:147-147 | a prefix sorts first, otherwise the first character that differs decides |
| `Terms.CharacterClasses` | internal/contracts/unified/retrieval/types.go:131-162 | the characters of tokens and of field ends, by their codes |
| `Terms.Normalize` | internal/contracts/unified/retrieval/types.go:116-148 | the nested loops, the map and the sort compute the specification function, whatever order the map is ranged over in |
| `Terms.NormalizeTermsSpec` | internal/contracts/unified/retrieval/types.go:116-162 | the result is strictly sorted and holds exactly the field terms and tokens of the separate arguments |
| `Terms.NormalizeTermsOrderFree` | internal/contracts/unified/retrieval/types.go:116-148 | order and repetition of the arguments do not matter |
| `Terms.CaseDoesNotMatter` | internal/contracts/unified/retrieval/types.go:125-125 | arguments that differ in case only have the same terms |
| `Terms.SomeTermExactly` | internal/contracts/unified/retrieval/types.go:116-162 | there is a term if and only if some argument has a character that is neither a space nor trimmed punctuation |
| `Terms.NormalizeTermsIdempotent` | internal/contracts/unified/retrieval/types.go:116-162 | normalising terms again changes nothing |
| `Terms.TermsSplit` | internal/contracts/unified/retrieval/types.go:125-140 | the terms of a text are those of its two sides of any space |
| `Terms.TermClosure` | internal/contracts/unified/retrieval/types.go:125-162 | a term has itself as a term, and only terms of the text it came from |
| `Terms.FieldTermOfRun` | internal/contracts/unified/retrieval/types.go:150-162 | the trimmed field is the stretch between the first and last characters that are not trimmed punctuation |
| `Terms.JoinedQueryTerms` | internal/contracts/unified/retrieval/types.go:116-148 | joining values with spaces gives exactly the terms of the values |
| `Terms.TrimmedQueryTerms` | internal/services/query/retrieval.go:41-69 | trimming a query text keeps its terms |
| `Retrieval.NormalizeDocument` | internal/storage/metadata/retrieval/store.go:329-368 | the loops normalise every field, the tags, the terms and the attributes, in any order of the attribute map |
| `Retrieval.NormalizeSettles` | internal/storage/metadata/retrieval/store.go:329-368 | a document that was normalised is changed by no later normalisation |
| `Retrieval.ScoreDocument` | internal/storage/metadata/retrieval/store.go:288-317 | the scoring loop computes 2 a matched term plus the phrase and all-terms bonuses, 0 without a match, and the matched terms in order |
| `Retrieval.MoreTermsScoreHigher` | internal/storage/metadata/retrieval/store.go:288-317 | more matched terms beat fewer, whatever the bonuses |
| `Retrieval.ScoreResults` | internal/storage/metadata/retrieval/store.go:249-286 | the loop, sort and cut answer with a ranking of exactly the hits |
| `Retrieval.RankingsAgree` | internal/storage/metadata/retrieval/store.go:265-284 | two answers over the same documents have the same sequence of (score, OccurredAt, IngestedAt) |
| `Retrieval.RankingKeepsBest` | internal/storage/metadata/retrieval/store.go:265-284 | hits come best first by matched terms; a document left out ranks no higher than any returned one and is left out only for the limit |
| `RetrievalStores.FileStore.Append` | internal/storage/metadata/retrieval/store.go:65-98 | a document is appended normalised, or rejected by validation and the log is unchanged |
| `RetrievalStores.FileStore.Search` | internal/storage/metadata/retrieval/store.go:100-153 | re-normalising on read never fails; the answer ranks the filtered fold of the log (`Versions.FileKeepsExactly` says which documents those are) |
| `RetrievalStores.MemoryStore.Append` | internal/storage/metadata/retrieval/store.go:170-191 | the last document under an id replaces the one before, or is rejected |
| `RetrievalStores.MemoryStore.Search` | internal/storage/metadata/retrieval/store.go:193-213 | the answer ranks the stored documents that match the filter |
| `RetrievalStores.FileKeepsLastMatch` | internal/storage/metadata/retrieval/store.go:124-147 | with strictly increasing versions the fold keeps the last version that matches the filter |
| `RetrievalStores.FileAgreesExactly` | internal/storage/metadata/retrieval/store.go:124-212 | with strictly increasing versions the file gathers the memory store's documents, before any scoring, if and only if no document has a stale match |
| `RetrievalStores.HitsAgreeExactly` | internal/storage/metadata/retrieval/store.go:124-286 | with strictly increasing versions both searches have the same hit set if and only if no last matching version that is a hit has a later version failing the filter |
| `RetrievalStores.AnswersAgreeExactly` | internal/storage/metadata/retrieval/store.go:100-286 | answers that the limit did not cut hold the same hits if and only if there is no such stale hit |
| `RetrievalStores.StableFieldsNeverGoStale` | internal/storage/metadata/retrieval/store.go:215-247 | versions that agree on the filtered fields have no stale match and no stale hit, for any filter |
| `RetrievalStores.FileSearchRefinesMemory` | internal/storage/metadata/retrieval/store.go:100-213 | without a stale hit both stores answer, under any limit, with the same sequence of sort keys |
| `RetrievalStores.StaleMatchExists` | internal/storage/metadata/retrieval/store.go:138-146 | a valid, stored session document re-indexed from start to stop: every answer of the file search among the starts is that document, every answer of the memory search is empty |
| `Versions.FileKeepsFirstGreatest` | internal/storage/metadata/retrieval/store.go:124-147 | over any log, in order or not, the file search keeps the first of the matching versions that are greatest by (IngestedAt, OccurredAt) |
| `Versions.FileKeepsExactly` | internal/storage/metadata/retrieval/store.go:319-327 | a version is kept if and only if it is that one, or a copy of it |
| `Versions.AgreeExactly` | internal/storage/metadata/retrieval/store.go:124-212 | over any log the file search gathers what the memory search does if and only if the last version of every document that matches at all matches, and is the one the file search keeps |
| `Versions.IndexingAgainKeepsAgreement` | internal/services/index/service.go:30-84 | a whole second index run changes nothing about the agreement |
| `Versions.HalfIndexedAgainDisagrees` | internal/storage/metadata/retrieval/store.go:319-327 | an index run that starts over and stops half way: every answer of the file search holds the newer version, every answer of the memory search the older |
| `Answers.SelectedExactly` | internal/storage/metadata/retrieval/store.go:215-247 | a document is selected exactly when each of eight fields that the filter names has the wanted text, up to case and outer spaces, within the time bounds |
| `Answers.HitMeaning` | internal/storage/metadata/retrieval/store.go:288-317 | a stored document is a hit exactly when it has a term of the query; its worth is 2 a shared term, 1.5 when the query occurs in title or content, 1 when it has every term |
| `Answers.FileAnswers` | internal/storage/metadata/retrieval/store.go:100-286 | every answer of the file search holds selected documents only, in the first of their greatest versions, best first; only the limit leaves one out |
| `Answers.MemoryAnswers` | internal/storage/metadata/retrieval/store.go:193-286 | the same of the memory search and the documents it holds |
| `Answers.StoredMeaning` | internal/storage/metadata/retrieval/store.go:329-368 | what Append keeps: each of 19 texts without outer spaces, the times, the tags in order, the terms of the terms, the attributes without outer spaces |
| `Answers.RejectedExactly` | internal/contracts/unified/retrieval/types.go:50-114 | Append refuses a document exactly when a needed text is blank, a time is unset, the type is unknown or incomplete, or no term has a character that makes one |
| `Index.BuildSessionDocument` | internal/services/index/service.go:121-178 | a valid event gives a valid document with its fields and the terms of exactly its indexed values; an invalid one is refused |
| `Index.BuildAccessDocument` | internal/services/index/service.go:180-232 | the same for access events |
| `Index.CloneAttributes` | internal/services/index/service.go:257-276 | the attribute loop trims the values and collects every key and value as a term source |
| `Index.StoredTerms` | internal/services/index/service.go:126-174 | after Append the stored terms are exactly the terms of the indexed values |
| `Index.JoinedValuesAreFound` | internal/services/index/service.go:126-174 | a query joined from any indexed values matches every one of its terms in the stored document and scores at least 2 a term plus 1 |
| `IndexedSearch.BuiltStaysValid` | internal/storage/metadata/retrieval/store.go:65-98 | normalising a built document keeps it valid, with its terms |
| `IndexedSearch.NeverRejected` | internal/storage/metadata/retrieval/store.go:65-98 | so Append never refuses a built document |
| `IndexedSearch.IndexSession` | internal/services/index/service.go:59-65 | a session event is indexed exactly when it is valid, under its trimmed id, with the terms of its values |
| `IndexedSearch.IndexAccess` | internal/services/index/service.go:59-65 | the same for access events |
| `IndexedSearch.SessionIsSelected` | internal/services/index/service.go:121-178 | a filter selects an indexed session event by the event's own tenant, subscriber, session, status, NAS, client and time |
| `IndexedSearch.AccessIsSelected` | internal/services/index/service.go:180-232 | the same for access events, by request and outcome |
| `IndexedSearch.SessionTermsExactly` | internal/services/index/service.go:127-158 | the stored terms are those of title, text, source, type, tenant, subscriber, session, status, addresses, tags, attribute keys and values, and no others |
| `IndexedSearch.AccessTermsExactly` | internal/services/index/service.go:185-204 | the same for access events, with request, outcome, policy and reject reason |
| `IndexedSearch.SessionIsShown` | internal/services/index/service.go:160-178 | what an answer shows of a session event: ids, source, type, times, tags, title and text |
| `IndexedSearch.AccessIsShown` | internal/services/index/service.go:206-232 | the same for access events, with policy and reject reason |
| `IndexedSearch.SessionTitleMeaning` | internal/services/index/service.go:234-244 | the title of a valid session event names status in words, subscriber, session and NAS |
| `IndexedSearch.AccessTitleMeaning` | internal/services/index/service.go:246-255 | the title of a valid access event names outcome, subscriber, request and NAS |
| `IndexedSearch.MemoryFinds` | internal/storage/metadata/retrieval/store.go:193-286 | from event to answer in the memory store: any query joined from indexed values finds the document, with all its terms, under any filter it matches, unless the limit cuts |
| `IndexedSearch.FileFinds` | internal/storage/metadata/retrieval/store.go:100-286 | the same in the file store, after any log whose versions of the document are older |
| `Policy.FirstMatchDecides` | internal/agents/policy/static.go:76-84 | the first matching rule decides, otherwise the fallback |
| `Policy.ToolsAreListed` | internal/agents/policy/static.go:38-56 | a match on tools alone covers the tools it names, those with one of its prefixes, or all if it lists none |
| `Policy.PrefixesAreDisjoint` | internal/agents/policy/static.go:97-131 | no tool name has both a state-changing and a read-only prefix |
| `Policy.DefaultRulesMeaning` | internal/agents/policy/static.go:86-161 | allowed exactly for an unflagged read-only tool within the run's tenant; denied exactly between two different named tenants |
| `Policy.ChangesAreAskedAbout` | internal/agents/policy/static.go:95-104 | a state-changing tool that stays in its tenant waits for approval, with the reason for that |
| `AgentStore.NormalizeRecordTwice` | internal/storage/metadata/agents/store.go:276-307 | normalising a record again changes nothing |
| `AgentStore.ValidityIgnoresSpaces` | internal/storage/metadata/agents/store.go:215-256 | normalising does not change whether a record is valid |
| `AgentStore.NormalizeStores` | internal/storage/metadata/agents/store.go:276-307 | what is stored of a record: the status and all times, the trimmed texts, and for each step its status, times, trimmed texts and the same evidence, best score first |
| `AgentStore.PlainRecordStays` | internal/storage/metadata/agents/store.go:276-307 | a record whose texts end in no spaces and whose evidence is in order is stored as it is |
| `AgentStore.ValidExactly` | internal/storage/metadata/agents/store.go:215-274 | exactly which texts, times and statuses a record needs |
| `AgentStore.LatestIsFirstGreatest` | internal/storage/metadata/agents/store.go:309-322 | the fold returns the first record of the run that is greatest by UpdatedAt, then CompletedAt with nil lowest |
| `AgentStore.LatestExactly` | internal/storage/metadata/agents/store.go:309-322 | a record is what the fold returns if it is that first greatest one, and only a record equal to it is |
| `AgentStore.LatestSplits` | internal/storage/metadata/agents/store.go:120-151 | folding two parts of a log and combining gives the fold of the whole |
| `AgentStore.LatestOfSelect` | internal/storage/metadata/agents/store.go:120-151 | records of other runs never matter |
| `AgentStore.FileStore.Upsert` | internal/storage/metadata/agents/store.go:57-89 | succeeds exactly for valid records and appends the normalised record, which has the status, times, trimmed texts and evidence of the one given |
| `AgentStore.FileStore.Get` | internal/storage/metadata/agents/store.go:91-152 | the scan computes the fold, with its error cases; re-validation never fails |
| `AgentStore.MemoryStore.Upsert` | internal/storage/metadata/agents/store.go:169-190 | succeeds exactly for valid records and replaces the record under its id by one with the status, times, trimmed texts and evidence of the one given |
| `AgentStore.MemoryStore.Get` | internal/storage/metadata/agents/store.go:192-213 | looks the trimmed id up, with its error cases |
| `AgentStore.StoresAgree` | internal/storage/metadata/agents/store.go:91-213 | when the snapshots of each run strictly increase, both stores return the same record |
| `Harness.RequestIsNormal` | internal/agents/harness/investigation.go:525-558 | a request is accepted exactly when it has a tenant and a goal or query; then the budget is 1 to 5 and tenant, session and goal are not blank |
| `Harness.PlanIsRunnable` | internal/agents/harness/investigation.go:236-296 | a plan has 1 to 3 distinct phases, all available, and every wanted available phase |
| `Harness.StepSucceeds` | internal/agents/harness/investigation.go:313-414 | a step that returns no error is completed and valid, whatever evaluator and tools answer |
| `Harness.FailedSummaryNotBlank` | internal/agents/harness/investigation.go:508-510 | a failing step never ends with a blank summary, not with a blank reason, not with an unknown decision |
| `Harness.StepFails` | internal/agents/harness/investigation.go:494-523 | a failing step ends the run with a valid record whose status tells the error: blocked and awaiting approval, or failed with CompletedAt |
| `Harness.GoingAdvances` | internal/agents/harness/investigation.go:167-212 | a successful step extends the record by exactly the planned step |
| `Harness.GoingOn` | internal/agents/harness/investigation.go:206-212 | its snapshot extends the running trace, or the run stops when the store fails |
| `Harness.GoingFails` | internal/agents/harness/investigation.go:494-523 | a failing planned step ends the trace with the outcome that names its error |
| `Harness.GoingCompletes` | internal/agents/harness/investigation.go:223-233 | after the last planned step the final upsert completes the run |
| `Investigation.PlanAnswersQuestion` | internal/agents/harness/investigation.go:236-296 | the phases of each kind of question and their order, of those whose service there is, and retrieval when none is left |
| `Investigation.OneQuestion` | internal/agents/harness/investigation.go:893-944 | every goal asks exactly one of five things: by its first words, by the phrases it contains, and by whether one of five inputs names what to look up |
| `Investigation.PlannedAsAsked` | internal/agents/harness/investigation.go:159-165 | the steps planned are those phases cut to leave room for the summary: 4 steps unless asked otherwise, never more than 5 |
| `Investigation.InputsAreKept` | internal/agents/harness/investigation.go:530-540 | the inputs of the request stay, but for a blank query, which becomes the goal |
| `Investigation.PassedStepFollows` | internal/agents/harness/investigation.go:313-414 | a step without error was allowed, and holds the summary and evidence its tool answered |
| `Investigation.FailedStepFollows` | internal/agents/harness/investigation.go:494-523 | a step that fails follows its answer: denied or unknown decisions fail it, an approval blocks it, no tool runs, and the run halts with the matching status |
| `Investigation.StepsAreNamed` | internal/agents/harness/investigation.go:313-414 | the tool and kind of each step by name |
| `Investigation.IdMeaning` | internal/agents/harness/investigation.go:1477-1519 | an id is its kind, the sanitized parts that are not empty, and the stamp |
| `Investigation.OutcomeFollows` | internal/agents/harness/investigation.go:127-234 | every snapshot and the returned record are of the trimmed tenant, case and session and of the goal, or else the query, that was asked for; their steps are the planned kinds and follow the answers one by one |
| `Investigation.RunInvestigation` | internal/agents/harness/investigation.go:127-234 | a request is turned down exactly without a goal or query, or without a tenant; otherwise the above holds of the request as it came, the log grows by the snapshots that reached it, and each is the one before with exactly the next step; only the last is not running |
| `Harness.RunGoodRequest` | internal/agents/harness/investigation.go:141-233 | the same, after the request was normalised |
| `Harness.RunEvidence` | internal/agents/harness/investigation.go:167-212 | the budgeted loop over the plan runs exactly the planned evidence steps |
| `Harness.RunToEnd` | internal/agents/harness/investigation.go:214-233 | the summary step, if the budget has one, and the completion |
| `RunRecovery.SnapshotsExtend` | internal/agents/harness/investigation.go:141-233 | every snapshot is a prefix of every later one, none has more steps than the budget, only the last is not running |
| `RunRecovery.GetRecoversFinal` | internal/storage/metadata/agents/store.go:120-151 | in a log shared with other runs and under a clock that only never goes back, a completed or failed run is read back in its final form, and one awaiting approval exactly if its last snapshot is strictly later |
| `RunRecovery.RunIsRecovered` | internal/storage/metadata/agents/store.go:309-322 | the same from the outcome of RunInvestigation: what Get returns is the returned record, normalised |
| `RunRecovery.ReadBackExactly` | internal/storage/metadata/agents/store.go:276-322 | what is read back has the status, times, trimmed texts and step by step the evidence of the record that was returned, exactly unless the run awaits approval and its last snapshot is no later than the one before |
| `RunRecovery.AwaitingRunIsLost` | internal/storage/metadata/agents/store.go:309-322 | under a clock that stands still and an evaluator that asks for approval, every good request gives a run whose final record Get does not return |
| `RunRecovery.DefaultPolicyNeverStopsARun` | internal/agents/policy/static.go:86-141 | under the default evaluator no run awaits approval or is denied by policy |
| `Evidence.SearchSessions` | internal/agents/harness/investigation.go:448-478 | fails exactly when a query fails; otherwise answers with the cut of a newest-first order of the joined answers, one event an id |
| `Evidence.SearchFills` | internal/storage/metadata/sessions/store.go:178-201 | a limited search is in order and leaves a match out only when full of events no older |
| `Evidence.MergeKeepsBestExactly` | internal/agents/harness/investigation.go:453-477 | the best of some of the sources are the best of all if and only if everything else is crowded out there, for any total order |
| `Evidence.SessionsAreNewestExactly` | internal/agents/harness/investigation.go:448-478 | over any store, searchSessions finds the newest five of all events that any query matches if and only if each match it misses is no newer than five answered events of different ids |
| `Evidence.SessionsAreNewest` | internal/agents/harness/investigation.go:448-478 | which is so when no answer repeats an id and an id means one event in all answers |
| `Evidence.ReplayHidesMatches` | internal/agents/harness/investigation.go:453-477 | five copies of one event and any older match: the one event is found alone and the other is missed |
| `Evidence.ReplayExample` | internal/services/normalize/service.go:58-77 | two valid events and a query are such a case |
| `Evidence.CombineEvidence` | internal/agents/harness/investigation.go:1063-1152 | the loops over steps, hits and events, the map, the sort and the cut answer with a best five of the last references by key |
| `Evidence.KeysNameEvidence` | internal/agents/harness/investigation.go:1125-1125 | a key names one kind and one id, for kinds without a colon |
| `Evidence.CombinedMeaning` | internal/agents/harness/investigation.go:1121-1152 | the combined references are sorted, at most five, each the last made under its key, none twice; what is left out scores no higher and only when five are kept |
| `Evidence.ShownIsMade` | internal/agents/harness/investigation.go:1063-1135 | a reference is shown only if a step recorded it or one of the first five hits, access events or session events makes it, field by field |
| `Evidence.LastFindingIsShown` | internal/agents/harness/investigation.go:1123-1135 | what is shown of a document or event found last is made of that finding, the last of its id, whatever the steps recorded under the same key |
| `Timeline.BeforeConnectAnswer` | internal/agents/harness/investigation.go:839-853 | yes exactly when a start exists and some rejection is no later than every start; partially, no and empty are the other three combinations; order never matters |
| `Timeline.LatestOutcomeBefore` | internal/agents/harness/investigation.go:1392-1405 | the latest event with the outcome no later than the given start |
| `Timeline.FirstWithStatus` | internal/agents/harness/investigation.go:1372-1380 | the earliest event with the status, if there is one |
| `Timeline.LastWithStatus` | internal/agents/harness/investigation.go:1382-1390 | the latest event with the status, if there is one |
| `Timeline.Correlate` | internal/agents/harness/investigation.go:1211-1285 | the finding the events call for and the events it names; empty exactly when no acceptance is relevant and no rejection without a start |
| `Timeline.LaterAcceptedExactly` | internal/agents/harness/investigation.go:1227-1263 | the finding's "later accepted" is true exactly when some relevant acceptance is no earlier than every relevant rejection, or challenge |
| `Timeline.LaterAcceptedCanBeWrong` | internal/agents/harness/investigation.go:1227-1249 | valid events, accepted at 1, rejected at 2, started at 3, give the finding all the same |
| `Events.ValidSessionExactly` | internal/contracts/unified/sessions/types.go:50-100 | which texts, statuses and times a session event needs |
| `Events.ValidAccessExactly` | internal/contracts/unified/access/types.go:49-99 | which texts, outcomes and times an access event needs |
| `SessionStore.MemoryStore.Append` | internal/storage/metadata/sessions/store.go:160-176 | a valid event is appended, an invalid one refused |
| `SessionStore.MemoryStore.Search` | internal/storage/metadata/sessions/store.go:178-201 | filter, sort and cut answer with a newest-first cut of the matching events |
| `SessionStore.SearchKeepsNewest` | internal/storage/metadata/sessions/store.go:178-238 | only matching events, newest first; what is left out is no newer than anything returned |
| `SessionStore.MatchesExactly` | internal/storage/metadata/sessions/store.go:203-229 | an event matches exactly when each of six fields that the query names has the wanted text, up to case and outer spaces, within the time bounds |
| `Candidates.ShortSessionFor32Bits` | internal/agents/runtime/daemon.go:292-303 | session times that fit 32 bits are compared exactly |
| `Candidates.ShortSessionExactly` | internal/agents/runtime/daemon.go:302-302 | the comparison is right for every threshold if and only if the nanosecond product fits int64 |
| `Candidates.GroupEvents` | internal/agents/runtime/daemon.go:220-249 | the loop over the events computes the group map of the code, raw write-back included, and every timeline |
| `Candidates.GroupingExactly` | internal/agents/runtime/daemon.go:233-248 | that map is the group-by with exact counts and first latest events if and only if later ids are trimmed |
| `Candidates.SpacedIdSplitsGroup` | internal/agents/runtime/daemon.go:233-248 | of two valid events the second, with a leading space in its id, splits its subscriber's group |
| `Candidates.DetectCandidates` | internal/agents/runtime/daemon.go:220-262 | the candidates are the groups that reach MinEvents, ranked |
| `Candidates.DetectedMeaning` | internal/agents/runtime/daemon.go:220-262 | with trimmed ids: exactly the subscribers with MinEvents qualifying events, each once, with exact count, latest event and whole timeline |
| `Candidates.DetectedUnique` | internal/agents/runtime/daemon.go:251-262 | the list does not depend on the order the maps are ranged over in |
| `Candidates.CandidateOrder` | internal/agents/runtime/daemon.go:335-357 | the comparison of sortCandidates is a total order |
| `Candidates.RankingUnique` | internal/agents/runtime/daemon.go:335-357 | on distinct subscribers it ranks in one way only |
| `WatcherStore.FileStore.Upsert` | internal/storage/metadata/agents/watcher_state.go:59-91 | succeeds exactly for valid checkpoints and appends the normalised one |
| `WatcherStore.FileStore.Get` | internal/storage/metadata/agents/watcher_state.go:93-152 | the scan answers with the first checkpoint of greatest UpdatedAt under the key |
| `WatcherStore.ScanIsFirstLatest` | internal/storage/metadata/agents/watcher_state.go:120-150 | which checkpoint that is, over any log |
| `WatcherStore.ValidExactly` | internal/storage/metadata/agents/watcher_state.go:215-235 | a checkpoint needs five texts and a time; the run id may be missing |
| `WatcherStore.MemoryStore.Upsert` | internal/storage/metadata/agents/watcher_state.go:169-190 | succeeds exactly for valid checkpoints and replaces the one under the key |
| `WatcherStore.MemoryStore.Get` | internal/storage/metadata/agents/watcher_state.go:192-213 | looks the trimmed key up, with its error cases |
| `WatcherStore.StoresAgree` | internal/storage/metadata/agents/watcher_state.go:93-213 | with strictly increasing UpdatedAt under each key both stores answer with the last checkpoint |
| `Grounds.SearchIsWindow` | internal/agents/runtime/daemon.go:151-161 | what a cycle finds are the newest 200 stored events of the tenant, up to case and outer spaces, in the window that ends now, each as often as it is stored |
| `Grounds.QualifiesMeaning` | internal/agents/runtime/daemon.go:292-303 | what qualifies is a stop of a named subscriber with a session time within the threshold |
| `Grounds.GroupsCountOwn` | internal/agents/runtime/daemon.go:223-249 | however ids are written, a group counts no event twice, only its own, and its latest event is one of them |
| `Grounds.DetectedIsGrounded` | internal/agents/runtime/daemon.go:220-262 | a candidate is supported by MinEvents stored events: its tenant, its trimmed subscriber, in the window, short stops; its latest event is one of them |
| `Grounds.CountIsExact` | internal/agents/runtime/daemon.go:233-248 | with trimmed ids its count is the number of those events found |
| `Grounds.RankedGoesBefore` | internal/agents/runtime/daemon.go:335-357 | candidates go correlated first, then with access events, then by count, then by time, then by name |
| `Checkpoints.LatestNeverGoesBack` | internal/agents/runtime/daemon.go:150-161 | a later visit of a subscriber finds an event at least as new, although the window slid and the search was cut at 200 events |
| `Checkpoints.LogUpdatesStrictly` | internal/agents/runtime/daemon.go:196-209 | checkpoints under one key have strictly increasing UpdatedAt, so the strict fold always reads the last one |
| `Checkpoints.CheckpointsNeverGoBack` | internal/agents/runtime/daemon.go:150-214 | whatever the events are, checkpoints under one key never go back to an older event |
| `Checkpoints.CheckpointsAdvance` | internal/agents/runtime/daemon.go:150-214 | over every run with any failures, replays and re-ingested records, checkpoints stored under one key have strictly increasing latest events, if (OccurredAt, IngestedAt) tells apart events of different ids |
| `Checkpoints.NoEventTwice` | internal/agents/runtime/daemon.go:177-209 | if moreover an id has one (OccurredAt, IngestedAt), however often it is replayed, no event id is checkpointed twice under a key |
| `Comeback.AnotherInBetween` | internal/agents/runtime/daemon.go:177-181 | between two checkpoints of one id under a key there is one of another id |
| `Comeback.IdComesBackExactly` | internal/agents/runtime/daemon.go:150-209 | over events stored in any order and any number of times, some run checkpoints an id twice for a subscriber if and only if three sightings come back: the id, another id no older, the id again no older, at three increasing times that see them, and MinEvents within the search limit |
| `Comeback.ReplayNeverComesBack` | internal/services/normalize/service.go:42-77 | replayed copies alone make no such three |
| `Comeback.ComebackIsTied` | internal/adapters/radius/adapter.go:125-132 | if ids carry the event time the three happened at one time and were ingested in that order |
| `Comeback.ReingestedIdComesBack` | internal/services/ingest/service.go:75-80 | stops a at (10, 11), b at (10, 12) and a again at (10, 14), all valid: the watcher can checkpoint a twice |
| `Progress.CapHolds` | internal/agents/runtime/daemon.go:171-174 | a cycle stores no more checkpoints for a tenant than MaxRunsPerCycle |
| `Progress.TurnTriggersExactly` | internal/agents/runtime/daemon.go:171-214 | without failures a cycle triggers exactly the smaller of the cap and the unprocessed candidates, and takes that many off them |
| `Progress.CyclesFinish` | internal/agents/runtime/daemon.go:150-214 | with C unprocessed candidates, k turns without failures leave exactly max(0, C - k * MaxRunsPerCycle), whatever the other tenants do in between |
| `Cycles.CandidatesAreProcessed` | internal/agents/runtime/daemon.go:139-218 | the same of consecutive calls of RunCycle at increasing times, of which one tenant's part never fails and finds unchanged candidates: freshness and order follow from the calls |
| `Cycles.NextCycleTriggers` | internal/agents/runtime/daemon.go:171-214 | the next such cycle reports exactly the smaller of the cap and what is left, and nothing once all are processed |
| `Cycles.LogOfCycles` | internal/agents/runtime/daemon.go:139-218 | the log of all the turns is the log the last call leaves |
| `Daemon.KeysCollideExactly` | internal/agents/runtime/daemon.go:432-439 | two subscribers share a key exactly when tenant and subscriber sanitize to the same texts |
| `Daemon.KeyMeaning` | internal/agents/runtime/daemon.go:432-504 | a key is two fixed parts, then tenant and subscriber in lower case with dashes for all but letters, digits, - _ and . , bare at both ends |
| `Daemon.KeysAreGood` | internal/agents/runtime/daemon.go:432-504 | keys are never blank and carry no outer spaces, as the stores need |
| `Daemon.Enrich` | internal/agents/runtime/daemon.go:264-290 | each candidate gets its own access answer, failed searches leave it as it was and make an error, then all are ranked again |
| `Daemon.EnrichedKeeps` | internal/agents/runtime/daemon.go:264-290 | enriching changes neither who the candidates are nor their latest events |
| `Daemon.EnrichedUnique` | internal/agents/runtime/daemon.go:264-290 | the new ranking is determined by the candidates and the access answers |
| `Daemon.TurnIsSound` | internal/agents/runtime/daemon.go:150-168 | the visits of a cycle are of what search and grouping find, once a subscriber |
| `Daemon.VisitCandidate` | internal/agents/runtime/daemon.go:176-213 | one pass of the inner loop takes the branch, and appends the checkpoint, that the specification says |
| `Daemon.VisitCandidates` | internal/agents/runtime/daemon.go:169-214 | the inner loop visits candidates in rank order up to the cap, and counts triggers, skips and errors exactly |
| `Daemon.TallyMeaning` | internal/agents/runtime/daemon.go:181-213 | the counts are the numbers of triggers and skips among the visits |
| `Daemon.TallyTotal` | internal/agents/runtime/daemon.go:181-213 | every visit counts once, as a trigger, a skip or an error |
| `Daemon.CycleGrowsLog` | internal/agents/runtime/daemon.go:150-214 | a cycle appends one checkpoint for each run it reports as triggered, and at most the cap for each tenant |
| `Daemon.ReportedRunsAreStored` | internal/agents/runtime/daemon.go:196-213 | the run ids a cycle reports are those of the checkpoints it appended, in order |
| `Daemon.Watcher.Ingest` | internal/storage/metadata/sessions/store.go:160-176 | any event that arrives keeps the watcher's invariant, and is stored exactly when valid |
| `Daemon.Watcher.Receive` | internal/storage/metadata/sessions/store.go:160-176 | so does any number of them |
| `Daemon.CheckpointsHaveGrounds` | internal/agents/runtime/daemon.go:139-218 | for every checkpoint a cycle stores there are MinEvents stored positions, as the store stood at that tenant's turn, with short stops of its tenant and subscriber in the window, and the event it names is one of them; whatever the ids look like and whatever fails |
| `Daemon.TurnIsRanked` | internal/agents/runtime/daemon.go:162-172 | a turn visits candidates in ranked order, with exact counts if ids are trimmed |
| `Daemon.CapTakesTheBest` | internal/agents/runtime/daemon.go:171-174 | a candidate that the cap left out has no more supporting events than one that was visited, if correlation and access agree |
| `Daemon.Watcher.RunTenant` | internal/agents/runtime/daemon.go:150-214 | one tenant: the visits made, the checkpoints appended and the counts, for any failures |
| `Daemon.Watcher.RunCycle` | internal/agents/runtime/daemon.go:139-218 | with events arriving during the cycle, its visits continue a run of the checkpoint theorems, as long as stored subscriber ids are trimmed; store, log, visits and result are those of the tenants' turns in order, and every checkpoint it stores has its grounds in the store |
| `Daemon.WatcherStoresOnce` | internal/agents/runtime/daemon.go:139-218 | after any cycles with any failures and replays the watcher's checkpoint log holds no event id twice under a key, if ids and (OccurredAt, IngestedAt) name each other |

## Left out

- Text outside ASCII: letters, digits, spaces and case folding are those of ASCII; JSON encoding is the identity and file reads and writes only fail as a whole, so the 1 MB line limit, permissions and partial writes are not modelled.
- Goroutine scheduling, memory ordering and the mutexes themselves: steps are atomic at the channel operations and lock regions; contexts with deadlines appear only as cancellation, and Shutdown's early return on its own context is not modelled.
- `Backfill.ReturnMeaning`: json.Valid is a parameter; takes processFile as a function of the file during a run, so a file that changes while the pipeline runs is not modelled; listing the files and opening the output come before the model starts.
- `AsyncLog.AsyncState.Handle`: runs without another goroutine between its lock region and its direct call; the interleavings are those of the step system.
- `Investigation.RunInvestigation`: the queries, searches and summary prose inside a step are one tool answer, whose text starts with a letter; rewriteBoundedQuestionQuery and cloneInputs are not modelled, and the merges of `Evidence` are not wired into the tool answer. An unknown decision is quoted in its error without escapes. The four step texts are a parameter; `SourceTextsAreGood` and `SourceToolsAreReadOnly` show that the code's table has what is needed of it.
- `Timeline.BeforeConnectAnswer`: the status, membership and disconnect-reason answers are left out, as are the sentences; only their branch conditions that shape the plan are in `Harness`.
- `Daemon.Watcher.RunCycle`: continues a run only while stored subscriber ids are trimmed, as the adapters leave them; `Candidates.GroupingExactly` says what happens otherwise. The request text built for the harness is not modelled. The key function and the watcher's name are configuration values, and `KeysAreGood` shows that watcherStateKey qualifies.
- `Checkpoints.CheckpointsAdvance`: asks that events of different ids differ in (OccurredAt, IngestedAt), which holds as far as the ingest clock tells records apart, that event ids carry no outer spaces, and that visited subscribers do not share a key; `Checkpoints.CheckpointsNeverGoBack` needs only the last.
- `WatcherStore.StoresAgree` and `AgentStore.StoresAgree`: state agreement for strictly increasing keys only; when they stand still the memory store keeps the last record and the file store the first.
- `Evidence.SessionsAreNewestExactly`: the store does not change between the queries; searchAccess is a twin of searchSessions, and which queries are built from the request and the hits is not modelled.
- The file back end of the session store and the access store are twins of the memory session store and are not repeated.
- The index service's scan loop and JSON dispatch, and all HTTP, WebSocket, messaging, chat, adapter and configuration code: plumbing that would add only easy members.
