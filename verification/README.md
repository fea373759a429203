# Verified model of Palaver

Palaver watches the session files that coding agents append to, folds them into small summaries, keeps
quoted evidence for durable memories in SQLite, and answers paged queries about them. This project
models the parts whose guarantees the program argues for only in prose, and proves those guarantees.

- **Incremental summaries** (`Text`, `SummaryModel`, `OpenQuestions`, `ReducerLoop`, `ClaudeReducer`,
  `ClaudeBatching`, `ClaudeExactness`, `CodexReducer`, `CodexBatching`, `CodexExactness`, `CutWitness`,
  `Tail`, `SummaryUpdater`, `UpdaterRuns`). A tail batch folded into a bounded snapshot against a full replay of the file.
  The loop state that is not in the snapshot (the open-question dictionary and the unknown flag) is
  rebuilt at every cut; simulation relations say what that loses, and the exact condition is proved in
  both directions.
- **What a transcript means** (`Splitting`, `Sanitizing`, `LastWord`, `ToolInputs`, `QuestionMeaning`, `ClaudeMeaning`,
  `CodexMeaning`, `ActivityLog`, `SignalMeaning`). Every field of a summary, and every status signal, read directly
  off the records of a whole transcript or rollout, without the reducers' steps.
- **Published state** (`SnapshotBounds`, `SnapshotSources`, `CompanionState`, `Publish`, `PublishedFields`,
  `StateReading`). Every snapshot stays within its bounds and names its source, every state built from one is
  valid, fits its file and reads back equal, and each field shows its own claim.
- **The memory store** (`MemoryTable`, `MemoryStatements`, `Normalize`, `RenderedText`, `QuoteGate`, `EvidenceStore`,
  `EvidenceSafety`, `Persist`, `ClaimStorage`). Raw SQL against the triggers, child-first writes, quote grounding,
  pruning, supersession and routing of an extraction pass, between commit and rollback.
- **Paging** (`Json`, `Cursor`, `Pagination`, `PageSafety`, `ResponseFields`, `Drain`). The doubly escaped size of a
  response, kept row by row, and keyset paging while other writers insert.
- **Observer and replay** (`Observer`, `ObserverSafety`, `ObserverCommits`, `Replay`, `ReplaySafety`, `ReplayMemory`).
  Cursors written only after successful work, and which work and which memories reach the committed tables, over
  every run of ticks, appends, failures and crashes.
- **Migrations** (`Migrate`, `MigrationRaces`, `MigrationSafety`, `MigrationRuns`, `BackupRaces`). The runner
  alone, raced by others, and crashed between any two steps.
- **Turn boundary and pane** (`TurnBoundary`, `TurnMeaning`, `TurnAgreement`, `Rows`, `RowClaims`, `Cells`, `GreedyWrap`,
  `Frame`, `FrameContent`). Backward scans that must agree, row allocation, wrapping and encoding of terminal frames.

Loops and objects that the source updates in place are methods with loop invariants and classes; each
is proved equal to a specification function, and the results below are proved about that function. What such a
function computes is then stated once more without it: an `...Exactly` or `...Means` lemma says for every input which
result comes out, in terms of the input alone.
Decoding of single records, channel classification, task markers, widths and control categories of
characters, and the tier cap of a source are parameters: the results hold for all of them.

## Where the code says something else than its documentation

- `palaver/mcp/pagination.py:240-253` calls the final assertion unreachable. It is reached in exactly one
  case: no rows at all, with scope and extras that are over budget by themselves (`PageSafety.AssertionExactly`,
  for instance `PageSafety.LongNameFiresAssertion`).
- `palaver/store/schema.py:62-66` describes migrations under autocommit. The runner uses one transaction,
  which is what the model follows. The restore fallback of `palaver/store/migrate.py:186-189` is safe for one
  process and loses a migration beside a second one (`BackupRaces.RestoreRaceLosesMigration`).
- `palaver/store/migrate.py:42` and `palaver/store/migrate.py:119` say that an existing backup is never overwritten. That
  holds for one process at a time (`MigrationSafety.BackupsAreKept`). Two processes can choose the same free name,
  and then the later rename replaces the only backup of the old database (`BackupRaces.RaceOverwritesBackup`);
  `BackupRaces.BackupKeptExactly` says when a backup is safe.
- `palaver/ui/companion_render.py:128-129` promises wrapped lines that fit. A word that is one character wider than
  the pane is emitted whole (`Cells.LinesFitExactly`, `Cells.WideCharacterOverflows`); clipping hides it later.
- `palaver/ui/companion_render.py:376-402` colours labels only. A label behind leading blanks would be shown
  twice in part (`Frame.StylingIsInvisibleExactly`); no line the renderer builds has that form (`Frame.RenderedFrameIsExact`).
- The incremental reducers are documented as equal to a full replay. They are, except after cuts whose exact
  form `ClaudeExactness.CutIsSafeExactly` and `CodexExactness.CutIsSafeExactly` give; what such cuts can change in
  a run, and when it is healed, is said by `UpdaterRuns`.
- `palaver/observer/turn_boundary.py:405-423` reads tool outcomes in records of any kind, the boundary scan only in
  messages, so the two can report different outcomes (`TurnAgreement.ScansAgree`, `TurnAgreement.StrayOutcomeShows`).

## Model

| member | source | states |
|---|---|---|
| SummaryModel.CollectTasks | palaver/summary/model.py:247-269 | the loop that builds a plan gives up at the first unusable item and otherwise keeps every item in order, as the recursive specification does |
| SummaryModel.CollectClaims | palaver/summary/model.py:272-284 | the loop returns a claim per question only if every question is usable, else nothing |
| SummaryModel.GroupQuestions | palaver/summary/model.py:287-293 | the loop files every claim under its call id in first-seen order |
| SummaryModel.FoldResult | palaver/summary/model.py:180-201 | the backward loop replaces the newest matching call in place, or appends within the display budget when there is none |
| SummaryModel.RegroupFlatten | palaver/summary/model.py:287-293 | regrouping the claims of a well-formed dictionary gives it back, without its empty entries: what a batch cut keeps |
| Sanitizing.SanitizedShape | palaver/summary/model.py:39-50 | whatever is shown is one printable line of at most 240 characters with single blanks between its words |
| Sanitizing.SanitizedTwice | palaver/summary/model.py:39-50 | sanitizing what was sanitized changes nothing |
| ToolInputs.PlanShownExactly | palaver/summary/model.py:247-269 | a plan of at most 32 usable items is shown item by item; any other shows nothing, for its shape, its length or its first unusable item |
| ToolInputs.QuestionsAskedExactly | palaver/summary/model.py:272-284 | a list of at most 32 usable questions makes one claim per question in its place, any other list makes none |
| ClaudeReducer.ReduceClaudeEvents | palaver/summary/claude_code.py:137-287 | the event loop over rebinding locals computes the fold that the batching results are about |
| ClaudeBatching.BatchingExact | palaver/summary/claude_code.py:149-287 | for all batches, resuming from the first one's snapshot equals one pass over both, whenever the second asks again under no id the cut forgets |
| ClaudeBatching.BatchingUpToOrder | palaver/summary/claude_code.py:149-287 | with no hypothesis at all, the two results agree on every field and list the same questions, perhaps in another order |
| ClaudeExactness.CutIsSafeExactly | palaver/summary/claude_code.py:274-286 | a cut is harmless for every continuation if and only if the source or the questions are unknown there or no open call is empty |
| ClaudeExactness.ExposeCut | palaver/summary/claude_code.py:249-259 | for every unsafe cut, a concrete continuation on which incremental and full replay differ |
| ClaudeExactness.NonEmptyAsksAreSafe | palaver/summary/claude_code.py:249-259 | a transcript that never asks an empty question list has no unsafe cut |
| QuestionMeaning.OpenExactly | palaver/summary/claude_code.py:149-259 | after any asks, answers and turn ends the dictionary holds exactly the calls that are open (taken up within 32 questions, not answered, not asked again, turn not ended), each with its own questions, in the order in which they opened; it is marked unknown exactly while an ask was refused since the last turn end |
| ClaudeMeaning.TranscriptMeans | palaver/summary/claude_code.py:149-287 | over every whole transcript: it stays trusted exactly if no record is undecodable, no call nameless and no task the thirty-third to run; then the running tasks are those registered and not ended since, the command, turn, request, plan and compaction are what the last record to write each makes of it (a failed result shows its text, a task its status unless it succeeded), and the questions are the open ones |
| ActivityLog.ClaudeActivity | palaver/summary/model.py:165-201 | over every transcript the recent activity is the last eight entries of a log in which each record writes its lines and a result completes the newest of those eight that called it |
| ActivityLog.LogContinues | palaver/summary/model.py:180-201 | no entry of that log is ever dropped, moved or rewritten by later records, only completed at its end |
| CodexReducer.ReduceCodexEvents | palaver/summary/codex.py:92-285 | the event loop, with its turn that depends on whether a question call is taken up, computes the fold |
| CodexBatching.BatchingExact | palaver/summary/codex.py:179-194 | incremental equals full replay on every field at cuts that lose no open claim, if no forgotten id is asked about again |
| CodexBatching.BatchingUpToTurn | palaver/summary/codex.py:179-228 | at every cut all fields but question order agree, and the turn too unless the cut lost open claims |
| CodexBatching.BoundaryReconverges | palaver/summary/codex.py:214-228 | whatever a cut lost, one later turn boundary makes both replays equal on every field |
| CodexExactness.CutIsSafeExactly | palaver/summary/codex.py:273-285 | the condition under which a Codex cut is harmless for every continuation, in both directions |
| CodexMeaning.BaseNameExactly | palaver/summary/codex.py:52-53 | a tool is known by what follows the last dot of its name, or by all of it |
| CodexMeaning.RolloutMeans | palaver/summary/codex.py:106-285 | over every whole rollout: it stays trusted exactly if no event is undecodable and no call nameless; then the turn is returned or aborted exactly after a boundary of that kind, awaits an answer exactly after a question call that was taken up, and is open after any other call, an output or a human message; the command is the last failure by its kind, or cleared by a boundary or a message of attachments alone; request, plan, compaction and questions likewise |
| ActivityLog.CodexActivity | palaver/summary/codex.py:119-271 | over every rollout the recent activity is the last eight entries of its log |
| Tail.SplitIsFaithful | palaver/ingest/adapters/base.py:211-221 | splitting at newlines loses no byte and leaves no newline in a piece |
| Tail.ReadIsExact | palaver/ingest/adapters/base.py:202-227 | a read from a line start returns exactly the complete lines not seen before, withholds a torn line, stops at the last line start, and stands still only if no newline arrived |
| Tail.ShrinkIsTheOnlyRetreat | palaver/ingest/adapters/base.py:202-227 | the offset moves backwards exactly when the file is shorter than it, and then the whole file is re-read |
| Tail.TailFrom | palaver/ingest/adapters/claude_code.py:413-429 | the loop decodes every new record in order and counts each undecodable one |
| SummaryUpdater.SummaryReducer.Feed | palaver/summary/reducer.py:83-98 | a batch extends or replaces the history and its malformed count |
| SummaryUpdater.CompanionRuntime.Refresh | palaver/ui/companion_update.py:240-255 | one tail, replace and feed step on the mutable runtime equals the step the run results are about |
| SummaryUpdater.RunKeeps | palaver/ui/companion_update.py:240-255 | over every run of appends, truncations and replacements the cursor and the malformed count are those of a full replay, and whatever fresh reductions have and batches keep, the snapshot has |
| SummaryUpdater.RunEqualsReplay | palaver/ui/companion_update.py:240-255 | cursor, snapshot and malformed count equal a full replay of the current file after every run that is in step: it started over, or a batch healed what cuts lost, and the cuts since then were harmless |
| UpdaterRuns.ClaudeRunUpToOrder | palaver/ui/companion_update.py:240-255 | with no hypothesis, after every run of appends, truncations and replacements the updater shows what a full replay shows, its questions perhaps in another order |
| UpdaterRuns.ClaudeRunEqualsReplay | palaver/ui/companion_update.py:240-255 | it equals a full replay whenever, since it last started over, no tick reused a call id that the cut before it forgot |
| UpdaterRuns.CodexRunUpToTurn | palaver/summary/codex.py:181-194 | with no hypothesis on the rollout or its cuts, after every run every field equals a full replay, except the order of questions and, while questions are shown as unknown, the turn |
| UpdaterRuns.CodexRunEqualsReplay | palaver/summary/codex.py:214-228 | it equals a full replay again from any tick that reads a turn boundary or starts over, through idle ticks and cuts that keep the open claims, whatever earlier cuts lost |
| SnapshotBounds.ClaudeStaysShort | palaver/summary/model.py:165-199 | any Claude batch on a bounded snapshot gives at most 8 recent items, 32 background tasks, 32 questions and 8 reasons, with calls of at most 240 and folded items of at most 482 characters |
| SnapshotBounds.CodexStaysShort | palaver/summary/model.py:165-199 | the same bounds through every Codex batch |
| SnapshotBounds.ObservedShort | palaver/ui/companion_update.py:240-255 | over every run of file contents of either source, everything the updater shows is within the bounds |
| SnapshotSources.ObservedFrom | palaver/summary/reducer.py:46-66 | over every such run the snapshot names its source, and no reason in it is a foreign source or a malformed count |
| Publish.LatestHighSignalActivity | palaver/summary/model.py:215-237 | the dictionary and the backward scan show the newest item that is high-signal or has an open question, that question's text first |
| Publish.StateValidExactly | palaver/ui/companion_update.py:67-83 | the state of a bounded snapshot passes validation if and only if its names do and the newest diagnostic fits 512 characters |
| Publish.DiagnosticFits | palaver/summary/reducer.py:36-43 | a diagnostic fits 512 characters exactly unless it spells out a foreign source of over 484 characters or a count of over 483 digits |
| Publish.PublishedReadsBack | palaver/ui/companion_state.py:131-210 | every such state encodes within 64 KiB, and a reader gets exactly it back |
| Publish.EveryTickPublishes | palaver/ui/companion_update.py:67-83 | under valid project and status names, the state of either source after any run of file contents is valid exactly while its malformed count has at most 483 digits, and then it fits the file and reads back equal |
| Publish.UntrustedFailsClosed | palaver/ui/companion_update.py:86-112 | a result whose source integrity is lost never reports parsed records, an ended turn or a settled command outcome |
| SignalMeaning.ClaudeSignals | palaver/ui/companion_update.py:86-112 | the signals of every transcript: parsed exactly if trustworthy; the turn ended exactly if no task runs and the last record to speak about it hands it over, unknown exactly if none speaks about it; an error open exactly if the last record to write the command is a failure with something to show, unknown exactly if it is one with nothing |
| SignalMeaning.CodexSignals | palaver/ui/companion_update.py:86-112 | the signals of every rollout: the turn ended exactly if the last event to touch it is a boundary or a question call that was taken up; an error open exactly if the last outcome is a failure that shows something |
| PublishedFields.TextsPublished | palaver/ui/companion_update.py:67-83 | request, command, newest diagnostic, names and time each stand under their own key in the written text |
| PublishedFields.ListsPublished | palaver/ui/companion_update.py:67-83 | the one activity with its kind, the last eight tasks with their status and the last eight questions stand under theirs |
| PublishedFields.LatestExactly | palaver/summary/model.py:215-237 | the activity is the newest item with an open question or a high-signal kind, shown as the last question its call asks or as itself; none is shown exactly if there is none |
| PublishedFields.KindNamesDiffer | palaver/ui/companion_update.py:78-79 | no two kinds of activity are published under one name |
| CompanionState.StateRoundTrip | palaver/ui/companion_state.py:169-216 | what is written reads back as the same state if and only if the state is valid and the text fits; otherwise it is refused |
| CompanionState.StateFile.AtomicWriteState | palaver/ui/companion_state.py:131-166 | the file holds the whole new state, or is untouched when the text is too long |
| StateReading.ReadIsStrict | palaver/ui/companion_state.py:169-216 | whatever text a reader accepts is within 64 KiB, has exactly the required keys, is of version 2, keeps every limit, and says what the state returned says |
| MemoryTable.Table.Execute | palaver/store/schema.py:326-414 | a raw statement either changes the table as the engine would after all guards passed, or not at all |
| MemoryTable.StatementKeeps | palaver/store/schema.py:326-414 | whatever one raw INSERT, INSERT OR REPLACE, UPDATE, UPDATE OR REPLACE or DELETE does, no row is lost, only timestamps of live rows change, and supersession stays acyclic, injective and tier-monotone |
| MemoryTable.RunKeeps | palaver/store/schema.py:576-593 | the same over every sequence of raw statements |
| MemoryTable.StoreShape | palaver/store/schema.py:245-253 | after any statements, in any id order, every memory lies on exactly one finite chain without repeats, whose tier numbers never fall towards older rows |
| MemoryTable.SuccessorOf | palaver/memory/supersede.py:139-156 | a successor is found exactly for superseded memories, and it points at them |
| MemoryStatements.StatementExactly | palaver/store/schema.py:326-414 | a raw statement gets through if and only if it inserts a fresh id that has evidence, correcting nothing or one live memory at no lower confidence, or only retimes live memories, or deletes nothing; and then it does exactly that |
| MemoryStatements.CorrectionGoesThrough | palaver/store/schema.py:395-402 | a live memory can always be corrected by one of the same tier |
| Normalize.RenderUser | palaver/extract/normalize.py:227-241 | the two loops emit one line per non-blank text and then one per non-blank result |
| Normalize.Normalized | palaver/extract/normalize.py:312-335 | the loop over records yields the transcript the chunk results are about |
| Normalize.ChunksConcatenate | palaver/extract/normalize.py:330-335 | the chunks of single records, joined, are byte for byte the transcript of all of them |
| RenderedText.RecordLinesAre | palaver/extract/normalize.py:213-291 | a record renders to its non-blank texts behind time and speaker, then to its results or calls behind their marks, in order |
| RenderedText.CollapsesExactly | palaver/extract/normalize.py:115-131 | every run of three or more newlines becomes two, shorter runs and everything else stay |
| RenderedText.ClipsExactly | palaver/extract/normalize.py:115-131 | a text within the limit stays whole, a longer one keeps its beginning and says how much is missing |
| QuoteGate.ToolOutputStartsAt | palaver/extract/quote_gate.py:252-264 | the offset loop finds the first line start that reads as tool output |
| QuoteGate.RejectedExactly | palaver/extract/quote_gate.py:278-371 | a quote is rejected exactly if it is blank, its chunk is missing, its span is improper, or it does not occur there |
| QuoteGate.HumanChunksExactly | palaver/extract/quote_gate.py:213-249 | a stored chunk reads as human exactly when its record was a human-classified user record that says something under a timestamp the reader strips |
| QuoteGate.CoreIsUnique | palaver/extract/quote_gate.py:195-210 | a text with its whitespace collapsed has exactly one core that neither starts nor ends with edge punctuation and has nothing but edge punctuation around it |
| QuoteGate.ComparesCores | palaver/extract/quote_gate.py:374-384 | a statement is the span exactly if the two have the same core and it is not empty |
| QuoteGate.BareTextsCompareWords | palaver/extract/quote_gate.py:195-210 | without edge punctuation at their ends, two texts compare equal exactly if their words agree |
| QuoteGate.TierOneSound | palaver/extract/quote_gate.py:326-371 | tier 1 implies a human user record, a span wholly before the chunk's first result line, and a statement with the same core as the quote |
| QuoteGate.TierOneExactly | palaver/extract/quote_gate.py:326-371 | a grounded quote is tier 1 in exactly that case, every other grounded quote is tier 4 |
| EvidenceStore.Connection.WriteMemory | palaver/memory/write.py:112-156 | the child-first loop leaves the evidence before the first refused anchor when it raises, and the whole memory otherwise |
| EvidenceStore.Connection.SupersedeMemory | palaver/memory/supersede.py:48-113 | an unknown predecessor changes nothing; otherwise an ordinary write in the predecessor's scope |
| EvidenceStore.Connection.AdmitDecision | palaver/extract/quote_gate.py:404-489 | a refused quote writes nothing, a grounded one is written at its capped tier with the span as evidence |
| EvidenceStore.Connection.PruneEphemeral | palaver/store/rollup.py:191-254 | the deletion loop removes exactly the expired chunks that no evidence cites |
| EvidenceSafety.PruneExactly | palaver/store/rollup.py:191-254 | a chunk is kept exactly if it is not older than the cutoff or some evidence cites it, and nothing else changes |
| EvidenceSafety.ReservedIsNext | palaver/memory/write.py:125 | the reserved id is one more than the highest memory id, or 1 |
| EvidenceSafety.SupersessionLinks | palaver/memory/supersede.py:48-113 | a stored correction has the predecessor's project, its session unless another is given, and what was passed in every other column; it is the only successor, at no lower confidence, and the predecessor's row is as it was |
| EvidenceSafety.EvidenceFloor | palaver/store/schema.py:576-593 | in every state any commands can reach, committed or pending, each memory has evidence |
| EvidenceSafety.EvidenceExactness | palaver/memory/write.py:112-156 | if every failed write is rolled back at once, each memory has exactly the anchors of its own write |
| EvidenceSafety.AdoptionExactly | palaver/memory/write.py:123-125 | a write's links are exact if and only if no orphan was filed under the id it reserves |
| EvidenceSafety.OrphanIsAdopted | palaver/observer/daemon.py:486-493 | without the rollback a later memory takes over a failed write's evidence, and commits |
| EvidenceSafety.EvidenceDurability | palaver/memory/evidence.py:133-179 | once the transaction of an admission commits, whatever else that transaction did before and after it, the anchor resolves to exactly the grounded quote and the memory keeps its columns, through any later writes, supersessions, inserts, prunings, commits and rollbacks |
| EvidenceSafety.TierOneMemory | palaver/extract/quote_gate.py:479-488 | a memory stored at tier 1 from a rendered record is the human's own words, under any cap that never improves a tier |
| Persist.PersistExtraction | palaver/extract/persist.py:260-350 | fields, then claims in order; the first claim that does not ground raises and leaves what came before pending |
| Persist.UpsertOverwritesOneRow | palaver/extract/persist.py:183-233 | at most one row per key also for a NULL session; the written key reads back with its time and every other key keeps its value |
| Persist.PassWritesItsRowsOnly | palaver/extract/persist.py:309-350 | a pass overwrites exactly the fields it has an opinion on, no other session's rows, and no memory table unless it carries claims |
| Persist.FieldsReadByName | palaver/extract/persist.py:309-320 | each field of a pass reads back under its own key |
| ClaimStorage.PassStoresClaims | palaver/extract/persist.py:236-350 | a pass that is not refused stores every decision and then every resolved question as one new memory with the claim's own statement, under its own origin, with evidence in its chunk that resolves to its quote, and no other memory |
| Json.RoundTrip | palaver/mcp/pagination.py:192-203 | decoding the compact encoding of any value gives the value back |
| Cursor.Base64Scans | palaver/mcp/pagination.py:112-115 | the lenient decoder inverts URL-safe base64 with its padding restored |
| Cursor.CursorRoundTrip | palaver/mcp/pagination.py:101-166 | a token decodes to its position under its own scope and is refused under any other fingerprint |
| Cursor.HonouredExactly | palaver/mcp/pagination.py:118-166 | a token gives a position if and only if it holds an object of this version, for this scope, with that integer |
| Cursor.ReservedIsLongEnough | palaver/mcp/pagination.py:255-263 | the reserved token is at least as long as a position's exactly when its decimal has at most 19 characters, which every 63-bit row id has |
| Pagination.EscapedAdds | palaver/mcp/pagination.py:265-268 | escaped byte length is additive over concatenation |
| Pagination.WireIsFramePlusEscaped | palaver/mcp/pagination.py:169-203 | the event is a constant frame plus the escaped length of the payload's JSON |
| Pagination.Paginate | palaver/mcp/pagination.py:206-308 | the loop with its running total cuts where the specification does, refuses an oversized first row by id, and checks the assembled page |
| Pagination.RunningTotalIsExact | palaver/mcp/pagination.py:269-308 | the running total is the exact event size with the reserved cursor, and exceeds the event sent by exactly the difference of the two tokens |
| PageSafety.LongestPrefixThatFits | palaver/mcp/pagination.py:272-290 | a prefix of the rows is accepted if and only if its own event fits the budget |
| PageSafety.RowTooLargeExactly | palaver/mcp/pagination.py:278-286 | paging gives up exactly when the first row's event is over budget, and names that row |
| PageSafety.AssertionExactly | palaver/mcp/pagination.py:303-307 | the final assertion fails if and only if there are no rows and the empty response is over budget, whatever the extras replace |
| PageSafety.LongNameFiresAssertion | palaver/mcp/pagination.py:303-307 | it does fail when nothing is found under a project name longer than the budget |
| PageSafety.LongIdFiresAssertion | palaver/mcp/pagination.py:255-263 | for every longer id some budget makes the assertion fail, so the bound on ids is needed |
| PageSafety.CursorContinuesAfterPage | palaver/mcp/pagination.py:294-301 | the cursor is null exactly when the last row is included, and otherwise decodes to the id of the page's last row |
| ResponseFields.PageShows | palaver/mcp/pagination.py:294-301 | under every key a page holds the extra given for it, or else the scope, the items of the rows taken or the cursor, and nothing under any other key |
| Drain.FollowIsExact | palaver/mcp/tools_read.py:214-229 | following cursors to null, with any inserts at MAX(id)+1 and any extras from call to call, yields exactly the scope's rows of the last table read, each once, in ascending id order |
| Drain.NothingPresentIsSkipped | palaver/memory/scope.py:102-119 | every row present at the start comes first, in order |
| Drain.FollowEnds | palaver/mcp/tools_read.py:214-229 | once inserts stop, as many calls as rows are left suffice |
| Drain.CursorBoundToScope | palaver/mcp/tools_read.py:290-300 | a cursor of another scope is refused whatever the store holds |
| Observer.CursorStore.Save | palaver/ingest/cursors.py:96-117 | the key reads back the new offset and every other key its old one, older file names included |
| Observer.PlanTick | palaver/observer/scheduler.py:128-148 | the sweep schedules exactly the sessions whose cursor moves and reads cursors without writing them |
| Observer.ObserverDaemon.TryExtract | palaver/observer/daemon.py:464-506 | one session's extraction, rollback, backoff, cursor save and commit change exactly this much of the daemon's state |
| Observer.ObserverDaemon.Tick | palaver/observer/daemon.py:442-517 | a tick over in-place state equals the step the run results are about, and reports what happened to each session |
| ObserverSafety.SkippedExactly | palaver/observer/scheduler.py:136-139 | a session is skipped exactly when its file did not shrink and no newline arrived after the cursor |
| ObserverSafety.CursorWasExtracted | palaver/observer/daemon.py:504-505 | over every run, each persisted cursor was reached by a tick that then extracted that session successfully |
| ObserverSafety.PersistedCursorIsExtracted | palaver/observer/daemon.py:474-509 | on append-only files that extraction began after exactly the complete lines before the cursor were on disk |
| ObserverSafety.UnfinishedStaysScheduled | palaver/observer/daemon.py:484-503 | failed work is scheduled again at every later discovery until an extraction succeeds |
| ObserverCommits.CommittedExactly | palaver/observer/daemon.py:484-506 | after every run of ticks the committed tables hold the writes of exactly the attempts that succeeded, or whose rollback failed and which the first later attempt to settle what was pending committed, one after the other |
| ObserverCommits.FailureChangesNothing | palaver/observer/daemon.py:484-503 | while rollbacks work, in every mixed run each attempt that fails or is deferred leaves tables and cursors as they were and nothing pending, and the successes are exactly what is committed |
| ObserverCommits.DaemonKeepsEvidenceExact | palaver/observer/daemon.py:486-493 | every run of ticks that routes extraction passes keeps the rollback rule, so each memory ends up linked to exactly the anchors of its own write |
| ObserverSafety.OnlySuccessesPersist | palaver/observer/daemon.py:464-506 | a run without a successful extraction commits nothing and moves no cursor |
| ObserverSafety.BackoffIsStreak | palaver/ingest/cursors.py:159-186 | after every run a retry time is stored exactly while the last attempt failed, at the delay of that many failures in a row |
| ObserverSafety.DelaySchedule | palaver/ingest/cursors.py:171-172 | the delays are 30, 60, 120, 240 and 480 seconds, then always 900 |
| ObserverSafety.DeferredExactly | palaver/observer/daemon.py:474-483 | after every run a session is deferred exactly while less than the delay of its failures in a row has passed since the last one |
| ObserverSafety.OlderFilesAreClaudes | palaver/ingest/cursors.py:75-94 | cursor files named by session alone answer for Claude Code sessions without a file of their own and for no other key |
| Replay.Ingester.Replay | palaver/replay.py:252-331 | the ingest loop over mutable tables equals the step the run results are about, with true counts of what it wrote |
| ReplayMemory.RemembersExactly | palaver/replay.py:303-323 | one whole replay writes a memory if and only if its key was not stored and some tailed message renders to text; it cites the whole of the first chunk that says something, and otherwise memories are unchanged |
| ReplayMemory.MemoryExactly | palaver/replay.py:252-331 | over every run a session is stored exactly if some replay committed under its key, and has a memory exactly if the first of these met a message that says something |
| ReplaySafety.NothingIsLost | palaver/replay.py:318-327 | over every interleaving of appends and replays cut anywhere, what the cursor passed is stored in order, chunk numbers are 1..n, chunks join to the transcript of the stored messages, and a session has at most one memory, anchored to a whole non-empty chunk of its own |
| ReplaySafety.OnlyDuplicates | palaver/replay.py:252-331 | what is stored is exactly the slices of the file that the replays found behind the cursor, each starting where the one before it ended, or started if that one died before saving its cursor: only lines of the file, and only a lost cursor stores any twice |
| ReplaySafety.ExactlyOnce | palaver/replay.py:252-331 | unless a replay died between commit and cursor save, exactly the complete lines before the cursor are stored, and after a whole replay exactly those of the file |
| ReplaySafety.SecondReplayWritesNothing | palaver/replay.py:384-390 | replaying an unchanged file writes no row and keeps the cursor |
| Migrate.FreeBackupPath | palaver/store/migrate.py:39-53 | the loop ends at the first free suffix |
| Migrate.Store.Run | palaver/store/migrate.py:108-198 | one run leaves an exact upgrade of the old database, keeps every older backup, and adds one true backup per attempted migration |
| MigrationRaces.RacesStayConsistent | palaver/store/migrate.py:150-198 | for any number of processes, interleavings and crashes the database is exactly its recorded version of the base, each migration committed once and in order |
| MigrationRaces.VersionNeverDecreases | palaver/store/migrate.py:164-176 | in all of these runs the recorded version never falls |
| MigrationSafety.SoloStaysSound | palaver/store/migrate.py:177-189 | one process at a time, rollbacks that fail included: consistent except while a restore is half copied, and every new backup is the full state at its version |
| MigrationSafety.BackupsAreKept | palaver/store/migrate.py:39-71 | with one process at a time, rollbacks that fail included, no backup, old or new, is ever overwritten or removed |
| BackupRaces.BackupKeptExactly | palaver/store/migrate.py:39-71 | with any processes, no later run renames anything onto a backup or changes it if and only if no live process that chose its name while it was free can still rename onto it |
| BackupRaces.RaceOverwritesBackup | palaver/store/migrate.py:56-71 | whatever the first pending migration is, two processes without any failure can replace the only backup of the old database by a copy of the new one |
| BackupRaces.RestoreRaceLosesMigration | palaver/store/migrate.py:186-189 | beside a second process the restore can end in a version whose content lacks an earlier migration, for every two migrations that do not hide it |
| TurnBoundary.DeriveTurnBoundary | palaver/observer/turn_boundary.py:223-307 | the backward loop stops at the last hole or non-injected message and reports its verdict |
| TurnMeaning.TurnExactly | palaver/observer/turn_boundary.py:223-307 | the turn ended exactly if the last record to speak is an assistant message that asks the human or makes no call while no started task is unfinished; it did not end exactly if that record is a user message, another call, or held up by a task; it is unknown exactly if it is a hole or there is none |
| TurnMeaning.BasisExactly | palaver/observer/turn_boundary.py:223-307 | each of the eight bases is reported for exactly these records and no others |
| TurnMeaning.ActiveExactly | palaver/ingest/adapters/claude_code.py:144-156 | a task counts as active exactly if some record starts it and none from there on finishes it |
| TurnBoundary.Corroborate | palaver/observer/turn_boundary.py:310-385 | the hook scan and the age test weigh a decided boundary as specified |
| TurnMeaning.CorroborationExactly | palaver/observer/turn_boundary.py:310-385 | exactly which Stop hooks and file ages confirm or contradict the turn |
| TurnBoundary.DeriveSignals | palaver/observer/turn_boundary.py:426-463 | window, parsed flag, tool error and boundary come out as the specification says |
| TurnMeaning.ToolErrorExactly | palaver/observer/turn_boundary.py:405-423 | an error is open exactly if the last outcome in the window is an error result, unknown exactly if it is a hole |
| TurnBoundary.HasUnresolvedTrailingToolUse | palaver/ingest/adapters/claude_code.py:373-411 | the forward scan reports an open call exactly if the last conversational record is an assistant call |
| TurnAgreement.DecisiveRecordDecides | palaver/observer/turn_boundary.py:250-297 | the last decisive record, with the active background tasks, alone settles the turn |
| TurnAgreement.NoBasisExactly | palaver/observer/turn_boundary.py:246-257 | no basis is reported exactly when no record is a hole or a non-injected message |
| TurnAgreement.BookkeepingIsInvisible | palaver/observer/turn_boundary.py:257-273 | inserting a bookkeeping or injected record without task marker anywhere changes neither the turn nor its basis |
| TurnAgreement.CorroborationNeverDecides | palaver/observer/turn_boundary.py:357-385 | file time and clock never change the turn, and disagreement means exactly a Stop hook after a record that kept the turn |
| TurnAgreement.HoleOnlyAtWindowStart | palaver/observer/turn_boundary.py:388-402 | a hole in the signal window can only be its first record |
| TurnAgreement.UnparsedExactly | palaver/observer/turn_boundary.py:447-450 | records count as unparsed exactly if a line after the last human turn did not decode |
| TurnAgreement.ToolErrorUnknownExactly | palaver/observer/turn_boundary.py:405-423 | the tool error is unknown exactly if a hole is newer than every outcome |
| TurnAgreement.UncertainImpliesUnparsed | palaver/observer/turn_boundary.py:388-463 | an undecodable basis or an unknown tool error never comes with parsed records |
| TurnAgreement.ScansAgree | palaver/observer/turn_boundary.py:388-463 | boundary, window and error scans read the same record, unless a record of another kind carries an outcome past the boundary: then that outcome is the one reported |
| TurnAgreement.StrayOutcomeShows | palaver/observer/turn_boundary.py:405-423 | a bookkeeping record with an error result after a successful one is reported as an error while the boundary stays at the success |
| TurnAgreement.AdapterAgrees | palaver/ingest/adapters/claude_code.py:373-411 | the boundary names an open call exactly when the adapter's scan does and no hole hides the end |
| TurnAgreement.AdapterLooksThroughHoles | palaver/ingest/adapters/claude_code.py:373-411 | after an open call and a hole the adapter still reports the call, the boundary an undecodable record |
| TurnAgreement.DeriveSignalsFromEvents | palaver/observer/turn_boundary.py:466-547 | the two reversed loops find the last deciding kinds |
| TurnAgreement.EndedIff | palaver/observer/turn_boundary.py:518-525 | an event stream ended its turn exactly if a boundary has no message after it |
| TurnAgreement.ErrorIff | palaver/observer/turn_boundary.py:527-534 | an error is open exactly if no boundary came after it |
| Rows.AllocateRows | palaver/ui/companion_render.py:252-331 | the nested loops and their breaks compute the allocation |
| RowClaims.AllocatedExactly | palaver/ui/companion_render.py:252-331 | the allocation deals the rows to one list of claims in a fixed order, each taking what it needs of what is left |
| Rows.NoRowWasted | palaver/ui/companion_render.py:252-331 | each section stays within its items and cap, and together they take every row there is or everything there is to show |
| Rows.TallerShowsNoLess | palaver/ui/companion_render.py:252-331 | a taller pane never shows less of REQUEST or NOW, also across the regime changes |
| Cells.TakeCells | palaver/ui/companion_render.py:112-125 | the prefix loop with its early returns |
| Cells.TakenShape | palaver/ui/companion_render.py:112-125 | a taken prefix fits, is never empty, and splits the text unless an ellipsis stands for a character that cannot fit |
| Cells.WrapWords | palaver/ui/companion_render.py:128-159 | the nested wrap loops terminate and never need the fallback for an empty piece |
| Cells.LinesFitExactly | palaver/ui/companion_render.py:128-159 | every line fits if and only if no word is a single character wider than the pane |
| Cells.WideCharacterOverflows | palaver/ui/companion_render.py:128-159 | one double-width character in a pane of one cell is such a line |
| Cells.WrappingKeepsWords | palaver/ui/companion_render.py:128-159 | if every word fits, splitting the lines gives the words back in order |
| Cells.WrappingKeepsLetters | palaver/ui/companion_render.py:128-159 | if every character fits, no character is lost or reordered |
| GreedyWrap.WrappingIsGreedy | palaver/ui/companion_render.py:128-159 | if every word fits, a line is broken only where the next word would not fit any more |
| GreedyWrap.CutsAreNeeded | palaver/ui/companion_render.py:128-159 | a long word is cut only where the next character would not fit |
| Cells.ClippedFits | palaver/ui/companion_render.py:98-109 | a clipped row fits, and one that fits already keeps its width |
| GreedyWrap.ClippedExactly | palaver/ui/companion_render.py:98-109 | a row that fits is left as it is; of any other, the longest beginning that leaves room for an ellipsis is kept |
| Frame.ContentLines | palaver/ui/companion_render.py:334-355 | the nested loops emit the allocated rows of each section in display order |
| FrameContent.RowShows | palaver/ui/companion_render.py:334-355 | every value that has a row stands in it, in section order, behind its section's label in the first row and blanks below, and no row holds anything else |
| FrameContent.ClipsExactly | palaver/ui/companion_render.py:66-86 | a value that fits is shown whole; of any other, the longest beginning that leaves room for an ellipsis |
| Frame.EncodeFrame | palaver/ui/companion_render.py:441-452 | the padding loops yield exactly the frame's rows |
| Frame.StylingIsInvisibleExactly | palaver/ui/companion_render.py:376-406 | erasing escape sequences gives the line back if and only if it is not a label behind leading blanks |
| Frame.RowIsExact | palaver/ui/companion_render.py:441-452 | an encoded row shows the clipped line and blanks, in exactly the pane's width |
| Frame.RowsAreLines | palaver/ui/companion_render.py:441-452 | no row holds a line break, so the frame splits back into its rows |
| Frame.RenderedFrameIsExact | palaver/ui/companion_render.py:334-452 | header and content never exceed the height, and every row of every frame is exactly the pane's width |

## Left out

- Sockets, HTTP, inference, terminals, signals, launch agents and process tables: the extractor is an arbitrary function that succeeds or raises.
- SQLite itself: transactions are atomic and durable, BEFORE triggers fire on every statement, deferred foreign keys are checked at commit. Full-text search, `model_runs`, UPSERT statements and foreign-key pragmas are not modelled.
- SHA-256: the scope fingerprint is any 16 hexadecimal digits; tokens are refused when fingerprints differ.
- Swaps of a file that the program cannot see: it shrank and regrew past the cursor between two looks.
- Unicode tables and lone surrogates: characters are Unicode scalar values, with any widths from 0 to 2 and any control category.
- UTF-8 as bytes: only lengths are modelled; cursor payloads with non-ASCII bytes are refused by the model where the program would decode them first and refuse them later.
- Floats: a number with a fraction or an exponent is kept as its spelling, since writing and reading a double is exact on the shortest spelling. Rounding, `NaN`, infinities and spellings beyond the range of a double are not modelled; published times have spellings of at most 32 characters.
- `discover_sessions`, the daemon's `start`, `close` and `run` loop, and the socket request handler: windows, sleeping and plumbing around the modelled steps.
- Scope parsing and session lookup: their result is the owner of the rows and the scope echoed.
- The Codex and OpenCode transcript renderers: only the Claude Code rendering is modelled.
- Decoding of a record's JSON into the reducers' events: tool ids that are not strings are modelled as absent, texts that are not strings as empty.
- Exact wording of logs and error messages; the model keeps only the diagnostics that are shown.
- The choice of colours for statuses and activity kinds: only that colours never change what a row shows.
- BackupRaces.BackupKeptExactly: `VACUUM INTO` is refused whenever its target exists, where SQLite would accept one that is still empty; testing for a `.partial` file and removing it are one step.
- Record-level ordering of `events` and chunk rows in SQL is by id; ids are positions, since rows are never deleted there.
