# Verification of the Sopho core

A Dafny model of the parts of this repository whose correctness spans several functions, with
proofs of what they promise. `dafny verify dfyconfig.toml` checks all of it.

## What is modelled

- `SseReader.dfy`: the buffered reader of server-sent events. The text arrives in arbitrary
  chunks; the reader turns CR LF into LF, cuts off blocks at blank lines and parses each block.
- `SseMessages.dfy`: the same reader seen line by line, and for which texts the messages alone do
  not depend on the chunks.
- `DataCatalog.dfy`: splitting a schema catalog into batches of tables, marking each batch in
  place with its own deletion and selection sets, and joining the batches. Hash maps are
  enumerated in an arbitrary order: each loop picks any remaining key.
- `GridPacker.dfy`: next-fit packing of charts into the 12-column dashboard grid, on 16-bit
  fields with the wrap-around of a release build, against a specification on unbounded rows.
- `ChartQuery.dfy`: from the axis settings of a plan to the stored chart content, the list of
  output names, and the SQL text; and a reader for that text.
- `CanvasPlan.dfy`, `CanvasRequest.dfy`, `CanvasDedup.dfy`: resolving an untrusted plan into
  operations, what the operations say of what the model answered, and what the deduplication is worth
  once they are applied.
- `CanvasStore.dfy`: applying the operations inside one transaction. Store calls are numbered and
  any set of them may fail; a failure abandons the transaction. Cells are held in display order,
  which is how the query returns them (`CanvasOrder.NewCellsComeLast` shows that order is kept).
- `CanvasIntegrity.dfy`, `CanvasResults.dfy`, `CanvasDashboard.dfy`, `CanvasOrder.dfy`,
  `CanvasCharts.dfy`, `CanvasEndToEnd.dfy`: what an applied plan keeps. The proofs go through an
  outline of the notebook, a set of SQL cells and a map from each chart to the cell it draws.
- `CanvasContents.dfy`, `CanvasAnswers.dfy`, `CanvasAcceptance.dfy`: what each cell, chart and
  dashboard entry says after a plan, from the answer to the stored content; and which plans are
  applied when no store call fails.
- `Conversation.dfy`: the message log of a conversation under create, append, start of a
  completion, finish and delete, and the history read back from it.
- `CompletionPipeline.dfy`: the producing task, in which any number of senders may be at work, and
  the persisting task that finish an answer, joined by a bounded channel, and the bounded channel to
  the client, who may read slowly or leave; step by step in any interleaving and with any store
  failures.
- `SummaryClaims.dfy`: the claim on one AI summary row, with any number of requests interleaved
  between their store calls and clock readings.
- `PoolRegistry.dfy`: the pool cache, keyed by connection and credentials, with its double-checked
  lock, callers interleaved.
- `CellReorder.dfy`: moving a cell within its notebook and renumbering.
- `Text.dfy`, `Sequences.dfy`, `Wrappers.dfy`: string functions, sequence facts, result types.

Where the code loops or updates fields, the model has a method (in a class where the code has an
object or a table), proved equal to a specification function; the results are lemmas about that
function. Where the code runs concurrently, the model is a state machine and the results hold for
every sequence of its steps.

## Properties that hold only under a condition

The code is modelled as it is. Where a property one would expect fails, the exact condition is
proved; for the summary claims, which rest on two hypotheses about their environment, each is shown
to be needed. The lemmas named last in an item exhibit accepted inputs on which the property fails.

- Chunk independence of the reader fails on CR CR LF: replacing in the joined buffer leaves CR LF
  behind, and the next chunk's replacement removes it. Blocks and buffer are independent exactly for
  the other texts; the messages exactly when no data line ends in CR CR LF and no line of two or more
  CRs alone stands between two data lines of a block (`ChunkIndependence`, `MessagesIndependent`,
  `StreamDependsOnChunks`).
- A lone CR is no line end for this reader, although section 9.2.6 of the WHATWG HTML standard
  makes it one. Its lines are the standard's exactly for the texts in which every CR is followed by
  LF (`StandardLinesUnlessLoneCr`, `LoneCrJoinsLines`). The final flush also delivers an event whose
  blank line is missing (`FlushBlock`), which that section discards.
- Applying a plan reads the pairs of query and chart once. A cell without a chart that gets one
  and is then drawn on again gets a second; one that is then deleted leaves its chart behind. All
  other operation lists keep every chart on a live cell of its own, repeated indices included
  (`IntactIffSafe`, `DrawingTwiceBreaks`, `ChartThenDeleteBreaks`).
- Different queries stay different exactly for the plans that recreate no cell's query twice over,
  leave cells with different texts, and add no query that such a text repeats
  (`DeduplicationIsSound`). Deleting a cell twice takes its query out of `present` twice, so a query
  created in between can be created again (`TwiceOverRepeats`); and updates do not touch `present`,
  so they can repeat a query of another cell, or be repeated by a later creation
  (`RewritingCanRepeat`, `RewrittenCanBeCreated`).
- `present` is the queries of the live cells at every moment exactly for the plans that delete no
  cell again after recreating its query and give no live cell another query (`PresentIsLive`,
  `PresentLosesQuery`).
- When reading the target canvas or its notebook fails, the code goes on with a new canvas. A
  committed plan worked on its target exactly when reading it did not fail; otherwise its updates and
  deletions did nothing (`ReusedIffRead`, `FailedReadStartsAnew`, `FailedReadIsCommitted`).
- A summary run that takes longer than five minutes records its result although another run has
  taken over, after which a third may start; and deleting the row under a live run always lets
  another start (`AtMostOneLive`, `DeletionAdmitsAnother`, `OverdueRecordAdmitsTwo`,
  `DeletionAdmitsTwo`). When an undisturbed request starts is an exact condition on the row, and
  beside a live run on the clock (`FreshRequestStarts`, `FreshRequestStartsIffOverdue`).
- `reorder_cell` uses the display order as a position, so in a notebook not numbered 1..n another
  cell than the requested one may move (`RequestedCellMoves`, `AnotherCellMoves`).
- Callers share a pool exactly when their connection, engine and what their credentials contribute to
  the URL are the same (`UrlTellsLocation`, `ChangedCredentialsGetOwnPool`). That is the same
  credentials when the user's name and the host hold no colon, the password no `@` and the port no
  slash; others may share a URL (`UrlTellsCredentials`, `ColonMovesUnseen`).
- The first question of a conversation is stored without the validation that appended ones get
  (`FirstQuestionIsAnsweredIffValid`).
- 16-bit rows wrap around in a release build; placements are right exactly when the last row fits
  (`PlacedExactlyWhenLastRowFits`, `WrappedChartOverlaps`).

## Model

| member | source | states |
|---|---|---|
| `SseReader.ParseSseEventBlock` | frontend/src/utils/fetch_sse.ts:11-24 | the payload of an event block: its `data:` lines joined, one leading space off each, comments ignored, nothing when there is no data line |
| `SseReader.DrainSseBuffer` | frontend/src/utils/fetch_sse.ts:26-40 | cuts off every complete block, reports the payload of each in order, and returns what is left |
| `SseReader.StreamSse` | frontend/src/utils/fetch_sse.ts:79-97 | the messages of the read loop and the final flush are those of the specification by recursion over the chunks |
| `SseReader.IndexOfBlankLineIsFirst` | frontend/src/utils/fetch_sse.ts:30-37 | the separator found is the first one |
| `SseReader.DrainLossless` | frontend/src/utils/fetch_sse.ts:26-40 | the blocks cut off, each with its blank line, and the leftover are the text: nothing is lost or repeated |
| `SseReader.RunIsWholeText` | frontend/src/utils/fetch_sse.ts:81-94 | without CR CR LF, feeding chunks leaves the same blocks and buffer as draining the whole normalised text |
| `SseReader.ChunkIndependence` | frontend/src/utils/fetch_sse.ts:81-94 | for every text: all ways of cutting it into chunks give the same blocks and leftover buffer if and only if it holds no CR CR LF |
| `SseReader.StreamChunkIndependence` | frontend/src/utils/fetch_sse.ts:79-97 | without CR CR LF the messages, final flush included, do not depend on the chunks |
| `SseReader.StreamDependsOnChunks` | frontend/src/utils/fetch_sse.ts:91-97 | for every one-line payload, a text with CR CR LF whose messages differ between two ways of cutting it |
| `SseReader.FramesParse` | frontend/src/utils/fetch_sse.ts:11-40 | a printed sequence of event and comment frames drains to exactly its frames, with any text behind it, and parses to its payloads |
| `SseReader.FlushBlock` | frontend/src/utils/fetch_sse.ts:95-97 | a last block whose blank line is missing is delivered by the flush |
| `SseReader.BlockCarries` | frontend/src/utils/fetch_sse.ts:11-24 | for every block: it carries a message iff one of its lines starts with `data:`, and the lines of the message are the values of exactly those lines, in order, one leading space off each |
| `SseReader.RoundTrip` | frontend/src/utils/fetch_sse.ts:11-97 | printing any frames of CR-free payloads and comments, cutting the text anywhere and reading gives exactly the payloads in order, also with one or two of the last characters lost (section 9.2.6 of the WHATWG HTML standard) |
| `SseReader.StandardLinesUnlessLoneCr` | frontend/src/utils/fetch_sse.ts:92 | for every text: splitting the normalised text at LF gives the lines of section 9.2.6 of the WHATWG HTML standard iff every CR is followed by LF |
| `SseReader.LoneCrJoinsLines` | frontend/src/utils/fetch_sse.ts:92 | for every two lines: joined by a lone CR they are one line here and two in the standard |
| `SseMessages.StreamGroups` | frontend/src/utils/fetch_sse.ts:11-97 | the messages of any chunks, flush included, are the data lines between blank lines of the text the reader has turned the input into |
| `SseMessages.RunSheds` | frontend/src/utils/fetch_sse.ts:91-92 | however the text is cut, reading takes nothing but carriage returns off the ends of its LF-ended lines, at least one where there is one |
| `SseMessages.SlowlyPure` | frontend/src/utils/fetch_sse.ts:91-92 | every text has a cutting that leaves no CR LF at all |
| `SseMessages.MessagesIndependent` | frontend/src/utils/fetch_sse.ts:79-97 | for every text: all ways of cutting it give the same messages iff no data line ends in CR CR LF and no line of two or more CRs alone stands between two data lines of a block |
| `DataCatalog.Database.DeleteTable` | backend/src/data_catalog/dto.rs:41-46 | finds the table or changes nothing; only that table is marked deleted |
| `DataCatalog.Database.SelectTable` | backend/src/data_catalog/dto.rs:61-66 | finds the table or changes nothing; only that table is marked selected |
| `DataCatalog.Database.DeleteColumn` | backend/src/data_catalog/dto.rs:48-59 | finds the column or changes nothing; only that column is marked deleted |
| `DataCatalog.Database.SelectColumn` | backend/src/data_catalog/dto.rs:68-79 | finds the column or changes nothing; only that column is marked selected |
| `DataCatalog.DeleteTables` | backend/src/data_catalog/utils.rs:108-114 | the loop marks exactly the tables named for this database |
| `DataCatalog.DeleteColumns` | backend/src/data_catalog/utils.rs:115-125 | the loop marks exactly the columns named for this database |
| `DataCatalog.SelectTables` | backend/src/data_catalog/utils.rs:127-133 | the loop marks exactly the tables named for this database |
| `DataCatalog.SelectColumns` | backend/src/data_catalog/utils.rs:134-144 | the loop marks exactly the columns named for this database |
| `DataCatalog.PruneDataCatalogBatch` | backend/src/data_catalog/utils.rs:103-145 | the four loops in sequence set exactly the flags that the entries of the answers name: a deletion entry the deletion flag, a selection entry the selection flag, of its own database; nothing else changes |
| `DataCatalog.PrunedIsAnswered` | backend/src/data_catalog/utils.rs:103-145 | the specification of pruning, stated on the entries of both answers, flag by flag |
| `DataCatalog.MarkTwice` | backend/src/data_catalog/utils.rs:103-145 | marking step by step is marking once with the union, so the order of the loops does not matter |
| `DataCatalog.ListTables` | backend/src/data_catalog/utils.rs:153-165 | the work list holds every table once, whatever the enumeration order of the maps |
| `DataCatalog.BuildBatch` | backend/src/data_catalog/utils.rs:169-196 | a batch is exactly the part of the catalog its chunk names, schema fields included |
| `DataCatalog.GetDataCatalogBatches` | backend/src/data_catalog/utils.rs:147-206 | the batches partition the tables; each but the last holds exactly max(batch size, 1), none is more, and there is always one |
| `DataCatalog.ChunksPartition` | backend/src/data_catalog/utils.rs:166-204 | consecutive chunks of a list without repetition are a partition of what it lists |
| `DataCatalog.JoinTable` | backend/src/data_catalog/utils.rs:72-95 | adds the kept columns of a table over those already joined, marked selected |
| `DataCatalog.JoinSchema` | backend/src/data_catalog/utils.rs:56-96 | adds the kept tables of a schema over those already joined |
| `DataCatalog.JoinBatch` | backend/src/data_catalog/utils.rs:22-98 | adds the kept schemas of a batch over those already joined |
| `DataCatalog.JoinPrunedBatches` | backend/src/data_catalog/utils.rs:11-101 | the nested loops, in any enumeration order, compute the overlay of what each batch keeps |
| `DataCatalog.KeptOverlay` | backend/src/data_catalog/utils.rs:22-98 | filtering two disjoint parts of a catalog and overlaying them is filtering both together |
| `DataCatalog.JoinIsPointwise` | backend/src/data_catalog/utils.rs:11-206 | batch, prune each batch with its own answers, join = filter the whole catalog entry by entry, each table judged by the answers of its batch |
| `DataCatalog.AnswersDecide` | backend/src/data_catalog/utils.rs:11-206 | from the answers to the joined catalog: a column survives iff a selection entry of its batch names it or no deletion entry does, a table iff a selection entry names it or a column survives, a schema iff a table does; each with its own name, type, description and samples |
| `DataCatalog.Survivors` | backend/src/data_catalog/utils.rs:22-98 | a column survives iff its batch selected it or did not delete it, a table iff it is selected or keeps a column, a schema iff it keeps a table |
| `DataCatalog.SplitDoesNotMatter` | backend/src/data_catalog/utils.rs:147-206 | with the same answers for all batches, any two ways of batching join to the same catalog |
| `DataCatalog.SplitIs` | backend/src/data_catalog/utils.rs:11-206 | with the same answers for all batches the result is a function of the catalog and the answers alone |
| `DataCatalog.PrunedStaysKeyed` | backend/src/data_catalog/utils.rs:24-49 | the join's look-up by name always finds its entry on pruned batches |
| `GridPacker.MaxBottom` | backend/src/dashboard/service.rs:178-184 | an upper bound on all bottoms that is attained |
| `GridPacker.Retained` | backend/src/dashboard/service.rs:217 | exactly the entries not removed |
| `GridPacker.DashboardGridPacker.constructor` | backend/src/dashboard/service.rs:178-184 | starts a row below the lowest bottom |
| `GridPacker.DashboardGridPacker.Place` | backend/src/dashboard/service.rs:186-204 | on 16-bit fields, places where the unbounded specification does, rows modulo 2^16 |
| `GridPacker.AppendDashboardCharts` | backend/src/dashboard/service.rs:216-237 | the loop leaves the retained entries followed by the packed ones, or reports that the cap is exceeded |
| `GridPacker.PackInReadingOrder` | backend/src/dashboard/service.rs:186-204 | every rectangle has width 4..12 inside 12 columns and height 3..6; placements are in reading order and pairwise disjoint |
| `GridPacker.PackIsTight` | backend/src/dashboard/service.rs:186-204 | each chart stands right beside the one before if it fits there, and otherwise at the start of a row whose top is the bottom of a chart of the row above |
| `GridPacker.PlacedAsRequested` | backend/src/dashboard/service.rs:186-192 | each chart has the size asked for as far as 4..12 columns and 3..6 rows allow, 4 x 3 when nothing is said |
| `GridPacker.PackRowsGrow` | backend/src/dashboard/service.rs:186-204 | the k-th chart starts at most 6k rows below the row in progress |
| `GridPacker.WrapCommutes` | backend/src/dashboard/service.rs:195-203 | wrapping to 16 bits at each step is wrapping at the end |
| `GridPacker.PlacedExactlyWhenLastRowFits` | backend/src/dashboard/service.rs:186-204 | the 16-bit placements are the real ones if and only if the last row fits in 16 bits |
| `GridPacker.RoomIsEnough` | backend/src/dashboard/service.rs:186-204 | the last row fits when the start row plus 6 rows a chart does |
| `GridPacker.WrappedChartOverlaps` | backend/src/dashboard/service.rs:195-203 | a dashboard down to row 65533 where an accepted append puts its second chart at row 3, over another chart |
| `GridPacker.NewChartsStayClear` | backend/src/dashboard/service.rs:219-230 | when the last new row fits in 16 bits, new charts lie inside the grid, below the start, and overlap no other |
| `GridPacker.AppendedChartsDoNotOverlap` | backend/src/dashboard/service.rs:207-243 | when the last new row fits in 16 bits, new charts overlap neither each other nor any kept chart whose bottom does not saturate; kept ones are unchanged; at most 30 |
| `GridPacker.RowsAreNewRows` | backend/src/dashboard/service.rs:195-199 | the number of distinct rows is one more than the number of row breaks |
| `GridPacker.NextFitWaste` | backend/src/dashboard/service.rs:186-204 | 13*(rows-1) + 8 <= 2*(total clamped width), for every non-empty request sequence |
| `GridPacker.NextFitWithinTwiceAnyPacking` | backend/src/dashboard/service.rs:186-204 | next-fit never uses more than twice the rows of any assignment of the charts to 12-column rows |
| `Conversation.ConversationStore.CreateConversation` | backend/src/conversational_analytics/conversation/service.rs:189-226 | stores the conversation with its first human message, number 1, unvalidated |
| `Conversation.ConversationStore.AppendUserMessage` | backend/src/conversational_analytics/conversation/service.rs:358-438 | each error in the order of the code, or one human message numbered after the last |
| `Conversation.ConversationStore.ExecuteCompletion` | backend/src/conversational_analytics/conversation/service.rs:451-537 | each error in the order of the code, or one PROCESSING assistant message, and the question to answer |
| `Conversation.ConversationStore.UpdateMessageStatus` | backend/src/conversational_analytics/conversation/service.rs:831-832 | changes the status of that message only |
| `Conversation.LogInvariant` | backend/src/conversational_analytics/conversation/service.rs:189-506 | after every possible run of create, append, start, finish and delete: messages alternate from human, are numbered 1..n, hold at most 10 human and 20 in all, and only the last may be PROCESSING |
| `Conversation.RunIsGood` | backend/src/conversational_analytics/conversation/constants.rs:17-23 | the inductive invariant behind it, unique message ids included |
| `Conversation.RoomToAppend` | backend/src/conversational_analytics/conversation/service.rs:377-394 | the human messages are half of the log rounded up, so the limit of 10 bounds the whole log by 20 |
| `Conversation.AppendedQuestionIsAnswered` | backend/src/conversational_analytics/conversation/service.rs:396-413 | a question the append accepted passes the completion's own validation, and the question answered is the text without whitespace at its ends |
| `Conversation.AppendTakenIff` | backend/src/conversational_analytics/conversation/service.rs:358-438 | in every reachable log an append is taken iff the last message is a finished answer, there are fewer than 20 messages and the text is 1..16384 characters when trimmed or blank with commands; it then adds that text as the next human message, and otherwise changes nothing |
| `Conversation.CompletionTakenIff` | backend/src/conversational_analytics/conversation/service.rs:451-537 | in every reachable log a completion starts iff the last message is human and its text may be asked; the question is that text, trimmed |
| `Conversation.FirstQuestionIsAnsweredIffValid` | backend/src/conversational_analytics/conversation/service.rs:478-482 | a first question, which is stored without validation, can be answered iff it is 1..16384 characters when trimmed or blank with commands |
| `Conversation.PairTurns` | backend/src/conversational_analytics/conversation/history.rs:55-86 | the loop pairs each answered question with its answer |
| `Conversation.SelectTwice` | backend/src/ai/dto.rs:365-385 | selecting from a selection, as loading does, selects all of it; never more than the limit |
| `Conversation.NewestAreSelected` | backend/src/ai/dto.rs:365-385 | the turns selected are the last relevant ones, as many as the limit allows |
| `Conversation.LoadWithinLimits` | backend/src/conversational_analytics/conversation/history.rs:24-53 | within the scan and turn limits, loading is one selection over the paired turns |
| `Conversation.PairedTurns` | backend/src/conversational_analytics/conversation/history.rs:55-86 | on a good log pairing gives exactly the earlier turns, by position |
| `Conversation.HistoryIsExact` | backend/src/conversational_analytics/conversation/history.rs:24-98 | on every reachable log being answered, loading returns, in order, exactly the earlier PROCESSED turns and the previous turn if it awaits clarification; no limit drops one |
| `CompletionPipeline.AnsweredMeansEverythingStored` | backend/src/conversational_analytics/conversation/service.rs:772-842 | in every interleaving with any store failures: a stored PROCESSED means the content rows are exactly the events that the senders sent for storing, each sender's in its order, and then Completed, numbered 1..k and typed; likewise for the other answers; nothing sent to the client alone is among them |
| `CompletionPipeline.ClientIsOfferedWhatWasSent` | backend/src/ai/dto.rs:493-505 | when an answer is finished the client was offered exactly what was sent in both ways, each sender's in its order, and then one terminal event, whatever failed |
| `CompletionPipeline.OneSenderInOrder` | backend/src/ai/dto.rs:493-505 | with one sender at work the events are those it sent, in order |
| `CompletionPipeline.OneTerminalEventLast` | backend/src/conversational_analytics/conversation/service.rs:564-595 | exactly one terminal event is offered to the client, last; unless it is an error, its status is the stored one |
| `CompletionPipeline.HealthyRunAnnouncesOutcome` | backend/src/conversational_analytics/conversation/service.rs:564-595 | without failures the outcome that the pipeline ended with is stored as its status and announced as its event |
| `CompletionPipeline.EveryStepAdvances` | backend/src/conversational_analytics/conversation/service.rs:792-842 | once the pipeline has ended, every step that changes anything, the client's included, lowers a bound |
| `CompletionPipeline.NeverStuck` | backend/src/conversational_analytics/conversation/service.rs:539-596 | in every reachable state before the end some task can step, a full channel between them included, or a task waits for a client whose own channel is full and the client can read; at most 73 effective steps follow the end of the pipeline |
| `SummaryClaims.SummaryTable.TryMarkGenerating` | backend/src/ai_summary/repository.rs:46-70 | one statement: claims iff the row exists and is not GENERATING or is stale, and says how many rows it changed |
| `SummaryClaims.SummaryTable.InsertGenerating` | backend/src/ai_summary/repository.rs:72-95 | inserts iff no row exists, as the unique index demands, and then uses up an id |
| `SummaryClaims.SummaryTable.SetUserPrompt` | backend/src/ai_summary/repository.rs:97-129 | changes the prompt alone, or inserts an idle row with a new id |
| `SummaryClaims.SummaryTable.RecordGenerationResult` | backend/src/ai_summary/service.rs:387-410 | writes the result, its count and its date without looking at the claim, or reports that the row is gone; nothing else changes |
| `SummaryClaims.SummaryTable.DeleteForEntity` | backend/src/ai_summary/repository.rs:171-182 | removes the row and nothing else |
| `SummaryClaims.SummaryTable.TryStartGeneration` | backend/src/ai_summary/service.rs:343-385 | undisturbed, a request starts iff there is no row or a claimable one, and reads the stored prompt |
| `SummaryClaims.RunKeepsExclusion` | backend/src/ai_summary/service.rs:343-410 | the invariant of every interleaving: the row stores the stamp of the last claim that nothing ended |
| `SummaryClaims.ConsecutiveClaims` | backend/src/ai_summary/service.rs:343-410 | in every interleaving two consecutive claims are separated by a recorded result or a deletion, or the later request began more than 5 minutes after the earlier stamp |
| `SummaryClaims.AtMostOneLive` | backend/src/ai_summary/service.rs:343-410 | if runs record within 5 minutes and no row is deleted under a live run, at most one run is live |
| `SummaryClaims.OverdueRecordAdmitsTwo` | backend/src/ai_summary/repository.rs:131-169 | a run that overstays records without owning the claim: a concrete interleaving with two runs live, both in time |
| `SummaryClaims.DeletionAdmitsTwo` | backend/src/ai_summary/repository.rs:171-182 | a deletion under a live run lets another start: a concrete interleaving with two runs live, without any time passing |
| `SummaryClaims.DeletionAdmitsAnother` | backend/src/ai_summary/repository.rs:171-182 | in any state with a live run: after a deletion the next undisturbed request starts, and both are live |
| `SummaryClaims.ClaimableExactlyWhenStale` | backend/src/ai_summary/repository.rs:62-66 | a request claims a GENERATING row iff it began more than 5 minutes after the stamp; otherwise it changes nothing |
| `SummaryClaims.FreshRequestStarts` | backend/src/ai_summary/service.rs:343-385 | in any state, a new request that nobody disturbs starts iff there is no row or a claimable one |
| `SummaryClaims.FreshRequestStartsIffOverdue` | backend/src/ai_summary/service.rs:343-369 | in a well-behaved system with a live run, a fresh undisturbed request starts iff the clock has passed that run's stamp by more than 5 minutes |
| `SummaryClaims.SnapshotIsRecorded` | backend/src/ai_summary/service.rs:356-361 | whatever others do meanwhile: if the row found is still there, the outcome is recorded with the prompt the run read and the time it found the row, a result clears the error and a failure keeps the last result, and a later edit of the prompt stays; otherwise nothing changes |
| `SummaryClaims.StartReadsPrompt` | backend/src/ai_summary/service.rs:343-385 | a run that starts reads the prompt in the row, and starting changes its status and stamp alone |
| `SummaryClaims.PromptIsStored` | backend/src/ai_summary/repository.rs:97-129 | an undisturbed edit of the prompt changes the prompt alone, or makes an idle row |
| `PoolRegistry.Registry.GetDatabasePool` | backend/src/database/pool.rs:76-101 | errors by source type leave the registry; a hit returns the stored pool; a miss builds, evicts the connection's other pools and stores; the pool returned has the engine of the source type and the URL of the call's own credentials |
| `PoolRegistry.UrlTellsLocation` | backend/src/database/pool.rs:39-50 | URLs are equal iff the engines and what the credentials contribute are, so a fingerprint hit returns no pool of another engine or place |
| `PoolRegistry.UrlTellsCredentials` | backend/src/database/postgres.rs:26-35 | credentials whose parts hold no separator of theirs have the same URL iff they are the same |
| `PoolRegistry.ColonMovesUnseen` | backend/src/database/postgres.rs:26-35 | for every name, password and colon in one of them, other credentials with the same URL |
| `PoolRegistry.RunIsGood` | backend/src/database/pool.rs:76-101 | the inductive invariant of the interleaved steps |
| `PoolRegistry.RegistryAgreesWithBuilding` | backend/src/database/pool.rs:76-101 | in every interleaving: at most one key a connection, each stored pool the last one built for it from the URL its key fingerprints, each answered caller got a pool of its own URL and engine |
| `PoolRegistry.ServedByOwnCredentials` | backend/src/database/pool.rs:39-101 | in every interleaving each answered caller has a pool of the engine its source type names and of the URL of its credentials |
| `PoolRegistry.ChangedCredentialsGetOwnPool` | backend/src/database/pool.rs:80-100 | in every interleaving two callers with the same pool have the same engine and the same place, and if separable the same credentials: changed credentials never get the old pool |
| `PoolRegistry.RebuiltOnlyForNewUrl` | backend/src/database/pool.rs:92-99 | a connection is built again only for a URL other than the previous one |
| `PoolRegistry.UnchangedCredentialsBuildOnce` | backend/src/database/pool.rs:88-97 | with one URL a connection is built at most once, however calls interleave |
| `PoolRegistry.LockIsReleased` | backend/src/database/pool.rs:92-100 | whoever owns the write lock releases it in at most two steps, whether or not the build succeeds |
| `CellReorder.Notebook.ReorderCell` | backend/src/cell/service.rs:348-454 | each error as in the code with nothing changed, or the rows reordered and renumbered |
| `CellReorder.Notebook.Renumber` | backend/src/cell/service.rs:424-443 | the loop stores 1..n along the new order, writing only what differs, and returns the row it stored for the requested cell |
| `CellReorder.ReorderIsPermutation` | backend/src/cell/service.rs:382-443 | whatever the numbering was: the same rows, changed in their number alone, numbered 1..n |
| `CellReorder.NumbersAfter` | backend/src/cell/service.rs:391-443 | after a reorder the cell at the given place has the number the movement says (one less, one more, 1 or n), and each other cell its own place, or the next if the cell passed it |
| `CellReorder.OthersKeepTheirOrder` | backend/src/cell/service.rs:409-414 | the moved cell lands at its target and the others keep their relative order |
| `CellReorder.MoveBack` | backend/src/cell/service.rs:409-414 | moving back undoes a move |
| `CellReorder.RequestedCellMoves` | backend/src/cell/service.rs:384-413 | the cell that moves is the requested one iff it stands where its display order says; always when numbered 1..n |
| `CellReorder.AnotherCellMoves` | backend/src/cell/service.rs:384-413 | numbered from 0, asking for the second of two cells to move down moves the first |
| `CellReorder.ListingForced` | backend/src/cell/service.rs:382-383 | numbered 1..n, the ordered query has one possible answer |
| `CellReorder.ThereAndBack` | backend/src/cell/service.rs:391-443 | Up then Down (or the reverse), away from the edge, restores every row |
| `ChartQuery.PlannedSeriesOf` | backend/src/ai/dto.rs:637-649 | the loop with its `seen` set keeps the first entry of each non-blank trimmed column |
| `ChartQuery.PlannedAxis` | backend/src/ai/dto.rs:623-694 | each error in the order of the code, or the planned chart, at most 6 series |
| `ChartQuery.FirstsAreDistinct` | backend/src/ai/dto.rs:637-649 | the series' columns are pairwise different and are exactly the non-blank columns named |
| `ChartQuery.PlannedChartIsSound` | backend/src/ai/dto.rs:623-694 | an accepted chart has 1..6 series of different non-blank columns, and sorts by one of them if asked to |
| `ChartQuery.AcceptedAxis` | backend/src/ai/dto.rs:623-694 | an accepted chart says what the settings say: the trimmed x-axis, for each column the first entry that names it with its function and label, the first 6 of them, the sort column and order |
| `ChartQuery.AliasIsInjective` | backend/src/cell/dto.rs:88-90 | two series get the same output name iff they have the same column and aggregate |
| `ChartQuery.SeriesAliasIs` | backend/src/cell/dto.rs:88-90 | the output name is the column, an underscore and the function in lower case |
| `ChartQuery.PlannedAliasesAreDistinct` | backend/src/canvas/service.rs:163-174 | the output names of an accepted chart are pairwise different |
| `ChartQuery.ValidatedOutputNames` | backend/src/cell/service.rs:900-924 | each error, the first repeated name included, or the set of names |
| `ChartQuery.FirstRepeat` | backend/src/cell/service.rs:914-922 | finds a repeat iff the names are not pairwise different |
| `ChartQuery.FirstRepeatIsFirst` | backend/src/cell/service.rs:914-922 | the repeat reported is the first one |
| `ChartQuery.BuildAggregatedQuery` | backend/src/cell/service.rs:615-652 | the first error met, in order, or the text |
| `ChartQuery.BuildAxisChartQuery` | backend/src/cell/service.rs:926-953 | names, sort order, sort column and text, or the first error |
| `ChartQuery.SoundChartBuilds` | backend/src/cell/service.rs:926-953 | the content of an accepted chart builds iff the x-axis and every output name are valid identifiers and the x-axis is no output name |
| `ChartQuery.SortsByRequestedColumn` | backend/src/canvas/service.rs:182-186 | a requested sort column maps to its own output name, never to the fallback; without one the first series is used |
| `ChartQuery.QueryReadsBack` | backend/src/cell/service.rs:615-652 | a left-to-right reader of delimited identifiers (section 5.2 of ISO/IEC 9075-2) recovers x column, alias, every aggregate, column and alias, and the sort clause from any text the builder accepts, edited content included |
| `ChartQuery.PlannedQueryReads` | backend/src/canvas/service.rs:163-197 | read back, the text of an accepted plan chart has its x-axis, columns, functions and sort order, sorted by the output name of the column asked for or of the first series |
| `ChartQuery.AsciiIdentifiers` | backend/src/cell/service.rs:605-613 | of printable ASCII without quotes exactly 1 to 128 characters are an identifier |
| `ChartQuery.QueryTextIsInjective` | backend/src/cell/service.rs:615-652 | over the same source, equal texts come from charts that ask for the same |
| `ChartQuery.StripTrailingSemicolons` | backend/src/cell/service.rs:597-603 | returns a prefix that ends in neither whitespace nor `;`, having dropped only those |
| `ChartQuery.StrippedIsUnique` | backend/src/cell/service.rs:597-603 | there is only one such prefix |
| `CanvasPlan.ToZeroBased` | backend/src/ai/dto.rs:822-825 | an index iff the number is 1..len, and then one less |
| `CanvasPlan.ToGridUnits` | backend/src/ai/dto.rs:759-761 | a 16-bit size such that no other is closer to the requested one |
| `Text.NonBlank` | backend/src/ai/dto.rs:827-830 | trimmed text that trims to itself and is not empty, or nothing |
| `Text.TrimmedIsUnique` | backend/src/ai/dto.rs:827-830 | only one text is the given one without the whitespace at its ends, and `trim` returns it |
| `Text.NonBlankIs` | backend/src/ai/dto.rs:827-830 | that text when there is a character other than whitespace, and nothing otherwise |
| `CanvasPlan.ResolveOp` | backend/src/ai/dto.rs:886-919 | no operation refers to a cell the target does not have |
| `CanvasPlan.SameQueryIffSameRuns` | backend/src/ai/dto.rs:836-841 | two queries normalise alike iff their maximal runs of characters other than whitespace agree one by one but for ASCII case |
| `CanvasPlan.WordsAreRuns` | backend/src/ai/dto.rs:836-838 | the words are all maximal runs of the text, from left to right |
| `CanvasPlan.RunsAreWords` | backend/src/ai/dto.rs:836-838 | and a text has only one list of them |
| `CanvasPlan.ResolveOps` | backend/src/ai/dto.rs:848-884 | the loop with its `present` set: the first bad chart is reported, unusable cells are skipped, a create whose query is present is dropped |
| `CanvasRequest.AcceptedWhenAcceptable` | backend/src/ai/dto.rs:623-743 | a chart is accepted iff it has what its kind needs: an x-axis, a named column and a known sort column; a category and a value; no negative precision |
| `CanvasRequest.CellResolved` | backend/src/ai/dto.rs:886-919 | one cell of the plan is refused, skipped, or becomes the operation it asks for, field by field: title and query trimmed, the cell it names, its chart with kind, columns, functions, order, category, value, precision and size |
| `CanvasRequest.PlanResolved` | backend/src/ai/dto.rs:848-884 | a plan is refused iff one of its cells is; otherwise the operations are, in order, what the cells ask for, without those that have nothing to do and the creations of a query that the target had or an earlier cell added and none removed since |
| `CanvasDedup.DeduplicationIsSound` | backend/src/ai/dto.rs:848-884 | for every resolved plan against pairwise different queries: the queries after applying are pairwise different iff the plan deletes no cell and creates its query again twice over, the texts of the cells it leaves are pairwise different, and none of them is a query it adds |
| `CanvasDedup.KeepingPlans` | backend/src/ai/dto.rs:848-884 | for a plan whose updates keep the queries they touch, the last two conditions hold |
| `CanvasDedup.CreatedDistinct` | backend/src/ai/dto.rs:857-869 | the queries of the created cells are pairwise different iff no cell's query is recreated twice over, whatever the updates |
| `CanvasDedup.PresentIsLive` | backend/src/ai/dto.rs:850-880 | `present` is exactly the normalised queries of the live cells after every prefix of the plan iff the plan deletes no cell again after recreating its query and gives no live cell another query |
| `CanvasDedup.RewritingCanRepeat` | backend/src/ai/dto.rs:878 | for every two different queries, a one-update plan that resolves and leaves them equal |
| `CanvasDedup.RewrittenCanBeCreated` | backend/src/ai/dto.rs:878 | for every two different queries, a plan that rewrites the one to the other, creates the other beside it, and resolves |
| `CanvasDedup.PhaseFour` | backend/src/ai/dto.rs:857-882 | the automaton that follows one cell reaches its fourth state iff the plan deletes, recreates, deletes, recreates |
| `CanvasDedup.PhaseThree` | backend/src/ai/dto.rs:857-882 | and its third iff the plan deletes, recreates, deletes |
| `CanvasStore.PairCells` | backend/src/canvas/service.rs:229-257 | the map-filling loop: every SQL cell in order with the last chart that draws it |
| `CanvasStore.ChartContentOf` | backend/src/canvas/service.rs:199-219 | the content names the cell it was made for |
| `CanvasStore.Transaction.ExecuteCreateCell` | backend/src/cell/service.rs:197-222 | refuses at 60 cells, else appends the cell; any of its calls may fail |
| `CanvasStore.Transaction.UpdateCellContent` | backend/src/cell/repository.rs:87-103 | changes name and content of that cell alone, or reports that it is missing |
| `CanvasStore.Transaction.DeleteCell` | backend/src/cell/repository.rs:176-181 | removes that cell; a missing one is no error |
| `CanvasStore.Transaction.CreateChartCell` | backend/src/canvas/service.rs:543-566 | a chart cell at the given display order, which advances by one |
| `CanvasStore.Transaction.CreatePair` | backend/src/canvas/service.rs:505-541 | a query and, if asked, its chart right after it, with a request to place it |
| `CanvasStore.Transaction.UpdateCells` | backend/src/canvas/service.rs:432-477 | updates the query, and updates the chart or creates one for a cell without |
| `CanvasStore.Transaction.DeleteCells` | backend/src/canvas/service.rs:479-489 | removes the chart, then the query |
| `CanvasStore.Transaction.AppendDashboardCharts` | backend/src/dashboard/service.rs:207-243 | reads, packs, caps and writes the dashboard; each call may fail |
| `CanvasStore.Transaction.ApplyOps` | backend/src/canvas/service.rs:383-503 | the loop over all operations, with `deleted_indices`, counters, queue and display order, against the step-by-step specification |
| `CanvasStore.Store.ApplyCanvasPlan` | backend/src/canvas/service.rs:319-357 | all or nothing: the committed state of the specification, or the error with every canvas as it was |
| `CanvasIntegrity.RunOutlines` | backend/src/canvas/service.rs:403-491 | a successful run changes the SQL cells, the charts and what they draw exactly as the outline does, whatever the contents and failures |
| `CanvasIntegrity.SoundIffSafe` | backend/src/canvas/service.rs:417-489 | on outlines: every chart draws a live SQL cell of its own afterwards iff no cell that had no chart and gets one is drawn on again or deleted |
| `CanvasIntegrity.PairsFit` | backend/src/canvas/service.rs:229-257 | the pairs read from any notebook with unique ids name live cells, and a cell without a chart in its pair has none |
| `CanvasIntegrity.IntactIffSound` | backend/src/canvas/service.rs:229-257 | the invariant on the cells is the invariant on their outline |
| `CanvasResults.IntactIffSafe` | backend/src/canvas/service.rs:383-503 | from intact cells a successful run leaves intact cells iff the operations are safe in that sense |
| `CanvasResults.ChartThenDeleteBreaks` | backend/src/canvas/service.rs:453-489 | on every intact notebook with room, for every cell without a chart: giving it one and deleting the cell is accepted, and the cells are intact no more |
| `CanvasResults.DrawingTwiceBreaks` | backend/src/canvas/service.rs:453-477 | likewise for giving it a chart twice |
| `CanvasResults.SqlCellsAreConserved` | backend/src/canvas/service.rs:383-503 | for any operations: SQL cells after = before + added - removed |
| `CanvasDashboard.DashboardStaysIntact` | backend/src/canvas/service.rs:493-501 | for any operations: a dashboard of different live charts stays one |
| `CanvasDashboard.DashboardStaysClear` | backend/src/dashboard/service.rs:216-237 | when the last new row of the run fits in 16 bits and no kept chart saturates, charts that do not overlap still do not afterwards, and a changed dashboard has at most 30 |
| `CanvasDashboard.SpaciousDashboardStaysClear` | backend/src/dashboard/service.rs:216-237 | that is so for every plan when each chart has 180 rows left below it |
| `CanvasOrder.NewCellsComeLast` | backend/src/canvas/service.rs:390-391 | cells stay in display order; those that stay keep their number; new ones come after all old ones in the order they were made; at most 60 unless there were more |
| `CanvasOrder.NewChartFollowsItsQuery` | backend/src/canvas/service.rs:505-541 | for any operations: a chart created with its query has the next display order |
| `CanvasContents.PairsRead` | backend/src/canvas/service.rs:229-257 | the pairs are those of all SQL cells in order, each with its name, its query and the last cell that draws it |
| `CanvasContents.ContentShows` | backend/src/canvas/service.rs:163-219 | the stored content shows the planned chart: kind, source, x-axis, each column with its function, label and output name, sort column and order, category, value, precision |
| `CanvasContents.NotebookIs` | backend/src/canvas/service.rs:383-503 | the notebook after a run is what is left of each cell, in order, and then the new cells of each operation, in order |
| `CanvasContents.CellsFollowOperations` | backend/src/canvas/service.rs:417-489 | each cell that was there is gone iff an operation deletes its pair, and is otherwise the same cell with the last name and the last content that the operations give it |
| `CanvasContents.ChartShowsLastUpdate` | backend/src/canvas/service.rs:449-459 | the chart of a pair not deleted shows, field by field, what the last update that draws it says |
| `CanvasContents.ChartStays` | backend/src/canvas/service.rs:417-459 | and a chart that no update draws is as it was |
| `CanvasContents.CreationIsThere` | backend/src/canvas/service.rs:505-541 | every creation of a run that succeeds has its query with its title in the notebook and its chart, as planned, right after it and on the dashboard in its size |
| `CanvasContents.GivenChartIsThere` | backend/src/canvas/service.rs:460-474 | every update that draws on a cell without a chart leaves one, as planned, named as the update or the cell, and on the dashboard in its size |
| `CanvasContents.EntriesStay` | backend/src/dashboard/service.rs:216-237 | a dashboard entry stays as it was iff no operation deletes the pair of its chart |
| `CanvasAnswers.AskedQueryIsThere` | backend/src/ai/dto.rs:848-919 | a plan cell that asks for a query not taken to be present: an applied plan leaves that query, its chart right after it and the chart on the dashboard, all as the model answered |
| `CanvasAnswers.AskedChartIsShown` | backend/src/ai/dto.rs:848-919 | the last plan cell to ask for a chart on a query whose chart is there: the chart cell shows what that plan cell says |
| `CanvasAcceptance.AppliedIffRoom` | backend/src/cell/service.rs:197-222 | when no store call fails, operations are applied iff the notebook has room for each cell at the moment it is added and the dashboard for the charts at the end |
| `CanvasAcceptance.ChangesAreCounted` | backend/src/canvas/service.rs:394-489 | the change summary counts the creations, and the updates and deletions of pairs that are there |
| `CanvasCharts.ChartsHaveOrigin` | backend/src/canvas/service.rs:403-489 | every chart left in the notebook has the content it had, or exactly that of a chart of the plan for the cell it draws |
| `CanvasCharts.ResolvedOpsAreSound` | backend/src/ai/dto.rs:848-919 | every axis chart of a resolved plan has 1..6 series of different columns and sorts by one of them if asked to |
| `CanvasCharts.PlannedChartsRun` | backend/src/cell/service.rs:926-953 | whatever the model answered, every bar or line chart an applied plan created or changed yields a query over any source iff its identifiers are valid and the x-axis is no output name |
| `CanvasEndToEnd.QueriesFollowOperations` | backend/src/canvas/service.rs:403-489 | the notebook's queries, in display order, are those of the plan-level model |
| `CanvasEndToEnd.NotebookStaysDeduplicated` | backend/src/ai/dto.rs:848-884 | deduplication from the plan to the notebook: for every plan that resolves and applies, pairwise different queries stay so under exactly that condition |
| `CanvasEndToEnd.TwiceOverRepeats` | backend/src/ai/dto.rs:848-884 | for every query, a notebook and a plan that resolves, applies and leaves the query in two cells |
| `CanvasEndToEnd.PresentLosesQuery` | backend/src/ai/dto.rs:871-875 | a moment while that plan is resolved at which `present` is not the live queries |
| `CanvasEndToEnd.PlanKeepsIntegrityIffSafe` | backend/src/canvas/service.rs:319-357 | a committed plan leaves all canvases intact iff it made a new canvas or its operations are safe for the target; no other canvas changes |
| `CanvasEndToEnd.NewCanvasHasCells` | backend/src/canvas/service.rs:345-349 | a committed new canvas has as many SQL cells as were added, at least one, and nothing was removed |
| `CanvasEndToEnd.CanvasIsNamed` | backend/src/canvas/service.rs:328-355 | a committed canvas has the plan's name and description, trimmed; where one is blank the target keeps its own, and a new canvas has the name as given and no description |
| `CanvasEndToEnd.ReusedIffRead` | backend/src/canvas/service.rs:327-345 | a committed plan worked on its target iff the target exists and reading it and its notebook did not fail |
| `CanvasEndToEnd.FailedReadStartsAnew` | backend/src/canvas/service.rs:295-345 | when that reading fails, a committed plan made a new canvas with the queries it creates, no canvas that existed changed, and its updates and deletions might as well not be there |
| `CanvasEndToEnd.FailedReadIsCommitted` | backend/src/canvas/service.rs:295-345 | for every target, one failing read and a plan that would update and delete its first cell: the plan is committed |

## Left out

- Failing store calls of `reorder_cell`, which roll its transaction back.
- HTTP handlers, cookies, SQL drivers, encryption, model calls, prompts, migrations and React code: input, output and foreign code. Model answers are arbitrary inputs and store calls are steps that may fail.
- UUIDs and clocks: ids are fresh numbers, the clock never goes back. SHA-256 is an injective fingerprint. UTF-8 decoding in the reader happens before the model starts.
- Races of `append_user_message`, of the start of a completion and of `execute_create_cell`, which take no lock: each is one atomic step here.
- JSON: cell content is a datatype. An SQL cell whose text happens to be chart content counts as having an empty query.
- `to_lowercase` beyond ASCII in `normalize_sql`.
- Pass-through settings of charts (titles, ticks, orientation, bar layout, dots, metric format), and the queries of pie and metric charts, which add no new case.
- Table-level deletion marks: `join_pruned_batches` never reads them, so a deleted table disappears only with its columns.
- Reading the connection, and whether AI is configured, at the start of requests; command and segment parsing (a message carries its plain text and whether it has commands).
- `hydrate`, `run_pipeline` and the follow-up questions: the pipeline sends arbitrary events and ends with an arbitrary outcome.
- The creation and update dates and the several entities of the summary table: one row stands for one entity. Plan deletions do not remove summaries in the code, so nothing is claimed about that.
- The counts in the change summary that are read after the commit, `delete_canvas`, and listing candidates; the candidate a plan was made for is taken to be the notebook it is applied to.
- 32-bit overflow of the display order, which would take two thousand million cells to reach.
- `to_display_string` and the other display conversions of the catalog.
- CompletionPipeline.HealthyRunAnnouncesOutcome: says nothing about runs with a failing store, which `OneTerminalEventLast` covers.
