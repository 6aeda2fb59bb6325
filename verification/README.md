# Verification of the ingestion queue, retrieval, chunking and streaming

This project models the parts of the RAG server in which many small steps have to add up to one
guarantee, and proves those guarantees for all inputs, all runs and all interleavings. Verify it
with `dafny verify dfyconfig.toml`.

**The ingestion queue** (`JobQueue`, `QueueStore`, `Protocol`, `Invariant`, `QueueTheorems`,
`Completion`, `Drain`, `Heartbeat`). `JobQueue` gives the effect of every SQL statement on the tables, with the
clock the statement reads as a parameter. `QueueStore` has the store and the worker as classes
whose methods update those tables. `Protocol` is a state machine in which any number of workers
claim, index, renew and report while HTTP handlers upload, reindex and delete; workers crash,
replies are lost, leases expire, and clock readings are arbitrary. A joint invariant over rows,
documents and each worker's local state is kept by every step. From it follow fencing by attempt
number, the retry budget, conservation of claims and integrity of documents. `Completion` runs whole
jobs from the claim to the completed row. `Drain` adds a clock
that does not run backwards: the claims left are bounded up to the leases that are lost, and from
any reachable state and clock the queue can be drained without losing one. `Heartbeat` is the
timing of renewals on one timeline.

**Concurrent chunk replacement** (`ChunkTable`, `ChunkProgress`). Two or more replacements of one document
interleave row by row under READ COMMITTED, with waiting on deleted rows and failing on the unique
ordinal; one that runs alone commits.

**Retrieval** (`Records`, `Ranking`, `Fusion`, `Selection`, `Context`). Reciprocal rank fusion over maps
against the SQL full outer join; the greedy diversity selection and its optimality; the packer of
the prompt context.

**Chunking** (`Text`, `Solids`, `Chunker`, `Markdown`, `MarkdownTheorems`, `Grouping`, `Indexing`). From the
text of a document over lines, blocks, runs of equal metadata and overlapping windows to the
stored chunks, with what is kept on the way: every occurrence of a rune that is not a space, in
order, where chunks may repeat the overlap with those before them (`Solids` states this).

**Streaming** (`Sse`, `Streaming`). The printer of the server and the incremental reader of the
page, over a connection that can break at any character and a stream cut into any pieces.

**Evaluation** (`Ndcg`, `Baseline`, `BaselineFields`, `BaselineTheorems`). The bounds of nDCG and the algebra of
merging and comparing baselines.

Methods are proved against functions, and lemmas named `...Mean` or `...Means` say what those functions
are without naming them: in terms of fields, positions and characters.

`Common` holds optional values, sums over finite sets, and induction over folds and listings.

How the source is read:

- Identifiers are natural numbers that are never reused (random ids in the source); the empty
  `worker_id` is `None`; SHA-256 is injective.
- Each statement or transaction takes effect within its call or not at all; its reply can be lost.
- Foreign calls (extraction of text, embedder, chat model, reranker) return arbitrary results or
  errors; which errors are worth a retry is an arbitrary choice.
- Scores and metrics are reals. Text is a sequence of Unicode characters; byte lengths are UTF-8
  lengths. The browser's decoder hands over pieces cut at character boundaries.
- JSON is a pair of functions that undo each other and print one line whose ends are not spaces.

Where the documentation and the code differ, the code is modelled:

- `README.md:205` names the lease check for completion and failure only; a renewal checks it too
  (`internal/store/store.go:411`).
- "Keeps the best observed value" (`internal/evaluation/evaluation.go:374`) fails for latencies
  when a run in which every case failed, with an average of zero, comes between two others: see
  `AllFailedRunForgets` and the exact condition in `NoRegressionAcrossUpdates`, or
  `RepeatedModeCanRegress` and `NoRegressionAgainstExisting` within one merge.
- A lease is counted in nanoseconds by the worker and granted in whole milliseconds by the
  database: see `TruncatedLeaseIsLost` and `IntervalFitsLease`.
- The event stream format lets lines end in CR LF or CR; the reader of the page delivers nothing
  from such a stream (`ReadBackOnlyWithLf`). The server never prints one.
- The first renewal of a lease comes one interval after the reply of the claim, so it is bounded
  by the whole lease; only later renewals come within two thirds of it
  (`FirstRenewal`, `FirstRenewalCanBeLate`).

## Model

| member | source | states |
|---|---|---|
| QueueStore.Store.RecoverExpiredIngestionJobs | internal/store/store.go:355-364 | exactly the processing rows without a lease or with an expired one become queued and unowned; the result counts them |
| QueueStore.Store.ClaimNextIngestionJob | internal/store/store.go:366-405 | claims the first claimable unlocked row by next attempt, then creation; none is claimed only if no unlocked row is claimable; status, owner, lease and attempts of the row change, its payload, document, retries and schedule and all other rows stay; the returned job is the row after the update |
| QueueStore.Store.RenewIngestionJobLease | internal/store/store.go:407-416 | extends the lease of a row that is processing, owned by the worker and unexpired; otherwise changes nothing and says so |
| QueueStore.Store.CompleteIngestionJob | internal/store/store.go:418-427 | completes an owned, unexpired row; an unknown document is an error and a lost row a rejection, both without effect |
| QueueStore.Store.FailIngestionJob | internal/store/store.go:429-444 | requeues an owned, unexpired row with one more retry and the delay, or fails it for good; rejects otherwise |
| QueueStore.Store.ReleaseIngestionJob | internal/store/store.go:446-455 | requeues an owned row whatever its lease says |
| QueueStore.Store.CreateIngestionJob | internal/store/store.go:282-294 | inserts a queued row with no attempts; a reindex of an unknown document violates the foreign key and inserts nothing |
| QueueStore.Store.DeleteDocument | internal/store/store.go:261-264 | removes the document and its chunks and clears the links of its jobs, nothing else |
| QueueStore.Store.GetDocumentSource | internal/store/store.go:296-318 | finds the source of a document exactly if the document exists: the payload of a most recently updated completed job of it, or empty bytes |
| QueueStore.Store.FindDocumentByChecksum | internal/store/store.go:162-173 | returns a document with the checksum, and None only if there is none |
| QueueStore.Store.CreateDocument | internal/store/store.go:175-189 | adds document and chunks together, or nothing when the checksum is taken |
| QueueStore.Store.ReplaceDocumentChunks | internal/store/store.go:191-204 | replaces the chunks of an existing document, and changes nothing for a deleted one |
| QueueStore.IndexDocument | internal/rag/service.go:78-108 | indexing known bytes returns the existing document and writes nothing; new readable bytes create one document; a failure leaves the tables alone; no job row changes |
| QueueStore.ReindexDocument | internal/rag/service.go:110-125 | unreadable text writes nothing; otherwise the chunks of the document, if it still exists, are replaced by those of the bytes |
| QueueStore.ReindexStoredChunks | internal/rag/service.go:127-143 | the chunks of the document are replaced by their own rebuild; without any, nothing is written |
| QueueStore.IngestionWorker.Index | internal/rag/worker.go:257-266 | an upload is indexed by its bytes; a reindex replaces the chunks of the job's own document, from its bytes or from the stored chunks |
| QueueStore.IngestionWorker.Process | internal/rag/worker.go:178-242 | exactly one report reaches the store: an owned row within its lease ends completed with its document, retried after the delay for its count, or failed; on shutdown or a lost lease it is queued again at once, with the same count; nothing else changes |
| Invariant.ReportShape | internal/store/store.go:407-455 | a report changes at most the row it names, only while its worker owns it, ends the claim, and keeps attempts and payload |
| Invariant.ReportRow | internal/rag/worker.go:178-242 | the row after an accepted report is well formed, and a completed row is linked to a document of its own bytes |
| Invariant.InvKept | internal/rag/worker.go:105-266 | every step of every worker, handler and recovery keeps the joint invariant of rows, documents, links, workers and requests |
| Invariant.RunKeepsInv | internal/rag/worker.go:105-266 | every run keeps the joint invariant |
| Invariant.ReachableInv | internal/rag/worker.go:105-266 | every state reachable from the empty database satisfies the joint invariant |
| QueueTheorems.RowStep | internal/store/store.go:355-455 | the only ways a step can change a job row: a cleared link, a recovery of an expired row, a claim, a renewal or a report of the worker that holds this very claim |
| QueueTheorems.NewRow | internal/store/store.go:282-294 | a job that a step adds is queued with zero attempts and retries |
| QueueTheorems.JobKeepsIdentity | internal/store/store.go:355-455 | no step changes payload, kind or creation time of a job |
| QueueTheorems.DeleteMeans | internal/store/store.go:261-264 | deleting a document removes it and its chunks and clears exactly the links to it; all other documents, chunks and rows stay |
| QueueTheorems.DocumentLinkChanges | internal/store/store.go:261-427 | the document of a job changes only when that document is deleted, or when the job is completed by the worker that owns it |
| QueueTheorems.ReportMeans | internal/rag/worker.go:188-254 | what a report makes of a row within its lease: completed with the indexed document, retried after the delay for its count, or failed |
| QueueTheorems.ReleaseMeans | internal/rag/worker.go:178-187 | after a shutdown or a lost heartbeat the row is queued again, due at once, with the same count |
| Completion.UploadMeans | internal/store/store.go:282-294 | an uploaded job is queued and due at once, with its bytes, no document and no attempts |
| Completion.ReindexMeans | internal/web/server.go:142-172 | a reindex request becomes a due job with the source it read and its document, if that still exists |
| Completion.RenewMeans | internal/rag/worker.go:268-306 | a renewal extends the lease of an owned row within its lease by a full lease from its clock; the heartbeat goes on only if the reply says so |
| Completion.CompletionMeans | internal/rag/worker.go:188-214 | an answered report of an indexed job completes its row and leaves everything else as it is |
| Completion.UploadCompletes | internal/rag/worker.go:105-266 | an upload of new bytes can be claimed, indexed as a document with exactly its bytes, and completed, with the state it ends in |
| Completion.ReindexCompletes | internal/rag/worker.go:105-266 | a reindex with bytes can be claimed, replaces its own document's chunks by them, and is completed |
| Completion.StoredReindexCompletes | internal/rag/worker.go:105-266 | a reindex without bytes can be claimed, rebuilds its own document's chunks from themselves, and is completed |
| QueueTheorems.Fencing | internal/store/store.go:407-455 | in every reachable state, a renewal or report that changes a row hits the claim it was issued for: the row has the attempt number the worker received, at arbitrary clock readings and with crashed workers |
| QueueTheorems.StatementsAloneDoNotFence | internal/store/store.go:418-427 | the WHERE clauses alone accept a completion issued for an earlier claim by the same worker, so fencing needs the loop of the worker |
| QueueTheorems.AttemptsNumberClaims | internal/store/store.go:383-387 | the attempt number a claim returns is one more than the number of earlier claims of that job in the run |
| QueueTheorems.RetryBudget | internal/rag/worker.go:216-220 | no reachable row has more retries than there are delays |
| QueueTheorems.AcceptedRetry | internal/rag/worker.go:216-220 | a retry count changes only by a report, by one, within the budget, and with the delay for the count the row has at that moment, though the worker decided from a snapshot |
| QueueTheorems.MoveBalance | internal/store/store.go:355-455 | per change of a row, attempts, retries, releases, recoveries and completions stay in balance |
| QueueTheorems.RunBalance | internal/store/store.go:355-455 | over any run from an invariant state the same balance holds between the counters of a row and the events counted along the run |
| QueueTheorems.ClaimConservation | internal/store/store.go:355-455 | over any run: attempts = claims = retries + releases + recoveries + (1 unless queued), and a job completes once if its row is completed, else never |
| QueueTheorems.TerminalIsAbsorbing | internal/store/store.go:355-455 | no step changes a completed or failed row but for clearing the link to a deleted document |
| QueueTheorems.GrantsFullLease | internal/store/store.go:366-416 | a claim or renewal that changes a row leases it to its worker for a full lease from the clock it read; only a claim takes a queued row |
| QueueTheorems.GivenBackAtOnce | internal/store/store.go:355-364 | a processing row is requeued only by a report or a recovery, and unless it is a retry it can be claimed again at once |
| QueueTheorems.LatestCompletionIsSource | internal/store/store.go:296-309 | right after a completion the source of its document is the completed payload and nothing else |
| QueueTheorems.LeaseProtects | internal/store/store.go:356-411 | while no clock reading passes its lease, a claimed row changes in no run unless its owner renews or reports |
| QueueTheorems.ExpiredOwnerCanOnlyRelease | internal/store/store.go:407-455 | of the renewals and reports for an expired row only a release has an effect |
| QueueTheorems.BackoffRespected | internal/store/store.go:366-387 | no run moves a queued row before its next attempt is due |
| QueueTheorems.OneDocumentPerChecksum | internal/rag/service.go:78-108 | no reachable state has two documents with one checksum, whatever stale workers commit |
| QueueTheorems.ChunksBelongToDocument | internal/store/store.go:175-204 | the stored chunks of a document are always cut from bytes with its checksum |
| QueueTheorems.CompletedJobHoldsItsDocument | internal/store/store.go:296-309 | a completed job still linked to a document holds exactly its bytes, or is a reindex without payload |
| QueueTheorems.SourceIsOwnBytes | internal/web/server.go:142-172 | the source copied into a reindex job is empty or has the checksum of the requested document |
| Drain.LiveReport | internal/rag/worker.go:188-254 | in a quiet step the report of a claim within its lease is accepted: an indexed job is completed with its document, a retryable failure within the budget is queued with one more retry, any other is failed |
| Drain.LiveKept | internal/rag/worker.go:105-266 | a quiet step keeps a live claim live as long as its row is processing |
| Drain.RowDebt | internal/store/store.go:355-455 | a quiet step raises no job's remaining claims, and a claim lowers its job's by one |
| Drain.ClockMoves | internal/store/store.go:355-359 | moving the clock on adds one claim to the debt for each lease that runs out, and nothing else |
| Drain.QuietStepPays | internal/rag/worker.go:105-266 | a quiet step pays for its claim and its progress, up to the leases the clock let run out before it |
| Drain.RunPays | internal/rag/worker.go:105-266 | over a quiet run, claims and moves are paid for by the debt and the measure, and by the leases lost on the way |
| Drain.DrainBound | internal/rag/worker.go:188-254 | from any reachable state and clock, a quiet run makes at most the sum over unfinished jobs of delays + 1 - retries claims, and one more for each lease lost on the way; its moves are bounded alike |
| Drain.NotStranded | internal/rag/worker.go:105-151 | while a job is unfinished and a worker survives, at every clock some quiet step at that clock or later makes progress and lets no lease run out, also behind a stalled worker whose lease has run out |
| Drain.DrainedAtRest | internal/rag/worker.go:105-151 | a quiet run after which no quiet step at the clock or later can progress has every job completed or failed |
| Drain.CanDrain | internal/rag/worker.go:105-151 | from any reachable state and clock with a worker left, some quiet run loses no lease, stays within the budget of claims, and ends with every job completed or failed |
| Heartbeat.Beat | internal/rag/worker.go:268-306 | with calls cut off after an interval and three intervals within the granted milliseconds, every renewal finds its lease unexpired, later ones come within two intervals, the lease never lapses while the loop runs, and a lost renewal ends it before expiry |
| Heartbeat.IntervalFitsLease | internal/rag/worker.go:268-272 | three intervals fit into the granted lease exactly when every renewal in time comes before its end, and exactly for leases of at least 3 ns with at most two beyond whole milliseconds |
| Heartbeat.WholeMillisecondsFit | internal/rag/worker.go:56-64 | every lease of whole milliseconds fits, the configured two minutes among them |
| Heartbeat.TruncatedLeaseIsLost | internal/store/store.go:407-411 | a lease of 1.5 ms is granted as 1 ms: a renewal in time comes half a millisecond after its end |
| Heartbeat.FirstRenewal | internal/rag/worker.go:268-280 | for any bound on the statement, the first renewal is sure to come within two intervals of the claim exactly when the claim's reply and the bound together take at most one; for the bound of one interval, only without any delay of the reply |
| Heartbeat.FirstRenewalCanBeLate | internal/rag/worker.go:268-280 | lease 300 ms, reply just under 100 ms, statement 100 ms: the first renewal does not come within 200 ms |
| ChunkTable.RebuiltIsGood | internal/rag/service.go:145-172 | a rebuild from stored chunks keeps ordinal 0 |
| ChunkTable.InvKept | internal/store/store.go:191-242 | every step of interleaved replacements keeps the committed rows equal to one output |
| ChunkTable.AllOrNothing | internal/store/store.go:191-242 | in every interleaving under READ COMMITTED the committed chunks are always the whole output of exactly one committed rebuild |
| ChunkTable.WithoutZeroTheyMix | internal/store/store.go:122-122 | two outputs without a common ordinal could both commit and mix: ordinal 0 under the unique constraint is what prevents it |
| ChunkProgress.ReplacementCommits | internal/store/store.go:191-242 | with no other replacement open, one with ordinal 0 and without repeated ordinals runs to its commit, and its whole output is what the document then has |
| ChunkProgress.RebuildCommits | internal/rag/service.go:127-172 | with no other replacement open, reading the stored chunks and rebuilding them commits chunks with the same ordinals and the new bodies |
| Fusion.FuseRRF | internal/rag/service.go:413-452 | the result is the ORDER BY ... LIMIT answer over the fused rows, whatever order the map is walked in: fused scores descend, then the larger of the two scores, then ids ascend |
| Ranking.LessMeans | internal/rag/service.go:446-446 | strings are ordered by the first character in which they differ, a prefix before what continues it |
| Fusion.AheadIsTotal | internal/rag/service.go:437-446 | the comparator is a strict total order on rows with distinct ids |
| Fusion.FusedRowsAreJoinRows | internal/store/store.go:603-619 | the map-based fusion and the full outer join give the same rows: ids, ranks, both scores, fused score |
| Fusion.FusionAgreesWithQuery | internal/store/store.go:580-632 | fuseRRF and searchHybrid return the same list on the same candidates |
| Fusion.FusionIsDeterministic | internal/rag/service.go:432-452 | two results over the same lists are equal |
| Fusion.AgreementIsKept | internal/rag/service.go:413-452 | a chunk ahead of another in every list naming the other stays ahead, and survives the cut when the other does |
| Selection.SelectDiverse | internal/rag/service.go:492-512 | the loop returns the hits at the greedy positions, for every topK and cap, also those below one |
| Selection.GreedyFeasible | internal/rag/service.go:492-512 | the greedy positions respect topK and the cap per document |
| Selection.NoneLonger | internal/rag/service.go:492-512 | among any prefix of the hits no feasible selection is longer than the greedy one |
| Selection.GreedyIsOptimal | internal/rag/service.go:492-512 | greedy is feasible, no feasible selection is longer, and its j-th position is no later than that of any feasible selection |
| Selection.GreedyDominatesScores | internal/rag/service.go:492-512 | on hits in descending score greedy is at least as good place by place |
| Selection.OrderResults | internal/rag/service.go:464-480 | an index out of range is an error; otherwise the order keeps the first mention of each candidate |
| Selection.MentionedOnce | internal/rag/service.go:464-480 | every candidate the reranker names is in the order |
| Selection.RanksSoFar | internal/rag/service.go:464-480 | the order holds first mentions only, with increasing rerank ranks |
| Selection.RerankHits | internal/rag/service.go:454-486 | fails exactly on a failed call, no results or an invalid index; otherwise the greedy choice over the reranked order, each hit with the place and score of its first mention and numbered from 1 |
| Context.PackHit | internal/rag/service.go:526-543 | one turn of the loop takes the hit exactly when it is accepted, and keeps the seen keys, the counts and the text in step |
| Context.PackContext | internal/rag/service.go:514-548 | the loop packs the hits in order of score, for any key and block |
| Context.PrepareGenerationContext | internal/rag/service.go:514-548 | the text is one block for each selected hit, numbered from 1, with the document's name, its labels and the trimmed content, and fits the budget; or the notice for none; the deciding scores descend |
| Ranking.SortIsStable | internal/rag/service.go:516-516 | hits that tie keep their order |
| Context.TurnMeans | internal/rag/service.go:526-543 | at its turn a hit is taken exactly when it has words, no selected hit has the same, its document has room, and its block fits the budget in bytes |
| Context.BlockMeans | internal/rag/service.go:577-586 | a block is its number, the document's name, the joined non-empty headings unless there are none, the page if known, and the trimmed content |
| Text.DecimalReadsBack | internal/rag/service.go:585-585 | the printed number has only digits, no leading zero, and reads back as the number |
| Text.Utf8LenMeans | internal/rag/service.go:537-537 | the length of a text counts the bytes of each character |
| Context.GenerationContextIsSound | internal/rag/service.go:514-586 | with the source's key and block: the bytes fit, no two hits have the same words, caps hold, scores descend, every hit is a given one, and hit n is shown as block [n] |
| Context.SameKeySameWords | internal/rag/service.go:527-527 | two contents have the same key exactly when they have the same lower-case words in order |
| Context.PackedAccepted | internal/rag/service.go:526-543 | every selected hit had no reason against it after exactly those selected before it |
| Context.LeftOutForAReason | internal/rag/service.go:526-543 | a hit is left out at its turn if and only if it is empty, a duplicate, over its document's cap, or over the byte budget |
| Context.WithinBudget | internal/rag/service.go:536-543 | the rendered bytes fit the budget |
| Context.DistinctContents | internal/rag/service.go:527-533 | normalised contents of selected hits are non-empty and pairwise distinct |
| Context.CapsHold | internal/rag/service.go:533-535 | no document exceeds its cap |
| Context.KeyIgnoresSpacing | internal/rag/service.go:527-527 | contents that differ in the kind and length of white space have one key, so they count as duplicates |
| Context.ContextIsSound | internal/rag/service.go:514-548 | budget, distinct contents, caps, descending scores and origin of every selected hit, together, for every input |
| Context.PreparingTwice | internal/rag/service.go:514-548 | preparing the context from its own selection selects the same hits |
| Chunker.FindBoundary | internal/rag/chunker.go:223-230 | the last sentence end in reach of the window end, or the end |
| Chunker.Boundary | internal/rag/chunker.go:223-230 | the boundary is a sentence end above the floor with none after it, or the end when there is none |
| Chunker.FindWindowEnd | internal/rag/chunker.go:164-172 | a window ends with the text, or else behind the last sentence end past its middle and past a hundredth of the text, or at its size |
| Chunker.EndsAreGood | internal/rag/chunker.go:162-172 | windows end past their middle, within their size, and at the end of the text once it is in reach |
| Chunker.WindowsMean | internal/rag/chunker.go:155-185 | windows start at 0, each ends as FindWindowEnd says, the next starts at its end less the overlap if that is past its start, and the last one reaches the end; the overlap in use is 0, the given one, or a fifth of the size |
| Chunker.ChunkText | internal/rag/chunker.go:150-187 | the loop terminates for every text, size and overlap and returns the trimmed non-blank windows |
| Chunker.WindowsRebuildText | internal/rag/chunker.go:162-185 | stripping the overlaps from the windows gives back the text; windows lie in the text and have at most size runes |
| Chunker.WindowCount | internal/rag/chunker.go:162-185 | for an overlap of at most half the size: at most 2 + (n-size-1)/(size/2+1-overlap) windows, of total length n + overlap*(windows-1) |
| Chunker.ChunksAreSubstrings | internal/rag/chunker.go:162-185 | chunk k is the trimmed text of the k-th window that is not blank, and all windows left out are blank; window starts strictly increase |
| Chunker.ChunksHoldTheText | internal/rag/chunker.go:150-187 | without what they repeat, at most the overlap each, the chunks show exactly the non-space runes of the text: every occurrence, once, in order |
| Chunker.EveryRuneIsKept | internal/rag/chunker.go:150-187 | the non-space rune at any position of the text has its own place in a named chunk, with as many before it |
| Chunker.ChunksAreShort | internal/rag/chunker.go:173-176 | chunks are non-empty and have at most size runes |
| Markdown.MarkdownHeading | internal/rag/chunker.go:189-199 | the loop finds the level and text of a heading line, and nothing else |
| Markdown.HeadingMeans | internal/rag/chunker.go:189-199 | a heading is exactly one to six hashes, a space, and a title that is not blank |
| Markdown.FenceMeans | internal/rag/chunker.go:201-209 | a fence is exactly a line that starts with three backquotes or tildes, with what is behind them as its language |
| Text.ReplaceCrLfMeans | internal/rag/chunker.go:24-24 | exactly the CR LF pairs become LF |
| Text.CrLfIsReadAsLf | internal/rag/chunker.go:24-24 | the CR LF form of a text is read as the text |
| Markdown.PushHeading | internal/rag/chunker.go:72-79 | the slice of capacity 6 updated in place holds the new path |
| Markdown.StepBlocks | internal/rag/chunker.go:48-86 | where a line flushes, and with which type, path and language |
| Markdown.ParseLine | internal/rag/chunker.go:48-86 | one turn of the parser mirrors one step of the line machine |
| Markdown.ParseMarkdownBlocks | internal/rag/chunker.go:23-93 | the parser returns the blocks of the line machine: one for each paragraph and code block, with its joined lines, path, type and language |
| Markdown.BlocksMean | internal/rag/chunker.go:33-46 | there is one block for each paragraph or code block, in order, with its joined and trimmed lines |
| MarkdownTheorems.FlushKeepsLines | internal/rag/chunker.go:33-46 | flushing collected lines never drops one: lines with content make a block |
| MarkdownTheorems.StepKeepsSound | internal/rag/chunker.go:48-86 | every line keeps the machine sound |
| MarkdownTheorems.EveryLineHasItsPlace | internal/rag/chunker.go:23-93 | every line is in exactly one piece, in order: a heading, a blank line, a maximal paragraph of ordinary lines, or a code block from its fence to the first closing line; only the last may be open |
| MarkdownTheorems.PathMeans | internal/rag/chunker.go:72-79 | the path is as long as the last heading's level; entry k is the last heading of level at most k+1 if its level is k+1, else empty |
| MarkdownTheorems.PathsAreDeclared | internal/rag/chunker.go:33-46 | every piece carries the path of exactly the headings before it |
| MarkdownTheorems.EmittedBlocksStay | internal/rag/chunker.go:48-93 | blocks emitted after some lines are never altered by later lines |
| MarkdownTheorems.ParsePlainBlocks | internal/rag/chunker.go:95-116 | the plain parser returns the blocks of its line machine |
| MarkdownTheorems.EveryPlainLineHasItsPlace | internal/rag/chunker.go:95-116 | plain blocks are the maximal runs of lines that are not blank, and every line has its place |
| MarkdownTheorems.MarkdownOfPlainText | internal/rag/chunker.go:23-116 | without heading and fence lines both parsers return the same blocks |
| Grouping.CollectGroup | internal/rag/chunker.go:121-126 | the inner loop stops at the end of the run of equal metadata and collects its texts |
| Grouping.AppendParts | internal/rag/chunker.go:128-136 | the parts of a group are appended in order with the next numbers |
| Grouping.ChunkBlocks | internal/rag/chunker.go:118-140 | the nested loops return the parts of the groups |
| Grouping.GroupsPartition | internal/rag/chunker.go:120-138 | the groups are the maximal runs of equal metadata and cover all blocks, each once and in order |
| Grouping.PartsAreSound | internal/rag/chunker.go:128-136 | part i has chunk index i and is, behind its heading context, a chunk of at most size runes of the run its block range names |
| Grouping.PartsMean | internal/rag/chunker.go:118-148 | part i shows the joined heading path, if there is one, an empty line and a chunk of the texts of a run of blocks joined by empty lines, with the metadata and range of the run |
| Grouping.GroupsInTurn | internal/rag/chunker.go:118-140 | the chunks of group k are its parts, all and in order, directly behind those of group k-1 |
| Grouping.NoOtherParts | internal/rag/chunker.go:118-140 | the groups' parts are all the parts |
| Grouping.GroupTextIsItsBlocks | internal/rag/chunker.go:122-128 | the windowed text of a group has exactly the non-space runes of its blocks, in order |
| Grouping.GroupIsKept | internal/rag/chunker.go:118-140 | without repeats, the chunks of a group show exactly the non-space runes of its blocks, in order |
| Grouping.EveryBlockIsStored | internal/rag/chunker.go:118-140 | every occurrence of a non-space rune in a block has its own place in the chunks of the block's group, and these are parts behind their heading context with the block in range |
| Grouping.PartsHoldTheBlocks | internal/rag/chunker.go:118-148 | behind their heading contexts and without repeats, the parts show exactly the non-space runes of all blocks: every occurrence, once, in order |
| Grouping.NoReadableText | internal/rag/service.go:180-182 | there are no parts exactly for blank blocks or a chunk size below one |
| Indexing.EmbedTexts | internal/rag/service.go:208-228 | succeeds exactly for one vector of the right dimension per text; each failure has its own error |
| Indexing.BuildChunks | internal/rag/service.go:174-206 | chunk i has ordinal i, the text and metadata of part i and vector i, the document and the source; the errors are told apart exactly |
| Indexing.RebuildStoredChunks | internal/rag/service.go:145-172 | chunk i keeps ordinal, content, part and source of the stored chunk i, and takes vector i; fails exactly without chunks or a usable reply |
| Indexing.BuiltChunksAreGood | internal/rag/service.go:180-204 | built chunks have distinct ordinals 0..n-1, so ordinal 0 is there: the premise of all-or-nothing replacement |
| Indexing.RefreshedIsRebuilt | internal/rag/service.go:159-170 | a rebuild of stored chunks is a Rebuild step of the chunk table's protocol |
| Indexing.BlocksHoldTheirLines | internal/rag/chunker.go:33-46 | blocks have exactly the non-space runes of their lines, in order |
| Indexing.PlainBlocksHoldTheText | internal/rag/chunker.go:95-116 | the blocks of a plain text have exactly its non-space runes, in order |
| Indexing.StoredChunksHoldTheBlocks | internal/rag/service.go:174-206 | behind their heading contexts and without repeats, the stored chunks show exactly the non-space runes of the blocks |
| Indexing.PlainTextIsStored | internal/rag/service.go:174-206 | every occurrence of a non-space rune in a plain text has its own place in a stored chunk |
| Indexing.LineIsKept | internal/rag/chunker.go:23-93 | every line of a Markdown text is a heading, blank, or has a place of its own among the lines of the blocks |
| Indexing.MarkdownTextIsStored | internal/rag/service.go:174-206 | every occurrence of a non-space rune in a block line of a Markdown text has its own place in a stored chunk |
| Sse.BlocksOfPieces | internal/web/static/app.js:146-153 | reading a, then b behind what was left of it, finds the blocks of a + b |
| Sse.ParseSseBlock | internal/web/static/app.js:158-166 | the loop over the lines gives the block's message, if it has data |
| Sse.ParseBlockMeans | internal/web/static/app.js:158-166 | the name is that of the last event line, or the default, and the data are all data lines joined; a block without any is none |
| Sse.BlocksMean | internal/web/static/app.js:146-153 | the stream is its blocks and the rest, with an empty line between, and each block ends at the first empty line |
| Sse.JsTrimMeans | internal/web/static/app.js:162-163 | trimming takes exactly the white space at both ends |
| Sse.JsSpaces | internal/web/static/app.js:162-163 | the white space of the browser and of the server differ in U+FEFF and U+0085 only |
| Sse.MoreStreamMoreMessages | internal/web/static/app.js:140-156 | reading further only appends messages |
| Sse.BlockParses | internal/web/server.go:338-338 | a printed clean message is parsed back |
| Sse.WireBlocks | internal/web/server.go:333-343 | for every list of clean messages, reading what was printed gives exactly the list |
| Sse.PrefixOfWire | internal/web/static/app.js:140-156 | any part of the stream that arrives gives a first part of the messages, the whole stream all of them |
| Sse.CrLfIsNeverRead | internal/web/static/app.js:148-149 | from a stream whose line feeds all follow carriage returns nothing is delivered |
| Sse.ReadBackOnlyWithLf | internal/web/static/app.js:140-166 | of the three line ends of the standard, messages are read back if and only if they are printed with LF |
| Streaming.Response.WriteSse | internal/web/server.go:333-343 | appends exactly one printed message as far as the connection takes it; a payload that cannot be encoded appends nothing |
| Streaming.QueryStream | internal/rag/service.go:259-318 | every token is printed and accumulated in order; a broken connection is a failure, otherwise the answer is the concatenation |
| Streaming.Stream | internal/web/server.go:289-331 | the body is tokens, then citations and done, or an error, cut where the connection broke |
| Streaming.PlannedMeans | internal/web/server.go:306-331 | a request sends every token in order, then the error unless it was cancelled, or the citations and then the timing, unless the citations cannot be encoded |
| Streaming.DrainBuffer | internal/web/static/app.js:148-153 | the inner loop handles the complete blocks of the buffer and leaves the rest |
| Streaming.ReadSse | internal/web/static/app.js:140-156 | the view depends on the concatenated stream alone, however it is cut into pieces, and nothing is handled behind an exception |
| Streaming.HandlerMeans | internal/web/static/app.js:120-132 | what each event does to the answer, the citations, the timing and the error, and that other events do nothing |
| Streaming.ThrowMeans | internal/web/static/app.js:140-156 | data that is no JSON ends the reading with an error, and nothing is handled behind an error |
| Streaming.OutcomeMeans | internal/web/static/app.js:133-136 | an error is shown if there was one or the end is missing, and the whole answer otherwise |
| Streaming.TokensAreShown | internal/web/static/app.js:120-124 | after the tokens the answer shown is their concatenation |
| Streaming.PlannedIsShown | internal/web/static/app.js:119-132 | the view after the first k messages of the server, for every k |
| Streaming.PageFollowsServer | internal/web/static/app.js:119-132 | wherever the connection breaks and the stream is cut, the page has handled exactly the first k messages the server meant to send |
| Streaming.FinishedMeansWhole | internal/web/static/app.js:119-135 | an answer shown as finished is the server's whole answer with its citations; with the connection intact it is shown exactly when the request succeeded and could be encoded |
| Ndcg.RelevantDocumentSet | internal/evaluation/evaluation.go:828-834 | the set of normalised names |
| Ndcg.GainOfHits | internal/evaluation/evaluation.go:804-815 | the loop adds the discount of the first hit of each relevant document among the first k |
| Ndcg.NdcgAtK | internal/evaluation/evaluation.go:799-826 | the gain over the ideal gain, or 0 for nothing wanted or k below one |
| Ndcg.GainIsAtMostIdeal | internal/evaluation/evaluation.go:804-823 | the gain is at most that of as many hits at the top, with equality for perfect rankings only |
| Ndcg.ScoreBounds | internal/evaluation/evaluation.go:799-826 | for every positive decreasing discount the score is in [0, 1], and 1 exactly when the first min(k, wanted) hits are distinct relevant documents |
| Ndcg.ScoreMeans | internal/evaluation/evaluation.go:799-826 | the score is the sum of the discounts at the first hits of relevant documents among the first k, over the sum of the first min(k, wanted) discounts |
| Baseline.SetAndGet | internal/evaluation/evaluation.go:335-477 | setting a metric to another report's value changes that metric and nothing else |
| Baseline.CompareBaseline | internal/evaluation/evaluation.go:274-305 | returns the regressions in order, against the last baseline report of each mode |
| Baseline.NoRegressions | internal/evaluation/evaluation.go:274-305 | nothing is reported exactly when no metric of any report is worse than the tolerance allows |
| BaselineFields.RegressionsMean | internal/evaluation/evaluation.go:274-333 | field by field: an entry for each metric of the pipeline, in order, that is worse than in the last baseline report of the mode by more than the tolerance, with both values |
| BaselineFields.LastMeans | internal/evaluation/evaluation.go:278-281 | the report a mode is compared with is the last of that mode |
| Baseline.MergeReport | internal/evaluation/evaluation.go:386-397 | the loop over the metrics merges a report into the best one |
| Baseline.FoldedMetric | internal/evaluation/evaluation.go:386-397 | each metric of a merged report is the better value under the zero rule; mode, pipeline and details stay |
| BaselineFields.MergedMeans | internal/evaluation/evaluation.go:386-396 | field by field: the larger quality, the smaller count, the smaller latency unless the best one is missing; the answer metrics only in a rag report |
| Baseline.MergeBaseline | internal/evaluation/evaluation.go:375-418 | one merged report per mode, the current modes first and in their order; header fields as documented |
| BaselineFields.BestForMeans | internal/evaluation/evaluation.go:375-398 | the report of a mode is the last existing one or the first current one, then the better of it and each current one that follows |
| BaselineFields.FirstModesInOrder | internal/evaluation/evaluation.go:407-413 | of two modes of the current reports the one that comes first has the earlier first report |
| Baseline.BestHasItsMode | internal/evaluation/evaluation.go:375-399 | a mode has a merged report exactly if it was in one of the inputs |
| BaselineTheorems.MergeKeepsModes | internal/evaluation/evaluation.go:375-418 | no mode is lost or invented, and each has one report |
| BaselineTheorems.NoRegressionAgainstCurrent | internal/evaluation/evaluation.go:375-418 | a merged baseline never regresses against the current reports, at any tolerance, even with repeated modes |
| BaselineTheorems.BestValue | internal/evaluation/evaluation.go:380-398 | a merged metric is the fold of the mode's values |
| BaselineTheorems.WhenResets | internal/evaluation/evaluation.go:389-392 | the zero rule lets a value rise above v exactly when a non-positive value is followed only by values above v |
| BaselineTheorems.NoRegressionAgainstExisting | internal/evaluation/evaluation.go:375-418 | no regression against the existing reports at any tolerance if and only if no metric of a mode has such a reset in the current reports |
| BaselineTheorems.OneReportPerMode | internal/evaluation/evaluation.go:375-418 | with one current report per mode nothing regresses against either input |
| BaselineTheorems.RepeatedModeCanRegress | internal/evaluation/evaluation.go:389-392 | existing 3, then current 0 and 7 in one mode: the merged 7 regresses against 3 |
| BaselineTheorems.UpdatesAreOneMerge | cmd/minirag/eval.go:106-113 | updating the baseline file run by run keeps the same reports as merging all runs at once |
| BaselineTheorems.NoRegressionAcrossUpdates | cmd/minirag/eval.go:106-113 | after any number of updates the file shows no regression against the first one at any tolerance if and only if no metric of a mode has a reset in the reports of the runs |
| BaselineTheorems.AllFailedRunForgets | cmd/minirag/eval.go:106-113 | latency 3, then a run in which every case failed (average 0), then 7: the last file regresses against the first, with one report per mode throughout |

## Left out

- Names, content types, error messages and trace contexts of jobs and documents: no decision of the protocol reads them.
- Job rows migrated from an older schema (processing without a lease): the invariant covers rows created by this code; recovery itself also takes rows without a lease.
- Statements that take effect after their call has already returned an error.
- The check for an active reindex before a new one: it is a separate statement, so the model allows several.
- The job timeout and the poll interval: indexing may fail at any time, and workers may claim at any time.
- Chunks carry the bytes they were cut from in the queue model; their ordinals are the subject of `ChunkTable`, their texts of `Indexing`.
- Drain.DrainBound: speaks of quiet runs, in which no worker crashes or shuts down, nothing is uploaded or deleted, claims are answered, and calls made within a lease reach the database; leases may be lost by being late, and each one lost allows one more claim.
- Heartbeat.Beat: assumes the reply of a claim within one interval and renewal calls cut off after one interval, as the source arranges.
- Fusion.FuseRRF: topK is not negative, as its callers make it; Go would panic on a negative one.
- Deleting the document while its chunks are being replaced is not a step of `ChunkTable`; in the queue's model a replacement for a deleted document fails whole.
- Vector distance, full-text and trigram scores: candidates are arbitrary lists with distinct ids.
- Rounding of floating-point scores, metrics and discounts.
- `searchWeighted`, `looksRefused`, answer scores, dataset loading: no property beyond their bodies.
- Splitting PDF output into pages; the model starts from the text of a page or file.
- Streaming.ReadSse: JSON values are the objects the server sends; other JSON values, such as null, are not modelled.
- UTF-8 decoding and JSON syntax.
- Tracing, metrics, logging, configuration, readiness checks, HTML.
