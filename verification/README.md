# A verified model of the article pipeline

The repository crawls technical articles (Go), moves them through a Redis stream to
a processor (Python) that fetches, filters, deduplicates and stores them, and exports
the result for search and fine-tuning. This project models its stateful core in Dafny
4.11 and proves what it keeps over every run. `dafny verify dfyconfig.toml` checks
everything.

| modules | what they model |
|---|---|
| `Delivery`, `DeliverySafety`, `DeliveryReplay`, `DeliveryOutcome`, `DeliveryLoss`, `DeliveryRepair` | the delivery protocol: stream, PENDING, dead letters, articles table, fingerprint index and the process's deque as one state, one step per external effect, crashes and retries anywhere |
| `BatchPlan`, `BatchCounts`, `BatchOutcome` | what one batch comes to: effects, rows, counts and calls; what each counter means; and why pages and documents determine it all, however far it gets |
| `Processor`, `ConsumerRepair` | the consumer of `main.py` as a class; every effect and decision of its methods is a step of `Delivery`, so its state is always the end of a run; `healthy` is the number of Redis and Postgres calls that still succeed, and decides when a method raises; whole histories of starts, turns, exceptions, reconnections and kills |
| `NearDup`, `Dedupe`, `Bits` | the LSH index as a class with buckets, the voting fingerprint, the band arithmetic |
| `Scheduler`, `SchedulerProofs`, `SchedulerStops` | the Go scheduler: launcher, workers and closer interleaved over two channels; why and when it stops |
| `TokenBucket`, `FetchPool` | the rate limiter under any interleaving, its waiting loop, the retry loop of `fetch_one` over two limiters, and many threads in it at once |
| `Outline`, `Chunker`, `Markdown` | heading stack, sections, overlapping windows, the whole chunk splitter |
| `QaDoc` | the Go printer of question-and-answer documents, the Python parser, the export loop |
| `Embedding` | the resumable embedding run |
| `Stream`, `Timestamp` | publishers sharing the dedup set, the stream and the cursors; RFC 3339 times compared as strings |
| `Text`, `Wrappers` | trimming, joining, option and result types |

Code that changes state step by step is modelled by classes and loops; each method is
proved against a specification function or relation, and the properties are lemmas
about those. Concurrency is a state machine whose steps are the atomic operations:
Redis scripts and calls, channel operations, one pass of a locked section. Fetching,
extraction, quality gates, language detection, hashes and the embedding API are
parameters, arbitrary in every theorem except where a row says "deterministic".

## Where the code and its documentation disagree

The model follows the code. Each point is a theorem below, with the exact condition
where there is one.

- `process_batch` promises that nothing is lost mid-failure (py-processor/main.py:112-113),
  and the comment at py-processor/main.py:216-217 says that a failed insert leaves no
  fingerprint. The deque keeps one: a retry in the same process drops the document
  (`DeliveryLoss.RetrySafeExactly`, `DeliveryLoss.LosingRun`), and after a commit it
  leaves the row out of the index (`DeliveryRepair.ReindexSafeExactly`,
  `DeliveryRepair.UnindexedRowAfterRetry`). The no-loss theorem therefore asks of each
  in-process retry that the deque holds nothing uncommitted, the repair theorem that
  every stored fingerprint in it is indexed; process restarts need no condition.
- The cursor relies on "RFC3339 UTC strings compare lexicographically"
  (go-crawler/internal/stream/stream.go:99-101); with fractions of different length
  they do not (`Timestamp.OrderExactly`, `Stream.CursorExactly`, `Stream.CursorStaysBehind`).
- At a loop head that ends a cancelled run the scheduler may hold one page more than
  `concurrency`, in every configuration that admits that many pages
  (`SchedulerProofs.PendingBound`, `SchedulerProofs.PendingOvershoot`); the channel's
  sends are safe all the same.
- PENDING is reclaimed at start-up so that messages "are not stuck forever"
  (py-processor/main.py:304-306). A payload that is JSON but not an object raises at
  every delivery and stops the consumer for good (`DeliverySafety.PoisonBlocks`,
  `Processor.Consumer.RecoverPending`).
- The threads are said to share the limiters "so the aggregate QPS holds"
  (py-processor/main.py:145-146). A thread that waits for its host's limiter keeps its
  global grant, and these add to the bound (`FetchPool.RequestBound`,
  `FetchPool.PlainBoundExactly`).
- `penalise` is meant to throttle; a shorter penalty shortens a longer one
  (`TokenBucket.PenaltyHonouredExactly`, `TokenBucket.ShorterPenaltyWins`).
- The heading prefix is announced for the first chunk (py-processor/chunker.py:73) and
  put on every one; a section of headings only that is too long disappears
  (`Markdown.HeadingOnlySectionsVanish`). Code blocks "are never hard-split", but one
  with a blank line inside is two paragraphs (`Markdown.ParagraphsOfBody`).
- A question that quotes an answer section is exported as answered
  (`QaDoc.NoAnswerSection`, `QaDoc.ForgedAnswer`).
- The failure file is said to name what a rerun retries. It is left stale by a clean
  run (`Embedding.FailureListIsCurrent`) and not written at all when nothing was ever
  embedded, because the run raises first (`Embedding.NoVectorsExactly`).
- Recall of the LSH index is called "very likely" (py-processor/dedupe.py:45-47); it is
  certain below `bands` flipped bits and not guaranteed from there on
  (`NearDup.RecallExact`).

## Model

| member | source | states |
|---|---|---|
| `DeliveryLoss.AcknowledgedIsJustified` | py-processor/main.py:108-245 | Main safety theorem: in every run of deliveries, crashes between any two effects, restarts and safe in-process retries, an acknowledged message was malformed, gone, gate- or language-rejected, parked, reported unparked, or its fingerprint is within the Hamming threshold of a row of a committed INSERT whose URL is in `articles`. |
| `DeliveryLoss.RunNoLoss` | py-processor/main.py:108-245 | The invariant behind it: verdicts, deque and batch stay backed by committed rows along every run. |
| `DeliveryLoss.RetrySafeExactly` | py-processor/main.py:321-332 | For every batch size, retrying in the process with the same deque is safe if and only if the deque holds no fingerprint that is not already near a committed row; otherwise some continuation acknowledges an unbacked message. (The batch that failed was read with that size, or nothing pending stops the drain.) |
| `DeliveryLoss.RetryDrops` | py-processor/main.py:194-197 | The losing half, for any state and batch size in which nothing pending stops the drain: a redelivered message whose fingerprint is in the deque and not in the index is acknowledged as a duplicate with nothing new committed or indexed. |
| `DeliveryLoss.RereadDrops` | py-processor/main.py:194-197 | The same when the failed batch is read again, whatever else is pending. |
| `DeliveryLoss.SafeOutsideWindow` | py-processor/main.py:215-218 | A failure outside the window from a batch's first appended fingerprint to its commit is safe to retry. |
| `DeliveryLoss.LosingRun` | py-processor/main.py:321-332 | The loss as a concrete run: one document, one failed INSERT, an in-process retry; the message is acknowledged and the table stays empty. |
| `DeliverySafety.RunConserves` | py-processor/main.py:62-105 | In every run each delivered entry is either pending or acknowledged with a verdict that fits it, an entry is dead-lettered at most once, committed rows have their URL in the table, and only committed fingerprints are indexed. |
| `DeliverySafety.StepConserves` | py-processor/main.py:108-268 | Each single effect keeps that invariant. |
| `DeliverySafety.RunOrderly` | py-processor/main.py:248-268 | In every run a batch is the oldest part of PENDING, all of it unless the recovery loop read it, and new entries are read only when nothing is pending. |
| `DeliverySafety.PoisonStaysPending` | py-processor/main.py:134-143 | In every run a delivered entry that is JSON but not an object is pending for ever. |
| `DeliverySafety.PoisonBlocks` | py-processor/main.py:134-143 | While one is pending, whatever crashes, restarts and retries there are, no new entry is ever read and no entry from it on is ever acknowledged. |
| `DeliveryReplay.ReplayUpTo` | py-processor/main.py:248-268 | If every pending document fails the gates or is known to index or deque, the recovery loop reaches any pending entry, whatever the batch size, acknowledges it as a duplicate if it passes, and stores and indexes nothing. |
| `DeliveryReplay.ReplayBatch` | py-processor/main.py:263-268 | The same for one turn of the loop over a given batch. |
| `DeliveryOutcome.AcknowledgedAsDecided` | py-processor/main.py:108-245 | In every run with deterministic outcomes per message, each acknowledged entry has the verdict that its own page and document give it, and each row that a message brought has a fingerprint that its document passes the gates with. |
| `Delivery.PushIsLast` | py-processor/main.py:302-302 | The deque holds the last `maxlen` fingerprints appended, the newest at the end. |
| `DeliverySafety.SelectSound` | py-processor/main.py:136-143 | Splitting a batch into inline and to-fetch entries keeps exactly the parsable entries of each kind. |
| `DeliverySafety.InsertSound` | py-processor/store.py:42-63 | ON CONFLICT DO NOTHING: stored rows are never overwritten, every row's URL ends up in the table, and new hashes come from the rows. |
| `DeliveryRepair.StoredRowsAreRepaired` | py-processor/main.py:215-268 | Index repair by redelivery: with deterministic outcomes per message, each committed row is near the index, its message is still PENDING, or it predates the run and warming has not finished, even across a crash between commit and index. |
| `DeliveryRepair.IdleIndexIsComplete` | py-processor/neardup.py:60-90 | Whenever the process is about to read new entries, every stored hash is within the threshold of an indexed one. |
| `DeliveryRepair.RunRepairs` | py-processor/main.py:215-268 | The invariant behind both, over every such run. |
| `DeliveryRepair.ReindexSafeExactly` | py-processor/main.py:321-332 | Once the documents of a batch are decided and remembered (batch committed, or nothing else pending), a retry in the process harms no stored row if and only if no stored fingerprint in the deque is missing from the index. |
| `DeliveryRepair.ReachableReindex` | py-processor/main.py:321-332 | The same for every reachable state whose deque has not filled up. |
| `DeliveryRepair.ReindexLoses` | py-processor/main.py:321-332 | The losing half: the same batch delivered again acknowledges a committed row that is not in the index. |
| `DeliveryRepair.RunRemembers` | py-processor/main.py:302-302 | As long as the deque has room, every fingerprint the batch decided on is in it or near the index. |
| `DeliveryRepair.SafeBeforeCommit` | py-processor/main.py:215-218 | An exception between batches, or in a batch while every stored row is indexed, is safe for the index: in particular a failed INSERT. |
| `DeliveryRepair.UnindexedRowAfterRetry` | py-processor/main.py:321-332 | The other failure of the in-process retry as a concrete run: a row committed but not indexed stays out of the index for good. |
| `Processor.Consumer.ProcessBatch` | py-processor/main.py:108-245 | Refines the step machine, by `BatchPlan.BatchDone`: its effects are exactly the fetches, the gate decisions, commit, one filing per row and the XACK, in this order, with the rows and counts of the sifted documents, and an exception cuts them off. With an entry that is not a JSON object it raises before any effect; otherwise it raises exactly when the Redis and Postgres calls that still succeed do not suffice for its own documents and rows, and never with 2n + 5 of them for n entries. Completed, the batch splits into unparsable entries, counted rejections and rows, the per-source rejections are the sum minus `lang` and `dup`, and the stored metric grows by the rows really inserted; with an exception PENDING is untouched and the table holds all the rows or none. |
| `Processor.Consumer.Parse` | py-processor/main.py:119-143 | Phases 1 and 2a: raises exactly when some entry is JSON but not an object; otherwise the two lists are the parsable entries with and without inline content, in order, and with the unparsable ones they are all. |
| `Processor.Consumer.FetchEntry` | py-processor/main.py:153-167 | One fetched page, case by case: a gone page is counted as `not_found` against its source, an empty one as `extract_fail` and parked, otherwise the page moves to the gates; the one effect is named, and only an empty page touches the dead letters. |
| `Processor.Consumer.FetchPhase` | py-processor/main.py:147-167 | Inline content first, then fetched pages in order, with exact documents, counts and effects. |
| `Processor.Consumer.PushDlq` | py-processor/main.py:78-105 | Parks an entry if and only if the script runs and the entry is not already dead-lettered; never raises; counts and reports a new entry only when the metric went through as well. |
| `Processor.Consumer.GateEntry` | py-processor/main.py:171-213 | One document: it becomes a row if and only if it is accepted, no indexed fingerprint is near and the deque does not hold its own; counters, row, effect and deque are given case by case. It raises if and only if it needs the index and the call fails. |
| `Processor.Consumer.GatePhase` | py-processor/main.py:169-213 | All documents of a batch: exact rows, counts and gate effects, one call per accepted document; an exception leaves a prefix of the effects. |
| `BatchPlan.SiftAccounts` | py-processor/main.py:119-243 | Counting law: entries are unparsable, rejected or rows; per-source rejections are all but `lang` and `dup`. |
| `BatchPlan.FetchAccounts` | py-processor/main.py:148-167 | What phase 2 counts is exactly what it does not pass on. |
| `BatchPlan.GateAccounts` | py-processor/main.py:171-213 | What phase 3 counts is exactly what does not become a row. |
| `BatchCounts.StatsExactly` | py-processor/main.py:146-213 | Each counter of a batch is the number of entries it stands for: pages gone, pages without text, documents refused for each reason, foreign documents, and accepted documents that did not become rows. |
| `BatchCounts.BlamesExactly` | py-processor/main.py:151-183 | Each source is charged with exactly its pages that are gone or empty and its documents that were refused. |
| `BatchCounts.RowsAre` | py-processor/main.py:205-213 | The rows are the documents that passed, in order, each with its own URL, fingerprint and entry. |
| `BatchCounts.FetchStepsAre` | py-processor/main.py:153-167 | The k-th effect of phase 2 is what the k-th page says: gone, parked or not, or content. |
| `BatchCounts.GateStepsAre` | py-processor/main.py:171-200 | The k-th decision of phase 3 is what the k-th document says. |
| `Processor.Consumer.SiftPhase` | py-processor/main.py:119-213 | Phases 1 to 3 together, with their effects in order and when they raise. |
| `Processor.Consumer.InsertUnlessConflict` | py-processor/store.py:42-63 | The table after the statement, and the rowcount as the growth of the table. |
| `Processor.Consumer.InsertArticles` | py-processor/store.py:50-63 | All rows or, exactly when the call fails, none. |
| `Processor.Consumer.IndexRows` | py-processor/main.py:229-230 | Every row's fingerprint is filed, conflict or not, one call each; an exception leaves a prefix. |
| `Processor.Consumer.StorePhase` | py-processor/main.py:215-230 | Write first, index second, with the exact number of calls; the stored metric is the number of inserted rows; after an exception the table holds all the rows unless the INSERT itself failed. |
| `Processor.Consumer.FinishPhase` | py-processor/main.py:232-245 | Rejection metrics only on the path that also acknowledges; the whole batch leaves PENDING or, when a call fails, none of it. |
| `Processor.Consumer.RecoverPending` | py-processor/main.py:248-268 | Terminates. With a pending entry that is not an object it raises and the entry stays; otherwise it ends with nothing pending unless the calls run out, which takes fewer than 9n + 1 of them for n pending entries. Every decision it makes is the one that pages and documents determine. |
| `Processor.Consumer.CatchAndRecover` | py-processor/main.py:321-332 | One attempt of the exception path: same deque, drained PENDING, failing exactly when the drain does, with the outcomes that pages and documents determine. |
| `Processor.Consumer.Reconnect` | py-processor/main.py:328-335 | Any number of failing attempts: it ends recovered with PENDING drained unless every attempt had too few calls, and never while an entry that is not an object is pending; outcomes as pages and documents determine. |
| `Processor.Consumer.Warm` | py-processor/neardup.py:60-90 | Warming inside main raises exactly where the cursor does or when the calls do not suffice: a pipeline per 500 hashes, a last one and the SET; the sentinel is set only when every stored row has been filed. |
| `Processor.Consumer.Start` | py-processor/main.py:286-307 | Start-up serves with PENDING drained, or the process is gone; it serves whenever the index is warm or can be warmed, nothing pending stops the drain and the calls suffice, and never while an entry that is not an object is pending; outcomes as pages and documents determine. |
| `Processor.Consumer.ReadFresh` | py-processor/main.py:314-319 | The next waiting entries become pending in stream order: a full batch, or all that wait; raises exactly when the call fails. |
| `Processor.Consumer.Serve` | py-processor/main.py:310-320 | One turn of the loop takes the next entries, decides them as pages and documents determine and leaves PENDING as it was, unless one of them is not an object or the calls run out. |
| `Processor.Consumer.ServeTurns` | py-processor/main.py:310-320 | As long as none raises, n turns take n batches or everything that waits, and leave PENDING as it was. |
| `Processor.Consumer.AcknowledgedAreBacked` | py-processor/main.py:108-245 | The run theorems for this object: with safe retries only, its state satisfies both invariants. |
| `BatchOutcome.BatchObeys` | py-processor/main.py:119-245 | The effects of a batch, complete or cut off anywhere, are those that its pages and documents determine, so redelivery with the same pages has the same outcomes. |
| `BatchOutcome.OracleOf` | py-processor/main.py:134-213 | Pages and documents always determine such outcomes: some oracle agrees with them. |
| `ConsumerRepair.ConsumerIsRepaired` | py-processor/main.py:215-268 | The repair theorem for this object: every stored row is near the index or its message pending, and the index is complete whenever it waits for new entries, if its outcomes were an oracle's and the exceptions that main caught safe for the index. |
| `ConsumerRepair.ConsumerLosesNothing` | py-processor/main.py:108-245 | The no-loss theorem for this object, asking only that the exceptions that main caught were safe to retry. |
| `ConsumerRepair.Live` | py-processor/main.py:286-335 | Any history of posted entries, process starts, turns of the serving loop, reconnection attempts and kills, exceptions anywhere: its outcomes are those that pages and documents determine, so both theorems apply to it, without any condition if main caught no exception. |
| `NearDup.LshIndex.IsDuplicate` | py-processor/neardup.py:29-43 | The nested search with early return; True if and only if some indexed fingerprint is within the threshold (threshold below the number of bands), and never a false hit otherwise. |
| `NearDup.LshIndex.Index` | py-processor/neardup.py:46-54 | Adds exactly the given fingerprint and keeps the bucket invariant. |
| `NearDup.LshIndex.WarmFromDb` | py-processor/neardup.py:60-90 | A complete warm-up adds exactly the stored hashes and sets the sentinel; an interrupted one adds some of them and does not. |
| `NearDup.WarmCallsAre` | py-processor/neardup.py:71-89 | A warm-up makes one pipeline call per 500 hashed rows, a last one and the SET. |
| `NearDup.LshIndex.WarmAfterRestarts` | py-processor/neardup.py:63-67 | Any interruptions followed by a complete warm-up leave the index of an uninterrupted one. |
| `NearDup.HitIsScan` | py-processor/neardup.py:29-43 | Bucket search against linear scan, for any index state. |
| `NearDup.RecallExact` | py-processor/neardup.py:29-43 | The search equals the scan on every index state if and only if the threshold is below the number of bands. |
| `NearDup.EditedDocumentCaught` | py-processor/neardup.py:29-43 | An edit that puts at most `threshold` vote counts at risk is caught. |
| `NearDup.PartialIndexSticks` | py-processor/neardup.py:46-54 | Why filing is treated as atomic: a fingerprint that reached only one band is a duplicate of itself and misses a neighbour. |
| `Dedupe.BucketKeys` | py-processor/dedupe.py:44-58 | The shift and mask loop: an error unless bands divides bits, else the band keys. |
| `Dedupe.BandKeyIsDigit` | py-processor/dedupe.py:51-57 | For fingerprints below 2^bits key i is the i-th digit to base 2^width, counted from the top. |
| `Dedupe.BandsReassemble` | py-processor/dedupe.py:50-58 | Concatenating the keys gives back the fingerprint. |
| `Dedupe.HammingIsBandDistance` | py-processor/dedupe.py:40-58 | The distance of two fingerprints is the sum of the distances of their bands. |
| `Dedupe.Pigeonhole` | py-processor/dedupe.py:44-48 | Fewer flipped bits than bands leave some band equal. |
| `Dedupe.Simhash` | py-processor/dedupe.py:22-37 | The two voting loops compute the number below 2^bits whose bit i is set if and only if more than half of the tokens have it. |
| `Dedupe.FingerprintBits` | py-processor/dedupe.py:29-37 | The fingerprint is below 2^bits, and bit i is set if and only if more than half of the tokens have it, counted as positions. |
| `Dedupe.TallyIsMargin` | py-processor/dedupe.py:26-33 | The vote count is the tokens with the bit less those without it. |
| `Dedupe.FingerprintPermutation` | py-processor/dedupe.py:26-37 | It depends on the token multiset only. |
| `Dedupe.SimhashStable` | py-processor/dedupe.py:22-37 | Replacing tokens moves it by at most the number of vote counts the edit puts at risk. |
| `Bits.HammingCountsBits` | py-processor/dedupe.py:40-41 | Popcount of the exclusive or counts the differing bits. |
| `Bits.ShiftIsDivision` | py-processor/dedupe.py:53-57 | Right shift and mask are quotient and remainder by a power of two. |
| `Scheduler.New` | go-crawler/internal/scheduler/scheduler.go:45-62 | The defaults 8 and 3 for concurrency and page failures; every configuration is usable. |
| `SchedulerProofs.StepInv` | go-crawler/internal/scheduler/scheduler.go:64-166 | Every step of launcher, workers and closer keeps the counting invariant. |
| `SchedulerProofs.PendingBound` | go-crawler/internal/scheduler/scheduler.go:90-145 | `pending` is the number of unabsorbed pages at every loop head, at most `concurrency` when the loop goes on, and one more only after a cancellation. |
| `SchedulerProofs.PendingOvershoot` | go-crawler/internal/scheduler/scheduler.go:132-144 | For every configuration: a loop head with more than `concurrency` pages pending is reachable if and only if the page limit admits that many pages. |
| `SchedulerProofs.SendHasRoom` | go-crawler/internal/scheduler/scheduler.go:91-127 | A worker's send finds room whenever the launcher is not about to receive, so a blocked launcher or the early return strands nobody. |
| `SchedulerProofs.NoDeadlock` | go-crawler/internal/scheduler/scheduler.go:64-166 | In every state satisfying the invariant that is not over, some goroutine can move without help from the context. |
| `SchedulerProofs.MaximalRunIsOver` | go-crawler/internal/scheduler/scheduler.go:64-166 | A run nobody can extend has returned and every worker is gone. |
| `SchedulerProofs.ClosedMeansDone` | go-crawler/internal/scheduler/scheduler.go:147-154 | Nothing is sent on the closed channel. |
| `SchedulerProofs.RunsAreBounded` | go-crawler/internal/scheduler/scheduler.go:90-166 | With a page limit every schedule is finite, by a measure each step decreases. |
| `SchedulerProofs.RunLength` | go-crawler/internal/scheduler/scheduler.go:90-166 | At most 20 * maxPages + 10 steps. |
| `SchedulerProofs.StoppedRunsAreBounded` | go-crawler/internal/scheduler/scheduler.go:147-166 | Without a page limit a run that has decided to stop is finite. |
| `SchedulerStops.StopsForAReason` | go-crawler/internal/scheduler/scheduler.go:77-145 | In every run the launcher stops only if an absorbed page was empty, the failures reached the breaker, the context was cancelled or the page limit was passed, and it has stopped as soon as an absorbed page was empty or the failures reached the breaker. |
| `SchedulerStops.EndedRunLength` | go-crawler/internal/scheduler/scheduler.go:90-166 | Also without a page limit: if every page from `end` on comes back empty or fails, every schedule has at most 20 * (end + maxPageFailures + concurrency) + 10 steps. |
| `SchedulerStops.TotalsAre` | go-crawler/internal/scheduler/scheduler.go:77-88 | The totals are the number of pages, the sums of articles and errors, and the number of failed pages. |
| `SchedulerProofs.Accounting` | go-crawler/internal/scheduler/scheduler.go:77-166 | On normal return the launched pages are 1 to nextPage - 1, each absorbed once, the recorded totals are the sums over them, maxPages holds and failures overshoot by at most `concurrency`. |
| `Scheduler.Counters.Absorb` | go-crawler/internal/scheduler/scheduler.go:77-88 | The counters and the circuit breaker. |
| `Scheduler.Counters.Drain` | go-crawler/internal/scheduler/scheduler.go:152-154 | The draining loop adds up all remaining results. |
| `TokenBucket.WindowBound` | py-processor/fetcher.py:110-138 | For any interleaving of attempts and penalties under a non-decreasing clock, grants in any window [a, z] are at most capacity + rate * (z - a). |
| `TokenBucket.StepOk` | py-processor/fetcher.py:110-138 | Tokens stay within 0 and the capacity, and a refill clock in the future means an empty bucket. |
| `TokenBucket.PenaltyBound` | py-processor/fetcher.py:133-138 | After the last penalty of s seconds at t0, grants by time z are at most rate * max(0, z - t0 - s): none inside the penalty. |
| `TokenBucket.ShorterPenaltyWins` | py-processor/fetcher.py:136-138 | A penalty that comes during another leaves the earlier one honoured if and only if it ends no earlier. |
| `TokenBucket.PenaltyHonouredExactly` | py-processor/fetcher.py:110-138 | For any sequence of penalties: nothing is granted before time g, whatever attempts come in between, if and only if each penalty lasts until the next one or until g. |
| `TokenBucket.PenaltyHonoured` | py-processor/fetcher.py:133-138 | In particular a penalty is honoured over any run in which no later penalty ends earlier. |
| `TokenBucket.TooMuchNeverGranted` | py-processor/fetcher.py:110-131 | A demand above the capacity is never granted. |
| `TokenBucket.TokenBucket.constructor` | py-processor/fetcher.py:103-108 | Starts full; a missing or zero capacity becomes max(1, rate). |
| `TokenBucket.TokenBucket.TryAcquire` | py-processor/fetcher.py:111-131 | One pass of the loop: grants exactly when the refilled level suffices, else the capped sleep. |
| `TokenBucket.TokenBucket.Acquire` | py-processor/fetcher.py:110-131 | A lone caller with exact sleeps is granted at max(now, last) + max(0, n - level)/rate, never before a penalty ends, in a bounded number of passes. |
| `TokenBucket.RefillPass` | py-processor/fetcher.py:119-131 | A capped sleep keeps the grant time and uses up one of the bounded sleeps. |
| `TokenBucket.React` | py-processor/fetcher.py:182-216 | What each status leads to: 200 the text, 404 and 410 gone, any other below 500 giving up; 429, 403, 5xx and no response the exact sleep, with the exact penalty on the global bucket for 429 and on the host's for 403 only. |
| `TokenBucket.FetchOne` | py-processor/fetcher.py:171-218 | At most FETCH_RETRIES + 1 requests; every earlier reply was none, 429, 403 or at least 500; a last reply of 200 gives the text, 404 or 410 gone, any other gives up, after the last attempt if it is one worth retrying; and no request comes before the latency, the sleep and the penalties of the one before it are over. |
| `FetchPool.RequestBound` | py-processor/fetcher.py:171-182 | However many threads share the limiters, whatever replies and penalties: the requests of any window [a, z] are at most the grants of the global limiter held unused at a, plus capacity + rate * (z - a). |
| `FetchPool.PlainBoundExactly` | py-processor/fetcher.py:86-88 | The bound capacity + rate * (z - a) alone holds for all runs if and only if no such grant is held. |
| `FetchPool.BoundIsSharp` | py-processor/fetcher.py:175-182 | For any number n and whole capacity k an idle pool has a run in which n grants are held and n + k requests go out at one instant. |
| `FetchPool.HostBound` | py-processor/fetcher.py:178-182 | Requests to one host keep the plain bound of its own limiter. |
| `FetchPool.RetryBound` | py-processor/fetcher.py:176-217 | A call sends at most FETCH_RETRIES + 1 requests however the threads interleave. |
| `FetchPool.AnswerDecides` | py-processor/fetcher.py:182-217 | What each reply does to a thread of the pool, status by status. |
| `FetchPool.AnswerPunishes` | py-processor/fetcher.py:192-206 | And to the limiters: only 429 locks the global one and only 403 the host's. |
| `TokenBucket.PenanceIs` | py-processor/fetcher.py:192-213 | In seconds: after 429 Retry-After, or else the back-off and at least five; after 403 two and the host's cooldown; otherwise the back-off. |
| `Chunker.ParseSections` | py-processor/chunker.py:14-34 | The line loop returns the non-blank sections, each with the titles on the heading stack at its end. |
| `Chunker.SectionsPartition` | py-processor/chunker.py:14-34 | Every line lies in exactly one section, in order; a heading only ever opens one; a section's body is empty exactly when its lines are blank. |
| `Chunker.SectionsExactly` | py-processor/chunker.py:34 | The sections returned are those of the spans with text, each once and in order. |
| `Chunker.HeadingExactly` | py-processor/chunker.py:11-27 | A line is a heading of this level and title if and only if it is one to six hashes, whitespace, a title without whitespace around it, and whitespace. |
| `Outline.PathWithinLevel` | py-processor/chunker.py:27-28 | The path is never longer than the heading is deep. |
| `Outline.StackIsChainExactly` | py-processor/chunker.py:27-28 | The heading stack is the chain of nearest preceding headings of smaller level, for every heading, if and only if no heading keeps a stack entry that is not above it. |
| `Outline.NeverSkipsIsChain` | py-processor/chunker.py:27-28 | In documents that never skip a level the path is that chain, and as long as the level. |
| `Outline.SkippedSiblingsNest` | py-processor/chunker.py:27-28 | With a skipped level siblings nest. |
| `Chunker.SplitParagraphs` | py-processor/chunker.py:37-60 | The packing loop returns the joined windows. |
| `Chunker.Carry` | py-processor/chunker.py:47-54 | The inner loop carries the tail from `CarryStart` on. |
| `Chunker.CarryIsLongest` | py-processor/chunker.py:47-54 | That tail fits in `overlap` and no longer one does. |
| `Chunker.WindowsCover` | py-processor/chunker.py:37-60 | Windows are contiguous, their ends strictly increase, starts never decrease, two neighbours share exactly the longest fitting tail, and every paragraph is covered. |
| `Chunker.PackSizes` | py-processor/chunker.py:41-57 | `buf_len` is always the length of the joined buffer. |
| `Chunker.PieceBound` | py-processor/chunker.py:41-60 | Every piece is at most max(target, overlap + longest paragraph). |
| `Chunker.WindowsFull` | py-processor/chunker.py:44-46 | A window is closed only when the next paragraph would take it over the target. |
| `Markdown.SplitMarkdown` | py-processor/chunker.py:63-81 | The whole splitter: sections that fit as they are, others as the heading paragraphs joined with each window, pieces below `min_chars` left out. |
| `Markdown.SplitSection` | py-processor/chunker.py:72-80 | The prefix and strip arithmetic of the loop is plain joining by blank lines. |
| `Markdown.TakePrefix` | py-processor/chunker.py:73-76 | The prefix is all leading paragraphs made of heading lines, joined. |
| `Markdown.DocumentOrder` | py-processor/chunker.py:63-81 | Chunks are in document order: the chunks of the first sections are a prefix of the result that ends with the last of these sections' own. |
| `Markdown.SectionOrder` | py-processor/chunker.py:76-80 | Within a section chunks follow the order of its pieces. |
| `Markdown.ChunksExactly` | py-processor/chunker.py:63-81 | A chunk is in the result if and only if it is a long enough piece of a section under that section's path. |
| `Markdown.ChunkSizes` | py-processor/chunker.py:63-81 | Every chunk has its section's path and a length between `min_chars` and the piece bound plus prefix and 2. |
| `Markdown.PiecesAreFull` | py-processor/chunker.py:44-80 | The same for the pieces of an oversize section. |
| `Markdown.LinesOf` | py-processor/chunker.py:22-22 | The lines of a text with what ended them are the text; no line holds a boundary, each ends with one, and a carriage return with its line feed is one. |
| `Markdown.ParagraphKept` | py-processor/chunker.py:72-80 | Every paragraph after the prefix is whole in a piece, and that piece is a chunk unless too short. |
| `Markdown.HeadingOnlySectionsVanish` | py-processor/chunker.py:73-80 | An oversize section yields nothing if and only if all its paragraphs look like headings. |
| `Markdown.ParagraphsOfBody` | py-processor/chunker.py:72-72 | The blank-line split: stripped non-empty paragraphs without a blank line inside, together all the text but whitespace. |
| `QaDoc.BestAnswer` | go-crawler/internal/source/stackexchange.go:164-179 | The first accepted answer, else the first of the highest positive score, else none. |
| `QaDoc.ComposeDoc` | go-crawler/internal/source/stackexchange.go:181-201 | Refused exactly for a failed or blank question or a missing required answer; otherwise the document of the best answer. |
| `QaDoc.RoundTrip` | py-processor/export_sft.py:22-39 | Parsing a printed document gives its parts back if and only if the title is one clean line, question and answer are clean, the answer is long enough and the separator does not occur in the question and its newline. |
| `QaDoc.NoAnswerSection` | py-processor/export_sft.py:32-33 | Without an answer section the result is None if and only if the question holds no separator or less than `min_answer_chars` after its first one; otherwise the pair is the question cut there. |
| `QaDoc.ForgedAnswer` | py-processor/export_sft.py:32-34 | A question that quotes an answer section is taken for an answered one. |
| `QaDoc.ParsedIsClean` | py-processor/export_sft.py:22-39 | For every input, a parsed pair has a clean one-line title, a clean question and an answer of the length asked for. |
| `QaDoc.ExportSft` | py-processor/export_sft.py:63-98 | Writes exactly the winning rows, in order, and counts them. |
| `QaDoc.Winner` | py-processor/export_sft.py:89-92 | Each qualifying title is won by exactly one row, the first. |
| `QaDoc.WinnerIsBest` | py-processor/export_sft.py:74-92 | In the order of the query the winner has the best score among the rows of its title. |
| `QaDoc.WrittenAreWinners` | py-processor/export_sft.py:82-98 | A sample is written if and only if its row wins. |
| `QaDoc.WrittenAreOffered` | py-processor/export_sft.py:83-97 | Every sample comes from a row without a score or with a sufficient one, and is its document's question and answer. |
| `QaDoc.OfferedAreWritten` | py-processor/export_sft.py:83-97 | The title of every such row is written. |
| `QaDoc.WrittenDistinct` | py-processor/export_sft.py:89-92 | No title is written twice. |
| `Embedding.Archive.Run` | py-processor/embed_chunks.py:92-144 | One run, complete or killed at any point between saves: what it appends to the archive, how little it can lose, what it writes beside it. |
| `Embedding.Archive.WriteResults` | py-processor/embed_chunks.py:135-143 | The last save, then metadata and failure list: what each ending writes and what it leaves. |
| `Embedding.RunKeepsSound` | py-processor/embed_chunks.py:92-144 | However a run ends, the archive it leaves extends the one it found, with ids and vectors aligned, no id twice and each vector the one for its text. |
| `Embedding.RunsKeepSound` | py-processor/embed_chunks.py:92-144 | The same over any sequence of runs. |
| `Embedding.RerunRetriesSkipped` | py-processor/embed_chunks.py:95-97 | After a completed run the next to-do list is exactly the skipped items, in order; stored and skipped are the whole list. |
| `Embedding.FailureListIsCurrent` | py-processor/embed_chunks.py:139-143 | The failure file names what a rerun retries if and only if it retries something. |
| `Embedding.NoVectorsExactly` | py-processor/embed_chunks.py:135-138 | The run raises before writing the failure file exactly when the archive was empty and no batch succeeded. |
| `Embedding.CleanRunCompletes` | py-processor/embed_chunks.py:92-144 | One run without failing batches stores every chunk left. |
| `Embedding.BatchesSplit` | py-processor/embed_chunks.py:108-125 | Each item of the first k batches is stored or skipped, once. |
| `Stream.Producer.RunDedup` | go-crawler/internal/stream/stream.go:30-47 | The script adds an entry exactly when the hash is new. |
| `Stream.Producer.Publish` | go-crawler/internal/stream/stream.go:73-97 | Outcome and new Redis state for every reply, including an error after the script ran. |
| `Stream.Producer.AdvanceCursor` | go-crawler/internal/stream/stream.go:102-119 | Moves the cursor only to a greater string; the zero time does nothing. |
| `Stream.PublishIsSteps` | go-crawler/internal/stream/stream.go:73-97 | A lone `Publish` is one interleaving of the shared steps. |
| `Stream.PublishedOnce` | go-crawler/internal/stream/stream.go:30-47 | In every interleaving each hash is in the stream at most once, entries are as many as the members of the `seen:` set, and none goes away. |
| `Stream.ProducedCounts` | go-crawler/internal/stream/stream.go:86-89 | Entries not counted and not about to be are exactly the lost replies and failed increments. |
| `Stream.AdvancedPerCount` | go-crawler/internal/stream/stream.go:86-94 | In every interleaving the cursor is advanced once for each article with a source that was counted or is still to be, and never for one without. |
| `Stream.CursorExactly` | go-crawler/internal/stream/stream.go:99-119 | In every interleaving the cursor is the latest time advanced so far if and only if no advanced time of the source is confused with that one. |
| `Stream.CursorIsLatest` | go-crawler/internal/stream/stream.go:99-119 | In every interleaving the cursor is the latest time advanced so far, and stands for no other, as long as no two times of the source are confused. |
| `Stream.OrderDoesNotMatter` | go-crawler/internal/stream/stream.go:99-119 | Interleavings that advance to the same strings end with the same cursor. |
| `Stream.TwoAdvances` | go-crawler/internal/stream/stream.go:102-119 | Two advances leave the later time if and only if the two are not confused. |
| `Stream.CursorStaysBehind` | go-crawler/internal/stream/stream.go:106-114 | A whole second hides the half second after it. |
| `Timestamp.OrderExactly` | go-crawler/internal/stream/stream.go:99-106 | String order is time order if and only if the two times are not in the same second with one fraction's digits a proper prefix of the other's. |
| `Timestamp.EqualLengthsAreSafe` | go-crawler/internal/stream/stream.go:99-106 | Whole seconds, and fractions of equal length, always compare right. |
| `Timestamp.FormatInjective` | go-crawler/internal/stream/stream.go:121-132 | A cursor string stands for one time only. |
| `Timestamp.ParseFormat` | go-crawler/internal/stream/stream.go:121-132 | Reading a cursor back gives the time that was stored. |

## Left out

- Delivery.State: stream and dead-letter trimming, key expiry, connection pooling, consumer names other than one, and the payload of dead letters; an INSERT commits atomically or not at all, with at most 200 rows.
- Delivery.Step: filing one fingerprint is one step, although the source's pipeline is not transactional; `NearDup.PartialIndexSticks` shows what that hides.
- Processor.Consumer.CountStored: the per-source stored metric, only the total is kept.
- Processor.Consumer.ProcessBatch: row columns other than URL and fingerprint, and the rejection metrics by reason and by source beyond their sums.
- Processor.Consumer.Reconnect: the source tries without end; the model takes any finite list of attempts.
- ConsumerRepair.Live: pages and documents are fixed for the whole history; what a redelivery with changed pages does to the index is not said. The no-loss half needs no such assumption.
- DeliveryRepair.ReindexSafeExactly: one direction only for a batch with undecided documents, where the later documents decide what the index catches.
- Dedupe.Simhash: tokenising and lower-casing; a text is its list of tokens.
- NearDup.LshIndex.IsDuplicate: non-numeric set members, which the source skips, do not occur.
- Scheduler.Step: the limiter is a step that passes or fails at any time; fetching and publishing inside a worker are one step with an arbitrary result. Termination of an unlimited run needs a stopping event and is proved from that event on.
- TokenBucket.Bucket: floating-point rounding, rates that are not positive, negative or undefined Retry-After values and demands.
- TokenBucket.FetchOne: one call alone, header parsing and the random back-off as parameters; interleaved calls are `FetchPool`.
- FetchPool.Act: the host's limiter and the request after it are one act, since nothing comes between them but the thread's own scheduling.
- Chunker.ParseSections: takes the lines; `Markdown.SplitLines` cuts the text.
- QaDoc.ComposeDoc: HTML conversion and unescaping are parameters.
- QaDoc.ExportSft: the two record layouts and the output file.
- Embedding.Archive.Run: request retries inside one batch, vector dimensions, 32-bit rounding, a process death during a save, and replies whose number of vectors differs from the number of texts.
- Stream.Producer.Publish: JSON encoding, the per-source counter, trimming; hashes are given.
- Timestamp.Time: the calendar; years beyond 9999 do not occur.
- Timestamp.Parse: zones other than Z, fractions of more than nine digits, and the ranges of the fields, which the source checks.
- Quality gates, dashboard, monitoring, SQL queries, vector import, backup, replay and back-fill scripts, configuration: input, output and plumbing around the core. A replay appears as the step that adds an entry.
