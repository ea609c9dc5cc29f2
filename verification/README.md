# Wyrd: a verified model of the write buffer and its neighbours

The centre is the two-stage write buffer of `wyrd-queue`: a bounded channel feeds a staging ring; a
background task seals staging into batches under durable ids, ships them to a sink, keeps failed ones
for retry under the same id, splits oversize ones and counts what it must drop. Around it stand the
pieces that decide what a batch holds or who may send one: building a batch from JSON rows, calendar
and timestamp arithmetic, the schema mapping, version ranges as SQL intervals, permission sets,
delegation chains, the token cache, media placeholders in prompts, and the source stripper of the
unwrap audit.

What the program does step by step is written here step by step: classes, arrays and loops, each
proved equal to a function. What the program promises is then proved about the functions, over every
input and every run. `dafny verify dfyconfig.toml` checks the whole project.

## How the files fit together

| files | part |
|---|---|
| `SealPass`, `PassLaws`, `BatchIds`, `Delivery` | one seal-and-send pass as a function; what every pass keeps; what batch ids mean over a run; that retrying gets there |
| `RecordQueue`, `Producer` | the queue, the channel, the handle and the task as classes, proved equal to those functions |
| `ProducerMachine`, `TaskTurns`, `ProducerLaws`, `ProducerRuns`, `ProducerEndings`, `DrainEnds`, `ProducerMetrics`, `ProducerDelivery` | any number of concurrent calls, control messages and the task as one machine of atomic steps, which with nobody else moving does what the classes do; what every run keeps, how it ends, what a drain leaves, what is reported, and that flushing goes through |
| `BatchBuild` | rows in, columns out; which cell a value becomes; why "this chunk builds" is a property of its rows one by one |
| `Civil`, `Text`, `Timestamps`, `TimestampGrammar` | days, dates, RFC 3339; exactly which texts are read, and as what |
| `ArrowTypes`, `JsonSchema`, `JsonInline`, `JsonRender`, `JsonExact`, `JsonCycles`, `JsonTable` | column types there and back; `$ref` resolution against inlining, and exactly when they agree; the mapper read backwards; exactly when it ends, and what it then answers |
| `Ranges`, `RangeLaws`, `RangeBounds`, `RangeMatching` | the range normaliser, its bounds, exactly which texts have them, and requirement matching |
| `Permissions`, `Delegation`, `TenantMarkers`, `TokenVerify`, `TokenClaims`, `TokenOverlap` | who may do what |
| `MediaText`, `MediaPrompt`, `MediaLaws`, `MediaContent`, `MediaBinding`, `MediaSubstitution`, `MediaEdit` | media placeholders |
| `SourceAudit`, `SourcePieces`, `SourceEdges`, `SourceLines` | the audit script, the grammar it blanks by, where that departs from Rust, and how it numbers lines |
| `Wrappers` | `Option` and `Result` |

In the queue the sink is an oracle: its n-th answer is accepted, rejected or timed out, and a failed
batch may have been stored all the same. Whether a row fits the schema and how long a batch is when
encoded are functions of the rows; `BatchBuild` shows that the first is what the builder does. Batch
ids are drawn from a counter, so fresh means unused. A row occurrence is its position in acceptance
order.

## What came out differently from what the code says of itself

- `DRAINED` is described as "the buffer is empty" (`crates/wyrd-queue/src/producer.rs:38`). A sink that
  rejects a batch in the last drain leaves it waiting for retry (`RetryCanBeLeft`); whether anything will
  be left is settled when the drain starts (`ShutdownLeaves`), and a drain with an error may leave
  nothing. And a row can land behind the drain (`RowCanBeStranded`): from a draining state, exactly when
  a call that read `RUNNING` is still in flight or has landed since (`StrandingCondition`).
- `channel_depth` is added to after the row is on the channel, so it can be one below zero and read
  as 2^64 - 1 (`DepthCanWrap`). `metrics` loads it and then the staging length, so a row on its way
  from one to the other can be counted twice (`RowCanBeCountedTwice`); `RunMetrics` says exactly when
  the sum is right.
- The timer seals only when staging holds something, so chunks waiting for retry alone wait for the
  next row, flush or shutdown (`OnTick`).
- A bare zero major, `"0"`, is stored as `^0`. Its bounds are `[0.0.0, 0.0.1)`, while the requirement
  matches every `0.x.y`, and before normalising the bounds were `[0.0.0, 1.0.0)`. This is the only
  family of inputs for which normalising changes bounds and for which bounds and matching disagree.
- The date and timestamp parsers take days that do not exist; they count on into the next month
  (`LateDaySpills`, `PlainDateParses`). The timestamp parser checks neither month nor day; from month
  15 on the instant is wrong even with months carried over (`OffCalendarStamps`).
- The timestamp parser says it reads `YYYY-MM-DDThh:mm:ss[.frac][Z|+-hh:mm]`. It also takes fields of any
  length with signs in front, an offset of hours alone, and no zone, which it reads as UTC
  (`StampsExactly`).
- The check on a cached token uses full precision, the library's check whole seconds; for part of one
  second a token is refused from the cache that a fresh verification would accept (`CacheAgrees`,
  `CacheCanDisagree`).
- `Resource::AnyOf` does not cover itself (`CoversItself`).
- The issuer checks the kind of a subject's card but not whether its scope contains it, so it can
  issue a token the verifier refuses (`IssuedSubjectVerifies`, `IssuedThenRefused`).
- `is_optional` and the null-type check look at the node itself, not behind a reference, so inlining can
  change a type or a nullability; `InliningIsExact` says for which definitions.
- The schema mapper takes arrays and nested objects; the batch builder supports no such column, so no
  row of such a schema is ever sent (`OnlyFlatColumnsBuild`). Nor is one with a `LargeUtf8` column, which
  is built as `Utf8` (`LongTextNeverBuilds`).
- `map_type` has no guard against references that go round: it fails to end exactly when it follows
  them back to a definition (`EndsUnlessRevisiting`, `SelfRefNeverEnds`).
- `verify` calls for one token share a computation, and the tenant is checked only inside it: an
  overlapping call is answered for the tenant the computation was begun for (`WrongTenantExactly`).
- `MediaPlaceholderNotIsolated` can arise after all, for a name that is no proper placeholder name.
- In the audit script, raw and sanitised lines agree exactly when no comment or literal holds a break other
  than the newline (`PiecesAlign`). Findings are numbered by `splitlines` and exempt ranges by counting
  newlines, and the two agree exactly where no other break stands before, in code either
  (`NumbersAgree`, `FormFeedMisnumbers`). A block comment ends at its first `*/`, where Rust would nest
  (`CommentEndsAsNested`), and a character literal with a longer escape, `'\x41'`, stays as code
  (`OnlyShortEscapesBlank`). After an out-of-line test module the next block is exempted, whatever it is
  (`SpanIsOwnBody`, `OutOfLineExempts`).

## Model

| member | source | states |
|---|---|---|
| `SealPass.StepLowersWork` | crates/wyrd-queue/src/queue.rs:204-269 | Every split, acknowledged send and drop of the pass loop strictly lowers the sum of 2*len-1 over the pending chunks; a failed send leaves the pending chunks exactly as they were. |
| `SealPass.SendAll` | crates/wyrd-queue/src/queue.rs:204-270 | The pass loop terminates for every row size and every sink; without an error nothing is left pending. |
| `PassLaws.SealKeepsRows` | crates/wyrd-queue/src/queue.rs:187-196 | Sealing loses, repeats and reorders no row, fills every chunk but the last, and numbers the chunks with consecutive fresh ids. |
| `PassLaws.StartCutsStaging` | crates/wyrd-queue/src/queue.rs:187-196 | A pass cuts staging into chunks of at most max(1, flush_max_rows) rows, all but the last full, behind the retries. |
| `PassLaws.StepKeepsInv` | crates/wyrd-queue/src/queue.rs:204-269 | One iteration keeps the loop invariant: pending ids distinct and minted, acknowledged ids never reused, a failed send waiting at the front, drops only of bad chunks. |
| `PassLaws.StepKeepsRows` | crates/wyrd-queue/src/queue.rs:204-269 | One iteration moves rows from pending to settled without changing the whole sequence; a send starts exactly where the settled rows end. |
| `PassLaws.StepShowsInHistory` | crates/wyrd-queue/src/queue.rs:204-269 | One iteration is told from the event it adds. None: a chunk over the limit was halved, the first and no larger half under its old id, the second under the next, both still in front. A drop: the chunk is gone, the others as they were. A send, with the answer of that attempt: gone and in the outcome if accepted, still in front if not. |
| `PassLaws.StepExplains` | crates/wyrd-queue/src/queue.rs:204-269 | The error of one iteration is told from the event it adds, in the same four ways. |
| `PassLaws.SendAllKeepsInv` | crates/wyrd-queue/src/queue.rs:204-270 | The invariant holds after any number of iterations, and the history only grows. |
| `PassLaws.SendAllKeepsRows` | crates/wyrd-queue/src/queue.rs:204-270 | Settled rows followed by pending rows are the same sequence before and after the whole loop. |
| `PassLaws.SealAndSendKeeps` | crates/wyrd-queue/src/queue.rs:166-271 | A pass keeps the queue invariant and the intake (settled, then retry, then staging, in acceptance order), and leaves staging empty on every return path. |
| `PassLaws.SealAndSendReports` | crates/wyrd-queue/src/queue.rs:198-270 | Success means nothing is pending, everything taken in is settled, nothing was dropped in this pass, and the outcome names exactly the batches acknowledged in it. A failure adds an event and is told from the last one: a sink failure exactly if a send was rejected, a timeout exactly if it timed out, a build failure exactly if a chunk was dropped that holds a row that does not fit, too large exactly if a single buildable row over the limit was dropped. |
| `PassLaws.IngestKeeps` | crates/wyrd-queue/src/queue.rs:134-146 | `ingest` always lands the row at the end of staging; it seals only when the ring is full, and the row is then alone in staging; its own drop branch is never taken. |
| `PassLaws.DrainToCompletionKeeps` | crates/wyrd-queue/src/producer.rs:314-321 | Draining without error settles everything taken in; with an error the retry deque holds exactly the rows neither acknowledged nor counted as dropped, in order. |
| `BatchIds.BatchIdStable` | crates/wyrd-queue/src/queue.rs:180-268 | Batch-id stability: of any two sends in a history, either both are attempts at one batch with equal rows and only failed attempts between, or their ids differ and the later one carries only later rows, although splits keep the id on the left half. |
| `BatchIds.OneIdPerRow` | crates/wyrd-queue/src/sink.rs:23-25 | A row occurrence is carried under at most one batch id for the whole run. |
| `BatchIds.NothingOvertakes` | crates/wyrd-queue/src/queue.rs:180-196 | Head-of-line blocking: what a send carries is the intake right after the rows acknowledged or dropped before it. |
| `BatchIds.DedupStoresOnce` | crates/wyrd-queue/src/sink.rs:45-54 | A store that deduplicates by batch id holds exactly the acknowledged rows, each once and in order, plus at most the one batch whose last attempt failed after being stored. |
| `BatchIds.SettledSplits` | crates/wyrd-queue/src/queue.rs:207-231 | Every settled row is either acknowledged or counted by a drop path, never both. |
| `BatchIds.NothingLostMeansAllAcked` | crates/wyrd-queue/src/queue.rs:207-231 | With a zero loss count the settled rows are the acknowledged rows, in order. |
| `BatchIds.SentIsSendable` | crates/wyrd-queue/src/queue.rs:178-238 | Every batch sent is non-empty, has at most min(max(1, flush_max_rows), max(1, staging_capacity)) rows, builds, and is within `max_message_bytes`. |
| `BatchIds.PoisonWasNeverSplit` | crates/wyrd-queue/src/queue.rs:205-219 | A chunk dropped as unbuildable is one the pass started with; no half of a chunk that built is ever poison. |
| `Delivery.FailingPassCosts` | crates/wyrd-queue/src/queue.rs:252-267 | A pass that fails has used up one of the failures the sink has left or has lowered the work. |
| `Delivery.RetryingDelivers` | crates/wyrd-queue/src/queue.rs:166-171 | If the sink stops failing at some point, a bounded number of passes reaches one that succeeds, and every row taken in is then acknowledged or counted as dropped. |
| `Delivery.GoodRowsArrive` | crates/wyrd-queue/src/sink.rs:45-54 | If moreover each row fits the schema and alone fits the size limit, all rows end up acknowledged in acceptance order and a deduplicating store holds each exactly once, whatever failed or was stored half-way. |
| `RecordQueues.RecordQueue.Push` | crates/wyrd-queue/src/queue.rs:110-112 | Lands the row exactly when the ring has room, and changes nothing otherwise. |
| `RecordQueues.RecordQueue.Drain` | crates/wyrd-queue/src/queue.rs:148-154 | Empties staging and returns its rows oldest first. |
| `RecordQueues.RecordQueue.SealChunks` | crates/wyrd-queue/src/queue.rs:187-196 | The splitting loop produces the sealed chunks behind the retries, with the ids of the specification. |
| `RecordQueues.RecordQueue.Attempt` | crates/wyrd-queue/src/queue.rs:204-269 | One iteration on the mutable state is one step of the specification; the drop counter moves by exactly the rows dropped. |
| `RecordQueues.RecordQueue.SendPending` | crates/wyrd-queue/src/queue.rs:202-270 | The loop over the mutable state ends in the chunks, ids, history and result of the specification. |
| `RecordQueues.RecordQueue.SealAndSend` | crates/wyrd-queue/src/queue.rs:177-271 | The whole new state and the result are those of the specified pass; `dropped` moves by exactly the rows lost, `accepted` not at all. |
| `RecordQueues.RecordQueue.Ingest` | crates/wyrd-queue/src/queue.rs:138-146 | Buffers as specified; the branch that would count a drop is proved dead. |
| `ProducerLaws.RunKeeps` | crates/wyrd-queue/src/producer.rs:153-321 | The invariant of the interleaving machine holds in every state of every run: queue invariant, conservation, counters, life cycle against task position, replies. |
| `TaskTurns.RunLeavesNoBatch` | crates/wyrd-queue/src/producer.rs:280-300 | In every run, whenever the task waits for its next event fewer rows are staged than max(1, flush_max_rows), and the timer leaves none staged. |
| `TaskTurns.RunLeavesNoRequest` | crates/wyrd-queue/src/producer.rs:253-303 | In every run, once the task has stopped no request is left waiting and none is taken any more. |
| `TaskTurns.RowTurns` | crates/wyrd-queue/src/producer.rs:280-289 | With nobody else moving, the four turns of the row arm end in the queue of `Task.OnRow`, one row and one unit of depth less, and what the pass dropped counted. |
| `TaskTurns.TickTurn` | crates/wyrd-queue/src/producer.rs:296-300 | The turn of the timer arm ends in the queue of `Task.OnTick`. |
| `TaskTurns.DrainTurns` | crates/wyrd-queue/src/producer.rs:307-312 | Three turns a row and one to see the channel empty are `Task.DrainChannel`. |
| `TaskTurns.FlushTurns` | crates/wyrd-queue/src/producer.rs:259-263 | Taking a flush request and the turns that follow end in the queue, channel, depth and reply of `Task.OnFlush`. |
| `TaskTurns.ShutdownTurns` | crates/wyrd-queue/src/producer.rs:264-271 | Taking a shutdown request and the turns that follow end in the queue, channel, depth, state and reply of `Task.OnShutdown`, out of the loop. |
| `TaskTurns.CloseTurns` | crates/wyrd-queue/src/producer.rs:272-276 | Once the control channel is closed the channel and the queue are drained alike, with no state stored and no reply. |
| `TaskTurns.LastRowTurns` | crates/wyrd-queue/src/producer.rs:289-293 | Once the row channel is closed and empty the queue is drained, and the loop left. |
| `TaskTurns.AcceptedAlone` | crates/wyrd-queue/src/producer.rs:153-173 | The steps of a call that finds room: the row last on the channel, `accepted` and the depth one up. |
| `TaskTurns.RefusedAlone` | crates/wyrd-queue/src/producer.rs:168-186 | The steps of a call that meets a full channel: exactly three offers, then the drop counter. |
| `TaskTurns.TurnedAway` | crates/wyrd-queue/src/producer.rs:159-186 | The steps of a call that finds the state not running, or the channel closed: the drop counter only. |
| `ProducerRuns.RunConservesRows` | crates/wyrd-queue/src/producer.rs:153-312 | In every state of every run the accepted rows are, in order: acknowledged or dropped, waiting for retry, staged, in the task's hand, on the channel. |
| `ProducerRuns.RunAccountsForEveryRow` | crates/wyrd-queue/src/producer.rs:159-185 | Whenever no call is part-way, `accepted` is buffered plus acknowledged plus lost rows, and `dropped` is refused calls plus lost rows. |
| `ProducerRuns.RunDropsOnlyBadChunks` | crates/wyrd-queue/src/queue.rs:205-231 | After acceptance a row is dropped only with a chunk that does not build or as a single oversize row. |
| `ProducerRuns.RunSendsInOrder` | crates/wyrd-queue/src/queue.rs:182-196 | Over a run, each batch carries exactly the accepted rows following those settled before it was sent. |
| `ProducerRuns.RunKeepsBatchIds` | crates/wyrd-queue/src/sink.rs:23-25 | Batch-id stability for any two sends of any run. |
| `ProducerRuns.RunStoresOnce` | crates/wyrd-queue/src/sink.rs:49-51 | Exactly-once storage for every run, whatever the sink answers and stores. |
| `ProducerRuns.RunSendsWithinBounds` | crates/wyrd-queue/src/queue.rs:221-238 | Size bounds for every batch of every run. |
| `ProducerRuns.RunIngestLands` | crates/wyrd-queue/src/queue.rs:138-146 | In no run does `ingest` reach its drop branch. |
| `ProducerRuns.RunRepliesCover` | crates/wyrd-queue/src/producer.rs:188-221 | A flush or shutdown answered with success covers every row accepted before it was asked for: each is settled, and stays so for the rest of the run. |
| `ProducerRuns.RunFlushEmpties` | crates/wyrd-queue/src/producer.rs:259-263 | A successful flush step leaves nothing pending, has settled all that was accepted when it saw the channel empty, and drops nothing; a failed one is explained by the last event. |
| `ProducerRuns.RunStops` | crates/wyrd-queue/src/producer.rs:264-276 | After the task has stopped, the drained prefix is settled or in the retry deque, exactly, and what landed behind the drain is on the channel, exactly; error or not, every accepted row is settled if and only if the retry deque is empty and nothing landed behind. |
| `ProducerEndings.StrandingCondition` | crates/wyrd-queue/src/producer.rs:159-173 | From any state in which a shutdown is draining, some continuation leaves an accepted row behind if and only if a call that read RUNNING is still in flight, or one has landed since the channel was seen empty. |
| `ProducerEndings.SealedStays` | crates/wyrd-queue/src/producer.rs:264-276 | Once the life cycle has left Running with no such call in flight and nothing behind the drain, no move of anyone changes that. |
| `DrainEnds.LoopEnds` | crates/wyrd-queue/src/queue.rs:204-270 | How a pass ends, told from before it, in terms of the batches its chunks come to by halving and the answers the sink is going to give: no error if and only if every one goes out and is accepted; nothing pending if and only if each that goes out is accepted at its turn and one that does not go out is the last. |
| `DrainEnds.DrainIsClean` | crates/wyrd-queue/src/producer.rs:314-321 | The same for a drain to completion of any queue: when it will report no error, and, which is not the same, when it will leave nothing waiting for retry. |
| `DrainEnds.ShutdownLeaves` | crates/wyrd-queue/src/producer.rs:264-276 | Whatever anyone does between the moment a shutdown starts to drain its queue and the end of the task, the buffer is empty at the end, and the error reported is none, exactly under these conditions on the queue at that moment. |
| `DrainEnds.RetryCanBeLeft` | crates/wyrd-queue/src/producer.rs:264-271 | A run that ends drained with a chunk in the retry deque: one row, rejected by the sink in the shutdown's drain. |
| `ProducerRuns.RunAdvancesLife` | crates/wyrd-queue/src/producer.rs:33-39 | The state only moves Running, Draining, Drained, never skipping or going back. |
| `ProducerRuns.RowCanBeStranded` | crates/wyrd-queue/src/producer.rs:159-173 | A run in which a call that read RUNNING lands its row after a successful shutdown drain: accepted, never delivered, not counted. |
| `ProducerMetrics.DepthCell` | crates/wyrd-queue/src/producer.rs:168-173 | In every state of every run the depth cell is the channel length less the rows landed and not yet added, plus the row popped and not yet subtracted. |
| `ProducerMetrics.RunMetrics` | crates/wyrd-queue/src/producer.rs:225-231 | For the two loads of `metrics` in any two states of a run: what the sum is, and that it is the number of rows in flight at the second load if and only if as many rows were taken off the channel in between as landed in between or were not yet added, modulo 2^64. |
| `ProducerMetrics.QuietMetrics` | crates/wyrd-queue/src/producer.rs:225-231 | So it is exact when no call and no pop is part-way at the first load and no row lands or is taken off between the two. |
| `ProducerMetrics.RowCanBeCountedTwice` | crates/wyrd-queue/src/producer.rs:225-231 | A run in which one row is in flight at both loads, nothing is part-way, and the report is 2. |
| `ProducerMetrics.DepthCanWrap` | crates/wyrd-queue/src/producer.rs:168-173 | A run in which the depth cell reads 2^64-1 between a landing and its addition. |
| `ProducerDelivery.RunPays` | crates/wyrd-queue/src/producer.rs:188-221 | Over any stretch of any run with a sink that recovers, failed flush and shutdown replies are paid for by the budget at its start and two for each row that lands. |
| `ProducerDelivery.RunFailuresAreBounded` | crates/wyrd-queue/src/producer.rs:188-221 | Over a whole run, at most one reply fails for each failure the sink had left and two for each row accepted, however calls, requests and turns interleave. |
| `ProducerDelivery.FlushingGoesThrough` | crates/wyrd-queue/src/producer.rs:188-203 | Once more replies than that have been given, one reports success, and with it every row accepted before it was asked for is settled. |
| `Producers.OfferOutcome` | crates/wyrd-queue/src/producer.rs:168-183 | Up to three offers: acceptance puts the row last within capacity and disturbs no other; refusal by an open channel means every offer met a full one. |
| `Producers.Producer.Enqueue` | crates/wyrd-queue/src/producer.rs:153-186 | Every call moves exactly one of `accepted` (with the depth) and `dropped`, by one, and puts the row on the channel exactly when it says so. |
| `Producers.IngestAllKeeps` | crates/wyrd-queue/src/producer.rs:307-312 | Draining the channel lands every row behind what the queue holds, in order. |
| `Producers.FlushSettlesAll` | crates/wyrd-queue/src/producer.rs:259-263 | A flush that reports success has settled the whole intake and the whole channel, in order. |
| `Producers.ShutdownKeepsAll` | crates/wyrd-queue/src/producer.rs:264-271 | A shutdown leaves every row settled or in the retry deque, in the deque only if a pass failed. |
| `Producers.Task.DrainChannel` | crates/wyrd-queue/src/producer.rs:307-312 | The drain loop is the ingestion of the whole channel, one depth decrement a row. |
| `Producers.Task.DrainToCompletion` | crates/wyrd-queue/src/producer.rs:316-321 | The pass-after-pass loop ends as specified, for every sink. |
| `Producers.Task.OnRow` | crates/wyrd-queue/src/producer.rs:280-289 | Ingests, then seals if staging reached the batch size. |
| `Producers.Task.OnTick` | crates/wyrd-queue/src/producer.rs:296-300 | Seals only if staging holds something; retries alone do not trigger it. |
| `Producers.Task.OnFlush` | crates/wyrd-queue/src/producer.rs:259-263 | Channel empty afterwards; queue and answer are those `FlushSettlesAll` speaks of. |
| `Producers.Task.OnShutdown` | crates/wyrd-queue/src/producer.rs:264-271 | Channel empty, state Drained; queue and answer are those `ShutdownKeepsAll` speaks of. |
| `BatchBuild.Collect` | crates/wyrd-queue/src/batch_builder.rs:170-199 | A column builds exactly when every row's cell fits, and holds those cells in row order. |
| `BatchBuild.CellTable` | crates/wyrd-queue/src/batch_builder.rs:170-271 | Which cell a row gives under a field, for every column type, value and cell: the ranges of the eight integer types, truth values, numbers, texts, the day the date parser and the microsecond the timestamp parser read, null exactly where a nullable supported column has no value. |
| `BatchBuild.WireTypesHold` | crates/wyrd-queue/src/schema.rs:268-313 | The Arrow type of a wire type takes exactly the values the wire type is named after: the integer types their ranges, the day and microsecond types the texts the parsers read. |
| `BatchBuild.RowIsRead` | crates/wyrd-queue/src/batch_builder.rs:80-106 | A row is refused for a reserved column exactly when it is an object with the key `card_ref`, `run_id` or one that begins with `wyrd_`, and for its text exactly when it is no object. |
| `BatchBuild.BatchBuilder.AppendJsonRow` | crates/wyrd-queue/src/batch_builder.rs:80-106 | Keeps a JSON object without reserved keys, with its correlation; refuses anything else and changes nothing. |
| `BatchBuild.BatchBuilder.Finish` | crates/wyrd-queue/src/batch_builder.rs:116-132 | A batch exists exactly when every column type is supported, every array is of its field's type and every cell fits; its columns are the cells, its correlation columns the rows' own. |
| `BatchBuild.BuildFrames` | crates/wyrd-queue/src/queue.rs:156-164 | Column-by-column building of a non-empty chunk succeeds if and only if each row builds by itself, and gives the row-by-row batch; otherwise the error is that of the first row refused, or a schema error. |
| `BatchBuild.SplittingSlicesBatch` | crates/wyrd-queue/src/queue.rs:232-236 | Splitting a chunk splits its batch: the halves' columns concatenate to the whole's, cell for cell. |
| `BatchBuild.HalvesBuild` | crates/wyrd-queue/src/queue.rs:205-236 | With the builder for `buildable`, a chunk builds if and only if both its halves do. |
| `BatchBuild.OnlyFlatColumnsBuild` | crates/wyrd-queue/src/batch_builder.rs:201-271 | Of the types a JSON Schema can name the builder supports exactly the flat ones; with an array or object column no row builds. |
| `BatchBuild.LongTextNeverBuilds` | crates/wyrd-queue/src/batch_builder.rs:249-253 | Arrays are of their fields' types exactly if no column is long text, whose array is built as short text; with such a column no row builds. |
| `Civil.EraIsFloor` | crates/wyrd-queue/src/batch_builder.rs:276 | Subtracting 399 before a truncating division by 400 is the floor, on negative years too. |
| `Civil.DaysFromCivilCounts` | crates/wyrd-queue/src/batch_builder.rs:273-282 | `days_from_civil` is the signed day count from 1970-01-01 on the proleptic Gregorian calendar, for every year and every day number. |
| `Civil.NextDayIsPlusOne` | crates/wyrd-queue/src/batch_builder.rs:273-282 | The next calendar date maps to one more, across month, year and century ends and year 0. |
| `Civil.PrevDayIsMinusOne` | crates/wyrd-queue/src/batch_builder.rs:273-282 | The date before maps to one less. |
| `Civil.DaysOrderDates` | crates/wyrd-queue/src/batch_builder.rs:273-282 | Day numbers order valid dates exactly as the calendar does; no two dates share one. |
| `Civil.DaysInvertWalk` | crates/wyrd-queue/src/batch_builder.rs:273-282 | A bijection between valid dates and the integers, inverse to walking the calendar. |
| `Civil.GregorianCycle` | crates/wyrd-queue/src/batch_builder.rs:276-281 | 400 years add 146,097 days, across the change of sign. |
| `Civil.LateDaySpills` | crates/wyrd-queue/src/batch_builder.rs:291-294 | A day past the end of its month, which the parser lets through, counts on into the next month. |
| `Civil.MonthsCarryTo14` | crates/wyrd-queue/src/batch_builder.rs:273-282 | A month number outside 1-12 is carried into the neighbouring year if and only if it is at most 14; any later one counts too many days. |
| `Timestamps.FractionRoundsDown` | crates/wyrd-queue/src/batch_builder.rs:359-372 | A fraction of any length contributes floor(0.frac * 10^6) microseconds. |
| `Timestamps.ParseFractionMicros` | crates/wyrd-queue/src/batch_builder.rs:359-372 | The truncate-and-pad loop computes the function `FractionRoundsDown` speaks of, on every text. |
| `Timestamps.WrittenFormParses` | crates/wyrd-queue/src/batch_builder.rs:301-357 | Two-digit fields written with `T` or a space, and with `Z`, hours and minutes, hours only or no zone: the text parses exactly when hour, minute and second are in range, to the instant of its numbers; without a zone it is in UTC. |
| `TimestampGrammar.StampsExactly` | crates/wyrd-queue/src/batch_builder.rs:301-357 | Exactly which texts are timestamps: a text is read as a number of microseconds if and only if it is spelled from three date fields, a `T` or space, three time fields in range, a dot and digits or nothing, and `Z`, an offset of one or two fields or nothing, with that value; where signs may stand in fields is part of it. |
| `Timestamps.PrintedFormParses` | crates/wyrd-queue/src/batch_builder.rs:301-341 | Text of the form of section 5.6 of RFC 3339 parses whatever its date numbers are, to the instant computed from `days_from_civil` of them. |
| `Timestamps.PrintedStampParses` | crates/wyrd-queue/src/batch_builder.rs:301-341 | With a date on the calendar that is the UTC instant the text names, offsets, leap seconds and fractions of any length included. |
| `Timestamps.OffCalendarStamps` | crates/wyrd-queue/src/batch_builder.rs:304-309 | A date off the calendar still parses, to the instant with days and months carried over if and only if the month is at most 14, while the date parser refuses every month outside 1-12 and day outside 1-31. |
| `Timestamps.SpellingsAgree` | crates/wyrd-queue/src/batch_builder.rs:311-340 | Spellings of one instant under different offsets parse alike, across day, month and year ends. |
| `Timestamps.PrintedStampFits` | crates/wyrd-queue/src/batch_builder.rs:338-340 | The result fits `i64` for all years 0000-9999. |
| `Timestamps.PlainDateParses` | crates/wyrd-queue/src/batch_builder.rs:285-295 | `parse_date_days` on a printed date: exactly months 1-12 and days 1-31 are taken, existing or not, and give the day count. |
| `TimestampGrammar.DatesExactly` | crates/wyrd-queue/src/batch_builder.rs:285-295 | Exactly which texts are dates: three fields, behind which anything may follow a `T` or a space, month in 1-12, day in 1-31, and the day count in 32 bits. |
| `Timestamps.DateOfStamp` | crates/wyrd-queue/src/batch_builder.rs:285-295 | A date column given a whole timestamp takes its date, whatever follows the separator. |
| `Timestamps.LongYearParses` | crates/wyrd-queue/src/batch_builder.rs:285-295 | Years of many digits: the date is refused exactly when its day count is outside 32 bits. |
| `RangeLaws.NormalizingKeepsBounds` | crates/wyrd-semver/src/range.rs:162-239 | For every string, the normaliser refuses only what has no bounds, and keeps the bounds (or their absence) if and only if the input is not a bare zero major. |
| `RangeLaws.NormalizingSettles` | crates/wyrd-semver/src/range.rs:162-239 | A second normalisation always succeeds and keeps the bounds; a third changes nothing. |
| `RangeLaws.LoosePartialIsBarePartial` | crates/wyrd-semver/src/range.rs:86-114 | A stored range is recognised as a loose partial exactly when the trimmed input was a bare one- or two-segment number. |
| `RangeBounds.BoundsExact` | crates/wyrd-semver/src/range.rs:241-460 | For every string: the empty version exactly for no text or a lead alone; every version exactly for a star; bounds exactly for one to three numbers and then stars, none of them under a caret or tilde, three numbers under an equals sign, with the raised component below 2^64-1, an overflow exactly when only that fails, and not representable otherwise. The bounds then hold exactly the versions the expression stands for. |
| `RangeBounds.NormalizeExact` | crates/wyrd-semver/src/range.rs:162-239 | For every string: which error the normaliser gives, or which text it makes, by the lead, the number of parts, and whether a star, a hyphen or a plus occurs. |
| `RangeMatching.BoundsAgreeWithMatching` | crates/wyrd-semver/src/range.rs:66-139 | For every accepted input with bounds, a pre-release-free version matches the requirement iff its triple lies in the bounds, for all versions, if and only if the input is not a bare zero major. |
| `RangeMatching.ZeroDisagrees` | crates/wyrd-semver/src/range.rs:162-239 | At `"0"`: stored as `^0`, it matches 0.1.0, which its bounds leave out and the bounds of the input hold. |
| `RangeMatching.BoundedIsRequirement` | crates/wyrd-semver/src/range.rs:241-305 | A stored range with bounds is one of the modelled requirements as soon as no component has a leading zero, so the theorem above misses none. |
| `RangeMatching.LowerBoundIsInside` | crates/wyrd-semver/src/bounds.rs:47-69 | Every interval returned contains its own lower bound, and its upper bound is consistent with its inclusiveness. |
| `Permissions.CoversByContent` | crates/wyrd-runtime/src/permission.rs:97-105 | A term covers another exactly when a wildcard is somewhere in it or the other is one name found in it, however deep the choices. |
| `Permissions.CoversBoth` | crates/wyrd-runtime/src/permission.rs:164-167 | A permission covers another exactly when both its resource and its action do, by what they hold. |
| `Permissions.CoversTransitive` | crates/wyrd-runtime/src/permission.rs:164-167 | Covering is transitive over nested choices. |
| `Permissions.CoversItself` | crates/wyrd-runtime/src/permission.rs:97-105 | A term covers itself exactly when it is one name or holds a wildcard; a choice of names does not. |
| `Permissions.InsertAnswers` | crates/wyrd-runtime/src/permission.rs:441-449 | An insertion adds to what is answered exactly what the new permission covers. |
| `Permissions.InsertExactly` | crates/wyrd-runtime/src/permission.rs:441-449 | What an insertion leaves: everything, if the new permission is granted already; otherwise, in their order, exactly those it does not grant, and then itself. |
| `Permissions.SetAnswers` | crates/wyrd-runtime/src/permission.rs:473-480 | The set built from any list answers yes exactly when a listed permission has, for the resource and for the action alike, a wildcard somewhere or the one name asked for. |
| `Permissions.SetIsMinimal` | crates/wyrd-runtime/src/permission.rs:441-449 | No stored permission covers another. |
| `Permissions.OrderDoesNotMatter` | crates/wyrd-runtime/src/permission.rs:473-480 | Insertion order changes no answer. |
| `Permissions.PermissionSet.FromIter` | crates/wyrd-runtime/src/permission.rs:473-480 | The loop builds the set the laws above speak of. |
| `Permissions.PermissionSet.Insert` | crates/wyrd-runtime/src/permission.rs:441-449 | Retain-and-push on the vector is the specified insertion. |
| `Permissions.PermissionSet.Contains` | crates/wyrd-runtime/src/permission.rs:451-453 | The scan answers yes exactly when a stored permission grants both terms in that sense. |
| `Delegation.DelegationsFlatten` | crates/wyrd-auth-issue/src/lib.rs:300-329 | For every run of delegations, issuing succeeds iff subjects and lifetimes are good and the chain is within the depth limit; the verifier accepts the chain, lists exactly the earlier principals initiator-first, and the subject stays the initiator's; actor and roles are those of the last grant, `iat` its time and `exp` that plus its ttl. |
| `TokenClaims.IssueIsExact` | crates/wyrd-auth-issue/src/lib.rs:300-329 | One grant, whoever asks: the error of each refusal in order, and what the token says otherwise, its chain one layer longer by the holder. |
| `Delegation.FlattenActChain` | crates/wyrd-auth-verify/src/lib.rs:914-935 | The push-then-reverse loop computes the flattening, errors included. |
| `TokenClaims.FlattenIsExact` | crates/wyrd-auth-verify/src/lib.rs:914-935 | A chain is flattened exactly when it has at most five layers, each holding the card of its kind; then oldest first, layer by layer, each scoped to its own card; otherwise the error is that of a bad layer among the newest five, or the depth. |
| `Delegation.IssuedSubjectVerifies` | crates/wyrd-auth-verify/src/lib.rs:811-843 | Whatever the run of delegations, the verifier takes the principal of the token issued last if and only if that subject's card scope is absent or contains its card, which the issuer does not check. |
| `Delegation.IssuedThenRefused` | crates/wyrd-auth-issue/src/lib.rs:552-563 | A grant that is issued and whose token the verifier refuses. |
| `TokenVerify.IssuedTokenVerifies` | crates/wyrd-auth-verify/src/lib.rs:773-808 | The same end to end: while the stores answer, an issued delegated token converts to a verified one if and only if the last subject's scope fits. |
| `TenantMarkers.LayerReadsAsMeant` | crates/wyrd-auth-verify/src/lib.rs:885-912 | One layer, marked, read strictly and restored, is what was meant unless it carried the marker. |
| `TenantMarkers.ReplaceSystemOwnerTenantIds` | crates/wyrd-auth-verify/src/lib.rs:870-898 | Every layer of the chain is marked, in place, and nothing else changes. |
| `TenantMarkers.RestoreSystemOwnerTenantIds` | crates/wyrd-auth-verify/src/lib.rs:901-912 | Every marker in the chain becomes the system owner again, and nothing else changes. |
| `TenantMarkers.DecodeClaims` | crates/wyrd-auth-verify/src/lib.rs:850-865 | The detour over a marker refuses the same claims as reading the nil id as the system owner and everything else strictly, and gives the same claims if and only if none carried the marker beforehand. |
| `TokenVerify.CacheAgrees` | crates/wyrd-auth-verify/src/lib.rs:380-481 | In every run of verify, invalidate, invalidate_principal, eviction and clock moves: the cached verifier accepts if and only if a fresh one does and the cache is not answering for the token after its own expiry check has fired; identity, chain and times are the same; a token only the fresh one accepts is in the part-second between the two expiry checks. |
| `TokenVerify.AcceptedIsSafe` | crates/wyrd-auth-verify/src/lib.rs:380-481 | For calls that do not overlap, an accepted token is of the expected tenant, within expiry plus skew, not issued before any epoch the store answers for its tenant, its principal and the kind in its claims, with permissions resolved now or less than `cache_ttl` ago. |
| `TokenClaims.AcceptedSays` | crates/wyrd-auth-verify/src/lib.rs:773-808 | In every run, and fresh or cached: an accepted token says what its claims say - the id, tenant and roles of the current actor, its kind with card and scope (its own card if none is given), the times, and the chain layer by layer, oldest first. |
| `TokenClaims.DelegatedSays` | crates/wyrd-auth-verify/src/lib.rs:773-808 | So an accepted delegated token acts for the last subject with the roles granted last; its chain names the direct holder and then each earlier subject. |
| `TokenClaims.FreshIsExact` | crates/wyrd-auth-verify/src/lib.rs:380-481 | Exactly which tokens a fresh verification accepts. |
| `TokenClaims.FreshErrors` | crates/wyrd-auth-verify/src/lib.rs:380-481 | And the error of every other, in the order the checks are made. |
| `TokenClaims.CachedErrors` | crates/wyrd-auth-verify/src/lib.rs:391-426 | In every run: a token the cache answers for is refused for its tenant, its expiry to the millisecond or its revocation, in that order; one it does not answer for is verified afresh. |
| `TokenClaims.CacheAfter` | crates/wyrd-auth-verify/src/lib.rs:391-481 | One verification touches the cache at its own token only: what it accepts is remembered, from now unless the cache answered, and for what it refuses the cache does not answer any more. |
| `TokenClaims.PrincipalIsForgotten` | crates/wyrd-auth-verify/src/lib.rs:493-502 | In every run: after `invalidate_principal` a token is cached exactly if it was and its claims name another actor. |
| `TokenVerify.CacheCanDisagree` | crates/wyrd-auth-verify/src/lib.rs:396-399 | A run that disagrees: verify, wait half a second past expiry, verify again; refused from the cache, accepted fresh. |
| `TokenVerify.InvalidatedIsFresh` | crates/wyrd-auth-verify/src/lib.rs:485-489 | After `invalidate` the next verification of that token is a fresh one. |
| `TokenOverlap.WrongTenantExactly` | crates/wyrd-auth-verify/src/lib.rs:428-453 | Over every run of overlapping calls, an accepted token is of another tenant than its call expects if and only if it came out of a shared computation begun for another tenant. |
| `TokenOverlap.OverlappedSays` | crates/wyrd-auth-verify/src/lib.rs:428-453 | However calls overlap, what a call accepts says what the claims of its own token say. |
| `TokenOverlap.AloneIsVerify` | crates/wyrd-auth-verify/src/lib.rs:380-481 | A call nobody overlaps with does what `verify` does on its own: same answer, same cache. |
| `TokenOverlap.JoinedForAnotherTenant` | crates/wyrd-auth-verify/src/lib.rs:428-453 | A run in which a call joins a computation begun for another tenant and is handed that tenant's token. |
| `TokenOverlap.JoinedAndRefused` | crates/wyrd-auth-verify/src/lib.rs:428-453 | A run in which a call joins one and is refused, although a fresh verification accepts. |
| `TokenVerify.HitAgrees` | crates/wyrd-auth-verify/src/lib.rs:391-426 | A live cache entry against a fresh verification, case by case. |
| `TokenVerify.ExpiryChecks` | crates/wyrd-auth-verify/src/lib.rs:628-641 | The cached check is never laxer than the library's, and stricter exactly in one part-second. |
| `TokenVerify.RunKeepsCacheOk` | crates/wyrd-auth-verify/src/lib.rs:428-453 | In every run each cached token is what decoding it gave when it was entered. |
| `TokenVerify.TokenVerifier.VerifyToken` | crates/wyrd-auth-verify/src/lib.rs:380-481 | Result and new cache are those of the specification the laws above speak of. |
| `TokenVerify.TokenVerifier.InvalidatePrincipal` | crates/wyrd-auth-verify/src/lib.rs:493-502 | Removes every cached token of the principal and no other. |
| `MediaText.SplitRoundTrips` | crates/skald-spec/src/prompt.rs:113-133 | Joined again the segments are the text; no text segment is empty or holds a media placeholder. |
| `MediaContent.PlaceholderByContent` | crates/skald-spec/src/prompt.rs:103-112 | A text has a placeholder exactly when a letter or underscore and then letters, digits and underscores stand in it between the marks. |
| `MediaText.CleanSplitsToItself` | crates/skald-spec/src/prompt.rs:113-133 | A segment split again is itself. |
| `MediaText.SplitTextOnMedia` | crates/skald-spec/src/prompt.rs:114-133 | The capture loop computes that split on every text. |
| `MediaLaws.SplittingKeepsText` | crates/skald-spec/src/prompt.rs:446-656 | Splitting the parts of a request moves no character and no other part. |
| `MediaLaws.SplittingKeepsNames` | crates/skald-spec/src/prompt.rs:446-656 | Splitting keeps the placeholder names, in order. |
| `MediaLaws.SplitRequestLaws` | crates/skald-spec/src/prompt.rs:446-463 | Splitting makes every request normal, leaves a normal one alone, and keeps names and system text. |
| `MediaLaws.NormalizingIsIdempotent` | crates/skald-spec/src/prompt.rs:183-192 | A second normalisation changes neither request, nor declared names, nor verdict. |
| `MediaContent.NormalizeExactly` | crates/skald-spec/src/prompt.rs:183-192 | Normalising is refused, and changes nothing, exactly when a placeholder stands in a text given to the system; otherwise each name split off or declared before is declared once, in the order of first occurrence, those split off first. |
| `MediaBinding.BindingIsIsolated` | crates/skald-spec/src/prompt.rs:231-262 | After its own normalisation, binding a name whose token reads as a placeholder never reports `MediaPlaceholderNotIsolated`. |
| `MediaBinding.NotIsolatedOnlyForBadNames` | crates/skald-spec/src/prompt.rs:664-787 | That error can arise from some prompt exactly for names whose token does not read as a placeholder, which no proper name is. |
| `MediaBinding.BindStrikes` | crates/skald-spec/src/prompt.rs:231-262 | A successful binding strikes exactly that name and keeps every name left in the request declared. |
| `MediaBinding.AllBoundMeansNoneMissing` | crates/skald-spec/src/prompt.rs:268-281 | After any successful bindings `render` misses no media name if and only if every name declared or present has been bound. |
| `MediaSubstitution.SplittingKeepsSubst` | crates/skald-spec/src/prompt.rs:446-656 | What a substitution gives does not depend on whether the parts have been split first. |
| `MediaSubstitution.BindingSubstitutes` | crates/skald-spec/src/prompt.rs:231-262 | Binding a proper name succeeds exactly when system text holds no media and the name stands in the request; then every placeholder of that name in the request as it was has become the media, and all other text and parts are in place. |
| `MediaContent.SplittingKeepsNotes` | crates/skald-spec/src/prompt.rs:552-625 | What is split off a text part keeps its annotations, unless it is a placeholder and the request kind drops them there. |
| `MediaContent.BuilderRefuses` | crates/skald-spec/src/prompt.rs:231-262 | When the media builder refuses: the prompt ends normalised with nothing replaced and no name struck, and the builder's error is reported exactly when the name stands in the request and system text holds no media. |
| `MediaEdit.DedupePreserveOrder` | crates/skald-spec/src/prompt.rs:354-363 | The loop keeps first occurrences in order. |
| `MediaEdit.SplitPartList` | crates/skald-spec/src/prompt.rs:474-503 | The splitting loop over one part list, with the names it collects. |
| `MediaEdit.BindPartList` | crates/skald-spec/src/prompt.rs:664-694 | The binding loop over one part list, stopping at the first failure with what was done before it. |
| `MediaEdit.EditablePrompt.NormalizeMediaPlaceholders` | crates/skald-spec/src/prompt.rs:186-192 | In-place normalisation has the specified state and verdict, on errors too. |
| `MediaEdit.EditablePrompt.BindMediaMut` | crates/skald-spec/src/prompt.rs:231-262 | In-place binding has the specified state and verdict; on an error the prompt keeps what was done before it. |
| `JsonInline.InliningKeepsTypes` | crates/wyrd-queue/src/schema.rs:115-189 | For acyclic `$defs` with no null-typed definition and no optional one that maps, and bare references, mapping equals mapping the fully inlined schema without `$defs`, nested nullability included, refusals alike. |
| `JsonInline.InliningKeepsFields` | crates/wyrd-queue/src/schema.rs:78-113 | The same for a whole object schema: names, types, nullability and order. |
| `JsonInline.OptionalInlined` | crates/wyrd-queue/src/schema.rs:182-189 | Under these conditions inlining changes no verdict of `is_optional` on a node that maps. |
| `JsonExact.InliningIsExact` | crates/wyrd-queue/src/schema.rs:78-189 | For acyclic `$defs` and bare references, inlining keeps every type and every field list if and only if no definition is null-typed and none that maps is an optional. |
| `JsonExact.NullBehindRef` | crates/wyrd-queue/src/schema.rs:124-132 | A schema that changes: `anyOf` of a null-typed definition and a string is refused; inlined it is text. |
| `JsonExact.OptionalBehindRef` | crates/wyrd-queue/src/schema.rs:91-101 | Another: a required property that refers to an optional definition is not nullable; inlined it is. |
| `JsonTable.NamedExactly` | crates/wyrd-queue/src/schema.rs:115-169 | Under any definitions the mapper answers with a type exactly when the node names it, in a reading that does not run: the node leads over references and first branches that are not null to a plain one, and that names text by an enumeration without a type, the leaf types by type and format, lists by items, structs field by field with name, nullability and order. |
| `JsonTable.RefusedExactly` | crates/wyrd-queue/src/schema.rs:115-183 | It answers with an error exactly when the node is refused: it leads to an unknown or wrongly prefixed reference, to branches that are all null, to an array without items or an object without a properties object, to an unknown or missing type without an enumeration, or to one with a refused part behind parts that name types. |
| `JsonTable.NamesOnce` | crates/wyrd-queue/src/schema.rs:115-169 | No node names two types. |
| `JsonTable.BareEnumIsText` | crates/wyrd-queue/src/schema.rs:132-136 | A node with an enumeration and no type, reference or branches is text, whatever else it holds. |
| `JsonRender.RenderedMapsBack` | crates/wyrd-queue/src/schema.rs:78-169 | Every type the mapper can name is named by the evident JSON Schema, nested and with nullability written either way: mapping undoes rendering. |
| `JsonRender.MappedIsJsonTyped` | crates/wyrd-queue/src/schema.rs:115-169 | Under any definitions, cyclic or not, the mapper returns no other type, at any depth. |
| `JsonCycles.EndsUnlessRevisiting` | crates/wyrd-queue/src/schema.rs:115-180 | Mapping a node ends if and only if no path of definitions followed, along the positions the mapper looks at, comes to one of them twice. |
| `JsonCycles.RankedEnds` | crates/wyrd-queue/src/schema.rs:115-180 | On acyclic definitions it ends, within as many nested references as the rank, in the type the inlining theorems speak of. |
| `JsonCycles.MoreHops` | crates/wyrd-queue/src/schema.rs:115-180 | A mapping that ends within some number of nested references gives the same answer for every larger one. |
| `JsonCycles.SelfRefNeverEnds` | crates/wyrd-queue/src/schema.rs:119-122 | A definition that is a reference to itself is never mapped. |
| `JsonCycles.SkippedRefEnds` | crates/wyrd-queue/src/schema.rs:124-132 | A choice of a string and a reference to itself is mapped at once, although no ranking makes it acyclic. |
| `JsonSchema.PushFields` | crates/wyrd-queue/src/schema.rs:78-113 | The field loop computes the mapping of the properties in order, stopping at the first failure, under any definitions. |
| `ArrowTypes.SpecRoundTrips` | crates/wyrd-queue/src/schema.rs:206-313 | Wire type to Arrow and back is the identity for every nesting of lists and structs. |
| `ArrowTypes.FieldsRoundTrip` | crates/wyrd-queue/src/schema.rs:38-64 | The same for field lists: names, types and nullability. |
| `ArrowTypes.ArrowRoundTrips` | crates/wyrd-queue/src/schema.rs:206-313 | Arrow to wire and back is the identity if and only if every type is an accepted one and every list element is nullable and named "item", at every depth. |
| `SourceAudit.StripIsAligned` | scripts/check_unwrap_audit.py:109-161 | Same length, same newlines, and characters changed only to spaces. |
| `SourceAudit.SanitisedLinesAlign` | scripts/check_unwrap_audit.py:208-224 | Raw and sanitised text have the same lines, start for start and end for end, if and only if every line break survives the stripping. |
| `SourceEdges.PiecesAlign` | scripts/check_unwrap_audit.py:109-115 | Read off the source: they do if and only if no comment or literal holds a line break other than the newline. |
| `SourceLines.LineNumbers` | scripts/check_unwrap_audit.py:190-226 | The number `splitlines` gives an offset is the newline count plus the breaks before it that are neither newlines nor go with one. |
| `SourceLines.NumbersAgree` | scripts/check_unwrap_audit.py:190-226 | So findings and exempt ranges are numbered alike at an offset if and only if there is no such break before it. |
| `SourceLines.FormFeedMisnumbers` | scripts/check_unwrap_audit.py:190-226 | A form feed in code: the lines agree and the numbers do not. |
| `SourceAudit.NewlinesAlign` | scripts/check_unwrap_audit.py:109-115 | So a sanitised line and column index the same raw character in every text whose only line break is the newline. |
| `SourceAudit.FormFeedMisaligns` | scripts/check_unwrap_audit.py:212-216 | A form feed in a comment does shift the lines. |
| `SourceAudit.StripStringsAndComments` | scripts/check_unwrap_audit.py:109-161 | The index-driven overwriting loop computes the stripped text. |
| `SourcePieces.PieceIsBlanked` | scripts/check_unwrap_audit.py:42-158 | A comment or literal of any form, wherever it stands, is blanked to its end and no further. |
| `SourcePieces.PiecesAreSanitised` | scripts/check_unwrap_audit.py:109-161 | On every text made of code, comments and literals that fit together, exactly the comments and literals turn into spaces, newlines kept. |
| `SourceEdges.CommentEndsAsNested` | scripts/check_unwrap_audit.py:130-137 | A block comment is ended where nesting comments end if and only if no comment opens inside it before its first closing mark. |
| `SourceEdges.NestedCommentShows` | scripts/check_unwrap_audit.py:130-137 | A nested comment whose end, with a brace, comes back as code. |
| `SourceEdges.OnlyShortEscapesBlank` | scripts/check_unwrap_audit.py:147-159 | A character literal with an escape is blanked, to its end, if and only if the escape is one character long. |
| `SourceEdges.LongEscapeShows` | scripts/check_unwrap_audit.py:147-159 | `'\x41'` comes back whole. |
| `SourceAudit.ReadStringLiteral` | scripts/check_unwrap_audit.py:42-81 | A literal found ends after its start and inside the text, so the stripper always advances. |
| `SourceAudit.SpansAreOrdered` | scripts/check_unwrap_audit.py:164-194 | The spans exempted lie in the text, in order, without overlap. |
| `SourceLines.SpanIsOwnBody` | scripts/check_unwrap_audit.py:170-188 | A span runs to the end of the first block after its attribute; that block is the body of the item the attribute is on if and only if no semicolon stands between. |
| `SourceLines.OutOfLineExempts` | scripts/check_unwrap_audit.py:173-175 | After an out-of-line test module the span runs over a block that is ordinary code. |
| `SourceAudit.RangesAreOrdered` | scripts/check_unwrap_audit.py:190-194 | The line ranges start no later than they end and share at most a boundary line. |
| `SourceAudit.CfgTestRanges` | scripts/check_unwrap_audit.py:164-194 | The search loop terminates, its cursor strictly growing, and returns exactly those ranges. |
| `SourceLines.AttributesExactly` | scripts/check_unwrap_audit.py:168-176 | From a cursor on: the search ends when no attribute is left; otherwise the first one is exempted, up to the next cursor, exactly when "mod " stands before the first brace behind it, and is stepped over if not. |
| `SourceAudit.BlockIsBalanced` | scripts/check_unwrap_audit.py:179-188 | A closed block ends right after the brace at which the depth is zero for the first time; otherwise no brace closes it. |

## Left out

- Scheduling, clocks and back-off: the machine's steps are taken in any order, the biased `select!` is
  one of the orders allowed, the clock of the token verifier moves forward by any amount.
- A seal pass is one step of the machine: of what it touches, other parties see only the drop counter,
  whose additions commute, and the staging length, which `RunMetrics` leaves open. The handle
  may be dropped in more states than the language would allow.
- `Producers.Producer.Enqueue`: one call at a time against a channel that the task empties as it
  pleases; how calls interleave at the level of single atomics is the subject of `ProducerMachine`.
- `Producers.Task.OnFlush`, `Producers.Task.OnShutdown`: no caller moves while they run; callers that do
  are in `ProducerMachine`, and `TaskTurns` says that without them the two are the same.
- 64-bit wrap-around of `accepted` and `dropped`: the fields hold totals, a load reads them modulo 2^64.
- A process crash: staging, retry deque and channel are memory only.
- `MockSink`: a test double; any behaviour it can show is one of the oracle's.
- The bytes of an Arrow IPC batch, JSON text and UTF-8: an encoded size and a parse function are
  parameters, and encoding a batch that has been assembled always succeeds.
- Rounding of a float cell to 32 or 64 bits: a cell holds the real number.
- `BatchBuild.BatchBuilder.Finish`: error texts, and which column an error names, are not modelled.
- Overflow of `i64` in `days_from_civil`, `parse_rfc3339_micros` and `parse_offset_secs` for years far
  outside 0000-9999 or offsets of billions of hours: the functions are on unbounded integers.
- `Timestamps.LongYearParses`: years up to 25 * 10^15, beyond which the day count overflows `i64`.
- `RangeMatching.BoundsAgreeWithMatching`: of the `semver` crate's requirement grammar one comparator
  without spaces, pre-release or build metadata; comma chains have no bounds. Pre-release versions are
  not part of this model: the bounds dialect differs from the library there by design.
- `VersionRange::parse` without loose normalisation.
- Signatures, JWT encoding, hashing, UUIDs: decoding a token is a function of its text, the cache is
  keyed by the token.
- `TokenVerify.CacheAgrees`, `TokenVerify.AcceptedIsSafe`: calls that do not overlap; those that do are in
  `TokenOverlap`, where each look at the cache, each computation and each revocation check is one step.
  The cache's own eviction may remove any entry at any step. `verify_external` is not modelled.
- `CardRefScope`: a list of cards; that repeated members go when it is read is part of decoding, a parameter.
- `TenantMarkers.DecodeClaims`: the fields beside tenant id and chain are opaque text with an
  acceptance test; the chain is an array of layers instead of nested boxes.
- `JsonInline.InliningKeepsTypes`: definitions that go round, anywhere in schema position, since inlining
  all of them would not end; the mapper itself is modelled under any definitions (`JsonCycles`).
- Field metadata, which the wire form erases.
- The provider-specific media builders: what `build_*_part` returns is a parameter.
- `MediaEdit.EditablePrompt.BindMediaMut`: one `Blocks` shape stands for the Responses, Anthropic and
  Google requests, which differ in whether a placeholder part keeps its annotations.
- `bind_mut`'s text replacement: replacing one variable can form another placeholder, so "no
  placeholder remains" is not a law.
- `SourceEdges.PiecesAlign`: like the grammar it rests on, it does not speak of a text whose last comment
  or literal is not closed.
- `SourcePieces.PiecesAreSanitised`: a text whose last comment or literal is not closed is outside the grammar.
- `scan_file`'s findings and `expect_arg_is_named_literal`: a regular expression over the aligned lines.
- HTTP and gRPC clients, discovery, disk caches, configuration, fixtures, schema generators, id
  validators, error catalogues, string tables: plumbing or finite case maps.
