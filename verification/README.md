# pooml: a verified model

pooml takes in logs and metrics over HTTP, queues them through in-memory pipelines into
SQLite, and shows them through a query page, live streams, dashboards and a War Room. This
project models the parts where concurrency, query rewriting and time arithmetic meet, and
proves what each of them promises for every run, every table or every input.

| file | models |
|---|---|
| `Gate.dfy` | the admission counter and close protocol shared by both pipelines |
| `BatchWriter.dfy`, `LogPipeline.dfy` | log ingestion: handlers, parser workers, fan-out, batch writer, shutdown |
| `MetricsPipeline.dfy` | metric ingestion: admission, chunked writer, shutdown |
| `Broadcaster.dfy` | the fan-out to live subscribers |
| `Sql.dfy`, `Rewrite.dfy` | the statement tree with SQL's three-valued meaning, and the rewrites of a validated query |
| `Shape.dfy`, `RewriteMeaning.dfy`, `Compose.dfy`, `QueryPage.dfy` | what the shape, the quick filter, the composed rewrites and a whole page request mean |
| `SqlText.dfy`, `Reprint.dfy` | conditions as text: the rewritten condition is printed, and read again as the tree it was |
| `Execute.dfy`, `Scroll.dfy`, `LiveTail.dfy` | reading a result, infinite scroll, the polling live tail |
| `ApiKeys.dfy`, `Revocation.dfy` | the key cache under concurrent verification, revocation and creation of keys |
| `Throttling.dfy` | login throttling |
| `Dsl.dfy`, `DslGrammar.dfy` | the metric DSL: its parser, its language said without a parser, and its compiled plans |
| `Increase.dfy`, `Aggregates.dfy` | what the plans compute: counter increase and rate, the plain aggregates, bucket and service splits |
| `Charts.dfy`, `MiniChart.dfy` | filled chart grids, the War Room window and its volume chart |
| `Sse.dfy` | event stream framing, read back by a parser of the HTML standard |
| `Common.dfy`, `Text.dfy`, `Buckets.dfy`, `Sums.dfy` | shared definitions and arithmetic |

Concurrent code is a state machine: a state, an action per atomic step of each goroutine, and
a `Step` that says when the action can happen. A run is any sequence of actions from the
initial state, so a theorem about `Reachable` states or about `Run` holds for every
interleaving, every failed insert and every moment of shutdown. Code that loops over its own
variables is a method with a loop, code that updates fields is a class, and each is proved
against a function that the theorems then speak about.

Where the code does not meet the expected property, the exact condition is proved:

- `Revocation.CreateBreaksIff`: the table's ids are `INTEGER PRIMARY KEY` without
  `AUTOINCREMENT`, so SQLite may give a new key the id of a revoked one. From the moment the id
  is handed out, the running calls can have a revoked row accepted if and only if some
  verification of a former row of the id is in flight that does not hold the lock yet, or holds
  it although its row is already revoked. `Revocation.ReusedIdBreaks` is such a run from an empty
  table, and `Revocation.NewIdsNeverBreak` shows that ids never handed out twice are enough.
- `LiveTail.LiveTailExactIff`: log ids have no `AUTOINCREMENT` either. A live tail never misses a
  matching row if and only if no insert puts a matching row behind the cursor.
  `LiveTail.ReusedIdMissed` is the failing run: the newest row is sent and deleted, and the next
  row gets its id.
- `Charts.ExplorerGridIff`: the explorer's query has no upper time bound, so a sample from the
  future is on the chart's grid if and only if it falls in the current bucket or before.
  `Charts.ExplorerDropsFuture` is a sample that is dropped.
- `Rewrite.VetCapsIff`: validation leaves a row cap if and only if the limit is absent, a literal
  that reads as a non-negative number, or another expression that SQLite evaluates to a number
  between zero and the cap. `Rewrite.UnreadLimitsPass` gives two that get through, `10000 + 1` and
  `-1`. The stream rewrite leaves a cap if and only if its limit is between zero and the cap
  (`Rewrite.RewritesCapIff`). In all other cases the scan loop's own cap applies
  (`Execute.Execute`).
- `Sse.StreamRoundTripIff`: a stream is read back as it was meant if and only if no event name has
  a line break and no comment has a data field on a line after its first; data always survives,
  without its carriage returns.
- `Broadcaster.LosslessIff`: a subscriber loses nothing if and only if it was never 100 logs
  behind when a log was sent.

`dafny verify dfyconfig.toml` checks everything.

## Model

| member | source | states |
|---|---|---|
| Gate.StepInv | ingestion/pipeline.go:89-123 | every step of admission and closing keeps: closed before queue closed, no handler inside the gate once the queue is closed, no send on a closed queue, and an exact counter |
| Gate.StepOrdered | ingestion/pipeline.go:89-123 | the lock order alone keeps the queue open while any handler can still send, even when admission races shutdown |
| Gate.StepBudgeted | ingestion/pipeline.go:95-106 | the counter stays equal to queued plus held weight plus live reservations, and granted reservations plus admitted weight stay within the limit, in spite of transient overshoot |
| Gate.ReserveBudgeted | ingestion/pipeline.go:95-100 | adding before comparing never grants beyond the limit: a reservation is granted only if the admitted weight with it still fits |
| Gate.OfferBudgeted | ingestion/pipeline.go:101-106 | an accepted payload turns its reservation into queued weight, a refused one keeps it until the refund; the queue never exceeds its capacity |
| Gate.TakeInv | ingestion/pipeline.go:125-128 | taking an item off the queue moves its weight from queued to held and changes no count |
| Gate.ReleaseInv | ingestion/pipeline.go:129-136 | giving back held weight keeps the counter exact |
| Gate.DrainedCounter | ingestion/pipeline.go:113-123 | once closed, drained and released, the counter is exactly zero |
| Gate.HandlerNeverStuck | ingestion/pipeline.go:89-107 | admission never blocks: a handler inside TryIngest can always take its next step |
| Gate.StepExtends | ingestion/pipeline.go:89-107 | accepted items only grow, by exactly what is appended to the queue, and not at all after the queue is closed |
| Gate.CallAdmitsIff | ingestion/pipeline.go:89-107 | a call that nothing interrupts accepts its item if and only if the gate is open, the item fits the budget and the queue has room; the item is then last in the queue with its weight counted, and a refused call leaves no trace |
| Gate.OneWay | ingestion/pipeline.go:89-107 | a handler inside its call has only one next step, so a call can go no other way |
| Gate.RefusedFor | ingestion/pipeline.go:89-107 | among other calls, a call is turned down only because the gate is closed, the counter with all claims leaves no room, or the queue is full |
| BatchWriter.FlushKeeps | ingestion/pipeline.go:157-166 | a flush, failed or not, neither loses nor repeats nor reorders a log, keeps the buffer within the batch size, and leaves the timer armed whenever logs remain |
| BatchWriter.DrainKeeps | ingestion/pipeline.go:167-172 | the final drain drops exactly the unflushed buffer, and only when its insert fails |
| BatchWriter.ReceiveKeeps | ingestion/pipeline.go:174-213 | receiving appends one log at the end and keeps the bounds |
| BatchWriter.Writer.constructor | ingestion/pipeline.go:147-155 | a writer starts empty with its timer unarmed |
| BatchWriter.Writer.TryFlush | ingestion/pipeline.go:157-166 | the whole new state of a flush; what has been seen is unchanged |
| BatchWriter.Writer.Drain | ingestion/pipeline.go:167-172 | the whole new state of the final drain; what has been seen is unchanged |
| BatchWriter.Writer.Tick | ingestion/pipeline.go:204-210 | the whole new state of a timer tick; what has been seen is unchanged |
| BatchWriter.Writer.Append | ingestion/pipeline.go:185-203 | the whole new state of one arrival: it is seen last, and the timer is armed |
| BatchWriter.Writer.Run | ingestion/pipeline.go:147-213 | the loop over any events and insert outcomes: stored, buffered and dropped logs together are the arrivals in order, it stops only on close, and drops only after a failed last insert |
| LogPipeline.LogConservation | ingestion/pipeline.go:125-213 | in every reachable state the logs of the accepted payloads are, each once, in the queue, with a worker, in a channel, with the fan-out, in the buffer, in the table or dropped by the final drain; the buffer is within the batch size and armed when non-empty |
| LogPipeline.PersistedInOrder | ingestion/pipeline.go:138-213 | in every reachable state the table is a prefix of what was broadcast, which is a prefix of what the workers sent: nothing is stored before it is broadcast and nothing overtakes |
| LogPipeline.AdmissionBudget | ingestion/pipeline.go:95-136 | in every reachable state the byte counter equals the bytes of accepted, not fully parsed payloads plus live reservations, and the accepted part is within the byte limit |
| LogPipeline.TryIngestIff | ingestion/pipeline.go:89-107 | in every reachable state an uninterrupted TryIngest takes the payload if and only if the pipeline is open, buffered bytes and payload are within 256 MiB, and fewer than 1000 payloads are queued |
| LogPipeline.Backpressure | ingestion/pipeline.go:125-192 | a worker can hand on a log exactly while fewer than 5000 wait, the fan-out while fewer than 1000 wait, and the writer takes one exactly while it holds fewer than 1000; a full writer only tries to flush |
| LogPipeline.NoSendOnClosed | ingestion/pipeline.go:89-145 | in no reachable state does anyone about to send face a closed channel, for all three channels, with TryIngest and Shutdown racing freely |
| LogPipeline.ShutdownComplete | ingestion/pipeline.go:113-123 | when Shutdown has returned every stage is empty and stopped, the counter is zero, and the table holds exactly the logs of all accepted payloads except those dropped by a failed final insert |
| LogPipeline.ShutdownNeverStuck | ingestion/pipeline.go:113-213 | after the queue is closed some stage can always move until Shutdown returns: no deadlock |
| LogPipeline.ShutdownBounded | ingestion/pipeline.go:113-213 | without new admissions a run is no longer than the work left plus its failed flushes: shutdown terminates |
| LogPipeline.ShutdownTerminates | ingestion/pipeline.go:113-213 | when no insert fails, a run without admissions is no longer than a number fixed beforehand |
| LogPipeline.StepInv | ingestion/pipeline.go:89-213 | every step of every goroutine keeps conservation, order, staging of the closes and the byte budget |
| LogPipeline.StepConserved | ingestion/pipeline.go:125-145 | every step keeps the conservation of logs up to the parsed channel |
| LogPipeline.StepInOrder | ingestion/pipeline.go:138-213 | every step keeps order behind the parsed channel and the broadcaster ahead of the table |
| LogPipeline.StepStaged | ingestion/pipeline.go:113-145 | a channel is closed only after all its senders have stopped |
| LogPipeline.StepGate | ingestion/pipeline.go:89-136 | workers and shutdown keep the admission invariant with the bytes the workers hold |
| LogPipeline.StepWorks | ingestion/pipeline.go:125-213 | every step other than an admission or a failed flush reduces the work left |
| MetricsPipeline.Writer.TryFlush | metrics/pipeline.go:118-127 | the chunk loop stores a prefix of the buffer in whole chunks of 500, stops at the first failed insert, and keeps exactly the unstored suffix |
| MetricsPipeline.InsertsFlush | metrics/pipeline.go:118-127 | the insert steps of one flush, in the interleaved system, lead to the table and buffer of the flush loop |
| MetricsPipeline.ExactFifo | metrics/pipeline.go:77-155 | in every reachable state table, dropped, buffer, rows in hand and queued batches, in that order, are the accepted batches in acceptance order; drops happen only at the very end |
| MetricsPipeline.AdmissionBudget | metrics/pipeline.go:86-97 | in every reachable state the row counter is exact, admitted rows are within the limit, and no send hits a closed channel |
| MetricsPipeline.TryPushIff | metrics/pipeline.go:77-98 | in every reachable state an uninterrupted TryPush takes a non-empty batch if and only if the pipeline is open, buffered rows and batch are within 500000, and fewer than 100 batches are queued |
| MetricsPipeline.TakesIff | metrics/pipeline.go:129-155 | the writer takes a batch exactly while it holds fewer than 500 rows and one is queued, and sees the end exactly when none will come |
| MetricsPipeline.LastFlush | metrics/pipeline.go:129-155 | at the end there is one last flush and the writer stops whatever comes of it; what it could not store is dropped |
| MetricsPipeline.ShutdownComplete | metrics/pipeline.go:103-155 | when Shutdown has returned the queue and buffer are empty, the counter is zero, and table plus dropped is the accepted batches in order |
| MetricsPipeline.ShutdownNeverStuck | metrics/pipeline.go:103-155 | after the channel is closed the writer can always move until Shutdown returns |
| MetricsPipeline.ShutdownBounded | metrics/pipeline.go:111-155 | without new admissions a run is bounded by the work left and its failed chunks |
| MetricsPipeline.ShutdownTerminates | metrics/pipeline.go:111-155 | when no insert fails, a run without admissions is no longer than a number fixed beforehand |
| MetricsPipeline.AdmitFifo | metrics/pipeline.go:77-98 | admission appends whole batches at the end of the queue and nothing else |
| MetricsPipeline.ChunkFifo | metrics/pipeline.go:118-127 | one chunk insert, failed or not, keeps the queue order from table to channel |
| MetricsPipeline.WriterFifo | metrics/pipeline.go:111-155 | every writer step keeps the queue order from table to channel |
| MetricsPipeline.StepWorks | metrics/pipeline.go:111-155 | every step other than an admission or a failed chunk reduces the work left |
| Broadcaster.Broadcaster.constructor | ingestion/broadcaster.go:22-24 | a broadcaster starts without subscribers |
| Broadcaster.Broadcaster.Broadcast | ingestion/broadcaster.go:26-36 | every open channel is offered the log exactly once, whatever the order of the map, and a full channel is left alone |
| Broadcaster.Broadcaster.Subscribe | ingestion/broadcaster.go:41-49 | a subscriber gets an id of its own and an empty channel; no other channel changes |
| Broadcaster.Broadcaster.Unsubscribe | ingestion/broadcaster.go:50-57 | the channel closes with what it holds; a second call changes nothing |
| Broadcaster.HubIsReaders | ingestion/broadcaster.go:26-58 | in every run each subscriber's channel is what a single reader on its own would have; a channel is open or closed, never both, so no send hits a closed one |
| Broadcaster.SlowReaderHarmless | ingestion/broadcaster.go:11-15 | what a subscriber receives is the same if all other subscribers stop reading and never leave: a slow reader harms only itself |
| Broadcaster.InOrderDelivery | ingestion/broadcaster.go:26-58 | at every point of every run received plus buffered is an in-order subsequence of the logs broadcast since subscribing, and a log is missing exactly when 100 unread ones were waiting |
| Broadcaster.LosslessIff | ingestion/broadcaster.go:26-36 | nothing is missing if and only if the reader was never 100 logs behind at a send |
| Text.AtoiItoa | query/rewrite.go:126-138 | a 64-bit number written into the statement reads back as itself, sign included |
| Text.AtoiRange | query/validate.go:254-266 | what is read as a number: digits up to 9223372036854775807 |
| Text.AtoiRangeBelow | query/validate.go:254-266 | behind a minus, digits up to 9223372036854775808 |
| Text.ItoaForm | query/rewrite.go:126-138 | a number is printed as digits without leading zeros, with a minus exactly when it is negative |
| Text.LowerLetters | query/rewrite.go:188-198 | the 26 capitals become small letters and every other character stays |
| Sql.EvalNoBinds | query/rewrite.go:26-69 | a condition without binds means the same wherever it is put: it sees neither the arguments nor the joined index row |
| Sql.ComparisonLaws | query/rewrite.go:126-238 | comparisons as the rewrites use them: unknown with NULL, otherwise exactly one of less, equal and greater, integers by value and before text |
| Sql.LogicLaws | query/rewrite.go:26-69 | AND, OR and NOT with unknown: De Morgan, and unknown only where the other side does not decide |
| Rewrite.Validated.constructor | query/validate.go:110-118 | vetting records the shape the statement has, and leaves a row cap exactly for the limits that `CapsWell` describes, whatever SQLite makes of limits that are no literals |
| Rewrite.Validated.CombineFTS | query/rewrite.go:26-69 | adding a search changes the statement exactly as specified, or leaves it untouched with an error |
| Rewrite.Validated.ApplyQuickFilter | query/rewrite.go:79-120 | the drill-in and the viewer branch each change the statement exactly as specified, or leave it untouched with an error |
| Rewrite.Validated.ApplyWindow | query/rewrite.go:126-138 | only the condition changes, or nothing with an error |
| Rewrite.Validated.ApplyStreamCursor | query/rewrite.go:147-162 | condition, order and limit change and the offset goes, or nothing with an error |
| Rewrite.Validated.ApplyPagination | query/rewrite.go:204-238 | condition, order and limit change and the offset goes, or nothing with an error |
| Rewrite.ClampKeepsShape | query/validate.go:226-266 | clamping the limit does not change the detected shape |
| Rewrite.VetCapsIff | query/validate.go:254-266 | SQLite stops a vetted statement at 10000 rows or earlier if and only if its limit was absent, a readable non-negative literal, or another expression with a value from 0 to 10000; it then stops at the smaller of limit and cap |
| Rewrite.UnreadLimitsPass | query/validate.go:254-266 | a sum above the cap and a negated number pass unclamped, the first as a limit that is too large, the second as no limit |
| Rewrite.CapMeaning | query/validate.go:254-266 | on an answer longer than the cap, the statement yields at most 10000 rows if and only if it has the row cap |
| Rewrite.RewritesKeepWellVetted | query/rewrite.go:26-238 | every rewrite of a vetted statement leaves the shape and compound flags true of the new statement |
| Rewrite.RewritesCapIff | query/rewrite.go:26-238 | exactly when a row cap is left: search and window keep what was there, drilling in and paging always set one, the stream cursor does if and only if its limit is between zero and 10000 |
| Shape.ShapeIff | query/validate.go:226-252 | a statement is an aggregation if and only if some arm groups, filters groups, is distinct or names windows, or has a column with, at any depth, a call over a window or of one of the eight aggregates in any case |
| Shape.HasAggregateIff | query/validate.go:241-252 | the walk through an expression finds an aggregate if and only if one stands anywhere in it |
| Shape.DrillsInIff | query/rewrite.go:97-107 | a filter on an aggregation asks for every column of the logs underneath, oldest first, fifty of them, with the offset as it was; on any other statement it changes only the condition |
| Shape.DrilledInAnswer | query/rewrite.go:97-107 | a drilled-in statement answers with at most fifty logs, oldest first |
| Shape.EqOnIff | query/rewrite.go:167-198 | an equality counts for a column if and only if its left side names the column, qualified or not and in any case, and its right side is a literal |
| Shape.SpellingsRetarget | query/rewrite.go:109-112 | a qualified column in capitals is found and its literal replaced |
| RewriteMeaning.FirstEq | query/rewrite.go:167-186 | the first conjunct that equates the column with a literal, or none |
| RewriteMeaning.FindsEqConjunct | query/rewrite.go:164-198 | the search through the AND tree finds an equality if and only if it is a top-level conjunct: nothing under OR or NOT is seen |
| RewriteMeaning.RetargetConjuncts | query/rewrite.go:109-112 | retargeting replaces the literal of the first such conjunct and leaves every other conjunct as it was |
| RewriteMeaning.QuickFilterConjuncts | query/rewrite.go:109-119 | the new conjunct list is the old one with that equality retargeted, or with a new equality at the end |
| RewriteMeaning.HoldsConjuncts | query/rewrite.go:164-186 | a condition is true in SQL's three-valued logic if and only if all its conjuncts are |
| RewriteMeaning.EqHolds | query/rewrite.go:188-198 | an equality on a filter column holds of a row if and only if the column has the literal's value |
| RewriteMeaning.QuickFilterMeaning | query/rewrite.go:79-120 | after one filter a row passes the condition if and only if it has the value and passes all the other conjuncts; the result is always a log view |
| RewriteMeaning.QuickFilterLastWins | query/rewrite.go:79-120 | filtering twice on a column equals filtering once with the last value, as a statement and not only as a result |
| RewriteMeaning.RetargetTwice | query/rewrite.go:109-112 | retargeting again finds the same conjunct |
| Compose.WindowHolds | query/rewrite.go:126-138 | the window condition holds of exactly the rows from one bound to the other, both included |
| Compose.StreamHolds | query/rewrite.go:147-162 | the stream condition holds of exactly the rows above the bound id |
| Compose.PageHolds | query/rewrite.go:204-238 | the page condition holds of exactly the rows older than the cursor, by time and then id |
| Compose.ConjoinHolds | query/rewrite.go:253-259 | adding a condition to a WHERE means both, whatever operator the WHERE ends in: the parentheses hold it together |
| Compose.SearchHolds | query/rewrite.go:26-69 | AND and OR with a search mean match and, or match or, the user's condition, and take one bind |
| Compose.ComposedMeaning | query/rewrite.go:26-238 | search, then window, page or stream cursor, selects exactly the rows that satisfy (match op where) and the cursor, each as often as it stands in the table, with the search text as first argument and the cursor second |
| Compose.JoinEqualsMembership | query/rewrite.go:26-69 | the join form of AND yields the same rows as the id-membership form, without duplicates |
| Compose.InIndexMeansMatch | query/rewrite.go:26-69 | for an index in step with the table, id membership is the match on the row's text |
| QueryPage.MergeFilters | ui/logs.go:81-93 | the loop over the three parameters applies the filters that are given, in order, and stops at the first that does not fit |
| QueryPage.FilteredConjuncts | query/rewrite.go:79-120 | after all filters the conjuncts of the user that no filter replaced stand as they were, and every replaced or added conjunct is an equality of one of the filters |
| QueryPage.FilteredKeeps | query/rewrite.go:79-120 | the filtered condition keeps exactly the rows with all the values that also meet every conjunct no filter replaced |
| QueryPage.ChainMeaning | ui/logs.go:81-114 | a whole page request, quick filters then search then window or cursor, drilled in or not, selects each log as often as it stands in the table if (match op (values and untouched conjuncts)) and the cursor hold of it, and no other |
| SqlText.ReadPrinted | query/rewrite.go:253-259 | a condition whose operands all bind tightly enough, or stand in parentheses, is what its printed text reads as under SQL precedence |
| SqlText.PrintRead | query/rewrite.go:253-259 | whatever tree a text reads as prints as that text again and is tight enough |
| SqlText.PrintableIff | query/rewrite.go:253-259 | a tree survives printing and reading if and only if its operands are tight enough |
| Reprint.ChainReadsBack | ui/logs.go:81-114 | the condition of any page request, printed and read again by SQLite, is the tree the rewriter built: no OR of the user, the search or the cursor escapes from where it was put |
| Reprint.BareOrEscapes | query/rewrite.go:253-259 | without the parentheses a user condition with OR would let rows past the added condition |
| Execute.Execute | query/execute.go:29-75 | the result is a prefix of the answer, non-empty if the answer is, cut only by the row cap or the byte cap, overshooting the byte cap by at most its last row; truncated is set exactly when rows are missing or the byte cap is reached |
| Execute.FillResults | ui/logs.go:177-214 | the view is the rows in time order with id as tiebreak, none lost; the next cursor is the oldest row's, and is offered exactly when there are rows |
| Scroll.PageStatement | query/rewrite.go:204-238 | the page statement orders the matching rows below the cursor newest first and takes one page |
| Scroll.FetchedIsPrefix | query/rewrite.go:204-238 | a page, even cut by the byte cap, is the newest part of what is left, and is empty only when nothing is left |
| Scroll.OldestIsLast | ui/logs.go:198-214 | the cursor the view offers is the last row of the fetched page |
| Scroll.PageSplits | ui/logs.go:198-214 | what was left is the page plus what is left after it: nothing skipped, nothing repeated |
| Scroll.ScrollExact | query/rewrite.go:204-238 | scrolling to the end yields every matching row below the start cursor exactly once, strictly descending across pages |
| Scroll.ScrollShrinks | query/rewrite.go:204-238 | a page is empty if and only if nothing is left, and each other page reduces what is left by its length: scrolling ends |
| Scroll.ScrollExists | query/rewrite.go:204-238 | every request has a scroll that reaches the end |
| Scroll.ScrollEnds | query/rewrite.go:204-238 | no scroll has more pages than rows left and one empty page |
| LiveTail.Deliver | ui/stream.go:147-188 | the loop leaves the cursor at the largest id delivered, and never moves it back |
| LiveTail.PollBrings | query/rewrite.go:147-162 | a poll, whatever its limit or truncation, brings the lowest matching rows above the cursor in id order |
| LiveTail.PollInv | ui/stream.go:147-188 | a poll sends only wanted rows, in order and once, and keeps the tail complete up to its cursor |
| LiveTail.TableInv | ui/stream.go:133-188 | inserts and deletes, whatever the ids, spoil nothing that was sent; a delete keeps the tail complete, and an insert does if and only if no matching new row falls behind the cursor |
| LiveTail.LiveTailSound | ui/stream.go:133-188 | over every interleaving, also with ids handed out again, everything sent matches, lies between anchor and cursor, and comes once in strictly rising id order |
| LiveTail.LiveTailExactIff | ui/stream.go:133-188 | a run never misses a matching row between anchor and cursor if and only if no insert puts a matching row there that was not sent |
| LiveTail.LiveTailExact | ui/stream.go:133-188 | when inserted ids lie above the cursor, reused or not, every matching row of the table between anchor and cursor has been sent |
| LiveTail.LiveTailComplete | ui/stream.go:133-188 | while nothing is deleted and inserts fit, what was sent is exactly the matching rows between anchor and cursor, in id order |
| LiveTail.PollShrinks | ui/stream.go:147-188 | a poll comes back empty if and only if no matching row is above the cursor, and every other poll leaves as many fewer as it sent |
| LiveTail.LiveTailCatchesUp | ui/stream.go:147-188 | as many polls in a row as rows are waiting send every matching row of the table past the anchor |
| LiveTail.NoBackfill | ui/stream.go:135-140 | a stream never sends a row that was in the table when it started |
| LiveTail.SendsTheNew | ui/stream.go:135-188 | a matching row with an id above all that were there at the start is sent once the polls have caught up |
| LiveTail.ReusedIdMissed | ui/stream.go:133-188 | a run in which the newest row is sent and deleted and its id reused: the new row matches, was not sent, and lies behind the cursor, where no poll looks |
| LiveTail.EvalSame | query/rewrite.go:147-162 | what a condition says of a row does not change while the table around it does |
| ApiKeys.VerifyInv | services/apikeys.go:124-165 | every step of a verification keeps lock, rows, live cache ids and what each call knows |
| ApiKeys.RevokeInv | services/apikeys.go:107-119 | every step of a revocation keeps them too, in particular between the delete and the purge |
| ApiKeys.CreateInv | services/apikeys.go:59-86 | creating a key under any id that is free keeps them too |
| ApiKeys.StepInv | services/apikeys.go:59-165 | so every interleaving keeps them, with no condition on the ids the table hands out |
| ApiKeys.KeyRoundTrip | services/apikeys.go:85-85 | a key handed to the user parses back to its id and its secret, underscores included |
| ApiKeys.CacheAgreesWithTable | services/apikeys.go:107-165 | in every run, ids reused or not, each cached id is in the table or has a revocation about to purge it |
| ApiKeys.VerifyComplete | services/apikeys.go:124-165 | in every run a verification that answers no had a database error, a malformed key, a row that changed during the call, or a secret that does not match |
| ApiKeys.FailsByDatabase | services/apikeys.go:124-165 | a call counts as failed through a database error and nothing else |
| ApiKeys.RevokeReports | services/apikeys.go:107-119 | a revocation reports success only after its delete went through and the cache was purged; on an error nothing has changed |
| Revocation.VerifyAnswers | services/apikeys.go:124-165 | an undisturbed verification says yes if and only if the key is cached or names a stored row whose hash its secret matches, and then remembers it |
| Revocation.RevokeAnswers | services/apikeys.go:107-119 | an undisturbed revocation deletes the row and every cached key of the id, and nothing else |
| Revocation.StepSafe | services/apikeys.go:59-165 | every step, with ids handed out safely, keeps each cached or about-to-be-cached key backed by a row that is not revoked |
| Revocation.RevokedStaysRevoked | services/apikeys.go:107-165 | in every run that hands out ids safely, a verification that answers yes names an issued row that was not revoked before the call began, whatever was in the middle of hashing or caching |
| Revocation.NewIdIsSafe | services/apikeys.go:59-86 | an id that was never issued before may always be handed out |
| Revocation.NewIdsNeverBreak | services/apikeys.go:59-165 | if no id is issued twice, no run at all accepts a revoked row |
| Revocation.RevokeReturns | services/apikeys.go:107-119 | a revocation under way can always return while a verification beside it stands still |
| Revocation.CreateBreaksIff | services/apikeys.go:59-165 | after a creation some run accepts a revoked row if and only if a verification of a former row of the id is in flight without the lock, or with it although its row is revoked |
| Revocation.ReusedIdBreaks | services/apikeys.go:59-165 | from an empty table: create, verify, revoke while it waits, create under the same id, and the revoked key is cached and accepted |
| ApiKeys.Cache.Purge | services/apikeys.go:107-119 | the purge removes exactly the digests of the id |
| Throttling.ThrottlingService.IsLocked | services/throttling.go:68-76 | an IP is locked exactly while its lockout runs |
| Throttling.ThrottlingService.Sweep | services/throttling.go:55-66 | a sweep removes exactly the entries with no running lockout that were last seen more than ten minutes ago |
| Throttling.ThrottlingService.EvictOldest | services/throttling.go:115-139 | one entry goes; as long as no entry has the empty IP, it is the one seen longest ago among the unlocked, or among all when every one is locked |
| Throttling.ThrottlingService.RecordFailure | services/throttling.go:78-110 | the new entries; room is made exactly when a new IP meets a full map |
| Throttling.CountsAgree | services/throttling.go:78-110 | the pruned list counts the same failures as the whole history since the last lockout, and locks at the same moment |
| Throttling.RecordReflects | services/throttling.go:78-110 | recording keeps the entry indistinguishable from the history |
| Throttling.NewReflects | services/throttling.go:55-110 | starting afresh after a sweep is indistinguishable from the history it forgot |
| Throttling.LockEndIsLast | services/throttling.go:68-76 | being locked now means some lockout of the history is still young |
| Throttling.ThrottleRefinesHistory | services/throttling.go:55-139 | in every run of failures and sweeps IsLocked answers as the IP's whole failure history since it was last evicted would: five failures inside the window since the last lockout give one lockout time |
| Throttling.EntriesBounded | services/throttling.go:78-139 | in every run the map holds at most 10000 entries |
| Throttling.LocksOutIff | services/throttling.go:78-110 | a failure locks out if and only if it is the fifth of five less than a minute apart with no lockout among the four before it |
| Throttling.EvictionSpares | services/throttling.go:115-139 | an eviction ends a running lockout only when every entry is locked, and otherwise takes the longest unseen of the unlocked |
| Increase.BucketsNeverOvercount | query/dsl.go:189-227 | for counters that never decrease, the bucketed increases over all series sum to at most the increase of the whole window |
| Increase.ServiceBucketsNeverOvercount | query/dsl.go:189-253 | for every service, its pivot column over all buckets sums to at most its by-service increase |
| Increase.SeriesAtMostInc | query/dsl.go:189-227 | the same for a single series |
| Increase.BucketsAtMostRows | query/dsl.go:189-227 | any set of buckets of a series sums to at most the span of the samples in them |
| Increase.IncIsRise | query/dsl.go:189-195 | for a series that never decreases MAX - MIN is its latest value less its earliest |
| Increase.WholeIsRise | query/dsl.go:192-227 | over such series the increase, whole or by service, is the sum over the series of latest less earliest |
| Increase.BucketIsRise | query/dsl.go:192-227 | the same for a bucket and for a pivot column |
| Increase.ServicesSumToOverall | query/dsl.go:192-227 | the increases by service sum to the ungrouped increase |
| Increase.ServiceIsFilter | query/dsl.go:192-227 | a service's group is the ungrouped increase of its own samples |
| Increase.PivotIsFilter | query/dsl.go:192-253 | a pivot column of a bucket is that bucket's increase over the service's own samples |
| Increase.ColumnsSumToBucket | query/dsl.go:192-253 | columns for all services sum to the unpivoted bucket |
| Increase.ColumnsAtMostBucket | query/dsl.go:192-253 | columns for any list of services never exceed the bucket |
| Increase.PivotSeesService | query/dsl.go:247-253 | the CASE of a pivot column leaves exactly the service's values for the aggregate, since it ignores NULL |
| Dsl.DurationMeaning | query/dsl.go:255-284 | an accepted duration is digits and a unit, fits 64 bits, is positive and a whole number of minutes |
| Dsl.DurationRoundTrip | query/dsl.go:255-284 | every positive whole number of minutes that fits 64 bits can be written and reads back as itself |
| Dsl.MinutesRead | query/dsl.go:255-284 | n minutes are n times 60000 ms, or refused if that does not fit |
| Dsl.HoursRead | query/dsl.go:255-284 | n hours read as 60 n minutes, for every n |
| Dsl.DaysRead | query/dsl.go:255-284 | n days read as 24 n hours, for every n |
| Dsl.ParseDSL | query/dsl.go:68-134 | the token loop accepts, rejects and reads exactly as the clause grammar says |
| Dsl.ParsedSpans | query/dsl.go:68-134 | a parsed query has a positive window, whole-minute spans, a known verb, and no bucket for latest |
| Dsl.FilterRoundTrip | query/dsl.go:96-134 | a written filter reads back as itself and is never taken for a keyword |
| Dsl.ClausesRoundTrip | query/dsl.go:68-134 | every canonical query, written out, parses back to itself |
| Dsl.ParsePrintParse | query/dsl.go:68-134 | everything the parser accepts is canonical, and printing it gives clauses that parse to the same query |
| DslGrammar.LawfulParses | query/dsl.go:68-134 | every list of proper clauses, with one per and one last at most and no per with latest, is accepted and means what the clauses say, a missing last meaning a day |
| DslGrammar.ParsedIsLawful | query/dsl.go:68-134 | nothing else is accepted: every accepted line is such a list |
| DslGrammar.KeysAre | query/dsl.go:58-67 | a key is letters, digits, underscores and dots, starting with a letter or an underscore |
| DslGrammar.TrimTakesQuotes | query/dsl.go:115-122 | quotes of either kind are taken off both ends of a value, all of them and nothing else |
| Dsl.PerNeverOvercounts | query/dsl.go:143-245 | adding a per clause reads the same rows, and the values its plan computes for the buckets sum to at most the value computed without it |
| Dsl.ColumnNeverOvercounts | query/dsl.go:143-253 | the values the plan of per with by service computes in a listed column sum to at most the value of that service without per |
| Dsl.RateIsIncrease | query/dsl.go:192-227 | a rate times the seconds of its frame is the increase over the same rows, in all four forms |
| Dsl.RateFrame | query/dsl.go:192-227 | the divisor of a rate is at least 60 for every parsed query and every War Room window, and without per it is the seconds of the War Room window |
| Dsl.CellIsRise | query/dsl.go:192-227 | over counters that never decrease, the value a plan computes is the sum over the series of latest less earliest, divided by the seconds of the frame for a rate |
| Dsl.ServicesAddUp | query/dsl.go:192-227 | increases and rates by service sum to the same query without the clause |
| Dsl.PivotSplitsBucket | query/dsl.go:143-253 | for increase and rate, by service with per is refused without services, keeps the first six, never exceeds the bucket computed without the clause, and adds up to it if the list is complete and not cut |
| Aggregates.PerAddsUp | query/dsl.go:165-187 | count and sum per bucket add up to the query without per: no sample is lost or counted twice |
| Aggregates.ServicesAddUp | query/dsl.go:165-187 | count and sum by service add up to the query without the clause |
| Aggregates.PerExtremes | query/dsl.go:165-187 | max and min per bucket stay within the query without per, and some bucket reaches it |
| Aggregates.PivotIsFiltered | query/dsl.go:143-187 | per with by service is refused without services; each of the first six listed columns is the bucket of the query filtered to that service, for all five aggregates |
| Aggregates.VerbMeanings | query/dsl.go:57-60 | avg times count is sum, and min and max are the extreme values |
| Aggregates.NewestIsLatest | query/dsl.go:155-160 | a new sample becomes the latest overall and of its own service, and of no other |
| Aggregates.FilterNarrows | query/dsl.go:229-245 | one filter more narrows the rows to those of its service, host or label |
| Aggregates.UnfilteredRows | query/dsl.go:229-245 | without filters a query reads exactly the samples of its metric in the window, both edges included in the War Room |
| Charts.FillBuckets | ui/dashboards.go:304-314 | the loop draws the closed form of the grid, or nothing when it would have too few or too many points |
| Charts.GridEnd | ui/dashboards.go:304-314 | the last point is the last one not after the end |
| Charts.Reindex | ui/dashboards.go:402-423 | each grid point gets the value of its label's last row, or zero or nothing by verb |
| Charts.GridValueIs | ui/dashboards.go:402-423 | with distinct labels no value on the grid is lost or moved |
| Charts.WarGridShape | ui/warroom.go:131-139 | the War Room grid starts at the window's first bucket, ends at its last, and has one point per bucket |
| Charts.WarGridComplete | ui/warroom.go:131-139 | every bucket the War Room query can return is on the grid |
| Charts.SecondsKeepBuckets | query/dsl.go:229-245 | cutting the lower bound to seconds never lets in a sample of an earlier bucket, as buckets are whole seconds |
| Charts.ExplorerLower | ui/metrics.go:179-187 | no bucket the explorer's query returns lies before its grid |
| Charts.ExplorerGridIff | ui/metrics.go:179-187 | a returned bucket is on the explorer's grid if and only if its sample is not after the current bucket |
| Charts.ExplorerDropsFuture | ui/metrics.go:179-187 | a sample from the future that the query returns and the grid drops |
| Charts.WarWindow | ui/warroom.go:48-62 | a bad or short window becomes the last hour, follow keeps the span and moves the right edge to now; the result always spans at least a minute |
| Charts.WarBucketMs | ui/warroom.go:144-159 | the smallest fixed step that divides the span into at most 120 whole buckets; beyond them, the smallest number of whole days above a 120th of the span |
| Charts.WarSteps | ui/warroom.go:144-149 | the fixed steps, in seconds, minutes, hours and a day |
| MiniChart.WarMiniChart | ui/warroom.go:163-209 | the totals are exactly the logs of the window and the errors among them, each bar is its bucket's counts, and there are at most 122 bars |
| MiniChart.BarsConserve | ui/warroom.go:163-209 | bars that are distinct and cover the window's buckets count every log of the window once |
| MiniChart.BarsCover | ui/warroom.go:163-209 | the bars from the first bucket to the window's end cover every bucket of the window, also when it starts before time zero |
| MiniChart.TotalsAre | ui/warroom.go:163-209 | the totals are the number of logs in the window and the number of those at level 4 or above |
| Sse.SseWriter.constructor | ui/stream.go:251-256 | nothing written, nothing pending |
| Sse.SseWriter.Event | ui/stream.go:258-267 | the output grows by exactly one event frame and one is pending |
| Sse.SseWriter.Comment | ui/stream.go:269-272 | the output grows by exactly one comment frame and one is pending |
| Sse.SseWriter.Flush | ui/stream.go:274-279 | after a flush nothing written is held back |
| Sse.SplitTerminated | ui/stream.go:262-264 | splitting at line feeds loses nothing |
| Sse.StripCrAt | ui/stream.go:262-262 | a carriage return goes and every other character stays in its place |
| Sse.EventRoundTrip | ui/stream.go:258-267 | whatever its data holds, a frame is read back as one event with that name and the data without carriage returns |
| Sse.EventRoundTripIff | ui/stream.go:258-267 | an event is read back as itself if and only if its name has no line break |
| Sse.CommentRoundTrip | ui/stream.go:269-272 | a comment without line breaks is read as no event and leaves no trace |
| Sse.CommentRoundTripIff | ui/stream.go:269-272 | any comment leaves no trace, and is read as no event if and only if no line of its text after the first is a data field |
| Sse.StreamRoundTripIff | ui/stream.go:258-272 | any sequence of events and comments is read back as exactly those events in order, if and only if no event name has a line break and no comment has a data field on a later line |
| Sse.FrameEnds | ui/stream.go:258-272 | after any frame, whatever its name, data or text, the client is ready for the next and has read no fewer events than were meant |
| Sse.FeedAppend | ui/stream.go:258-279 | where the stream is cut by flushes makes no difference to what is read |

## Left out

- Tree aliasing: the quick filter assigns to a found node of the statement tree; the model rebuilds the tree as a value, so sharing of nodes between trees is not captured.
- Column qualifiers: a qualified column is looked up by its column name alone; the ambiguity of an unqualified `raw` after the full-text join, type affinity and collation are not modelled.
- Binds in the user's own query: the theorems on what a query selects assume there are none in its condition; validation does not refuse them. Select lists and grouping beyond the detected shape are carried along unread.
- Charts.ExplorerLower: takes the clock the query reads as not behind the one the page read before it.
- Charts.ExplorerGridIff: takes the clock the query reads as not behind the one the page read before it.
- LiveTail.EvalSame: takes a condition it does not look into as a function of the log row; one with a subquery over other rows or with a clock function passes validation and is not, and what it selects may change between polls.
- Broadcaster.HubIsReaders: one broadcast is one action; in the code readers take from their channels without the mutex, so a receive may fall between two sends of the same broadcast. Each channel gets one send per broadcast, so such a receive only counts as before or after it.
- Counter wrap-around: the atomic byte and row counters are unbounded; the 64-bit counters would need exabytes in flight to wrap.
- MiniChart.WarMiniChart: does not model 64-bit wrap-around of the bar time, because a window that ends within one bucket of the largest 64-bit time is about 292 million years ahead.
- Charts.FillBuckets: does not model 64-bit wrap-around of the grid time, for the same reason.
- Throttling.ThrottleRefinesHistory: takes the failures in the order the lock admits them and their times as nondecreasing in it; the code reads the clock before it takes the lock.
- LiveTail.Deliver: a row whose rendering fails is logged and skipped by the code; rendering is taken to succeed.
- Execute.Execute: scan and driver errors abort the query and are not modelled; the answer is the row sequence SQLite would produce.
- Execute.FillResults: the library sort is modelled by insertion, which gives the same order as keys are distinct.
- Dsl.ParseDSL: starts from the verb, the metric and the tokens; the regular expression that cuts the head off the line is not modelled.
- SQL text: conditions are printed as words and read by operator precedence; the printing of whole statements, the quoting of names and strings, and the inside of calls and subqueries are not modelled. The AND of a BETWEEN is a word of its own.
- MetricsPipeline.TryPushIff: is about batches with rows; an empty batch is answered before the gate and changes nothing.
- Aggregates.NewestIsLatest: takes samples as stored in id order.
- Payload parsing (JSON, syslog, access logs, time formats) is an arbitrary pure function from a payload to its logs.
- Key derivation is an arbitrary function of secret and stored hash, and digests of different keys are taken as different.
- The byte order mark an event stream may start with, event ids and retry times: the writer produces none of them.
- Metric values are reals; floating-point rounding is not modelled.
- Query validation's visitors, prettifying, alerts, scraping, retention, sessions, settings, backups and HTTP handling: thin wrappers, or they rest on libraries outside the repository.
