# Agent Prism: verified model

Agent Prism runs one question through several agent columns in parallel and compares the streams. This project models
its algorithms and step protocols in Dafny and proves what they promise. `dafny verify dfyconfig.toml` checks all of it.

| module | what it models |
|---|---|
| `AnswerCompare` | alignment of two answers through a longest-common-subsequence table, and their similarity |
| `SpanSelection` | the search for the span of a conversation to compact |
| `Checkpoint`, `CheckpointRoundTrip` | the rendered summary envelope, its reader, and exactly when one undoes the other |
| `LogTail`, `ColumnLogs` | reading the tail of a log through growing windows, and merging the tails of several runs |
| `SsePump` | the incremental reader of a server-sent event stream |
| `EventChannel`, `RunProtocol` | the bounded merge channel, and one run as an interleaving of workers, drain loop and consumer |
| `AgentExecution` | the verification loop, the execution of one agent, and the column worker around it |
| `ArenaRun` | a whole run: what the workers of `AgentExecution` push, as the consumer of `RunProtocol` sees it |
| `RunTraceLogs` | chained, batched log appends that may fail |
| `ToolCapture`, `HistoryCaps`, `ThreadStore`, `ThreadProtocol`, `ThreadService` | capture of tool rounds, trimming of transcripts, the thread registry, and turns, forks and deletions interleaving at their awaits |
| `TraceEvents`, `TraceRows` | the merge of an event stream into display segments, with the marking passes; and what it comes to, told by events and rows alone |
| `CodeChunks`; `TextPatterns`, `TextUnits`, `TextChunks` | the chunker for source files; the one for plain text, from its two patterns up |
| `BudgetAllocator` | the two-phase token allocator with its cascade |
| `EndpointLabels` | the loop that keeps column labels unique |
| `JsText` | string operations of the host language the others share |

Protocols are state machines: a `Step` datatype, a function `Next`, an invariant, and theorems over every run. Where
the program keeps state in an object there is a class whose methods compute exactly those steps. Main operations are
proved against a function that follows the code, and that function in turn against its effect in plain terms: positions
of events and lines, sums, fields of records.

## Findings

Some promises hold only under a condition; each is proved with its exact condition and an input that breaks it.

- A rendered checkpoint does not read back when a line such as `### x` or `a\b` loses its first character, when a line
  holds the close tag, or when a section head hides behind a line terminator other than a newline.
- A started column yields exactly one complete, its last event, with settlement and cleanup as shipped. The code around
  them would let a second one through exactly when something throws behind a complete it already yielded. That takes
  two changes: a transport whose `kill` throws, since closing a client ends in that call and the shipped transport
  swallows its errors (packages/tools/tool-mcp/src/transport.ts:200-206), and a caller that injects it, since the column
  worker sets none (packages/arena/arena-runner/src/runner.ts:433-465). Releasing the workspace is two map operations
  (packages/runtime/runtime/src/workspace.ts:135-139), the episodic record catches its own errors, and the analytics
  summary has nothing in it that throws.
- A failed workspace copy leaves the half-created fork behind when somebody runs the fork while the copy is under way,
  although the comment at packages/application/application/src/thread-service.ts:96-98 says it never does; a run from
  the empty registry gets there.
- The comment at packages/application/application/src/thread-store.ts:274 promises that what is valid to write is valid
  to read. Two things the store writes are not. Untitled forks of untitled forks outgrow the title bound of the read
  schema. And a captured round may lack the tool name, or the record of arguments, that the schema of rounds demands
  (packages/contracts/contracts/src/history-mode.ts:27-31): one driver emits an action with an empty name
  (packages/drivers/driver-claude-agent-sdk/src/claude-driver.ts:327-330), and nothing up to the store looks at it. A
  reload then drops the whole thread. In every run no stored round does that exactly when each committed turn's rounds
  are readable or too heavy to be kept.
- The settings admit a history budget of 64,000 characters so that a full-sized pair always survives
  (packages/config/config/src/settings.ts:206-211). Captured rounds weigh too: a question of 4,000 characters, an answer
  of 32,000 and rounds of 32,000 empty the stored transcript, the new turn included. All such turns survive exactly from
  68,000 characters on.
- The comment at packages/contracts/contracts/src/history-mode.ts:67-73 has every action paired with the next
  observation of its column. No round joins two columns, but an action loses its round exactly when another action, of
  whatever column, comes before that observation.
- The comment at packages/arena-view/arena-view/src/answer-compare.ts:73 calls the alignment case-sensitive; the code
  lowercases. `Foo` and `foo` come out as one shared row, and two heads are shared exactly when their folds are equal.

## Model

| member | source | states |
|---|---|---|
| AnswerCompare.AlignAnswers | packages/arena-view/arena-view/src/answer-compare.ts:77-112 | Reading the rows' sides gives back exactly both unit lists; shared rows agree in their folds; no common subsequence of the folded lists is longer than the shared rows; every row is the one the greedy walk continues with, ties going to the first answer |
| AnswerCompare.HeadsSharedExactly | packages/arena-view/arena-view/src/answer-compare.ts:93-107 | Where both answers have a unit left, the next row shares the two heads exactly when they fold to the same |
| AnswerCompare.AllSharedExactly | packages/arena-view/arena-view/src/answer-compare.ts:80-112 | Two answers come out as shared rows alone exactly when their folded unit lists are equal |
| AnswerCompare.FirstAnswerGoesFirst | packages/arena-view/arena-view/src/answer-compare.ts:93-107 | Where the next units differ, the first answer's goes first unless passing it leaves less in common than passing the other's |
| AnswerCompare.LcsIsLongest | packages/arena-view/arena-view/src/answer-compare.ts:83-92 | Every cell of the table is the length of a longest common subsequence of the two suffixes: one has it, and none is longer |
| AnswerCompare.WordsFoldAlike | packages/arena-view/arena-view/src/answer-compare.ts:80 | Two ASCII words fold to the same exactly when they differ in case only |
| AnswerCompare.CaseIsFolded | packages/arena-view/arena-view/src/answer-compare.ts:73-82 | `Foo` and `foo` are one shared row, whatever else the host's lower-casing does |
| AnswerCompare.SpacingIsFolded | packages/arena-view/arena-view/src/answer-compare.ts:80 | Texts that differ in runs of white space between their words only fold to the same |
| AnswerCompare.LowerAsciiIs | packages/arena-view/arena-view/src/answer-compare.ts:80 | What is asked of the host's lower-casing: the 26 capital letters become small ones, nothing else in ASCII changes |
| AnswerCompare.SingleBlanksRemain | packages/arena-view/arena-view/src/answer-compare.ts:80 | White space survives as single blanks only, at the end only where there was some |
| AnswerCompare.RunBecomesOneBlank | packages/arena-view/arena-view/src/answer-compare.ts:80 | A run of white space between two pieces of text is one blank between their collapsed forms |
| AnswerCompare.SwapKeepsSharedCount | packages/arena-view/arena-view/src/answer-compare.ts:77-112 | Swapping the answers keeps the number of shared rows |
| AnswerCompare.FillTable | packages/arena-view/arena-view/src/answer-compare.ts:84-92 | Every 32-bit entry of the table is the longest-common-subsequence length of the two suffixes, without wrap-around |
| AnswerCompare.LcsBoundsCommonSubsequences | packages/arena-view/arena-view/src/answer-compare.ts:83-92 | The recurrence the table follows bounds the length of every common subsequence |
| AnswerCompare.AnswerSimilarity | packages/arena-view/arena-view/src/answer-compare.ts:119-138 | The size of the multiset intersection of the folded units over the longer count; in [0,1]; 1 exactly when the multisets are equal |
| AnswerCompare.SimilarityIsSymmetric | packages/arena-view/arena-view/src/answer-compare.ts:119-138 | The similarity does not depend on which answer comes first |
| AnswerCompare.SimilarityCounts | packages/arena-view/arena-view/src/answer-compare.ts:119-138 | The similarity times the longer count is the number of folded units both have, each as often as both have it; two empty answers score one |
| AnswerCompare.CountShared | packages/arena-view/arena-view/src/answer-compare.ts:124-136 | Drawing from the pool counts exactly the multiset intersection |
| AnswerCompare.OverlapIsFull | packages/arena-view/arena-view/src/answer-compare.ts:137 | The intersection is as large as the longer list exactly when the multisets are equal |
| AnswerCompare.SharedRowsWithinOverlap | packages/arena-view/arena-view/src/answer-compare.ts:93-133 | Any common subsequence, so the shared rows too, is no longer than the intersection the similarity counts |
| SpanSelection.SelectSpan | packages/context/context-compaction/src/surface.ts:87-130 | For every divisor and target, zero, infinite or not a number included: the least qualifying span by weight, then start, then length, with its exact totals and ids; None exactly when nothing qualifies, or when the target is a number not above zero |
| SpanSelection.ChosenSpanIs | packages/context/context-compaction/src/surface.ts:87-137 | The choice in plain sums, for every positive divisor and every target: of all spans without a pinned frame, safe for pairs and metering the target, the chosen one has the least sum of positive finite weights, then is oldest, then shortest; its tokens are its texts' lengths over the divisor rounded up, at least one, and four a frame |
| SpanSelection.NonsensicalWeightsAreNeutral | packages/context/context-compaction/src/surface.ts:54-56 | Putting zero for every missing, negative or infinite weight changes neither the chosen span nor None, for every divisor and target |
| SpanSelection.BoundariesArePairSafety | packages/context/context-compaction/src/surface.ts:99-119 | The two boundary checks hold exactly when cutting the span separates no tool frame from its nearest preceding non-tool frame |
| SpanSelection.TokensGrow | packages/context/context-compaction/src/surface.ts:105-120 | Longer spans from one start never hold fewer tokens, and strictly more wherever tokens are numbers, so comparing tokens last is comparing lengths |
| SpanSelection.EstimateTokens | packages/context/context-compaction/src/surface.ts:39-41 | Never below 1; under a positive divisor the length of a text over it, rounded up; a number under every finite divisor but zero |
| SpanSelection.EstimateWithoutDivisor | packages/context/context-compaction/src/surface.ts:39-41 | The estimate under a divisor that is not positive: what a zero of either sign, a negative, an infinite one and none make of an empty text and any other |
| SpanSelection.TokensWithoutDivisor | packages/context/context-compaction/src/surface.ts:44-51 | The total of frames under such a divisor: five a frame, no bound under the positive zero, and no number where one estimate is none |
| SpanSelection.BestSpanIsUnique | packages/context/context-compaction/src/surface.ts:132-137 | The order on spans leaves one answer |
| CheckpointRoundTrip.RoundTripExactly | packages/context/context-compaction/src/checkpoint.ts:134-167 | Parsing a rendered checkpoint gives its sections back if and only if every line is trimmed, not blank, without newline and close tag, hides no section head behind another line terminator, and meets the escape condition |
| CheckpointRoundTrip.EscapeIsUndoneExactly | packages/context/context-compaction/src/checkpoint.ts:125-132 | Unescaping undoes escaping exactly for lines that are structural, start with a backslash, or whose tail after the first character does neither |
| CheckpointRoundTrip.PlainEnvelopeReads | packages/context/context-compaction/src/checkpoint.ts:147-167 | For plain lines reading succeeds exactly when no line hides a head, and then gives the unescaped lines |
| CheckpointRoundTrip.HeadsAmongLines | packages/context/context-compaction/src/checkpoint.ts:153 | The head pattern matches inside text made of lines only where one of those lines has a match |
| CheckpointRoundTrip.HeadsDoNotOverlap | packages/context/context-compaction/src/checkpoint.ts:153 | Two matches of the head pattern never overlap, so scanning on from a match end misses none |
| CheckpointRoundTrip.TagsAreFound | packages/context/context-compaction/src/checkpoint.ts:148-151 | In a rendered envelope of plain lines the searches find the two real tags |
| CheckpointRoundTrip.ParsedLinesArePlain | packages/context/context-compaction/src/checkpoint.ts:160-164 | Whatever text is parsed, every line it yields is trimmed, not blank and free of newline and close tag |
| CheckpointRoundTrip.SomeLinesAreLost | packages/context/context-compaction/src/checkpoint.ts:125-132 | A deeper heading, an inner backslash and an inner head behind a carriage return are not given back |
| Checkpoint.ParseCheckpoint | packages/context/context-compaction/src/checkpoint.ts:147-167 | The section-filling loop computes the parse the round trip is stated about, None included |
| Checkpoint.ReadableExactly | packages/context/context-compaction/src/checkpoint.ts:147-157 | An envelope is read exactly if the tags are found in order and enclose seven heads with the seven names in their order |
| Checkpoint.StructureIs | packages/context/context-compaction/src/checkpoint.ts:121-123 | Structure is two hashes with white space behind them, whatever follows, and the two tags; no shorter line |
| Checkpoint.WordCharactersAre | packages/context/context-compaction/src/checkpoint.ts:153 | The words of the head pattern are of ASCII letters, digits and the underscore |
| LogTail.ReadJsonlTail | packages/application/application/src/arena-logs-service.ts:96-122 | For every file, cap of at least 1, widening heuristic and short-read pattern the result equals one parse of the whole file, rows and truncated flag |
| LogTail.TailOfLines | packages/application/application/src/arena-logs-service.ts:59-84 | A file of given lines, with or without a last one that ends in no newline, answers with the rows of its last lines up to the cap, truncated exactly when there are more lines |
| LogTail.FileIsItsLines | packages/application/application/src/arena-logs-service.ts:67-70 | Reading gives back the lines a file was written from; the empty piece behind a final newline is none |
| LogTail.RowsArePicked | packages/application/application/src/arena-logs-service.ts:73-82 | The rows are what the lines that parse hold, each once and in order |
| LogTail.CoveringWindow | packages/application/application/src/arena-logs-service.ts:109-113 | A window that holds the cap in lines already has the whole file's tail, and there is something before it |
| LogTail.WindowIsSuffix | packages/application/application/src/arena-logs-service.ts:67-71 | After dropping the cut line, a window's lines are a suffix of the file's lines |
| LogTail.ParseTailWindow | packages/application/application/src/arena-logs-service.ts:59-84 | The fill loop and the parse give the window's rows, its line count and whether it is truncated |
| ColumnLogs.ColumnLogs | packages/application/application/src/arena-logs-service.ts:142-166 | For all logs events and wire rows are the capped stable sort of the per-directory tails, truncated exactly when a file or a merged list exceeds its cap; for well-formed logs that is the capped sort of all rows |
| ColumnLogs.MergeTails | packages/application/application/src/arena-logs-service.ts:145-158 | For well-formed logs in time order, merging capped tails and capping again equals capping the stable sort of all rows of all files; the flag is exact |
| ColumnLogs.CappingCommutes | packages/application/application/src/arena-logs-service.ts:149-158 | Capping every sorted list first and the merged one afterwards loses nothing the final cap would keep |
| ColumnLogs.SortIsStable | packages/application/application/src/arena-logs-service.ts:155-156 | Rows of one time keep their order through the sort |
| ColumnLogs.FlattenedSize | packages/application/application/src/arena-logs-service.ts:157-164 | Some list or the capped rows together exceed the cap exactly when all rows together do |
| ColumnLogs.TailsOfWellFormed | packages/application/application/src/arena-logs-service.ts:148-152 | The tails of well-formed files are the last rows of those files |
| SsePump.PumpSSEBlocks | packages/client/client/src/sse.ts:20-77 | The calls depend on the concatenated text alone, never on how it was cut into chunks, for a normal end, an abort and a failure |
| SsePump.PartsOfMore | packages/client/client/src/sse.ts:54-56 | Splitting text read so far and then more equals splitting all of it: only the buffered last part changes, even across a cut line break |
| SsePump.FramedPayloadsComeBack | packages/client/client/src/sse.ts:34-60 | Any list of trimmed, non-empty, single-line payloads framed as data lines with blank lines is delivered unchanged and in order |
| SsePump.BlockIsRead | packages/client/client/src/sse.ts:31-60 | A block of lines in front of any text is one call: its data lines without the blanks in front, one a line, trimmed; none if that is blank. Comments and other fields say nothing, and each line and the blank line may end in either line break |
| SsePump.LastBlockIsRead | packages/client/client/src/sse.ts:62-69 | So is a last block that only the end of the connection closes |
| SsePump.Pump.Feed | packages/client/client/src/sse.ts:53-60 | One chunk: complete blocks are delivered, the rest stays buffered |
| SsePump.Pump.Finish | packages/client/client/src/sse.ts:62-68 | The connection's end closes a last block, unless it is blank |
| EventChannel.PushAccounts | packages/runtime/runtime/src/event-channel.ts:46-62 | A push keeps the bound, serves a live waiter before the buffer, drops at most the oldest item, and every accepted item is delivered, dropped or buffered in order |
| EventChannel.PushIs | packages/runtime/runtime/src/event-channel.ts:46-62 | A closed channel ignores a push, a waiter is served before the buffer, and a full buffer loses exactly its oldest item |
| EventChannel.Channel.PushItem | packages/runtime/runtime/src/event-channel.ts:46-62 | The new channel state and who is served, with the item accounted for |
| EventChannel.Channel.Receive | packages/runtime/runtime/src/event-channel.ts:82-103 | The oldest item, or closed, or the caller waits until an item, the close or its timer |
| EventChannel.Channel.TimeOut | packages/runtime/runtime/src/event-channel.ts:96-100 | The timer of a waiting call removes that call from the waiters and ends it without an item |
| EventChannel.ExpiredIsNotServed | packages/runtime/runtime/src/event-channel.ts:46-100 | An expired call is served no more; the other waiters keep their order and their turn |
| RunProtocol.NothingIsLeftBehind | packages/arena/arena-runner/src/runner.ts:211-256 | In every interleaving, when the drain loop ends by itself all workers are done, the channel is empty, and exactly the undropped events were yielded in push order, even when sentinels were dropped |
| RunProtocol.EverythingIsYielded | packages/arena/arena-runner/src/runner.ts:255-264 | When nothing was dropped every pushed event was yielded, in order |
| RunProtocol.SentinelIsLastAndOnce | packages/arena/arena-runner/src/runner.ts:364-497 | A worker's null is pushed once, as its last push, and exactly when the worker is done |
| RunProtocol.AllSentinelsDelivered | packages/arena/arena-runner/src/runner.ts:213-222 | Once all sentinels were counted the channel is empty and every worker is done |
| RunProtocol.StepKeeps | packages/arena/arena-runner/src/runner.ts:213-253 | Every step of workers, drain loop and consumer keeps the invariants of channel, workers and counters |
| RunProtocol.DrainEnds | packages/arena/arena-runner/src/runner.ts:213-219 | With all workers done the drain loop alone brings the run to its end, within a bounded number of steps |
| ArenaRun.EveryColumnCompletes | packages/arena/arena-runner/src/runner.ts:204-497 | In every interleaving that ends without a drop the consumer sees of each started column exactly one complete, as that column's last event, and nothing of a column cancelled while queued |
| ArenaRun.ColumnsArrive | packages/arena/arena-runner/src/runner.ts:213-497 | Without a drop the consumer of a finished run gets each column exactly as its worker pushed it |
| ArenaRun.RunEmits | packages/arena/arena-runner/src/runner.ts:364-497 | The channel accepts of each worker what that worker pushed, in order |
| AgentExecution.OneCompleteUnlessCleanupThrows | packages/arena/arena-runner/src/runner.ts:364-497 | With settlement and cleanup that do not throw, as shipped, every started column has exactly one complete, its last event |
| AgentExecution.OneCompletePerColumn | packages/arena/arena-runner/src/runner.ts:391-497 | For any settlement and cleanup: every started column closes with a complete; it is the only one if and only if nothing throws behind a complete already yielded |
| AgentExecution.LateCleanupAddsAComplete | packages/agent/agent/src/agent-execution.ts:852-858 | A cleanup that throws after a finished run gives the column a second complete; it takes an injected transport whose `kill` throws and a caller that injects one, which the column worker does not |
| AgentExecution.FailureClosesTheColumn | packages/agent/agent/src/agent-execution.ts:808-851 | Any failure, however late, leaves an error right before the closing failed complete |
| AgentExecution.ReportedWorkIsVisible | packages/agent/agent/src/agent-execution.ts:755-851 | Every complete the agent makes up, and the held one after a finalize, reports the steps its stream shows; made-up ones also the tool calls |
| AgentExecution.CancellationIsNoSuccess | packages/agent/agent/src/agent-execution.ts:671-683 | A cancelled run streams what it had and is closed by the failed pair, never by its held complete |
| AgentExecution.RunAgentExecution | packages/agent/agent/src/agent-execution.ts:330-858 | The event loop with its counters, the held complete, the finalize and the failure path yield the stream that `FinishedRunIs` and `ThrownRunIs` describe |
| AgentExecution.FinishedRunIs | packages/agent/agent/src/agent-execution.ts:644-807 | By position, for every run whose guarded part does not throw: the driver's events other than completes in order, step and thought when the finalize got an answer and no failure was reported, and one closing event. That is the driver's first complete itself, of which a finalize changes the steps alone; without one a success reporting the work shown |
| AgentExecution.ThrownRunIs | packages/agent/agent/src/agent-execution.ts:658-858 | By position, for every other run: what was shown until the throw, the driver's complete included only when the settlement threw, then an error and a failed complete reporting the work shown, unless cancelled |
| AgentExecution.CountIsPositions | packages/agent/agent/src/agent-execution.ts:658-660 | The counters count the positions of the events of their kind |
| AgentExecution.ColumnIs | packages/arena/arena-runner/src/runner.ts:364-497 | Nothing of a column cancelled in the queue, an error and an empty failed complete for one that was refused, could not start or threw, and before that what the agent yielded |
| AgentExecution.SpawnWorker | packages/arena/arena-runner/src/runner.ts:364-497 | The worker pushes the agent's events, and the failure pair when it throws, is refused or cannot start |
| AgentExecution.OnlyTheLastAttemptCompletes | packages/harness/harness/src/verification/loop.ts:83-153 | A judged loop forwards completes only from the last permitted attempt, reached exactly when every earlier one failed and went on |
| AgentExecution.RunVerificationLoop | packages/harness/harness/src/verification/loop.ts:73-155 | The attempt loop yields the specified stream, throws included |
| AgentExecution.LoopShows | packages/harness/harness/src/verification/loop.ts:73-155 | Without a judge the one run; with one the attempts one behind the other, each failed one that does not throw leading to the next, up to the last permitted or the first that does not lead on |
| AgentExecution.AttemptIs | packages/harness/harness/src/verification/loop.ts:90-153 | One attempt by position: its run, without completes unless it is the last permitted one, the verdict, and behind a failed one that is not the last a reflection and, for the evolving level, an edit; a throw of any call ends it |
| AgentExecution.JudgedColumnCompletesOnce | packages/agent/agent/src/agent-execution.ts:644-807 | A column with judged attempts still has one complete, made up by the agent when the last attempt was not needed or none is permitted |
| RunTraceLogs.DiskHoldsWrittenBatches | packages/arena/arena-runner/src/run-trace-logs.ts:92-122 | In every interleaving of appends, drains and write failures the appended lines are the finished batches, those under way and those pending, in order; the disk holds the written batches, and without a warning all of them |
| RunTraceLogs.OneWritePerFile | packages/arena/arena-runner/src/run-trace-logs.ts:99-105 | At most one write per file has its bytes under way |
| RunTraceLogs.WarnsOnceExactly | packages/arena/arena-runner/src/run-trace-logs.ts:107-112 | In every interleaving there is one warning exactly when some write failed, however many did |
| RunTraceLogs.NothingElseUnderWay | packages/arena/arena-runner/src/run-trace-logs.ts:99-105 | When a write's callback runs no other write of the file is under way, and the batch it captured is the one the file has open |
| RunTraceLogs.FlushLeavesNothingPending | packages/arena/arena-runner/src/run-trace-logs.ts:54-58 | When nothing is in flight nothing is pending, no chain is kept, and every appended line belongs to a finished batch |
| RunTraceLogs.StepKeeps | packages/arena/arena-runner/src/run-trace-logs.ts:92-122 | Appending, starting, finishing and retiring a write keep the chain, batch and disk invariants |
| RunTraceLogs.SomethingAdvances | packages/arena/arena-runner/src/run-trace-logs.ts:100-121 | While something is in flight some write can take its next step |
| RunTraceLogs.Logs.AppendLine | packages/arena/arena-runner/src/run-trace-logs.ts:92-122 | A line joins the open batch, or opens one in a new write chained behind the file's last |
| RunTraceLogs.Logs.OnTurn | packages/arena/arena-runner/src/run-trace-logs.ts:100-106 | The callback takes the open batch off and writes the captured one, which holds everything appended until then |
| RunTraceLogs.Logs.OnSettled | packages/arena/arena-runner/src/run-trace-logs.ts:116-121 | Cleanup drops the chain slot only while its write is still the file's last |
| RunTraceLogs.Logs.Flush | packages/arena/arena-runner/src/run-trace-logs.ts:48-58 | Ends under every order, every failure pattern and any number of lines appended while it waits, with nothing in flight or pending and every line in a finished batch |
| ToolCapture.ExtractToolRounds | packages/contracts/contracts/src/history-mode.ts:74-93 | The pass with one pending slot captures, in order, exactly the rounds: an action and the next observation of its column, with no action between them |
| ToolCapture.RoundIsNextObservation | packages/contracts/contracts/src/history-mode.ts:67-93 | An action has its round exactly when no action of whatever column comes before its next observation |
| ToolCapture.RoundSays | packages/contracts/contracts/src/history-mode.ts:50-92 | A captured round has its action's tool and arguments and its observation's result; over 2,000 characters of arguments become a record of their beginning, over 8,000 of result are cut to that with an ellipsis |
| ToolCapture.InterleavedColumnsLoseRounds | packages/contracts/contracts/src/history-mode.ts:67-93 | Two columns that act before either observes: only the later action has its round |
| ToolCapture.KeptReadableExactly | packages/application/application/src/thread-service.ts:232 | After the wire clamp the rounds meet the schema exactly when the actions of the kept ones name their tools and have a record of arguments, or arguments long enough to be made one |
| ToolCapture.NamedActionsStoreReadably | packages/application/application/src/thread-service.ts:205-233 | A turn whose every action does so stores readable rounds only |
| HistoryCaps.TrimHistoryToCaps | packages/contracts/contracts/src/arena.ts:227-243 | The loop over the running total drops pairs up to the first even offset whose rest meets both caps |
| HistoryCaps.TotalCountsText | packages/contracts/contracts/src/arena.ts:189-235 | The weight of a transcript is the number of characters of all its contents, tools, arguments and results |
| HistoryCaps.TrimIsLongest | packages/contracts/contracts/src/arena.ts:219-243 | No suffix at an even offset that meets both caps is longer than the result |
| HistoryCaps.TrimKeepsTranscript | packages/contracts/contracts/src/arena.ts:219-243 | Alternation, user first, is kept |
| HistoryCaps.NewestPairSurvives | packages/contracts/contracts/src/arena.ts:227-243 | A pair just appended to whole pairs ends the trimmed history exactly when the caps leave room for the pair alone; otherwise nothing is kept |
| HistoryCaps.ClampToolRoundsForWire | packages/contracts/contracts/src/arena.ts:201-211 | The result is the longest suffix of rounds within both wire caps |
| HistoryCaps.FitsWireExactly | packages/contracts/contracts/src/arena.ts:194-208 | The caps are 64 rounds and 32,000 characters of tools, arguments and results together |
| HistoryCaps.ClampIsUnique | packages/contracts/contracts/src/arena.ts:194-211 | There is one such suffix |
| ThreadStore.FileThreadStore.AppendTurn | packages/application/application/src/thread-store.ts:278-296 | The record after a committed turn, every other record unchanged; a missing record is reported |
| ThreadStore.FileThreadStore.Fork | packages/application/application/src/thread-store.ts:235-256 | The new record copies configuration, history and turn count; refused when the parent is missing or the registry full |
| ThreadStore.FileThreadStore.Delete | packages/application/application/src/thread-store.ts:214-222 | Removes an idle record, refuses a running or missing one |
| ThreadStore.SanitizedTurnContent | packages/application/application/src/thread-store.ts:362-366 | Blank text becomes the placeholder, any other is kept up to the message cap; stored text is never empty |
| ThreadStore.TurnKeepsSoundHistory | packages/application/application/src/thread-store.ts:278-296 | A turn keeps the transcript alternating, of even length, within the caps, and every message's text within the read bound |
| ThreadStore.CommittedPairSurvives | packages/application/application/src/thread-store.ts:278-296 | The committed pair ends the transcript exactly when the caps leave room for it alone; otherwise the transcript is empty |
| ThreadStore.EveryTurnFitsExactly | packages/config/config/src/settings.ts:205-211 | For questions up to a length, every turn with clamped rounds fits exactly under caps with room for that length, a full answer and full rounds |
| ThreadStore.SmallestBudgetLosesATurn | packages/config/config/src/settings.ts:206-211 | Under the smallest admitted budget some permitted turn empties the stored transcript, itself included |
| ThreadStore.SoundHistoryReadsBack | packages/application/application/src/thread-store.ts:60-77 | A record with a sound history meets the read schema exactly when its title fits, its stored rounds are readable and the message cap is not negative |
| ThreadStore.ReadsBackIs | packages/application/application/src/thread-store.ts:60-77 | The read schema: a title of at most 200 characters, at most twice the capped messages, each of 1 to 32,000 characters, every round with a tool name and a record of arguments |
| ThreadStore.TurnReadsBackExactly | packages/application/application/src/thread-store.ts:278-296 | A turn leaves the stored rounds readable exactly when its own are, or when there is no room to keep them |
| ThreadStore.ReloadRestores | packages/application/application/src/thread-store.ts:118-173 | Of every file exactly the items that meet the read schema, round names and arguments included, and are among the first to fit are loaded, idle and otherwise unchanged; under one identifier the last of them |
| ThreadStore.ReadableAreSelected | packages/application/application/src/thread-store.ts:118-173 | The items considered are those that meet the schema, each once, in the order of the file |
| ThreadStore.ForkReadsBackExactly | packages/application/application/src/thread-store.ts:235-256 | An untitled fork of a readable thread is readable exactly when the parent's title leaves room for the suffix |
| ThreadStore.ForkChainsOutgrowTheSchema | packages/application/application/src/thread-store.ts:245 | A long enough chain of untitled forks always leaves the readable range |
| ThreadProtocol.StepKeeps | packages/application/application/src/thread-service.ts:86-242 | Every step of creating, deleting, running and forking keeps ownership, transcripts and the registry size |
| ThreadProtocol.MarkedThreadsHaveOneHolder | packages/application/application/src/thread-service.ts:101-191 | In every interleaving a running flag is set exactly while one live call holds the thread |
| ThreadProtocol.HolderKeepsItsThread | packages/application/application/src/thread-service.ts:86-191 | While a call holds a thread no second turn, fork or delete of it succeeds and nothing else clears its flag |
| ThreadProtocol.ReleaseFindsItsRecord | packages/application/application/src/thread-service.ts:129-131 | Giving a thread back always finds its record and changes only the flag |
| ThreadProtocol.CreateExactly | packages/application/application/src/thread-store.ts:173-197 | A thread is created exactly while there is room, idle and empty, under a trimmed title or a made-up one |
| ThreadProtocol.DeleteExactly | packages/application/application/src/thread-store.ts:214-222 | Deleting takes effect exactly on an idle thread |
| ThreadProtocol.StartTurnExactly | packages/application/application/src/thread-service.ts:164-169 | A turn starts exactly on an idle thread and marks it |
| ThreadProtocol.EndTurnExactly | packages/application/application/src/thread-service.ts:193-195 | However a turn ends, its thread is idle again and otherwise unchanged |
| ThreadProtocol.StartForkExactly | packages/application/application/src/thread-service.ts:101-118 | A fork is made exactly of an idle thread whose workspace is in no run, while there is room: every field of the new record; the parent stays marked exactly while there is a workspace to copy |
| ThreadProtocol.EndForkExactly | packages/application/application/src/thread-service.ts:115-127 | A finished copy links the fork, a failed one removes it unless it is running, the parent is idle again, and no other record changes |
| ThreadProtocol.OnlyCommitsChangeHistory | packages/application/application/src/thread-service.ts:194-242 | History and turn count change only at a commit, by one pair; what a commit is `EventCommitsExactly` and `OnlyOwnSuccessCommits` say |
| ThreadProtocol.OnlyOwnSuccessCommits | packages/application/application/src/thread-service.ts:211-241 | Over all steps: a changed history or turn count, or a workspace changed while a turn streams, means a complete, of the column labelled after that thread, that reports success, in a turn on that thread |
| ThreadProtocol.EventCommitsExactly | packages/application/application/src/thread-service.ts:211-241 | An event of a turn that is such a complete leaves the sanitized question and answer, trimmed to the caps, one turn more, its workspace if it names one and the time, and nothing else; every other event leaves everything as it is |
| ThreadProtocol.CommitIsStored | packages/application/application/src/thread-service.ts:214-236 | A committed pair is the end of the stored transcript exactly when the limits leave room for it alone; otherwise the transcript is empty |
| ThreadProtocol.CommitIsStoredByDefault | packages/application/application/src/thread-store.ts:40-44 | Under the built-in limits a committed pair is the end of the stored transcript in every run |
| ThreadProtocol.StoredHistoryIsTheTailOfTheTurns | packages/application/application/src/thread-store.ts:278-296 | Started empty, every stored history is the sound tail of all committed messages, two per turn; the registry never exceeds its size |
| ThreadProtocol.ReachableRecordsReadBack | packages/application/application/src/thread-store.ts:266-296 | Whatever creations, turns, forks and deletions came before, a reload of what is written restores a record exactly when its title fits and every stored round names its tool and has a record of arguments |
| ThreadProtocol.AlwaysReadableExactly | packages/application/application/src/thread-store.ts:266-296 | At every moment of a run all stored rounds are readable exactly when each commit met a check that can be made before it: its rounds are readable, or its pair does not fit |
| ThreadProtocol.StepReadsBackExactly | packages/application/application/src/thread-store.ts:235-296 | One step keeps all stored rounds readable exactly when what it commits, if it does, passes that check |
| ThreadProtocol.UnnamedToolDropsItsThread | packages/application/application/src/thread-store.ts:131-146 | A run from the empty registry under the built-in limits stores a round without a tool name; every reload of it loses the thread, whose title fits |
| ThreadProtocol.FailedCopyLeavesNoRecord | packages/application/application/src/thread-service.ts:115-123 | A failed workspace copy leaves no record of the fork if and only if the fork is not itself busy by then |
| ThreadProtocol.TurnOnHalfForkKeepsIt | packages/application/application/src/thread-service.ts:115-123 | Running the fork while its copy is under way makes the half-created record stay |
| ThreadProtocol.FailedCopyCanLeaveItsRecord | packages/application/application/src/thread-service.ts:101-123 | A run from the empty registry in which a failed copy leaves its fork's record behind, without a workspace and with nobody copying |
| ThreadService.Service.BeginFork | packages/application/application/src/thread-service.ts:101-118 | The part of a fork before its first await is one protocol step |
| ThreadService.Service.EndFork | packages/application/application/src/thread-service.ts:115-131 | The rest of a fork is one step and releases the parent on every path |
| ThreadService.Service.OnEvent | packages/application/application/src/thread-service.ts:194-242 | Handling one event is one step, never misses its record, and stores question and sanitized answer exactly when the event is a successful complete of the turn's own column; otherwise every record stays as it is |
| TraceEvents.NextKeeps | packages/arena-view/arena-view/src/trace-events.ts:101-361 | Each event adds at most one segment at the end, only extends text, result and diff of the others, never un-completes one, and the open action stays the last segment |
| TraceEvents.MoreEventsOnlyGrow | packages/arena-view/arena-view/src/trace-events.ts:101-365 | Over whole streams nothing shown is reordered, removed, shortened or reopened |
| TraceEvents.RowsAreDistinct | packages/arena-view/arena-view/src/trace-events.ts:124-137 | Segment ids are pairwise distinct and a step of a turn has one row |
| TraceEvents.ObservedAtMostOnce | packages/arena-view/arena-view/src/trace-events.ts:250-269 | No action takes two observations |
| TraceEvents.CallOwnsItsOutput | packages/arena-view/arena-view/src/trace-events.ts:231-320 | A call, whatever progress chunks, file diffs, metadata and thought ends follow in whatever order, and its observation are one row with all output, repeated output shown once, and all diffs |
| TraceEvents.ThoughtOwnsItsText | packages/arena-view/arena-view/src/trace-events.ts:164-208 | From its first piece on, and whatever is interleaved, a streamed thought is one row that holds the pieces of its step in order and nothing else, until the stream ends |
| TraceEvents.EndCompletesThought | packages/arena-view/arena-view/src/trace-events.ts:164-215 | The end of the stream completes that row with exactly that text |
| TraceEvents.NextKeepsStream | packages/arena-view/arena-view/src/trace-events.ts:141-208 | A step's stream key always names a segment of that turn and step |
| TraceEvents.MergeEvents | packages/arena-view/arena-view/src/trace-events.ts:101-365 | The finished rows are the merge of all events, which `TraceRows.EventIs` gives event by event, with final replies and roles marked and nothing else changed |
| TraceRows.EventIs | packages/arena-view/arena-view/src/trace-events.ts:101-361 | After whatever events, all that one more does, by rows and positions alone: whether it opens a row, every field of that row, and every field of each row there was |
| TraceRows.MemoryOfEvents | packages/arena-view/arena-view/src/trace-events.ts:112-122 | An action is open exactly when only output, diffs, metadata and ends of thoughts came behind it; the remembered tool and actor are the last ones named |
| TraceRows.MergedIsSound | packages/arena-view/arena-view/src/trace-events.ts:103-109 | The index names, for every key, the last row of that kind; steps, thinking and stray output have one row a step |
| TraceRows.EachIsOneRow | packages/arena-view/arena-view/src/trace-events.ts:138-163 | A whole thought that is no foreign banner, an error, a verdict, a reflection, an edit, and an observation or diff that meets no open action are each one row: completed, of the event's turn and step, with exactly its content, whatever came before and whatever follows |
| TraceRows.SaidStaysForGood | packages/arena-view/arena-view/src/trace-events.ts:101-361 | Once nothing can be added to a row's text, no later event changes its text, kind, place or actor |
| TraceRows.NothingToShow | packages/arena-view/arena-view/src/trace-events.ts:141-215 | Foreign banners, empty pieces, ends of thoughts and metadata add no row and no text |
| TraceRows.ToldInOneRow | packages/arena-view/arena-view/src/trace-events.ts:216-303 | All thinking of a step, and all output of it that meets no open action, is one row each with the contents in order |
| TraceRows.AnnouncedStepIsOneRow | packages/arena-view/arena-view/src/trace-events.ts:124-137 | An announced step is one row, completed exactly when content of that step came behind the announcement |
| TraceEvents.MarkFinalAnswerSegments | packages/arena-view/arena-view/src/trace-events.ts:373-384 | Exactly the last settled thought of each turn is marked |
| TraceEvents.OneFinalReplyPerTurn | packages/arena-view/arena-view/src/trace-events.ts:367-384 | A turn has at most one final reply |
| TraceEvents.SettledTurnHasFinalReply | packages/arena-view/arena-view/src/trace-events.ts:367-384 | A turn with a settled thought has a final reply |
| TraceEvents.RoleFromOrder | packages/arena-view/arena-view/src/trace-events.ts:414-439 | Roles depend on the order of the segments only, not on marks set before |
| TraceRows.RoleExactly | packages/arena-view/arena-view/src/trace-events.ts:394-439 | A settled thought whose next row, thinking and steps aside, is a call, and whose previous one, banners aside too, is no tool activity, states the action; one behind tool activity with no call next wraps up; everything else has no role |
| TraceRows.SettledExactly | packages/arena-view/arena-view/src/trace-events.ts:377 | A thought is settled when it is completed, no banner, and holds a character that is not white space |
| TraceEvents.MarkStepRoles | packages/arena-view/arena-view/src/trace-events.ts:426-439 | Every thought gets the role its neighbours give it, or none |
| CodeChunks.SplitBlocks | packages/context/context-chunking/src/code.ts:67-122 | The blocks are exactly the sections between the lines that break the scope, in order, leaving out blank sections only |
| CodeChunks.BlockEndsExactly | packages/context/context-chunking/src/code.ts:67-120 | The next block starts at the first line that is indented no deeper than the first line of this one and defines something, or says something with no more brackets opened than closed |
| CodeChunks.BlockIsItsLines | packages/context/context-chunking/src/code.ts:67-122 | A block is all lines from a start to the next one, and says something |
| CodeChunks.BlockIsCalled | packages/context/context-chunking/src/code.ts:76-103 | Kind and symbol of a block are what its first line defines; blank lines and comments define nothing |
| CodeChunks.IndentIs | packages/context/context-chunking/src/code.ts:50-53 | The indentation is the number of white-space characters in front, a tab counting twice |
| CodeChunks.CountIsPlaces | packages/context/context-chunking/src/code.ts:111-112 | Brackets are counted by their places |
| CodeChunks.OneBlockPerLine | packages/context/context-chunking/src/code.ts:67-122 | A line is in at most one block |
| CodeChunks.ChunksCoverTheSource | packages/context/context-chunking/src/code.ts:124-169 | Every chunk is exactly the lines it cites, at most the limit many, and every line with content is in some chunk |
| CodeChunks.WindowBlock | packages/context/context-chunking/src/code.ts:125-150 | The stepped loop gives the specified windows, or the whole block when it fits |
| CodeChunks.WindowsAre | packages/context/context-chunking/src/code.ts:136-149 | The k-th window of an over-long block starts k steps on, holds the limit or what is left, and is the last exactly when it or the step behind it reaches the end |
| CodeChunks.ChunksOfBlock | packages/context/context-chunking/src/code.ts:124-137 | A block within the limit is one chunk of its own kind, a longer one is windowed with the limit less the overlap as the step; both are called after the block behind its parent |
| CodeChunks.WindowsFromCiteAll | packages/context/context-chunking/src/code.ts:138-148 | No line of an over-long block is skipped between windows |
| CodeChunks.ChunkCode | packages/context/context-chunking/src/code.ts:156-169 | The chunks of a text are the windows of its blocks under the effective options; blank text has none |
| CodeChunks.ChunksAreAllWindows | packages/context/context-chunking/src/code.ts:163-168 | The chunks are those of all blocks and no others |
| CodeChunks.ChunksAreInOrder | packages/context/context-chunking/src/code.ts:163-168 | They come in the order of their first lines, no two the same |
| CodeChunks.OptionsAre | packages/context/context-chunking/src/code.ts:160-161 | At least 20 lines a chunk, 120 by default; the overlap, 15 by default, is between none and half of them |
| TextPatterns.BreaksAreAll | packages/context/context-chunking/src/text.ts:36 | The paragraph breaks are stretches of white space from a newline to a newline, apart, and every such stretch lies in one of them |
| TextPatterns.BreakIs | packages/context/context-chunking/src/text.ts:36 | A break is a newline, any white space or none, and a newline |
| TextPatterns.EveryStopEnds | packages/context/context-chunking/src/text.ts:61 | The sentence ends are exactly the stops, each with its closing quote and the white space behind it |
| TextPatterns.StopCharactersAre | packages/context/context-chunking/src/text.ts:61 | The stops and the closing quotes, by their codes |
| TextUnits.Paragraphs | packages/context/context-chunking/src/text.ts:29-42 | The paragraphs are exactly what lies between consecutive breaks and is not blank, as slices, in order |
| TextUnits.ParagraphIsBetweenBreaks | packages/context/context-chunking/src/text.ts:29-42 | A paragraph reaches from a break or the start of the text to the next break or its end, holds no break and is not blank |
| TextUnits.OrderIsUnique | packages/context/context-chunking/src/text.ts:29-42 | Lists of the same chunks in the order of the text are one list, so the paragraphs are determined |
| TextUnits.Sentences | packages/context/context-chunking/src/text.ts:45-87 | Groups end at sentence ends, only where the next sentence does not fit; over-long single sentences are cut to size |
| TextUnits.GroupsAreUnique | packages/context/context-chunking/src/text.ts:45-87 | There is one greedy grouping of a paragraph's sentences |
| TextUnits.UnitsAreUnique | packages/context/context-chunking/src/text.ts:101-108 | Paragraphs that fit and the groups of over-long ones leave one list of units |
| TextUnits.PiecesAreChain | packages/context/context-chunking/src/text.ts:50-61 | The pieces are consecutive slices from end to end of the paragraph, none over the limit |
| TextUnits.PiecesAreFull | packages/context/context-chunking/src/text.ts:50-60 | Text within the limit stays one piece; of longer text every piece but the last is as long as the limit |
| TextChunks.MergeUnits | packages/context/context-chunking/src/text.ts:110-121 | Merged chunks are runs of neighbours that fit, ended only where the next unit does not |
| TextChunks.RunIsGlued | packages/context/context-chunking/src/text.ts:110-121 | A merged chunk is the texts of its units with a blank line between neighbours, from the first start to the last end |
| TextChunks.OverlapKeepsOwnText | packages/context/context-chunking/src/text.ts:123-129 | An overlapped chunk still ends with its whole own text and stays within limit and overlap together |
| TextChunks.OverlapIs | packages/context/context-chunking/src/text.ts:123-129 | A chunk that begins with the last characters of the one before stays as it is; any other is led by them and a blank line, as far as limit and overlap allow, and starts that much earlier |
| TextChunks.UnitsSurvive | packages/context/context-chunking/src/text.ts:93-130 | Every unit's text is whole in some chunk whose offsets span it |
| TextChunks.ContentIsCovered | packages/context/context-chunking/src/text.ts:93-130 | Every character with content lies between the offsets of some chunk |
| TextChunks.ChunksAreBounded | packages/context/context-chunking/src/text.ts:93-130 | No chunk exceeds the limit and the overlap together; without overlap none exceeds the limit |
| TextChunks.ChunkText | packages/context/context-chunking/src/text.ts:93-130 | The units are the paragraphs that fit and the greedy sentence groups of the others; the chunks are the units, their merged runs, or the runs with overlaps, as options and counts decide |
| TextChunks.OptionsAre | packages/context/context-chunking/src/text.ts:97-98 | At least 200 characters a chunk, 1,200 by default; the overlap, 200 by default, is between none and half of them |
| TextChunks.ChunksAreDetermined | packages/context/context-chunking/src/text.ts:93-130 | That leaves one list of chunks for a text and the options |
| BudgetAllocator.AllocateBudget | packages/context/context-budget/src/allocate.ts:45-87 | Rejects exactly an unusable budget or weights, and otherwise gives the report that `ReportIs` spells out, for whole and fractional budgets |
| BudgetAllocator.RefusedExactly | packages/context/context-budget/src/allocate.ts:50-53 | Refused are a budget that is negative or not finite, a given weight of that kind, and a table that sets every source to zero |
| BudgetAllocator.ReportIs | packages/context/context-budget/src/allocate.ts:50-87 | The whole report in plain sums: sources are served by share and then by spelling; each gets its demand in whole tokens, or what is left of the whole-token shares up to its own and of all that flooring leaves over; spent and deficit add up |
| BudgetAllocator.NobodyGetsLessThanItsShare | packages/context/context-budget/src/allocate.ts:55-78 | Every source gets its whole demand or at least the floor of budget times share; the first in order at least that and the budget minus all those floors |
| BudgetAllocator.Demanded | packages/context/context-budget/src/allocate.ts:72-73 | A demand is floored; a missing, negative or non-finite one counts as none |
| BudgetAllocator.GrantsAreGreatest | packages/context/context-budget/src/allocate.ts:68-78 | For every prefix of the priority order no allocation bounded by demand and by cumulative allowances grants more in total |
| BudgetAllocator.GrantsArePermitted | packages/context/context-budget/src/allocate.ts:68-78 | The grants are such an allocation |
| BudgetAllocator.DeficitMeansNothingLeft | packages/context/context-budget/src/allocate.ts:68-78 | A source is cut only when nothing of the allowances up to it is left |
| BudgetAllocator.CascadeIsLeftover | packages/context/context-budget/src/allocate.ts:70-77 | What cascades is the allowances so far minus the grants so far, never negative |
| BudgetAllocator.AllowancesAreTheBudget | packages/context/context-budget/src/allocate.ts:55-67 | The allowances sum to the budget, none is negative, and flooring leaves at most one token a source; each one's size is in `ReportIs` |
| BudgetAllocator.PriorityOrder | packages/context/context-budget/src/allocate.ts:54 | The order lists every source once, by share and then by name |
| BudgetAllocator.NamesAreSpelled | packages/context/context-budget/src/allocate.ts:54 | Names of equal shares are in the order of their spelling |
| BudgetAllocator.SharesSumToOne | packages/context/context-budget/src/sources.ts:53-68 | Valid weights become shares that sum to one |
| BudgetAllocator.SharesAre | packages/context/context-budget/src/sources.ts:52-68 | A share is the given or else the default weight over the total of the seven |
| EndpointLabels.Disambiguate | packages/arena/arena-dimensions/src/provider-dimension-sync.ts:161-167 | The label loop ends for every set of taken labels with the first free suffixed form |
| EndpointLabels.FirstFreeIsUnique | packages/arena/arena-dimensions/src/provider-dimension-sync.ts:161-167 | The labels taken before leave one label for an endpoint |
| EndpointLabels.SyncModelOptions | packages/arena/arena-dimensions/src/provider-dimension-sync.ts:157-173 | One option per enabled endpoint in order, under pairwise distinct labels, each the first free form given the labels before it |
| EndpointLabels.FirstChoiceIs | packages/arena/arena-dimensions/src/provider-dimension-sync.ts:159-160 | The label chosen first is the endpoint's own if it says anything, otherwise its model, marked as current for the default endpoint |
| EndpointLabels.EnabledArePicked | packages/arena/arena-dimensions/src/provider-dimension-sync.ts:151 | The endpoints offered are the enabled ones, each once, in order |
| EndpointLabels.LongerHasFewer | packages/arena/arena-dimensions/src/provider-dimension-sync.ts:161-167 | A longer label has fewer taken labels of at least its length left to collide with |
| EndpointLabels.HandWrittenCollision | packages/arena/arena-dimensions/src/provider-dimension-sync.ts:162-167 | Whatever the label and the identifier: where another endpoint's disambiguated form was written by hand, that endpoint's label is its form disambiguated once more, and nothing else |

## Left out

- Splitting answers into units: the sentence patterns are not modelled; alignment and similarity take the units, cut to the first 400 as in the program.
- Unicode lowercasing: an arbitrary function of texts, held to ASCII only where a result is about case.
- Extractive checkpoint filling and the summarizer port: pattern extraction with nothing to prove beyond slicing.
- Floating-point rounding: weights, shares, densities, tokens and similarities are real numbers.
- Files that are missing, cannot be opened, or change while they are read: the tail reader works on one fixed byte sequence.
- JSON parsing and decoding: an arbitrary row parser on bytes, and characters for text; a newline byte occurs in no multi-byte character (section 3 of RFC 3629).
- The byte decoder of the event stream: chunks are characters, its final flush adds nothing.
- Code points outside the basic plane: a character stands for one UTF-16 code unit.
- RunProtocol: a receive timeout and the check of all workers behind it are one step, since the program runs nothing else between them; column slots, tail retention per column, the comparison report and teardown are not part of this model.
- AgentExecution: tools, delegation, memory, events' texts and stamps are not modelled; every call out of the execution is a value in `Surroundings` or `Attempt`.
- A batch that fails after some of its bytes reached the disk: a failed write leaves nothing.
- Aliasing of thread records: records are values in the registry's map, so a stale reference to a record cannot be expressed.
- Workspace pins, the execution ledger, debounced persistence and arena requests built from a thread: wiring around the registry.
- ThreadProtocol: an event carries its tool rounds as `ToolCapture` captures and `HistoryCaps` clamps them.
- Identifiers of threads: numbers handed out once each.
- Banner tests, announced actors and comparison of traces: `Texts` holds arbitrary tests for the first two.
- Serialization of tool arguments: the text, and whether it is that of a record, are given, and so is the text of a preview.
- Definition patterns of the code chunker: an arbitrary detector per line; fractional or not-a-number options are not represented.
- TextChunks.ChunkText: fractional or not-a-number options are not represented.
- Search scoring, router and baseline resolution, builder sessions, settings, HTTP clients, interface code: easy members or plumbing.
