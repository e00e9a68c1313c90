# agent-q message queue, in Dafny

agent-q queues chat messages for an LLM agent. A client submits a message with a
priority (HIGH, NORMAL, LOW) and, in the threaded service, a thread id. The
queue manager stores it QUEUED and pushes an entry `(priority value, insertion
counter, id)` onto the thread's priority queue. A worker dequeues the least entry
and moves the message to PROCESSING. The agent streams chunks into it and then
completes or fails it; a QUEUED message can be cancelled instead. The manager
keeps per-thread metadata (message count, per-state counts, last activity) and
answers queries: queue position, queue summary, thread messages, thread list.
An SSE endpoint polls a message and turns its progress into events, and the
agent's conversation history for a threaded message is built from the
thread's earlier messages.

The project models:

- `wrappers.dfy`, `models.dfy` (module `Models`): the message, its states and
  priorities, the priority map, submit-request validation and SSE event framing
  with a parser that inverts it.
- `sorting.dfy`: the sorts the code uses (`list.sort` with a key).
- `state.dfy`, `threads.dfy`, `operations.dfy`, `summary.dfy`: the helper
  modules of the threaded queue package, as functions.
- `registry.dfy` (module `QueueRegistry`): the threaded manager's whole state as a
  value, one specification function per public operation, the invariant every
  operation keeps and the lemmas about each operation.
- `manager.dfy` (module `Manager`): the threaded `QueueManager` as a class whose
  fields are the manager's dictionaries and sets. Each method's new state is the
  matching `QueueRegistry` function of the old state.
- `scenarios.dfy`: concrete runs (priority order, FIFO, a cancelled or stale
  entry skipped, queue positions), stated on a small view of the registry.
- `legacy.dfy` (module `Legacy`): the older single-queue `QueueManager`, both as
  values with an invariant and as a class.
- `streaming.dfy` (module `Streaming`): the SSE generator as a state machine over
  polls, and as a class that reads the legacy manager.
- `history.dfy` (module `History`): `build_conversation_history`.

Modelling choices:

- Messages are values in a `map<MessageId, Message>`. Python dictionary order is
  kept as an explicit `order: seq<MessageId>`, because the code's results depend
  on it: the first PROCESSING message, and ties in stable sorts.
- Ids are natural numbers taken from a counter that stands in for `uuid4`.
- Clock readings are a `now: nat` parameter.
- A priority queue is the sequence of its entries in push order. `get` removes
  the entry that is least by (priority value, counter, id).

## Model

| member | source | states |
|---|---|---|
| `Models.PriorityValue` | src/shinzo/models/__init__.py:25-29 | every priority maps to a value between 1 and 3 |
| `Models.PriorityMapOrder` | src/shinzo/models/__init__.py:24-29 | HIGH < NORMAL < LOW, and the map is injective |
| `Models.NewQueuedMessage` | src/shinzo/models/__init__.py:32-44 | a new message is QUEUED, NORMAL, without thread, timestamps, result, error or chunks |
| `Models.ValidateSubmitRequest` | src/shinzo/models/__init__.py:50-54 | accepted exactly when the text has 1 to 10000 characters and the thread id at most 255; the priority defaults to NORMAL |
| `Models.CountBump` | src/shinzo/queue/threads.py:32 | adding one to a state's count adds one to the total and leaves the other counts |
| `Models.ZeroCounts` | src/shinzo/queue/threads.py:24 | the fresh counts have a key for each of the five states, all zero |
| `Models.Format` | src/shinzo/models/__init__.py:97-109 | the text ends in a blank line and starts with `event: ` exactly when the event name is non-empty, else with `data: ` |
| `Models.FormatParse` | src/shinzo/models/__init__.py:97-109 | parsing the formatted text gives back the event name (when non-empty) and the payload |
| `Sorting.SortBy` | src/shinzo/queue/manager.py:343 | the result is sorted by the key and is a permutation of the input |
| `Sorting.SortByStable` | src/shinzo/queue/manager.py:343 | the sort is stable: for every key, the elements with that key come out in their input order |
| `State.ValidTransitionsExactly` | src/shinzo/queue/state.py:13-22 | exactly QUEUED→PROCESSING, QUEUED→CANCELLED, PROCESSING→COMPLETED and PROCESSING→FAILED are allowed; no self-loop |
| `State.TerminalStatesAbsorb` | src/shinzo/queue/state.py:15-21 | nothing leaves COMPLETED, FAILED or CANCELLED, and nothing returns to QUEUED |
| `State.UpdateMessageTimestamps` | src/shinzo/queue/state.py:25-30 | PROCESSING stamps `started_at`, a terminal state stamps `completed_at`, QUEUED changes nothing |
| `State.ApplyStateChange` | src/shinzo/queue/state.py:33-67 | always succeeds; sets the state, stamps the time, records the error only for FAILED with a non-empty error, and calls the counts callback with old and new state |
| `State.ApplyStateChangeKeepsContent` | src/shinzo/queue/state.py:53-60 | id, text, priority, thread, creation time, result and chunks are unchanged |
| `Threads.InitializeOrUpdateThreadMetadata` | src/shinzo/queue/threads.py:10-32 | the message's id joins the thread's index; the message count and the count of its state grow by one; last activity becomes its creation time; a new thread gets zeroed counts, its creation time, and a place at the end of the thread order; other threads unchanged |
| `Threads.FirstMessageMetadata` | src/shinzo/queue/threads.py:17-32 | a thread's first message gives count 1, one QUEUED, and created and last activity at its creation time |
| `Threads.UpdateThreadStateCounts` | src/shinzo/queue/threads.py:35-53 | no-op without a (non-empty) thread id or metadata; otherwise the old state's count drops by one but not below 0, the new state's count grows by one, and last activity is stamped |
| `Threads.MoveKeepsTotal` | src/shinzo/queue/threads.py:49-52 | moving a count between two states keeps the thread's total |
| `Threads.LatestIndex` | src/shinzo/queue/threads.py:104 | the index of the first message with the greatest creation time |
| `Threads.Preview` | src/shinzo/queue/threads.py:105-107 | text of at most 100 characters is kept; longer text becomes its first 97 characters and `...` |
| `Threads.ExtractLastMessagePreview` | src/shinzo/queue/threads.py:99-108 | `None` exactly for no messages; otherwise the preview of a latest message |
| `Operations.CreateMessage` | src/shinzo/queue/operations.py:14-23 | a QUEUED message with the given text, priority and thread, and nothing else set |
| `Operations.EnsureThreadResources` | src/shinzo/queue/operations.py:26-34 | the thread gets an empty queue if it had none; existing queues are untouched |
| `Operations.EnsureThreadResourcesIdempotent` | src/shinzo/queue/operations.py:32-34 | doing it twice is doing it once |
| `Operations.AddMessageToQueue` | src/shinzo/queue/operations.py:37-54 | the entry (priority value, counter, id) joins that thread's queue only; the counter grows by one |
| `Operations.MinIndex` | src/shinzo/queue/manager.py:106 | an index of an entry no greater than any other |
| `Operations.RemoveAt` | src/shinzo/queue/manager.py:106 | the sequence without that one entry, order kept |
| `Operations.PopMin` | src/shinzo/queue/manager.py:106 | the popped entry is in the queue, no greater than any remaining one, and the rest is the queue minus that entry |
| `Operations.DiscardIfEmpty` | src/shinzo/queue/operations.py:115-116 | the thread leaves the active set exactly when its queue is empty |
| `Operations.HandleValidDequeuedMessage` | src/shinzo/queue/operations.py:101-119 | the message becomes PROCESSING with `started_at` stamped, the counts callback sees QUEUED→PROCESSING, and the thread is discarded when its queue is empty |
| `Operations.HandleCancelledMessage` | src/shinzo/queue/operations.py:122-134 | the thread is active afterwards exactly when it was active and its queue is not empty; every other thread keeps its membership |
| `Operations.ProcessDequeuedMessage` | src/shinzo/queue/operations.py:77-98 | a QUEUED message is started and returned; a CANCELLED one is skipped with `None`; anything else returns `None` and changes nothing |
| `Summary.CountHigherPriorityMessages` | src/shinzo/queue/summary.py:18-33 | the loop's count equals the number of other QUEUED messages with a smaller priority value, or an equal one and an earlier creation time |
| `Summary.CountAheadBounded` | src/shinzo/queue/summary.py:18-33 | the position never exceeds the number of other QUEUED messages |
| `Summary.CountAheadOnlyQueued` | src/shinzo/queue/summary.py:26-27 | only QUEUED messages affect the position |
| `Summary.QueuedOnly` | src/shinzo/queue/summary.py:46-50 | exactly the QUEUED messages, no more of them than the input has |
| `Summary.CountStatesSum` | src/shinzo/queue/summary.py:36-41 | the five state counts add up to the number of messages |
| `Summary.CountMessagesByState` | src/shinzo/queue/summary.py:36-41 | a key per state; each count is the number of messages in that state; the total is the number of messages |
| `Summary.Truncate` | src/shinzo/queue/summary.py:67 | a prefix of at most n characters; the text itself when it is short enough |
| `Summary.BuildQueuedMessageDict` | src/shinzo/queue/summary.py:61-68 | id, priority and creation time of the message, its text cut to 100 characters |
| `Summary.BuildProcessingMessageDict` | src/shinzo/queue/summary.py:81-88 | id, priority and start time of the message, its text cut to 100 characters |
| `Summary.QueuedDicts` | src/shinzo/queue/summary.py:46-50 | one dictionary per message, in order |
| `Summary.QueuedDictsMembers` | src/shinzo/queue/summary.py:44-50 | the dictionaries are exactly those of the QUEUED messages, with texts of at most 100 characters |
| `Summary.BuildQueuedMessageList` | src/shinzo/queue/summary.py:44-58 | sorted by (priority value, creation time), a permutation of the QUEUED messages' dictionaries, one per QUEUED message; dictionaries with equal keys keep the table's order |
| `Summary.BuildCurrentProcessingMessage` | src/shinzo/queue/summary.py:71-78 | `None` exactly when no message is PROCESSING; otherwise the dictionary of the first PROCESSING message in table order |
| `Summary.BuildQueueSummary` | src/shinzo/queue/manager.py:246-266 | the totals are the state counts and add up to the number of messages; the queued list and the current message are as above |
| `QueueRegistry.EmptyRegistryInv` | src/shinzo/queue/manager.py:29-50 | the empty manager satisfies the invariant |
| `QueueRegistry.EnqueueEffect` | src/shinzo/queue/manager.py:56-88 | the new QUEUED message is stored under an unused id, its entry goes last on its thread's queue with the old counter, the counter grows, and the thread is active and indexed |
| `QueueRegistry.NextIdUnused` | src/shinzo/queue/manager.py:74 | the next id names no stored message and is in no thread index |
| `QueueRegistry.EnqueuePreservesInv` | src/shinzo/queue/manager.py:56-88 | enqueue keeps the invariant: per thread, the state counts sum to the message count, which is the size of the thread's index, and (for non-empty thread ids) each state's count is the number of the thread's messages in that state; each message is filed under its own thread; every QUEUED message has an entry on its thread's queue; entries are in push order and carry the priority of a message of the thread; every thread with a non-empty queue is active |
| `QueueRegistry.DequeueEdgeCases` | src/shinzo/queue/manager.py:100-119 | an unknown thread gives `None` and no change; an empty queue gives `None` and deactivates the thread |
| `QueueRegistry.PopMinLeast` | src/shinzo/queue/operations.py:50-53 | with increasing counters in push order, the popped entry precedes every remaining one by priority, then by insertion |
| `QueueRegistry.DequeueTakesLeast` | src/shinzo/queue/manager.py:90-119 | the least entry is popped; a QUEUED message becomes PROCESSING and is returned, a CANCELLED one is skipped, and the thread stays active exactly when entries remain; any other state returns `None` and changes nothing |
| `QueueRegistry.DequeuePreservesInv` | src/shinzo/queue/manager.py:90-119 | dequeue keeps the invariant |
| `QueueRegistry.DequeueIsolation` | src/shinzo/queue/manager.py:101-115 | a dequeue leaves every other thread's queue unchanged |
| `QueueRegistry.EnqueueIsolation` | src/shinzo/queue/manager.py:79-84 | an enqueue leaves every other thread's queue unchanged |
| `QueueRegistry.UpdateStateEffect` | src/shinzo/queue/manager.py:121-150 | succeeds exactly for a known message and an allowed transition; on failure nothing changes; otherwise that message's lifecycle fields change as `apply_state_change` says, the thread metadata changes as `update_thread_state_counts` says (one count moves, the last activity becomes `now`), and nothing else changes |
| `QueueRegistry.UpdateStatePreservesInv` | src/shinzo/queue/manager.py:121-150 | update_state keeps the invariant |
| `QueueRegistry.CancelEffect` | src/shinzo/queue/manager.py:165-188 | succeeds exactly for a QUEUED message, then without error text, the message CANCELLED with `completed_at` stamped, and the metadata as `update_thread_state_counts` leaves it for QUEUED to CANCELLED; nothing else changes; otherwise no change and the error says "Message not found" or names the state |
| `QueueRegistry.CancelPreservesInv` | src/shinzo/queue/manager.py:165-188 | cancel keeps the invariant |
| `QueueRegistry.ResultAndChunkEffect` | src/shinzo/queue/manager.py:190-224 | both fail exactly for an unknown id and then change nothing; a chunk goes last, keeping the earlier ones; a result replaces the old one |
| `QueueRegistry.ResultAndChunkPreserveInv` | src/shinzo/queue/manager.py:190-224 | set_result and add_chunk keep the invariant |
| `QueueRegistry.QueuePosition` | src/shinzo/queue/manager.py:226-244 | `None` exactly for an unknown or non-QUEUED message; otherwise the count of QUEUED messages ahead of it |
| `QueueRegistry.HasMessagesSound` | src/shinzo/queue/manager.py:286-299 | a thread with entries makes both forms of has_messages true |
| `QueueRegistry.Select` | src/shinzo/queue/manager.py:337-341 | the stored messages whose ids are in the set, in table order |
| `QueueRegistry.ThreadMessages` | src/shinzo/queue/manager.py:322-344 | sorted by creation time; exactly the thread's stored messages, each once (no repeats, one element per indexed id that is stored); empty for an unknown thread |
| `QueueRegistry.SelectExact` | src/shinzo/queue/manager.py:337-341 | from a table order without repeats, each chosen message is picked once and nothing is repeated |
| `QueueRegistry.EnqueueListed` | src/shinzo/queue/manager.py:322-344 | an enqueued message is among its thread's messages afterwards |
| `QueueRegistry.SummaryOf` | src/shinzo/queue/manager.py:372-389 | the thread's id, count, creation time and last activity from its metadata, and the preview of its latest message |
| `QueueRegistry.ActivityKeyDescending` | src/shinzo/queue/manager.py:391 | sorted by the key means latest activity first |
| `QueueRegistry.Summaries` | src/shinzo/queue/manager.py:370-389 | one summary per thread, in order |
| `QueueRegistry.SummariesCover` | src/shinzo/queue/manager.py:362-392 | every thread with metadata is listed, and only those |
| `QueueRegistry.SummariesOfThreads` | src/shinzo/queue/manager.py:362-392 | every listed summary is that thread's own summary |
| `QueueRegistry.ListThreadsSpec` | src/shinzo/queue/manager.py:362-392 | one summary per thread, latest activity first, each thread's own; threads with equal activity keep the metadata's order |
| `Manager.QueueManager.constructor` | src/shinzo/queue/manager.py:29-50 | a manager with nothing stored, satisfying the invariant |
| `Manager.QueueManager.Enqueue` | src/shinzo/queue/manager.py:56-88 | the new state and message are those of `EnqueueSpec`; the invariant is kept |
| `Manager.QueueManager.Dequeue` | src/shinzo/queue/manager.py:90-119 | the new state and result are those of `DequeueSpec`; the invariant is kept |
| `Manager.QueueManager.UpdateState` | src/shinzo/queue/manager.py:121-150 | as `UpdateStateSpec`; the invariant is kept |
| `Manager.QueueManager.GetMessage` | src/shinzo/queue/manager.py:152-163 | the stored message, or `None` exactly for an unknown id |
| `Manager.QueueManager.CancelMessage` | src/shinzo/queue/manager.py:165-188 | as `CancelSpec`; the invariant is kept |
| `Manager.QueueManager.SetResult` | src/shinzo/queue/manager.py:190-206 | as `SetResultSpec`; the invariant is kept |
| `Manager.QueueManager.AddChunk` | src/shinzo/queue/manager.py:208-224 | as `AddChunkSpec`; the invariant is kept |
| `Manager.QueueManager.GetQueuePosition` | src/shinzo/queue/manager.py:226-244 | the position `QueuePosition` defines |
| `Manager.QueueManager.GetQueueSummary` | src/shinzo/queue/manager.py:246-266 | the state totals of the table, summing to its size, the sorted queued list and the first PROCESSING message |
| `Manager.QueueManager.HasMessages` | src/shinzo/queue/manager.py:286-299 | for a thread id, whether its queue holds entries; otherwise whether any thread is active |
| `Manager.QueueManager.GetActiveThreads` | src/shinzo/queue/manager.py:301-308 | the active set, which holds every thread whose queue has entries |
| `Manager.QueueManager.GetNextThreadWithMessages` | src/shinzo/queue/manager.py:310-320 | `None` exactly when no thread is active, else an active thread |
| `Manager.QueueManager.GetThreadMessages` | src/shinzo/queue/manager.py:322-344 | the thread's messages as `ThreadMessages` defines |
| `Manager.QueueManager.GetThreadMetadata` | src/shinzo/queue/manager.py:346-360 | the thread's metadata, or `None` exactly for an unknown thread |
| `Manager.QueueManager.ListThreads` | src/shinzo/queue/manager.py:362-392 | the loop builds the per-thread summaries, then sorts them as `ListThreadsSpec` defines |
| `Scenarios.EnqueueCommutes` | src/shinzo/queue/manager.py:56-88 | enqueue on the full state and on the view agree |
| `Scenarios.DequeueCommutes` | src/shinzo/queue/manager.py:90-119 | dequeue on the full state and on the view agree |
| `Scenarios.UpdateStateCommutes` | src/shinzo/queue/manager.py:121-150 | update_state on the full state and on the view agree |
| `Scenarios.CancelCommutes` | src/shinzo/queue/manager.py:165-188 | cancel on the full state and on the view agree |
| `Scenarios.PriorityOrderScenario` | src/shinzo/queue/manager.py:56-119 | a HIGH message enqueued after a LOW one on the same thread is dequeued first |
| `Scenarios.FifoScenario` | src/shinzo/queue/manager.py:56-119 | two NORMAL messages on a thread are dequeued in the order they were enqueued |
| `Scenarios.CancelledSkippedScenario` | src/shinzo/queue/operations.py:94-95 | a cancelled message's entry is skipped with `None`, the next message comes out, and the cancelled one stays CANCELLED |
| `Scenarios.StaleEntryScenario` | src/shinzo/queue/operations.py:96-98 | a message already PROCESSING leaves a stale entry: its dequeue returns `None` and keeps the thread active with an empty queue; the next dequeue deactivates it |
| `Scenarios.PositionScenario` | src/shinzo/queue/summary.py:18-33 | a NORMAL message alone is at position 0, and at position 1 after a HIGH one on another thread arrives |
| `Legacy.EmptySingleInv` | app/queue_manager.py:21-35 | the empty legacy manager satisfies its invariant |
| `Legacy.EnqueueEffect` | app/queue_manager.py:37-75 | the new QUEUED message with the given priority is stored under an unused id, its entry goes last with the old counter, and the counter grows |
| `Legacy.EnqueuePreservesInv` | app/queue_manager.py:37-75 | enqueue keeps the invariant: every QUEUED message has an entry, entries name stored messages with their priority value |
| `Legacy.DequeueTakesLeast` | app/queue_manager.py:77-107 | the least entry is popped; a QUEUED message becomes PROCESSING and is returned; anything else gives `None` and changes no message |
| `Legacy.DequeuePreservesInv` | app/queue_manager.py:77-107 | dequeue keeps the invariant |
| `Legacy.UpdateStateEffect` | app/queue_manager.py:109-169 | succeeds exactly for a known message and an allowed transition; only that message's lifecycle fields change |
| `Legacy.UpdateStatePreservesInv` | app/queue_manager.py:109-169 | update_state keeps the invariant |
| `Legacy.CancelEffect` | app/queue_manager.py:184-209 | succeeds exactly for a QUEUED message, which keeps its queue entry; otherwise no change and the error names the reason |
| `Legacy.CancelPreservesInv` | app/queue_manager.py:184-209 | cancel keeps the invariant |
| `Legacy.ResultAndChunkEffect` | app/queue_manager.py:211-249 | both fail exactly for an unknown id and change nothing then; a chunk goes last, a result replaces the old one, and the queue is untouched |
| `Legacy.ResultAndChunkPreserveInv` | app/queue_manager.py:211-249 | set_result and add_chunk keep the invariant |
| `Legacy.QueuePosition` | app/queue_manager.py:251-281 | `None` exactly for an unknown or non-QUEUED message; otherwise at most the number of other QUEUED messages |
| `Legacy.HasMessagesSound` | app/queue_manager.py:346-348 | a stored QUEUED message means the queue is not empty |
| `Legacy.ThreeEnqueues` | app/queue_manager.py:37-75 | three enqueues on an empty manager give ids 0, 1, 2 and three entries in push order |
| `Legacy.PriorityOrderScenario` | app/queue_manager.py:77-107 | LOW, HIGH, NORMAL enqueued come out HIGH, NORMAL, LOW, each PROCESSING, and the queue ends empty |
| `Legacy.FifoScenario` | app/queue_manager.py:37-75 | three NORMAL entries are popped in enqueue order |
| `Legacy.CancelledSkippedScenario` | app/queue_manager.py:98-101 | after cancelling the first of two messages the first dequeue gives `None`, the second gives the other message, and the cancelled one stays CANCELLED |
| `Legacy.LegacyQueueManager.constructor` | app/queue_manager.py:21-35 | an empty manager satisfying the invariant |
| `Legacy.LegacyQueueManager.Enqueue` | app/queue_manager.py:37-75 | as `EnqueueSpec`; the invariant is kept |
| `Legacy.LegacyQueueManager.Dequeue` | app/queue_manager.py:77-107 | as `DequeueSpec`; the invariant is kept |
| `Legacy.LegacyQueueManager.UpdateState` | app/queue_manager.py:109-169 | as `UpdateStateSpec`; the invariant is kept |
| `Legacy.LegacyQueueManager.GetMessage` | app/queue_manager.py:171-182 | the stored message, or `None` exactly for an unknown id |
| `Legacy.LegacyQueueManager.CancelMessage` | app/queue_manager.py:184-209 | the (success, error) pair of `CancelSpec`; the invariant is kept |
| `Legacy.LegacyQueueManager.SetResult` | app/queue_manager.py:211-229 | as `SetResultSpec`; the invariant is kept |
| `Legacy.LegacyQueueManager.AddChunk` | app/queue_manager.py:231-249 | as `AddChunkSpec`; the invariant is kept |
| `Legacy.LegacyQueueManager.GetQueuePosition` | app/queue_manager.py:251-281 | the loop's count equals the number of QUEUED messages ahead, as `QueuePosition` defines |
| `Legacy.LegacyQueueManager.GetQueueSummary` | app/queue_manager.py:283-339 | the state totals, summing to the table size, the sorted queued list and the first PROCESSING message |
| `Legacy.LegacyQueueManager.HasMessages` | app/queue_manager.py:346-348 | whether the queue holds entries, which it does when some message is QUEUED |
| `Streaming.ChunkEvents` | app/api/streaming.py:90-99 | one chunk event per index from the cursor to the end, in order, with that chunk's text |
| `Streaming.PollCursor` | app/api/streaming.py:56-166 | a poll never moves the cursor back and only moves it to the length of the chunk list it saw; an ended stream stays as it is |
| `Streaming.PollEvents` | app/api/streaming.py:58-161 | the events of a poll by state: lost message, waiting with the position, new chunks, chunks then done with the result or "", failed with the error or "Unknown error", cancelled |
| `Streaming.KeepaliveRule` | app/api/streaming.py:83-84 | a keepalive comes exactly when a QUEUED or PROCESSING poll has been idle for the interval; it comes last and resets the counter |
| `Streaming.RunEnded` | app/api/streaming.py:133 | once the generator has returned, further polls yield nothing |
| `Streaming.PollTerminalLast` | app/api/streaming.py:58-161 | a terminal event is the last event of its poll, and that poll ends the stream |
| `Streaming.RunTerminalLast` | app/api/streaming.py:57-161 | over any run of polls a terminal event can only be the very last event, and the stream has then ended |
| `Streaming.RunCursor` | app/api/streaming.py:88-101 | when chunks are only appended, the cursor never moves back and never passes the end of the chunk list |
| `Streaming.StreamTerminalLast` | app/api/streaming.py:36-66 | a missing manager or message gives one error event and ends the stream; otherwise the loop starts silently at cursor 0; the whole stream has a terminal event only as its very last event |
| `Streaming.ChunksAppend` | app/api/streaming.py:90-99 | the chunk events of two event lists joined are their chunk events joined |
| `Streaming.PollChunks` | app/api/streaming.py:86-121 | one poll's chunk events are the next slice of the growing chunk list, and the cursor moves past them |
| `Streaming.RunChunksInOrder` | app/api/streaming.py:86-121 | when chunks are only appended, the chunk events of any run are the chunks from the starting cursor on, each index once and in order |
| `Streaming.SseStream.constructor` | app/api/streaming.py:53-54 | a stream for the id, not yet started, with cursor and counter at 0 |
| `Streaming.SseStream.Open` | app/api/streaming.py:36-51 | the opening check as `OpenSpec` defines, reading the manager without changing it |
| `Streaming.SseStream.SendChunks` | app/api/streaming.py:90-99 | the loop's events are the chunk events from the cursor on |
| `Streaming.SseStream.Poll` | app/api/streaming.py:57-166 | one pass of the loop as `PollSpec` defines, given the manager's message and queue position, reading the manager without changing it |
| `History.TurnsOf` | src/shinzo/agent/history.py:40-45 | a user turn with the message's text, then an assistant turn with the result exactly when it completed with a non-empty result |
| `History.HistoryOf` | src/shinzo/agent/history.py:13-53 | the last turn is the current message's user turn; without a (non-empty) thread id it is the only one |
| `History.Others` | src/shinzo/agent/history.py:35-37 | the thread's messages other than the current one |
| `History.PriorSkipsCurrent` | src/shinzo/agent/history.py:34-45 | the loop's turns are the transcript of the thread's other messages, in order |
| `History.TranscriptRoles` | src/shinzo/agent/history.py:39-45 | a transcript has one user turn per message and one assistant turn per answered message |
| `History.TranscriptAlternates` | src/shinzo/agent/history.py:39-45 | every assistant turn follows a user turn and is not empty |
| `History.OthersOfForeign` | src/shinzo/agent/history.py:35-37 | when the current message is not among them, all of the thread's messages are kept |
| `History.ThreadHistory` | src/shinzo/agent/history.py:28-48 | on a thread: the transcript of the other messages then the current turn; its length and per-role counts |
| `History.HistoryAlternates` | src/shinzo/agent/history.py:13-53 | the history starts with a user turn, and each assistant turn answers the user turn just before it |
| `History.PriorTurns` | src/shinzo/agent/history.py:34-45 | the loop's turns are those `Prior` defines |
| `History.BuildConversationHistory` | src/shinzo/agent/history.py:13-53 | the history of the message given the thread's messages from the manager |

## Left out

- Locks, `asyncio` events and waiting (`wait_for_messages`, `wait_for_specific_thread`, `wait_for_any_thread`, `ensure_thread_event`, `signal_thread_message_available`): each locked operation is one atomic step here. Waiting needs a scheduler.
- Logging (`log_message_enqueued` and the logger calls): no effect on state.
- The race in the threaded `dequeue`: the queue is read outside the lock and processed under it. The model takes the whole dequeue as one step.
- The legacy `dequeue` awaits a blocking `get`, so its `QueueEmpty` branch is unreachable. Calling it on an empty queue waits, which is the precondition `queue != []` of `Legacy.DequeueSpec` and `Legacy.LegacyQueueManager.Dequeue`.
- The helpers of `state.py`, `threads.py` and `operations.py` update their arguments (the message, the index sets, the metadata, the active set) in place. Here they return the updated values, and the manager's methods store them.
- In-place mutation of message objects and aliasing: a caller holding a message sees later changes. Here messages are values in the table.
- Timestamps are natural numbers. `datetime.utcnow()` is the `now` parameter, and isoformat strings are the numbers themselves.
- `json.dumps` of the SSE payload is an opaque string: `Models.Format` and `Models.FormatParse` assume it has no newline, which JSON guarantees.
- Python set iteration order (`get_thread_messages`, `list_threads`, `get_next_thread_with_messages`) is not determined. The model visits ids in table order before the stable sort, and picks any active thread.
- `list_threads` sorts with `reverse=True`, which keeps ties in their input order. The model sorts stably ascending on the negated activity time, which gives the same order.
- Thread id `""`: `update_thread_state_counts` returns early on an empty thread id. The per-state counts of thread `""` therefore keep their enqueue-time values, and the invariant ties counts to states only for non-empty thread ids.
- The cancel error text renders the state as `f"{message.state}"` does on Python 3.11 and later (`MessageState.QUEUED`).
- The SSE sleeps are counted in half-second ticks (`asyncio.sleep(2.0)` is 4 ticks, `0.5` is 1). The keepalive threshold is `2 * interval` ticks; `settings.keepalive_interval` is the parameter `interval`, 30 by default.
- The stream route (`stream_message`), `CancelledError` re-raising and the generic exception branch of `generate_sse_events` are not modelled: the model raises nothing.
- The stream uses the legacy manager, whose `app/models.py` is not part of this model. The message, state and priority types of `src/shinzo/models/__init__.py` stand in for it.
- The worker, agent and LLM code: only the queue, the stream and the history it feeds them are modelled.
- `Legacy.QueuePosition`: its contract states the `None` cases and the bound by the number of other QUEUED messages. The exact count is its definition (`CountAhead`), against which `Legacy.LegacyQueueManager.GetQueuePosition`'s loop is proved.
- `Legacy.FifoScenario`: stated on the popped entries rather than through three full dequeues, to keep the proof small.
- The threaded scenarios (`scenarios.dfy`) run on a view without metadata. The `Commutes` lemmas link the view to the full state.
- `ThreadMetadata` deep copies (`model_copy`) are values here.
