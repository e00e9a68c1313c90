/**
 * The threaded `QueueManager`: an object whose fields are the manager's
 * dictionaries, sets and counter, updated in place by each public operation.
 * Each operation runs under the manager's lock, so each is one atomic method
 * here; its new state is the value the matching function of `QueueRegistry`
 * computes from the old one, and every method keeps `Valid()`.
 */
module Manager {
  import opened Wrappers
  import opened Models
  import opened Sorting
  import opened State
  import opened Threads
  import opened Operations
  import opened Summary
  import opened QueueRegistry

  class QueueManager {
    var messages: map<MessageId, Message>
    var order: seq<MessageId>
    var queues: map<string, seq<Entry>>
    var index: map<string, set<MessageId>>
    var metadata: Metadata
    var threadOrder: seq<string>
    var active: set<string>
    var counter: nat
    var nextId: MessageId

    /** The manager's fields as one `Registry` value. */
    function Snapshot(): Registry
      reads this
    {
      Registry(messages, order, queues, index, metadata, threadOrder, active, counter, nextId)
    }

    ghost predicate Valid()
      reads this
    {
      Inv(Snapshot())
    }

    /** `__init__`: no messages, queues, threads or active threads; the counter at 0. */
    constructor()
      ensures Valid() && Snapshot() == EmptyRegistry()
    {
      messages := map[];
      order := [];
      queues := map[];
      index := map[];
      metadata := map[];
      threadOrder := [];
      active := {};
      counter := 0;
      nextId := 0;
      new;
      EmptyRegistryInv();
    }

    /** Replaces every field by the matching component of `r`. */
    method Store(r: Registry)
      modifies this
      ensures Snapshot() == r
    {
      messages, order, nextId := r.messages, r.order, r.nextId;
      index, metadata, threadOrder := r.index, r.metadata, r.threadOrder;
      queues, counter, active := r.queues, r.counter, r.active;
    }

    /** `enqueue`: the created message is stored, registered with its thread and pushed onto its queue. */
    method Enqueue(userMessage: string, threadId: string, priority: Priority, now: nat) returns (m: Message)
      requires Valid()
      modifies this
      ensures Valid()
      ensures (Snapshot(), m) == EnqueueSpec(old(Snapshot()), userMessage, threadId, priority, now)
    {
      EnqueuePreservesInv(Snapshot(), userMessage, threadId, priority, now);
      var (after, created) := EnqueueSpec(Snapshot(), userMessage, threadId, priority, now);
      Store(after);
      m := created;
    }

    /** `dequeue`: pops the least entry of the thread's queue and hands out its message if it was QUEUED. */
    method Dequeue(threadId: string, now: nat) returns (m: Option<Message>)
      requires Valid()
      modifies this
      ensures Valid()
      ensures (Snapshot(), m) == DequeueSpec(old(Snapshot()), threadId, now)
    {
      DequeuePreservesInv(Snapshot(), threadId, now);
      var (after, popped) := DequeueSpec(Snapshot(), threadId, now);
      Store(after);
      m := popped;
    }

    /** `update_state`: a transition the table allows is applied; anything else changes nothing. */
    method UpdateState(id: MessageId, newState: MessageState, error: Option<string>, now: nat) returns (ok: bool)
      requires Valid()
      modifies this
      ensures Valid()
      ensures (Snapshot(), ok) == UpdateStateSpec(old(Snapshot()), id, newState, error, now)
    {
      UpdateStatePreservesInv(Snapshot(), id, newState, error, now);
      var (after, applied) := UpdateStateSpec(Snapshot(), id, newState, error, now);
      Store(after);
      ok := applied;
    }

    /** `get_message`. */
    method GetMessage(id: MessageId) returns (m: Option<Message>)
      ensures m.Some? <==> id in messages
      ensures m.Some? ==> m.value == messages[id]
    {
      m := if id in messages then Some(messages[id]) else None;
    }

    /** `cancel_message`: only a QUEUED message is cancelled. */
    method CancelMessage(id: MessageId, now: nat) returns (res: CancelResult)
      requires Valid()
      modifies this
      ensures Valid()
      ensures (Snapshot(), res) == CancelSpec(old(Snapshot()), id, now)
    {
      CancelPreservesInv(Snapshot(), id, now);
      var (after, outcome) := CancelSpec(Snapshot(), id, now);
      Store(after);
      res := outcome;
    }

    /** `set_result`. */
    method SetResult(id: MessageId, result: string) returns (ok: bool)
      requires Valid()
      modifies this
      ensures Valid()
      ensures (Snapshot(), ok) == SetResultSpec(old(Snapshot()), id, result)
    {
      ResultAndChunkPreserveInv(Snapshot(), id, result);
      var (after, done) := SetResultSpec(Snapshot(), id, result);
      Store(after);
      ok := done;
    }

    /** `add_chunk`. */
    method AddChunk(id: MessageId, chunk: string) returns (ok: bool)
      requires Valid()
      modifies this
      ensures Valid()
      ensures (Snapshot(), ok) == AddChunkSpec(old(Snapshot()), id, chunk)
    {
      ResultAndChunkPreserveInv(Snapshot(), id, chunk);
      var (after, done) := AddChunkSpec(Snapshot(), id, chunk);
      Store(after);
      ok := done;
    }

    /** `get_queue_position`: counts the QUEUED messages of every thread that are ahead. */
    method GetQueuePosition(id: MessageId) returns (pos: Option<nat>)
      requires Valid()
      ensures pos == QueuePosition(Snapshot(), id)
    {
      if id !in messages || messages[id].state != Queued {
        return None;
      }
      var m := messages[id];
      var n := CountHigherPriorityMessages(id, PriorityValue(m.priority), m.createdAt, Values(Snapshot()));
      pos := Some(n);
    }

    /** `get_queue_summary`: per-state totals, the sorted queued list and the message being processed. */
    method GetQueueSummary() returns (s: QueueSummary)
      requires Valid()
      ensures var ms := Values(Snapshot());
        && s.totalQueued == CountState(ms, Queued) && s.totalProcessing == CountState(ms, Processing)
        && s.totalCompleted == CountState(ms, Completed) && s.totalFailed == CountState(ms, Failed)
        && s.totalCancelled == CountState(ms, Cancelled)
        && Totals(s) == |order|
        && s.queuedMessages == BuildQueuedMessageList(ms)
        && s.currentProcessing == BuildCurrentProcessingMessage(ms)
    {
      s := BuildQueueSummary(Values(Snapshot()));
    }

    /** `has_messages`: heap emptiness of one thread, or whether any thread is active. */
    method HasMessages(threadId: Option<string>) returns (b: bool)
      ensures b == QueueRegistry.HasMessages(Snapshot(), threadId)
    {
      if Truthy(threadId) {
        b := threadId.value in queues && queues[threadId.value] != [];
      } else {
        b := active != {};
      }
    }

    /** `get_active_threads`: a copy of the active set, which covers every thread with entries. */
    method GetActiveThreads() returns (ts: set<string>)
      requires Valid()
      ensures ts == active
      ensures ts <= queues.Keys
      ensures forall t :: t in queues && queues[t] != [] ==> t in ts
    {
      ts := active;
    }

    /** `get_next_thread_with_messages`: some active thread, or `None` when none is active. */
    method GetNextThreadWithMessages() returns (t: Option<string>)
      ensures t.None? <==> active == {}
      ensures t.Some? ==> t.value in active
    {
      if active == {} {
        return None;
      }
      var x :| x in active;
      t := Some(x);
    }

    /** `get_thread_messages`. */
    method GetThreadMessages(threadId: string) returns (ms: seq<Message>)
      requires Valid()
      ensures ms == ThreadMessages(Snapshot(), threadId)
    {
      ms := ThreadMessages(Snapshot(), threadId);
    }

    /** `get_thread_metadata`: a copy of the thread's metadata, or `None` for an unknown thread. */
    method GetThreadMetadata(threadId: string) returns (md: Option<ThreadMetadata>)
      ensures md.Some? <==> threadId in metadata
      ensures md.Some? ==> md.value == metadata[threadId]
    {
      md := if threadId in metadata then Some(metadata[threadId]) else None;
    }

    /** `list_threads`: one summary per thread in metadata order, then sorted by last activity, latest first. */
    method ListThreads() returns (ss: seq<ThreadSummary>)
      requires Valid()
      ensures ss == ListThreadsSpec(Snapshot())
    {
      var summaries: seq<ThreadSummary> := [];
      var i := 0;
      while i < |threadOrder|
        invariant 0 <= i <= |threadOrder|
        invariant summaries == Summaries(Snapshot(), threadOrder[..i])
      {
        assert threadOrder[..i + 1] == threadOrder[..i] + [threadOrder[i]];
        summaries := summaries + [SummaryOf(Snapshot(), threadOrder[i])];
        i := i + 1;
      }
      assert threadOrder[..i] == threadOrder;
      ss := SortBy(summaries, ActivityKey);
    }
  }
}
