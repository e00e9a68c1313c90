/**
 * The enqueue and dequeue helpers of the threaded queue manager: creating a
 * message, creating a thread's queue on first use, pushing a
 * `(priority value, insertion counter, id)` entry, popping the least entry,
 * and deciding what a popped entry means for its message and for the set of
 * active threads.
 *
 * A thread's `asyncio.PriorityQueue` is modelled as the bag of its entries (a
 * sequence in push order); popping removes the least entry in tuple order,
 * which is what the heap returns.
 */
module Operations {
  import opened Wrappers
  import opened Models

  datatype Entry = Entry(prio: nat, order: nat, id: MessageId)

  /** Python tuple order on `(prio, seq, id)`. */
  predicate EntryLe(a: Entry, b: Entry) {
    a.prio < b.prio || (a.prio == b.prio && (a.order < b.order || (a.order == b.order && a.id <= b.id)))
  }

  /** `create_message`: a QUEUED message carrying the given text, priority and thread. */
  function CreateMessage(id: MessageId, userMessage: string, threadId: string, priority: Priority, now: nat)
    : (m: Message)
    ensures m.id == id && m.createdAt == now
    ensures m.state == Queued
    ensures m.userMessage == userMessage && m.priority == priority && m.threadId == Some(threadId)
    ensures m.startedAt == None && m.completedAt == None && m.result == None && m.error == None && m.chunks == []
  {
    NewQueuedMessage(id, userMessage, now).(priority := priority, threadId := Some(threadId))
  }

  /** `ensure_thread_resources`: a thread with no queue gets an empty one; an existing queue is kept. */
  function EnsureThreadResources(threadId: string, queues: map<string, seq<Entry>>)
    : (r: map<string, seq<Entry>>)
    ensures r.Keys == queues.Keys + {threadId}
    ensures forall t :: t in queues ==> r[t] == queues[t]
    ensures threadId !in queues ==> r[threadId] == []
  {
    if threadId in queues then queues else queues[threadId := []]
  }

  /** Making sure twice is making sure once. */
  lemma EnsureThreadResourcesIdempotent(threadId: string, queues: map<string, seq<Entry>>)
    ensures EnsureThreadResources(threadId, EnsureThreadResources(threadId, queues)) == EnsureThreadResources(threadId, queues)
  {
  }

  /**
   * `add_message_to_queue`: pushes `(PRIORITY_MAP[priority], counter, id)` onto
   * the thread's queue and returns the next counter value.
   */
  function AddMessageToQueue(
    threadId: string, priority: Priority, id: MessageId, queues: map<string, seq<Entry>>, counter: nat)
    : (r: (map<string, seq<Entry>>, nat))
    requires threadId in queues
    ensures r.1 == counter + 1
    ensures r.0.Keys == queues.Keys
    ensures r.0[threadId] == queues[threadId] + [Entry(PriorityValue(priority), counter, id)]
    ensures forall t :: t in queues && t != threadId ==> r.0[t] == queues[t]
  {
    (queues[threadId := queues[threadId] + [Entry(PriorityValue(priority), counter, id)]], counter + 1)
  }

  /** The position of the least entry: the one the heap hands out next. */
  function MinIndex(q: seq<Entry>): (i: nat)
    requires |q| > 0
    ensures i < |q|
    ensures forall j :: 0 <= j < |q| ==> EntryLe(q[i], q[j])
  {
    if |q| == 1 then 0
    else
      var k := MinIndex(q[1..]) + 1;
      if EntryLe(q[0], q[k]) then 0 else k
  }

  function RemoveAt(q: seq<Entry>, i: nat): (r: seq<Entry>)
    requires i < |q|
    ensures |r| == |q| - 1
    ensures multiset(r) + multiset{q[i]} == multiset(q)
    ensures forall j :: 0 <= j < |r| ==> r[j] == if j < i then q[j] else q[j + 1]
  {
    assert q == q[..i] + [q[i]] + q[i + 1..];
    q[..i] + q[i + 1..]
  }

  datatype Popped = Popped(entry: Entry, rest: seq<Entry>)

  /** `get_nowait()` on a non-empty queue: the least entry and what remains. */
  function PopMin(q: seq<Entry>): (r: Popped)
    requires q != []
    ensures r.entry in q
    ensures multiset(r.rest) + multiset{r.entry} == multiset(q)
    ensures forall j :: 0 <= j < |r.rest| ==> EntryLe(r.entry, r.rest[j])
    ensures |r.rest| == |q| - 1
  {
    var i := MinIndex(q);
    Popped(q[i], RemoveAt(q, i))
  }

  /** What handling a popped entry leaves behind, and the message it hands to the caller. */
  datatype Processed<C> = Processed(
    messages: map<MessageId, Message>,
    active: set<string>,
    counts: C,
    result: Option<Message>)

  /** The thread stays active unless its queue is now empty. */
  function DiscardIfEmpty(threadId: string, threadQueue: seq<Entry>, active: set<string>): (r: set<string>)
    ensures threadQueue == [] ==> r == active - {threadId}
    ensures threadQueue != [] ==> r == active
  {
    if threadQueue == [] then active - {threadId} else active
  }

  /**
   * `handle_valid_dequeued_message`: the message becomes PROCESSING with
   * `startedAt` stamped, the count callback moves one count from QUEUED to
   * PROCESSING, and the thread leaves the active set if its queue is empty.
   */
  function HandleValidDequeuedMessage<C>(
    threadId: string, threadQueue: seq<Entry>, m: Message, active: set<string>,
    counts: C, update: (C, Message, MessageState, MessageState) -> C, now: nat)
    : (r: (Message, set<string>, C))
    ensures r.0 == m.(state := Processing, startedAt := Some(now))
    ensures r.1 == DiscardIfEmpty(threadId, threadQueue, active)
    ensures r.2 == update(counts, r.0, Queued, Processing)
  {
    var started := m.(state := Processing, startedAt := Some(now));
    (started, DiscardIfEmpty(threadId, threadQueue, active), update(counts, started, Queued, Processing))
  }

  /** `handle_cancelled_message`: the entry is dropped; only the active set may change. */
  function HandleCancelledMessage(threadId: string, threadQueue: seq<Entry>, active: set<string>)
    : (r: set<string>)
    ensures r <= active
    ensures threadId in r <==> threadId in active && threadQueue != []
    ensures forall t :: t != threadId ==> (t in r <==> t in active)
  {
    DiscardIfEmpty(threadId, threadQueue, active)
  }

  /**
   * `process_dequeued_message` on the id of the entry just popped, with
   * `threadQueue` what remains of the thread's queue.
   */
  function ProcessDequeuedMessage<C>(
    threadId: string, threadQueue: seq<Entry>, id: MessageId,
    messages: map<MessageId, Message>, active: set<string>,
    counts: C, update: (C, Message, MessageState, MessageState) -> C, now: nat)
    : (r: Processed<C>)
    ensures id in messages && messages[id].state == Queued ==>
      var started := messages[id].(state := Processing, startedAt := Some(now));
      && r.result == Some(started)
      && r.messages == messages[id := started]
      && r.counts == update(counts, started, Queued, Processing)
      && r.active == DiscardIfEmpty(threadId, threadQueue, active)
    ensures id in messages && messages[id].state == Cancelled ==>
      r == Processed(messages, DiscardIfEmpty(threadId, threadQueue, active), counts, None)
    ensures !(id in messages && messages[id].state in {Queued, Cancelled}) ==>
      r == Processed(messages, active, counts, None)
  {
    if id in messages && messages[id].state == Queued then
      var handled := HandleValidDequeuedMessage(threadId, threadQueue, messages[id], active, counts, update, now);
      Processed(messages[id := handled.0], handled.1, handled.2, Some(handled.0))
    else if id in messages && messages[id].state == Cancelled then
      Processed(messages, HandleCancelledMessage(threadId, threadQueue, active), counts, None)
    else
      Processed(messages, active, counts, None)
  }
}
