/**
 * The queue-facing part of the threaded manager, without its thread
 * bookkeeping: the message table, its insertion order, the per-thread queues,
 * the active set and the two counters. The thread index and metadata are only
 * written through the count callback and `initialize_or_update_thread_metadata`,
 * so they never influence what the queue-facing part becomes or what an
 * operation returns; the commutation lemmas below state this, and the runs at
 * the end are stated on the view.
 */
module Scenarios {
  import opened Wrappers
  import opened Models
  import opened State
  import opened Threads
  import opened Operations
  import opened Summary
  import opened QueueRegistry

  datatype View = View(
    messages: map<MessageId, Message>,
    order: seq<MessageId>,
    queues: map<string, seq<Entry>>,
    active: set<string>,
    counter: nat,
    nextId: MessageId)

  function ViewOf(r: Registry): View {
    View(r.messages, r.order, r.queues, r.active, r.counter, r.nextId)
  }

  /** `enqueue` on the view: store, queue and activate. */
  function EnqueueView(v: View, userMessage: string, threadId: string, priority: Priority, now: nat): (View, Message) {
    var m := CreateMessage(v.nextId, userMessage, threadId, priority, now);
    var pushed := AddMessageToQueue(threadId, priority, m.id, EnsureThreadResources(threadId, v.queues), v.counter);
    (View(v.messages[m.id := m], v.order + [m.id], pushed.0, v.active + {threadId}, pushed.1, v.nextId + 1), m)
  }

  /** `dequeue` on the view. */
  function DequeueView(v: View, threadId: string, now: nat): (View, Option<Message>) {
    if threadId !in v.queues then (v, None)
    else if v.queues[threadId] == [] then (v.(active := v.active - {threadId}), None)
    else
      var p := PopMin(v.queues[threadId]);
      var processed := ProcessDequeuedMessage(threadId, p.rest, p.entry.id, v.messages, v.active, (), NoCounts(), now);
      (v.(queues := v.queues[threadId := p.rest], messages := processed.messages, active := processed.active),
       processed.result)
  }

  /** `update_state` on the view. */
  function UpdateStateView(v: View, id: MessageId, newState: MessageState, error: Option<string>, now: nat): (View, bool) {
    if id !in v.messages || !ValidateStateTransition(v.messages[id].state, newState) then (v, false)
    else
      var applied := ApplyStateChange(v.messages[id], newState, error, now, (), NoCounts());
      (v.(messages := v.messages[id := applied.message]), applied.ok)
  }

  /** `cancel_message` on the view. */
  function CancelView(v: View, id: MessageId, now: nat): (View, CancelResult) {
    if id !in v.messages then (v, CancelResult(false, Some("Message not found")))
    else if v.messages[id].state != Queued then
      (v, CancelResult(false, Some("Cannot cancel message in state: " + StateDisplay(v.messages[id].state))))
    else (v.(messages := v.messages[id := v.messages[id].(state := Cancelled, completedAt := Some(now))]), CancelResult(true, None))
  }

  // ---------------------------------------------------------------------------
  // The bookkeeping does not leak into the queue-facing part
  // ---------------------------------------------------------------------------

  lemma EnqueueCommutes(r: Registry, userMessage: string, threadId: string, priority: Priority, now: nat)
    requires r.index.Keys <= r.metadata.Keys
    ensures var (r', m) := EnqueueSpec(r, userMessage, threadId, priority, now);
      (ViewOf(r'), m) == EnqueueView(ViewOf(r), userMessage, threadId, priority, now)
  {
  }

  lemma DequeueCommutes(r: Registry, threadId: string, now: nat)
    ensures var (r', m) := DequeueSpec(r, threadId, now);
      (ViewOf(r'), m) == DequeueView(ViewOf(r), threadId, now)
  {
  }

  lemma UpdateStateCommutes(r: Registry, id: MessageId, newState: MessageState, error: Option<string>, now: nat)
    ensures var (r', ok) := UpdateStateSpec(r, id, newState, error, now);
      (ViewOf(r'), ok) == UpdateStateView(ViewOf(r), id, newState, error, now)
  {
  }

  lemma CancelCommutes(r: Registry, id: MessageId, now: nat)
    ensures var (r', res) := CancelSpec(r, id, now);
      (ViewOf(r'), res) == CancelView(ViewOf(r), id, now)
  {
  }

  // ---------------------------------------------------------------------------
  // Runs from a fresh manager
  // ---------------------------------------------------------------------------

  /** The view of a freshly constructed manager. */
  function Fresh(): View
    ensures Fresh() == ViewOf(EmptyRegistry())
  {
    View(map[], [], map[], {}, 0, 0)
  }

  /** One enqueue on the view: the new QUEUED message is stored under the next id and queued last. */
  lemma EnqueueViewStep(v: View, userMessage: string, threadId: string, priority: Priority, now: nat)
    ensures var (v', m) := EnqueueView(v, userMessage, threadId, priority, now);
      var q := if threadId in v.queues then v.queues[threadId] else [];
      && m == CreateMessage(v.nextId, userMessage, threadId, priority, now)
      && v'.messages == v.messages[v.nextId := m]
      && v'.queues == v.queues[threadId := q + [Entry(PriorityValue(priority), v.counter, v.nextId)]]
      && v'.active == v.active + {threadId} && v'.counter == v.counter + 1 && v'.nextId == v.nextId + 1
  {
  }

  /** One dequeue on the view, by the state of the message behind the least entry. */
  lemma DequeueViewStep(v: View, threadId: string, now: nat)
    requires threadId in v.queues && v.queues[threadId] != []
    requires PopMin(v.queues[threadId]).entry.id in v.messages
    ensures var p := PopMin(v.queues[threadId]);
      var m := v.messages[p.entry.id];
      var (v', res) := DequeueView(v, threadId, now);
      && v'.queues == v.queues[threadId := p.rest]
      && (m.state == Queued ==>
            res == Some(m.(state := Processing, startedAt := Some(now))) && v'.messages == v.messages[p.entry.id := res.value])
      && (m.state != Queued ==> res == None && v'.messages == v.messages)
      && (m.state in {Queued, Cancelled} ==> v'.active == DiscardIfEmpty(threadId, p.rest, v.active))
      && (m.state !in {Queued, Cancelled} ==> v'.active == v.active)
  {
  }

  lemma PopSingle(e: Entry)
    ensures PopMin([e]) == Popped(e, [])
  {
  }

  lemma PopFirstOfTwo(a: Entry, b: Entry)
    requires EntryLe(a, b)
    ensures PopMin([a, b]) == Popped(a, [b])
  {
    assert MinIndex([a, b][1..]) == 0;
  }

  lemma PopSecondOfTwo(a: Entry, b: Entry)
    requires !EntryLe(a, b)
    ensures PopMin([a, b]) == Popped(b, [a])
  {
    assert MinIndex([a, b][1..]) == 0;
  }

  /** The front entry of a two-entry queue comes out first when it is the lesser. */
  lemma DequeueFirstOfTwo(v: View, threadId: string, a: Entry, b: Entry, now: nat)
    requires threadId in v.queues && v.queues[threadId] == [a, b] && EntryLe(a, b)
    requires a.id in v.messages
    ensures var (v', res) := DequeueView(v, threadId, now);
      var m := v.messages[a.id];
      && v'.queues == v.queues[threadId := [b]] && v'.active == v.active
      && (m.state == Queued ==>
            res == Some(m.(state := Processing, startedAt := Some(now))) && v'.messages == v.messages[a.id := res.value])
      && (m.state != Queued ==> res == None && v'.messages == v.messages)
  {
    PopFirstOfTwo(a, b);
    DequeueViewStep(v, threadId, now);
  }

  /** The back entry of a two-entry queue comes out first when it is the lesser. */
  lemma DequeueSecondOfTwo(v: View, threadId: string, a: Entry, b: Entry, now: nat)
    requires threadId in v.queues && v.queues[threadId] == [a, b] && !EntryLe(a, b)
    requires b.id in v.messages && v.messages[b.id].state == Queued
    ensures var (v', res) := DequeueView(v, threadId, now);
      && v'.queues == v.queues[threadId := [a]] && v'.active == v.active
      && res == Some(v.messages[b.id].(state := Processing, startedAt := Some(now)))
      && v'.messages == v.messages[b.id := res.value]
  {
    PopSecondOfTwo(a, b);
    DequeueViewStep(v, threadId, now);
  }

  /**
   * The only entry of a queue comes out; the thread leaves the active set when the
   * message was QUEUED and stays in it when the message had already moved on.
   */
  lemma DequeueOnly(v: View, threadId: string, a: Entry, now: nat)
    requires threadId in v.queues && v.queues[threadId] == [a]
    requires a.id in v.messages
    ensures var (v', res) := DequeueView(v, threadId, now);
      var m := v.messages[a.id];
      && v'.queues == v.queues[threadId := []]
      && (m.state == Queued ==>
            && res == Some(m.(state := Processing, startedAt := Some(now)))
            && v'.messages == v.messages[a.id := res.value] && v'.active == v.active - {threadId})
      && (m.state !in {Queued, Cancelled} ==> res == None && v'.messages == v.messages && v'.active == v.active)
  {
    PopSingle(a);
    DequeueViewStep(v, threadId, now);
  }

  /** A HIGH message enqueued after a LOW one on the same thread comes out first. */
  lemma PriorityOrderScenario(now: nat)
    ensures
      var e1 := EnqueueView(Fresh(), "low", "t", Low, now);
      var e2 := EnqueueView(e1.0, "high", "t", High, now);
      var d1 := DequeueView(e2.0, "t", now);
      var d2 := DequeueView(d1.0, "t", now);
      && d1.1 == Some(e2.1.(state := Processing, startedAt := Some(now)))
      && d2.1 == Some(e1.1.(state := Processing, startedAt := Some(now)))
  {
    EnqueueViewStep(Fresh(), "low", "t", Low, now);
    var e1 := EnqueueView(Fresh(), "low", "t", Low, now);
    EnqueueViewStep(e1.0, "high", "t", High, now);
    var e2 := EnqueueView(e1.0, "high", "t", High, now);
    assert e2.0.queues["t"] == [Entry(3, 0, 0), Entry(1, 1, 1)];
    assert e2.0.messages[1] == e2.1 && e2.1.state == Queued;
    DequeueSecondOfTwo(e2.0, "t", Entry(3, 0, 0), Entry(1, 1, 1), now);
    var d1 := DequeueView(e2.0, "t", now);
    assert d1.0.queues["t"] == [Entry(3, 0, 0)] && d1.0.messages[0] == e1.1;
    DequeueOnly(d1.0, "t", Entry(3, 0, 0), now);
  }

  /** Equal priorities on one thread come out in the order they went in. */
  lemma FifoScenario(now: nat)
    ensures
      var e1 := EnqueueView(Fresh(), "first", "t", Normal, now);
      var e2 := EnqueueView(e1.0, "second", "t", Normal, now);
      var d1 := DequeueView(e2.0, "t", now);
      var d2 := DequeueView(d1.0, "t", now);
      && d1.1.Some? && d1.1.value.id == e1.1.id
      && d2.1.Some? && d2.1.value.id == e2.1.id
  {
    EnqueueViewStep(Fresh(), "first", "t", Normal, now);
    var e1 := EnqueueView(Fresh(), "first", "t", Normal, now);
    EnqueueViewStep(e1.0, "second", "t", Normal, now);
    var e2 := EnqueueView(e1.0, "second", "t", Normal, now);
    DequeueFirstOfTwo(e2.0, "t", Entry(2, 0, 0), Entry(2, 1, 1), now);
    var d1 := DequeueView(e2.0, "t", now);
    DequeueOnly(d1.0, "t", Entry(2, 1, 1), now);
  }

  /**
   * Two messages on one thread, the first cancelled while still QUEUED: the
   * next dequeue pops the cancelled entry and hands out nothing but keeps the
   * thread active, the one after hands out the second message, and the
   * cancelled message stays CANCELLED.
   */
  lemma CancelledSkippedScenario(now: nat)
    ensures
      var e1 := EnqueueView(Fresh(), "one", "t", Normal, now);
      var e2 := EnqueueView(e1.0, "two", "t", Normal, now);
      var c := CancelView(e2.0, e1.1.id, now);
      var d1 := DequeueView(c.0, "t", now);
      var d2 := DequeueView(d1.0, "t", now);
      && c.1 == CancelResult(true, None)
      && d1.1 == None && "t" in d1.0.active
      && d2.1 == Some(e2.1.(state := Processing, startedAt := Some(now)))
      && d2.0.messages[e1.1.id].state == Cancelled
  {
    EnqueueViewStep(Fresh(), "one", "t", Normal, now);
    var e1 := EnqueueView(Fresh(), "one", "t", Normal, now);
    EnqueueViewStep(e1.0, "two", "t", Normal, now);
    var e2 := EnqueueView(e1.0, "two", "t", Normal, now);
    var c := CancelView(e2.0, e1.1.id, now);
    DequeueFirstOfTwo(c.0, "t", Entry(2, 0, 0), Entry(2, 1, 1), now);
    var d1 := DequeueView(c.0, "t", now);
    DequeueOnly(d1.0, "t", Entry(2, 1, 1), now);
  }

  /**
   * A message moved to PROCESSING by `update_state` keeps its queue entry: the
   * thread still reports messages, the dequeue that pops the stale entry hands
   * out nothing and leaves the thread active with an empty queue, and the next
   * dequeue takes it out of the active set.
   */
  lemma StaleEntryScenario(now: nat)
    ensures
      var e := EnqueueView(Fresh(), "work", "t", Normal, now);
      var u := UpdateStateView(e.0, e.1.id, Processing, None, now);
      var d1 := DequeueView(u.0, "t", now);
      var d2 := DequeueView(d1.0, "t", now);
      && u.1 && u.0.queues["t"] != []
      && d1.1 == None && d1.0.queues["t"] == [] && "t" in d1.0.active
      && d2.1 == None && "t" !in d2.0.active
  {
    EnqueueViewStep(Fresh(), "work", "t", Normal, now);
    var e := EnqueueView(Fresh(), "work", "t", Normal, now);
    var u := UpdateStateView(e.0, e.1.id, Processing, None, now);
    DequeueOnly(u.0, "t", Entry(2, 0, 0), now);
  }

  /** The table after the position run's first enqueue. */
  lemma FirstEnqueueTables()
    ensures var e1 := EnqueueSpec(EmptyRegistry(), "hello", "a", Normal, 0);
      && e1.0.order == [0] && e1.0.messages == map[0 := e1.1] && e1.0.nextId == 1
      && e1.1 == CreateMessage(0, "hello", "a", Normal, 0)
  {
    EnqueueCommutes(EmptyRegistry(), "hello", "a", Normal, 0);
    EnqueueViewStep(Fresh(), "hello", "a", Normal, 0);
  }

  /** The table after the position run's second enqueue. */
  lemma SecondEnqueueTables(r: Registry, first: Message)
    requires r.index.Keys <= r.metadata.Keys
    requires r.order == [0] && r.messages == map[0 := first] && r.nextId == 1
    ensures var e2 := EnqueueSpec(r, "urgent", "b", High, 1);
      && e2.0.order == [0, 1] && e2.0.messages == map[0 := first, 1 := e2.1] && e2.0.nextId == 2
      && e2.1 == CreateMessage(1, "urgent", "b", High, 1)
  {
    EnqueueCommutes(r, "urgent", "b", High, 1);
    EnqueueViewStep(ViewOf(r), "urgent", "b", High, 1);
  }

  /** Positions in a table holding a QUEUED NORMAL message and, behind it, a later QUEUED HIGH one. */
  lemma PositionsOfTwo(r: Registry, first: Message, second: Message)
    requires r.order == [0, 1] && r.messages == map[0 := first, 1 := second] && r.nextId == 2
    requires first == CreateMessage(0, "hello", "a", Normal, 0) && second == CreateMessage(1, "urgent", "b", High, 1)
    ensures MessagesWF(r)
    ensures QueuePosition(r, 0) == Some(1) && QueuePosition(r, 1) == Some(0)
  {
    assert Values(r) == [first, second];
    assert [first, second][..1] == [first] && [first][..0] == [];
    assert !Ahead(first, 0, 2, 0) && !Ahead(first, 1, 1, 1) && Ahead(second, 0, 2, 0) && !Ahead(second, 1, 1, 1);
    assert CountAhead([first], 0, 2, 0) == 0 && CountAhead([first], 1, 1, 1) == 0;
    assert CountAhead([first, second], 0, 2, 0) == 1;
    assert CountAhead([first, second], 1, 1, 1) == 0;
  }

  /** The position of the only message in a table. */
  lemma PositionOfOne(r: Registry, only: Message)
    requires r.order == [0] && r.messages == map[0 := only] && r.nextId == 1
    requires only == CreateMessage(0, "hello", "a", Normal, 0)
    ensures MessagesWF(r)
    ensures QueuePosition(r, 0) == Some(0)
  {
    assert Values(r) == [only];
    assert [only][..0] == [];
    assert CountAhead([only], 0, 2, 0) == 0;
  }

  /**
   * A NORMAL message alone is at position 0; once a HIGH message from another
   * thread arrives it is at position 1, and the HIGH one at 0.
   */
  lemma PositionScenario()
    ensures var e1 := EnqueueSpec(EmptyRegistry(), "hello", "a", Normal, 0);
      MessagesWF(e1.0) && MessagesWF(EnqueueSpec(e1.0, "urgent", "b", High, 1).0)
    ensures
      var e1 := EnqueueSpec(EmptyRegistry(), "hello", "a", Normal, 0);
      var e2 := EnqueueSpec(e1.0, "urgent", "b", High, 1);
      && QueuePosition(e1.0, e1.1.id) == Some(0)
      && QueuePosition(e2.0, e1.1.id) == Some(1)
      && QueuePosition(e2.0, e2.1.id) == Some(0)
  {
    FirstEnqueueTables();
    var e1 := EnqueueSpec(EmptyRegistry(), "hello", "a", Normal, 0);
    SecondEnqueueTables(e1.0, e1.1);
    var e2 := EnqueueSpec(e1.0, "urgent", "b", High, 1);
    PositionOfOne(e1.0, e1.1);
    PositionsOfTwo(e2.0, e1.1, e2.1);
  }
}
