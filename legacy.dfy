/**
 * The older single-queue manager: one message table, one global priority
 * queue of `(priority value, insertion counter, id)` entries and the
 * insertion counter. It runs the same lifecycle state machine as the threaded
 * manager, without threads, thread metadata or an active set.
 *
 * Each operation is first a function from the old state to the new one (and
 * its result); the `LegacyQueueManager` class stores that state in its fields.
 */
module Legacy {
  import opened Wrappers
  import opened Models
  import opened State
  import opened Operations
  import opened Summary
  import QueueRegistry

  datatype SingleQueue = SingleQueue(
    messages: map<MessageId, Message>,
    order: seq<MessageId>,
    queue: seq<Entry>,
    counter: nat,
    nextId: MessageId)

  /** A freshly constructed manager. */
  function EmptySingle(): SingleQueue {
    SingleQueue(map[], [], [], 0, 0)
  }

  // ---------------------------------------------------------------------------
  // The invariant
  // ---------------------------------------------------------------------------

  /** The table's key order lists each stored id once; stored ids are their messages' own and already issued. */
  ghost predicate TableWF(s: SingleQueue) {
    && QueueRegistry.Distinct(s.order)
    && (forall id :: id in s.order <==> id in s.messages)
    && (forall id :: id in s.messages ==> s.messages[id].id == id && id < s.nextId)
  }

  /** An entry names a stored message, carries its priority value and an issued counter value. */
  ghost predicate EntryOK(s: SingleQueue, e: Entry) {
    e.order < s.counter && e.id in s.messages && e.prio == PriorityValue(s.messages[e.id].priority)
  }

  /** The queue: entries in push order, each as `EntryOK` says, and an entry for every QUEUED message. */
  ghost predicate QueueWF(s: SingleQueue) {
    && QueueRegistry.OrdersIncreasing(s.queue)
    && (forall e :: e in s.queue ==> EntryOK(s, e))
    && (forall id :: id in s.messages && s.messages[id].state == Queued ==> id in QueueRegistry.Ids(s.queue))
  }

  ghost predicate Inv(s: SingleQueue) {
    TableWF(s) && QueueWF(s)
  }

  lemma EmptySingleInv()
    ensures Inv(EmptySingle())
  {
  }

  // ---------------------------------------------------------------------------
  // enqueue
  // ---------------------------------------------------------------------------

  /** `enqueue`: a QUEUED message with the given text and priority, stored and pushed. */
  function EnqueueSpec(s: SingleQueue, userMessage: string, priority: Priority, now: nat): (SingleQueue, Message) {
    var m := NewQueuedMessage(s.nextId, userMessage, now).(priority := priority);
    (SingleQueue(s.messages[m.id := m], s.order + [m.id], s.queue + [Entry(PriorityValue(priority), s.counter, m.id)],
                 s.counter + 1, s.nextId + 1),
     m)
  }

  /**
   * The new message is QUEUED with the given text and priority, stored under
   * a fresh id, and its entry carries the priority value and the old counter
   * and goes to the end of the queue; the counter grows by one.
   */
  lemma EnqueueEffect(s: SingleQueue, userMessage: string, priority: Priority, now: nat)
    requires Inv(s)
    ensures var (s', m) := EnqueueSpec(s, userMessage, priority, now);
      && m.state == Queued && m.userMessage == userMessage && m.priority == priority && m.createdAt == now
      && m.startedAt == None && m.completedAt == None && m.result == None && m.error == None && m.chunks == []
      && m.id !in s.messages && s'.messages == s.messages[m.id := m]
      && s'.queue == s.queue + [Entry(PriorityValue(priority), s.counter, m.id)]
      && s'.counter == s.counter + 1
  {
  }

  lemma EnqueuePreservesInv(s: SingleQueue, userMessage: string, priority: Priority, now: nat)
    requires Inv(s)
    ensures Inv(EnqueueSpec(s, userMessage, priority, now).0)
  {
    var (s', m) := EnqueueSpec(s, userMessage, priority, now);
    var e := Entry(PriorityValue(priority), s.counter, m.id);
    assert m.id !in s.order;
    forall x | x in s'.queue ensures EntryOK(s', x) {
      if x != e {
        assert x in s.queue && EntryOK(s, x);
      }
    }
    forall id | id in s'.messages && s'.messages[id].state == Queued ensures id in QueueRegistry.Ids(s'.queue) {
      if id != m.id {
        var x :| x in s.queue && x.id == id;
        assert x in s'.queue;
      } else {
        assert e in s'.queue;
      }
    }
    assert forall i :: 0 <= i < |s.queue| ==> s.queue[i].order < s.counter by {
      forall i | 0 <= i < |s.queue| ensures s.queue[i].order < s.counter {
        assert EntryOK(s, s.queue[i]);
      }
    }
  }

  // ---------------------------------------------------------------------------
  // Rewriting one message in place
  // ---------------------------------------------------------------------------

  /**
   * Rewriting the stored message `x` as `m`, with the same id, thread and
   * priority and QUEUED only if it was already QUEUED, keeps the invariant.
   */
  lemma RewritePreservesInv(s: SingleQueue, x: MessageId, m: Message)
    requires Inv(s) && x in s.messages && QueueRegistry.SameIdentity(s.messages[x], m)
    requires m.state == Queued ==> s.messages[x].state == Queued
    ensures Inv(s.(messages := s.messages[x := m]))
  {
    var s' := s.(messages := s.messages[x := m]);
    forall e | e in s'.queue ensures EntryOK(s', e) {
      assert EntryOK(s, e);
    }
  }

  // ---------------------------------------------------------------------------
  // dequeue
  // ---------------------------------------------------------------------------

  /**
   * `dequeue` on a non-empty queue (the Python call waits until there is an
   * entry): the least entry is popped; a QUEUED message behind it becomes
   * PROCESSING with `startedAt` stamped and is returned, anything else gives
   * `None` and leaves the table as it was.
   */
  function DequeueSpec(s: SingleQueue, now: nat): (SingleQueue, Option<Message>)
    requires s.queue != []
  {
    var p := PopMin(s.queue);
    var x := p.entry.id;
    if x in s.messages && s.messages[x].state == Queued then
      var started := s.messages[x].(state := Processing, startedAt := Some(now));
      (s.(queue := p.rest, messages := s.messages[x := started]), Some(started))
    else
      (s.(queue := p.rest), None)
  }

  /**
   * The popped entry is the least: every entry left behind has a larger
   * priority value, or the same one and a later counter value. A QUEUED
   * message comes back in PROCESSING with `startedAt` stamped; a CANCELLED or
   * any other one gives `None` and no change to the table.
   */
  lemma DequeueTakesLeast(s: SingleQueue, now: nat)
    requires Inv(s) && s.queue != []
    ensures var p := PopMin(s.queue);
      var (s', res) := DequeueSpec(s, now);
      var x := p.entry.id;
      && p.entry in s.queue && s'.queue == p.rest
      && multiset(p.rest) + multiset{p.entry} == multiset(s.queue)
      && (forall e :: e in p.rest ==> p.entry.prio < e.prio || (p.entry.prio == e.prio && p.entry.order < e.order))
      && x in s.messages
      && (s.messages[x].state == Queued ==>
            res == Some(s.messages[x].(state := Processing, startedAt := Some(now))) && s'.messages == s.messages[x := res.value])
      && (s.messages[x].state != Queued ==> res == None && s'.messages == s.messages)
  {
    assert EntryOK(s, PopMin(s.queue).entry);
    QueueRegistry.PopMinLeast(s.queue);
  }

  /** Removing the popped entry keeps the queue conjuncts for the messages left QUEUED. */
  lemma PoppedQueueWF(s: SingleQueue, s': SingleQueue)
    requires Inv(s) && s.queue != []
    requires var p := PopMin(s.queue);
      && s'.queue == p.rest && s'.counter == s.counter
      && s'.messages.Keys == s.messages.Keys
      && (forall id :: id in s.messages ==> QueueRegistry.SameIdentity(s.messages[id], s'.messages[id]))
      && (forall id :: id in s.messages && s'.messages[id].state == Queued ==>
            id != p.entry.id && s'.messages[id] == s.messages[id])
    ensures QueueWF(s')
  {
    var p := PopMin(s.queue);
    QueueRegistry.RemoveAtKeepsOrder(s.queue, MinIndex(s.queue));
    forall e | e in s'.queue ensures EntryOK(s', e) {
      QueueRegistry.InMultiset(p.entry, p.rest, s.queue, e);
      assert EntryOK(s, e);
    }
    forall id | id in s'.messages && s'.messages[id].state == Queued ensures id in QueueRegistry.Ids(s'.queue) {
      var e :| e in s.queue && e.id == id;
      QueueRegistry.InMultiset(p.entry, p.rest, s.queue, e);
      assert e in s'.queue;
    }
  }

  lemma DequeuePreservesInv(s: SingleQueue, now: nat)
    requires Inv(s) && s.queue != []
    ensures Inv(DequeueSpec(s, now).0)
  {
    var s' := DequeueSpec(s, now).0;
    assert EntryOK(s, PopMin(s.queue).entry);
    PoppedQueueWF(s, s');
  }

  // ---------------------------------------------------------------------------
  // update_state, cancel_message, set_result, add_chunk
  // ---------------------------------------------------------------------------

  /**
   * `update_state`: false for an unknown id or a transition `_is_valid_transition`
   * rejects, with nothing changed; otherwise the new state, its timestamp and
   * (for FAILED with a non-empty error) the error are recorded.
   */
  function UpdateStateSpec(s: SingleQueue, id: MessageId, newState: MessageState, error: Option<string>, now: nat)
    : (SingleQueue, bool)
  {
    if id !in s.messages || !ValidateStateTransition(s.messages[id].state, newState) then (s, false)
    else (s.(messages := s.messages[id := ApplyStateChange(s.messages[id], newState, error, now, (), NoCounts()).message]), true)
  }

  lemma UpdateStateEffect(s: SingleQueue, id: MessageId, newState: MessageState, error: Option<string>, now: nat)
    ensures var (s', ok) := UpdateStateSpec(s, id, newState, error, now);
      && (ok <==> id in s.messages && ValidateStateTransition(s.messages[id].state, newState))
      && (!ok ==> s' == s)
      && (ok ==>
            var m := s.messages[id];
            && s'.messages.Keys == s.messages.Keys && s'.queue == s.queue
            && s'.messages[id].state == newState
            && s'.messages[id].error == (if newState == Failed && Truthy(error) then error else m.error)
            && (newState == Processing ==> s'.messages[id].startedAt == Some(now) && s'.messages[id].completedAt == m.completedAt)
            && (IsTerminal(newState) ==> s'.messages[id].completedAt == Some(now) && s'.messages[id].startedAt == m.startedAt)
            && QueueRegistry.SameIdentity(s'.messages[id], m)
            && (forall other :: other in s.messages && other != id ==> s'.messages[other] == s.messages[other]))
  {
    if id in s.messages && ValidateStateTransition(s.messages[id].state, newState) {
      ApplyStateChangeKeepsContent(s.messages[id], newState, error, now, (), NoCounts());
    }
  }

  lemma UpdateStatePreservesInv(s: SingleQueue, id: MessageId, newState: MessageState, error: Option<string>, now: nat)
    requires Inv(s)
    ensures Inv(UpdateStateSpec(s, id, newState, error, now).0)
  {
    if id in s.messages && ValidateStateTransition(s.messages[id].state, newState) {
      var m := ApplyStateChange(s.messages[id], newState, error, now, (), NoCounts()).message;
      ApplyStateChangeKeepsContent(s.messages[id], newState, error, now, (), NoCounts());
      TerminalStatesAbsorb(s.messages[id].state, newState);
      RewritePreservesInv(s, id, m);
    }
  }

  /** `cancel_message`: only a QUEUED message is cancelled; the pair is (success, error text). */
  function CancelSpec(s: SingleQueue, id: MessageId, now: nat): (SingleQueue, (bool, Option<string>)) {
    if id !in s.messages then (s, (false, Some("Message not found")))
    else if s.messages[id].state != Queued then
      (s, (false, Some("Cannot cancel message in state: " + StateDisplay(s.messages[id].state))))
    else (s.(messages := s.messages[id := s.messages[id].(state := Cancelled, completedAt := Some(now))]), (true, None))
  }

  /**
   * The cancel succeeds exactly for a QUEUED message, which becomes CANCELLED
   * with `completedAt` stamped and keeps its queue entry; otherwise nothing
   * changes and the error text names the reason.
   */
  lemma CancelEffect(s: SingleQueue, id: MessageId, now: nat)
    ensures var (s', res) := CancelSpec(s, id, now);
      && (res.0 <==> id in s.messages && s.messages[id].state == Queued)
      && (res.0 <==> res.1.None?)
      && (!res.0 ==> s' == s)
      && (id !in s.messages ==> res.1 == Some("Message not found"))
      && (id in s.messages && s.messages[id].state != Queued ==>
            res.1 == Some("Cannot cancel message in state: " + StateDisplay(s.messages[id].state)))
      && (res.0 ==> s'.messages == s.messages[id := s.messages[id].(state := Cancelled, completedAt := Some(now))]
                    && s'.queue == s.queue)
  {
  }

  lemma CancelPreservesInv(s: SingleQueue, id: MessageId, now: nat)
    requires Inv(s)
    ensures Inv(CancelSpec(s, id, now).0)
  {
    if id in s.messages && s.messages[id].state == Queued {
      RewritePreservesInv(s, id, s.messages[id].(state := Cancelled, completedAt := Some(now)));
    }
  }

  /** `set_result`: overwrite the result of a known message, whatever its state. */
  function SetResultSpec(s: SingleQueue, id: MessageId, result: string): (SingleQueue, bool) {
    if id !in s.messages then (s, false)
    else (s.(messages := s.messages[id := s.messages[id].(result := Some(result))]), true)
  }

  /** `add_chunk`: append to the chunks of a known message, whatever its state. */
  function AddChunkSpec(s: SingleQueue, id: MessageId, chunk: string): (SingleQueue, bool) {
    if id !in s.messages then (s, false)
    else (s.(messages := s.messages[id := s.messages[id].(chunks := s.messages[id].chunks + [chunk])]), true)
  }

  /**
   * Both fail only for an unknown id and then change nothing; otherwise only
   * that message's result, or its chunk list, changes: the chunk goes last
   * and the earlier chunks stay in place.
   */
  lemma ResultAndChunkEffect(s: SingleQueue, id: MessageId, text: string)
    ensures var (s1, ok1) := SetResultSpec(s, id, text);
      var (s2, ok2) := AddChunkSpec(s, id, text);
      && (ok1 <==> id in s.messages) && (ok2 <==> id in s.messages)
      && (!ok1 ==> s1 == s) && (!ok2 ==> s2 == s)
      && (ok1 ==> s1.messages == s.messages[id := s.messages[id].(result := Some(text))] && s1.queue == s.queue)
      && (ok2 ==>
            && s2.queue == s.queue && s2.messages.Keys == s.messages.Keys
            && |s2.messages[id].chunks| == |s.messages[id].chunks| + 1
            && s2.messages[id].chunks[..|s.messages[id].chunks|] == s.messages[id].chunks
            && s2.messages[id].chunks[|s.messages[id].chunks|] == text
            && s2.messages[id] == s.messages[id].(chunks := s2.messages[id].chunks))
  {
  }

  lemma ResultAndChunkPreserveInv(s: SingleQueue, id: MessageId, text: string)
    requires Inv(s)
    ensures Inv(SetResultSpec(s, id, text).0) && Inv(AddChunkSpec(s, id, text).0)
  {
    if id in s.messages {
      RewritePreservesInv(s, id, s.messages[id].(result := Some(text)));
      RewritePreservesInv(s, id, s.messages[id].(chunks := s.messages[id].chunks + [text]));
    }
  }

  // ---------------------------------------------------------------------------
  // Queries
  // ---------------------------------------------------------------------------

  /** The table's messages in insertion order. */
  function Values(s: SingleQueue): (ms: seq<Message>)
    requires forall id :: id in s.order ==> id in s.messages
    ensures |ms| == |s.order|
    ensures forall i :: 0 <= i < |s.order| ==> ms[i] == s.messages[s.order[i]]
  {
    seq(|s.order|, i requires 0 <= i < |s.order| => s.messages[s.order[i]])
  }

  /**
   * `get_queue_position`: `None` unless the message is QUEUED; otherwise the
   * number of other QUEUED messages with a smaller priority value, or the same
   * one and an earlier creation time.
   */
  function QueuePosition(s: SingleQueue, id: MessageId): (pos: Option<nat>)
    requires TableWF(s)
    ensures pos.None? <==> id !in s.messages || s.messages[id].state != Queued
    ensures pos.Some? ==> pos.value <= CountOtherQueued(Values(s), id)
  {
    if id !in s.messages || s.messages[id].state != Queued then None
    else
      var m := s.messages[id];
      CountAheadBounded(Values(s), id, PriorityValue(m.priority), m.createdAt);
      Some(CountAhead(Values(s), id, PriorityValue(m.priority), m.createdAt))
  }

  /** A stored QUEUED message always has an entry, so the queue then reports messages. */
  lemma HasMessagesSound(s: SingleQueue, id: MessageId)
    requires Inv(s) && id in s.messages && s.messages[id].state == Queued
    ensures s.queue != []
  {
  }

  // ---------------------------------------------------------------------------
  // Runs of the manager on concrete inputs
  // ---------------------------------------------------------------------------

  /** How the heap orders three entries when the middle one is the least. */
  lemma PopMiddleOfThree(a: Entry, b: Entry, c: Entry)
    requires !EntryLe(a, b) && EntryLe(b, c)
    ensures PopMin([a, b, c]) == Popped(b, [a, c])
  {
    assert [a, b, c][1..] == [b, c] && [b, c][1..] == [c];
    assert MinIndex([b, c]) == 0;
    assert MinIndex([a, b, c]) == 1;
    assert RemoveAt([a, b, c], 1) == [a, c];
  }

  /** How the heap orders three entries when the first one is the least. */
  lemma PopFirstOfThree(a: Entry, b: Entry, c: Entry)
    requires EntryLe(a, b) && EntryLe(b, c)
    ensures PopMin([a, b, c]) == Popped(a, [b, c])
  {
    assert [a, b, c][1..] == [b, c] && [b, c][1..] == [c];
    assert MinIndex([b, c]) == 0;
    assert MinIndex([a, b, c]) == 0;
    assert RemoveAt([a, b, c], 0) == [b, c];
  }

  lemma PopOfTwo(a: Entry, b: Entry)
    ensures EntryLe(a, b) ==> PopMin([a, b]) == Popped(a, [b])
    ensures !EntryLe(a, b) ==> PopMin([a, b]) == Popped(b, [a])
  {
    assert [a, b][1..] == [b];
  }

  lemma PopOfOne(a: Entry)
    ensures PopMin([a]) == Popped(a, [])
  {
  }

  /** A dequeue from three entries whose middle one is the least and QUEUED. */
  lemma DequeueMiddleOfThree(s: SingleQueue, now: nat, a: Entry, b: Entry, c: Entry)
    requires s.queue == [a, b, c] && !EntryLe(a, b) && EntryLe(b, c)
    requires b.id in s.messages && s.messages[b.id].state == Queued
    ensures var (s', res) := DequeueSpec(s, now);
      && res == Some(s.messages[b.id].(state := Processing, startedAt := Some(now)))
      && s'.queue == [a, c] && s'.messages == s.messages[b.id := res.value]
  {
    PopMiddleOfThree(a, b, c);
  }

  /** A dequeue from two entries whose first one is the least: handed out only if it is QUEUED. */
  lemma DequeueFirstOfTwo(s: SingleQueue, now: nat, a: Entry, b: Entry)
    requires s.queue == [a, b] && EntryLe(a, b) && a.id in s.messages
    ensures var (s', res) := DequeueSpec(s, now);
      var m := s.messages[a.id];
      && s'.queue == [b]
      && (m.state == Queued ==> res == Some(m.(state := Processing, startedAt := Some(now))) && s'.messages == s.messages[a.id := res.value])
      && (m.state != Queued ==> res == None && s'.messages == s.messages)
  {
    PopOfTwo(a, b);
  }

  /** A dequeue from two entries whose second one is the least and QUEUED. */
  lemma DequeueSecondOfTwo(s: SingleQueue, now: nat, a: Entry, b: Entry)
    requires s.queue == [a, b] && !EntryLe(a, b) && b.id in s.messages && s.messages[b.id].state == Queued
    ensures var (s', res) := DequeueSpec(s, now);
      && res == Some(s.messages[b.id].(state := Processing, startedAt := Some(now)))
      && s'.queue == [a] && s'.messages == s.messages[b.id := res.value]
  {
    PopOfTwo(a, b);
  }

  /** A dequeue from one entry of a QUEUED message empties the queue. */
  lemma DequeueOfOne(s: SingleQueue, now: nat, a: Entry)
    requires s.queue == [a] && a.id in s.messages && s.messages[a.id].state == Queued
    ensures var (s', res) := DequeueSpec(s, now);
      && res == Some(s.messages[a.id].(state := Processing, startedAt := Some(now)))
      && s'.queue == [] && s'.messages == s.messages[a.id := res.value]
  {
    PopOfOne(a);
  }

  /** Three enqueues on a fresh manager: ids 0, 1, 2, counter values 0, 1, 2, all QUEUED. */
  lemma ThreeEnqueues(t1: string, p1: Priority, t2: string, p2: Priority, t3: string, p3: Priority, now: nat)
    ensures
      var e1 := EnqueueSpec(EmptySingle(), t1, p1, now);
      var e2 := EnqueueSpec(e1.0, t2, p2, now);
      var e3 := EnqueueSpec(e2.0, t3, p3, now);
      && e1.1.id == 0 && e2.1.id == 1 && e3.1.id == 2
      && e3.0.queue == [Entry(PriorityValue(p1), 0, 0), Entry(PriorityValue(p2), 1, 1), Entry(PriorityValue(p3), 2, 2)]
      && e3.0.messages.Keys == {0, 1, 2}
      && e3.0.messages[0] == e1.1 && e3.0.messages[1] == e2.1 && e3.0.messages[2] == e3.1
      && e1.1.state == Queued && e2.1.state == Queued && e3.1.state == Queued
  {
  }

  /** LOW, then HIGH, then NORMAL: they come out HIGH, NORMAL, LOW, each in PROCESSING. */
  lemma PriorityOrderScenario(now: nat)
    ensures
      var e1 := EnqueueSpec(EmptySingle(), "low", Low, now);
      var e2 := EnqueueSpec(e1.0, "high", High, now);
      var e3 := EnqueueSpec(e2.0, "normal", Normal, now);
      && e3.0.queue != []
      && var d1 := DequeueSpec(e3.0, now);
      && d1.0.queue != []
      && var d2 := DequeueSpec(d1.0, now);
      && d2.0.queue != []
      && var d3 := DequeueSpec(d2.0, now);
      && d1.1 == Some(e2.1.(state := Processing, startedAt := Some(now)))
      && d2.1 == Some(e3.1.(state := Processing, startedAt := Some(now)))
      && d3.1 == Some(e1.1.(state := Processing, startedAt := Some(now)))
      && d3.0.queue == []
  {
    ThreeEnqueues("low", Low, "high", High, "normal", Normal, now);
    var e1 := EnqueueSpec(EmptySingle(), "low", Low, now);
    var e2 := EnqueueSpec(e1.0, "high", High, now);
    var e3 := EnqueueSpec(e2.0, "normal", Normal, now);
    var low, high, normal := Entry(3, 0, 0), Entry(1, 1, 1), Entry(2, 2, 2);
    DequeueMiddleOfThree(e3.0, now, low, high, normal);
    var d1 := DequeueSpec(e3.0, now);
    DequeueSecondOfTwo(d1.0, now, low, normal);
    var d2 := DequeueSpec(d1.0, now);
    DequeueOfOne(d2.0, now, low);
  }

  /**
   * Three NORMAL messages: the heap hands out their entries in the order the
   * messages went in (each such pop is a dequeue, by `DequeueTakesLeast`).
   */
  lemma FifoScenario(now: nat)
    ensures
      var e1 := EnqueueSpec(EmptySingle(), "first", Normal, now);
      var e2 := EnqueueSpec(e1.0, "second", Normal, now);
      var e3 := EnqueueSpec(e2.0, "third", Normal, now);
      && e3.0.queue != []
      && var p1 := PopMin(e3.0.queue);
      && p1.rest != []
      && var p2 := PopMin(p1.rest);
      && p2.rest != []
      && var p3 := PopMin(p2.rest);
      && p1.entry.id == e1.1.id && p2.entry.id == e2.1.id && p3.entry.id == e3.1.id
      && p3.rest == []
  {
    ThreeEnqueues("first", Normal, "second", Normal, "third", Normal, now);
    var a, b, c := Entry(2, 0, 0), Entry(2, 1, 1), Entry(2, 2, 2);
    PopFirstOfThree(a, b, c);
    PopOfTwo(b, c);
    PopOfOne(c);
  }

  /**
   * The first of two messages cancelled while QUEUED: the next dequeue pops
   * its entry and hands out nothing, the one after hands out the second
   * message, and the first stays CANCELLED.
   */
  lemma CancelledSkippedScenario(now: nat)
    ensures
      var e1 := EnqueueSpec(EmptySingle(), "one", Normal, now);
      var e2 := EnqueueSpec(e1.0, "two", Normal, now);
      var c := CancelSpec(e2.0, e1.1.id, now);
      && c.1 == (true, None)
      && c.0.queue != []
      && var d1 := DequeueSpec(c.0, now);
      && d1.0.queue != []
      && var d2 := DequeueSpec(d1.0, now);
      && d1.1 == None
      && d2.1 == Some(e2.1.(state := Processing, startedAt := Some(now)))
      && d2.0.messages[e1.1.id].state == Cancelled
      && d2.0.queue == []
  {
    var e1 := EnqueueSpec(EmptySingle(), "one", Normal, now);
    var e2 := EnqueueSpec(e1.0, "two", Normal, now);
    var c := CancelSpec(e2.0, e1.1.id, now);
    var a, b := Entry(2, 0, 0), Entry(2, 1, 1);
    DequeueFirstOfTwo(c.0, now, a, b);
    var d1 := DequeueSpec(c.0, now);
    DequeueOfOne(d1.0, now, b);
  }

  // ---------------------------------------------------------------------------
  // The manager object
  // ---------------------------------------------------------------------------

  class LegacyQueueManager {
    var messages: map<MessageId, Message>
    var order: seq<MessageId>
    var queue: seq<Entry>
    var counter: nat
    var nextId: MessageId

    function Snapshot(): SingleQueue
      reads this
    {
      SingleQueue(messages, order, queue, counter, nextId)
    }

    ghost predicate Valid()
      reads this
    {
      Inv(Snapshot())
    }

    /** `__init__`: an empty table and queue, the counter at 0. */
    constructor()
      ensures Valid() && Snapshot() == EmptySingle()
    {
      messages := map[];
      order := [];
      queue := [];
      counter := 0;
      nextId := 0;
      new;
      EmptySingleInv();
    }

    /** Replaces every field by the matching component of `s`. */
    method Store(s: SingleQueue)
      modifies this
      ensures Snapshot() == s
    {
      messages, order, queue, counter, nextId := s.messages, s.order, s.queue, s.counter, s.nextId;
    }

    /** `enqueue`. */
    method Enqueue(userMessage: string, priority: Priority, now: nat) returns (m: Message)
      requires Valid()
      modifies this
      ensures Valid()
      ensures (Snapshot(), m) == EnqueueSpec(old(Snapshot()), userMessage, priority, now)
    {
      EnqueuePreservesInv(Snapshot(), userMessage, priority, now);
      var (after, created) := EnqueueSpec(Snapshot(), userMessage, priority, now);
      Store(after);
      m := created;
    }

    /** `dequeue`, once the blocking `get()` has an entry to hand out. */
    method Dequeue(now: nat) returns (m: Option<Message>)
      requires Valid() && queue != []
      modifies this
      ensures Valid()
      ensures (Snapshot(), m) == DequeueSpec(old(Snapshot()), now)
    {
      DequeuePreservesInv(Snapshot(), now);
      var (after, popped) := DequeueSpec(Snapshot(), now);
      Store(after);
      m := popped;
    }

    /** `update_state`. */
    method UpdateState(id: MessageId, newState: MessageState, error: Option<string>, now: nat) returns (ok: bool)
      requires Valid()
      modifies this
      ensures Valid()
      ensures (Snapshot(), ok) == UpdateStateSpec(old(Snapshot()), id, newState, error, now)
    {
      UpdateStatePreservesInv(Snapshot(), id, newState, error, now);
      var (after, applied) := UpdateStateSpec(Snapshot(), id, newState, error, now);
      Store(after);
      ok := applied;
    }

    /** `get_message`. */
    method GetMessage(id: MessageId) returns (m: Option<Message>)
      ensures m.Some? <==> id in messages
      ensures m.Some? ==> m.value == messages[id]
    {
      m := if id in messages then Some(messages[id]) else None;
    }

    /** `cancel_message`. */
    method CancelMessage(id: MessageId, now: nat) returns (success: bool, error: Option<string>)
      requires Valid()
      modifies this
      ensures Valid()
      ensures (Snapshot(), (success, error)) == CancelSpec(old(Snapshot()), id, now)
    {
      CancelPreservesInv(Snapshot(), id, now);
      var (after, res) := CancelSpec(Snapshot(), id, now);
      Store(after);
      success, error := res.0, res.1;
    }

    /** `set_result`. */
    method SetResult(id: MessageId, result: string) returns (ok: bool)
      requires Valid()
      modifies this
      ensures Valid()
      ensures (Snapshot(), ok) == SetResultSpec(old(Snapshot()), id, result)
    {
      ResultAndChunkPreserveInv(Snapshot(), id, result);
      var (after, done) := SetResultSpec(Snapshot(), id, result);
      Store(after);
      ok := done;
    }

    /** `add_chunk`. */
    method AddChunk(id: MessageId, chunk: string) returns (ok: bool)
      requires Valid()
      modifies this
      ensures Valid()
      ensures (Snapshot(), ok) == AddChunkSpec(old(Snapshot()), id, chunk)
    {
      ResultAndChunkPreserveInv(Snapshot(), id, chunk);
      var (after, done) := AddChunkSpec(Snapshot(), id, chunk);
      Store(after);
      ok := done;
    }

    /** `get_queue_position`: one pass over the table counting the QUEUED messages ahead. */
    method GetQueuePosition(id: MessageId) returns (pos: Option<nat>)
      requires Valid()
      ensures pos == QueuePosition(Snapshot(), id)
    {
      if id !in messages || messages[id].state != Queued {
        return None;
      }
      var message := messages[id];
      var messagePriority := PriorityValue(message.priority);
      var ms := Values(Snapshot());
      var position := 0;
      var i := 0;
      while i < |ms|
        invariant 0 <= i <= |ms|
        invariant position == CountAhead(ms[..i], id, messagePriority, message.createdAt)
      {
        assert ms[..i + 1][..i] == ms[..i];
        var msg := ms[i];
        if msg.state == Queued && msg.id != id {
          var msgPriority := PriorityValue(msg.priority);
          if msgPriority < messagePriority || (msgPriority == messagePriority && msg.createdAt < message.createdAt) {
            position := position + 1;
          }
        }
        i := i + 1;
      }
      assert ms[..i] == ms;
      pos := Some(position);
    }

    /** `get_queue_summary`: the per-state totals, the sorted queued list and the first PROCESSING message. */
    method GetQueueSummary() returns (s: QueueSummary)
      requires Valid()
      ensures var ms := Values(Snapshot());
        && s.totalQueued == CountState(ms, Queued) && s.totalProcessing == CountState(ms, Processing)
        && s.totalCompleted == CountState(ms, Completed) && s.totalFailed == CountState(ms, Failed)
        && s.totalCancelled == CountState(ms, Cancelled)
        && Totals(s) == |order|
        && s.queuedMessages == BuildQueuedMessageList(ms)
        && s.currentProcessing == BuildCurrentProcessingMessage(ms)
    {
      s := BuildQueueSummary(Values(Snapshot()));
    }

    /** `has_messages`: whether the priority queue holds any entry, stale ones included. */
    method HasMessages() returns (b: bool)
      ensures b <==> queue != []
      ensures Valid() && (exists id :: id in messages && messages[id].state == Queued) ==> b
    {
      b := queue != [];
      if Valid() && (exists id :: id in messages && messages[id].state == Queued) {
        var id :| id in messages && messages[id].state == Queued;
        HasMessagesSound(Snapshot(), id);
      }
    }
  }
}
