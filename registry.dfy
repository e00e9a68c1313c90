/**
 * The state of the threaded queue manager as one value, the effect of each
 * public operation on it, and the invariant every operation keeps.
 *
 * The fields mirror the manager's own: the message table (with its insertion
 * order), one priority queue per thread, the thread index, the thread metadata
 * (with its insertion order), the set of active threads and the insertion
 * counter. `nextId` hands out fresh message ids.
 */
module QueueRegistry {
  import opened Wrappers
  import opened Models
  import opened Sorting
  import opened State
  import opened Threads
  import opened Operations
  import opened Summary

  type Metadata = map<string, ThreadMetadata>

  datatype Registry = Registry(
    messages: map<MessageId, Message>,
    order: seq<MessageId>,
    queues: map<string, seq<Entry>>,
    index: map<string, set<MessageId>>,
    metadata: Metadata,
    threadOrder: seq<string>,
    active: set<string>,
    counter: nat,
    nextId: MessageId)

  /** A freshly constructed manager: nothing stored, counter at 0. */
  function EmptyRegistry(): Registry {
    Registry(map[], [], map[], map[], map[], [], {}, 0, 0)
  }

  // ---------------------------------------------------------------------------
  // The invariant
  // ---------------------------------------------------------------------------

  predicate Distinct<T(==)>(s: seq<T>) {
    forall i, j :: 0 <= i < j < |s| ==> s[i] != s[j]
  }

  /** The ids in `ids` whose message is in state `s`. */
  function Matching(ids: set<MessageId>, messages: map<MessageId, Message>, s: MessageState): set<MessageId> {
    set id | id in ids && id in messages && messages[id].state == s
  }

  /** The message ids a queue holds entries for. */
  function Ids(q: seq<Entry>): set<MessageId> {
    set e | e in q :: e.id
  }

  /** Entries are pushed with increasing counter values, and popping keeps their relative order. */
  predicate OrdersIncreasing(q: seq<Entry>) {
    forall i, j :: 0 <= i < j < |q| ==> q[i].order < q[j].order
  }

  /** The message table's key order lists each stored id once. */
  ghost predicate OrderWF(r: Registry) {
    && Distinct(r.order)
    && (forall id :: id in r.order <==> id in r.messages)
  }

  /** Every stored id is its message's own and has already been issued. */
  ghost predicate IdsWF(r: Registry) {
    forall id :: id in r.messages ==> r.messages[id].id == id && id < r.nextId
  }

  /** The message table: its key order, and fresh ids. */
  ghost predicate MessagesWF(r: Registry) {
    OrderWF(r) && IdsWF(r)
  }

  /** The metadata's key order lists each thread once. */
  ghost predicate ThreadOrderWF(r: Registry) {
    && Distinct(r.threadOrder)
    && (forall t :: t in r.threadOrder <==> t in r.metadata)
  }

  /** The thread tables share one key set. */
  ghost predicate ThreadKeysWF(r: Registry) {
    && r.metadata.Keys == r.index.Keys
    && r.queues.Keys == r.index.Keys
  }

  /** Each message is filed in the index under its own thread. */
  ghost predicate FiledWF(r: Registry) {
    forall id :: id in r.messages ==>
      && r.messages[id].threadId.Some?
      && r.messages[id].threadId.value in r.index
      && id in r.index[r.messages[id].threadId.value]
  }

  /** The index files only stored messages, each under its own thread. */
  ghost predicate IndexWF(r: Registry) {
    forall t, id :: t in r.index && id in r.index[t] ==> id in r.messages && r.messages[id].threadId == Some(t)
  }

  /** The thread tables: one key set in one order, each message filed under its own thread and nowhere else. */
  ghost predicate ThreadsWF(r: Registry) {
    ThreadOrderWF(r) && ThreadKeysWF(r) && FiledWF(r) && IndexWF(r)
  }

  /** Each thread's metadata names it, and its message count is its index size and the sum of its counts. */
  ghost predicate MetaWF(r: Registry) {
    forall t :: t in r.metadata ==>
      && r.metadata[t].threadId == t
      && Total(r.metadata[t].states) == r.metadata[t].messageCount
      && (t in r.index ==> r.metadata[t].messageCount == |r.index[t]|)
  }

  /** Each state's count is the number of messages of `ids` in that state. */
  ghost predicate CountsMatch(states: StateCounts, ids: set<MessageId>, messages: map<MessageId, Message>) {
    forall s: MessageState :: Count(states, s) == |Matching(ids, messages, s)|
  }

  /** For every thread but "" each state's count is the number of the thread's messages in that state. */
  ghost predicate StateCountsWF(r: Registry) {
    forall t :: t in r.metadata && t in r.index && t != "" ==>
      CountsMatch(r.metadata[t].states, r.index[t], r.messages)
  }

  /** The thread metadata agrees with the index and the messages' states. */
  ghost predicate CountsWF(r: Registry) {
    MetaWF(r) && StateCountsWF(r)
  }

  /** Entries in each queue are in push order. */
  ghost predicate QueueOrderWF(r: Registry) {
    forall t :: t in r.queues ==> OrdersIncreasing(r.queues[t])
  }

  /** Entry `e` of thread `t` carries a counter value already issued and the priority value of a message of the thread. */
  ghost predicate EntryOK(r: Registry, t: string, e: Entry) {
    && e.order < r.counter
    && t in r.index && e.id in r.index[t]
    && e.id in r.messages && e.prio == PriorityValue(r.messages[e.id].priority)
  }

  /** Every entry of every queue is as `EntryOK` says. */
  ghost predicate EntriesWF(r: Registry) {
    forall t, e :: t in r.queues && e in r.queues[t] ==> EntryOK(r, t, e)
  }

  /** Each QUEUED message has an entry in its thread's queue. */
  ghost predicate QueuedWF(r: Registry) {
    forall id :: id in r.messages && r.messages[id].state == Queued ==>
      && r.messages[id].threadId.Some?
      && r.messages[id].threadId.value in r.queues
      && id in Ids(r.queues[r.messages[id].threadId.value])
  }

  /** Active threads have queues, and each thread with a non-empty queue is active. */
  ghost predicate ActiveWF(r: Registry) {
    && r.active <= r.queues.Keys
    && (forall t :: t in r.queues && r.queues[t] != [] ==> t in r.active)
  }

  /** The thread queues and the active set agree with the messages. */
  ghost predicate QueuesWF(r: Registry) {
    QueueOrderWF(r) && EntriesWF(r) && QueuedWF(r) && ActiveWF(r)
  }

  ghost predicate Inv(r: Registry) {
    MessagesWF(r) && ThreadsWF(r) && CountsWF(r) && QueuesWF(r)
  }

  lemma EmptyRegistryInv()
    ensures Inv(EmptyRegistry())
  {
  }

  // ---------------------------------------------------------------------------
  // Small facts about the helpers
  // ---------------------------------------------------------------------------

  lemma MatchingAdd(ids: set<MessageId>, messages: map<MessageId, Message>, x: MessageId, m: Message, s: MessageState)
    requires x !in ids
    ensures var after := Matching(ids + {x}, messages[x := m], s);
      after == Matching(ids, messages, s) + (if m.state == s then {x} else {}) &&
      |after| == |Matching(ids, messages, s)| + (if m.state == s then 1 else 0)
  {
    var before := Matching(ids, messages, s);
    var after := Matching(ids + {x}, messages[x := m], s);
    var added: set<MessageId> := if m.state == s then {x} else {};
    assert x !in before;
    forall id ensures id in after <==> id in before + added {
      if id != x {
        assert id in after <==> id in before;
      }
    }
    assert after == before + added;
    assert before !! added;
  }

  lemma MatchingFrame(ids: set<MessageId>, messages: map<MessageId, Message>, x: MessageId, m: Message, s: MessageState)
    requires x !in ids
    ensures Matching(ids, messages[x := m], s) == Matching(ids, messages, s)
  {
  }

  lemma MatchingMove(ids: set<MessageId>, messages: map<MessageId, Message>, x: MessageId, m: Message, s: MessageState)
    requires x in ids && x in messages && messages[x].state != m.state
    ensures var before := Matching(ids, messages, s);
      var after := Matching(ids, messages[x := m], s);
      && (s == messages[x].state ==> x in before && after == before - {x} && |after| == |before| - 1)
      && (s == m.state ==> after == before + {x} && x !in before && |after| == |before| + 1)
      && (s != messages[x].state && s != m.state ==> after == before)
  {
    var before := Matching(ids, messages, s);
    var after := Matching(ids, messages[x := m], s);
    forall id | id != x ensures id in after <==> id in before {
    }
    if s == messages[x].state {
      assert x in before && x !in after;
      assert after == before - {x};
    } else if s == m.state {
      assert x !in before && x in after;
      assert after == before + {x};
    } else {
      assert x !in before && x !in after;
      assert after == before;
    }
  }

  /** Removing one entry keeps the others in order. */
  lemma RemoveAtKeepsOrder(q: seq<Entry>, i: nat)
    requires i < |q| && OrdersIncreasing(q)
    ensures OrdersIncreasing(RemoveAt(q, i))
  {
    var r := RemoveAt(q, i);
    forall a, b | 0 <= a < b < |r| ensures r[a].order < r[b].order {
      var a' := if a < i then a else a + 1;
      var b' := if b < i then b else b + 1;
      assert r[a] == q[a'] && r[b] == q[b'] && a' < b';
    }
  }

  lemma InMultiset(x: Entry, rest: seq<Entry>, q: seq<Entry>, e: Entry)
    requires multiset(rest) + multiset{x} == multiset(q)
    ensures e in rest ==> e in q
    ensures e in q && e != x ==> e in rest
  {
    assert e in rest <==> e in multiset(rest);
    assert e in q <==> e in multiset(q);
  }

  // ---------------------------------------------------------------------------
  // enqueue
  // ---------------------------------------------------------------------------

  /**
   * `enqueue`: create the message, store it, register it with its thread,
   * make sure the thread has a queue, push its entry and mark the thread
   * active. Returns the new state and the created message.
   */
  function EnqueueSpec(r: Registry, userMessage: string, threadId: string, priority: Priority, now: nat)
    : (Registry, Message)
    requires r.index.Keys <= r.metadata.Keys
  {
    var m := CreateMessage(r.nextId, userMessage, threadId, priority, now);
    var tables := InitializeOrUpdateThreadMetadata(threadId, m, r.index, r.metadata, r.threadOrder);
    var queues := EnsureThreadResources(threadId, r.queues);
    var pushed := AddMessageToQueue(threadId, priority, m.id, queues, r.counter);
    (Registry(r.messages[m.id := m], r.order + [m.id], pushed.0, tables.index, tables.metadata, tables.threadOrder,
              r.active + {threadId}, pushed.1, r.nextId + 1),
     m)
  }

  /**
   * The created message is QUEUED with the given content and is stored under
   * its fresh id, its thread is active and has an entry for it at the end of
   * its queue carrying the priority value and the old counter, and the
   * counter grows by one.
   */
  lemma EnqueueEffect(r: Registry, userMessage: string, threadId: string, priority: Priority, now: nat)
    requires Inv(r)
    ensures var (r', m) := EnqueueSpec(r, userMessage, threadId, priority, now);
      && m.state == Queued && m.userMessage == userMessage && m.priority == priority
      && m.threadId == Some(threadId) && m.createdAt == now
      && m.id !in r.messages && r'.messages == r.messages[m.id := m]
      && threadId in r'.active && threadId in r'.queues
      && r'.queues[threadId] == (if threadId in r.queues then r.queues[threadId] else []) + [Entry(PriorityValue(priority), r.counter, m.id)]
      && r'.counter == r.counter + 1
      && threadId in r'.index && m.id in r'.index[threadId]
  {
  }

  /** The shape of the state after registering the new QUEUED message `m` on thread `t`. */
  ghost predicate Added(r: Registry, r': Registry, m: Message, t: string) {
    && m.id == r.nextId && m.threadId == Some(t) && m.state == Queued
    && r'.messages == r.messages[m.id := m] && r'.nextId == r.nextId + 1
    && r'.index.Keys == r.index.Keys + {t}
    && r'.index[t] == (if t in r.index then r.index[t] else {}) + {m.id}
    && (forall t' :: t' in r.index && t' != t ==> r'.index[t'] == r.index[t'])
    && r'.metadata.Keys == r.metadata.Keys + {t}
    && (forall t' :: t' in r.metadata && t' != t ==> r'.metadata[t'] == r.metadata[t'])
    && r'.queues.Keys == r.queues.Keys + {t}
    && r'.queues[t] == (if t in r.queues then r.queues[t] else []) + [Entry(PriorityValue(m.priority), r.counter, m.id)]
    && (forall t' :: t' in r.queues && t' != t ==> r'.queues[t'] == r.queues[t'])
    && r'.active == r.active + {t} && r'.counter == r.counter + 1
  }

  /** The key orders after registering `m` on thread `t`: the id is appended, and the thread when it is new. */
  ghost predicate AddedOrders(r: Registry, r': Registry, m: Message, t: string) {
    && r'.order == r.order + [m.id]
    && r'.threadOrder == (if t in r.metadata then r.threadOrder else r.threadOrder + [t])
  }

  /** The thread's metadata after registering `m`: it names the thread and has one more message. */
  ghost predicate AddedMeta(r: Registry, r': Registry, t: string)
    requires r.index.Keys <= r.metadata.Keys && t in r'.metadata
  {
    && r'.metadata[t].threadId == (if t in r.index then r.metadata[t].threadId else t)
    && r'.metadata[t].messageCount == (if t in r.index then r.metadata[t].messageCount else 0) + 1
    && Total(r'.metadata[t].states) == (if t in r.index then Total(r.metadata[t].states) else 0) + 1
  }

  /** The thread's state counts after registering `m`: one more in QUEUED. */
  ghost predicate AddedStates(r: Registry, r': Registry, t: string)
    requires r.index.Keys <= r.metadata.Keys && t in r'.metadata
  {
    var before := if t in r.index then r.metadata[t].states else ZeroCounts();
    forall s: MessageState :: Count(r'.metadata[t].states, s) == Count(before, s) + (if s == Queued then 1 else 0)
  }

  lemma EnqueueShape(r: Registry, userMessage: string, threadId: string, priority: Priority, now: nat)
    requires r.index.Keys <= r.metadata.Keys
    ensures var (r', m) := EnqueueSpec(r, userMessage, threadId, priority, now);
      Added(r, r', m, threadId) && AddedOrders(r, r', m, threadId) && threadId in r'.metadata && AddedMeta(r, r', threadId) && AddedStates(r, r', threadId)
  {
  }

  /** An id no stored message and no thread's index entry uses. */
  ghost predicate Unused(r: Registry, x: MessageId) {
    x !in r.messages && forall t :: t in r.index ==> x !in r.index[t]
  }

  lemma NextIdUnused(r: Registry)
    requires IdsWF(r) && IndexWF(r)
    ensures Unused(r, r.nextId)
  {
  }

  lemma AddedOrderWF(r: Registry, r': Registry, m: Message, t: string)
    requires OrderWF(r) && m.id !in r.messages && Added(r, r', m, t) && AddedOrders(r, r', m, t)
    ensures OrderWF(r')
  {
    assert m.id !in r.order;
    forall i, j | 0 <= i < j < |r'.order| ensures r'.order[i] != r'.order[j] {
      if j == |r.order| {
        assert r'.order[i] == r.order[i];
        assert r.order[i] in r.order;
      } else {
        assert r'.order[i] == r.order[i] && r'.order[j] == r.order[j];
      }
    }
  }

  lemma AddedIdsWF(r: Registry, r': Registry, m: Message, t: string)
    requires IdsWF(r) && Added(r, r', m, t)
    ensures IdsWF(r')
  {
  }

  lemma AddedThreadOrderWF(r: Registry, r': Registry, m: Message, t: string)
    requires ThreadOrderWF(r) && Added(r, r', m, t) && AddedOrders(r, r', m, t)
    ensures ThreadOrderWF(r')
  {
    if t !in r.metadata {
      assert t !in r.threadOrder;
      forall i, j | 0 <= i < j < |r'.threadOrder| ensures r'.threadOrder[i] != r'.threadOrder[j] {
        if j == |r.threadOrder| {
          assert r'.threadOrder[i] == r.threadOrder[i];
          assert r.threadOrder[i] in r.threadOrder;
        } else {
          assert r'.threadOrder[i] == r.threadOrder[i] && r'.threadOrder[j] == r.threadOrder[j];
        }
      }
    }
  }

  lemma AddedThreadKeysWF(r: Registry, r': Registry, m: Message, t: string)
    requires ThreadKeysWF(r) && Added(r, r', m, t)
    ensures ThreadKeysWF(r')
  {
  }

  lemma AddedFiledWF(r: Registry, r': Registry, m: Message, t: string)
    requires FiledWF(r) && Added(r, r', m, t)
    ensures FiledWF(r')
  {
    forall id | id in r'.messages
      ensures r'.messages[id].threadId.Some? && r'.messages[id].threadId.value in r'.index
      ensures id in r'.index[r'.messages[id].threadId.value]
    {
      if id != m.id {
        var t' := r.messages[id].threadId.value;
        assert id in r.index[t'];
      }
    }
  }

  lemma AddedIndexWF(r: Registry, r': Registry, m: Message, t: string)
    requires IdsWF(r) && IndexWF(r) && Added(r, r', m, t)
    ensures IndexWF(r')
  {
    forall t', id | t' in r'.index && id in r'.index[t']
      ensures id in r'.messages && r'.messages[id].threadId == Some(t')
    {
      if t' == t {
        if id != m.id {
          assert t in r.index && id in r.index[t];
        }
      } else {
        assert t' in r.index && id in r.index[t'];
        assert id in r.messages && r.messages[id].threadId == Some(t');
        assert id < r.nextId;
      }
    }
  }

  lemma AddedMetaWF(r: Registry, r': Registry, m: Message, t: string)
    requires Unused(r, m.id) && ThreadKeysWF(r) && MetaWF(r)
    requires Added(r, r', m, t) && t in r'.metadata && AddedMeta(r, r', t)
    ensures MetaWF(r')
  {
    var ids := if t in r.index then r.index[t] else {};
    assert |r'.index[t]| == |ids| + 1;
    forall t' | t' in r'.metadata
      ensures r'.metadata[t'].threadId == t'
      ensures Total(r'.metadata[t'].states) == r'.metadata[t'].messageCount
      ensures t' in r'.index ==> r'.metadata[t'].messageCount == |r'.index[t']|
    {
      if t' != t {
        assert t' in r.metadata && r'.metadata[t'] == r.metadata[t'];
        assert t' in r.index && r'.index[t'] == r.index[t'];
      }
    }
  }

  /** The counts of the thread message `m` is registered with. */
  lemma AddedThreadCounts(
    ids: set<MessageId>, messages: map<MessageId, Message>, m: Message, before: StateCounts, after: StateCounts)
    requires m.id !in ids
    requires CountsMatch(before, ids, messages)
    requires forall s: MessageState :: Count(after, s) == Count(before, s) + (if s == m.state then 1 else 0)
    ensures CountsMatch(after, ids + {m.id}, messages[m.id := m])
  {
    forall s: MessageState ensures Count(after, s) == |Matching(ids + {m.id}, messages[m.id := m], s)| {
      MatchingAdd(ids, messages, m.id, m, s);
    }
  }

  /** A message outside `ids` does not change what the counts of `ids` must be. */
  lemma FrameCounts(states: StateCounts, ids: set<MessageId>, messages: map<MessageId, Message>, m: Message)
    requires m.id !in ids && CountsMatch(states, ids, messages)
    ensures CountsMatch(states, ids, messages[m.id := m])
  {
    forall s: MessageState ensures Count(states, s) == |Matching(ids, messages[m.id := m], s)| {
      MatchingFrame(ids, messages, m.id, m, s);
    }
  }

  lemma AddedStateCountsWF(r: Registry, r': Registry, m: Message, t: string)
    requires Unused(r, m.id) && ThreadKeysWF(r) && StateCountsWF(r)
    requires Added(r, r', m, t) && t in r'.metadata && AddedStates(r, r', t)
    ensures StateCountsWF(r')
  {
    forall t' | t' in r'.metadata && t' in r'.index && t' != ""
      ensures CountsMatch(r'.metadata[t'].states, r'.index[t'], r'.messages)
    {
      if t' != t {
        assert r'.metadata[t'] == r.metadata[t'] && r'.index[t'] == r.index[t'];
        assert m.id !in r.index[t'];
        FrameCounts(r.metadata[t'].states, r.index[t'], r.messages, m);
      } else if t in r.index {
        assert m.id !in r.index[t];
        AddedThreadCounts(r.index[t], r.messages, m, r.metadata[t].states, r'.metadata[t].states);
      } else {
        assert CountsMatch(ZeroCounts(), {}, r.messages) by {
          forall s: MessageState ensures Matching({}, r.messages, s) == {} { }
        }
        assert r'.index[t] == {} + {m.id};
        AddedThreadCounts({}, r.messages, m, ZeroCounts(), r'.metadata[t].states);
      }
    }
  }

  lemma AddedQueueOrderWF(r: Registry, r': Registry, m: Message, t: string)
    requires QueueOrderWF(r) && EntriesWF(r) && Added(r, r', m, t)
    ensures QueueOrderWF(r')
  {
    var q := if t in r.queues then r.queues[t] else [];
    var e0 := Entry(PriorityValue(m.priority), r.counter, m.id);
    assert r'.queues[t] == q + [e0];
    forall i, j | 0 <= i < j < |q + [e0]| ensures (q + [e0])[i].order < (q + [e0])[j].order {
      assert (q + [e0])[i] == q[i];
      assert q[i] in q;
    }
  }

  lemma AddedEntriesWF(r: Registry, r': Registry, m: Message, t: string)
    requires Unused(r, m.id) && EntriesWF(r) && Added(r, r', m, t)
    ensures EntriesWF(r')
  {
    var e0 := Entry(PriorityValue(m.priority), r.counter, m.id);
    forall t', e | t' in r'.queues && e in r'.queues[t'] ensures EntryOK(r', t', e) {
      if t' != t || e != e0 {
        assert e in r.queues[t'] && EntryOK(r, t', e);
        assert e.id != m.id;
      }
    }
  }

  lemma AddedQueuedWF(r: Registry, r': Registry, m: Message, t: string)
    requires QueuedWF(r) && Added(r, r', m, t)
    ensures QueuedWF(r')
  {
    var e0 := Entry(PriorityValue(m.priority), r.counter, m.id);
    forall id | id in r'.messages && r'.messages[id].state == Queued
      ensures r'.messages[id].threadId.Some? && r'.messages[id].threadId.value in r'.queues
      ensures id in Ids(r'.queues[r'.messages[id].threadId.value])
    {
      var t' := r'.messages[id].threadId.value;
      if id == m.id {
        assert e0 in r'.queues[t'];
      } else {
        assert r'.messages[id] == r.messages[id];
        var e :| e in r.queues[t'] && e.id == id;
        assert e in r'.queues[t'];
      }
    }
  }

  lemma EnqueuePreservesInv(r: Registry, userMessage: string, threadId: string, priority: Priority, now: nat)
    requires Inv(r)
    ensures Inv(EnqueueSpec(r, userMessage, threadId, priority, now).0)
  {
    var (r', m) := EnqueueSpec(r, userMessage, threadId, priority, now);
    EnqueueShape(r, userMessage, threadId, priority, now);
    NextIdUnused(r);
    AddedOrderWF(r, r', m, threadId);
    AddedIdsWF(r, r', m, threadId);
    AddedThreadOrderWF(r, r', m, threadId);
    AddedThreadKeysWF(r, r', m, threadId);
    AddedFiledWF(r, r', m, threadId);
    AddedIndexWF(r, r', m, threadId);
    AddedMetaWF(r, r', m, threadId);
    AddedStateCountsWF(r, r', m, threadId);
    AddedQueueOrderWF(r, r', m, threadId);
    AddedEntriesWF(r, r', m, threadId);
    AddedQueuedWF(r, r', m, threadId);
  }

  // ---------------------------------------------------------------------------
  // The count callback and one message replaced
  // ---------------------------------------------------------------------------

  /** `self._update_thread_state_counts`, stamped with the time of the call. */
  function CountsCallback(now: nat): (Metadata, Message, MessageState, MessageState) -> Metadata {
    (md: Metadata, m: Message, from: MessageState, next: MessageState) => UpdateThreadStateCounts(m, from, next, md, now)
  }

  predicate SameIdentity(a: Message, b: Message) {
    a.id == b.id && a.threadId == b.threadId && a.priority == b.priority
  }

  /**
   * `r'` is `r` with message `x` replaced by `m` of the same identity, and the
   * same ids, index and thread keys; the metadata values, queue contents,
   * active set and counter are left free.
   */
  ghost predicate Replaced(r: Registry, r': Registry, x: MessageId, m: Message) {
    && x in r.messages && SameIdentity(r.messages[x], m)
    && r'.messages == r.messages[x := m]
    && r'.order == r.order && r'.nextId == r.nextId
    && r'.index == r.index && r'.threadOrder == r.threadOrder
    && r'.metadata.Keys == r.metadata.Keys && r'.queues.Keys == r.queues.Keys
  }

  /** The metadata of `r'` is `r`'s after the count callback moved `x`'s old state to `m`'s. */
  ghost predicate Moved(r: Registry, r': Registry, x: MessageId, m: Message, now: nat) {
    x in r.messages && r'.metadata == UpdateThreadStateCounts(m, r.messages[x].state, m.state, r.metadata, now)
  }

  /** Every entry `r'` queues was queued in `r` under the same thread. */
  ghost predicate QueuesWithin(r: Registry, r': Registry) {
    forall t, e :: t in r'.queues && e in r'.queues[t] ==> t in r.queues && e in r.queues[t]
  }

  lemma ReplacedMessagesWF(r: Registry, r': Registry, x: MessageId, m: Message)
    requires MessagesWF(r) && Replaced(r, r', x, m)
    ensures MessagesWF(r')
  {
  }

  lemma ReplacedThreadsWF(r: Registry, r': Registry, x: MessageId, m: Message)
    requires ThreadsWF(r) && Replaced(r, r', x, m)
    ensures ThreadsWF(r')
  {
  }

  lemma ReplacedEntriesWF(r: Registry, r': Registry, x: MessageId, m: Message)
    requires EntriesWF(r) && Replaced(r, r', x, m) && r'.counter == r.counter && QueuesWithin(r, r')
    ensures EntriesWF(r')
  {
    forall t, e | t in r'.queues && e in r'.queues[t] ensures EntryOK(r', t, e) {
      assert EntryOK(r, t, e);
    }
  }

  /** With its queues untouched, a message that does not become QUEUED keeps every QUEUED message queued. */
  lemma ReplacedQueuedWF(r: Registry, r': Registry, x: MessageId, m: Message)
    requires QueuedWF(r) && Replaced(r, r', x, m) && r'.queues == r.queues
    requires m.state == Queued ==> r.messages[x].state == Queued
    ensures QueuedWF(r')
  {
  }

  /** A message keeping its state keeps the counts of a set of ids. */
  lemma SameStateCounts(
    states: StateCounts, ids: set<MessageId>, messages: map<MessageId, Message>, x: MessageId, m: Message)
    requires x in messages && messages[x].state == m.state && CountsMatch(states, ids, messages)
    ensures CountsMatch(states, ids, messages[x := m])
  {
    forall s: MessageState ensures Count(states, s) == |Matching(ids, messages[x := m], s)| {
      assert Matching(ids, messages[x := m], s) == Matching(ids, messages, s);
    }
  }

  lemma SameStateCountsWF(r: Registry, r': Registry, x: MessageId, m: Message)
    requires CountsWF(r) && Replaced(r, r', x, m) && m.state == r.messages[x].state && r'.metadata == r.metadata
    ensures CountsWF(r')
  {
    forall t | t in r'.metadata && t in r'.index && t != ""
      ensures CountsMatch(r'.metadata[t].states, r'.index[t], r'.messages)
    {
      SameStateCounts(r.metadata[t].states, r.index[t], r.messages, x, m);
    }
  }

  /** The counts of the thread whose message `x` moves to another state. */
  lemma MovedThreadCounts(
    ids: set<MessageId>, messages: map<MessageId, Message>, x: MessageId, m: Message,
    before: StateCounts, after: StateCounts)
    requires x in ids && x in messages && messages[x].state != m.state
    requires CountsMatch(before, ids, messages)
    requires Count(after, messages[x].state) == Decrement(Count(before, messages[x].state))
    requires Count(after, m.state) == Count(before, m.state) + 1
    requires forall s: MessageState :: s != messages[x].state && s != m.state ==> Count(after, s) == Count(before, s)
    ensures CountsMatch(after, ids, messages[x := m])
  {
    forall s: MessageState ensures Count(after, s) == |Matching(ids, messages[x := m], s)| {
      MatchingMove(ids, messages, x, m, s);
    }
  }

  lemma MovedMetaWF(r: Registry, r': Registry, x: MessageId, m: Message, now: nat)
    requires MetaWF(r) && StateCountsWF(r) && FiledWF(r)
    requires Replaced(r, r', x, m) && m.state != r.messages[x].state && Moved(r, r', x, m, now)
    ensures MetaWF(r')
  {
    var t := m.threadId.value;
    var a := r.messages[x].state;
    forall t' | t' in r'.metadata
      ensures r'.metadata[t'].threadId == t'
      ensures Total(r'.metadata[t'].states) == r'.metadata[t'].messageCount
      ensures t' in r'.index ==> r'.metadata[t'].messageCount == |r'.index[t']|
    {
      if t' == t && t != "" {
        assert x in Matching(r.index[t], r.messages, a);
        assert Count(r.metadata[t].states, a) >= 1;
        MoveKeepsTotal(m, a, m.state, r.metadata, now);
      } else {
        assert r'.metadata[t'] == r.metadata[t'];
      }
    }
  }

  lemma MovedStateCountsWF(r: Registry, r': Registry, x: MessageId, m: Message, now: nat)
    requires IdsWF(r) && StateCountsWF(r) && FiledWF(r) && IndexWF(r)
    requires Replaced(r, r', x, m) && m.state != r.messages[x].state && Moved(r, r', x, m, now)
    ensures StateCountsWF(r')
  {
    var t := m.threadId.value;
    assert m.id == x;
    forall t' | t' in r'.metadata && t' in r'.index && t' != ""
      ensures CountsMatch(r'.metadata[t'].states, r'.index[t'], r'.messages)
    {
      if t' == t {
        MovedThreadCounts(r.index[t], r.messages, x, m, r.metadata[t].states, r'.metadata[t].states);
      } else {
        assert r'.metadata[t'] == r.metadata[t'];
        assert x !in r.index[t'];
        FrameCounts(r.metadata[t'].states, r.index[t'], r.messages, m);
      }
    }
  }

  /**
   * A message that moves to a state other than QUEUED and is passed to the
   * count callback, with the queues, active set and counter untouched, keeps
   * the invariant.
   */
  lemma ChangedPreservesInv(r: Registry, r': Registry, x: MessageId, m: Message, now: nat)
    requires Inv(r) && Replaced(r, r', x, m) && Moved(r, r', x, m, now)
    requires m.state != r.messages[x].state && m.state != Queued
    requires r'.queues == r.queues && r'.active == r.active && r'.counter == r.counter
    ensures Inv(r')
  {
    ReplacedMessagesWF(r, r', x, m);
    ReplacedThreadsWF(r, r', x, m);
    MovedMetaWF(r, r', x, m, now);
    MovedStateCountsWF(r, r', x, m, now);
    assert QueuesWithin(r, r');
    ReplacedEntriesWF(r, r', x, m);
    ReplacedQueuedWF(r, r', x, m);
  }

  /** A message rewritten in its own state, with everything else untouched, keeps the invariant. */
  lemma RewrittenPreservesInv(r: Registry, r': Registry, x: MessageId, m: Message)
    requires Inv(r) && Replaced(r, r', x, m) && m.state == r.messages[x].state
    requires r'.metadata == r.metadata && r'.queues == r.queues && r'.active == r.active && r'.counter == r.counter
    ensures Inv(r')
  {
    ReplacedMessagesWF(r, r', x, m);
    ReplacedThreadsWF(r, r', x, m);
    SameStateCountsWF(r, r', x, m);
    assert QueuesWithin(r, r');
    ReplacedEntriesWF(r, r', x, m);
    ReplacedQueuedWF(r, r', x, m);
  }

  // ---------------------------------------------------------------------------
  // dequeue
  // ---------------------------------------------------------------------------

  /**
   * `dequeue`: `None` for a thread that has no queue; for an empty queue the
   * thread leaves the active set; otherwise the least entry is popped and
   * `process_dequeued_message` decides what it means.
   */
  function DequeueSpec(r: Registry, threadId: string, now: nat): (Registry, Option<Message>) {
    if threadId !in r.queues then (r, None)
    else if r.queues[threadId] == [] then (r.(active := r.active - {threadId}), None)
    else
      var p := PopMin(r.queues[threadId]);
      var processed := ProcessDequeuedMessage(
        threadId, p.rest, p.entry.id, r.messages, r.active, r.metadata, CountsCallback(now), now);
      (r.(queues := r.queues[threadId := p.rest], messages := processed.messages,
          active := processed.active, metadata := processed.counts),
       processed.result)
  }

  /** What popping leaves of message `m`: a QUEUED one starts PROCESSING, any other stays as it is. */
  function Dequeued(m: Message, now: nat): (m': Message)
    ensures SameIdentity(m, m') && m'.state != Queued
    ensures m.state == Queued ==> m' == m.(state := Processing, startedAt := Some(now))
    ensures m.state != Queued ==> m' == m
  {
    if m.state == Queued then m.(state := Processing, startedAt := Some(now)) else m
  }

  /** The empty-queue and unknown-thread branches. */
  lemma DequeueEdgeCases(r: Registry, threadId: string, now: nat)
    ensures threadId !in r.queues ==> DequeueSpec(r, threadId, now) == (r, None)
    ensures threadId in r.queues && r.queues[threadId] == [] ==>
      DequeueSpec(r, threadId, now) == (r.(active := r.active - {threadId}), None)
  {
  }

  /**
   * `r'` is `r` after popping the least entry of thread `threadId`'s non-empty
   * queue, with the entry's message replaced by `m`, no longer QUEUED: a count
   * moves only when the message was QUEUED, and the thread at most leaves the
   * active set.
   */
  ghost predicate Popped(r: Registry, r': Registry, threadId: string, m: Message, now: nat) {
    && threadId in r.queues && r.queues[threadId] != []
    && var p := PopMin(r.queues[threadId]);
      var x := p.entry.id;
      && Replaced(r, r', x, m) && m.state != Queued
      && r'.queues == r.queues[threadId := p.rest] && r'.counter == r.counter
      && (r.messages[x].state == Queued ==> Moved(r, r', x, m, now))
      && (r.messages[x].state != Queued ==> r'.metadata == r.metadata && m.state == r.messages[x].state)
      && (r'.active == DiscardIfEmpty(threadId, p.rest, r.active) || r'.active == r.active)
  }

  /**
   * Popping from a non-empty queue replaces the popped message by what
   * `Dequeued` makes of it; a CANCELLED message only takes its thread out of
   * the active set when the queue is now empty, and a message in any other
   * state not QUEUED changes nothing but the queue.
   */
  lemma DequeueShape(r: Registry, threadId: string, now: nat)
    requires EntriesWF(r) && threadId in r.queues && r.queues[threadId] != []
    ensures var p := PopMin(r.queues[threadId]);
      var x := p.entry.id;
      var r' := DequeueSpec(r, threadId, now).0;
      && x in r.messages
      && Popped(r, r', threadId, Dequeued(r.messages[x], now), now)
      && (r.messages[x].state in {Queued, Cancelled} ==> r'.active == DiscardIfEmpty(threadId, p.rest, r.active))
      && (r.messages[x].state !in {Queued, Cancelled} ==> r'.active == r.active)
  {
    var p := PopMin(r.queues[threadId]);
    assert EntryOK(r, threadId, p.entry);
    var x := p.entry.id;
    if r.messages[x].state != Queued {
      assert r.messages[x := r.messages[x]] == r.messages;
    }
  }

  /** The least entry of a queue in push order comes strictly before every entry left behind. */
  lemma PopMinLeast(q: seq<Entry>)
    requires q != [] && OrdersIncreasing(q)
    ensures var p := PopMin(q);
      forall e :: e in p.rest ==> p.entry.prio < e.prio || (p.entry.prio == e.prio && p.entry.order < e.order)
  {
    var p := PopMin(q);
    var i := MinIndex(q);
    forall e | e in p.rest
      ensures p.entry.prio < e.prio || (p.entry.prio == e.prio && p.entry.order < e.order)
    {
      var k :| 0 <= k < |p.rest| && p.rest[k] == e;
      var k' := if k < i then k else k + 1;
      assert e == q[k'] && k' != i;
      assert EntryLe(p.entry, e);
      assert p.entry.order != e.order;
    }
  }

  /**
   * A non-empty queue hands out its least entry: every entry left behind comes
   * strictly later in (priority value, insertion counter) order, so equal
   * priorities come out first in, first out. A QUEUED message behind the entry
   * is returned in PROCESSING with `startedAt` stamped; a CANCELLED one is
   * skipped; for any other state `None` comes back and the active set is left
   * as it was.
   */
  lemma DequeueTakesLeast(r: Registry, threadId: string, now: nat)
    requires QueueOrderWF(r) && EntriesWF(r) && IndexWF(r) && ActiveWF(r)
    requires threadId in r.queues && r.queues[threadId] != []
    ensures var p := PopMin(r.queues[threadId]);
      var (r', res) := DequeueSpec(r, threadId, now);
      var x := p.entry.id;
      && p.entry in r.queues[threadId]
      && r'.queues == r.queues[threadId := p.rest]
      && multiset(p.rest) + multiset{p.entry} == multiset(r.queues[threadId])
      && (forall e :: e in p.rest ==>
            p.entry.prio < e.prio || (p.entry.prio == e.prio && p.entry.order < e.order))
      && x in r.messages && r.messages[x].threadId == Some(threadId)
      && (r.messages[x].state == Queued ==>
            && res == Some(r.messages[x].(state := Processing, startedAt := Some(now)))
            && r'.messages == r.messages[x := res.value]
            && (threadId in r'.active <==> p.rest != []))
      && (r.messages[x].state == Cancelled ==>
            res == None && r'.messages == r.messages && (threadId in r'.active <==> p.rest != []))
      && (r.messages[x].state != Queued && r.messages[x].state != Cancelled ==>
            res == None && r'.messages == r.messages && r'.active == r.active)
  {
    var p := PopMin(r.queues[threadId]);
    assert EntryOK(r, threadId, p.entry);
    PopMinLeast(r.queues[threadId]);
  }

  lemma DequeueQueueOrderWF(r: Registry, r': Registry, threadId: string)
    requires QueueOrderWF(r) && threadId in r.queues && r.queues[threadId] != []
    requires r'.queues == r.queues[threadId := PopMin(r.queues[threadId]).rest]
    ensures QueueOrderWF(r')
  {
    RemoveAtKeepsOrder(r.queues[threadId], MinIndex(r.queues[threadId]));
  }

  lemma DequeueQueuesWithin(r: Registry, r': Registry, threadId: string)
    requires threadId in r.queues && r.queues[threadId] != []
    requires r'.queues == r.queues[threadId := PopMin(r.queues[threadId]).rest]
    ensures QueuesWithin(r, r')
  {
    var p := PopMin(r.queues[threadId]);
    forall t, e | t in r'.queues && e in r'.queues[t] ensures t in r.queues && e in r.queues[t] {
      if t == threadId {
        InMultiset(p.entry, p.rest, r.queues[threadId], e);
      }
    }
  }

  /** Only the popped entry leaves, and its message is no longer QUEUED. */
  lemma DequeueQueuedWF(r: Registry, r': Registry, threadId: string, m: Message)
    requires QueuedWF(r) && threadId in r.queues && r.queues[threadId] != []
    requires var p := PopMin(r.queues[threadId]);
      Replaced(r, r', p.entry.id, m) && m.state != Queued && r'.queues == r.queues[threadId := p.rest]
    ensures QueuedWF(r')
  {
    var p := PopMin(r.queues[threadId]);
    forall id | id in r'.messages && r'.messages[id].state == Queued
      ensures r'.messages[id].threadId.Some? && r'.messages[id].threadId.value in r'.queues
      ensures id in Ids(r'.queues[r'.messages[id].threadId.value])
    {
      assert r'.messages[id] == r.messages[id];
      var t := r.messages[id].threadId.value;
      var e :| e in r.queues[t] && e.id == id;
      if t == threadId {
        InMultiset(p.entry, p.rest, r.queues[threadId], e);
      }
      assert e in r'.queues[t];
    }
  }

  lemma DequeueActiveWF(r: Registry, r': Registry, threadId: string)
    requires ActiveWF(r) && threadId in r.queues && r.queues[threadId] != []
    requires var p := PopMin(r.queues[threadId]);
      && r'.queues == r.queues[threadId := p.rest]
      && (r'.active == DiscardIfEmpty(threadId, p.rest, r.active) || r'.active == r.active)
    ensures ActiveWF(r')
  {
  }

  /** Every pop of the kind `Popped` describes keeps the invariant. */
  lemma PoppedPreservesInv(r: Registry, r': Registry, threadId: string, m: Message, now: nat)
    requires Inv(r) && Popped(r, r', threadId, m, now)
    ensures Inv(r')
  {
    var x := PopMin(r.queues[threadId]).entry.id;
    ReplacedMessagesWF(r, r', x, m);
    ReplacedThreadsWF(r, r', x, m);
    if r.messages[x].state == Queued {
      MovedMetaWF(r, r', x, m, now);
      MovedStateCountsWF(r, r', x, m, now);
    } else {
      SameStateCountsWF(r, r', x, m);
    }
    DequeueQueueOrderWF(r, r', threadId);
    DequeueQueuesWithin(r, r', threadId);
    ReplacedEntriesWF(r, r', x, m);
    DequeueQueuedWF(r, r', threadId, m);
    DequeueActiveWF(r, r', threadId);
  }

  /** Every conjunct of the invariant but `ActiveWF` ignores the active set. */
  lemma ActiveOnlyMessagesWF(r: Registry, r': Registry)
    requires MessagesWF(r) && ThreadsWF(r) && r' == r.(active := r'.active)
    ensures MessagesWF(r') && ThreadsWF(r')
  {
  }

  lemma ActiveOnlyCountsWF(r: Registry, r': Registry)
    requires CountsWF(r) && r' == r.(active := r'.active)
    ensures CountsWF(r')
  {
  }

  lemma ActiveOnlyQueuesWF(r: Registry, r': Registry)
    requires QueueOrderWF(r) && EntriesWF(r) && QueuedWF(r) && r' == r.(active := r'.active)
    ensures QueueOrderWF(r') && EntriesWF(r') && QueuedWF(r')
  {
    forall t, e | t in r'.queues && e in r'.queues[t] ensures EntryOK(r', t, e) {
      assert EntryOK(r, t, e);
    }
  }

  /** A thread whose queue is empty can leave the active set. */
  lemma DiscardEmptyPreservesInv(r: Registry, threadId: string)
    requires Inv(r) && threadId in r.queues && r.queues[threadId] == []
    ensures Inv(r.(active := r.active - {threadId}))
  {
    var r' := r.(active := r.active - {threadId});
    ActiveOnlyMessagesWF(r, r');
    ActiveOnlyCountsWF(r, r');
    ActiveOnlyQueuesWF(r, r');
  }

  lemma DequeuePreservesInv(r: Registry, threadId: string, now: nat)
    requires Inv(r)
    ensures Inv(DequeueSpec(r, threadId, now).0)
  {
    var r' := DequeueSpec(r, threadId, now).0;
    if threadId !in r.queues {
      assert r' == r;
    } else if r.queues[threadId] == [] {
      DiscardEmptyPreservesInv(r, threadId);
    } else {
      DequeueShape(r, threadId, now);
      var x := PopMin(r.queues[threadId]).entry.id;
      PoppedPreservesInv(r, r', threadId, Dequeued(r.messages[x], now), now);
    }
  }

  /** Dequeuing from one thread leaves every other thread's queue as it was. */
  lemma DequeueIsolation(r: Registry, threadId: string, other: string, now: nat)
    requires other != threadId && other in r.queues
    ensures var r' := DequeueSpec(r, threadId, now).0;
      other in r'.queues && r'.queues[other] == r.queues[other]
  {
  }

  /** Enqueuing on one thread leaves every other thread's queue as it was. */
  lemma EnqueueIsolation(r: Registry, userMessage: string, threadId: string, priority: Priority, now: nat, other: string)
    requires r.index.Keys <= r.metadata.Keys
    requires other != threadId && other in r.queues
    ensures var r' := EnqueueSpec(r, userMessage, threadId, priority, now).0;
      other in r'.queues && r'.queues[other] == r.queues[other]
  {
  }

  // ---------------------------------------------------------------------------
  // update_state, cancel_message, set_result, add_chunk
  // ---------------------------------------------------------------------------

  /**
   * `update_state`: false for an unknown id or a transition the table does
   * not allow; otherwise the change is applied with the count callback.
   */
  function UpdateStateSpec(r: Registry, id: MessageId, newState: MessageState, error: Option<string>, now: nat)
    : (Registry, bool)
  {
    if id !in r.messages then (r, false)
    else if !ValidateStateTransition(r.messages[id].state, newState) then (r, false)
    else
      var applied := ApplyStateChange(r.messages[id], newState, error, now, r.metadata, CountsCallback(now));
      (r.(messages := r.messages[id := applied.message], metadata := applied.counts), applied.ok)
  }

  /**
   * A rejected update changes nothing; an accepted one leaves the message in the
   * new state with the timestamp and error rules of `apply_state_change`, and
   * every other message as it was.
   */
  lemma UpdateStateEffect(r: Registry, id: MessageId, newState: MessageState, error: Option<string>, now: nat)
    ensures var (r', ok) := UpdateStateSpec(r, id, newState, error, now);
      && (ok <==> id in r.messages && ValidateStateTransition(r.messages[id].state, newState))
      && (!ok ==> r' == r)
      && (ok ==>
            var m := r.messages[id];
            && r'.messages.Keys == r.messages.Keys
            && r'.messages[id].state == newState
            && r'.messages[id].error == (if newState == Failed && Truthy(error) then error else m.error)
            && (newState == Processing ==> r'.messages[id].startedAt == Some(now) && r'.messages[id].completedAt == m.completedAt)
            && (IsTerminal(newState) ==> r'.messages[id].completedAt == Some(now) && r'.messages[id].startedAt == m.startedAt)
            && SameIdentity(r'.messages[id], m)
            && (forall other :: other in r.messages && other != id ==> r'.messages[other] == r.messages[other])
            && r'.metadata == UpdateThreadStateCounts(r'.messages[id], m.state, newState, r.metadata, now)
            && r'.queues == r.queues && r'.active == r.active && r'.index == r.index
            && r'.order == r.order && r'.threadOrder == r.threadOrder
            && r'.counter == r.counter && r'.nextId == r.nextId)
  {
    if id in r.messages && ValidateStateTransition(r.messages[id].state, newState) {
      ApplyStateChangeKeepsContent(r.messages[id], newState, error, now, r.metadata, CountsCallback(now));
    }
  }

  lemma UpdateStatePreservesInv(r: Registry, id: MessageId, newState: MessageState, error: Option<string>, now: nat)
    requires Inv(r)
    ensures Inv(UpdateStateSpec(r, id, newState, error, now).0)
  {
    if id in r.messages && ValidateStateTransition(r.messages[id].state, newState) {
      var m := r.messages[id];
      var applied := ApplyStateChange(m, newState, error, now, r.metadata, CountsCallback(now));
      var r' := UpdateStateSpec(r, id, newState, error, now).0;
      ApplyStateChangeKeepsContent(m, newState, error, now, r.metadata, CountsCallback(now));
      ValidTransitionsExactly(m.state, newState);
      assert Replaced(r, r', id, applied.message);
      assert Moved(r, r', id, applied.message, now);
      ChangedPreservesInv(r, r', id, applied.message, now);
    }
  }

  /** `CancelResult`: whether the cancel happened, and why not. */
  datatype CancelResult = CancelResult(success: bool, errorMessage: Option<string>)

  /**
   * `cancel_message`: only a QUEUED message can be cancelled; it becomes
   * CANCELLED with `completedAt` stamped and one count moves from QUEUED to
   * CANCELLED. Its queue entry stays and is skipped when popped.
   */
  function CancelSpec(r: Registry, id: MessageId, now: nat): (Registry, CancelResult) {
    if id !in r.messages then (r, CancelResult(false, Some("Message not found")))
    else if r.messages[id].state != Queued then
      (r, CancelResult(false, Some("Cannot cancel message in state: " + StateDisplay(r.messages[id].state))))
    else
      var cancelled := r.messages[id].(state := Cancelled, completedAt := Some(now));
      (r.(messages := r.messages[id := cancelled],
          metadata := UpdateThreadStateCounts(cancelled, Queued, Cancelled, r.metadata, now)),
       CancelResult(true, None))
  }

  /**
   * The cancel succeeds exactly for a QUEUED message, with no error text;
   * otherwise nothing changes and the error names the reason, so terminal
   * messages stay as they are.
   */
  lemma CancelEffect(r: Registry, id: MessageId, now: nat)
    ensures var (r', res) := CancelSpec(r, id, now);
      && (res.success <==> id in r.messages && r.messages[id].state == Queued)
      && (res.success <==> res.errorMessage.None?)
      && (!res.success ==> r' == r)
      && (id !in r.messages ==> res.errorMessage == Some("Message not found"))
      && (id in r.messages && r.messages[id].state != Queued ==>
            res.errorMessage == Some("Cannot cancel message in state: " + StateDisplay(r.messages[id].state)))
      && (res.success ==>
            && r'.messages == r.messages[id := r.messages[id].(state := Cancelled, completedAt := Some(now))]
            && r'.metadata == UpdateThreadStateCounts(r'.messages[id], Queued, Cancelled, r.metadata, now)
            && r'.queues == r.queues && r'.active == r.active && r'.index == r.index
            && r'.order == r.order && r'.threadOrder == r.threadOrder
            && r'.counter == r.counter && r'.nextId == r.nextId)
  {
  }

  lemma CancelPreservesInv(r: Registry, id: MessageId, now: nat)
    requires Inv(r)
    ensures Inv(CancelSpec(r, id, now).0)
  {
    if id in r.messages && r.messages[id].state == Queued {
      var cancelled := r.messages[id].(state := Cancelled, completedAt := Some(now));
      var r' := CancelSpec(r, id, now).0;
      assert Replaced(r, r', id, cancelled);
      assert Moved(r, r', id, cancelled, now);
      ChangedPreservesInv(r, r', id, cancelled, now);
    }
  }

  /** `set_result`: overwrite the result of a known message, whatever its state. */
  function SetResultSpec(r: Registry, id: MessageId, result: string): (Registry, bool) {
    if id !in r.messages then (r, false)
    else (r.(messages := r.messages[id := r.messages[id].(result := Some(result))]), true)
  }

  /** `add_chunk`: append to the chunks of a known message, whatever its state. */
  function AddChunkSpec(r: Registry, id: MessageId, chunk: string): (Registry, bool) {
    if id !in r.messages then (r, false)
    else (r.(messages := r.messages[id := r.messages[id].(chunks := r.messages[id].chunks + [chunk])]), true)
  }

  /**
   * Both mutators fail only for an unknown id; `add_chunk` keeps the earlier
   * chunks and puts the new one last, `set_result` replaces the result, and
   * nothing else changes.
   */
  lemma ResultAndChunkEffect(r: Registry, id: MessageId, text: string)
    ensures var (r1, ok1) := SetResultSpec(r, id, text);
      && (ok1 <==> id in r.messages)
      && (ok1 ==> r1 == r.(messages := r.messages[id := r.messages[id].(result := Some(text))]))
      && (!ok1 ==> r1 == r)
    ensures var (r2, ok2) := AddChunkSpec(r, id, text);
      && (ok2 <==> id in r.messages)
      && (ok2 ==>
            && |r2.messages[id].chunks| == |r.messages[id].chunks| + 1
            && r2.messages[id].chunks[..|r.messages[id].chunks|] == r.messages[id].chunks
            && r2.messages[id].chunks[|r.messages[id].chunks|] == text
            && r2.messages[id] == r.messages[id].(chunks := r2.messages[id].chunks)
            && r2 == r.(messages := r2.messages))
      && (!ok2 ==> r2 == r)
  {
    if id in r.messages {
      var c := r.messages[id].chunks;
      assert (c + [text])[..|c|] == c;
    }
  }

  lemma ResultAndChunkPreserveInv(r: Registry, id: MessageId, text: string)
    requires Inv(r)
    ensures Inv(SetResultSpec(r, id, text).0) && Inv(AddChunkSpec(r, id, text).0)
  {
    if id in r.messages {
      var r1 := SetResultSpec(r, id, text).0;
      var r2 := AddChunkSpec(r, id, text).0;
      assert Replaced(r, r1, id, r1.messages[id]);
      RewrittenPreservesInv(r, r1, id, r1.messages[id]);
      assert Replaced(r, r2, id, r2.messages[id]);
      RewrittenPreservesInv(r, r2, id, r2.messages[id]);
    }
  }

  // ---------------------------------------------------------------------------
  // Queries
  // ---------------------------------------------------------------------------

  /** The messages of the table in its insertion order (`self._messages.values()`). */
  function Values(r: Registry): (ms: seq<Message>)
    requires forall id :: id in r.order ==> id in r.messages
    ensures |ms| == |r.order|
    ensures forall i :: 0 <= i < |r.order| ==> ms[i] == r.messages[r.order[i]]
  {
    seq(|r.order|, i requires 0 <= i < |r.order| => r.messages[r.order[i]])
  }

  /**
   * `get_queue_position`: `None` unless the message is QUEUED; otherwise the
   * number of QUEUED messages of any thread ahead of it.
   */
  function QueuePosition(r: Registry, id: MessageId): (pos: Option<nat>)
    requires MessagesWF(r)
    ensures pos.None? <==> id !in r.messages || r.messages[id].state != Queued
    ensures pos.Some? ==>
      pos.value == CountAhead(Values(r), id, PriorityValue(r.messages[id].priority), r.messages[id].createdAt)
  {
    if id !in r.messages || r.messages[id].state != Queued then None
    else Some(CountAhead(Values(r), id, PriorityValue(r.messages[id].priority), r.messages[id].createdAt))
  }

  /**
   * `has_messages`: for a (non-empty) thread id, whether that thread's queue
   * holds any entry, stale ones included; otherwise whether any thread is
   * active.
   */
  function HasMessages(r: Registry, threadId: Option<string>): bool {
    if Truthy(threadId) then threadId.value in r.queues && r.queues[threadId.value] != []
    else r.active != {}
  }

  /**
   * Whenever some thread's queue holds an entry the manager reports messages;
   * the converse fails, since a stale entry can leave a thread active with an
   * empty queue.
   */
  lemma HasMessagesSound(r: Registry, t: string)
    requires Inv(r)
    requires t in r.queues && r.queues[t] != []
    ensures HasMessages(r, None) && (t != "" ==> HasMessages(r, Some(t)))
  {
  }

  /** The messages of the table, in its order, whose id is in `ids`. */
  function Select(order: seq<MessageId>, ids: set<MessageId>, messages: map<MessageId, Message>): (ms: seq<Message>)
    requires forall id :: id in order ==> id in messages
    ensures |ms| <= |order|
    ensures forall m :: m in ms <==> exists i :: 0 <= i < |order| && order[i] in ids && messages[order[i]] == m
  {
    if order == [] then []
    else
      var init := Select(order[..|order| - 1], ids, messages);
      var last := order[|order| - 1];
      assert forall i :: 0 <= i < |order| - 1 ==> order[..|order| - 1][i] == order[i];
      if last in ids then init + [messages[last]] else init
  }

  /** The ids of `order` that are in `ids`. */
  function Chosen(order: seq<MessageId>, ids: set<MessageId>): set<MessageId> {
    set id | id in order && id in ids
  }

  /** From a table order without repeats, `Select` picks each chosen message once. */
  lemma {:induction false} SelectExact(order: seq<MessageId>, ids: set<MessageId>, messages: map<MessageId, Message>)
    requires Distinct(order)
    requires forall id :: id in order ==> id in messages && messages[id].id == id
    ensures Distinct(Select(order, ids, messages))
    ensures |Select(order, ids, messages)| == |Chosen(order, ids)|
    decreases |order|
  {
    if order == [] {
      assert Chosen(order, ids) == {};
    } else {
      var init, last := order[..|order| - 1], order[|order| - 1];
      DistinctInit(order);
      ChosenSnoc(order, ids);
      SelectExact(init, ids, messages);
      if last in ids {
        SelectAvoids(init, ids, messages, last);
        DistinctSnoc(Select(init, ids, messages), messages[last]);
      }
    }
  }

  /** Dropping the last element of a sequence without repeats leaves one without it. */
  lemma DistinctInit<T>(s: seq<T>)
    requires s != [] && Distinct(s)
    ensures Distinct(s[..|s| - 1]) && s[|s| - 1] !in s[..|s| - 1]
  {
    var init := s[..|s| - 1];
    forall i | 0 <= i < |init| ensures init[i] == s[i] {}
  }

  /** Appending a new element keeps a sequence without repeats. */
  lemma DistinctSnoc<T>(s: seq<T>, x: T)
    requires Distinct(s) && x !in s
    ensures Distinct(s + [x])
  {
    forall i | 0 <= i < |s| ensures (s + [x])[i] == s[i] {}
  }

  /** The chosen ids of a table order, taken one id off the end. */
  lemma ChosenSnoc(order: seq<MessageId>, ids: set<MessageId>)
    requires order != []
    ensures var init, last := order[..|order| - 1], order[|order| - 1];
      Chosen(order, ids) == Chosen(init, ids) + (if last in ids then {last} else {})
  {
    assert order == order[..|order| - 1] + [order[|order| - 1]];
  }

  /** No message picked from a table order carries an id the order does not hold. */
  lemma SelectAvoids(order: seq<MessageId>, ids: set<MessageId>, messages: map<MessageId, Message>, x: MessageId)
    requires forall id :: id in order ==> id in messages && messages[id].id == id
    requires x !in order && x in messages && messages[x].id == x
    ensures messages[x] !in Select(order, ids, messages)
  {
    forall m | m in Select(order, ids, messages) ensures m.id != x {
      var i :| 0 <= i < |order| && order[i] in ids && messages[order[i]] == m;
      assert order[i] in order;
    }
  }

  /** A sequence without repeats holds each value at most once. */
  lemma {:induction false} DistinctMultiplicity<T>(s: seq<T>, x: T)
    requires Distinct(s)
    ensures multiset(s)[x] <= 1
    decreases |s|
  {
    if s != [] {
      assert s == [s[0]] + s[1..];
      assert Distinct(s[1..]) by {
        forall i, j | 0 <= i < j < |s[1..]| ensures s[1..][i] != s[1..][j] {
          assert s[1..][i] == s[i + 1] && s[1..][j] == s[j + 1];
        }
      }
      DistinctMultiplicity(s[1..], x);
      if x == s[0] {
        assert x !in s[1..] by {
          forall i | 0 <= i < |s[1..]| ensures s[1..][i] != x {
            assert s[1..][i] == s[i + 1];
          }
        }
      }
    }
  }

  /** Two equal elements at different positions count twice. */
  lemma CountsTwice<T>(s: seq<T>, i: int, j: int)
    requires 0 <= i < j < |s| && s[i] == s[j]
    ensures multiset(s)[s[i]] >= 2
  {
    assert s == s[..j] + s[j..];
    assert s[..j][i] == s[i];
    assert s[j..][0] == s[j];
  }

  /** A rearrangement of a sequence without repeats has no repeats. */
  lemma DistinctOfPermutation<T>(a: seq<T>, b: seq<T>)
    requires multiset(a) == multiset(b) && Distinct(a)
    ensures Distinct(b)
  {
    forall i, j | 0 <= i < j < |b| ensures b[i] != b[j] {
      DistinctMultiplicity(a, b[i]);
      if b[i] == b[j] {
        CountsTwice(b, i, j);
      }
    }
  }

  function CreatedKey(m: Message): Key {
    (m.createdAt, 0)
  }

  /**
   * `get_thread_messages`: the thread's messages sorted by creation time, or
   * none for an unknown thread. (The index is a set; the model visits it in
   * table order before the stable sort.)
   */
  function ThreadMessages(r: Registry, t: string): (ms: seq<Message>)
    requires MessagesWF(r)
    ensures SortedBy(ms, CreatedKey)
    ensures t !in r.index ==> ms == []
    ensures t in r.index ==>
      forall m :: m in ms <==> exists id :: id in r.index[t] && id in r.messages && r.messages[id] == m
    ensures Distinct(ms)
    ensures t in r.index ==> |ms| == |r.index[t] * r.messages.Keys|
  {
    if t !in r.index || r.index[t] == {} then []
    else
      var selected := Select(r.order, r.index[t], r.messages);
      var ms := SortBy(selected, CreatedKey);
      SelectExact(r.order, r.index[t], r.messages);
      DistinctOfPermutation(selected, ms);
      assert Chosen(r.order, r.index[t]) == r.index[t] * r.messages.Keys;
      assert forall m :: m in ms <==> m in selected by {
        forall m ensures m in ms <==> m in selected {
          assert m in ms <==> m in multiset(ms);
          assert m in selected <==> m in multiset(selected);
        }
      }
      assert forall m :: m in selected <==> exists id :: id in r.index[t] && id in r.messages && r.messages[id] == m by {
        forall m ensures m in selected <==> exists id :: id in r.index[t] && id in r.messages && r.messages[id] == m {
          if exists id :: id in r.index[t] && id in r.messages && r.messages[id] == m {
            var id :| id in r.index[t] && id in r.messages && r.messages[id] == m;
            assert id in r.order;
            var i :| 0 <= i < |r.order| && r.order[i] == id;
          }
        }
      }
      ms
  }

  /** After `enqueue`, the thread's message list holds the new message. */
  lemma EnqueueListed(r: Registry, userMessage: string, threadId: string, priority: Priority, now: nat)
    requires Inv(r)
    ensures var (r', m) := EnqueueSpec(r, userMessage, threadId, priority, now);
      Inv(r') && m in ThreadMessages(r', threadId)
  {
    EnqueuePreservesInv(r, userMessage, threadId, priority, now);
    EnqueueEffect(r, userMessage, threadId, priority, now);
  }

  /** The messages listed for a thread preview: `index.get(t, set())`. */
  function ThreadPreviewSource(r: Registry, t: string): seq<Message>
    requires MessagesWF(r)
  {
    Select(r.order, if t in r.index then r.index[t] else {}, r.messages)
  }

  /** The summary `list_threads` builds for one thread. */
  function SummaryOf(r: Registry, t: string): (s: ThreadSummary)
    requires MessagesWF(r) && t in r.metadata
    ensures s.threadId == t
    ensures s.messageCount == r.metadata[t].messageCount
    ensures s.createdAt == r.metadata[t].createdAt && s.lastActivity == r.metadata[t].lastActivity
    ensures s.lastMessagePreview == ExtractLastMessagePreview(ThreadPreviewSource(r, t))
  {
    var md := r.metadata[t];
    ThreadSummary(t, md.messageCount, md.createdAt, md.lastActivity, ExtractLastMessagePreview(ThreadPreviewSource(r, t)))
  }

  /** `reverse=True` on `last_activity`: a stable ascending sort on its negation. */
  function ActivityKey(s: ThreadSummary): Key {
    (-(s.lastActivity as int), 0)
  }

  /** Ascending in `ActivityKey` is most recent activity first. */
  lemma ActivityKeyDescending(ss: seq<ThreadSummary>)
    requires SortedBy(ss, ActivityKey)
    ensures forall i, j :: 0 <= i < j < |ss| ==> ss[i].lastActivity >= ss[j].lastActivity
  {
    forall i, j | 0 <= i < j < |ss| ensures ss[i].lastActivity >= ss[j].lastActivity {
      assert KeyLe(ActivityKey(ss[i]), ActivityKey(ss[j]));
    }
  }

  /** One summary per thread of `ts`, in that order. */
  function Summaries(r: Registry, ts: seq<string>): (ss: seq<ThreadSummary>)
    requires MessagesWF(r) && forall t :: t in ts ==> t in r.metadata
    ensures |ss| == |ts|
    ensures forall i :: 0 <= i < |ts| ==> ss[i] == SummaryOf(r, ts[i])
  {
    seq(|ts|, i requires 0 <= i < |ts| => SummaryOf(r, ts[i]))
  }

  /** A sequence holding the summaries of the threads of the metadata has one of each, and only theirs. */
  lemma SummariesCover(r: Registry, ss: seq<ThreadSummary>)
    requires MessagesWF(r) && ThreadOrderWF(r)
    requires multiset(ss) == multiset(Summaries(r, r.threadOrder))
    ensures forall t :: t in r.metadata <==> exists i :: 0 <= i < |ss| && ss[i].threadId == t
  {
    var all := Summaries(r, r.threadOrder);
    SameMembers(ss, all);
    forall t ensures t in r.metadata <==> exists i :: 0 <= i < |ss| && ss[i].threadId == t {
      if t in r.metadata {
        var k :| 0 <= k < |r.threadOrder| && r.threadOrder[k] == t;
        assert all[k] in ss;
        var i :| 0 <= i < |ss| && ss[i] == all[k];
      }
      if exists i :: 0 <= i < |ss| && ss[i].threadId == t {
        var i :| 0 <= i < |ss| && ss[i].threadId == t;
        assert ss[i] in all;
        var k :| 0 <= k < |all| && all[k] == ss[i];
      }
    }
  }

  lemma SummariesOfThreads(r: Registry, ss: seq<ThreadSummary>)
    requires MessagesWF(r) && ThreadOrderWF(r)
    requires multiset(ss) == multiset(Summaries(r, r.threadOrder))
    ensures forall i :: 0 <= i < |ss| ==> ss[i].threadId in r.metadata && ss[i] == SummaryOf(r, ss[i].threadId)
  {
    var all := Summaries(r, r.threadOrder);
    SameMembers(ss, all);
    forall i | 0 <= i < |ss| ensures ss[i].threadId in r.metadata && ss[i] == SummaryOf(r, ss[i].threadId) {
      assert ss[i] in all;
      var k :| 0 <= k < |all| && all[k] == ss[i];
    }
  }

  /**
   * `list_threads`: one summary per thread with metadata, most recent
   * activity first; threads with equal activity keep the metadata's order.
   */
  function ListThreadsSpec(r: Registry): (ss: seq<ThreadSummary>)
    requires MessagesWF(r) && ThreadOrderWF(r)
    ensures |ss| == |r.threadOrder|
    ensures multiset(ss) == multiset(Summaries(r, r.threadOrder))
    ensures forall i, j :: 0 <= i < j < |ss| ==> ss[i].lastActivity >= ss[j].lastActivity
    ensures forall t :: t in r.metadata <==> exists i :: 0 <= i < |ss| && ss[i].threadId == t
    ensures forall i :: 0 <= i < |ss| ==> ss[i].threadId in r.metadata && ss[i] == SummaryOf(r, ss[i].threadId)
    ensures forall k :: WithKey(ss, ActivityKey, k) == WithKey(Summaries(r, r.threadOrder), ActivityKey, k)
  {
    var ss := SortBy(Summaries(r, r.threadOrder), ActivityKey);
    forall k ensures WithKey(ss, ActivityKey, k) == WithKey(Summaries(r, r.threadOrder), ActivityKey, k) {
      SortByStable(Summaries(r, r.threadOrder), ActivityKey, k);
    }
    ActivityKeyDescending(ss);
    SummariesCover(r, ss);
    SummariesOfThreads(r, ss);
    ss
  }
}
