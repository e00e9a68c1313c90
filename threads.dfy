/**
 * The thread registry helpers: registering a message with its thread (index
 * and metadata), moving one state count when a message changes state, and the
 * preview text of a thread's latest message.
 *
 * The Python helpers mutate the dictionaries they are handed; here they take
 * the dictionaries as values and return the updated ones.
 */
module Threads {
  import opened Wrappers
  import opened Models

  /** The thread index, the metadata table, and the metadata table's key order. */
  datatype ThreadTables = ThreadTables(
    index: map<string, set<MessageId>>,
    metadata: map<string, ThreadMetadata>,
    threadOrder: seq<string>)

  /**
   * `initialize_or_update_thread_metadata`. A thread seen for the first time
   * gets an empty index entry and metadata stamped with the message's creation
   * time and zero counts; then the message id joins the index, the message
   * count and the count of the message's state each grow by one, and the last
   * activity becomes the message's creation time.
   */
  function InitializeOrUpdateThreadMetadata(
    threadId: string, m: Message,
    index: map<string, set<MessageId>>, metadata: map<string, ThreadMetadata>, threadOrder: seq<string>)
    : (r: ThreadTables)
    requires threadId in index ==> threadId in metadata
    ensures r.index.Keys == index.Keys + {threadId}
    ensures r.index[threadId] == (if threadId in index then index[threadId] else {}) + {m.id}
    ensures forall t :: t in index && t != threadId ==> r.index[t] == index[t]
    ensures r.metadata.Keys == metadata.Keys + {threadId}
    ensures forall t :: t in metadata && t != threadId ==> r.metadata[t] == metadata[t]
    ensures r.threadOrder == if threadId in metadata then threadOrder else threadOrder + [threadId]
    ensures var before := if threadId in index then metadata[threadId].messageCount else 0;
      r.metadata[threadId].messageCount == before + 1
    ensures var before := if threadId in index then metadata[threadId].states else ZeroCounts();
      forall s: MessageState :: Count(r.metadata[threadId].states, s) == Count(before, s) + (if s == m.state then 1 else 0)
    ensures var before := if threadId in index then Total(metadata[threadId].states) else 0;
      Total(r.metadata[threadId].states) == before + 1
    ensures r.metadata[threadId].threadId == (if threadId in index then metadata[threadId].threadId else threadId)
    ensures r.metadata[threadId].createdAt == (if threadId in index then metadata[threadId].createdAt else m.createdAt)
    ensures r.metadata[threadId].lastActivity == m.createdAt
  {
    var isNew := threadId !in index;
    var ids := if isNew then {} else index[threadId];
    var md := if isNew then ThreadMetadata(threadId, 0, m.createdAt, m.createdAt, ZeroCounts()) else metadata[threadId];
    var order := if threadId in metadata then threadOrder else threadOrder + [threadId];
    ThreadTables(index[threadId := ids + {m.id}], metadata[threadId := Record(md, m)], order)
  }

  /** One more message, in state `m.state`, created at the last activity. */
  function Record(md: ThreadMetadata, m: Message): (r: ThreadMetadata)
    ensures r.threadId == md.threadId && r.createdAt == md.createdAt
    ensures r.messageCount == md.messageCount + 1 && r.lastActivity == m.createdAt
    ensures forall s: MessageState :: Count(r.states, s) == Count(md.states, s) + (if s == m.state then 1 else 0)
    ensures Total(r.states) == Total(md.states) + 1
  {
    CountBump(md.states, m.state);
    md.(messageCount := md.messageCount + 1, lastActivity := m.createdAt,
        states := md.states[m.state := Count(md.states, m.state) + 1])
  }

  /**
   * On a thread's first message the metadata records that message alone: a
   * message count of 1, a count of 1 for its state and 0 for the others, and
   * the message's creation time as both creation time and last activity.
   */
  lemma FirstMessageMetadata(threadId: string, m: Message, metadata: map<string, ThreadMetadata>, threadOrder: seq<string>)
    requires m.state == Queued
    ensures var md := InitializeOrUpdateThreadMetadata(threadId, m, map[], metadata, threadOrder).metadata[threadId];
      md == ThreadMetadata(threadId, 1, m.createdAt, m.createdAt, md.states) &&
      Count(md.states, Queued) == 1 && Total(md.states) == 1 &&
      md.states.Keys == {Queued, Processing, Completed, Failed, Cancelled}
  {
  }

  /** `max(0, n - 1)` on the count being left. */
  function Decrement(n: nat): nat {
    if n == 0 then 0 else n - 1
  }

  /**
   * `update_thread_state_counts`. No-op when the message has no thread id (or
   * an empty one: Python tests truthiness) or the thread has no metadata.
   * Otherwise one count moves from `from` (never below 0) to `next`, and the last
   * activity becomes `now`.
   */
  function UpdateThreadStateCounts(
    m: Message, from: MessageState, next: MessageState, metadata: map<string, ThreadMetadata>, now: nat)
    : (r: map<string, ThreadMetadata>)
    ensures r.Keys == metadata.Keys
    ensures !Truthy(m.threadId) || m.threadId.value !in metadata ==> r == metadata
    ensures forall t :: t in metadata && Some(t) != m.threadId ==> r[t] == metadata[t]
    ensures Truthy(m.threadId) && m.threadId.value in metadata ==>
      var before := metadata[m.threadId.value];
      var after := r[m.threadId.value];
      && after == before.(lastActivity := now, states := after.states)
      && (from != next ==>
            && Count(after.states, from) == Decrement(Count(before.states, from))
            && Count(after.states, next) == Count(before.states, next) + 1)
      && (from == next ==> Count(after.states, from) == Decrement(Count(before.states, from)) + 1)
      && (forall s: MessageState :: s != from && s != next ==> Count(after.states, s) == Count(before.states, s))
  {
    if !Truthy(m.threadId) || m.threadId.value !in metadata then metadata
    else
      var t := m.threadId.value;
      var md := metadata[t];
      var left := md.states[from := Decrement(Count(md.states, from))];
      var states := left[next := Count(left, next) + 1];
      metadata[t := md.(states := states, lastActivity := now)]
  }

  /** When the state being left has a count of at least one, moving a count keeps the total. */
  lemma MoveKeepsTotal(m: Message, from: MessageState, next: MessageState, metadata: map<string, ThreadMetadata>, now: nat)
    requires Truthy(m.threadId) && m.threadId.value in metadata
    requires from != next && Count(metadata[m.threadId.value].states, from) >= 1
    ensures var r := UpdateThreadStateCounts(m, from, next, metadata, now);
      Total(r[m.threadId.value].states) == Total(metadata[m.threadId.value].states)
  {
    var r := UpdateThreadStateCounts(m, from, next, metadata, now);
    var before := metadata[m.threadId.value].states;
    var after := r[m.threadId.value].states;
    assert forall s: MessageState :: s != from && s != next ==> Count(after, s) == Count(before, s);
  }

  const PreviewLength: nat := 100

  /** The first message with the greatest creation time (`max(messages, key=created_at)`). */
  function LatestIndex(ms: seq<Message>): (i: nat)
    requires |ms| > 0
    ensures i < |ms|
    ensures forall j :: 0 <= j < |ms| ==> ms[j].createdAt <= ms[i].createdAt
    ensures forall j :: 0 <= j < i ==> ms[j].createdAt < ms[i].createdAt
  {
    if |ms| == 1 then 0
    else
      var k := LatestIndex(ms[..|ms| - 1]);
      if ms[|ms| - 1].createdAt > ms[k].createdAt then |ms| - 1 else k
  }

  /** The preview of a text: itself when at most 100 characters, else its first 97 and "...". */
  function Preview(text: string): (r: string)
    ensures |r| <= PreviewLength
    ensures |text| <= PreviewLength ==> r == text
    ensures |text| > PreviewLength ==> |r| == PreviewLength && r[..97] == text[..97] && r[97..] == "..."
  {
    if |text| > PreviewLength then text[..97] + "..." else text
  }

  /** `extract_last_message_preview`: `None` for no messages, else the preview of the latest one. */
  function ExtractLastMessagePreview(ms: seq<Message>): (r: Option<string>)
    ensures r.None? <==> ms == []
    ensures r.Some? ==> |r.value| <= PreviewLength
    ensures r.Some? ==>
      exists i :: 0 <= i < |ms| && r.value == Preview(ms[i].userMessage) &&
                  (forall j :: 0 <= j < |ms| ==> ms[j].createdAt <= ms[i].createdAt)
  {
    if ms == [] then None else Some(Preview(ms[LatestIndex(ms)].userMessage))
  }
}
