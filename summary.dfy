/**
 * Queue summary helpers: the queue-position count, the per-state totals, the
 * sorted list of queued messages and the currently processing message.
 *
 * Each helper reads the message table's values in the table's insertion order
 * (Python dictionaries iterate in insertion order), given here as a sequence.
 */
module Summary {
  import opened Wrappers
  import opened Models
  import opened Sorting

  // ---------------------------------------------------------------------------
  // count_higher_priority_messages
  // ---------------------------------------------------------------------------

  /**
   * A message counts as ahead of the target when it is QUEUED, is not the
   * target, and has a smaller priority value, or an equal one and an earlier
   * creation time.
   */
  predicate Ahead(msg: Message, id: MessageId, priorityValue: int, createdAt: nat) {
    msg.state == Queued && msg.id != id &&
    (PriorityValue(msg.priority) < priorityValue ||
     (PriorityValue(msg.priority) == priorityValue && msg.createdAt < createdAt))
  }

  /** How many of `ms` are ahead of the target. */
  function CountAhead(ms: seq<Message>, id: MessageId, priorityValue: int, createdAt: nat): nat {
    if ms == [] then 0
    else CountAhead(ms[..|ms| - 1], id, priorityValue, createdAt)
         + (if Ahead(ms[|ms| - 1], id, priorityValue, createdAt) then 1 else 0)
  }

  /** `count_higher_priority_messages`: one pass over the table with a counter. */
  method CountHigherPriorityMessages(id: MessageId, priorityValue: int, createdAt: nat, ms: seq<Message>)
    returns (position: nat)
    ensures position == CountAhead(ms, id, priorityValue, createdAt)
  {
    position := 0;
    var i := 0;
    while i < |ms|
      invariant 0 <= i <= |ms|
      invariant position == CountAhead(ms[..i], id, priorityValue, createdAt)
    {
      assert ms[..i + 1][..i] == ms[..i];
      var msg := ms[i];
      if msg.state == Queued && msg.id != id {
        var msgPriorityValue := PriorityValue(msg.priority);
        if msgPriorityValue < priorityValue || (msgPriorityValue == priorityValue && msg.createdAt < createdAt) {
          position := position + 1;
        }
      }
      i := i + 1;
    }
    assert ms[..|ms|] == ms;
  }

  /** The QUEUED messages of `ms`, in order. */
  function QueuedOnly(ms: seq<Message>): (r: seq<Message>)
    ensures |r| <= |ms|
    ensures forall m :: m in r <==> m in ms && m.state == Queued
  {
    if ms == [] then []
    else
      var init := QueuedOnly(ms[..|ms| - 1]);
      assert ms == ms[..|ms| - 1] + [ms[|ms| - 1]];
      if ms[|ms| - 1].state == Queued then init + [ms[|ms| - 1]] else init
  }

  /** How many of `ms` are QUEUED and are not the target. */
  function CountOtherQueued(ms: seq<Message>, id: MessageId): nat {
    if ms == [] then 0
    else CountOtherQueued(ms[..|ms| - 1], id) + (if ms[|ms| - 1].state == Queued && ms[|ms| - 1].id != id then 1 else 0)
  }

  /** The position is at most the number of other QUEUED messages. */
  lemma {:induction false} CountAheadBounded(ms: seq<Message>, id: MessageId, priorityValue: int, createdAt: nat)
    ensures CountAhead(ms, id, priorityValue, createdAt) <= CountOtherQueued(ms, id)
  {
    if ms != [] {
      CountAheadBounded(ms[..|ms| - 1], id, priorityValue, createdAt);
    }
  }

  /** Messages that are not QUEUED never change the position: only the QUEUED ones are looked at. */
  lemma {:induction false} CountAheadOnlyQueued(ms: seq<Message>, id: MessageId, priorityValue: int, createdAt: nat)
    ensures CountAhead(ms, id, priorityValue, createdAt) == CountAhead(QueuedOnly(ms), id, priorityValue, createdAt)
  {
    if ms != [] {
      var init := ms[..|ms| - 1];
      var last := ms[|ms| - 1];
      CountAheadOnlyQueued(init, id, priorityValue, createdAt);
      if last.state == Queued {
        assert (QueuedOnly(init) + [last])[..|QueuedOnly(init) + [last]| - 1] == QueuedOnly(init);
      }
    }
  }

  // ---------------------------------------------------------------------------
  // count_messages_by_state
  // ---------------------------------------------------------------------------

  /** How many of `ms` are in state `s`. */
  function CountState(ms: seq<Message>, s: MessageState): nat {
    if ms == [] then 0
    else CountState(ms[..|ms| - 1], s) + (if ms[|ms| - 1].state == s then 1 else 0)
  }

  /** Every message is in exactly one state, so the five counts add up to the number of messages. */
  lemma {:induction false} CountStatesSum(ms: seq<Message>)
    ensures CountState(ms, Queued) + CountState(ms, Processing) + CountState(ms, Completed)
            + CountState(ms, Failed) + CountState(ms, Cancelled) == |ms|
  {
    if ms != [] {
      CountStatesSum(ms[..|ms| - 1]);
    }
  }

  /** `count_messages_by_state`: a counter per state, all starting at 0, bumped once per message. */
  method CountMessagesByState(ms: seq<Message>) returns (counts: StateCounts)
    ensures counts.Keys == {Queued, Processing, Completed, Failed, Cancelled}
    ensures forall s: MessageState :: Count(counts, s) == CountState(ms, s)
    ensures Total(counts) == |ms|
  {
    counts := ZeroCounts();
    var i := 0;
    while i < |ms|
      invariant 0 <= i <= |ms|
      invariant counts.Keys == {Queued, Processing, Completed, Failed, Cancelled}
      invariant forall s: MessageState :: Count(counts, s) == CountState(ms[..i], s)
    {
      assert ms[..i + 1][..i] == ms[..i];
      var state := ms[i].state;
      assert state in counts.Keys by {
        assert state == Queued || state == Processing || state == Completed || state == Failed || state == Cancelled;
      }
      counts := counts[state := Count(counts, state) + 1];
      i := i + 1;
    }
    assert ms[..|ms|] == ms;
    CountStatesSum(ms);
  }

  // ---------------------------------------------------------------------------
  // The summary dictionaries
  // ---------------------------------------------------------------------------

  const DisplayLength: nat := 100

  /** `text[:n]`. */
  function Truncate(text: string, n: nat): (r: string)
    ensures |r| <= n && |r| <= |text|
    ensures r == text[..|r|]
    ensures |text| <= n ==> r == text
    ensures |text| > n ==> |r| == n
  {
    if |text| <= n then text else text[..n]
  }

  /** The dictionary shown for a queued message (timestamps stay clock readings). */
  datatype QueuedEntry = QueuedEntry(id: MessageId, priority: Priority, createdAt: nat, userMessage: string)

  /** The dictionary shown for the message being processed. */
  datatype ProcessingEntry = ProcessingEntry(id: MessageId, priority: Priority, startedAt: Option<nat>, userMessage: string)

  /** `build_queued_message_dict`: the text is cut to its first 100 characters. */
  function BuildQueuedMessageDict(m: Message): (d: QueuedEntry)
    ensures d.id == m.id && d.priority == m.priority && d.createdAt == m.createdAt
    ensures d.userMessage == Truncate(m.userMessage, DisplayLength)
  {
    QueuedEntry(m.id, m.priority, m.createdAt, Truncate(m.userMessage, DisplayLength))
  }

  /** `build_processing_message_dict`: the text is cut to its first 100 characters. */
  function BuildProcessingMessageDict(m: Message): (d: ProcessingEntry)
    ensures d.id == m.id && d.priority == m.priority && d.startedAt == m.startedAt
    ensures d.userMessage == Truncate(m.userMessage, DisplayLength)
  {
    ProcessingEntry(m.id, m.priority, m.startedAt, Truncate(m.userMessage, DisplayLength))
  }

  /** The sort key of the queued list: priority value, then creation time. */
  function QueueKey(d: QueuedEntry): Key {
    (PriorityValue(d.priority), d.createdAt)
  }

  function QueuedDicts(ms: seq<Message>): (r: seq<QueuedEntry>)
    ensures |r| == |ms|
    ensures forall i :: 0 <= i < |ms| ==> r[i] == BuildQueuedMessageDict(ms[i])
  {
    seq(|ms|, i requires 0 <= i < |ms| => BuildQueuedMessageDict(ms[i]))
  }

  /** Two sequences with the same multiset have the same members. */
  lemma SameMembers<T>(a: seq<T>, b: seq<T>)
    requires multiset(a) == multiset(b)
    ensures forall x :: x in a <==> x in b
  {
    forall x ensures x in a <==> x in b {
      assert x in a <==> x in multiset(a);
      assert x in b <==> x in multiset(b);
    }
  }

  /** The dictionaries of the QUEUED messages are the dictionaries of messages that are QUEUED, and short. */
  lemma QueuedDictsMembers(ms: seq<Message>)
    ensures forall d :: d in QueuedDicts(QueuedOnly(ms)) <==>
      exists m :: m in ms && m.state == Queued && d == BuildQueuedMessageDict(m)
    ensures forall d :: d in QueuedDicts(QueuedOnly(ms)) ==> |d.userMessage| <= DisplayLength
  {
    var q := QueuedOnly(ms);
    var dicts := QueuedDicts(q);
    forall d ensures d in dicts <==> exists m :: m in ms && m.state == Queued && d == BuildQueuedMessageDict(m) {
      if d in dicts {
        var i :| 0 <= i < |dicts| && dicts[i] == d;
        assert q[i] in q;
      }
      if exists m :: m in ms && m.state == Queued && d == BuildQueuedMessageDict(m) {
        var m :| m in ms && m.state == Queued && d == BuildQueuedMessageDict(m);
        assert m in q;
        var i :| 0 <= i < |q| && q[i] == m;
        assert dicts[i] == d;
      }
    }
  }

  /**
   * `build_queued_message_list`: the dictionaries of exactly the QUEUED
   * messages, sorted by priority value and then creation time; dictionaries
   * with equal keys keep the table's order.
   */
  function BuildQueuedMessageList(ms: seq<Message>): (r: seq<QueuedEntry>)
    ensures SortedBy(r, QueueKey)
    ensures |r| == |QueuedOnly(ms)|
    ensures multiset(r) == multiset(QueuedDicts(QueuedOnly(ms)))
    ensures forall d :: d in r <==> exists m :: m in ms && m.state == Queued && d == BuildQueuedMessageDict(m)
    ensures forall i :: 0 <= i < |r| ==> |r[i].userMessage| <= DisplayLength
    ensures forall k :: WithKey(r, QueueKey, k) == WithKey(QueuedDicts(QueuedOnly(ms)), QueueKey, k)
  {
    var dicts := QueuedDicts(QueuedOnly(ms));
    var r := SortBy(dicts, QueueKey);
    forall k ensures WithKey(r, QueueKey, k) == WithKey(dicts, QueueKey, k) {
      SortByStable(dicts, QueueKey, k);
    }
    SameMembers(r, dicts);
    QueuedDictsMembers(ms);
    assert forall i :: 0 <= i < |r| ==> r[i] in dicts by {
      forall i | 0 <= i < |r| ensures r[i] in dicts {
        assert r[i] in r;
      }
    }
    r
  }

  /**
   * `build_current_processing_message`: the dictionary of the first PROCESSING
   * message in table order, or `None` when no message is PROCESSING.
   */
  function BuildCurrentProcessingMessage(ms: seq<Message>): (r: Option<ProcessingEntry>)
    ensures r.None? <==> forall m :: m in ms ==> m.state != Processing
    ensures r.Some? ==> exists i :: FirstProcessing(ms, i) && r.value == BuildProcessingMessageDict(ms[i])
  {
    if ms == [] then None
    else if ms[0].state == Processing then
      assert FirstProcessing(ms, 0);
      Some(BuildProcessingMessageDict(ms[0]))
    else
      var r := BuildCurrentProcessingMessage(ms[1..]);
      assert forall m :: m in ms ==> m == ms[0] || m in ms[1..];
      if r.Some? then
        var i :| FirstProcessing(ms[1..], i) && r.value == BuildProcessingMessageDict(ms[1..][i]);
        FirstProcessingShift(ms, i);
        r
      else r
  }

  /** `i` is the position of the first PROCESSING message of `ms`. */
  predicate FirstProcessing(ms: seq<Message>, i: int) {
    0 <= i < |ms| && ms[i].state == Processing && forall j :: 0 <= j < i ==> ms[j].state != Processing
  }

  /** Behind a message that is not PROCESSING, the first PROCESSING position moves up by one. */
  lemma FirstProcessingShift(ms: seq<Message>, i: int)
    requires ms != [] && ms[0].state != Processing && FirstProcessing(ms[1..], i)
    ensures FirstProcessing(ms, i + 1) && ms[i + 1] == ms[1..][i]
  {
    forall j | 0 <= j < i + 1 ensures ms[j].state != Processing {
      if j > 0 { assert ms[j] == ms[1..][j - 1]; }
    }
  }

  /** `QueueSummaryResponse`. */
  datatype QueueSummary = QueueSummary(
    totalQueued: nat,
    totalProcessing: nat,
    totalCompleted: nat,
    totalFailed: nat,
    totalCancelled: nat,
    queuedMessages: seq<QueuedEntry>,
    currentProcessing: Option<ProcessingEntry>)

  /** The five totals of a summary. */
  function Totals(s: QueueSummary): nat {
    s.totalQueued + s.totalProcessing + s.totalCompleted + s.totalFailed + s.totalCancelled
  }

  /**
   * The summary assembled from the helpers above, as both queue managers do:
   * the totals are the state counts and add up to the number of messages, the
   * queued list is the sorted queued dictionaries.
   */
  method BuildQueueSummary(ms: seq<Message>) returns (s: QueueSummary)
    ensures s.totalQueued == CountState(ms, Queued) && s.totalProcessing == CountState(ms, Processing)
    ensures s.totalCompleted == CountState(ms, Completed) && s.totalFailed == CountState(ms, Failed)
    ensures s.totalCancelled == CountState(ms, Cancelled)
    ensures Totals(s) == |ms|
    ensures s.queuedMessages == BuildQueuedMessageList(ms)
    ensures s.currentProcessing == BuildCurrentProcessingMessage(ms)
  {
    var counts := CountMessagesByState(ms);
    s := QueueSummary(
      counts[Queued], counts[Processing], counts[Completed], counts[Failed], counts[Cancelled],
      BuildQueuedMessageList(ms), BuildCurrentProcessingMessage(ms));
    assert Count(counts, Queued) == counts[Queued];
  }
}
