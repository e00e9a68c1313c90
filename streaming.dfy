/**
 * The progress stream of one message: a poll loop that reads the message
 * from the queue manager and turns what it sees into server-sent events.
 *
 * Time is counted in half-second ticks: a QUEUED poll sleeps 2 seconds (4
 * ticks), a PROCESSING poll without new chunks 0.5 seconds (1 tick), and a
 * keepalive comment goes out once the idle count reaches the keepalive
 * interval (given in seconds).
 */
module Streaming {
  import opened Wrappers
  import opened Models
  import Legacy

  /** The events of the stream; the JSON payloads are kept as their fields. */
  datatype Event =
    | NotInitialized                                     // "error": the queue manager is not set
    | NotFound(id: MessageId)                            // "error": "Message not found: <id>"
    | Lost                                               // "error": "Message lost during streaming"
    | Waiting(position: Option<nat>)                     // "waiting", with the queue position
    | Chunk(chunk: string, index: nat)                   // "chunk", tagged with its index
    | Done(result: string, completedAt: Option<nat>)     // "done"
    | FailedEvent(error: string, completedAt: Option<nat>) // "error" with state "failed"
    | CancelledEvent(completedAt: Option<nat>)           // "cancelled"
    | Keepalive                                          // the ": keepalive" comment

  /** An event after which the stream ends. */
  predicate Terminal(e: Event) {
    e.NotInitialized? || e.NotFound? || e.Lost? || e.Done? || e.FailedEvent? || e.CancelledEvent?
  }

  /** Before the first lookup, inside the poll loop, or returned. */
  datatype Phase = NotStarted | Polling | Ended

  /** The generator's locals: the phase, `last_chunk_count` and the keepalive counter in ticks. */
  datatype Cursor = Cursor(phase: Phase, cursor: nat, ticks: nat)

  const Initial := Cursor(NotStarted, 0, 0)

  // ---------------------------------------------------------------------------
  // One step of the generator, as a function
  // ---------------------------------------------------------------------------

  /** One "chunk" event per index from `from` to the end, in index order. */
  function ChunkEvents(chunks: seq<string>, from: nat): (evs: seq<Event>)
    ensures |evs| == if from < |chunks| then |chunks| - from else 0
    ensures forall k :: 0 <= k < |evs| ==> evs[k] == Chunk(chunks[from + k], from + k)
  {
    if from < |chunks| then seq(|chunks| - from, k requires 0 <= k < |chunks| - from => Chunk(chunks[from + k], from + k))
    else []
  }

  /**
   * The start of the generator: an error and the end when there is no queue
   * manager or no such message; otherwise into the poll loop.
   */
  function OpenSpec(c: Cursor, hasManager: bool, id: MessageId, snapshot: Option<Message>): (Cursor, seq<Event>)
    requires c.phase == NotStarted
  {
    if !hasManager then (c.(phase := Ended), [NotInitialized])
    else if snapshot.None? then (c.(phase := Ended), [NotFound(id)])
    else (c.(phase := Polling), [])
  }

  /** The keepalive check at the bottom of the loop. */
  function KeepaliveCheck(c: Cursor, evs: seq<Event>, interval: nat): (Cursor, seq<Event>) {
    if c.ticks >= 2 * interval then (c.(ticks := 0), evs + [Keepalive]) else (c, evs)
  }

  /**
   * One pass of the poll loop, given what `get_message` and
   * `get_queue_position` returned. A returned generator yields nothing more.
   */
  function PollSpec(c: Cursor, snapshot: Option<Message>, position: Option<nat>, interval: nat): (Cursor, seq<Event>)
    requires c.phase != NotStarted
  {
    if c.phase == Ended then (c, [])
    else if snapshot.None? then (c.(phase := Ended), [Lost])
    else
      var m := snapshot.value;
      match m.state
      case Queued => KeepaliveCheck(c.(ticks := c.ticks + 4), [Waiting(position)], interval)
      case Processing =>
        if |m.chunks| > c.cursor then KeepaliveCheck(c.(cursor := |m.chunks|, ticks := 0), ChunkEvents(m.chunks, c.cursor), interval)
        else KeepaliveCheck(c.(ticks := c.ticks + 1), [], interval)
      case Completed => (c.(phase := Ended), ChunkEvents(m.chunks, c.cursor) + [Done(m.result.GetOr(""), m.completedAt)])
      case Failed =>
        (c.(phase := Ended), [FailedEvent(if Truthy(m.error) then m.error.value else "Unknown error", m.completedAt)])
      case Cancelled => (c.(phase := Ended), [CancelledEvent(m.completedAt)])
  }

  /** The polls one after another, starting inside the loop. */
  function Run(c: Cursor, polls: seq<(Option<Message>, Option<nat>)>, interval: nat): (Cursor, seq<Event>)
    requires c.phase != NotStarted
    decreases |polls|
  {
    if polls == [] then (c, [])
    else
      var first := PollSpec(c, polls[0].0, polls[0].1, interval);
      var rest := Run(first.0, polls[1..], interval);
      (rest.0, first.1 + rest.1)
  }

  // ---------------------------------------------------------------------------
  // What one poll does
  // ---------------------------------------------------------------------------

  /**
   * A poll never moves the cursor back, and moves it only to the length of
   * the chunk list it saw; a poll that stays in the loop leaves the phase and
   * the cursor within that list when it started within it.
   */
  lemma PollCursor(c: Cursor, snapshot: Option<Message>, position: Option<nat>, interval: nat)
    requires c.phase != NotStarted
    ensures var c1 := PollSpec(c, snapshot, position, interval).0;
      && c1.cursor >= c.cursor
      && (c1.cursor != c.cursor ==> snapshot.Some? && c1.cursor == |snapshot.value.chunks|)
      && (c.phase == Ended ==> c1 == c)
      && c1.phase != NotStarted
  {
  }

  /**
   * A QUEUED message yields one "waiting" event with the given position; a
   * PROCESSING one yields its new chunks, or nothing; either may be followed
   * by a keepalive. A COMPLETED one yields the remaining chunks and "done"
   * with the result (or ""); FAILED yields the error (or "Unknown error");
   * CANCELLED yields "cancelled"; a vanished message yields "lost". The last
   * four end the stream.
   */
  lemma PollEvents(c: Cursor, snapshot: Option<Message>, position: Option<nat>, interval: nat)
    requires c.phase == Polling
    ensures var r := PollSpec(c, snapshot, position, interval); var c1, evs := r.0, r.1;
      && (snapshot.None? ==> evs == [Lost] && c1.phase == Ended)
      && (snapshot.Some? ==>
            var m := snapshot.value;
            var k := if Keepalive in evs then [Keepalive] else [];
            && (m.state == Queued ==> evs == [Waiting(position)] + k && c1.phase == Polling)
            && (m.state == Processing ==> evs == ChunkEvents(m.chunks, c.cursor) + k && c1.phase == Polling)
            && (m.state == Completed ==>
                  evs == ChunkEvents(m.chunks, c.cursor) + [Done(if Truthy(m.result) then m.result.value else "", m.completedAt)]
                  && c1.phase == Ended)
            && (m.state == Failed ==>
                  evs == [FailedEvent(if Truthy(m.error) then m.error.value else "Unknown error", m.completedAt)]
                  && c1.phase == Ended)
            && (m.state == Cancelled ==> evs == [CancelledEvent(m.completedAt)] && c1.phase == Ended))
  {
    if snapshot.Some? {
      var m := snapshot.value;
      var c1, evs := PollSpec(c, snapshot, position, interval).0, PollSpec(c, snapshot, position, interval).1;
      if m.state == Processing && |m.chunks| <= c.cursor {
        assert ChunkEvents(m.chunks, c.cursor) == [];
      }
      if m.state in {Queued, Processing} {
        assert Keepalive !in ChunkEvents(m.chunks, c.cursor);
      }
    }
  }

  /**
   * The keepalive goes out exactly when the idle count, after this poll's
   * sleep or reset, has reached the interval, and then the count restarts at
   * 0; a poll that stays in the loop leaves the count below the interval, or
   * at 0.
   */
  lemma KeepaliveRule(c: Cursor, snapshot: Option<Message>, position: Option<nat>, interval: nat)
    requires c.phase == Polling
    ensures var r := PollSpec(c, snapshot, position, interval); var c1, evs := r.0, r.1;
      && (Keepalive in evs <==>
            && snapshot.Some? && snapshot.value.state in {Queued, Processing}
            && IdleAfterSleep(c, snapshot.value) >= 2 * interval)
      && (Keepalive in evs ==> evs[|evs| - 1] == Keepalive && c1.ticks == 0)
      && (c1.phase == Polling ==> c1.ticks < 2 * interval || c1.ticks == 0)
  {
    if snapshot.Some? {
      var m := snapshot.value;
      assert Keepalive !in ChunkEvents(m.chunks, c.cursor);
    }
  }

  /** The keepalive counter after the poll's sleep (or its reset on new chunks), before the check. */
  function IdleAfterSleep(c: Cursor, m: Message): nat {
    if m.state == Queued then c.ticks + 4
    else if |m.chunks| > c.cursor then 0
    else c.ticks + 1
  }

  // ---------------------------------------------------------------------------
  // What a run of polls does
  // ---------------------------------------------------------------------------

  lemma {:induction false} RunEnded(c: Cursor, polls: seq<(Option<Message>, Option<nat>)>, interval: nat)
    requires c.phase == Ended
    ensures Run(c, polls, interval) == (c, [])
    decreases |polls|
  {
    if polls != [] {
      assert PollSpec(c, polls[0].0, polls[0].1, interval) == (c, []);
      RunEnded(c, polls[1..], interval);
      assert Run(c, polls, interval) == (Run(c, polls[1..], interval).0, [] + Run(c, polls[1..], interval).1);
      assert [] + Run(c, polls[1..], interval).1 == [];
    } else {
      assert Run(c, polls, interval) == (c, []);
    }
  }

  /** A terminal event in `evs` can only be the last one, and then `ended` holds. */
  predicate TerminalLast(evs: seq<Event>, ended: bool) {
    forall k :: 0 <= k < |evs| && Terminal(evs[k]) ==> k == |evs| - 1 && ended
  }

  /** A terminal event can only be the last event of a poll, and that poll ends the stream. */
  lemma PollTerminalLast(c: Cursor, snapshot: Option<Message>, position: Option<nat>, interval: nat)
    requires c.phase != NotStarted
    ensures TerminalLast(PollSpec(c, snapshot, position, interval).1, PollSpec(c, snapshot, position, interval).0.phase == Ended)
  {
    if c.phase == Polling && snapshot.Some? {
      var m := snapshot.value;
      assert forall k :: 0 <= k < |ChunkEvents(m.chunks, c.cursor)| ==> !Terminal(ChunkEvents(m.chunks, c.cursor)[k]);
    }
  }

  /**
   * Over any run of polls at most one terminal event is emitted, it is the
   * last event, and the stream has ended after it.
   */
  lemma {:induction false} RunTerminalLast(c: Cursor, polls: seq<(Option<Message>, Option<nat>)>, interval: nat)
    requires c.phase != NotStarted
    ensures TerminalLast(Run(c, polls, interval).1, Run(c, polls, interval).0.phase == Ended)
    decreases |polls|
  {
    if polls != [] {
      var r1 := PollSpec(c, polls[0].0, polls[0].1, interval);
      var r2 := Run(r1.0, polls[1..], interval);
      var e1, e2 := r1.1, r2.1;
      assert Run(c, polls, interval) == (r2.0, e1 + e2);
      PollTerminalLast(c, polls[0].0, polls[0].1, interval);
      PollCursor(c, polls[0].0, polls[0].1, interval);
      RunTerminalLast(r1.0, polls[1..], interval);
      if r1.0.phase == Ended {
        RunEnded(r1.0, polls[1..], interval);
        assert e1 + e2 == e1;
      } else {
        assert forall k :: 0 <= k < |e1| ==> !Terminal(e1[k]);
        forall k | 0 <= k < |e1 + e2| && Terminal((e1 + e2)[k])
          ensures k == |e1 + e2| - 1 && r2.0.phase == Ended
        {
          assert k >= |e1| && (e1 + e2)[k] == e2[k - |e1|];
        }
      }
    }
  }

  /** The chunk events of a sequence of events, in order. */
  function Chunks(evs: seq<Event>): seq<Event>
    decreases |evs|
  {
    if evs == [] then [] else (if evs[0].Chunk? then [evs[0]] else []) + Chunks(evs[1..])
  }

  lemma {:induction false} ChunksAppend(a: seq<Event>, b: seq<Event>)
    ensures Chunks(a + b) == Chunks(a) + Chunks(b)
    decreases |a|
  {
    if a == [] {
      assert a + b == b;
    } else {
      assert (a + b)[0] == a[0] && (a + b)[1..] == a[1..] + b;
      ChunksAppend(a[1..], b);
    }
  }

  lemma {:induction false} ChunksOfChunkEvents(chunks: seq<string>, from: nat)
    ensures Chunks(ChunkEvents(chunks, from)) == ChunkEvents(chunks, from)
    decreases |chunks| - from
  {
    var evs := ChunkEvents(chunks, from);
    if from < |chunks| {
      assert evs[1..] == ChunkEvents(chunks, from + 1);
      ChunksOfChunkEvents(chunks, from + 1);
    }
  }

  /** `a` is a prefix of `b`. */
  predicate IsPrefix(a: seq<string>, b: seq<string>) {
    |a| <= |b| && b[..|a|] == a
  }

  /** Chunk events `from .. to - 1` of the list `f`, in index order. */
  function Slice(f: seq<string>, from: nat, to: nat): (evs: seq<Event>)
    requires from <= to <= |f|
    ensures |evs| == to - from
    ensures forall k :: 0 <= k < |evs| ==> evs[k] == Chunk(f[from + k], from + k)
  {
    seq(to - from, k requires 0 <= k < to - from => Chunk(f[from + k], from + k))
  }

  /**
   * One poll, when the message's chunk list is a prefix of `f`: its chunk
   * events are the slice of `f` from the cursor on, and a poll that stays in
   * the loop moves the cursor to the end of that slice.
   */
  lemma PollChunks(c: Cursor, snapshot: Option<Message>, position: Option<nat>, interval: nat, f: seq<string>)
    requires c.phase != NotStarted && c.cursor <= |f|
    requires snapshot.Some? ==> IsPrefix(snapshot.value.chunks, f)
    ensures ChunksFrom(PollSpec(c, snapshot, position, interval).1, f, c.cursor)
    ensures var r := PollSpec(c, snapshot, position, interval);
      r.0.phase != Ended ==> r.0.cursor == c.cursor + |Chunks(r.1)|
  {
    var r := PollSpec(c, snapshot, position, interval);
    if c.phase == Polling && snapshot.Some? && snapshot.value.state in {Processing, Completed} {
      PollChunksActive(c, snapshot.value, position, interval, f);
    } else {
      NoChunks(r.1);
    }
  }

  /** `PollChunks` for a poll that sees a PROCESSING or COMPLETED message. */
  lemma PollChunksActive(c: Cursor, m: Message, position: Option<nat>, interval: nat, f: seq<string>)
    requires c.phase == Polling && c.cursor <= |f| && m.state in {Processing, Completed}
    requires IsPrefix(m.chunks, f)
    ensures ChunksFrom(PollSpec(c, Some(m), position, interval).1, f, c.cursor)
    ensures var r := PollSpec(c, Some(m), position, interval);
      r.0.phase != Ended ==> r.0.cursor == c.cursor + |Chunks(r.1)|
  {
    var snapshot := Some(m);
    var r := PollSpec(c, snapshot, position, interval);
    {
      var ch := ChunkEvents(m.chunks, c.cursor);
      PollEvents(c, snapshot, position, interval);
      ChunkEventsFrom(m.chunks, c.cursor, f);
      var tail := if m.state == Completed then [Done(if Truthy(m.result) then m.result.value else "", m.completedAt)]
                  else if Keepalive in r.1 then [Keepalive] else [];
      assert r.1 == ch + tail;
      ChunksThenTail(ch, tail, f, c.cursor);
      if m.state == Processing && |m.chunks| <= c.cursor {
        assert ch == [];
      }
    }
  }

  /** The chunk events of a prefix of `f`, from a cursor on, are those of `f`. */
  lemma ChunkEventsFrom(chunks: seq<string>, from: nat, f: seq<string>)
    requires from <= |f| && IsPrefix(chunks, f)
    ensures ChunksFrom(ChunkEvents(chunks, from), f, from)
    ensures Chunks(ChunkEvents(chunks, from)) == ChunkEvents(chunks, from)
  {
    var ch := ChunkEvents(chunks, from);
    ChunksOfChunkEvents(chunks, from);
    assert forall k :: 0 <= k < |ch| ==> ch[k] == Chunk(f[from + k], from + k);
  }

  /** Events without chunks after chunk events add no chunks. */
  lemma ChunksThenTail(ch: seq<Event>, tail: seq<Event>, f: seq<string>, from: nat)
    requires ChunksFrom(ch, f, from) && forall k :: 0 <= k < |tail| ==> !tail[k].Chunk?
    ensures ChunksFrom(ch + tail, f, from) && Chunks(ch + tail) == Chunks(ch)
  {
    ChunksAppend(ch, tail);
    NoChunks(tail);
  }

  /** Events with no chunk event among them have no chunks. */
  lemma {:induction false} NoChunks(evs: seq<Event>)
    requires forall k :: 0 <= k < |evs| ==> !evs[k].Chunk?
    ensures Chunks(evs) == []
    decreases |evs|
  {
    if evs != [] {
      NoChunks(evs[1..]);
    }
  }

  /** The chunk events of `evs` are those of `f` from index `from` on, in order. */
  predicate ChunksFrom(evs: seq<Event>, f: seq<string>, from: nat) {
    from + |Chunks(evs)| <= |f| && Chunks(evs) == Slice(f, from, from + |Chunks(evs)|)
  }

  /** Every chunk list the polls saw is a prefix of `f`. */
  predicate PrefixesOf(polls: seq<(Option<Message>, Option<nat>)>, f: seq<string>) {
    forall i :: 0 <= i < |polls| && polls[i].0.Some? ==> IsPrefix(polls[i].0.value.chunks, f)
  }

  /** Adjacent slices join. */
  lemma SliceJoin(f: seq<string>, a: nat, b: nat, d: nat)
    requires a <= b <= d <= |f|
    ensures Slice(f, a, b) + Slice(f, b, d) == Slice(f, a, d)
  {
  }

  /** Chunk events from `from` up to `mid`, then from `mid` on, are chunk events from `from` on. */
  lemma ChunksFromJoin(a: seq<Event>, b: seq<Event>, f: seq<string>, from: nat, mid: nat)
    requires ChunksFrom(a, f, from) && mid == from + |Chunks(a)| && ChunksFrom(b, f, mid)
    ensures ChunksFrom(a + b, f, from)
  {
    ChunksAppend(a, b);
    SliceJoin(f, from, mid, mid + |Chunks(b)|);
  }

  /** The polls after the first also saw only prefixes of `f`. */
  lemma PrefixesOfTail(polls: seq<(Option<Message>, Option<nat>)>, f: seq<string>)
    requires polls != [] && PrefixesOf(polls, f)
    ensures polls[0].0.Some? ==> IsPrefix(polls[0].0.value.chunks, f)
    ensures PrefixesOf(polls[1..], f)
  {
    forall i | 0 <= i < |polls[1..]| ensures polls[1..][i] == polls[i + 1] {}
  }

  /**
   * Over a run of polls in which every chunk list seen is a prefix of one
   * list `f` (chunks are only appended), the chunk events emitted are the
   * chunks of `f` from the starting cursor on, each index once and in
   * increasing order, each with its own text.
   */
  lemma {:induction false} RunChunksInOrder(c: Cursor, polls: seq<(Option<Message>, Option<nat>)>, interval: nat, f: seq<string>)
    requires c.phase != NotStarted && c.cursor <= |f|
    requires PrefixesOf(polls, f)
    ensures ChunksFrom(Run(c, polls, interval).1, f, c.cursor)
    decreases |polls|
  {
    if polls == [] {
      NoChunks([]);
    } else {
      var r1 := PollSpec(c, polls[0].0, polls[0].1, interval);
      var r2 := Run(r1.0, polls[1..], interval);
      assert Run(c, polls, interval).1 == r1.1 + r2.1;
      PrefixesOfTail(polls, f);
      PollChunks(c, polls[0].0, polls[0].1, interval, f);
      if r1.0.phase == Ended {
        RunEnded(r1.0, polls[1..], interval);
        NoChunks(r2.1);
        ChunksAppend(r1.1, r2.1);
      } else {
        PollCursor(c, polls[0].0, polls[0].1, interval);
        RunChunksInOrder(r1.0, polls[1..], interval, f);
        ChunksFromJoin(r1.1, r2.1, f, c.cursor, r1.0.cursor);
      }
    }
  }

  /**
   * When chunks are only appended, the cursor never moves back and never
   * passes the end of the chunk list.
   */
  lemma {:induction false} RunCursor(c: Cursor, polls: seq<(Option<Message>, Option<nat>)>, interval: nat, f: seq<string>)
    requires c.phase != NotStarted && c.cursor <= |f|
    requires PrefixesOf(polls, f)
    ensures c.cursor <= Run(c, polls, interval).0.cursor <= |f|
    decreases |polls|
  {
    if polls != [] {
      var r1 := PollSpec(c, polls[0].0, polls[0].1, interval);
      PollCursor(c, polls[0].0, polls[0].1, interval);
      PrefixesOfTail(polls, f);
      RunCursor(r1.0, polls[1..], interval, f);
    }
  }

  /**
   * The whole stream: the opening check, then the polls. It yields exactly
   * one terminal event when it ends and none before: a missing manager or
   * message ends it at once with an error, otherwise the loop starts silently
   * at cursor 0.
   */
  lemma StreamTerminalLast(hasManager: bool, id: MessageId, snapshot: Option<Message>,
                           polls: seq<(Option<Message>, Option<nat>)>, interval: nat)
    ensures var o := OpenSpec(Initial, hasManager, id, snapshot);
      && (o.0.phase == Ended <==> !hasManager || snapshot.None?)
      && (!hasManager ==> o.1 == [NotInitialized])
      && (hasManager && snapshot.None? ==> o.1 == [NotFound(id)])
      && (o.0.phase == Polling ==> o.1 == [] && o.0.cursor == 0)
      && var r := Run(o.0, polls, interval);
      TerminalLast(o.1 + r.1, r.0.phase == Ended)
  {
    var o := OpenSpec(Initial, hasManager, id, snapshot);
    var r := Run(o.0, polls, interval);
    if o.0.phase == Ended {
      RunEnded(o.0, polls, interval);
      assert o.1 + r.1 == o.1;
    } else {
      RunTerminalLast(o.0, polls, interval);
      assert o.1 + r.1 == r.1;
    }
  }

  // ---------------------------------------------------------------------------
  // The generator as an object
  // ---------------------------------------------------------------------------

  class SseStream {
    const id: MessageId
    const interval: nat
    var phase: Phase
    var cursor: nat
    var ticks: nat

    function Current(): Cursor
      reads this
    {
      Cursor(phase, cursor, ticks)
    }

    /** A generator for message `id`, not yet started. */
    constructor(id: MessageId, interval: nat)
      ensures this.id == id && this.interval == interval && Current() == Initial
    {
      this.id := id;
      this.interval := interval;
      phase, cursor, ticks := NotStarted, 0, 0;
    }

    /** The lookups before the loop; `null` stands for a queue manager that was never set. */
    method Open(qm: Legacy.LegacyQueueManager?) returns (out: seq<Event>)
      requires phase == NotStarted
      modifies this
      ensures qm != null ==> unchanged(qm)
      ensures var snapshot := if qm != null && id in qm.messages then Some(qm.messages[id]) else None;
        (Current(), out) == OpenSpec(old(Current()), qm != null, id, snapshot)
    {
      if qm == null {
        phase := Ended;
        return [NotInitialized];
      }
      var message := qm.GetMessage(id);
      if message.None? {
        phase := Ended;
        return [NotFound(id)];
      }
      phase := Polling;
      out := [];
    }

    /** Yields a message's chunks from the cursor on, one event per index. */
    method SendChunks(chunks: seq<string>) returns (evs: seq<Event>)
      ensures evs == ChunkEvents(chunks, cursor)
    {
      evs := [];
      var i := cursor;
      while i < |chunks|
        invariant cursor <= i <= |chunks| || (i == cursor && cursor >= |chunks|)
        invariant |evs| == i - cursor
        invariant forall k :: 0 <= k < |evs| ==> evs[k] == Chunk(chunks[cursor + k], cursor + k)
      {
        evs := evs + [Chunk(chunks[i], i)];
        i := i + 1;
      }
    }

    /** One pass of the loop: reads the message and its position, and moves only the generator's own state. */
    method Poll(qm: Legacy.LegacyQueueManager) returns (out: seq<Event>)
      requires phase != NotStarted && qm.Valid()
      modifies this
      ensures unchanged(qm)
      ensures var snapshot := if id in qm.messages then Some(qm.messages[id]) else None;
        (Current(), out) == PollSpec(old(Current()), snapshot, Legacy.QueuePosition(qm.Snapshot(), id), interval)
    {
      if phase == Ended {
        return [];
      }
      var message := qm.GetMessage(id);
      if message.None? {
        phase := Ended;
        return [Lost];
      }
      var m := message.value;
      var evs: seq<Event>;
      match m.state {
        case Queued =>
          var position := qm.GetQueuePosition(id);
          evs := [Waiting(position)];
          ticks := ticks + 4;
        case Processing =>
          if |m.chunks| > cursor {
            evs := SendChunks(m.chunks);
            cursor := |m.chunks|;
            ticks := 0;
          } else {
            evs := [];
            ticks := ticks + 1;
          }
        case Completed =>
          evs := SendChunks(m.chunks);
          phase := Ended;
          return evs + [Done(m.result.GetOr(""), m.completedAt)];
        case Failed =>
          phase := Ended;
          return [FailedEvent(if Truthy(m.error) then m.error.value else "Unknown error", m.completedAt)];
        case Cancelled =>
          phase := Ended;
          return [CancelledEvent(m.completedAt)];
      }
      if ticks >= 2 * interval {
        evs := evs + [Keepalive];
        ticks := 0;
      }
      out := evs;
    }
  }
}
