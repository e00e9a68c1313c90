/**
 * The message and thread data model: lifecycle states, priorities and their
 * numeric ranks, the queued-message record, request bounds, thread metadata
 * and the text form of one Server-Sent Event.
 */
module Models {
  import opened Wrappers

  /** Message identifiers. Fresh identifiers are handed out by the queue managers. */
  type MessageId = nat

  datatype MessageState = Queued | Processing | Completed | Failed | Cancelled

  /** The string value of each state (`MessageState.QUEUED == "queued"`, ...). */
  function StateValue(s: MessageState): string {
    match s
    case Queued => "queued"
    case Processing => "processing"
    case Completed => "completed"
    case Failed => "failed"
    case Cancelled => "cancelled"
  }

  /**
   * How an f-string renders a state. `MessageState` mixes `str` into `Enum`
   * without being a `StrEnum`, so on Python 3.11 and later `f"{state}"` gives
   * the class-qualified member name.
   */
  function StateDisplay(s: MessageState): string {
    match s
    case Queued => "MessageState.QUEUED"
    case Processing => "MessageState.PROCESSING"
    case Completed => "MessageState.COMPLETED"
    case Failed => "MessageState.FAILED"
    case Cancelled => "MessageState.CANCELLED"
  }

  predicate IsTerminal(s: MessageState) {
    s == Completed || s == Failed || s == Cancelled
  }

  datatype Priority = High | Normal | Low

  /** `PRIORITY_MAP`: a lower number is dequeued first. */
  function PriorityValue(p: Priority): (v: nat)
    ensures 1 <= v <= 3
  {
    match p
    case High => 1
    case Normal => 2
    case Low => 3
  }

  /** The map ranks HIGH before NORMAL before LOW, and distinct priorities get distinct ranks. */
  lemma PriorityMapOrder()
    ensures PriorityValue(High) < PriorityValue(Normal) < PriorityValue(Low)
    ensures forall p: Priority, q: Priority :: PriorityValue(p) == PriorityValue(q) ==> p == q
  {
  }

  /** Python truthiness of an optional string: present and non-empty. */
  predicate Truthy(s: Option<string>) {
    s.Some? && s.value != ""
  }

  /** A queued message. Timestamps are readings of an abstract clock. */
  datatype Message = Message(
    id: MessageId,
    userMessage: string,
    priority: Priority,
    state: MessageState,
    threadId: Option<string>,
    createdAt: nat,
    startedAt: Option<nat>,
    completedAt: Option<nat>,
    result: Option<string>,
    error: Option<string>,
    chunks: seq<string>)

  /** `QueuedMessage(user_message=...)` with every other field left at its default. */
  function NewQueuedMessage(id: MessageId, userMessage: string, now: nat): (m: Message)
    ensures m.id == id && m.userMessage == userMessage && m.createdAt == now
    ensures m.state == Queued && m.priority == Normal && m.threadId == None
    ensures m.startedAt == None && m.completedAt == None
    ensures m.result == None && m.error == None && m.chunks == []
  {
    Message(id, userMessage, Normal, Queued, None, now, None, None, None, None, [])
  }

  /** A validated submission. */
  datatype SubmitRequest = SubmitRequest(message: string, priority: Priority, threadId: Option<string>)

  const MaxMessageLength: nat := 10000
  const MaxThreadIdLength: nat := 255

  /**
   * The field constraints of `MessageSubmitRequest`: a message of 1 to 10000
   * characters, an optional thread id of at most 255 characters, and NORMAL
   * priority when none is given. `None` is a validation failure.
   */
  function ValidateSubmitRequest(message: string, priority: Option<Priority>, threadId: Option<string>)
    : (r: Option<SubmitRequest>)
    ensures r.Some? <==> 1 <= |message| <= MaxMessageLength && (threadId.Some? ==> |threadId.value| <= MaxThreadIdLength)
    ensures r.Some? ==> r.value.message == message && r.value.threadId == threadId
    ensures r.Some? && priority == None ==> r.value.priority == Normal
    ensures r.Some? && priority.Some? ==> r.value.priority == priority.value
  {
    if 1 <= |message| <= MaxMessageLength && (threadId.None? || |threadId.value| <= MaxThreadIdLength) then
      Some(SubmitRequest(message, priority.GetOr(Normal), threadId))
    else
      None
  }

  /** Per-thread message counts, keyed by state. A missing key reads as 0 (`dict.get(s, 0)`). */
  type StateCounts = map<MessageState, nat>

  function Count(states: StateCounts, s: MessageState): nat {
    if s in states then states[s] else 0
  }

  /** The sum of the counts over the five states. */
  function Total(states: StateCounts): nat {
    Count(states, Queued) + Count(states, Processing) + Count(states, Completed)
      + Count(states, Failed) + Count(states, Cancelled)
  }

  /** Adding one to the count of `s` adds one to the total and changes no other count. */
  lemma CountBump(states: StateCounts, s: MessageState)
    ensures var after := states[s := Count(states, s) + 1];
      && (forall s': MessageState :: Count(after, s') == Count(states, s') + (if s' == s then 1 else 0))
      && Total(after) == Total(states) + 1
  {
  }

  /** `{state: 0 for state in MessageState}`: a key for every state, each mapped to 0. */
  function ZeroCounts(): (z: StateCounts)
    ensures z.Keys == {Queued, Processing, Completed, Failed, Cancelled}
    ensures forall s: MessageState :: Count(z, s) == 0
    ensures Total(z) == 0
  {
    map[Queued := 0, Processing := 0, Completed := 0, Failed := 0, Cancelled := 0]
  }

  datatype ThreadMetadata = ThreadMetadata(
    threadId: string,
    messageCount: nat,
    createdAt: nat,
    lastActivity: nat,
    states: StateCounts)

  datatype ThreadSummary = ThreadSummary(
    threadId: string,
    messageCount: nat,
    createdAt: nat,
    lastActivity: nat,
    lastMessagePreview: Option<string>)

  // ---------------------------------------------------------------------------
  // SSEEvent.format. The JSON encoding of the payload is not modelled: `data`
  // stands for the already encoded payload, which JSON keeps free of newlines.
  // ---------------------------------------------------------------------------

  function HasPrefix(s: string, p: string): bool {
    |p| <= |s| && s[..|p|] == p
  }

  /**
   * `"\n".join(lines) + "\n"` where lines are an optional `event: X`, then
   * `data: D`, then an empty line.
   */
  function Format(event: Option<string>, data: string): (r: string)
    ensures |r| >= 2 && r[|r| - 2..] == "\n\n"
    ensures HasPrefix(r, "event: ") <==> Truthy(event)
    ensures !Truthy(event) ==> HasPrefix(r, "data: ")
  {
    var eventLine := if Truthy(event) then "event: " + event.value + "\n" else "";
    var r := eventLine + "data: " + data + "\n" + "\n";
    assert !Truthy(event) ==> r[..6] == "data: " && r[0] == 'd';
    assert Truthy(event) ==> r[..7] == "event: ";
    r
  }

  /** The text before the first newline and the text after it; `None` when there is no newline. */
  function SplitLine(s: string): Option<(string, string)> {
    if s == [] then None
    else if s[0] == '\n' then Some(([], s[1..]))
    else match SplitLine(s[1..])
      case None => None
      case Some(p) => Some(([s[0]] + p.0, p.1))
  }

  lemma {:induction false} SplitLineAt(line: string, rest: string)
    requires '\n' !in line
    ensures SplitLine(line + "\n" + rest) == Some((line, rest))
  {
    if line == [] {
      assert line + "\n" + rest == ['\n'] + rest;
    } else {
      assert (line + "\n" + rest)[1..] == line[1..] + "\n" + rest;
      SplitLineAt(line[1..], rest);
      assert [line[0]] + line[1..] == line;
    }
  }

  /** Reads one event back: the event name (if an `event:` line is present) and the data. */
  function Parse(text: string): Option<(Option<string>, string)> {
    match SplitLine(text)
    case None => None
    case Some(first) =>
      if HasPrefix(first.0, "event: ") then
        match SplitLine(first.1)
        case None => None
        case Some(second) =>
          if HasPrefix(second.0, "data: ") && second.1 == "\n" then
            Some((Some(first.0[7..]), second.0[6..]))
          else None
      else if HasPrefix(first.0, "data: ") && first.1 == "\n" then
        Some((None, first.0[6..]))
      else None
  }

  /**
   * Round trip: the formatted text holds exactly one `data:` line carrying the
   * payload, preceded by an `event:` line exactly when the event name is
   * non-empty, and nothing else but the closing blank line.
   */
  lemma FormatParse(event: Option<string>, data: string)
    requires event.Some? ==> '\n' !in event.value
    requires '\n' !in data
    ensures Parse(Format(event, data)) == Some((if Truthy(event) then event else None, data))
  {
    PrefixedLine("data: ", data);
    FormatLines(event, data);
    if Truthy(event) {
      PrefixedLine("event: ", event.value);
      ParseNamed("event: " + event.value, "data: " + data);
    } else {
      ParseUnnamed("data: " + data);
    }
  }

  /** The formatted text as its lines. */
  lemma FormatLines(event: Option<string>, data: string)
    ensures Truthy(event) ==>
      Format(event, data) == ("event: " + event.value) + "\n" + (("data: " + data) + "\n" + "\n")
    ensures !Truthy(event) ==> Format(event, data) == ("data: " + data) + "\n" + "\n"
  {
  }

  /** A newline-free text after a newline-free prefix is a line that starts with the prefix. */
  lemma PrefixedLine(p: string, s: string)
    requires '\n' !in p && '\n' !in s
    ensures '\n' !in p + s
    ensures HasPrefix(p + s, p) && (p + s)[|p|..] == s
  {
    assert forall i :: 0 <= i < |p + s| ==> (p + s)[i] == if i < |p| then p[i] else s[i - |p|];
  }

  lemma ParseNamed(eventLine: string, dataLine: string)
    requires '\n' !in eventLine && '\n' !in dataLine
    requires HasPrefix(eventLine, "event: ") && HasPrefix(dataLine, "data: ")
    ensures Parse(eventLine + "\n" + (dataLine + "\n" + "\n")) == Some((Some(eventLine[7..]), dataLine[6..]))
  {
    SplitLineAt(eventLine, dataLine + "\n" + "\n");
    SplitLineAt(dataLine, "\n");
  }

  lemma ParseUnnamed(dataLine: string)
    requires '\n' !in dataLine && HasPrefix(dataLine, "data: ")
    ensures Parse(dataLine + "\n" + "\n") == Some((None, dataLine[6..]))
  {
    SplitLineAt(dataLine, "\n");
    assert !HasPrefix(dataLine, "event: ") by {
      assert dataLine[0] == "data: "[0];
    }
  }
}
