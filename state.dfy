/**
 * The message lifecycle state machine: which transitions are allowed and the
 * side effects of applying one (state, timestamps, error text, and one call of
 * the thread-count callback).
 */
module State {
  import opened Wrappers
  import opened Models

  /** The table of allowed successors of each state. */
  function Successors(s: MessageState): set<MessageState> {
    match s
    case Queued => {Processing, Cancelled}
    case Processing => {Completed, Failed}
    case Completed => {}
    case Failed => {}
    case Cancelled => {}
  }

  /** `validate_state_transition`: `new in valid_transitions.get(current, [])`. */
  function ValidateStateTransition(current: MessageState, next: MessageState): bool {
    next in Successors(current)
  }

  /**
   * Exactly four transitions are allowed: QUEUED to PROCESSING or CANCELLED and
   * PROCESSING to COMPLETED or FAILED; the other 21 ordered pairs, the five
   * self-loops among them, are rejected.
   */
  lemma ValidTransitionsExactly(current: MessageState, next: MessageState)
    ensures ValidateStateTransition(current, next) <==>
      (current == Queued && next == Processing) || (current == Queued && next == Cancelled) ||
      (current == Processing && next == Completed) || (current == Processing && next == Failed)
    ensures ValidateStateTransition(current, next) ==> current != next
  {
  }

  /** Nothing leaves COMPLETED, FAILED or CANCELLED, and nothing re-enters QUEUED. */
  lemma TerminalStatesAbsorb(current: MessageState, next: MessageState)
    ensures IsTerminal(current) ==> !ValidateStateTransition(current, next)
    ensures !ValidateStateTransition(current, Queued)
  {
  }

  /**
   * `update_message_timestamps`: entering PROCESSING stamps `startedAt`,
   * entering a terminal state stamps `completedAt`, QUEUED stamps nothing.
   */
  function UpdateMessageTimestamps(m: Message, newState: MessageState, now: nat): (r: Message)
    ensures newState == Processing ==> r == m.(startedAt := Some(now))
    ensures IsTerminal(newState) ==> r == m.(completedAt := Some(now))
    ensures newState == Queued ==> r == m
  {
    if newState == Processing then m.(startedAt := Some(now))
    else if IsTerminal(newState) then m.(completedAt := Some(now))
    else m
  }

  /** The outcome of `apply_state_change`: the updated message, the callback's result and the returned flag. */
  datatype Applied<C> = Applied(message: Message, counts: C, ok: bool)

  /**
   * `apply_state_change`. It does no validation; the caller has done it. The
   * count callback `update` is called once, with the updated message and the
   * pair (old state, new state); `counts` is whatever it updates.
   */
  function ApplyStateChange<C>(
    m: Message, newState: MessageState, error: Option<string>, now: nat,
    counts: C, update: (C, Message, MessageState, MessageState) -> C): (r: Applied<C>)
    ensures r.ok
    ensures r.message.state == newState
    ensures r.counts == update(counts, r.message, m.state, newState)
    ensures r.message.error == if newState == Failed && Truthy(error) then error else m.error
    ensures r.message == UpdateMessageTimestamps(m, newState, now).(state := newState, error := r.message.error)
  {
    var changed := UpdateMessageTimestamps(m.(state := newState), newState, now);
    var withError := if newState == Failed && Truthy(error) then changed.(error := error) else changed;
    Applied(withError, update(counts, withError, m.state, newState), true)
  }

  /** A count callback that keeps no counts, for callers without per-thread counts. */
  function NoCounts(): ((), Message, MessageState, MessageState) -> () {
    (u: (), m: Message, from: MessageState, next: MessageState) => u
  }

  /** Only the lifecycle fields move: identity, content, priority, thread, result and chunks stay. */
  lemma ApplyStateChangeKeepsContent<C>(
    m: Message, newState: MessageState, error: Option<string>, now: nat,
    counts: C, update: (C, Message, MessageState, MessageState) -> C)
    ensures var r := ApplyStateChange(m, newState, error, now, counts, update).message;
      r.id == m.id && r.userMessage == m.userMessage && r.priority == m.priority &&
      r.threadId == m.threadId && r.createdAt == m.createdAt && r.result == m.result && r.chunks == m.chunks
  {
  }
}
