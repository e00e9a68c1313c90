/**
 * `build_conversation_history`: the (role, content) pairs handed to the
 * agent for one message. For a message on a thread, the thread's other
 * messages come first, in the order the manager returns them, each as a
 * user turn followed by an assistant turn when it completed with a
 * non-empty result; the message's own text is always the last user turn.
 */
module History {
  import opened Wrappers
  import opened Models
  import QueueRegistry
  import Manager

  type Turn = (string, string)

  const UserRole := "user"
  const AssistantRole := "assistant"

  /** Whether a previous message contributes an assistant turn. */
  predicate Answered(m: Message) {
    Truthy(m.result) && m.state == Completed
  }

  /** The turns one previous message contributes. */
  function TurnsOf(m: Message): (ts: seq<Turn>)
    ensures 1 <= |ts| <= 2
    ensures ts[0] == (UserRole, m.userMessage)
    ensures |ts| == 2 <==> Answered(m)
    ensures |ts| == 2 ==> ts[1] == (AssistantRole, m.result.value)
  {
    [(UserRole, m.userMessage)] + if Answered(m) then [(AssistantRole, m.result.value)] else []
  }

  /** The loop over the thread's messages: every message but the current one contributes its turns. */
  function Prior(ms: seq<Message>, current: MessageId): seq<Turn>
  {
    if ms == [] then []
    else
      var last := ms[|ms| - 1];
      Prior(ms[..|ms| - 1], current) + if last.id == current then [] else TurnsOf(last)
  }

  /** The whole history for `message`, given what `get_thread_messages` returns for its thread. */
  function HistoryOf(message: Message, threadMessages: seq<Message>): (h: seq<Turn>)
    ensures |h| >= 1 && h[|h| - 1] == (UserRole, message.userMessage)
    ensures !Truthy(message.threadId) ==> h == [(UserRole, message.userMessage)]
  {
    (if Truthy(message.threadId) then Prior(threadMessages, message.id) else [])
      + [(UserRole, message.userMessage)]
  }

  // ---------------------------------------------------------------------------
  // An independent reading of the loop: drop the current message, then
  // concatenate the turns of what remains.
  // ---------------------------------------------------------------------------

  /** The thread's messages other than the current one, in their order. */
  function Others(ms: seq<Message>, current: MessageId): (r: seq<Message>)
    ensures |r| <= |ms|
    ensures forall m :: m in r <==> m in ms && m.id != current
  {
    if ms == [] then []
    else
      var rest := Others(ms[1..], current);
      assert ms == [ms[0]] + ms[1..];
      if ms[0].id == current then rest else [ms[0]] + rest
  }

  /** The turns of every message of `ms`, in order. */
  function Transcript(ms: seq<Message>): seq<Turn>
  {
    if ms == [] then [] else TurnsOf(ms[0]) + Transcript(ms[1..])
  }

  /** How many messages of `ms` contribute an assistant turn. */
  function CountAnswered(ms: seq<Message>): (n: nat)
    ensures n <= |ms|
  {
    if ms == [] then 0 else (if Answered(ms[0]) then 1 else 0) + CountAnswered(ms[1..])
  }

  /** How many turns of `ts` have the given role. */
  function CountRole(ts: seq<Turn>, role: string): (n: nat)
    ensures n <= |ts|
  {
    if ts == [] then 0 else (if ts[0].0 == role then 1 else 0) + CountRole(ts[1..], role)
  }

  lemma {:induction false} CountRoleAppend(a: seq<Turn>, b: seq<Turn>, role: string)
    ensures CountRole(a + b, role) == CountRole(a, role) + CountRole(b, role)
  {
    if a == [] {
      assert a + b == b;
    } else {
      assert (a + b)[1..] == a[1..] + b;
      CountRoleAppend(a[1..], b, role);
    }
  }

  lemma {:induction false} TranscriptAppend(a: seq<Message>, b: seq<Message>)
    ensures Transcript(a + b) == Transcript(a) + Transcript(b)
  {
    if a == [] {
      assert a + b == b;
    } else {
      assert (a + b)[1..] == a[1..] + b;
      TranscriptAppend(a[1..], b);
    }
  }

  lemma {:induction false} OthersAppend(a: seq<Message>, b: seq<Message>, current: MessageId)
    ensures Others(a + b, current) == Others(a, current) + Others(b, current)
  {
    if a == [] {
      assert a + b == b;
    } else {
      assert (a + b)[1..] == a[1..] + b;
      OthersAppend(a[1..], b, current);
    }
  }

  /** The loop keeps every message except the current one, in order, and nothing else. */
  lemma {:induction false} PriorSkipsCurrent(ms: seq<Message>, current: MessageId)
    ensures Prior(ms, current) == Transcript(Others(ms, current))
  {
    if ms != [] {
      var init, last := ms[..|ms| - 1], ms[|ms| - 1];
      assert ms == init + [last];
      PriorSkipsCurrent(init, current);
      OthersAppend(init, [last], current);
      assert [last][1..] == [];
      var tail := Others([last], current);
      assert tail == if last.id == current then [] else [last];
      TranscriptAppend(Others(init, current), tail);
      assert Transcript(tail) == if last.id == current then [] else TurnsOf(last) by {
        if last.id != current {
          assert tail[1..] == [];
        }
      }
    }
  }

  /** When the current message is not among the thread's messages, every message contributes. */
  lemma {:induction false} OthersOfForeign(ms: seq<Message>, current: MessageId)
    requires forall m :: m in ms ==> m.id != current
    ensures Others(ms, current) == ms
  {
    if ms != [] {
      assert forall m :: m in ms[1..] ==> m in ms;
      OthersOfForeign(ms[1..], current);
      assert ms == [ms[0]] + ms[1..];
    }
  }

  /** One user turn per message of the transcript, one assistant turn per answered message. */
  lemma {:induction false} TranscriptRoles(ms: seq<Message>)
    ensures CountRole(Transcript(ms), UserRole) == |ms|
    ensures CountRole(Transcript(ms), AssistantRole) == CountAnswered(ms)
    ensures |Transcript(ms)| == |ms| + CountAnswered(ms)
  {
    if ms != [] {
      var ts := TurnsOf(ms[0]);
      TranscriptRoles(ms[1..]);
      CountRoleAppend(ts, Transcript(ms[1..]), UserRole);
      CountRoleAppend(ts, Transcript(ms[1..]), AssistantRole);
      assert ts[1..] == if Answered(ms[0]) then [(AssistantRole, ms[0].result.value)] else [];
      assert UserRole != AssistantRole;
    }
  }

  /** Every assistant turn of a transcript directly follows a user turn and carries a non-empty result. */
  lemma {:induction false} TranscriptAlternates(ms: seq<Message>)
    ensures var ts := Transcript(ms);
      forall i :: 0 <= i < |ts| && ts[i].0 == AssistantRole ==>
        0 < i && ts[i - 1].0 == UserRole && ts[i].1 != ""
    ensures Transcript(ms) != [] ==> Transcript(ms)[0].0 == UserRole
  {
    if ms != [] {
      var head, tail := TurnsOf(ms[0]), Transcript(ms[1..]);
      TranscriptAlternates(ms[1..]);
      var ts := head + tail;
      assert UserRole != AssistantRole;
      forall i | 0 <= i < |ts| && ts[i].0 == AssistantRole
        ensures 0 < i && ts[i - 1].0 == UserRole && ts[i].1 != ""
      {
        if i >= |head| {
          assert ts[i] == tail[i - |head|];
          if i - |head| == 0 {
            assert false;
          }
          assert ts[i - 1] == tail[i - 1 - |head|];
        }
      }
    }
  }

  // ---------------------------------------------------------------------------
  // What `build_conversation_history` promises.
  // ---------------------------------------------------------------------------

  /**
   * On a thread, the history is the transcript of the thread's other
   * messages, in order, followed by the current user turn; it holds one user
   * turn per other message plus the current one, and one assistant turn per
   * other message that completed with a non-empty result.
   */
  lemma ThreadHistory(message: Message, threadMessages: seq<Message>)
    requires Truthy(message.threadId)
    ensures var h := HistoryOf(message, threadMessages);
      var others := Others(threadMessages, message.id);
      && h == Transcript(others) + [(UserRole, message.userMessage)]
      && |h| == |others| + CountAnswered(others) + 1
      && CountRole(h, UserRole) == |others| + 1
      && CountRole(h, AssistantRole) == CountAnswered(others)
  {
    var others := Others(threadMessages, message.id);
    PriorSkipsCurrent(threadMessages, message.id);
    TranscriptRoles(others);
    var last := [(UserRole, message.userMessage)];
    CountRoleAppend(Transcript(others), last, UserRole);
    CountRoleAppend(Transcript(others), last, AssistantRole);
    assert last[1..] == [];
    assert UserRole != AssistantRole;
  }

  /** Every assistant turn answers the user turn just before it and is never empty. */
  lemma HistoryAlternates(message: Message, threadMessages: seq<Message>)
    ensures var h := HistoryOf(message, threadMessages);
      h[0].0 == UserRole &&
      forall i :: 0 <= i < |h| && h[i].0 == AssistantRole ==>
        0 < i && h[i - 1].0 == UserRole && h[i].1 != ""
  {
    var h := HistoryOf(message, threadMessages);
    assert UserRole != AssistantRole;
    if Truthy(message.threadId) {
      var others := Others(threadMessages, message.id);
      PriorSkipsCurrent(threadMessages, message.id);
      TranscriptAlternates(others);
      var t := Transcript(others);
      assert h == t + [(UserRole, message.userMessage)];
      forall i | 0 <= i < |h| && h[i].0 == AssistantRole
        ensures 0 < i && h[i - 1].0 == UserRole && h[i].1 != ""
      {
        assert i < |t| && h[i] == t[i];
        assert h[i - 1] == t[i - 1];
      }
    }
  }

  lemma PriorStep(ms: seq<Message>, i: nat, current: MessageId)
    requires i < |ms|
    ensures Prior(ms[..i + 1], current)
      == Prior(ms[..i], current) + if ms[i].id == current then [] else TurnsOf(ms[i])
  {
    assert ms[..i + 1][..i] == ms[..i];
  }

  /** The loop of `build_conversation_history` over the thread's messages. */
  method PriorTurns(threadMessages: seq<Message>, current: MessageId) returns (h: seq<Turn>)
    ensures h == Prior(threadMessages, current)
  {
    h := [];
    var i := 0;
    while i < |threadMessages|
      invariant 0 <= i <= |threadMessages|
      invariant h == Prior(threadMessages[..i], current)
    {
      var prev := threadMessages[i];
      PriorStep(threadMessages, i, current);
      if prev.id != current {
        var turns := [(UserRole, prev.userMessage)];
        if Truthy(prev.result) && prev.state == Completed {
          turns := turns + [(AssistantRole, prev.result.value)];
        }
        assert turns == TurnsOf(prev);
        h := h + turns;
      }
      i := i + 1;
    }
    assert threadMessages[..i] == threadMessages;
  }

  /** `build_conversation_history`, reading the thread from the manager. */
  method BuildConversationHistory(message: Message, qm: Manager.QueueManager) returns (h: seq<Turn>)
    requires qm.Valid()
    ensures h == HistoryOf(message,
      if Truthy(message.threadId) then QueueRegistry.ThreadMessages(qm.Snapshot(), message.threadId.value) else [])
  {
    h := [];
    if Truthy(message.threadId) {
      var threadMessages := qm.GetThreadMessages(message.threadId.value);
      h := PriorTurns(threadMessages, message.id);
    }
    h := h + [(UserRole, message.userMessage)];
  }
}
