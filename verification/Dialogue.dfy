/** Messages exchanged with a model, and the rule a provider checks them by. */
module Dialogue {
  import opened Prelude

  datatype ToolCall = ToolCall(id: string, name: string, arguments: string)

  datatype Message =
    | System(content: string)
    | User(content: string)
    | Assistant(content: string, calls: seq<ToolCall>)
    | Tool(content: string, callId: string)

  datatype Usage = Usage(inputTokens: int, outputTokens: int, cost: real)

  const NO_USAGE := Usage(0, 0, 0.0)

  function Add(a: Usage, b: Usage): Usage {
    Usage(a.inputTokens + b.inputTokens, a.outputTokens + b.outputTokens, a.cost + b.cost)
  }

  datatype CodeFragment = CodeFragment(path: string, startLine: int, endLine: int, text: string)

  datatype ToolResult = ToolResult(text: string, fragments: seq<CodeFragment>)

  function Ids(calls: seq<ToolCall>): (ids: seq<string>)
    ensures |ids| == |calls|
  {
    if calls == [] then [] else [calls[0].id] + Ids(calls[1..])
  }

  lemma {:induction false} IdsAt(calls: seq<ToolCall>, j: nat)
    requires j < |calls|
    ensures Ids(calls)[j] == calls[j].id
  {
    if j > 0 {
      IdsAt(calls[1..], j - 1);
    }
  }

  // ---- well-formed transcripts ---------------------------------------------------

  /** Reading one message while `owed` calls still wait for their results. */
  function Read(owed: seq<string>, message: Message): Option<seq<string>> {
    match message
    case Tool(_, id) => if owed != [] && owed[0] == id then Some(owed[1..]) else None
    case Assistant(_, calls) => if owed == [] then Some(Ids(calls)) else None
    case _ => if owed == [] then Some([]) else None
  }

  /** The calls still unanswered after a transcript; nothing if the transcript is broken. */
  function Owed(messages: seq<Message>): Option<seq<string>> {
    if messages == [] then Some([])
    else match Owed(Init(messages))
      case None => None
      case Some(owed) => Read(owed, Last(messages))
  }

  predicate WellFormed(messages: seq<Message>) {
    Owed(messages) == Some([])
  }

  lemma OwedAfter(messages: seq<Message>, message: Message)
    ensures Owed(messages + [message])
            == match Owed(messages) case None => None case Some(owed) => Read(owed, message)
  {
    assert Init(messages + [message]) == messages;
  }

  /** A plain message may follow any well-formed transcript. */
  lemma PlainMessageKeepsForm(messages: seq<Message>, message: Message)
    requires WellFormed(messages) && (message.User? || message.System? || (message.Assistant? && message.calls == []))
    ensures WellFormed(messages + [message])
  {
    OwedAfter(messages, message);
  }

  /** The answers are tool messages for these calls, in their order. */
  predicate AnswersTo(answers: seq<Message>, calls: seq<ToolCall>) {
    |answers| == |calls| && forall j :: 0 <= j < |answers| ==> answers[j].Tool? && answers[j].callId == calls[j].id
  }

  lemma {:induction false} AnswersPayOff(messages: seq<Message>, calls: seq<ToolCall>, answers: seq<Message>, n: nat)
    requires Owed(messages) == Some(Ids(calls)) && AnswersTo(answers, calls) && n <= |answers|
    ensures Owed(messages + answers[..n]) == Some(Ids(calls)[n..])
  {
    if n == 0 {
      assert messages + answers[..0] == messages;
    } else {
      AnswersPayOff(messages, calls, answers, n - 1);
      OwedAfter(messages + answers[..n - 1], answers[n - 1]);
      assert messages + answers[..n] == messages + answers[..n - 1] + [answers[n - 1]];
      IdsAt(calls, n - 1);
    }
  }

  /** A reply with calls followed by an answer to each keeps a transcript well formed. */
  lemma ExchangeKeepsForm(messages: seq<Message>, content: string, calls: seq<ToolCall>, answers: seq<Message>)
    requires WellFormed(messages) && AnswersTo(answers, calls)
    ensures WellFormed(messages + [Assistant(content, calls)] + answers)
  {
    OwedAfter(messages, Assistant(content, calls));
    AnswersPayOff(messages + [Assistant(content, calls)], calls, answers, |answers|);
    assert answers[..|answers|] == answers;
    assert Ids(calls)[|answers|..] == [];
  }

  lemma {:induction false} PrefixIsReadable(messages: seq<Message>, n: nat)
    requires Owed(messages).Some? && n <= |messages|
    ensures Owed(messages[..n]).Some?
  {
    if n == |messages| {
      assert messages[..n] == messages;
    } else {
      PrefixIsReadable(Init(messages), n);
      assert Init(messages)[..n] == messages[..n];
    }
  }

  lemma OwedAtPrefix(messages: seq<Message>, n: nat)
    requires Owed(messages).Some? && n < |messages|
    ensures Owed(messages[..n]).Some?
    ensures Owed(messages[..n + 1]) == Read(Owed(messages[..n]).value, messages[n])
    ensures Owed(messages[..n + 1]).Some?
  {
    hide Owed, Read;
    PrefixIsReadable(messages, n);
    PrefixIsReadable(messages, n + 1);
    assert messages[..n + 1] == messages[..n] + [messages[n]];
    OwedAfter(messages[..n], messages[n]);
  }

  lemma {:induction false} AnswersFollow(messages: seq<Message>, i: nat, j: nat)
    requires WellFormed(messages) && i < |messages| && messages[i].Assistant? && j <= |messages[i].calls|
    ensures i + j < |messages|
    ensures Owed(messages[..i + 1 + j]) == Some(Ids(messages[i].calls)[j..])
    ensures j > 0 ==> messages[i + j].Tool? && messages[i + j].callId == messages[i].calls[j - 1].id
  {
    var calls := messages[i].calls;
    if j == 0 {
      OwedAtPrefix(messages, i);
    } else {
      AnswersFollow(messages, i, j - 1);
      assert Ids(calls)[j - 1..] != [];
      assert messages[..|messages|] == messages;
      OwedAtPrefix(messages, i + j);
      IdsAt(calls, j - 1);
    }
  }

  lemma NothingOwedBefore(messages: seq<Message>, n: nat)
    requires WellFormed(messages) && n < |messages| && Owed(messages[..n]) == Some([])
    ensures !messages[n].Tool?
  {
    OwedAtPrefix(messages, n);
  }

  /** The `j`-th call of the assistant message at `i` has its result right in its place. */
  predicate IsAnswered(messages: seq<Message>, i: nat, j: nat)
    requires i < |messages| && messages[i].Assistant? && j < |messages[i].calls| < |messages| - i
  {
    messages[i + 1 + j].Tool? && messages[i + 1 + j].callId == messages[i].calls[j].id
  }

  /**
   What well-formedness means: every call of an assistant message is answered by
   exactly one tool message with its id, in order, directly behind it, and the
   message after the answers is not a tool message.
   */
  lemma CallsAreAnsweredInOrder(messages: seq<Message>, i: nat)
    requires WellFormed(messages) && i < |messages| && messages[i].Assistant?
    ensures var n := |messages[i].calls|;
      && n < |messages| - i
      && (forall j :: 0 <= j < n ==> IsAnswered(messages, i, j))
      && (i + n + 1 < |messages| ==> !messages[i + n + 1].Tool?)
  {
    hide Owed, Read;
    var calls := messages[i].calls;
    AnswersFollow(messages, i, |calls|);
    forall j | 0 <= j < |calls|
      ensures IsAnswered(messages, i, j)
    {
      AnswersFollow(messages, i, j + 1);
      assert i + (j + 1) == i + 1 + j;
    }
    if i + |calls| + 1 < |messages| {
      assert Ids(calls)[|calls|..] == [];
      NothingOwedBefore(messages, i + |calls| + 1);
    }
  }
}
