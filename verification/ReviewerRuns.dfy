/** What every run of the investigating reviewer keeps, whatever the model and the tools answer. */
module ReviewerRuns {
  import opened Prelude
  import opened Dialogue
  import opened Reviewer

  // ---- transcripts ----------------------------------------------------------------------

  lemma TurnKeepsForm(world: World, settings: Settings, state: State, response: Response)
    requires WellFormed(state.messages)
    ensures WellFormed(TakeTurn(world, settings, state, response).state.messages)
  {
    hide WellFormed, RunCalls, AnswersTo;
    var counted, calls := Counted(state, response), response.toolCalls;
    if calls != [] && response.isTruncated {
      ExchangeKeepsForm(state.messages, response.content, calls, RefusedCalls(calls));
      PlainMessageKeepsForm(
        state.messages + [Reply(response)] + RefusedCalls(calls), User(TRUNCATED_CALLS_MESSAGE));
    } else if calls == [] {
      PlainMessageKeepsForm(state.messages, Reply(response));
      PlainMessageKeepsForm(state.messages + [Reply(response)], User(UNPROVEN_CLAIM_MESSAGE));
    } else {
      var asked := counted.(messages := state.messages + [Reply(response)]);
      var after := RunCalls(world, asked, calls);
      RunCallsAnswers(world, asked, calls);
      ExchangeKeepsForm(state.messages, response.content, calls, after.messages[|asked.messages|..]);
      assert after.messages == asked.messages + after.messages[|asked.messages|..];
    }
  }

  lemma {:induction false} StateIsWellFormed(
    world: World, settings: Settings, opening: seq<Message>, replies: seq<Response>)
    requires WellFormed(opening)
    ensures WellFormed(After(world, settings, opening, replies).messages)
  {
    hide WellFormed, TakeTurn;
    if replies != [] {
      StateIsWellFormed(world, settings, opening, Init(replies));
      TurnKeepsForm(world, settings, After(world, settings, opening, Init(replies)), Last(replies));
      AfterIsLastTurn(world, settings, opening, replies);
    }
  }

  /**
   Every request of the loop and the first closing request carry a well-formed
   transcript. The repeated closing request does exactly when the first closing
   reply, given to a request without tools, asked for no tool calls.
   */
  lemma RequestsAreWellFormed(world: World, settings: Settings, opening: seq<Message>, log: Log, outcome: Outcome)
    requires IsRun(world, settings, opening, log, outcome) && WellFormed(opening)
    ensures forall n :: 0 <= n < |log.requests| && n <= |log.replies| ==> WellFormed(log.requests[n])
    ensures |log.requests| <= |log.replies| + 2
    ensures |log.requests| == |log.replies| + 2 ==>
              log.closing != [] && (WellFormed(Last(log.requests)) <==> log.closing[0].toolCalls == [])
  {
    hide WellFormed, After, LoopIsOver, IsLoop;
    var messages := After(world, settings, opening, log.replies).messages;
    StateIsWellFormed(world, settings, opening, log.replies);
    PlainMessageKeepsForm(messages, User(FINAL_INSTRUCTION));
    forall n | 0 <= n < |log.requests| && n <= |log.replies|
      ensures WellFormed(log.requests[n])
    {
      assert log.requests[n] == Request(world, settings, opening, log, n);
      StateIsWellFormed(world, settings, opening, log.replies[..n]);
    }
    AtMostTwoClosingRequests(world, settings, opening, log, outcome);
    if |log.requests| == |log.replies| + 2 {
      var n := |log.requests| - 1;
      assert log.requests[n] == Request(world, settings, opening, log, n);
      UserAfterReply(messages + [User(FINAL_INSTRUCTION)], log.closing[0], RetryMessage(log.closing[0]));
    }
  }

  lemma UserAfterReply(messages: seq<Message>, response: Response, message: Message)
    requires WellFormed(messages) && message.User?
    ensures WellFormed(messages + [Reply(response)] + [message]) <==> response.toolCalls == []
  {
    OwedAfter(messages, Reply(response));
    OwedAfter(messages + [Reply(response)], message);
  }

  /** A run where it does not: the first closing reply calls a tool although none was offered. */
  lemma ClosingCallBreaksTheForm()
    returns (world: World, settings: Settings, opening: seq<Message>, log: Log, outcome: Outcome)
    ensures IsRun(world, settings, opening, log, outcome) && WellFormed(opening)
    ensures log.requests != [] && !WellFormed(Last(log.requests))
  {
    var calling := Response("", "", NO_USAGE, false, 0, [ToolCall("id", "name", "")]);
    var silent := Response("", "", NO_USAGE, false, 0, []);
    settings, opening, outcome := Settings(0, 0), [], Unparsed;
    world := World(
      n => Replied(if n == 0 then calling else silent), n => ToolResult("", []), n => false, s => None, s => false,
      (s, t) => false, s => None, n => "");
    var closing := [User(FINAL_INSTRUCTION)];
    log := Log([closing, closing + [Reply(calling)] + [RetryMessage(calling)]], [], [calling, silent]);
    assert opening + closing == closing;
    UserAfterReply(closing, calling, RetryMessage(calling));
  }

  // ---- bounds -----------------------------------------------------------------------------

  lemma AtMostTwoClosingRequests(world: World, settings: Settings, opening: seq<Message>, log: Log, outcome: Outcome)
    requires IsRun(world, settings, opening, log, outcome)
    ensures |log.requests| <= |log.replies| + 2
    ensures |log.requests| > |log.replies| + 1 ==> log.closing != []
    ensures |log.requests| > |log.replies| ==>
              LoopIsOver(world, settings, opening, log.replies) || |log.requests| == |log.replies| + 1
  {
    hide After, LoopIsOver, IsLoop, Request;
  }

  lemma LoopIsBounded(world: World, settings: Settings, opening: seq<Message>, replies: seq<Response>)
    requires IsLoop(world, settings, opening, replies)
    ensures |replies| <= Max(0, settings.maxSteps)
  {
    hide LastTurn;
    if replies != [] {
      assert !LoopIsOver(world, settings, opening, replies[..|replies| - 1]);
    }
  }

  /** A run sends at most two requests more than the ceiling allows the loop. */
  lemma RequestsAreBounded(world: World, settings: Settings, opening: seq<Message>, log: Log, outcome: Outcome)
    requires IsRun(world, settings, opening, log, outcome)
    ensures |log.requests| <= Max(0, settings.maxSteps) + 2
  {
    LoopIsBounded(world, settings, opening, log.replies);
    AtMostTwoClosingRequests(world, settings, opening, log, outcome);
  }

  // ---- executed calls ------------------------------------------------------------------------

  predicate Known(world: World, calls: seq<ToolCall>, signature: string) {
    exists i :: 0 <= i < |calls| && Signature(world, calls[i]) == signature
  }

  /** The first call of every signature, in order. */
  function FirstOfEach(world: World, calls: seq<ToolCall>): seq<ToolCall> {
    if calls == [] then []
    else
      var earlier := FirstOfEach(world, Init(calls));
      if Known(world, earlier, Signature(world, Last(calls))) then earlier else earlier + [Last(calls)]
  }

  /** The calls of all replies that were not cut at the output limit. */
  function Requested(replies: seq<Response>): seq<ToolCall> {
    if replies == [] then []
    else Requested(Init(replies)) + if Last(replies).isTruncated then [] else Last(replies).toolCalls
  }

  function ShownBy(world: World, executed: nat): seq<CodeFragment> {
    if executed == 0 then [] else ShownBy(world, executed - 1) + world.execute(executed - 1).fragments
  }

  lemma {:induction false} FirstOfEachIsDistinct(world: World, calls: seq<ToolCall>, i: nat, j: nat)
    requires i < j < |FirstOfEach(world, calls)|
    ensures Signature(world, FirstOfEach(world, calls)[i]) != Signature(world, FirstOfEach(world, calls)[j])
  {
    hide Signature;
    if j < |FirstOfEach(world, Init(calls))| {
      FirstOfEachIsDistinct(world, Init(calls), i, j);
    }
  }

  /** What the loop remembers is what it executed. */
  ghost predicate Remembers(world: World, state: State, requested: seq<ToolCall>) {
    && state.executed == FirstOfEach(world, requested)
    && (forall signature :: signature in state.seenCalls <==> Known(world, state.executed, signature))
    && state.shown == ShownBy(world, |state.executed|)
  }

  lemma KnownAfter(world: World, calls: seq<ToolCall>, call: ToolCall, signature: string)
    ensures Known(world, calls + [call], signature) <==>
            Known(world, calls, signature) || signature == Signature(world, call)
  {
    hide Signature;
    if Known(world, calls, signature) {
      var i :| 0 <= i < |calls| && Signature(world, calls[i]) == signature;
      assert (calls + [call])[i] == calls[i];
    }
    assert (calls + [call])[|calls|] == call;
  }

  lemma RunCallRemembers(world: World, state: State, requested: seq<ToolCall>, call: ToolCall)
    requires Remembers(world, state, requested)
    ensures Remembers(world, RunCall(world, state, call), requested + [call])
  {
    hide Signature, Known;
    assert Init(requested + [call]) == requested;
    forall signature {
      KnownAfter(world, state.executed, call, signature);
    }
  }

  lemma {:induction false} RunCallsRemember(world: World, state: State, requested: seq<ToolCall>, calls: seq<ToolCall>)
    requires Remembers(world, state, requested)
    ensures Remembers(world, RunCalls(world, state, calls), requested + calls)
  {
    hide Remembers, RunCall;
    if calls == [] {
      assert requested + calls == requested;
    } else {
      RunCallsRemember(world, state, requested, Init(calls));
      RunCallRemembers(world, RunCalls(world, state, Init(calls)), requested + Init(calls), Last(calls));
      assert requested + calls == requested + Init(calls) + [Last(calls)];
    }
  }

  lemma RemembersTheSame(world: World, state: State, other: State, requested: seq<ToolCall>)
    requires Remembers(world, state, requested)
    requires other.executed == state.executed && other.seenCalls == state.seenCalls && other.shown == state.shown
    ensures Remembers(world, other, requested)
  {
  }

  lemma TurnRemembers(world: World, settings: Settings, state: State, response: Response, requested: seq<ToolCall>)
    requires Remembers(world, state, requested)
    ensures Remembers(
              world, TakeTurn(world, settings, state, response).state,
              requested + if response.isTruncated then [] else response.toolCalls)
  {
    hide Remembers, RunCalls;
    var after, calls := TakeTurn(world, settings, state, response).state, response.toolCalls;
    if calls == [] || response.isTruncated {
      RemembersTheSame(world, state, after, requested);
      assert requested + [] == requested;
    } else {
      var asked := Counted(state, response).(messages := state.messages + [Reply(response)]);
      RemembersTheSame(world, state, asked, requested);
      RunCallsRemember(world, asked, requested, calls);
    }
  }

  lemma {:induction false} StateRemembers(
    world: World, settings: Settings, opening: seq<Message>, replies: seq<Response>)
    ensures Remembers(world, After(world, settings, opening, replies), Requested(replies))
  {
    if replies != [] {
      hide Remembers, TakeTurn;
      StateRemembers(world, settings, opening, Init(replies));
      TurnRemembers(
        world, settings, After(world, settings, opening, Init(replies)), Last(replies), Requested(Init(replies)));
      AfterIsLastTurn(world, settings, opening, replies);
    }
  }

  /**
   The calls a run executes are the first of each signature among all calls of
   replies that were not cut; so no signature is executed twice, and no call of a
   cut reply is executed at all.
   */
  lemma EachCallIsExecutedOnce(world: World, settings: Settings, opening: seq<Message>, replies: seq<Response>)
    ensures var executed := After(world, settings, opening, replies).executed;
      && executed == FirstOfEach(world, Requested(replies))
      && forall i, j :: 0 <= i < j < |executed| ==> Signature(world, executed[i]) != Signature(world, executed[j])
  {
    hide Signature;
    StateRemembers(world, settings, opening, replies);
    var executed := After(world, settings, opening, replies).executed;
    hide After;
    forall i, j | 0 <= i < j < |executed|
      ensures Signature(world, executed[i]) != Signature(world, executed[j])
    {
      FirstOfEachIsDistinct(world, Requested(replies), i, j);
    }
  }

  // ---- repeated calls ---------------------------------------------------------------------------

  /** The step under which the call with this signature was executed, or 0. */
  function StepOf(state: State, signature: string): nat {
    if signature in state.seenCalls then state.seenCalls[signature] else 0
  }

  /** Later executions have later steps, and none lies ahead. */
  predicate StepsIdentify(world: World, state: State) {
    && (forall i :: 0 <= i < |state.executed| ==> StepOf(state, Signature(world, state.executed[i])) <= state.step)
    && forall i, j :: 0 <= i < j < |state.executed| ==>
                        StepOf(state, Signature(world, state.executed[i]))
                        < StepOf(state, Signature(world, state.executed[j]))
  }

  lemma RunCallIdentifies(world: World, state: State, requested: seq<ToolCall>, call: ToolCall)
    requires Remembers(world, state, requested) && StepsIdentify(world, state)
    ensures StepsIdentify(world, RunCall(world, state, call))
  {
    hide Signature;
    var after := RunCall(world, state, call);
    forall i | 0 <= i < |state.executed|
      ensures StepOf(after, Signature(world, state.executed[i])) == StepOf(state, Signature(world, state.executed[i]))
    {
      assert Known(world, state.executed, Signature(world, state.executed[i]));
    }
  }

  lemma {:induction false} RunCallsIdentify(world: World, state: State, requested: seq<ToolCall>, calls: seq<ToolCall>)
    requires Remembers(world, state, requested) && StepsIdentify(world, state)
    ensures StepsIdentify(world, RunCalls(world, state, calls))
  {
    hide Remembers, RunCall, StepsIdentify;
    if calls != [] {
      RunCallsIdentify(world, state, requested, Init(calls));
      RunCallsRemember(world, state, requested, Init(calls));
      RunCallIdentifies(world, RunCalls(world, state, Init(calls)), requested + Init(calls), Last(calls));
    }
  }

  lemma IdentifiesTheSame(world: World, state: State, other: State)
    requires StepsIdentify(world, state)
    requires other.executed == state.executed && other.seenCalls == state.seenCalls && state.step <= other.step
    ensures StepsIdentify(world, other)
  {
    hide Signature;
  }

  lemma TurnIdentifies(world: World, settings: Settings, state: State, response: Response, requested: seq<ToolCall>)
    requires Remembers(world, state, requested) && StepsIdentify(world, state)
    ensures StepsIdentify(world, TakeTurn(world, settings, state, response).state)
  {
    hide Remembers, StepsIdentify, RunCalls;
    var after, calls := TakeTurn(world, settings, state, response).state, response.toolCalls;
    if calls == [] || response.isTruncated {
      IdentifiesTheSame(world, state, after);
    } else {
      var asked := Counted(state, response).(messages := state.messages + [Reply(response)]);
      RemembersTheSame(world, state, asked, requested);
      IdentifiesTheSame(world, state, asked);
      RunCallsIdentify(world, asked, requested, calls);
    }
  }

  /**
   The step named to a model that repeats a call is that of one execution and of no
   other: executed calls carry steps that grow with the order of execution.
   */
  lemma {:induction false} RepeatedCallNamesItsExecution(
    world: World, settings: Settings, opening: seq<Message>, replies: seq<Response>)
    ensures StepsIdentify(world, After(world, settings, opening, replies))
  {
    if replies != [] {
      var before := After(world, settings, opening, Init(replies));
      AfterIsLastTurn(world, settings, opening, replies);
      assert LastTurn(world, settings, opening, replies) == TakeTurn(world, settings, before, Last(replies));
      hide Remembers, StepsIdentify, TakeTurn, After, LastTurn;
      RepeatedCallNamesItsExecution(world, settings, opening, Init(replies));
      StateRemembers(world, settings, opening, Init(replies));
      TurnIdentifies(world, settings, before, Last(replies), Requested(Init(replies)));
    }
  }

  /** The evidence a finished run reports is what its executed calls returned, in order. */
  lemma ShownIsWhatToolsReturned(world: World, settings: Settings, opening: seq<Message>, log: Log, outcome: Outcome)
    requires IsRun(world, settings, opening, log, outcome) && outcome.Finished?
    ensures outcome.shown == ShownBy(world, |FirstOfEach(world, Requested(log.replies))|)
    ensures outcome.usage == TotalUsage(log.replies + log.closing)
    ensures |log.requests| == |log.replies| + |log.closing|
  {
    StateRemembers(world, settings, opening, log.replies);
    hide After, IsLoop, IsClosing, SentAll, LastTurn;
  }

  // ---- the nudge --------------------------------------------------------------------------------

  /** The n-th reply named findings and was sent back because they claim unseen code. */
  predicate IsNudged(world: World, settings: Settings, opening: seq<Message>, replies: seq<Response>, n: nat)
    requires n < |replies|
  {
    replies[n].toolCalls == [] && LastTurn(world, settings, opening, replies[..n + 1]).Continue?
  }

  /**
   The guard of the nudge, on the state before the turn: findings that claim code of
   which no fragment was shown, and no nudge before. Calls that showed nothing do
   not count.
   */
  predicate ClaimsTooMuch(world: World, before: State, response: Response) {
    && response.toolCalls == [] && AnswerOf(world, response).Some?
    && before.shown == [] && !before.nudged && ClaimsUncheckedCode(world, AnswerOf(world, response).value)
  }

  lemma NudgedByTheGuard(world: World, settings: Settings, opening: seq<Message>, replies: seq<Response>, n: nat)
    requires n < |replies|
    ensures IsNudged(world, settings, opening, replies, n) <==>
            ClaimsTooMuch(world, After(world, settings, opening, replies[..n]), replies[n])
  {
    assert Init(replies[..n + 1]) == replies[..n] && Last(replies[..n + 1]) == replies[n];
    hide After, RunCalls, AnswerOf, ClaimsUncheckedCode;
  }

  /** A tool was called and showed nothing, and the reply behind it is sent back all the same. */
  lemma NudgedAfterATool()
    returns (world: World, settings: Settings, opening: seq<Message>, replies: seq<Response>)
    ensures |replies| == 2 && IsLoop(world, settings, opening, replies)
    ensures After(world, settings, opening, replies[..1]).executed != []
    ensures IsNudged(world, settings, opening, replies, 1)
  {
    var call := ToolCall("id", "name", "");
    var calling := Response("", "", NO_USAGE, false, 0, [call]);
    var claiming := Response("claim", "", NO_USAGE, false, 0, []);
    settings, opening, replies := Settings(5, 0), [], [calling, claiming];
    world := World(
      n => Replied(if n == 0 then calling else claiming), n => ToolResult("", []), n => false,
      s => Some(Payload([Finding("", "")])), s => false, (s, t) => true, s => None, n => "");
    assert replies[..1] == [calling] && replies[..0] == [] && Init([calling]) == [] && Init([call]) == [];
    var before := After(world, settings, opening, replies[..1]);
    FirstToolTurn(world, settings, opening, calling, call);
    var payload := AnswerOf(world, claiming).value;
    assert world.mentionsExternalCode(payload.findings[0].title, payload.findings[0].body);
    hide After, LastTurn, Signature;
    NudgedByTheGuard(world, settings, opening, replies, 1);
    AfterIsLastTurn(world, settings, opening, replies[..1]);
  }

  /** The first turn, when its only call shows nothing. */
  lemma FirstToolTurn(world: World, settings: Settings, opening: seq<Message>, response: Response, call: ToolCall)
    requires response.toolCalls == [call] && !response.isTruncated && world.execute(0).fragments == []
    ensures var state := After(world, settings, opening, [response]);
      state.executed == [call] && state.shown == [] && !state.nudged
    ensures settings.tokenBudget <= 0 && response.contextWindow <= 0 ==>
              LastTurn(world, settings, opening, [response]).Continue?
  {
    hide Signature;
    assert Init([response]) == [] && Init([call]) == [];
    var start := Start(opening);
    var asked := Counted(start, response).(messages := start.messages + [Reply(response)]);
    assert RunCalls(world, asked, []) == asked;
    assert RunCalls(world, asked, [call]) == RunCall(world, asked, call);
    assert LastTurn(world, settings, opening, [response]) == TakeTurn(world, settings, start, response);
    AfterIsLastTurn(world, settings, opening, [response]);
  }

  lemma {:induction false} NudgeIsRemembered(
    world: World, settings: Settings, opening: seq<Message>, replies: seq<Response>, n: nat, m: nat)
    requires n < m <= |replies| && IsNudged(world, settings, opening, replies, n)
    ensures After(world, settings, opening, replies[..m]).nudged
  {
    hide RunCalls, AnswerOf;
    var earlier := replies[..m - 1];
    assert Init(replies[..m]) == earlier && Last(replies[..m]) == replies[m - 1];
    AfterIsLastTurn(world, settings, opening, replies[..m]);
    if m > n + 1 {
      NudgeIsRemembered(world, settings, opening, replies, n, m - 1);
      var before, response := After(world, settings, opening, earlier), replies[m - 1];
      RunCallsAnswers(
        world, Counted(before, response).(messages := before.messages + [Reply(response)]), response.toolCalls);
      hide After;
    }
  }

  lemma NudgeIsFinal(world: World, settings: Settings, opening: seq<Message>, replies: seq<Response>, i: nat, j: nat)
    requires i < j < |replies| && IsNudged(world, settings, opening, replies, i)
    ensures !IsNudged(world, settings, opening, replies, j)
  {
    NudgeIsRemembered(world, settings, opening, replies, i, j);
    assert Init(replies[..j + 1]) == replies[..j] && Last(replies[..j + 1]) == replies[j];
    hide After, RunCalls, AnswerOf;
  }

  /** A run sends at most one answer back for its unproven claims. */
  lemma NudgedAtMostOnce(
    world: World, settings: Settings, opening: seq<Message>, replies: seq<Response>, i: nat, j: nat)
    requires i < |replies| && j < |replies|
    requires IsNudged(world, settings, opening, replies, i) && IsNudged(world, settings, opening, replies, j)
    ensures i == j
  {
    hide IsNudged;
    if i < j {
      NudgeIsFinal(world, settings, opening, replies, i, j);
    } else if j < i {
      NudgeIsFinal(world, settings, opening, replies, j, i);
    }
  }

  // ---- the budget ---------------------------------------------------------------------------------

  /** The last reply was cut at the output limit while calling tools. */
  predicate IsCut(replies: seq<Response>)
    requires replies != []
  {
    Last(replies).toolCalls != [] && Last(replies).isTruncated
  }

  /**
   Once the replies have spent the token budget the loop asks again if and only if
   it is below its ceiling and the last reply was cut, or claimed code the state
   before it had not shown: only after executed tools is the budget looked at.
   */
  lemma SpentBudgetEndsTheLoop(world: World, settings: Settings, opening: seq<Message>, replies: seq<Response>)
    requires replies != [] && OutOfBudget(settings, TotalUsage(replies))
    ensures !LoopIsOver(world, settings, opening, replies) <==>
            && |replies| < settings.maxSteps
            && (IsCut(replies)
                || ClaimsTooMuch(world, After(world, settings, opening, Init(replies)), Last(replies)))
  {
    hide *;
    var before := After(world, settings, opening, Init(replies));
    UsageIsTotal(world, settings, opening, replies);
    AfterIsLastTurn(world, settings, opening, replies);
    WhenTheLoopIsOver(world, settings, opening, replies);
    OverspentTurn(world, settings, before, Last(replies));
    NudgedByTheGuard(world, settings, opening, replies, |replies| - 1);
    LastReply(replies);
  }

  lemma LastReply(replies: seq<Response>)
    requires replies != []
    ensures Last(replies) == replies[|replies| - 1] && Init(replies) == replies[..|replies| - 1]
  {
  }

  lemma WhenTheLoopIsOver(world: World, settings: Settings, opening: seq<Message>, replies: seq<Response>)
    requires replies != []
    ensures var turn := LastTurn(world, settings, opening, replies);
      && turn == TakeTurn(world, settings, After(world, settings, opening, Init(replies)), Last(replies))
      && (LoopIsOver(world, settings, opening, replies) <==> |replies| >= settings.maxSteps || !turn.Continue?)
      && (IsCut(replies) <==> Last(replies).toolCalls != [] && Last(replies).isTruncated)
      && (IsNudged(world, settings, opening, replies, |replies| - 1) <==>
          Last(replies).toolCalls == [] && turn.Continue?)
  {
    assert replies[..|replies|] == replies;
    hide TakeTurn, After;
  }

  lemma OverspentTurn(world: World, settings: Settings, state: State, response: Response)
    requires OutOfBudget(settings, TakeTurn(world, settings, state, response).state.usage)
    ensures response.toolCalls != [] ==>
              (TakeTurn(world, settings, state, response).Continue? <==> response.isTruncated)
  {
    var asked := Counted(state, response).(messages := state.messages + [Reply(response)]);
    RunCallsAnswers(world, asked, response.toolCalls);
    hide RunCalls, AnswersTo, AnswerOf, WindowNearlyFull;
  }

  // ---- the transcript ------------------------------------------------------------------------------

  lemma TurnGrows(world: World, settings: Settings, state: State, response: Response)
    ensures state.messages <= TakeTurn(world, settings, state, response).state.messages
  {
    var asked := Counted(state, response).(messages := state.messages + [Reply(response)]);
    RunCallsAnswers(world, asked, response.toolCalls);
    hide RunCalls, AnswersTo;
  }

  lemma {:induction false} StateGrows(
    world: World, settings: Settings, opening: seq<Message>, replies: seq<Response>, n: nat)
    requires n <= |replies|
    ensures After(world, settings, opening, replies[..n]).messages <= After(world, settings, opening, replies).messages
  {
    if n == |replies| {
      assert replies[..n] == replies;
    } else {
      AfterIsLastTurn(world, settings, opening, replies);
      hide TakeTurn, After;
      StateGrows(world, settings, opening, Init(replies), n);
      assert Init(replies)[..n] == replies[..n];
      TurnGrows(world, settings, After(world, settings, opening, Init(replies)), Last(replies));
    }
  }

  lemma RequestGrows(world: World, settings: Settings, opening: seq<Message>, log: Log, m: nat, n: nat)
    requires m <= n <= |log.replies| + |log.closing|
    requires n > |log.replies| ==> LoopIsOver(world, settings, opening, log.replies)
    requires n <= |log.replies| + 1
    ensures Request(world, settings, opening, log, m) <= Request(world, settings, opening, log, n)
  {
    hide After, LoopIsOver;
    StateGrows(world, settings, opening, log.replies, Min(m, |log.replies|));
    if n < |log.replies| {
      StateGrows(world, settings, opening, log.replies[..n], m);
      assert log.replies[..n][..m] == log.replies[..m];
    }
  }

  /** Nothing a run has said to the model is taken back: every request carries the opening and the ones before it. */
  lemma TranscriptOnlyGrows(
    world: World, settings: Settings, opening: seq<Message>, log: Log, outcome: Outcome, m: nat, n: nat)
    requires IsRun(world, settings, opening, log, outcome) && m <= n < |log.requests|
    ensures opening <= log.requests[m] <= log.requests[n]
  {
    AtMostTwoClosingRequests(world, settings, opening, log, outcome);
    assert log.requests[m] == Request(world, settings, opening, log, m);
    assert log.requests[n] == Request(world, settings, opening, log, n);
    OpeningIsFirst(world, settings, opening, log);
    hide IsRun, Request;
    RequestGrows(world, settings, opening, log, m, n);
    RequestGrows(world, settings, opening, log, 0, m);
  }

  lemma OpeningIsFirst(world: World, settings: Settings, opening: seq<Message>, log: Log)
    ensures opening <= Request(world, settings, opening, log, 0)
  {
    StateGrows(world, settings, opening, log.replies, 0);
    assert log.replies[..0] == [];
    hide LoopIsOver;
  }
}
