/**
 The reviewer that investigates with tools: it asks a model, runs the tools the
 model calls, and ends with a structured answer. The model, the tools and the
 wish to stop are arbitrary; everything said about a run holds for all of them.
 */
module Reviewer {
  import opened Prelude
  import opened Dialogue

  const CHARS_PER_TOKEN := 3

  const CALL_REFUSED := "not executed: the reply was cut"
  const TRUNCATED_CALLS_MESSAGE := "re-issue the calls, none were executed"
  const UNPROVEN_CLAIM_MESSAGE := "look at the code you claim something about"
  const FINAL_INSTRUCTION := "stop investigating and answer now"
  const TRUNCATED_ANSWER_MESSAGE := "answer with a shorter JSON object"
  const NOT_JSON_MESSAGE := "answer with the JSON object only"

  datatype Finding = Finding(title: string, body: string)

  datatype Payload = Payload(findings: seq<Finding>)

  datatype Response = Response(
    content: string,
    model: string,
    usage: Usage,
    isTruncated: bool,
    contextWindow: int,
    toolCalls: seq<ToolCall>)

  datatype ModelError = ContextOverflow | OtherFailure

  datatype ModelReply = Replied(response: Response) | Refused(error: ModelError)

  /**
   Everything the loop does not decide: the reply to the n-th request, the result
   of the n-th executed call, whether a stop was asked for before the n-th request,
   and the text functions over JSON and prose.
   */
  datatype World = World(
    reply: nat -> ModelReply,
    execute: nat -> ToolResult,
    stopRequested: nat -> bool,
    parse: string -> Option<Payload>,
    isBlank: string -> bool,
    mentionsExternalCode: (string, string) -> bool,
    canonicalJson: string -> Option<string>,
    repeatedCallMessage: nat -> string)

  datatype Settings = Settings(maxSteps: int, tokenBudget: int)

  datatype Outcome =
    | Finished(payload: Payload, usage: Usage, model: string, shown: seq<CodeFragment>)
    | Overflowed
    | Unparsed
    | Failed
    | Interrupted

  // ---- one turn --------------------------------------------------------------------

  datatype State = State(
    messages: seq<Message>,
    usage: Usage,
    shown: seq<CodeFragment>,
    seenCalls: map<string, nat>,
    executed: seq<ToolCall>,
    step: nat,
    nudged: bool)

  function Signature(world: World, call: ToolCall): string {
    var canonical := world.canonicalJson(if call.arguments == "" then "{}" else call.arguments);
    call.name + ":" + if canonical.Some? then canonical.value else call.arguments
  }

  function RunCall(world: World, state: State, call: ToolCall): State {
    var signature := Signature(world, call);
    var step := state.step + 1;
    if signature in state.seenCalls then
      var text := world.repeatedCallMessage(state.seenCalls[signature]);
      state.(messages := state.messages + [Tool(text, call.id)], step := step)
    else
      var result := world.execute(|state.executed|);
      state.(
        messages := state.messages + [Tool(result.text, call.id)],
        shown := state.shown + result.fragments,
        seenCalls := state.seenCalls[signature := step],
        executed := state.executed + [call],
        step := step)
  }

  function RunCalls(world: World, state: State, calls: seq<ToolCall>): State {
    if calls == [] then state else RunCall(world, RunCalls(world, state, Init(calls)), Last(calls))
  }

  function RefusedCalls(calls: seq<ToolCall>): (answers: seq<Message>)
    ensures AnswersTo(answers, calls)
  {
    seq(|calls|, i requires 0 <= i < |calls| => Tool(CALL_REFUSED, calls[i].id))
  }

  function AnswerTokens(messages: seq<Message>): nat {
    if messages == [] then 0 else AnswerTokens(Init(messages)) + |Last(messages).content| / CHARS_PER_TOKEN
  }

  function AnswerOf(world: World, response: Response): Option<Payload> {
    if world.isBlank(response.content) then None else world.parse(response.content)
  }

  predicate ClaimsUncheckedCode(world: World, payload: Payload) {
    exists i :: 0 <= i < |payload.findings| &&
      world.mentionsExternalCode(payload.findings[i].title, payload.findings[i].body)
  }

  predicate OutOfBudget(settings: Settings, usage: Usage) {
    settings.tokenBudget > 0 && usage.inputTokens + usage.outputTokens >= settings.tokenBudget
  }

  /** Three quarters of the window are filled; an unknown window never is. */
  predicate WindowNearlyFull(dialogueTokens: int, contextWindow: int) {
    contextWindow > 0 && dialogueTokens > 0 && 4 * dialogueTokens >= 3 * contextWindow
  }

  datatype Turn = Continue(state: State) | Answer(state: State, payload: Payload) | Close(state: State)

  function Reply(response: Response): Message {
    Assistant(response.content, response.toolCalls)
  }

  function RefuseTurn(state: State, response: Response): State {
    state.(messages := state.messages + [Reply(response)] + RefusedCalls(response.toolCalls)
    + [User(TRUNCATED_CALLS_MESSAGE)])
  }

  function NudgeTurn(state: State, response: Response): State {
    state.(messages := state.messages + [Reply(response)] + [User(UNPROVEN_CLAIM_MESSAGE)], nudged := true)
  }

  function ToolsTurn(world: World, state: State, response: Response): State {
    RunCalls(world, state.(messages := state.messages + [Reply(response)]), response.toolCalls)
  }

  function Counted(state: State, response: Response): State {
    state.(usage := Add(state.usage, response.usage), step := state.step + 1)
  }

  predicate MustClose(settings: Settings, before: State, after: State, response: Response)
    requires |before.messages| < |after.messages|
  {
    || OutOfBudget(settings, after.usage)
    || WindowNearlyFull(
         response.usage.inputTokens + response.usage.outputTokens
         + AnswerTokens(after.messages[|before.messages| + 1..]),
         response.contextWindow)
  }

  lemma {:induction false} RunCallsAnswers(world: World, state: State, calls: seq<ToolCall>)
    ensures var after := RunCalls(world, state, calls);
      && |after.messages| == |state.messages| + |calls|
      && state.messages <= after.messages
      && AnswersTo(after.messages[|state.messages|..], calls)
      && after.usage == state.usage && after.nudged == state.nudged
  {
    if calls == [] {
      assert state.messages[|state.messages|..] == [];
    } else {
      RunCallsAnswers(world, state, Init(calls));
      RunCallAnswers(world, RunCalls(world, state, Init(calls)), Last(calls), |state.messages|);
      OneMoreAnswer(
        RunCalls(world, state, Init(calls)).messages[|state.messages|..], Init(calls),
        Last(RunCalls(world, state, calls).messages), Last(calls));
      assert Init(calls) + [Last(calls)] == calls;
    }
  }

  lemma RunCallAnswers(world: World, state: State, call: ToolCall, n: nat)
    requires n <= |state.messages|
    ensures var after := RunCall(world, state, call);
      && after.messages != [] && Last(after.messages).Tool? && Last(after.messages).callId == call.id
      && after.messages == state.messages + [Last(after.messages)]
      && after.messages[n..] == state.messages[n..] + [Last(after.messages)]
      && after.usage == state.usage && after.nudged == state.nudged
  {
  }

  lemma OneMoreAnswer(answers: seq<Message>, calls: seq<ToolCall>, answer: Message, call: ToolCall)
    requires AnswersTo(answers, calls) && answer.Tool? && answer.callId == call.id
    ensures AnswersTo(answers + [answer], calls + [call])
  {
  }

  function TakeTurn(world: World, settings: Settings, state: State, response: Response): Turn {
    var counted := Counted(state, response);
    if response.toolCalls != [] && response.isTruncated then
      Continue(RefuseTurn(counted, response))
    else if response.toolCalls == [] then
      var answer := AnswerOf(world, response);
      if answer.None? then Close(counted)
      else if state.shown == [] && !state.nudged && ClaimsUncheckedCode(world, answer.value) then
        Continue(NudgeTurn(counted, response))
      else Answer(counted, answer.value)
    else
      var after := ToolsTurn(world, counted, response);
      RunCallsAnswers(world, counted.(messages := counted.messages + [Reply(response)]), response.toolCalls);
      if MustClose(settings, state, after, response) then Close(after) else Continue(after)
  }

  // ---- whole runs ---------------------------------------------------------------------

  function Start(opening: seq<Message>): State {
    State(opening, NO_USAGE, [], map[], [], 0, false)
  }

  /** The state after these replies of the loop. */
  function After(world: World, settings: Settings, opening: seq<Message>, replies: seq<Response>): State
    decreases |replies|, 1
  {
    if replies == [] then Start(opening) else LastTurn(world, settings, opening, replies).state
  }

  function LastTurn(world: World, settings: Settings, opening: seq<Message>, replies: seq<Response>): Turn
    requires replies != []
    decreases |replies|, 0
  {
    TakeTurn(world, settings, After(world, settings, opening, Init(replies)), Last(replies))
  }

  /** The loop asks no further: the ceiling is reached or the last turn ended it. */
  predicate LoopIsOver(world: World, settings: Settings, opening: seq<Message>, replies: seq<Response>) {
    || |replies| >= settings.maxSteps
    || (replies != [] && !LastTurn(world, settings, opening, replies).Continue?)
  }

  predicate IsAnswered(world: World, settings: Settings, opening: seq<Message>, replies: seq<Response>) {
    replies != [] && LastTurn(world, settings, opening, replies).Answer?
  }

  /** What was sent to the model, its replies inside the loop and its closing replies. */
  datatype Log = Log(requests: seq<seq<Message>>, replies: seq<Response>, closing: seq<Response>)

  function RetryMessage(response: Response): Message {
    User(if response.isTruncated then TRUNCATED_ANSWER_MESSAGE else NOT_JSON_MESSAGE)
  }

  /** The transcript the n-th request carried. */
  function Request(world: World, settings: Settings, opening: seq<Message>, log: Log, n: nat): seq<Message>
    requires n <= |log.replies| + |log.closing|
  {
    if n < |log.replies| then
      After(world, settings, opening, log.replies[..n]).messages
    else
      var messages := After(world, settings, opening, log.replies).messages;
      if !LoopIsOver(world, settings, opening, log.replies) then messages
      else if n == |log.replies| then messages + [User(FINAL_INSTRUCTION)]
      else messages + [User(FINAL_INSTRUCTION)] + [Reply(log.closing[0])] + [RetryMessage(log.closing[0])]
  }

  function TotalUsage(replies: seq<Response>): Usage {
    if replies == [] then NO_USAGE else Add(TotalUsage(Init(replies)), Last(replies).usage)
  }

  function ModelName(log: Log): string {
    if log.closing != [] && Last(log.closing).model != "" then Last(log.closing).model
    else if log.replies != [] then Last(log.replies).model
    else ""
  }

  /** The loop part of a run: it kept going before every reply it got. */
  ghost predicate IsLoop(world: World, settings: Settings, opening: seq<Message>, replies: seq<Response>) {
    forall n :: 0 <= n < |replies| ==>
      && !LoopIsOver(world, settings, opening, replies[..n])
      && !world.stopRequested(n)
      && world.reply(n) == Replied(replies[n])
  }

  /** The closing part: at most two replies, the second only after an unparsable first. */
  ghost predicate IsClosing(world: World, settings: Settings, opening: seq<Message>, log: Log) {
    && |log.closing| <= 2
    && (log.closing != [] ==>
          LoopIsOver(world, settings, opening, log.replies) && !IsAnswered(world, settings, opening, log.replies))
    && (|log.closing| == 2 ==> world.parse(log.closing[0].content).None?)
    && forall n :: 0 <= n < |log.closing| ==> world.reply(|log.replies| + n) == Replied(log.closing[n])
  }

  ghost predicate SentAll(world: World, settings: Settings, opening: seq<Message>, log: Log) {
    && |log.requests| <= |log.replies| + Min(|log.closing| + 1, 2)
    && forall n :: 0 <= n < |log.requests| ==> log.requests[n] == Request(world, settings, opening, log, n)
  }

  ghost predicate Ends(world: World, settings: Settings, opening: seq<Message>, log: Log, outcome: Outcome) {
    var received := |log.replies| + |log.closing|;
    match outcome
    case Finished(payload, usage, model, shown) =>
      && |log.requests| == received > 0
      && usage == TotalUsage(log.replies + log.closing)
      && model == ModelName(log)
      && shown == After(world, settings, opening, log.replies).shown
      && (if log.closing == [] then
            IsAnswered(world, settings, opening, log.replies)
            && payload == LastTurn(world, settings, opening, log.replies).payload
          else
            world.parse(Last(log.closing).content) == Some(payload))
    case Unparsed =>
      |log.requests| == received && |log.closing| == 2 && world.parse(log.closing[1].content).None?
    case Interrupted =>
      && |log.requests| == received && log.closing == [] && world.stopRequested(received)
      && !LoopIsOver(world, settings, opening, log.replies)
    case Overflowed => |log.requests| == received + 1 && world.reply(received) == Refused(ContextOverflow)
    case Failed => |log.requests| == received + 1 && world.reply(received) == Refused(OtherFailure)
  }

  ghost predicate IsRun(world: World, settings: Settings, opening: seq<Message>, log: Log, outcome: Outcome) {
    && IsLoop(world, settings, opening, log.replies)
    && IsClosing(world, settings, opening, log)
    && SentAll(world, settings, opening, log)
    && Ends(world, settings, opening, log, outcome)
  }

  /** Some run ends this way. */
  ghost predicate CanEnd(world: World, settings: Settings, opening: seq<Message>, outcome: Outcome) {
    exists log :: IsRun(world, settings, opening, log, outcome)
  }

  // ---- the reviewer itself ---------------------------------------------------------------

  /** Runs the calls of one reply; a call already executed is answered from the dialogue. */
  method RunTools(world: World, state: State, response: Response) returns (after: State, dialogueTokens: int)
    ensures after == ToolsTurn(world, state, response)
    ensures |state.messages| < |after.messages|
    ensures dialogueTokens == response.usage.inputTokens + response.usage.outputTokens
                              + AnswerTokens(after.messages[|state.messages| + 1..])
  {
    var asked := state.(messages := state.messages + [Reply(response)]);
    after := asked;
    dialogueTokens := response.usage.inputTokens + response.usage.outputTokens;
    var calls := response.toolCalls;
    assert after.messages[|asked.messages|..] == [];
    hide RunCall;
    for i := 0 to |calls|
      invariant after == RunCalls(world, asked, calls[..i])
      invariant |after.messages| >= |asked.messages|
      invariant dialogueTokens == response.usage.inputTokens + response.usage.outputTokens
                                  + AnswerTokens(after.messages[|asked.messages|..])
    {
      var call := calls[i];
      assert Init(calls[..i + 1]) == calls[..i];
      RunCallAnswers(world, after, call, |asked.messages|);
      after := RunTool(world, after, call);
      assert Init(after.messages[|asked.messages|..]) == Init(after.messages)[|asked.messages|..];
      dialogueTokens := dialogueTokens + |Last(after.messages).content| / CHARS_PER_TOKEN;
    }
    assert calls[..|calls|] == calls;
  }

  method RunTool(world: World, state: State, call: ToolCall) returns (after: State)
    ensures after == RunCall(world, state, call)
  {
    var signature := Signature(world, call);
    var step := state.step + 1;
    var result;
    if signature in state.seenCalls {
      result := ToolResult(world.repeatedCallMessage(state.seenCalls[signature]), []);
      after := state;
    } else {
      result := world.execute(|state.executed|);
      after := state.(seenCalls := state.seenCalls[signature := step], executed := state.executed + [call]);
    }
    after := after.(
      messages := state.messages + [Tool(result.text, call.id)],
      shown := state.shown + result.fragments,
      step := step);
  }

  /** Between two turns: every request so far was answered and is on record. */
  ghost predicate Asked(world: World, settings: Settings, opening: seq<Message>, log: Log, state: State) {
    && IsLoop(world, settings, opening, log.replies)
    && log.closing == [] && |log.requests| == |log.replies|
    && SentAll(world, settings, opening, log)
    && state == After(world, settings, opening, log.replies)
  }

  lemma FirstAsked(world: World, settings: Settings, opening: seq<Message>)
    ensures Asked(world, settings, opening, Log([], [], []), Start(opening))
  {
  }

  lemma RequestIsStable(
    world: World, settings: Settings, opening: seq<Message>, log: Log, longer: Log, n: nat)
    requires |log.replies| <= |longer.replies| && longer.replies[..|log.replies|] == log.replies && n < |log.replies|
    ensures Request(world, settings, opening, longer, n) == Request(world, settings, opening, log, n)
  {
    assert longer.replies[..n] == log.replies[..n];
  }

  lemma NextAsked(
    world: World, settings: Settings, opening: seq<Message>, log: Log, state: State, response: Response)
    requires Asked(world, settings, opening, log, state) && !LoopIsOver(world, settings, opening, log.replies)
    requires !world.stopRequested(|log.replies|) && world.reply(|log.replies|) == Replied(response)
    ensures var next := Log(log.requests + [state.messages], log.replies + [response], []);
      var turn := TakeTurn(world, settings, state, response);
      && Asked(world, settings, opening, next, turn.state)
      && LastTurn(world, settings, opening, next.replies) == turn
  {
    hide TakeTurn, After, LoopIsOver;
    var next := Log(log.requests + [state.messages], log.replies + [response], []);
    var turn := TakeTurn(world, settings, state, response);
    assert Init(next.replies) == log.replies;
    assert LastTurn(world, settings, opening, next.replies) == turn;
    assert After(world, settings, opening, next.replies) == turn.state by {
      AfterIsLastTurn(world, settings, opening, next.replies);
    }
    forall n | 0 <= n < |next.replies|
      ensures !LoopIsOver(world, settings, opening, next.replies[..n])
      ensures !world.stopRequested(n) && world.reply(n) == Replied(next.replies[n])
      ensures next.requests[n] == Request(world, settings, opening, next, n)
    {
      if n < |log.replies| {
        assert next.replies[..n] == log.replies[..n];
        RequestIsStable(world, settings, opening, log, next, n);
      } else {
        assert next.replies[..n] == log.replies;
      }
    }
  }

  lemma AfterIsLastTurn(world: World, settings: Settings, opening: seq<Message>, replies: seq<Response>)
    requires replies != []
    ensures After(world, settings, opening, replies) == LastTurn(world, settings, opening, replies).state
  {
  }

  /** A run that stops on an unanswered request, or before one. */
  lemma EndsEarly(world: World, settings: Settings, opening: seq<Message>, log: Log, state: State, outcome: Outcome)
    requires Asked(world, settings, opening, log, state) && !LoopIsOver(world, settings, opening, log.replies)
    ensures outcome == Interrupted && world.stopRequested(|log.replies|) ==>
              IsRun(world, settings, opening, log, outcome)
    ensures (match world.reply(|log.replies|)
             case Refused(ContextOverflow) => outcome == Overflowed
             case Refused(OtherFailure) => outcome == Failed
             case Replied(_) => false) ==>
              IsRun(world, settings, opening, log.(requests := log.requests + [state.messages]), outcome)
  {
    hide TakeTurn, After, LoopIsOver;
    var sent := log.(requests := log.requests + [state.messages]);
    forall n | 0 <= n < |sent.requests|
      ensures sent.requests[n] == Request(world, settings, opening, sent, n)
    {
      if n < |log.replies| {
        RequestIsStable(world, settings, opening, log, sent, n);
      }
    }
  }

  /** The investigation loop, then the closing question unless the loop was answered. */
  method Investigate(world: World, settings: Settings, opening: seq<Message>) returns (outcome: Outcome, ghost log: Log)
    ensures IsRun(world, settings, opening, log, outcome) && CanEnd(world, settings, opening, outcome)
  {
    var state := Start(opening);
    log := Log([], [], []);
    var model := "";
    var attempt := 0;
    FirstAsked(world, settings, opening);
    hide Asked, IsLoop, SentAll, IsRun, After, LastTurn, Signature, RunCalls;
    while attempt < settings.maxSteps
      invariant 0 <= attempt == |log.replies|
      invariant Asked(world, settings, opening, log, state)
      invariant attempt > 0 ==> LastTurn(world, settings, opening, log.replies).Continue?
      invariant model == ModelName(log) && log.closing == []
      decreases settings.maxSteps - attempt
    {
      if world.stopRequested(attempt) {
        EndsEarly(world, settings, opening, log, state, Interrupted);
        return Interrupted, log;
      }
      var reply := world.reply(attempt);
      if reply.Refused? {
        outcome := if reply.error == ContextOverflow then Overflowed else Failed;
        EndsEarly(world, settings, opening, log, state, outcome);
        log := log.(requests := log.requests + [state.messages]);
        return;
      }
      var response := reply.response;
      NextAsked(world, settings, opening, log, state, response);
      log := Log(log.requests + [state.messages], log.replies + [response], []);
      attempt := attempt + 1;
      var before := state;
      state := state.(usage := Add(state.usage, response.usage), step := state.step + 1);
      model := response.model;

      if response.toolCalls != [] && response.isTruncated {
        state := RefuseTurn(state, response);
        continue;
      }
      if response.toolCalls == [] {
        var answer := AnswerOf(world, response);
        if answer.None? {
          break;
        }
        if state.shown == [] && !state.nudged && ClaimsUncheckedCode(world, answer.value) {
          state := NudgeTurn(state, response);
          continue;
        }
        outcome := Finished(answer.value, state.usage, response.model, state.shown);
        AnsweredRun(world, settings, opening, log, state, answer.value);
        return;
      }
      var dialogueTokens;
      state, dialogueTokens := RunTools(world, state, response);
      if OutOfBudget(settings, state.usage) || WindowNearlyFull(dialogueTokens, response.contextWindow) {
        break;
      }
    }
    outcome, log := Conclude(world, settings, opening, log, attempt, state, model);
  }

  /** What the run has asked and counted so far. */
  lemma {:induction false} UsageIsTotal(world: World, settings: Settings, opening: seq<Message>, replies: seq<Response>)
    ensures After(world, settings, opening, replies).usage == TotalUsage(replies)
  {
    if replies != [] {
      UsageIsTotal(world, settings, opening, Init(replies));
      var before, response := After(world, settings, opening, Init(replies)), Last(replies);
      RunCallsAnswers(
        world, Counted(before, response).(messages := before.messages + [Reply(response)]), response.toolCalls);
      hide After;
      AfterIsLastTurn(world, settings, opening, replies);
    }
  }

  lemma AnsweredRun(
    world: World, settings: Settings, opening: seq<Message>, log: Log, state: State, payload: Payload)
    requires Asked(world, settings, opening, log, state) && log.replies != []
    requires LastTurn(world, settings, opening, log.replies) == Answer(state, payload)
    ensures IsRun(world, settings, opening, log, Finished(payload, state.usage, Last(log.replies).model, state.shown))
  {
    hide TakeTurn, After;
    UsageIsTotal(world, settings, opening, log.replies);
    assert log.replies + log.closing == log.replies;
  }

  /** The closing requests: the closing question, then the same with the unparsable reply and a reminder. */
  function ClosingRequests(messages: seq<Message>, closing: seq<Response>, sent: nat): (requests: seq<seq<Message>>)
    requires sent <= 2 && (sent == 2 ==> closing != [])
    ensures |requests| == sent
  {
    var first := messages + [User(FINAL_INSTRUCTION)];
    if sent == 0 then []
    else if sent == 1 then [first]
    else [first, first + [Reply(closing[0])] + [RetryMessage(closing[0])]]
  }

  lemma ClosingIsSent(
    world: World, settings: Settings, opening: seq<Message>, asked: Log, state: State, log: Log, sent: nat)
    requires Asked(world, settings, opening, asked, state)
    requires LoopIsOver(world, settings, opening, asked.replies) && !IsAnswered(world, settings, opening, asked.replies)
    requires |log.closing| <= sent <= |log.closing| + 1 && sent <= 2
    requires log == Log(asked.requests + ClosingRequests(state.messages, log.closing, sent), asked.replies, log.closing)
    requires |log.closing| == 2 ==> world.parse(log.closing[0].content).None?
    requires forall n :: 0 <= n < |log.closing| ==> world.reply(|asked.replies| + n) == Replied(log.closing[n])
    ensures IsLoop(world, settings, opening, log.replies)
    ensures IsClosing(world, settings, opening, log)
    ensures SentAll(world, settings, opening, log) && |log.requests| == |log.replies| + sent
  {
    hide After, LoopIsOver, IsAnswered, IsLoop;
    forall n | 0 <= n < |log.requests|
      ensures log.requests[n] == Request(world, settings, opening, log, n)
    {
      if n < |asked.replies| {
        RequestIsStable(world, settings, opening, asked, log, n);
      }
    }
  }

  lemma UsageOfOneMore(replies: seq<Response>, closing: seq<Response>, longer: seq<Response>, response: Response)
    requires longer == closing + [response]
    ensures TotalUsage(replies + longer) == Add(TotalUsage(replies + closing), response.usage)
    ensures closing == [] ==> TotalUsage(replies + longer) == Add(TotalUsage(replies), response.usage)
  {
    assert Init(replies + longer) == replies + closing;
    assert replies + [] == replies;
  }

  /** A run that failed on a closing request. */
  lemma ClosingFails(
    world: World, settings: Settings, opening: seq<Message>, asked: Log, state: State, log: Log, sent: nat, outcome: Outcome)
    requires Asked(world, settings, opening, asked, state)
    requires LoopIsOver(world, settings, opening, asked.replies) && !IsAnswered(world, settings, opening, asked.replies)
    requires sent == |log.closing| + 1 <= 2
    requires log == Log(asked.requests + ClosingRequests(state.messages, log.closing, sent), asked.replies, log.closing)
    requires forall n :: 0 <= n < |log.closing| ==> world.reply(|asked.replies| + n) == Replied(log.closing[n])
    requires world.reply(|asked.replies| + |log.closing|).Refused?
    requires outcome == if world.reply(|asked.replies| + |log.closing|).error == ContextOverflow then Overflowed else Failed
    ensures IsRun(world, settings, opening, log, outcome)
  {
    hide Asked, LoopIsOver, IsAnswered, ClosingRequests, IsLoop, IsClosing, SentAll;
    ClosingIsSent(world, settings, opening, asked, state, log, sent);
  }

  /** A run whose last closing reply was read. */
  lemma ClosingEnds(
    world: World, settings: Settings, opening: seq<Message>, asked: Log, state: State, log: Log, outcome: Outcome)
    requires Asked(world, settings, opening, asked, state)
    requires LoopIsOver(world, settings, opening, asked.replies) && !IsAnswered(world, settings, opening, asked.replies)
    requires 1 <= |log.closing| <= 2
    requires log == Log(
                      asked.requests + ClosingRequests(state.messages, log.closing, |log.closing|),
                      asked.replies, log.closing)
    requires |log.closing| == 2 ==> world.parse(log.closing[0].content).None?
    requires forall n :: 0 <= n < |log.closing| ==> world.reply(|asked.replies| + n) == Replied(log.closing[n])
    requires var payload := world.parse(Last(log.closing).content);
      if payload.None? then
        |log.closing| == 2 && outcome == Unparsed
      else
        outcome == Finished(payload.value, TotalUsage(log.replies + log.closing), ModelName(log), state.shown)
    ensures IsRun(world, settings, opening, log, outcome)
  {
    assert state.shown == After(world, settings, opening, asked.replies).shown;
    hide After, Asked, LoopIsOver, IsAnswered, ClosingRequests, IsLoop, IsClosing, SentAll, TotalUsage;
    ClosingIsSent(world, settings, opening, asked, state, log, |log.closing|);
  }

  lemma AskedUsage(world: World, settings: Settings, opening: seq<Message>, asked: Log, state: State)
    requires Asked(world, settings, opening, asked, state)
    ensures asked.closing == [] && state.usage == TotalUsage(asked.replies)
  {
    UsageIsTotal(world, settings, opening, asked.replies);
  }

  /** The closing question, asked without tools and repeated once if its answer does not parse. */
  method Conclude(
    world: World, settings: Settings, opening: seq<Message>, ghost asked: Log, sent: nat, state: State, model: string)
    returns (outcome: Outcome, ghost log: Log)
    requires Asked(world, settings, opening, asked, state)
    requires LoopIsOver(world, settings, opening, asked.replies)
    requires !IsAnswered(world, settings, opening, asked.replies)
    requires model == ModelName(asked) && sent == |asked.replies|
    ensures IsRun(world, settings, opening, log, outcome)
  {
    hide Asked, IsRun, LoopIsOver, IsAnswered, TotalUsage, ModelName;
    AskedUsage(world, settings, opening, asked, state);
    var closing := state.messages + [User(FINAL_INSTRUCTION)];
    log := Log(asked.requests + [closing], asked.replies, []);
    var reply := world.reply(sent);
    if reply.Refused? {
      outcome := if reply.error == ContextOverflow then Overflowed else Failed;
      ClosingFails(world, settings, opening, asked, state, log, 1, outcome);
    } else {
      log := log.(closing := [reply.response]);
      UsageOfOneMore(asked.replies, [], log.closing, reply.response);
      outcome, log := ReadClosing(
        world, settings, opening, asked, log, sent + 1, state, closing, reply.response,
        Add(state.usage, reply.response.usage), model);
    }
  }

  method ReadClosing(
    world: World, settings: Settings, opening: seq<Message>, ghost asked: Log, ghost once: Log, sent: nat, state: State,
    closing: seq<Message>, response: Response, usage: Usage, model: string)
    returns (outcome: Outcome, ghost log: Log)
    requires Asked(world, settings, opening, asked, state)
    requires LoopIsOver(world, settings, opening, asked.replies)
    requires !IsAnswered(world, settings, opening, asked.replies)
    requires model == ModelName(asked) && asked.closing == [] && sent == |asked.replies| + 1
    requires closing == state.messages + [User(FINAL_INSTRUCTION)]
    requires once == Log(asked.requests + [closing], asked.replies, [response])
    requires world.reply(|asked.replies|) == Replied(response)
    requires usage == TotalUsage(asked.replies + once.closing)
    ensures IsRun(world, settings, opening, log, outcome)
  {
    hide Asked, IsRun, LoopIsOver, IsAnswered, TotalUsage;
    log := once;
    var payload := world.parse(response.content);
    if payload.None? {
      outcome, log := AskAgain(world, settings, opening, asked, once, sent, state, closing, response, usage, model);
    } else {
      outcome := Finished(payload.value, usage, if response.model != "" then response.model else model, state.shown);
      ClosingEnds(world, settings, opening, asked, state, log, outcome);
    }
  }

  method AskAgain(
    world: World, settings: Settings, opening: seq<Message>, ghost asked: Log, ghost once: Log, sent: nat, state: State,
    closing: seq<Message>, unparsed: Response, usage: Usage, model: string)
    returns (outcome: Outcome, ghost log: Log)
    requires Asked(world, settings, opening, asked, state)
    requires LoopIsOver(world, settings, opening, asked.replies)
    requires !IsAnswered(world, settings, opening, asked.replies)
    requires model == ModelName(asked) && asked.closing == [] && sent == |asked.replies| + 1
    requires closing == state.messages + [User(FINAL_INSTRUCTION)]
    requires once == Log(asked.requests + [closing], asked.replies, [unparsed])
    requires world.reply(|asked.replies|) == Replied(unparsed) && world.parse(unparsed.content).None?
    requires usage == TotalUsage(asked.replies + once.closing)
    ensures IsRun(world, settings, opening, log, outcome)
  {
    hide After, TakeTurn, LastTurn, Asked, IsRun, LoopIsOver, IsAnswered, TotalUsage;
    var again := closing + [Reply(unparsed)] + [RetryMessage(unparsed)];
    log := once.(requests := once.requests + [again]);
    assert log.requests == asked.requests + ClosingRequests(state.messages, log.closing, 2);
    var reply := world.reply(sent);
    if reply.Refused? {
      outcome := if reply.error == ContextOverflow then Overflowed else Failed;
      ClosingFails(world, settings, opening, asked, state, log, 2, outcome);
      return;
    }
    var response := reply.response;
    UsageOfOneMore(asked.replies, [unparsed], [unparsed, response], response);
    log := log.(closing := [unparsed, response]);
    var payload := world.parse(response.content);
    outcome := if payload.None? then Unparsed
    else Finished(payload.value, Add(usage, response.usage),
                  if response.model != "" then response.model else model, state.shown);
    ClosingEnds(world, settings, opening, asked, state, log, outcome);
  }

  // ---- falling back -------------------------------------------------------------------------

  datatype FallbackReason = NoTools | WindowTooSmall | AnswerUnparsed

  datatype Review =
    | Investigated(payload: Payload, usage: Usage, model: string, shown: seq<CodeFragment>)
    | FellBack(reason: FallbackReason)
    | Raised(outcome: Outcome)

  /** What the reviewer makes of the end of an investigation. */
  function ReviewOf(outcome: Outcome): Review {
    match outcome
    case Finished(payload, usage, model, shown) => Investigated(payload, usage, model, shown)
    case Overflowed => FellBack(WindowTooSmall)
    case Unparsed => FellBack(AnswerUnparsed)
    case _ => Raised(outcome)
  }

  /** A file without tools, or whose investigation overflowed or never parsed, goes to the one-pass reviewer. */
  method ReviewFile(world: World, settings: Settings, opening: seq<Message>, hasNavigator: bool)
    returns (review: Review)
    ensures !hasNavigator ==> review == FellBack(NoTools)
    ensures hasNavigator ==> exists outcome :: CanEnd(world, settings, opening, outcome) && review == ReviewOf(outcome)
    ensures review == FellBack(NoTools) ==> !hasNavigator
    ensures review == FellBack(WindowTooSmall) ==> CanEnd(world, settings, opening, Overflowed)
    ensures review == FellBack(AnswerUnparsed) ==> CanEnd(world, settings, opening, Unparsed)
    ensures review.Raised? ==>
              (review.outcome == Failed || review.outcome == Interrupted) && CanEnd(world, settings, opening, review.outcome)
    ensures review.Investigated? ==>
              CanEnd(world, settings, opening, Finished(review.payload, review.usage, review.model, review.shown))
  {
    hide IsRun, CanEnd;
    if !hasNavigator {
      return FellBack(NoTools);
    }
    var outcome, _ := Investigate(world, settings, opening);
    match outcome {
      case Finished(payload, usage, model, shown) => review := Investigated(payload, usage, model, shown);
      case Overflowed => review := FellBack(WindowTooSmall);
      case Unparsed => review := FellBack(AnswerUnparsed);
      case _ => review := Raised(outcome);
    }
  }
}
