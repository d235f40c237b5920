/**
 What a run of the investigating reviewer says to the model, message by message,
 read off its replies alone: the answer to every call, the remarks behind a reply,
 and when the asking stops.
 */
module ReviewerTranscript {
  import opened Prelude
  import opened Dialogue
  import opened Reviewer
  import opened ReviewerRuns

  // ---- which calls are the same ------------------------------------------------------------

  /** The arguments as they are compared: as canonical JSON, or as they stand where they are none. */
  function ArgumentsOf(world: World, call: ToolCall): string {
    match world.canonicalJson(if call.arguments == "" then "{}" else call.arguments)
    case Some(canonical) => canonical
    case None => call.arguments
  }

  predicate SameCall(world: World, a: ToolCall, b: ToolCall) {
    a.name + ":" + ArgumentsOf(world, a) == b.name + ":" + ArgumentsOf(world, b)
  }

  lemma SignaturesOfSameCalls(world: World, a: ToolCall, b: ToolCall)
    ensures Signature(world, a) == Signature(world, b) <==> SameCall(world, a, b)
  {
  }

  lemma FirstColon(name: string, rest: string)
    requires ':' !in name
    ensures var text := name + ":" + rest;
      text[|name|] == ':' && (forall i :: 0 <= i < |name| ==> text[i] != ':')
      && text[..|name|] == name && text[|name| + 1..] == rest
  {
    var text := name + ":" + rest;
    forall i | 0 <= i < |name|
      ensures text[i] != ':'
    {
      assert text[i] == name[i] && name[i] in name;
    }
  }

  lemma NameAndRest(a: string, x: string, b: string, y: string)
    requires ':' !in a && ':' !in b && a + ":" + x == b + ":" + y
    ensures a == b && x == y
  {
    FirstColon(a, x);
    FirstColon(b, y);
    assert |a| == |b|;
  }

  /** Calls of tools whose names hold no colon are the same exactly when name and arguments are. */
  lemma SameCallsAgree(world: World, a: ToolCall, b: ToolCall)
    ensures a.name == b.name && ArgumentsOf(world, a) == ArgumentsOf(world, b) ==> SameCall(world, a, b)
    ensures ':' !in a.name && ':' !in b.name ==>
              (SameCall(world, a, b) <==> a.name == b.name && ArgumentsOf(world, a) == ArgumentsOf(world, b))
  {
    hide ArgumentsOf;
    if ':' !in a.name && ':' !in b.name && SameCall(world, a, b) {
      NameAndRest(a.name, ArgumentsOf(world, a), b.name, ArgumentsOf(world, b));
    }
  }

  /** The first of these calls that is the same as this one; their number if none is. */
  function FirstLike(world: World, calls: seq<ToolCall>, call: ToolCall, from: nat): (p: nat)
    requires from <= |calls|
    ensures from <= p <= |calls| && (p < |calls| ==> SameCall(world, calls[p], call))
    ensures forall i :: from <= i < p ==> !SameCall(world, calls[i], call)
    decreases |calls| - from
  {
    if from == |calls| || SameCall(world, calls[from], call) then from else FirstLike(world, calls, call, from + 1)
  }

  /** No call before this one is the same. */
  predicate IsNew(world: World, calls: seq<ToolCall>, p: nat) {
    p < |calls| && forall i :: 0 <= i < p ==> !SameCall(world, calls[i], calls[p])
  }

  function NewCalls(world: World, calls: seq<ToolCall>): set<nat> {
    set p | 0 <= p < |calls| && IsNew(world, calls, p)
  }

  // ---- what is answered ---------------------------------------------------------------------

  /** The steps of the calls of replies that were not cut: every reply is a step, and every such call. */
  function StepsOf(replies: seq<Response>): (steps: seq<nat>)
    ensures |steps| == |Requested(replies)|
  {
    if replies == [] then []
    else
      StepsOf(Init(replies))
      + if Last(replies).isTruncated then [] else StepsFrom(Started(replies), |Last(replies).toolCalls|)
  }

  /** The steps taken when the calls of the last reply begin. */
  function Started(replies: seq<Response>): nat
    requires replies != []
  {
    |replies| + |Requested(Init(replies))|
  }

  function StepsFrom(started: nat, n: nat): (steps: seq<nat>)
    ensures |steps| == n
  {
    seq(n, i requires 0 <= i => started + i + 1)
  }

  /** What a call is told when these came before it, at these steps. */
  function AnswerBehind(world: World, earlier: seq<ToolCall>, steps: seq<nat>, call: ToolCall): string
    requires |earlier| == |steps|
  {
    var first := FirstLike(world, earlier, call, 0);
    if first < |earlier| then world.repeatedCallMessage(steps[first])
    else world.execute(|NewCalls(world, earlier)|).text
  }

  /**
   What the j-th call of the last reply is told: that it was not executed if the reply
   was cut; the result of its execution if it is the first of its name and arguments;
   and otherwise at which step the first one was executed.
   */
  function AnswerTo(world: World, replies: seq<Response>, j: nat): string
    requires replies != [] && j < |Last(replies).toolCalls|
  {
    if Last(replies).isTruncated then CALL_REFUSED
    else
      AnswerBehind(
        world, Requested(Init(replies)) + Last(replies).toolCalls[..j],
        StepsOf(Init(replies)) + StepsFrom(Started(replies), j), Last(replies).toolCalls[j])
  }

  function AnswersOf(world: World, replies: seq<Response>, n: nat): (answers: seq<Message>)
    requires replies != [] && n <= |Last(replies).toolCalls|
    ensures |answers| == n
  {
    seq(n, j requires 0 <= j < n => Tool(AnswerTo(world, replies, j), Last(replies).toolCalls[j].id))
  }

  /** What stands behind a reply and its answers before the model is asked again. */
  function Remark(response: Response): seq<Message> {
    if response.toolCalls == [] then [User(UNPROVEN_CLAIM_MESSAGE)]
    else if response.isTruncated then [User(TRUNCATED_CALLS_MESSAGE)]
    else []
  }

  /** Everything said since the opening once these replies were taken in. */
  function Told(world: World, replies: seq<Response>): seq<Message> {
    if replies == [] then []
    else
      Told(world, Init(replies))
      + [Assistant(Last(replies).content, Last(replies).toolCalls)]
      + AnswersOf(world, replies, |Last(replies).toolCalls|)
      + Remark(Last(replies))
  }

  // ---- when the asking stops ------------------------------------------------------------------

  /** Among the findings of this payload is one about code beyond the file. */
  predicate SpeaksOfOtherCode(world: World, payload: Payload) {
    exists finding :: finding in payload.findings && world.mentionsExternalCode(finding.title, finding.body)
  }

  /**
   The last reply is sent back: it answers, but speaks of other code, while no execution
   has shown a fragment and no reply before it came without calls.
   */
  predicate IsSentBack(world: World, replies: seq<Response>)
    requires replies != []
  {
    var response := Last(replies);
    && response.toolCalls == [] && !world.isBlank(response.content)
    && world.parse(response.content).Some? && SpeaksOfOtherCode(world, world.parse(response.content).value)
    && (forall i :: 0 <= i < |replies| - 1 ==> replies[i].toolCalls != [])
    && forall k :: 0 <= k < |NewCalls(world, Requested(Init(replies)))| ==> world.execute(k).fragments == []
  }

  function CharsInThirds(answers: seq<Message>): nat {
    if answers == [] then 0 else CharsInThirds(Init(answers)) + |Last(answers).content| / 3
  }

  /** The tokens of the last reply, and what its answers are estimated to add. */
  function DialogueTokens(world: World, replies: seq<Response>): int
    requires replies != []
  {
    Last(replies).usage.inputTokens + Last(replies).usage.outputTokens
    + CharsInThirds(AnswersOf(world, replies, |Last(replies).toolCalls|))
  }

  /** The last reply ends the asking, whatever the ceiling. */
  predicate Ended(world: World, settings: Settings, replies: seq<Response>)
    requires replies != []
  {
    var response, total := Last(replies), TotalUsage(replies);
    if response.toolCalls == [] then !IsSentBack(world, replies)
    else
      && !response.isTruncated
      && (|| (settings.tokenBudget > 0 && total.inputTokens + total.outputTokens >= settings.tokenBudget)
          || (&& response.contextWindow > 0 && DialogueTokens(world, replies) > 0
              && 4 * DialogueTokens(world, replies) >= 3 * response.contextWindow))
  }

  /** The model is not asked again: the ceiling is reached, or the last reply ended the asking. */
  predicate IsOver(world: World, settings: Settings, replies: seq<Response>) {
    |replies| >= settings.maxSteps || (replies != [] && Ended(world, settings, replies))
  }

  /** The replies that stand in the transcript: all, but for a last one without calls that is not sent back. */
  function TakenIn(world: World, replies: seq<Response>): seq<Response> {
    if replies != [] && Last(replies).toolCalls == [] && !IsSentBack(world, replies) then Init(replies) else replies
  }

  // ---- what the loop remembers -----------------------------------------------------------------

  /** The loop's memory after these calls, made at these steps. */
  ghost predicate Tracks(world: World, state: State, calls: seq<ToolCall>, steps: seq<nat>) {
    && |calls| == |steps|
    && |state.executed| == |NewCalls(world, calls)|
    && (forall p :: 0 <= p < |calls| ==> Knows(world, state.seenCalls, calls, steps, p))
    && forall signature :: signature in state.seenCalls ==> Known(world, calls, signature)
  }

  /** The call is among the seen ones, and under its own step if it was the first of its kind. */
  predicate Knows(world: World, seen: map<string, nat>, calls: seq<ToolCall>, steps: seq<nat>, p: nat)
    requires p < |calls| == |steps|
  {
    var signature := Signature(world, calls[p]);
    signature in seen && (IsNew(world, calls, p) ==> seen[signature] == steps[p])
  }

  lemma NewAmongMore(world: World, calls: seq<ToolCall>, call: ToolCall, p: nat)
    requires p < |calls|
    ensures IsNew(world, calls + [call], p) <==> IsNew(world, calls, p)
  {
    hide SameCall;
    assert forall i :: 0 <= i < |calls| ==> (calls + [call])[i] == calls[i];
  }

  lemma NewAtTheEnd(world: World, calls: seq<ToolCall>, call: ToolCall)
    ensures IsNew(world, calls + [call], |calls|) <==> FirstLike(world, calls, call, 0) == |calls|
  {
    hide SameCall;
    var more, first := calls + [call], FirstLike(world, calls, call, 0);
    assert more[|calls|] == call;
    forall i | 0 <= i < |calls|
      ensures more[i] == calls[i]
    {
    }
    if first < |calls| {
      assert SameCall(world, more[first], call);
    }
  }

  lemma NewOfOneMore(world: World, calls: seq<ToolCall>, call: ToolCall)
    ensures |NewCalls(world, calls + [call])|
         == |NewCalls(world, calls)| + if FirstLike(world, calls, call, 0) == |calls| then 1 else 0
  {
    var more, isNew := calls + [call], FirstLike(world, calls, call, 0) == |calls|;
    NewAtTheEnd(world, calls, call);
    forall p
      ensures p in NewCalls(world, more) <==> p in NewCalls(world, calls) || (p == |calls| && isNew)
    {
      if 0 <= p < |calls| {
        NewAmongMore(world, calls, call, p);
      }
    }
    assert |calls| !in NewCalls(world, calls);
    hide NewCalls, IsNew, FirstLike;
    OneMore(NewCalls(world, more), NewCalls(world, calls), |calls|, isNew);
  }

  lemma OneMore(more: set<nat>, fewer: set<nat>, p: nat, isOne: bool)
    requires p !in fewer && forall q :: q in more <==> q in fewer || (q == p && isOne)
    ensures |more| == |fewer| + if isOne then 1 else 0
  {
    assert more == fewer + if isOne then {p} else {};
  }

  /** A call is told what its place among the calls says. */
  lemma RunCallAnswersBehind(world: World, state: State, calls: seq<ToolCall>, steps: seq<nat>, call: ToolCall)
    requires Tracks(world, state, calls, steps)
    ensures RunCall(world, state, call).messages
         == state.messages + [Tool(AnswerBehind(world, calls, steps, call), call.id)]
    ensures Signature(world, call) in state.seenCalls <==> FirstLike(world, calls, call, 0) < |calls|
  {
    var first := FirstLike(world, calls, call, 0);
    if Signature(world, call) in state.seenCalls {
      var i :| 0 <= i < |calls| && Signature(world, calls[i]) == Signature(world, call);
      SignaturesOfSameCalls(world, calls[i], call);
    }
    if first < |calls| {
      SignaturesOfSameCalls(world, calls[first], call);
      hide Signature, SameCall;
      FirstIsNew(world, calls, call);
      assert Knows(world, state.seenCalls, calls, steps, first);
    }
  }

  lemma FirstIsNew(world: World, calls: seq<ToolCall>, call: ToolCall)
    requires FirstLike(world, calls, call, 0) < |calls|
    ensures IsNew(world, calls, FirstLike(world, calls, call, 0))
  {
    var first := FirstLike(world, calls, call, 0);
    forall i | 0 <= i < first
      ensures !SameCall(world, calls[i], calls[first])
    {
      assert !SameCall(world, calls[i], call) && SameCall(world, calls[first], call);
    }
  }

  lemma KnowsMore(
    world: World, seen: map<string, nat>, more: map<string, nat>, calls: seq<ToolCall>, steps: seq<nat>,
    call: ToolCall, step: nat, p: nat)
    requires p <= |calls| == |steps|
    requires more == if Signature(world, call) in seen then seen else seen[Signature(world, call) := step]
    requires p < |calls| ==> Knows(world, seen, calls, steps, p)
    requires p == |calls| ==> (IsNew(world, calls + [call], |calls|) <==> Signature(world, call) !in seen)
    ensures Knows(world, more, calls + [call], steps + [step], p)
  {
    if p < |calls| {
      NewAmongMore(world, calls, call, p);
    }
    hide IsNew, Signature;
  }

  lemma RunCallTracks(world: World, state: State, calls: seq<ToolCall>, steps: seq<nat>, call: ToolCall)
    requires Tracks(world, state, calls, steps)
    ensures Tracks(world, RunCall(world, state, call), calls + [call], steps + [state.step + 1])
  {
    RunCallAnswersBehind(world, state, calls, steps, call);
    NewOfOneMore(world, calls, call);
    NewAtTheEnd(world, calls, call);
    SeenAfter(world, state, call);
    var more, after, later := calls + [call], RunCall(world, state, call), steps + [state.step + 1];
    hide RunCall, IsNew, NewCalls, FirstLike, Signature, Known, Knows;
    forall signature {
      KnownAfter(world, calls, call, signature);
    }
    forall p | 0 <= p < |more|
      ensures Knows(world, after.seenCalls, more, later, p)
    {
      KnowsMore(world, state.seenCalls, after.seenCalls, calls, steps, call, state.step + 1, p);
    }
  }

  lemma SeenAfter(world: World, state: State, call: ToolCall)
    ensures var after, signature := RunCall(world, state, call), Signature(world, call);
      && after.step == state.step + 1
      && after.seenCalls == (if signature in state.seenCalls then state.seenCalls
                             else state.seenCalls[signature := state.step + 1])
      && |after.executed| == |state.executed| + if signature in state.seenCalls then 0 else 1
  {
    hide Signature;
  }

  /** The calls of the last reply up to the n-th, and the steps of all calls so far. */
  function CallsUpTo(replies: seq<Response>, n: nat): seq<ToolCall>
    requires replies != [] && n <= |Last(replies).toolCalls|
  {
    Requested(Init(replies)) + Last(replies).toolCalls[..n]
  }

  function StepsUpTo(replies: seq<Response>, n: nat): (steps: seq<nat>)
    requires replies != [] && n <= |Last(replies).toolCalls|
    ensures |steps| == |CallsUpTo(replies, n)|
  {
    StepsOf(Init(replies)) + StepsFrom(Started(replies), n)
  }

  lemma OneCallMore(replies: seq<Response>, n: nat)
    requires replies != [] && n < |Last(replies).toolCalls|
    ensures CallsUpTo(replies, n + 1) == CallsUpTo(replies, n) + [Last(replies).toolCalls[n]]
    ensures StepsUpTo(replies, n + 1) == StepsUpTo(replies, n) + [Started(replies) + n + 1]
  {
  }

  lemma AnswersOfOneMore(world: World, replies: seq<Response>, n: nat)
    requires replies != [] && n < |Last(replies).toolCalls| && !Last(replies).isTruncated
    ensures AnswersOf(world, replies, n + 1)
         == AnswersOf(world, replies, n)
            + [Tool(
                 AnswerBehind(world, CallsUpTo(replies, n), StepsUpTo(replies, n), Last(replies).toolCalls[n]),
                 Last(replies).toolCalls[n].id)]
  {
    hide AnswerBehind, StepsOf, Requested, StepsFrom;
  }

  /** The state after the first `n` calls of the last reply. */
  ghost predicate Ran(world: World, replies: seq<Response>, before: seq<Message>, n: nat, state: State)
    requires replies != [] && n <= |Last(replies).toolCalls|
  {
    && state.messages == before + AnswersOf(world, replies, n)
    && state.step == Started(replies) + n
    && Tracks(world, state, CallsUpTo(replies, n), StepsUpTo(replies, n))
  }

  lemma RanOneMore(world: World, replies: seq<Response>, before: seq<Message>, n: nat, state: State)
    requires replies != [] && n < |Last(replies).toolCalls| && !Last(replies).isTruncated
    requires Ran(world, replies, before, n, state)
    ensures Ran(world, replies, before, n + 1, RunCall(world, state, Last(replies).toolCalls[n]))
  {
    var call := Last(replies).toolCalls[n];
    var calls, steps := CallsUpTo(replies, n), StepsUpTo(replies, n);
    hide *;
    RanMeans(world, replies, before, n, state);
    SeenAfter(world, state, call);
    RunCallTracks(world, state, calls, steps, call);
    RunCallAnswersBehind(world, state, calls, steps, call);
    OneCallMore(replies, n);
    AnswersOfOneMore(world, replies, n);
    Associates(before, AnswersOf(world, replies, n), [Tool(AnswerBehind(world, calls, steps, call), call.id)]);
    RanMeans(world, replies, before, n + 1, RunCall(world, state, call));
  }

  lemma RanMeans(world: World, replies: seq<Response>, before: seq<Message>, n: nat, state: State)
    requires replies != [] && n <= |Last(replies).toolCalls|
    ensures Ran(world, replies, before, n, state) <==>
            && state.messages == before + AnswersOf(world, replies, n)
            && state.step == Started(replies) + n
            && |CallsUpTo(replies, n)| == |StepsUpTo(replies, n)|
            && Tracks(world, state, CallsUpTo(replies, n), StepsUpTo(replies, n))
  {
    hide Tracks, CallsUpTo, StepsUpTo, Started, AnswersOf;
  }

  lemma {:induction false} RanAll(
    world: World, replies: seq<Response>, before: seq<Message>, n: nat, state: State)
    requires replies != [] && n <= |Last(replies).toolCalls| && !Last(replies).isTruncated
    requires Ran(world, replies, before, 0, state)
    ensures Ran(world, replies, before, n, RunCalls(world, state, Last(replies).toolCalls[..n]))
  {
    var calls := Last(replies).toolCalls;
    if n > 0 {
      assert Init(calls[..n]) == calls[..n - 1] && Last(calls[..n]) == calls[n - 1];
      hide Ran, RunCall;
      RanAll(world, replies, before, n - 1, state);
      RanOneMore(world, replies, before, n - 1, RunCalls(world, state, calls[..n - 1]));
    } else {
      assert calls[..0] == [];
      hide Ran;
    }
  }

  // ---- one turn ---------------------------------------------------------------------------------

  predicate SomeWithoutCalls(replies: seq<Response>) {
    exists i :: 0 <= i < |replies| && replies[i].toolCalls == []
  }

  /** Between two requests the loop has said what is told of its replies, and remembers their calls. */
  ghost predicate Stands(world: World, opening: seq<Message>, replies: seq<Response>, state: State) {
    && state.messages == opening + Told(world, replies)
    && state.step == |replies| + |Requested(replies)|
    && Tracks(world, state, Requested(replies), StepsOf(replies))
    && (state.nudged <==> SomeWithoutCalls(replies))
    && state.shown == ShownBy(world, |state.executed|)
  }

  lemma {:induction false} NothingShownBy(world: World, n: nat)
    ensures ShownBy(world, n) == [] <==> forall k :: 0 <= k < n ==> world.execute(k).fragments == []
  {
    if n > 0 {
      NothingShownBy(world, n - 1);
    }
  }

  lemma WithoutCallsUnfolds(replies: seq<Response>)
    requires replies != []
    ensures SomeWithoutCalls(replies) <==> SomeWithoutCalls(Init(replies)) || Last(replies).toolCalls == []
    ensures !SomeWithoutCalls(Init(replies)) <==> forall i :: 0 <= i < |replies| - 1 ==> replies[i].toolCalls != []
  {
    if SomeWithoutCalls(Init(replies)) {
      var i :| 0 <= i < |replies| - 1 && Init(replies)[i].toolCalls == [];
      assert replies[i].toolCalls == [];
    }
    assert forall i :: 0 <= i < |replies| - 1 ==> Init(replies)[i] == replies[i];
    assert replies[|replies| - 1] == Last(replies);
  }

  lemma ToldUnfolds(world: World, replies: seq<Response>)
    requires replies != []
    ensures var response := Last(replies);
      && Told(world, replies)
      == Told(world, Init(replies)) + [Reply(response)] + AnswersOf(world, replies, |response.toolCalls|) + Remark(response)
      && (response.toolCalls == [] ==> AnswersOf(world, replies, 0) == [])
      && (response.isTruncated ==> AnswersOf(world, replies, |response.toolCalls|) == RefusedCalls(response.toolCalls))
  {
    hide AnswerBehind;
  }

  lemma SameTracks(world: World, state: State, other: State, calls: seq<ToolCall>, steps: seq<nat>)
    requires Tracks(world, state, calls, steps)
    requires other.executed == state.executed && other.seenCalls == state.seenCalls
    ensures Tracks(world, other, calls, steps)
  {
  }

  /** The calls and steps behind a reply that adds none. */
  lemma NoCallsMore(replies: seq<Response>)
    requires replies != [] && (Last(replies).isTruncated || Last(replies).toolCalls == [])
    ensures Requested(replies) == Requested(Init(replies)) && StepsOf(replies) == StepsOf(Init(replies))
  {
    assert Requested(Init(replies)) + [] == Requested(Init(replies));
    assert StepsOf(Init(replies)) + [] == StepsOf(Init(replies));
  }

  lemma RefusalStands(world: World, opening: seq<Message>, replies: seq<Response>, state: State)
    requires replies != [] && Stands(world, opening, Init(replies), state)
    requires Last(replies).toolCalls != [] && Last(replies).isTruncated
    ensures Stands(world, opening, replies, RefuseTurn(Counted(state, Last(replies)), Last(replies)))
  {
    var response := Last(replies);
    var after := RefuseTurn(Counted(state, response), response);
    NoCallsMore(replies);
    ToldUnfolds(world, replies);
    WithoutCallsUnfolds(replies);
    SameTracks(world, state, after, Requested(replies), StepsOf(replies));
    hide Tracks, Told, Requested, StepsOf, AnswersOf, SomeWithoutCalls, ShownBy;
    ToldIsSaid(
      opening, Told(world, Init(replies)), [Reply(response)], AnswersOf(world, replies, |response.toolCalls|),
      [User(TRUNCATED_CALLS_MESSAGE)]);
  }

  lemma ToldIsSaid(opening: seq<Message>, told: seq<Message>, a: seq<Message>, b: seq<Message>, c: seq<Message>)
    ensures opening + (told + a + b + c) == opening + told + a + b + c
  {
  }

  lemma NudgeStands(world: World, opening: seq<Message>, replies: seq<Response>, state: State)
    requires replies != [] && Stands(world, opening, Init(replies), state)
    requires Last(replies).toolCalls == []
    ensures Stands(world, opening, replies, NudgeTurn(Counted(state, Last(replies)), Last(replies)))
  {
    var response := Last(replies);
    var after := NudgeTurn(Counted(state, response), response);
    NoCallsMore(replies);
    ToldUnfolds(world, replies);
    WithoutCallsUnfolds(replies);
    SameTracks(world, state, after, Requested(replies), StepsOf(replies));
    hide Tracks, Told, Requested, StepsOf, AnswersOf, SomeWithoutCalls, ShownBy;
    ToldIsSaid(opening, Told(world, Init(replies)), [Reply(response)], [], [User(UNPROVEN_CLAIM_MESSAGE)]);
    assert opening + Told(world, Init(replies)) + [Reply(response)] + [] == state.messages + [Reply(response)];
  }

  lemma CallsOfReply(replies: seq<Response>)
    requires replies != [] && !Last(replies).isTruncated
    ensures CallsUpTo(replies, 0) == Requested(Init(replies)) && StepsUpTo(replies, 0) == StepsOf(Init(replies))
    ensures CallsUpTo(replies, |Last(replies).toolCalls|) == Requested(replies)
    ensures StepsUpTo(replies, |Last(replies).toolCalls|) == StepsOf(replies)
    ensures Started(replies) + |Last(replies).toolCalls| == |replies| + |Requested(replies)|
  {
    var calls := Last(replies).toolCalls;
    assert calls[..|calls|] == calls && calls[..0] == [];
  }

  lemma ToolsStand(world: World, opening: seq<Message>, replies: seq<Response>, state: State)
    requires replies != [] && Stands(world, opening, Init(replies), state)
    requires Last(replies).toolCalls != [] && !Last(replies).isTruncated
    ensures var after := ToolsTurn(world, Counted(state, Last(replies)), Last(replies));
      && after.messages == state.messages + [Reply(Last(replies))]
                           + AnswersOf(world, replies, |Last(replies).toolCalls|)
      && after.messages == opening + Told(world, replies)
      && after.step == |replies| + |Requested(replies)|
      && Tracks(world, after, Requested(replies), StepsOf(replies))
      && (after.nudged <==> SomeWithoutCalls(replies))
  {
    var response := Last(replies);
    var asked := Counted(state, response).(messages := state.messages + [Reply(response)]);
    var after := ToolsTurn(world, Counted(state, response), response);
    SameTracks(world, state, asked, Requested(Init(replies)), StepsOf(Init(replies)));
    CallsOfReply(replies);
    ToldUnfolds(world, replies);
    WithoutCallsUnfolds(replies);
    RunCallsAnswers(world, asked, response.toolCalls);
    hide Tracks, Told, Requested, StepsOf, AnswersOf, SomeWithoutCalls, ShownBy, RunCalls, CallsUpTo, StepsUpTo;
    NoAnswersYet(world, replies);
    assert asked.messages == asked.messages + AnswersOf(world, replies, 0);
    assert Ran(world, replies, asked.messages, 0, asked);
    RanAll(world, replies, asked.messages, |response.toolCalls|, asked);
    assert response.toolCalls[..|response.toolCalls|] == response.toolCalls;
    ToldIsSaid(
      opening, Told(world, Init(replies)), [Reply(response)], AnswersOf(world, replies, |response.toolCalls|), []);
    assert after.messages + [] == after.messages;
  }

  lemma NoAnswersYet(world: World, replies: seq<Response>)
    requires replies != []
    ensures AnswersOf(world, replies, 0) == []
  {
  }

  lemma {:induction false} ThirdsAreTokens(answers: seq<Message>)
    ensures AnswerTokens(answers) == CharsInThirds(answers)
  {
    if answers != [] {
      ThirdsAreTokens(Init(answers));
    }
  }

  lemma SentBackByTheGuard(world: World, opening: seq<Message>, replies: seq<Response>, state: State)
    requires replies != [] && Stands(world, opening, Init(replies), state)
    ensures ClaimsTooMuch(world, state, Last(replies)) <==> IsSentBack(world, replies)
  {
    var response := Last(replies);
    NothingShownBy(world, |state.executed|);
    WithoutCallsUnfolds(replies);
    if response.toolCalls == [] && AnswerOf(world, response).Some? {
      ClaimsAreFindings(world, AnswerOf(world, response).value);
    }
    hide ShownBy, SomeWithoutCalls, Told, Requested, StepsOf, NewCalls, ClaimsUncheckedCode, SpeaksOfOtherCode;
  }

  lemma ClaimsAreFindings(world: World, payload: Payload)
    ensures ClaimsUncheckedCode(world, payload) <==> SpeaksOfOtherCode(world, payload)
  {
    if SpeaksOfOtherCode(world, payload) {
      var finding :| finding in payload.findings && world.mentionsExternalCode(finding.title, finding.body);
      var i :| 0 <= i < |payload.findings| && payload.findings[i] == finding;
    }
  }

  /** The last reply is the answer, and this is what it says. */
  predicate AnswersWith(world: World, replies: seq<Response>, payload: Payload) {
    && replies != [] && Last(replies).toolCalls == [] && !world.isBlank(Last(replies).content)
    && world.parse(Last(replies).content) == Some(payload) && !IsSentBack(world, replies)
  }

  lemma TurnWithoutCalls(world: World, settings: Settings, opening: seq<Message>, replies: seq<Response>, state: State)
    requires replies != [] && Stands(world, opening, Init(replies), state) && Last(replies).toolCalls == []
    ensures var turn := TakeTurn(world, settings, state, Last(replies));
      && (turn.Continue? <==> !Ended(world, settings, replies))
      && (turn.Continue? ==> Stands(world, opening, replies, turn.state))
      && (!turn.Continue? ==> turn.state.messages == state.messages)
      && (forall payload :: turn == Answer(turn.state, payload) <==> AnswersWith(world, replies, payload))
  {
    SentBackByTheGuard(world, opening, replies, state);
    NudgeStands(world, opening, replies, state);
    hide Stands, ClaimsUncheckedCode, SpeaksOfOtherCode, NudgeTurn, IsSentBack, RunCalls;
  }

  /** What a turn with calls leaves behind, and whether the loop goes on. */
  ghost predicate WentOn(
    world: World, settings: Settings, opening: seq<Message>, replies: seq<Response>, turn: Turn)
    requires replies != []
  {
    && !turn.Answer? && (turn.Continue? <==> !Ended(world, settings, replies))
    && turn.state.messages == opening + Told(world, replies)
    && turn.state.step == |replies| + |Requested(replies)|
    && Tracks(world, turn.state, Requested(replies), StepsOf(replies))
    && (turn.state.nudged <==> SomeWithoutCalls(replies))
  }

  lemma CutTurn(world: World, settings: Settings, opening: seq<Message>, replies: seq<Response>, state: State)
    requires replies != [] && Stands(world, opening, Init(replies), state)
    requires Last(replies).toolCalls != [] && Last(replies).isTruncated
    ensures WentOn(world, settings, opening, replies, TakeTurn(world, settings, state, Last(replies)))
  {
    RefusalStands(world, opening, replies, state);
    hide Told, Requested, StepsOf, Tracks, SomeWithoutCalls, ShownBy, RunCalls, RefuseTurn;
  }

  lemma MustCloseMeans(
    world: World, settings: Settings, replies: seq<Response>, before: State, after: State)
    requires replies != [] && Last(replies).toolCalls != [] && !Last(replies).isTruncated
    requires after.messages
          == before.messages + [Reply(Last(replies))] + AnswersOf(world, replies, |Last(replies).toolCalls|)
    requires after.usage == TotalUsage(replies)
    ensures MustClose(settings, before, after, Last(replies)) <==> Ended(world, settings, replies)
  {
    var answers := AnswersOf(world, replies, |Last(replies).toolCalls|);
    hide AnswersOf, TotalUsage;
    assert after.messages[|before.messages| + 1..] == answers;
    ThirdsAreTokens(answers);
    hide AnswerTokens, CharsInThirds;
  }

  lemma ToolsTurnEnds(world: World, settings: Settings, state: State, response: Response)
    requires response.toolCalls != [] && !response.isTruncated
    ensures var after, turn := ToolsTurn(world, Counted(state, response), response),
                TakeTurn(world, settings, state, response);
      && after.usage == Add(state.usage, response.usage) && |state.messages| < |after.messages|
      && turn == if MustClose(settings, state, after, response) then Close(after) else Continue(after)
  {
    RunCallsAnswers(
      world, Counted(state, response).(messages := state.messages + [Reply(response)]), response.toolCalls);
    hide RunCalls, MustClose;
  }

  lemma ToolTurn(world: World, settings: Settings, opening: seq<Message>, replies: seq<Response>, state: State)
    requires replies != [] && Stands(world, opening, Init(replies), state)
    requires Last(replies).toolCalls != [] && !Last(replies).isTruncated
    requires Add(state.usage, Last(replies).usage) == TotalUsage(replies)
    ensures WentOn(world, settings, opening, replies, TakeTurn(world, settings, state, Last(replies)))
  {
    var response := Last(replies);
    var after := ToolsTurn(world, Counted(state, response), response);
    ToolsStand(world, opening, replies, state);
    ToolsTurnEnds(world, settings, state, response);
    hide *;
    MustCloseMeans(world, settings, replies, state, after);
    WentOnMeans(world, settings, opening, replies, TakeTurn(world, settings, state, response), after);
  }

  lemma WentOnMeans(
    world: World, settings: Settings, opening: seq<Message>, replies: seq<Response>, turn: Turn, after: State)
    requires replies != []
    requires turn == if Ended(world, settings, replies) then Close(after) else Continue(after)
    requires after.messages == opening + Told(world, replies) && after.step == |replies| + |Requested(replies)|
    requires Tracks(world, after, Requested(replies), StepsOf(replies)) && (after.nudged <==> SomeWithoutCalls(replies))
    ensures WentOn(world, settings, opening, replies, turn)
  {
    hide Ended, Told, Requested, Tracks, StepsOf, SomeWithoutCalls;
  }

  // ---- whole runs ---------------------------------------------------------------------------------

  lemma LoopOfInit(world: World, settings: Settings, opening: seq<Message>, replies: seq<Response>)
    requires IsLoop(world, settings, opening, replies) && replies != []
    ensures IsLoop(world, settings, opening, Init(replies)) && |Init(replies)| < |replies|
    ensures Init(replies) != [] ==> LastTurn(world, settings, opening, Init(replies)).Continue?
  {
    var front := Init(replies);
    hide LastTurn;
    forall n | 0 <= n < |front|
      ensures !LoopIsOver(world, settings, opening, front[..n])
      ensures !world.stopRequested(n) && world.reply(n) == Replied(front[n])
    {
      assert front[..n] == replies[..n];
    }
    assert !LoopIsOver(world, settings, opening, replies[..|replies| - 1]);
  }

  lemma StartStands(world: World, settings: Settings, opening: seq<Message>)
    ensures Stands(world, opening, [], After(world, settings, opening, []))
  {
    assert Told(world, []) == [] && opening + [] == opening && Requested([]) == [];
    assert NewCalls(world, []) == {};
  }

  lemma StandsAfterCalls(
    world: World, settings: Settings, opening: seq<Message>, replies: seq<Response>, state: State)
    requires replies != [] && Last(replies).toolCalls != [] && Stands(world, opening, Init(replies), state)
    requires state == After(world, settings, opening, Init(replies))
    ensures WentOn(world, settings, opening, replies, LastTurn(world, settings, opening, replies))
    ensures Stands(world, opening, replies, After(world, settings, opening, replies))
  {
    AfterIsLastTurn(world, settings, opening, replies);
    assert LastTurn(world, settings, opening, replies) == TakeTurn(world, settings, state, Last(replies));
    UsageIsTotal(world, settings, opening, Init(replies));
    assert Add(state.usage, Last(replies).usage) == TotalUsage(replies);
    StateRemembers(world, settings, opening, replies);
    ShownIsRemembered(world, After(world, settings, opening, replies), Requested(replies));
    hide *;
    if Last(replies).isTruncated {
      CutTurn(world, settings, opening, replies, state);
    } else {
      ToolTurn(world, settings, opening, replies, state);
    }
    StandsMeans(world, settings, opening, replies, LastTurn(world, settings, opening, replies));
  }

  lemma ShownIsRemembered(world: World, state: State, calls: seq<ToolCall>)
    requires Remembers(world, state, calls)
    ensures state.shown == ShownBy(world, |state.executed|)
  {
  }

  lemma StandsMeans(world: World, settings: Settings, opening: seq<Message>, replies: seq<Response>, turn: Turn)
    requires replies != [] && WentOn(world, settings, opening, replies, turn)
    requires turn.state.shown == ShownBy(world, |turn.state.executed|)
    ensures Stands(world, opening, replies, turn.state)
  {
    hide Ended, Told, Requested, Tracks, StepsOf, SomeWithoutCalls;
  }

  lemma {:induction false} LoopStands(
    world: World, settings: Settings, opening: seq<Message>, replies: seq<Response>)
    requires IsLoop(world, settings, opening, replies)
    ensures replies == [] || Last(replies).toolCalls != [] || LastTurn(world, settings, opening, replies).Continue? ==>
              Stands(world, opening, replies, After(world, settings, opening, replies))
    decreases |replies|
  {
    if replies == [] {
      StartStands(world, settings, opening);
    } else {
      LoopOfInit(world, settings, opening, replies);
      AfterIsLastTurn(world, settings, opening, replies);
      var before := After(world, settings, opening, Init(replies));
      assert LastTurn(world, settings, opening, replies) == TakeTurn(world, settings, before, Last(replies));
      hide *;
      LoopStands(world, settings, opening, Init(replies));
      if Last(replies).toolCalls == [] {
        TurnWithoutCalls(world, settings, opening, replies, before);
      } else {
        StandsAfterCalls(world, settings, opening, replies, before);
      }
    }
  }

  /** The last turn of a loop: whether it goes on, what it answers, and what has been said by then. */
  lemma LastTurnOfLoop(world: World, settings: Settings, opening: seq<Message>, replies: seq<Response>)
    requires IsLoop(world, settings, opening, replies) && replies != []
    ensures var turn := LastTurn(world, settings, opening, replies);
      && (turn.Continue? <==> !Ended(world, settings, replies))
      && (forall payload :: turn == Answer(turn.state, payload) <==> AnswersWith(world, replies, payload))
      && After(world, settings, opening, replies).messages == opening + Told(world, TakenIn(world, replies))
  {
    LoopOfInit(world, settings, opening, replies);
    AfterIsLastTurn(world, settings, opening, replies);
    var before := After(world, settings, opening, Init(replies));
    assert LastTurn(world, settings, opening, replies) == TakeTurn(world, settings, before, Last(replies));
    hide *;
    LoopStands(world, settings, opening, Init(replies));
    EndingReply(world, settings, replies);
    StandsSays(world, opening, Init(replies), before);
    if Last(replies).toolCalls == [] {
      TurnWithoutCalls(world, settings, opening, replies, before);
      LoopStands(world, settings, opening, replies);
      if LastTurn(world, settings, opening, replies).Continue? {
        StandsSays(world, opening, replies, After(world, settings, opening, replies));
      }
    } else {
      StandsAfterCalls(world, settings, opening, replies, before);
      WentOnSays(world, settings, opening, replies, LastTurn(world, settings, opening, replies));
    }
  }

  lemma EndingReply(world: World, settings: Settings, replies: seq<Response>)
    requires replies != []
    ensures TakenIn(world, replies)
         == if Last(replies).toolCalls == [] && Ended(world, settings, replies) then Init(replies) else replies
    ensures Last(replies).toolCalls != [] ==> forall payload :: !AnswersWith(world, replies, payload)
  {
    hide IsSentBack, TotalUsage, DialogueTokens;
  }

  lemma StandsSays(world: World, opening: seq<Message>, replies: seq<Response>, state: State)
    requires Stands(world, opening, replies, state)
    ensures state.messages == opening + Told(world, replies)
  {
  }

  lemma WentOnSays(world: World, settings: Settings, opening: seq<Message>, replies: seq<Response>, turn: Turn)
    requires replies != [] && WentOn(world, settings, opening, replies, turn)
    ensures !turn.Answer? && (turn.Continue? <==> !Ended(world, settings, replies))
    ensures turn.state.messages == opening + Told(world, replies)
  {
    hide Ended, Told, Requested, Tracks, StepsOf, SomeWithoutCalls;
  }

  lemma LoopIsOverWhen(world: World, settings: Settings, opening: seq<Message>, replies: seq<Response>)
    requires IsLoop(world, settings, opening, replies)
    ensures LoopIsOver(world, settings, opening, replies) <==> IsOver(world, settings, replies)
  {
    if replies != [] {
      LastTurnOfLoop(world, settings, opening, replies);
    }
    hide Ended, LastTurn, Told, AnswersWith, IsLoop;
  }

  /** What has been said behind the opening when these replies are in. */
  lemma SaidSoFar(world: World, settings: Settings, opening: seq<Message>, replies: seq<Response>)
    requires IsLoop(world, settings, opening, replies)
    ensures After(world, settings, opening, replies).messages == opening + Told(world, TakenIn(world, replies))
    ensures !IsOver(world, settings, replies) ==> TakenIn(world, replies) == replies
  {
    if replies == [] {
      assert Told(world, []) == [] && opening + [] == opening;
    } else {
      LastTurnOfLoop(world, settings, opening, replies);
      EndingReply(world, settings, replies);
      hide After, Told, TakenIn, Ended, AnswersWith;
    }
  }

  lemma {:induction false} LoopOfPrefix(
    world: World, settings: Settings, opening: seq<Message>, replies: seq<Response>, n: nat)
    requires IsLoop(world, settings, opening, replies) && n <= |replies|
    ensures IsLoop(world, settings, opening, replies[..n])
    ensures n < |replies| ==> !LoopIsOver(world, settings, opening, replies[..n])
    decreases |replies|
  {
    if n == |replies| {
      assert replies[..n] == replies;
    } else {
      LoopOfInit(world, settings, opening, replies);
      LoopOfPrefix(world, settings, opening, Init(replies), n);
      assert Init(replies)[..n] == replies[..n];
    }
  }

  /**
   Every request of a run, message by message: the opening; then for each earlier reply
   the reply itself, an answer to each of its calls, and the remark that made the model
   go on; and when the asking is over, the closing question, repeated once behind the
   reply to it that did not parse.
   */
  lemma WhatTheModelIsTold(
    world: World, settings: Settings, opening: seq<Message>, log: Log, outcome: Outcome, n: nat)
    requires IsRun(world, settings, opening, log, outcome) && n < |log.requests|
    ensures n <= |log.replies| + 1
    ensures n < |log.replies| ==> log.requests[n] == opening + Told(world, log.replies[..n])
    ensures n == |log.replies| ==>
              log.requests[n] == opening + Told(world, TakenIn(world, log.replies))
                                 + if IsOver(world, settings, log.replies) then [User(FINAL_INSTRUCTION)] else []
    ensures n == |log.replies| + 1 ==>
              && log.closing != [] && IsOver(world, settings, log.replies)
              && var unread := log.closing[0];
              log.requests[n] == log.requests[n - 1] + [Assistant(unread.content, unread.toolCalls)]
                                 + [User(if unread.isTruncated then TRUNCATED_ANSWER_MESSAGE else NOT_JSON_MESSAGE)]
  {
    AtMostTwoClosingRequests(world, settings, opening, log, outcome);
    assert log.requests[n] == Request(world, settings, opening, log, n);
    LoopIsOverWhen(world, settings, opening, log.replies);
    SaidSoFar(world, settings, opening, log.replies);
    if n < |log.replies| {
      LoopOfPrefix(world, settings, opening, log.replies, n);
      LoopIsOverWhen(world, settings, opening, log.replies[..n]);
      SaidSoFar(world, settings, opening, log.replies[..n]);
    } else if n == |log.replies| + 1 {
      assert log.requests[n - 1] == Request(world, settings, opening, log, n - 1);
    }
    hide After, Told, TakenIn, IsOver, LoopIsOver, IsLoop, Ends;
  }

  /**
   Why a run ends as it does. It was asked on while neither the ceiling nor a reply ended
   the asking. It finishes with what the last reply answers or, when the asking ended
   without an answer, with what the first closing reply that parses says; with nothing
   if two do not. A stop is heeded before a request of the loop only, and a refusal of
   any request ends the run.
   */
  lemma HowARunEnds(world: World, settings: Settings, opening: seq<Message>, log: Log, outcome: Outcome)
    requires IsRun(world, settings, opening, log, outcome)
    ensures forall k :: 0 <= k < |log.replies| ==> !IsOver(world, settings, log.replies[..k])
    ensures log.closing != [] ==>
              && IsOver(world, settings, log.replies)
              && forall payload :: !AnswersWith(world, log.replies, payload)
    ensures outcome.Finished? && log.closing == [] ==> AnswersWith(world, log.replies, outcome.payload)
    ensures outcome.Finished? && log.closing != [] ==>
              && world.parse(Last(log.closing).content) == Some(outcome.payload)
              && (|log.closing| == 1 || (|log.closing| == 2 && world.parse(log.closing[0].content).None?))
    ensures outcome.Finished? ==>
              outcome.model == if log.closing != [] && Last(log.closing).model != "" then Last(log.closing).model
                               else if log.replies == [] then "" else Last(log.replies).model
    ensures outcome == Unparsed ==>
              |log.closing| == 2 && forall k :: 0 <= k < 2 ==> world.parse(log.closing[k].content).None?
    ensures outcome == Interrupted ==> log.closing == [] && !IsOver(world, settings, log.replies)
    ensures outcome == Interrupted ==> |log.requests| == |log.replies| && world.stopRequested(|log.replies|)
    ensures outcome == Overflowed || outcome == Failed ==>
              world.reply(|log.requests| - 1)
              == Refused(if outcome == Overflowed then ContextOverflow else OtherFailure)
  {
    LoopIsOverWhen(world, settings, opening, log.replies);
    if log.replies != [] {
      LastTurnOfLoop(world, settings, opening, log.replies);
    }
    forall k | 0 <= k < |log.replies|
      ensures !IsOver(world, settings, log.replies[..k])
    {
      LoopOfPrefix(world, settings, opening, log.replies, k);
      LoopIsOverWhen(world, settings, opening, log.replies[..k]);
    }
    NothingAnswers(world);
    hide After, LastTurn, Told, IsOver, Ended, LoopIsOver, IsLoop, SentAll, TotalUsage, AnswersWith;
  }

  lemma NothingAnswers(world: World)
    ensures forall payload :: !AnswersWith(world, [], payload)
  {
  }
}
