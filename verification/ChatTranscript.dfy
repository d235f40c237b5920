/**
 What the chat agent sends and shows, read off the streams of the model alone: the
 opening of a dialogue, every request after it, every event, and where it ends.
 */
module ChatTranscript {
  import opened Prelude
  import opened Dialogue
  import opened StreamCollector
  import opened Failover
  import opened ChatAgent
  import opened ChatAgentRuns
  import FailoverRuns

  // ---- the opening --------------------------------------------------------------------------

  predicate IsSpoken(world: World, message: ChatMessage) {
    !message.role.FromTool? && !world.isBlank(message.content)
  }

  /** These are all places of the history where something was said, in order. */
  ghost predicate AreSpoken(world: World, history: seq<ChatMessage>, places: seq<nat>) {
    && IsIncreasing(places)
    && forall i :: i in places <==> 0 <= i < |history| && IsSpoken(world, history[i])
  }

  /** How many of so many messages are left out: all but the limit, or the negative limit from the front. */
  function LeftOut(count: nat, limit: int): (n: nat)
    ensures n <= count
  {
    if limit > 0 then (if count > limit then count - limit else 0)
    else if -limit < count then -limit else count
  }

  function AsMessage(message: ChatMessage): Message {
    match message.role
    case FromUser => User(message.content)
    case _ => Assistant(message.content, [])
  }

  /** The messages open a dialogue with this question behind the history at these places. */
  ghost predicate Opens(world: World, request: ChatRequest, places: seq<nat>, question: string, messages: seq<Message>) {
    var first := if request.document.Some? then 2 else 1;
    && |messages| == first + |places| + 1
    && messages[0] == System(SYSTEM_PROMPT)
    && (request.document.Some? ==> messages[1] == System(world.describe(request.document.value)))
    && (forall k :: 0 <= k < |places| ==>
          places[k] < |request.history| && messages[first + k] == AsMessage(request.history[places[k]]))
    && Last(messages) == User(question)
  }

  /** The messages said at these places, and no others. */
  ghost predicate Lists(world: World, history: seq<ChatMessage>, places: seq<nat>, said: seq<ChatMessage>) {
    && AreSpoken(world, history, places) && |said| == |places|
    && forall k :: 0 <= k < |places| ==> places[k] < |history| && said[k] == history[places[k]]
  }

  lemma ListsMore(world: World, front: seq<ChatMessage>, places: seq<nat>, said: seq<ChatMessage>, last: ChatMessage)
    requires Lists(world, front, places, said)
    ensures if IsSpoken(world, last) then Lists(world, front + [last], places + [|front|], said + [last])
            else Lists(world, front + [last], places, said)
  {
    hide IsSpoken;
    var history := front + [last];
    assert forall i :: 0 <= i < |front| ==> history[i] == front[i];
    PlacesOfOneMore(places, |front|);
    hide IsIncreasing;
  }

  lemma {:induction false} SpokenPlaces(world: World, history: seq<ChatMessage>) returns (places: seq<nat>)
    ensures Lists(world, history, places, Spoken(world, history))
    decreases |history|
  {
    hide *;
    if history == [] {
      places := [];
      NothingSpoken(world);
    } else {
      SpokenUnfolds(world, history);
      var front, last := history[..|history| - 1], history[|history| - 1];
      var earlier := SpokenPlaces(world, front);
      ListsMore(world, front, earlier, Spoken(world, front), last);
      places := if IsSpoken(world, last) then earlier + [|front|] else earlier;
    }
  }

  lemma NothingSpoken(world: World)
    ensures Lists(world, [], [], Spoken(world, []))
  {
  }

  lemma SpokenUnfolds(world: World, history: seq<ChatMessage>)
    requires history != []
    ensures var front, last := history[..|history| - 1], history[|history| - 1];
      && history == front + [last]
      && Spoken(world, history) == if IsSpoken(world, last) then Spoken(world, front) + [last] else Spoken(world, front)
  {
    assert Spoken(world, Init(history)) + [] == Spoken(world, Init(history));
  }

  lemma PlacesOfOneMore(places: seq<nat>, last: nat)
    requires IsIncreasing(places) && forall i :: i in places ==> i < last
    ensures IsIncreasing(places + [last])
    ensures forall i :: i in places + [last] <==> i in places || i == last
  {
    forall i | 0 <= i < |places|
      ensures places[i] < last
    {
      assert places[i] in places;
    }
  }

  lemma {:induction false} ToMessagesAt(history: seq<ChatMessage>)
    ensures |ToMessages(history)| == |history|
    ensures forall k :: 0 <= k < |history| ==> ToMessages(history)[k] == AsMessage(history[k])
  {
    if history != [] {
      ToMessagesAt(Init(history));
    }
  }

  /**
   The opening of every dialogue: the prompt, the notice of a document if there is one,
   the most recent of what was said in the history, and the question.
   */
  lemma OpeningIsHistory(world: World, settings: Settings, request: ChatRequest, question: string)
    returns (all: seq<nat>, places: seq<nat>)
    ensures AreSpoken(world, request.history, all) && places == all[LeftOut(|all|, settings.historyLimit)..]
    ensures Opens(world, request, places, request.question, Opening(world, settings, request))
    ensures Opens(world, request, places, question, Init(Opening(world, settings, request)) + [User(question)])
  {
    all := SpokenPlaces(world, request.history);
    places := all[LeftOut(|all|, settings.historyLimit)..];
    var recent := Recent(world, settings, request);
    hide Spoken;
    assert |recent| == |places|;
    forall k | 0 <= k < |places|
      ensures places[k] < |request.history| && recent[k] == request.history[places[k]]
    {
      assert places[k] == all[LeftOut(|all|, settings.historyLimit) + k];
    }
    ToMessagesAt(recent);
    hide ToMessages, AreSpoken, Recent;
    OpensAround(world, request, places, request.question, ToMessages(recent));
    OpensAround(world, request, places, question, ToMessages(recent));
    assert Init(Opening(world, settings, request)) == Prompt(world, request) + ToMessages(recent);
  }

  lemma OpensAround(world: World, request: ChatRequest, places: seq<nat>, question: string, said: seq<Message>)
    requires |said| == |places|
    requires forall k :: 0 <= k < |places| ==>
               places[k] < |request.history| && said[k] == AsMessage(request.history[places[k]])
    ensures Opens(world, request, places, question, Prompt(world, request) + said + [User(question)])
  {
    hide AsMessage;
    var messages := Prompt(world, request) + said + [User(question)];
    assert messages[0] == System(SYSTEM_PROMPT);
  }

  // ---- one stream ---------------------------------------------------------------------------

  /** Where the response stands among the pieces from here on; their number if there is none. */
  function FinalAt(pieces: seq<StreamPiece>, from: nat): (m: nat)
    requires from <= |pieces|
    ensures from <= m <= |pieces| && (m < |pieces| ==> pieces[m].Final?)
    ensures forall i :: from <= i < m ==> !pieces[i].Final?
    decreases |pieces| - from
  {
    if from == |pieces| || pieces[from].Final? then from else FinalAt(pieces, from + 1)
  }

  predicate Replied(world: World, n: nat) {
    FinalAt(world.stream(n).pieces, 0) < |world.stream(n).pieces|
  }

  function ReplyOf(world: World, n: nat): StreamedResponse
    requires Replied(world, n)
  {
    var pieces := world.stream(n).pieces;
    pieces[FinalAt(pieces, 0)].response
  }

  /** The words of a stream: those that came before its response, or the response's own if none did. */
  function SaidIn(world: World, n: nat): string
    requires Replied(world, n)
  {
    var pieces := world.stream(n).pieces;
    var said := FailoverRuns.Spoken(pieces[..FinalAt(pieces, 0)]);
    if said != "" then said else ReplyOf(world, n).content
  }

  /** What the reader sees of the pieces before the response: a token for words, a note for a replaced model. */
  function ShownOf(pieces: seq<StreamPiece>, n: nat): (events: seq<Event>)
    requires n <= |pieces| && forall i :: 0 <= i < n ==> !pieces[i].Final?
    ensures |events| == n
  {
    seq(n, i requires 0 <= i < n => match pieces[i]
                                    case Text(text) => Token(text)
                                    case Notice(refused, failure, next) => Note(ModelReplaced(refused, failure, next)))
  }

  lemma HearUnfolds(pieces: seq<StreamPiece>, from: nat)
    requires from < |pieces| && !pieces[from].Final?
    ensures var here, rest := Hear(pieces[from..]), Hear(pieces[from + 1..]);
      && here.said == (if pieces[from].Text? then pieces[from].text else "") + rest.said
      && here.response == rest.response && here.events == [EventOf(pieces[from])] + rest.events
  {
    assert pieces[from..][1..] == pieces[from + 1..] && pieces[from..][0] == pieces[from];
  }

  lemma {:induction false} HearFrom(pieces: seq<StreamPiece>, from: nat)
    requires from <= |pieces|
    ensures var m, heard := FinalAt(pieces, from), Hear(pieces[from..]);
      && heard.said == FailoverRuns.Spoken(pieces[from..m])
      && heard.response == (if m < |pieces| then Some(pieces[m].response) else None)
    decreases |pieces| - from
  {
    var m := FinalAt(pieces, from);
    if from < |pieces| && !pieces[from].Final? {
      HearFrom(pieces, from + 1);
      HearUnfolds(pieces, from);
      SpokenBetween(pieces, from, m);
      hide FailoverRuns.Spoken, Hear;
    } else {
      assert pieces[from..m] == [];
    }
  }

  lemma SpokenBetween(pieces: seq<StreamPiece>, from: nat, m: nat)
    requires from < m <= |pieces|
    ensures FailoverRuns.Spoken(pieces[from..m])
         == (if pieces[from].Text? then pieces[from].text else "") + FailoverRuns.Spoken(pieces[from + 1..m])
  {
    hide FailoverRuns.Spoken;
    FailoverRuns.SpokenOne(pieces[from]);
    FailoverRuns.SpokenConcat([pieces[from]], pieces[from + 1..m]);
    assert [pieces[from]] + pieces[from + 1..m] == pieces[from..m];
  }

  lemma ShownFrom(pieces: seq<StreamPiece>, m: nat, from: nat)
    requires from < m <= |pieces| && forall i :: 0 <= i < m ==> !pieces[i].Final?
    ensures ShownOf(pieces, m)[from..] == [EventOf(pieces[from])] + ShownOf(pieces, m)[from + 1..]
  {
  }

  lemma {:induction false} HearShows(pieces: seq<StreamPiece>, from: nat)
    requires from <= FinalAt(pieces, 0)
    ensures Hear(pieces[from..]).events == ShownOf(pieces, FinalAt(pieces, 0))[from..]
    decreases |pieces| - from
  {
    var m := FinalAt(pieces, 0);
    if from < m {
      HearShows(pieces, from + 1);
      HearUnfolds(pieces, from);
      hide Hear, ShownOf;
      ShownFrom(pieces, m, from);
    } else {
      assert ShownOf(pieces, m)[m..] == [];
    }
  }

  /** What is heard of a stream, in these terms. */
  lemma HearIs(world: World, n: nat)
    ensures var pieces := world.stream(n).pieces;
      var heard := Hear(pieces);
      && heard.events == ShownOf(pieces, FinalAt(pieces, 0))
      && (heard.response.Some? <==> Replied(world, n))
      && (Replied(world, n) ==> heard.response == Some(ReplyOf(world, n)) && WordsOf(heard) == SaidIn(world, n))
  {
    var pieces := world.stream(n).pieces;
    HearFrom(pieces, 0);
    HearShows(pieces, 0);
    assert pieces[0..] == pieces && pieces[0..FinalAt(pieces, 0)] == pieces[..FinalAt(pieces, 0)];
    var shown := ShownOf(pieces, FinalAt(pieces, 0));
    assert shown[0..] == shown;
    hide FailoverRuns.Spoken, Hear;
  }

  // ---- what is told --------------------------------------------------------------------------

  /** The first `n` streams all brought a response. */
  predicate AllReplied(world: World, n: nat) {
    forall i :: 0 <= i < n ==> Replied(world, i)
  }

  /** How many calls the first `n` replies made. */
  function CallsBefore(world: World, n: nat): nat
    requires AllReplied(world, n)
  {
    if n == 0 then 0 else CallsBefore(world, n - 1) + |ReplyOf(world, n - 1).toolCalls|
  }

  /** The results of these calls, the first of which is the `first`-th executed of all. */
  function ResultsOf(world: World, calls: seq<ToolCall>, first: nat): (results: seq<Message>)
    ensures |results| == |calls|
  {
    seq(|calls|, j requires 0 <= j < |calls| => Tool(world.execute(first + j), calls[j].id))
  }

  /** The answer in the words of this stream: without calls printed as text, unless nothing else remains. */
  function AnswerIn(world: World, settings: Settings, n: nat): string
    requires Replied(world, n)
  {
    var cleaned := world.clean(SaidIn(world, n));
    if cleaned != "" then cleaned else if n + 1 == settings.maxSteps then OUT_OF_STEPS else SaidIn(world, n)
  }

  /** What the n-th reply adds to the dialogue: its calls and their results, or the answer that is sent back. */
  function ExchangeIn(world: World, settings: Settings, n: nat): seq<Message>
    requires AllReplied(world, n + 1)
  {
    var calls := ReplyOf(world, n).toolCalls;
    if calls == [] then [Assistant(AnswerIn(world, settings, n), []), User(DEAD_END_MESSAGE)]
    else [Assistant(SaidIn(world, n), calls)] + ResultsOf(world, calls, CallsBefore(world, n))
  }

  function ToldBefore(world: World, settings: Settings, n: nat): seq<Message>
    requires AllReplied(world, n)
  {
    if n == 0 then [] else ToldBefore(world, settings, n - 1) + ExchangeIn(world, settings, n - 1)
  }

  /** A reply without calls is sent back: it gives up, with steps left, and none before it came without calls. */
  predicate IsSentBack(world: World, settings: Settings, n: nat)
    requires AllReplied(world, n + 1)
  {
    && ReplyOf(world, n).toolCalls == [] && n + 1 != settings.maxSteps
    && (forall i :: 0 <= i < n ==> ReplyOf(world, i).toolCalls != [])
    && world.isDeadEnd(AnswerIn(world, settings, n))
  }

  function SpentOn(world: World, n: nat): ChatUsage
    requires AllReplied(world, n)
  {
    if n == 0 then NOTHING_SPENT
    else
      var usage, spent := ReplyOf(world, n - 1).usage, SpentOn(world, n - 1);
      ChatUsage(spent.inputTokens + usage.inputTokens, spent.outputTokens + usage.outputTokens)
  }

  /** The n-th step goes on to the next. */
  predicate GoesOn(world: World, settings: Settings, n: nat)
    requires AllReplied(world, n)
  {
    Replied(world, n) && (ReplyOf(world, n).toolCalls != [] || IsSentBack(world, settings, n))
  }

  /** The events of the n-th step: what came before the response, then the calls, the note or the answer. */
  function EventsIn(world: World, settings: Settings, n: nat): seq<Event>
    requires AllReplied(world, n)
  {
    var pieces := world.stream(n).pieces;
    ShownOf(pieces, FinalAt(pieces, 0))
    + if !Replied(world, n) then []
      else if ReplyOf(world, n).toolCalls != [] then
        Exchanges(world, ReplyOf(world, n).toolCalls, CallsBefore(world, n))
      else if IsSentBack(world, settings, n) then [Note(DeadEnd)]
      else [Answer(AnswerIn(world, settings, n), ReplyOf(world, n).model, SpentOn(world, n + 1))]
  }

  // ---- one step --------------------------------------------------------------------------------

  predicate SomeWithoutCalls(world: World, n: nat)
    requires AllReplied(world, n)
  {
    exists i :: 0 <= i < n && ReplyOf(world, i).toolCalls == []
  }

  /** The agent before its n-th step, when the dialogue opened with these messages. */
  predicate Stands(world: World, settings: Settings, opening: seq<Message>, n: nat, state: State) {
    && AllReplied(world, n)
    && state.messages == opening + ToldBefore(world, settings, n)
    && state.executed == CallsBefore(world, n)
    && state.spent == SpentOn(world, n)
    && (state.nudged <==> SomeWithoutCalls(world, n))
  }

  lemma {:induction false} CallingTells(world: World, state: State, calls: seq<ToolCall>)
    ensures Called(world, state, calls).state.messages == state.messages + ResultsOf(world, calls, state.executed)
    decreases calls
  {
    if calls == [] {
      assert ResultsOf(world, calls, state.executed) == [];
    } else {
      var first := Tool(world.execute(state.executed), calls[0].id);
      var next := state.(messages := state.messages + [first], executed := state.executed + 1);
      CallingTells(world, next, calls[1..]);
      assert ResultsOf(world, calls, state.executed) == [first] + ResultsOf(world, calls[1..], state.executed + 1);
    }
  }

  lemma TakesCalls(world: World, isLast: bool, asking: State, heard: Heard, ending: Ending)
    requires heard.response.Some? && heard.response.value.toolCalls != []
    ensures var response := heard.response.value;
      var turn := TakeStep(world, isLast, asking, heard, ending);
      && turn.fate.None?
      && turn.events == heard.events + Exchanges(world, response.toolCalls, asking.executed)
      && turn.state.messages == asking.messages + [Assistant(WordsOf(heard), response.toolCalls)]
                                + ResultsOf(world, response.toolCalls, asking.executed)
      && turn.state.executed == asking.executed + |response.toolCalls|
      && turn.state.spent == Plus(asking.spent, response) && turn.state.nudged == asking.nudged
  {
    var response := heard.response.value;
    var asked := Recorded(asking, WordsOf(heard), response);
    CallingTells(world, asked, response.toolCalls);
    CallingIsExchanging(world, asked, response.toolCalls);
    CallingIsFree(world, asked, response.toolCalls);
    CallingIsQuiet(world, asked, response.toolCalls);
    hide Called, Exchanges, Only, Quiet, ResultsOf;
  }

  lemma OneMoreReply(world: World, settings: Settings, n: nat)
    requires AllReplied(world, n) && Replied(world, n)
    ensures AllReplied(world, n + 1)
    ensures ToldBefore(world, settings, n + 1) == ToldBefore(world, settings, n) + ExchangeIn(world, settings, n)
    ensures CallsBefore(world, n + 1) == CallsBefore(world, n) + |ReplyOf(world, n).toolCalls|
    ensures SpentOn(world, n + 1) == Plus(SpentOn(world, n), ReplyOf(world, n))
    ensures SomeWithoutCalls(world, n + 1) <==> SomeWithoutCalls(world, n) || ReplyOf(world, n).toolCalls == []
  {
    hide ReplyOf, Replied, ExchangeIn;
  }

  lemma StepWithCalls(
    world: World, settings: Settings, opening: seq<Message>, n: nat, state: State, heard: Heard, ending: Ending)
    requires Stands(world, settings, opening, n, state) && Replied(world, n)
    requires heard.response == Some(ReplyOf(world, n)) && WordsOf(heard) == SaidIn(world, n)
    requires heard.events == ShownOf(world.stream(n).pieces, FinalAt(world.stream(n).pieces, 0))
    requires ReplyOf(world, n).toolCalls != []
    ensures var turn := TakeStep(world, false, state, heard, ending);
      && turn.fate.None? && turn.events == EventsIn(world, settings, n)
      && Stands(world, settings, opening, n + 1, turn.state)
  {
    var calls := ReplyOf(world, n).toolCalls;
    TakesCalls(world, false, state, heard, ending);
    OneMoreReply(world, settings, n);
    hide TakeStep, Exchanges, ReplyOf, SaidIn, ShownOf, ResultsOf, ToldBefore, CallsBefore, SpentOn, SomeWithoutCalls;
    SaidAndAnswered(
      opening, ToldBefore(world, settings, n), [Assistant(SaidIn(world, n), calls)],
      ResultsOf(world, calls, CallsBefore(world, n)));
  }

  lemma SaidAndAnswered(opening: seq<Message>, told: seq<Message>, said: seq<Message>, answers: seq<Message>)
    ensures opening + (told + (said + answers)) == opening + told + said + answers
  {
  }

  lemma AnswersWithout(world: World, isLast: bool, asking: State, heard: Heard, ending: Ending)
    requires heard.response.Some? && heard.response.value.toolCalls == []
    ensures var response, text := heard.response.value, AnswerText(world, isLast, WordsOf(heard));
      var turn := TakeStep(world, isLast, asking, heard, ending);
      if !isLast && !asking.nudged && world.isDeadEnd(text) then
        && turn.fate.None? && turn.events == heard.events + [Note(DeadEnd)]
        && turn.state.messages == asking.messages + [Assistant(text, [])] + [User(DEAD_END_MESSAGE)]
        && turn.state.executed == asking.executed && turn.state.nudged
        && turn.state.spent == Plus(asking.spent, response)
      else
        && turn.fate == Some(Answered)
        && turn.events == heard.events + [Answer(text, response.model, Plus(asking.spent, response))]
  {
    hide AnswerText, Called;
  }

  lemma SentBackWhenNotNudged(world: World, settings: Settings, n: nat)
    requires AllReplied(world, n) && Replied(world, n) && ReplyOf(world, n).toolCalls == []
    ensures AllReplied(world, n + 1)
    ensures IsSentBack(world, settings, n) <==>
            n + 1 != settings.maxSteps && !SomeWithoutCalls(world, n) && world.isDeadEnd(AnswerIn(world, settings, n))
  {
    hide ReplyOf, Replied, AnswerIn;
  }

  lemma StepWithoutCalls(
    world: World, settings: Settings, opening: seq<Message>, n: nat, state: State, asking: State, heard: Heard,
    ending: Ending)
    requires Stands(world, settings, opening, n, state) && Replied(world, n)
    requires heard.response == Some(ReplyOf(world, n)) && WordsOf(heard) == SaidIn(world, n)
    requires heard.events == ShownOf(world.stream(n).pieces, FinalAt(world.stream(n).pieces, 0))
    requires ReplyOf(world, n).toolCalls == [] && asking == Asking(state, n + 1 == settings.maxSteps)
    ensures var turn := TakeStep(world, n + 1 == settings.maxSteps, asking, heard, ending);
      && turn.events == EventsIn(world, settings, n)
      && turn.fate == (if IsSentBack(world, settings, n) then None else Some(Answered))
      && (turn.fate.None? ==> Stands(world, settings, opening, n + 1, turn.state))
  {
    var text := AnswerIn(world, settings, n);
    assert text == AnswerText(world, n + 1 == settings.maxSteps, WordsOf(heard));
    AnswersWithout(world, n + 1 == settings.maxSteps, asking, heard, ending);
    OneMoreReply(world, settings, n);
    SentBackWhenNotNudged(world, settings, n);
    hide TakeStep, ReplyOf, SaidIn, ShownOf, ToldBefore, CallsBefore, SpentOn, SomeWithoutCalls, IsSentBack, AnswerIn;
    hide AnswerText;
    SaidAndAnswered(opening, ToldBefore(world, settings, n), [Assistant(text, [])], [User(DEAD_END_MESSAGE)]);
    assert [Assistant(text, [])] + [User(DEAD_END_MESSAGE)] == [Assistant(text, []), User(DEAD_END_MESSAGE)];
  }

  /** The last step's calls: they are shown, but nothing follows. */
  lemma LastStepWithCalls(
    world: World, settings: Settings, opening: seq<Message>, n: nat, state: State, heard: Heard, ending: Ending)
    requires Stands(world, settings, opening, n, state) && Replied(world, n)
    requires heard.response == Some(ReplyOf(world, n))
    requires heard.events == ShownOf(world.stream(n).pieces, FinalAt(world.stream(n).pieces, 0))
    requires ReplyOf(world, n).toolCalls != []
    ensures var turn := TakeStep(world, true, Asking(state, true), heard, ending);
      turn.fate.None? && turn.events == EventsIn(world, settings, n)
  {
    TakesCalls(world, true, Asking(state, true), heard, ending);
    hide TakeStep, Exchanges, ReplyOf, ShownOf, ResultsOf, ToldBefore, CallsBefore, SpentOn, SomeWithoutCalls;
  }

  /** Why a step is the last of its run. */
  function FateOf(world: World, n: nat): Fate {
    if Replied(world, n) then Answered
    else match world.stream(n).ending
      case Completed => Broke(NoReply)
      case Raised(error) => Broke(FromModel(error))
  }

  lemma StepIs(world: World, settings: Settings, opening: seq<Message>, n: nat, state: State)
    requires Stands(world, settings, opening, n, state) && n < settings.maxSteps
    ensures var isLast, stream := n + 1 == settings.maxSteps, world.stream(n);
      var turn := TakeStep(world, isLast, Asking(state, isLast), Hear(stream.pieces), stream.ending);
      && turn.events == EventsIn(world, settings, n)
      && turn.fate == (if GoesOn(world, settings, n) then None else Some(FateOf(world, n)))
      && (turn.fate.None? && !isLast ==> Stands(world, settings, opening, n + 1, turn.state))
  {
    var isLast, stream := n + 1 == settings.maxSteps, world.stream(n);
    var heard := Hear(stream.pieces);
    HearIs(world, n);
    if Replied(world, n) {
      SentBackOrCalls(world, settings, n);
      hide TakeStep, Hear, Stands, EventsIn, ReplyOf, SaidIn, WordsOf, IsSentBack, ShownOf, GoesOn;
      if ReplyOf(world, n).toolCalls == [] {
        StepWithoutCalls(world, settings, opening, n, state, Asking(state, isLast), heard, stream.ending);
      } else if isLast {
        LastStepWithCalls(world, settings, opening, n, state, heard, stream.ending);
      } else {
        StepWithCalls(world, settings, opening, n, state, heard, stream.ending);
      }
    } else {
      hide Hear, Stands, ReplyOf, SaidIn, IsSentBack, ShownOf;
    }
  }

  lemma SentBackOrCalls(world: World, settings: Settings, n: nat)
    requires AllReplied(world, n) && Replied(world, n)
    ensures AllReplied(world, n + 1)
    ensures GoesOn(world, settings, n) <==> ReplyOf(world, n).toolCalls != [] || IsSentBack(world, settings, n)
  {
    hide ReplyOf, IsSentBack, Replied;
  }

  // ---- whole runs --------------------------------------------------------------------------------

  /** The events of so many steps, from this one on. */
  function EventsOf(world: World, settings: Settings, from: nat, n: nat): seq<Event>
    requires n > 0 ==> AllReplied(world, from + n - 1)
    decreases n
  {
    if n == 0 then [] else EventsIn(world, settings, from) + EventsOf(world, settings, from + 1, n - 1)
  }

  /** The n-th request of a dialogue that opened with these messages. */
  function RequestAt(world: World, settings: Settings, opening: seq<Message>, n: nat): Sent
    requires AllReplied(world, n)
  {
    Sent(
      opening + ToldBefore(world, settings, n)
      + (if n + 1 == settings.maxSteps then [User(FINAL_INSTRUCTION)] else []),
      n + 1 < settings.maxSteps)
  }

  /**
   A run from this step on takes `n` steps: every one but the last goes on to the next,
   and the last does so only at the ceiling. It sends one request in each step, and its
   events are those of its steps.
   */
  ghost predicate Takes(world: World, settings: Settings, opening: seq<Message>, from: nat, n: nat, run: Run) {
    && |run.sent| == n
    && (if from >= settings.maxSteps then n == 0 && run.fate == OutOfSteps
        else
          && n > 0 && from + n <= settings.maxSteps && AllReplied(world, from + n - 1)
          && (forall k :: from <= k < from + n - 1 ==> GoesOn(world, settings, k))
          && run.fate == (if GoesOn(world, settings, from + n - 1) then OutOfSteps else FateOf(world, from + n - 1))
          && (GoesOn(world, settings, from + n - 1) ==> from + n == settings.maxSteps)
          && (forall k :: from <= k < from + n ==> run.sent[k - from] == RequestAt(world, settings, opening, k)))
    && run.events == EventsOf(world, settings, from, n)
  }

  lemma AskingIs(world: World, settings: Settings, opening: seq<Message>, n: nat, state: State)
    requires Stands(world, settings, opening, n, state) && n < settings.maxSteps
    ensures Sent(Asking(state, n + 1 == settings.maxSteps).messages, !(n + 1 == settings.maxSteps))
         == RequestAt(world, settings, opening, n)
  {
    hide ToldBefore, CallsBefore, SpentOn, SomeWithoutCalls;
    assert state.messages + [] == state.messages;
  }

  lemma RunUnfolds(world: World, settings: Settings, n: nat, state: State)
    requires n < settings.maxSteps
    ensures var isLast, stream, run := n + 1 == settings.maxSteps, world.stream(n), RunFrom(world, settings, n, state);
      var asking := Asking(state, isLast);
      var turn := TakeStep(world, isLast, asking, Hear(stream.pieces), stream.ending);
      if turn.fate.Some? then
        run.events == turn.events && run.sent == [Sent(asking.messages, !isLast)] && run.fate == turn.fate.value
      else
        var rest := RunFrom(world, settings, n + 1, turn.state);
        && run.events == turn.events + rest.events && run.sent == [Sent(asking.messages, !isLast)] + rest.sent
        && run.fate == rest.fate
  {
    hide TakeStep, Hear, Asking;
  }

  lemma TakesOne(world: World, settings: Settings, opening: seq<Message>, n: nat, run: Run)
    requires AllReplied(world, n) && n < settings.maxSteps
    requires run.sent == [RequestAt(world, settings, opening, n)] && run.events == EventsIn(world, settings, n)
    requires run.fate == if GoesOn(world, settings, n) then OutOfSteps else FateOf(world, n)
    requires GoesOn(world, settings, n) ==> n + 1 == settings.maxSteps
    ensures Takes(world, settings, opening, n, 1, run)
  {
    hide GoesOn, RequestAt, FateOf, EventsIn, AllReplied;
    assert EventsIn(world, settings, n) + [] == EventsIn(world, settings, n);
    assert EventsOf(world, settings, n + 1, 0) == [];
  }

  lemma TakesMore(
    world: World, settings: Settings, opening: seq<Message>, n: nat, m: nat, run: Run, rest: Run)
    requires AllReplied(world, n) && n + 1 < settings.maxSteps && GoesOn(world, settings, n)
    requires Takes(world, settings, opening, n + 1, m, rest)
    requires run.sent == [RequestAt(world, settings, opening, n)] + rest.sent && run.fate == rest.fate
    requires run.events == EventsIn(world, settings, n) + rest.events
    ensures Takes(world, settings, opening, n, m + 1, run)
  {
    hide GoesOn, RequestAt, FateOf, EventsIn, Replied;
    forall k | n <= k < n + m + 1
      ensures AllReplied(world, k) && run.sent[k - n] == RequestAt(world, settings, opening, k)
    {
      if k > n {
        assert run.sent[k - n] == rest.sent[k - (n + 1)];
      }
    }
  }

  lemma {:induction false} RunTakes(world: World, settings: Settings, opening: seq<Message>, n: nat, state: State)
    returns (m: nat)
    requires Stands(world, settings, opening, n, state)
    ensures Takes(world, settings, opening, n, m, RunFrom(world, settings, n, state))
    decreases settings.maxSteps - n
  {
    var run := RunFrom(world, settings, n, state);
    if n >= settings.maxSteps {
      m := 0;
    } else {
      var isLast, stream := n + 1 == settings.maxSteps, world.stream(n);
      var turn := TakeStep(world, isLast, Asking(state, isLast), Hear(stream.pieces), stream.ending);
      assert AllReplied(world, n);
      RunUnfolds(world, settings, n, state);
      hide *;
      AskingIs(world, settings, opening, n, state);
      StepIs(world, settings, opening, n, state);
      if turn.fate.Some? {
        m := 1;
        TakesOne(world, settings, opening, n, run);
      } else if isLast {
        m := 1;
        NoTurnsLeft(world, settings, n + 1, turn.state);
        assert turn.events + [] == turn.events;
        TakesOne(world, settings, opening, n, run);
      } else {
        var rest := RunTakes(world, settings, opening, n + 1, turn.state);
        m := rest + 1;
        TakesMore(world, settings, opening, n, rest, run, RunFrom(world, settings, n + 1, turn.state));
      }
    }
  }

  lemma StartStands(world: World, settings: Settings, request: ChatRequest)
    ensures Stands(world, settings, Opening(world, settings, request), 0, Start(world, settings, request))
  {
    hide Opening;
    var opening := Opening(world, settings, request);
    assert opening + [] == opening;
  }

  /**
   Every request and every event of an investigation, read off its streams: it opens
   with the recent history and the question; each later request adds the replies so far
   with the results of their calls; the last one the ceiling allows says that it is the
   last. The run ends where a reply answers, a stream fails, or the ceiling is reached.
   */
  lemma WhatAnInvestigationSends(world: World, settings: Settings, request: ChatRequest)
    returns (opening: seq<Message>, all: seq<nat>, places: seq<nat>, steps: nat)
    ensures AreSpoken(world, request.history, all) && places == all[LeftOut(|all|, settings.historyLimit)..]
    ensures Opens(world, request, places, request.question, opening)
    ensures Takes(world, settings, opening, 0, steps, WholeRun(world, settings, request))
  {
    hide RunFrom, Opens, AreSpoken, Stands, Takes, Start;
    opening := Opening(world, settings, request);
    all, places := OpeningIsHistory(world, settings, request, request.question);
    hide Opening;
    StartStands(world, settings, request);
    steps := RunTakes(world, settings, opening, 0, Start(world, settings, request));
  }

  // ---- the fallback and the whole answer -------------------------------------------------------------

  /** How the fallback ends when it is brought this stream. */
  function EndingIn(world: World, n: nat): Event {
    if Replied(world, n) then
      var reply := ReplyOf(world, n);
      Answer(SaidIn(world, n), reply.model, ChatUsage(reply.usage.inputTokens, reply.usage.outputTokens))
    else
      match world.stream(n).ending
      case Completed => Failed(NoReply)
      case Raised(error) => Failed(FromModel(error))
  }

  /**
   The fallback opens the same dialogue and puts the result of one search behind the
   question; it sends one request without tools, and ends with an answer or a failure.
   */
  lemma WhatTheFallbackSends(world: World, settings: Settings, request: ChatRequest, n: nat)
    returns (all: seq<nat>, places: seq<nat>)
    requires request.hasNavigator ==> world.search.Some?
    ensures AreSpoken(world, request.history, all) && places == all[LeftOut(|all|, settings.historyLimit)..]
    ensures var talk, pieces := PresetTalk(world, settings, request, n), world.stream(n).pieces;
      var question := request.question + if request.hasNavigator then "\n\n" + world.search.value else "";
      && !talk.escaped && |talk.sent| == 1 && !talk.sent[0].withTools
      && Opens(world, request, places, question, talk.sent[0].messages)
      && talk.events == [Note(WithoutTools)] + ShownOf(pieces, FinalAt(pieces, 0)) + [EndingIn(world, n)]
  {
    var question := request.question + if request.hasNavigator then "\n\n" + world.search.value else "";
    assert request.question + "" == request.question;
    assert request.hasNavigator ==> request.question + "\n\n" + world.search.value == question;
    all, places := OpeningIsHistory(world, settings, request, question);
    HearIs(world, n);
    hide Opening, Opens, AreSpoken, Hear, ShownOf, ReplyOf, SaidIn, Replied;
  }

  /** The tokens among these pieces. */
  function TokensOf(pieces: seq<StreamPiece>, from: nat, to: nat): seq<Event>
    requires from <= to <= |pieces|
    decreases |pieces| - from
  {
    if from == to then []
    else (if pieces[from].Text? then [Token(pieces[from].text)] else []) + TokensOf(pieces, from + 1, to)
  }

  lemma {:induction false} NotesAreDropped(pieces: seq<StreamPiece>, n: nat, from: nat, ending: Event)
    requires from <= n <= |pieces| && (forall i :: 0 <= i < n ==> !pieces[i].Final?) && !ending.Note?
    ensures WithoutNotes(ShownOf(pieces, n)[from..] + [ending]) == TokensOf(pieces, from, n) + [ending]
    decreases |pieces| - from
  {
    var shown := ShownOf(pieces, n);
    if from == n {
      assert shown[from..] + [ending] == [ending] && [ending][1..] == [] && WithoutNotes([]) == [];
    } else {
      NotesAreDropped(pieces, n, from + 1, ending);
      var events, rest := shown[from..] + [ending], shown[from + 1..] + [ending];
      assert events[0] == shown[from] && events[1..] == rest;
      assert WithoutNotes(events) == (if shown[from].Note? then [] else [shown[from]]) + WithoutNotes(rest);
    }
  }

  lemma FallbackWithoutNotes(world: World, settings: Settings, request: ChatRequest, n: nat)
    requires request.hasNavigator && world.search.Some?
    ensures var pieces := world.stream(n).pieces;
      WithoutNotes(PresetTalk(world, settings, request, n).events)
      == TokensOf(pieces, 0, FinalAt(pieces, 0)) + [EndingIn(world, n)]
  {
    var pieces, ending := world.stream(n).pieces, EndingIn(world, n);
    var shown := ShownOf(pieces, FinalAt(pieces, 0));
    var _, _ := WhatTheFallbackSends(world, settings, request, n);
    NotesAreDropped(pieces, FinalAt(pieces, 0), 0, ending);
    assert shown[0..] == shown;
    assert [Note(WithoutTools)] + shown + [ending] == [Note(WithoutTools)] + (shown + [ending]);
    hide PresetTalk, ShownOf, TokensOf, EndingIn;
    NoteInFront(shown + [ending]);
  }

  lemma NoteInFront(events: seq<Event>)
    ensures WithoutNotes([Note(WithoutTools)] + events) == WithoutNotes(events)
  {
    assert ([Note(WithoutTools)] + events)[1..] == events;
    assert [] + WithoutNotes(events) == WithoutNotes(events);
  }

  /** The notes every answer begins with. */
  function Notes(request: ChatRequest): seq<Event> {
    (if request.revision == "" then []
     else [Note(IndexRevision(if |request.revision| < 12 then request.revision else request.revision[..12]))])
    + match request.document
      case None => []
      case Some(document) => [Note(DocumentAttached(document.name))]
  }

  /** What follows the steps of an investigation that ended like this. */
  function AfterSteps(world: World, steps: nat, fate: Fate): seq<Event> {
    match fate
    case Broke(FromModel(ContextOverflow(_))) =>
      var pieces := world.stream(steps).pieces;
      [Note(Overflow)]
      + if world.search.None? then [] else TokensOf(pieces, 0, FinalAt(pieces, 0)) + [EndingIn(world, steps)]
    case Broke(error) => [Failed(error)]
    case _ => []
  }

  lemma NotesArePrologue(request: ChatRequest)
    ensures Prologue(request) == Notes(request)
  {
    if request.revision != "" && |request.revision| < 12 {
      assert request.revision[..|request.revision|] == request.revision;
    }
  }

  lemma SentOfTalk(world: World, settings: Settings, request: ChatRequest)
    ensures var talk, run := TalkAbout(world, settings, request), WholeRun(world, settings, request);
      if !request.hasNavigator then talk == Talk(Prologue(request), [], false)
      else
        && talk.escaped == (Overflowed(run.fate) && world.search.None?)
        && talk.sent
           == run.sent + if Overflowed(run.fate) then PresetTalk(world, settings, request, |run.sent|).sent else []
  {
    var run := WholeRun(world, settings, request);
    assert run.sent + [] == run.sent;
    hide WholeRun, Prologue, Opening, Hear, WithoutNotes;
  }

  lemma TailIs(world: World, settings: Settings, request: ChatRequest, steps: nat, fate: Fate)
    requires request.hasNavigator
    ensures AfterSteps(world, steps, fate)
         == if Overflowed(fate) then
              [Note(Overflow)] + WithoutNotes(PresetTalk(world, settings, request, steps).events)
            else if fate.Broke? then [Failed(fate.error)]
            else []
  {
    if world.search.Some? {
      FallbackWithoutNotes(world, settings, request, steps);
    } else {
      assert PresetTalk(world, settings, request, steps).events == [Note(WithoutTools)];
      assert [Note(WithoutTools)][1..] == [] && WithoutNotes([Note(WithoutTools)]) == [];
    }
    hide PresetTalk, WithoutNotes, TokensOf, EndingIn;
  }

  lemma TakenSteps(world: World, settings: Settings, opening: seq<Message>, n: nat, run: Run)
    requires Takes(world, settings, opening, 0, n, run)
    ensures n == |run.sent| && (n > 0 ==> AllReplied(world, n - 1)) && run.events == EventsOf(world, settings, 0, n)
  {
    hide GoesOn, RequestAt, FateOf, EventsOf, Replied;
  }

  /**
   All that a reader sees: the notes, the steps, and behind them a failure, or after an
   overflow a note, the words of the fallback's stream and its ending. Without a
   navigator the notes are all.
   */
  lemma WhatTheReaderSees(world: World, settings: Settings, request: ChatRequest) returns (steps: nat)
    ensures var talk, run := TalkAbout(world, settings, request), WholeRun(world, settings, request);
      if !request.hasNavigator then talk == Talk(Notes(request), [], false)
      else
        && steps == |run.sent| && (steps > 0 ==> AllReplied(world, steps - 1))
        && talk.events == Notes(request) + EventsOf(world, settings, 0, steps) + AfterSteps(world, steps, run.fate)
        && talk.escaped == (Overflowed(run.fate) && world.search.None?)
        && talk.sent == run.sent + if Overflowed(run.fate) then PresetTalk(world, settings, request, steps).sent else []
  {
    var run := WholeRun(world, settings, request);
    EventsOfTalk(world, settings, request);
    NotesArePrologue(request);
    SentOfTalk(world, settings, request);
    hide TalkAbout, WholeRun, Prologue, Notes, PresetTalk;
    steps := 0;
    if request.hasNavigator {
      var opening, all, places, taken := WhatAnInvestigationSends(world, settings, request);
      steps := taken;
      TakenSteps(world, settings, opening, steps, run);
      hide Takes, EventsOf;
      TailIs(world, settings, request, steps, run.fate);
      if Overflowed(run.fate) {
        Associates(
          Notes(request) + run.events, [Note(Overflow)],
          WithoutNotes(PresetTalk(world, settings, request, steps).events));
      }
    }
  }

  lemma RequestsTaken(world: World, settings: Settings, opening: seq<Message>, n: nat, run: Run)
    requires Takes(world, settings, opening, 0, n, run)
    ensures settings.maxSteps >= 1 ==> n >= 1
    ensures forall k: nat :: k < n ==> AllReplied(world, k) && run.sent[k] == RequestAt(world, settings, opening, k)
  {
    hide GoesOn, RequestAt, FateOf, EventsOf, Replied;
  }

  /**
   Every request behind an answer. The steps of the investigation send the opening with
   the recent history and the question, and what was told since; after an overflow, if
   the search works, one more opens the dialogue anew with the search's result behind
   the question, and offers no tools.
   */
  lemma WhatAnAnswerSends(world: World, settings: Settings, request: ChatRequest)
    returns (opening: seq<Message>, all: seq<nat>, places: seq<nat>, steps: nat)
    requires request.hasNavigator
    ensures AreSpoken(world, request.history, all) && places == all[LeftOut(|all|, settings.historyLimit)..]
    ensures Opens(world, request, places, request.question, opening)
    ensures var sent := TalkAbout(world, settings, request).sent;
      && steps <= |sent| <= steps + 1 && (settings.maxSteps >= 1 ==> steps >= 1)
      && (forall k: nat :: k < steps ==> AllReplied(world, k) && sent[k] == RequestAt(world, settings, opening, k))
      && (|sent| == steps + 1 <==> Overflowed(WholeRun(world, settings, request).fate) && world.search.Some?)
      && (|sent| == steps + 1 ==>
            && !sent[steps].withTools
            && Opens(world, request, places, request.question + "\n\n" + world.search.value, sent[steps].messages))
  {
    var run := WholeRun(world, settings, request);
    SentOfTalk(world, settings, request);
    hide TalkAbout, WholeRun, PresetTalk, Opens, Takes, RequestAt, AreSpoken;
    opening, all, places, steps := WhatAnInvestigationSends(world, settings, request);
    RequestsTaken(world, settings, opening, steps, run);
    TakenSteps(world, settings, opening, steps, run);
    if Overflowed(run.fate) {
      if world.search.Some? {
        var again, anew := WhatTheFallbackSends(world, settings, request, steps);
        SpokenPlacesAreOne(world, request.history, all, again);
        Associates(request.question, "\n\n", world.search.value);
      } else {
        EscapedSendsNothing(world, settings, request, steps);
      }
    }
  }

  lemma EscapedSendsNothing(world: World, settings: Settings, request: ChatRequest, n: nat)
    requires request.hasNavigator && world.search.None?
    ensures PresetTalk(world, settings, request, n).sent == []
  {
  }

  lemma SpokenPlacesAreOne(world: World, history: seq<ChatMessage>, a: seq<nat>, b: seq<nat>)
    requires AreSpoken(world, history, a) && AreSpoken(world, history, b)
    ensures a == b
  {
    hide IsSpoken, IsIncreasing;
    assert forall i :: i in a <==> i in b;
    SamePlaces(a, b);
  }

  lemma {:induction false} SamePlaces(a: seq<nat>, b: seq<nat>)
    requires IsIncreasing(a) && IsIncreasing(b) && forall i :: i in a <==> i in b
    ensures a == b
    decreases |a|
  {
    if a == [] || b == [] {
      var i, j := SomePlace(a), SomePlace(b);
    } else {
      LastIsGreatest(a);
      LastIsGreatest(b);
      assert Last(a) in b && Last(b) in a;
      hide IsIncreasing;
      forall i
        ensures i in Init(a) <==> i in Init(b)
      {
        assert i in Init(a) <==> i in a && i != Last(a);
        assert i in Init(b) <==> i in b && i != Last(b);
      }
      SamePlaces(Init(a), Init(b));
      assert a == Init(a) + [Last(a)] && b == Init(b) + [Last(b)];
    }
  }

  function SomePlace(places: seq<nat>): (i: nat)
    ensures places == [] || i in places
  {
    if places == [] then 0 else places[0]
  }

  lemma LastIsGreatest(places: seq<nat>)
    requires IsIncreasing(places) && places != []
    ensures IsIncreasing(Init(places))
    ensures Last(places) in places && forall i :: i in places ==> i <= Last(places)
    ensures forall i :: i in Init(places) <==> i in places && i != Last(places)
  {
    forall i | i in places
      ensures i <= Last(places)
      ensures i in Init(places) <==> i != Last(places)
    {
      var k :| 0 <= k < |places| && places[k] == i;
      if k < |places| - 1 {
        assert Init(places)[k] == i && places[k] < places[|places| - 1];
      }
      if i in Init(places) {
        var m :| 0 <= m < |places| - 1 && places[m] == i;
        assert places[m] < places[|places| - 1];
      }
    }
    assert places == Init(places) + [Last(places)];
  }
}
