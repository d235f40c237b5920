/** What every answer of the chat agent keeps, whatever the model, the tools and the search do. */
module ChatAgentRuns {
  import opened Prelude
  import opened Dialogue
  import opened StreamCollector
  import opened Failover
  import opened ChatAgent
  import Router
  import FailoverRuns

  // ---- one ending, and it comes last ------------------------------------------------------

  predicate Quiet(events: seq<Event>) {
    forall e :: e in events ==> !e.IsEnding()
  }

  /** Exactly one event ends the answer, and it is the last one. */
  predicate EndsOnce(events: seq<Event>) {
    events != [] && Last(events).IsEnding() && Quiet(Init(events))
  }

  lemma QuietThen(quiet: seq<Event>, events: seq<Event>)
    requires Quiet(quiet)
    ensures Quiet(events) ==> Quiet(quiet + events)
    ensures EndsOnce(events) ==> EndsOnce(quiet + events)
  {
    if events != [] {
      assert Init(quiet + events) == quiet + Init(events);
    }
  }

  lemma {:induction false} HearingIsQuiet(pieces: seq<StreamPiece>)
    ensures Quiet(Hear(pieces).events)
  {
    if pieces != [] && !pieces[0].Final? {
      HearingIsQuiet(pieces[1..]);
    }
  }

  lemma {:induction false} CallingIsQuiet(world: World, state: State, calls: seq<ToolCall>)
    ensures Quiet(Called(world, state, calls).events)
    ensures Called(world, state, calls).fate.None?
    decreases calls
  {
    if calls != [] {
      var result := world.execute(state.executed);
      var after := state.(messages := state.messages + [Tool(result, calls[0].id)], executed := state.executed + 1);
      CallingIsQuiet(world, after, calls[1..]);
    }
  }

  lemma StepEnds(world: World, isLast: bool, asking: State, heard: Heard, ending: Ending)
    requires Quiet(heard.events)
    ensures var turn := TakeStep(world, isLast, asking, heard, ending);
      if turn.fate == Some(Answered) then EndsOnce(turn.events) else Quiet(turn.events)
    ensures var turn := TakeStep(world, isLast, asking, heard, ending);
      && turn.fate != Some(OutOfSteps)
      && (turn.fate.None? ==> heard.response.Some? && (isLast ==> heard.response.value.toolCalls != []))
      && (turn.fate.Some? && heard.response.Some? ==> heard.response.value.toolCalls == [])
  {
    var turn := TakeStep(world, isLast, asking, heard, ending);
    if heard.response.Some? {
      var response := heard.response.value;
      var counted := Recorded(asking, WordsOf(heard), response);
      CallingIsQuiet(world, counted, response.toolCalls);
      hide Called, Quiet;
      var told := Respond(world, isLast, asking, WordsOf(heard), response);
      assert Quiet([Note(DeadEnd)]) by {
        SingleIsQuiet(Note(DeadEnd));
      }
      if told.fate.Some? {
        assert Init(told.events) == [] && Quiet([]) by {
          NothingIsQuiet();
        }
      }
      QuietThen(heard.events, told.events);
    }
  }

  lemma SingleIsQuiet(event: Event)
    requires !event.IsEnding()
    ensures Quiet([event])
  {
  }

  lemma NothingIsQuiet()
    ensures Quiet([])
  {
  }

  /** The reply to the last request, which offered no tools, asks for tools all the same. */
  predicate AsksForWithheldTools(run: Run, left: int) {
    |run.sent| == left && |run.replies| == left && run.replies != [] && Last(run.replies).toolCalls != []
  }

  lemma {:induction false} RunEnds(world: World, settings: Settings, step: nat, state: State)
    ensures var run := RunFrom(world, settings, step, state);
      && (if run.fate == Answered then EndsOnce(run.events) else Quiet(run.events))
      && (run.fate == OutOfSteps <==>
          step >= settings.maxSteps || AsksForWithheldTools(run, settings.maxSteps - step))
      && |run.replies| <= |run.sent| <= Max(0, settings.maxSteps - step)
    decreases settings.maxSteps - step
  {
    if step < settings.maxSteps {
      var isLast := step + 1 == settings.maxSteps;
      var asking, heard := Asking(state, isLast), Hear(world.stream(step).pieces);
      var turn := TakeStep(world, isLast, asking, heard, world.stream(step).ending);
      HearingIsQuiet(world.stream(step).pieces);
      StepEnds(world, isLast, asking, heard, world.stream(step).ending);
      hide TakeStep, Hear, Asking, Quiet, EndsOnce;
      var run := RunFrom(world, settings, step, state);
      if turn.fate.None? {
        RunEnds(world, settings, step + 1, turn.state);
        var rest := RunFrom(world, settings, step + 1, turn.state);
        QuietThen(turn.events, rest.events);
        assert run.fate == rest.fate;
        if isLast {
          assert run.replies == [heard.response.value];
        } else if rest.replies != [] {
          assert Last(run.replies) == Last(rest.replies);
        }
      } else {
        assert run.events == turn.events;
        if heard.response.Some? {
          assert run.replies == [heard.response.value];
        }
      }
    }
  }

  lemma PresetEnds(world: World, settings: Settings, request: ChatRequest, n: nat)
    ensures var talk := PresetTalk(world, settings, request, n);
      && talk.escaped == (request.hasNavigator && world.search.None?)
      && if talk.escaped then Quiet(talk.events) else EndsOnce(talk.events)
  {
    var heard := Hear(world.stream(n).pieces).events;
    HearingIsQuiet(world.stream(n).pieces);
    SingleIsQuiet(Note(WithoutTools));
    QuietThen([Note(WithoutTools)], heard);
    var talk := PresetTalk(world, settings, request, n);
    if !talk.escaped {
      assert Init(talk.events) == [Note(WithoutTools)] + heard;
      hide Quiet, Hear, Opening;
    }
  }

  lemma {:induction false} DroppingNotesKeepsTheEnding(events: seq<Event>)
    ensures Quiet(events) ==> Quiet(WithoutNotes(events))
    ensures EndsOnce(events) ==> EndsOnce(WithoutNotes(events))
  {
    if events != [] {
      var head := if events[0].Note? then [] else [events[0]];
      DroppingNotesKeepsTheEnding(events[1..]);
      if EndsOnce(events) && |events| > 1 {
        assert Init(events)[0] == events[0] && Init(events[1..]) == Init(events)[1..];
        assert Quiet(head);
        QuietThen(head, WithoutNotes(events[1..]));
      }
    }
  }

  /**
   A question gets exactly one answer or failure, and gets it last, if and only if
   there is a navigator and at least one step, the reply to the request without
   tools asks for none, and the search of the fallback, where it is needed, works.
   Otherwise it gets none at all; an error leaves the agent only from that search.
   */
  lemma EndsExactlyOnce(world: World, settings: Settings, request: ChatRequest)
    ensures var talk, run := TalkAbout(world, settings, request), WholeRun(world, settings, request);
      && talk.escaped == (request.hasNavigator && Overflowed(run.fate) && world.search.None?)
      && (EndsOnce(talk.events) <==>
          && request.hasNavigator && settings.maxSteps >= 1
          && !AsksForWithheldTools(run, settings.maxSteps)
          && !talk.escaped)
      && (Quiet(talk.events) || EndsOnce(talk.events))
  {
    hide *;
    var talk, run := TalkAbout(world, settings, request), WholeRun(world, settings, request);
    var prologue := Prologue(request);
    PrologueIsQuiet(request);
    QuietNeverEnds(talk.events);
    EventsOfTalk(world, settings, request);
    if request.hasNavigator {
      WholeRunEnds(world, settings, request);
      if Overflowed(run.fate) {
        OverflowIsNoEnd(run.fate);
        PresetEnds(world, settings, request, |run.sent|);
        var preset := PresetTalk(world, settings, request, |run.sent|).events;
        DroppingNotesKeepsTheEnding(preset);
        FallbackEnds(prologue, run.events, WithoutNotes(preset));
      } else {
        OrdinaryEnd(prologue, run.events, run.fate);
      }
    }
  }

  lemma EventsOfTalk(world: World, settings: Settings, request: ChatRequest)
    ensures var talk, run := TalkAbout(world, settings, request), WholeRun(world, settings, request);
      var told := Prologue(request) + run.events;
      if !request.hasNavigator then talk.events == Prologue(request) && !talk.escaped
      else if Overflowed(run.fate) then
        var preset := PresetTalk(world, settings, request, |run.sent|);
        talk.events == told + [Note(Overflow)] + WithoutNotes(preset.events) && talk.escaped == preset.escaped
      else talk.events == told + (if run.fate.Broke? then [Failed(run.fate.error)] else []) && !talk.escaped
  {
    var told := Prologue(request) + WholeRun(world, settings, request).events;
    assert told + [] == told;
    hide WholeRun, PresetTalk, WithoutNotes, Prologue;
  }

  lemma PrologueIsQuiet(request: ChatRequest)
    ensures Quiet(Prologue(request))
  {
  }

  lemma OverflowIsNoEnd(fate: Fate)
    requires Overflowed(fate)
    ensures fate.Broke?
  {
  }

  lemma WholeRunEnds(world: World, settings: Settings, request: ChatRequest)
    ensures var run := WholeRun(world, settings, request);
      && (if run.fate == Answered then EndsOnce(run.events) else Quiet(run.events))
      && (run.fate == OutOfSteps <==> settings.maxSteps < 1 || AsksForWithheldTools(run, settings.maxSteps))
      && |run.replies| <= |run.sent| <= Max(0, settings.maxSteps)
      && (run.fate.Broke? ==> settings.maxSteps >= 1)
  {
    RunEnds(world, settings, 0, Start(world, settings, request));
  }

  lemma FallbackEnds(prologue: seq<Event>, found: seq<Event>, kept: seq<Event>)
    requires Quiet(prologue) && Quiet(found)
    ensures Quiet(kept) ==> Quiet(prologue + found + [Note(Overflow)] + kept)
    ensures EndsOnce(kept) ==> EndsOnce(prologue + found + [Note(Overflow)] + kept)
  {
    SingleIsQuiet(Note(Overflow));
    hide Quiet, EndsOnce;
    QuietThen(prologue, found);
    QuietThen(prologue + found, [Note(Overflow)]);
    QuietThen(prologue + found + [Note(Overflow)], kept);
  }

  lemma OrdinaryEnd(prologue: seq<Event>, found: seq<Event>, fate: Fate)
    requires Quiet(prologue)
    ensures Quiet(found) ==> Quiet(prologue + found + [])
    ensures EndsOnce(found) ==> EndsOnce(prologue + found + [])
    ensures Quiet(found) && fate.Broke? ==> EndsOnce(prologue + found + [Failed(fate.error)])
  {
    FailureEnds(fate);
    hide Quiet, EndsOnce;
    QuietThen(prologue, found);
    assert prologue + found + [] == prologue + found;
    if Quiet(found) && fate.Broke? {
      QuietThen(prologue + found, [Failed(fate.error)]);
    }
  }

  /** A world where the model always brings this stream, and everything else is as plain as can be. */
  function WorldOf(stream: Stream, search: Option<string>): World {
    World((n: nat) => stream, (n: nat) => "", search, s => s == "", (d: Document) => d.text, s => s, s => false)
  }

  /** A question left without an ending: the reply to the last request calls a withheld tool. */
  lemma WithheldToolLeavesNoEnding(reply: StreamedResponse, request: ChatRequest)
    requires reply.toolCalls != [] && request.hasNavigator
    ensures var world := WorldOf(Stream([Final(reply)], Completed), None);
      Quiet(TalkAbout(world, Settings(1, 0), request).events)
  {
    var settings := Settings(1, 0);
    var world := WorldOf(Stream([Final(reply)], Completed), None);
    var start := Start(world, settings, request);
    assert Hear([Final(reply)]) == Heard([], "", Some(reply));
    var turn := TakeStep(world, true, Asking(start, true), Heard([], "", Some(reply)), Completed);
    CallingIsQuiet(world, Recorded(Asking(start, true), WordsOf(Heard([], "", Some(reply))), reply), reply.toolCalls);
    assert turn.fate.None?;
    hide TakeStep, Start, Asking, Hear, Called;
    assert RunFrom(world, settings, 1, turn.state).fate == OutOfSteps;
    assert WholeRun(world, settings, request).fate == OutOfSteps;
    hide *;
    RanOut(world, settings, request);
  }

  lemma RanOut(world: World, settings: Settings, request: ChatRequest)
    requires WholeRun(world, settings, request).fate == OutOfSteps
    ensures Quiet(TalkAbout(world, settings, request).events)
  {
    WholeRunEnds(world, settings, request);
    EndsExactlyOnce(world, settings, request);
    hide WholeRun, TalkAbout, Quiet, EndsOnce;
  }

  /** And one whose window overflows at once while the search of the fallback fails. */
  lemma FailingSearchLeavesNoEnding(model: string, request: ChatRequest)
    requires request.hasNavigator
    ensures var world := WorldOf(Stream([], Raised(ContextOverflow(model))), None);
      var talk := TalkAbout(world, Settings(1, 0), request);
      talk.escaped && Quiet(talk.events)
  {
    var settings := Settings(1, 0);
    var world := WorldOf(Stream([], Raised(ContextOverflow(model))), None);
    assert Hear([]) == Heard([], "", None);
    hide Start, Asking;
    assert WholeRun(world, settings, request).fate == Broke(FromModel(ContextOverflow(model)));
    hide RunFrom, WholeRun, TalkAbout, Quiet, EndsOnce;
    EndsExactlyOnce(world, settings, request);
  }

  lemma QuietNeverEnds(events: seq<Event>)
    ensures !(Quiet(events) && EndsOnce(events))
  {
    if events != [] {
      assert Last(events) in events;
    }
  }

  lemma FailureEnds(fate: Fate)
    ensures fate.Broke? ==> EndsOnce([Failed(fate.error)])
  {
    if fate.Broke? {
      assert Init([Failed(fate.error)]) == [];
    }
  }

  /** After the overflow note the reader sees the fallback's words and ending, but none of its notes. */
  lemma {:induction false} OnlyNotesAreDropped(events: seq<Event>, e: Event)
    ensures e in WithoutNotes(events) <==> e in events && !e.Note?
  {
    if events != [] {
      OnlyNotesAreDropped(events[1..], e);
    }
  }

  // ---- transcripts ----------------------------------------------------------------------------

  lemma {:induction false} HistoryIsPlain(messages: seq<Message>, history: seq<ChatMessage>)
    requires WellFormed(messages)
    ensures WellFormed(messages + ToMessages(history))
  {
    if history == [] {
      assert messages + [] == messages;
    } else {
      HistoryIsPlain(messages, Init(history));
      hide WellFormed;
      PlainMessageKeepsForm(messages + ToMessages(Init(history)), Last(ToMessages(history)));
      assert messages + ToMessages(history)
          == messages + ToMessages(Init(history)) + [Last(ToMessages(history))];
    }
  }

  lemma ShapeOfPrompt(world: World, request: ChatRequest) returns (first: Message)
    ensures first.System?
    ensures Prompt(world, request)
         == if request.document.Some? then [] + [first] + [System(world.describe(request.document.value))]
            else [] + [first]
  {
    first := System(SYSTEM_PROMPT);
    assert [] + [first] == [first] == [first] + [];
  }

  lemma NothingIsWellFormed()
    ensures WellFormed([])
  {
  }

  lemma PromptIsWellFormed(world: World, request: ChatRequest)
    ensures WellFormed(Prompt(world, request))
  {
    hide *;
    NothingIsWellFormed();
    var first := ShapeOfPrompt(world, request);
    PlainMessageKeepsForm([], first);
    if request.document.Some? {
      PlainMessageKeepsForm([] + [first], System(world.describe(request.document.value)));
    }
  }

  lemma OpeningIsWellFormed(world: World, settings: Settings, request: ChatRequest, question: string)
    ensures WellFormed(Opening(world, settings, request))
    ensures WellFormed(Init(Opening(world, settings, request)) + [User(question)])
  {
    hide WellFormed, ToMessages, Recent, Prompt;
    var prompt, recent := Prompt(world, request), Recent(world, settings, request);
    PromptIsWellFormed(world, request);
    HistoryIsPlain(prompt, recent);
    PlainMessageKeepsForm(prompt + ToMessages(recent), User(request.question));
    PlainMessageKeepsForm(prompt + ToMessages(recent), User(question));
    assert Init(Opening(world, settings, request)) == prompt + ToMessages(recent);
  }

  lemma {:induction false} CallsAreAnswered(world: World, state: State, calls: seq<ToolCall>)
    ensures var after := Called(world, state, calls).state;
      && |after.messages| == |state.messages| + |calls| && state.messages <= after.messages
      && AnswersTo(after.messages[|state.messages|..], calls)
    decreases calls
  {
    if calls == [] {
      assert state.messages[|state.messages|..] == [];
    } else {
      var result := world.execute(state.executed);
      var next := state.(messages := state.messages + [Tool(result, calls[0].id)], executed := state.executed + 1);
      CallsAreAnswered(world, next, calls[1..]);
      var after := Called(world, next, calls[1..]).state;
      var answers := after.messages[|next.messages|..];
      assert after.messages[|state.messages|..] == [Tool(result, calls[0].id)] + answers;
      FirstAnswer(Tool(result, calls[0].id), answers, calls);
    }
  }

  lemma FirstAnswer(answer: Message, answers: seq<Message>, calls: seq<ToolCall>)
    requires calls != [] && answer.Tool? && answer.callId == calls[0].id && AnswersTo(answers, calls[1..])
    ensures AnswersTo([answer] + answers, calls)
  {
    forall j | 0 < j < |calls|
      ensures ([answer] + answers)[j] == answers[j - 1] && calls[j] == calls[1..][j - 1]
    {
    }
  }

  lemma StepKeepsForm(world: World, isLast: bool, asking: State, heard: Heard, ending: Ending)
    requires WellFormed(asking.messages)
    ensures WellFormed(TakeStep(world, isLast, asking, heard, ending).state.messages)
  {
    if heard.response.Some? {
      var response := heard.response.value;
      var words, calls := WordsOf(heard), response.toolCalls;
      if calls == [] {
        hide WellFormed;
        var text := AnswerText(world, isLast, words);
        PlainMessageKeepsForm(asking.messages, Assistant(text, []));
        PlainMessageKeepsForm(asking.messages + [Assistant(text, [])], User(DEAD_END_MESSAGE));
      } else {
        var asked := Recorded(asking, words, response);
        var after := Called(world, asked, calls).state.messages;
        hide WellFormed, Called;
        CallsAreAnswered(world, asked, calls);
        ExchangeKeepsForm(asking.messages, words, calls, after[|asked.messages|..]);
        assert after == asked.messages + after[|asked.messages|..];
      }
    }
  }

  lemma AskingKeepsForm(state: State, isLast: bool)
    requires WellFormed(state.messages)
    ensures WellFormed(Asking(state, isLast).messages)
  {
    PlainMessageKeepsForm(state.messages, User(FINAL_INSTRUCTION));
  }

  /** The n-th request is well formed and offers tools unless it is the last the settings allow. */
  predicate IsProper(sent: Sent, n: int, maxSteps: int) {
    WellFormed(sent.messages) && sent.withTools == (n + 1 < maxSteps)
  }

  lemma {:induction false} RunKeepsForm(world: World, settings: Settings, step: nat, state: State, n: nat)
    requires WellFormed(state.messages) && n < |RunFrom(world, settings, step, state).sent|
    ensures IsProper(RunFrom(world, settings, step, state).sent[n], step + n, settings.maxSteps)
    decreases settings.maxSteps - step
  {
    var isLast := step + 1 == settings.maxSteps;
    var asking, heard := Asking(state, isLast), Hear(world.stream(step).pieces);
    var turn := TakeStep(world, isLast, asking, heard, world.stream(step).ending);
    hide WellFormed, Hear, TakeStep, Asking;
    AskingKeepsForm(state, isLast);
    if n > 0 {
      StepKeepsForm(world, isLast, asking, heard, world.stream(step).ending);
      assert turn.fate.None?;
      RunKeepsForm(world, settings, step + 1, turn.state, n - 1);
    }
  }

  /**
   Every request carries a well-formed transcript, the fallback's included. Only the
   last request the settings allow and the fallback's are sent without tools.
   */
  lemma RequestsAreWellFormed(world: World, settings: Settings, request: ChatRequest)
    ensures var sent := TalkAbout(world, settings, request).sent;
      && |sent| <= Max(0, settings.maxSteps) + 1
      && forall n :: 0 <= n < |sent| ==>
           WellFormed(sent[n].messages)
           && sent[n].withTools == (n < |WholeRun(world, settings, request).sent| && n + 1 < settings.maxSteps)
  {
    var talk, run := TalkAbout(world, settings, request), WholeRun(world, settings, request);
    var start := Start(world, settings, request);
    assert start.messages == Opening(world, settings, request) && run == RunFrom(world, settings, 0, start);
    OpeningIsWellFormed(world, settings, request, request.question);
    WholeRunEnds(world, settings, request);
    PresetIsWellFormed(world, settings, request, |run.sent|);
    assert talk.sent == [] || talk.sent == run.sent
        || talk.sent == run.sent + PresetTalk(world, settings, request, |run.sent|).sent;
    hide WellFormed, RunFrom, Start, PresetTalk, WholeRun, Opening, TalkAbout;
    forall n | 0 <= n < |talk.sent|
      ensures WellFormed(talk.sent[n].messages)
      ensures talk.sent[n].withTools == (n < |run.sent| && n + 1 < settings.maxSteps)
    {
      if n < |run.sent| {
        RunKeepsForm(world, settings, 0, start, n);
      }
    }
  }

  lemma PresetIsWellFormed(world: World, settings: Settings, request: ChatRequest, n: nat)
    ensures var sent := PresetTalk(world, settings, request, n).sent;
      |sent| <= 1 && (sent != [] ==> WellFormed(sent[0].messages) && !sent[0].withTools)
  {
    var found := if world.search.Some? then world.search.value else "";
    OpeningIsWellFormed(world, settings, request, request.question + "\n\n" + found);
    hide WellFormed, Opening, Hear;
  }

  // ---- spending ---------------------------------------------------------------------------------

  /** `spent` and the tokens of all these replies. */
  function Total(spent: ChatUsage, replies: seq<StreamedResponse>): ChatUsage
    decreases replies
  {
    if replies == [] then spent else Total(Plus(spent, replies[0]), replies[1..])
  }

  lemma {:induction false} CallingIsFree(world: World, state: State, calls: seq<ToolCall>)
    ensures var after := Called(world, state, calls).state;
      after.spent == state.spent && after.nudged == state.nudged
    decreases calls
  {
    if calls != [] {
      var result := world.execute(state.executed);
      var next := state.(messages := state.messages + [Tool(result, calls[0].id)], executed := state.executed + 1);
      CallingIsFree(world, next, calls[1..]);
    }
  }

  lemma StepSpends(world: World, isLast: bool, asking: State, heard: Heard, ending: Ending)
    requires heard.response.Some?
    ensures var turn, response := TakeStep(world, isLast, asking, heard, ending), heard.response.value;
      && turn.state.spent == Plus(asking.spent, response)
      && (turn.fate == Some(Answered) ==>
            && turn.events != [] && Last(turn.events).Answer?
            && Last(turn.events).model == response.model && Last(turn.events).usage == Plus(asking.spent, response))
  {
    var response := heard.response.value;
    var counted := Recorded(asking, WordsOf(heard), response);
    CallingIsFree(world, counted, response.toolCalls);
    CallingIsQuiet(world, counted, response.toolCalls);
    hide Called;
  }

  lemma {:induction false} RunSpends(world: World, settings: Settings, step: nat, state: State)
    requires RunFrom(world, settings, step, state).fate == Answered
    ensures var run := RunFrom(world, settings, step, state);
      && run.replies != [] && run.events != [] && Last(run.events).Answer?
      && Last(run.events).model == Last(run.replies).model
      && Last(run.events).usage == Total(state.spent, run.replies)
    decreases settings.maxSteps - step
  {
    var isLast := step + 1 == settings.maxSteps;
    var asking, heard := Asking(state, isLast), Hear(world.stream(step).pieces);
    var turn := TakeStep(world, isLast, asking, heard, world.stream(step).ending);
    var run := RunFrom(world, settings, step, state);
    assert heard.response.Some?;
    StepSpends(world, isLast, asking, heard, world.stream(step).ending);
    hide Hear, TakeStep;
    if turn.fate.None? {
      RunSpends(world, settings, step + 1, turn.state);
      var rest := RunFrom(world, settings, step + 1, turn.state);
      assert run.replies == [heard.response.value] + rest.replies && run.events == turn.events + rest.events;
    } else {
      assert run.replies == [heard.response.value] && run.events == turn.events;
    }
  }

  /**
   An answer names the model of the last reply and reports the tokens of every reply
   of the investigation. After an overflow it reports only the fallback's own reply:
   what the abandoned investigation spent is in no event.
   */
  lemma AnswerReportsSpending(world: World, settings: Settings, request: ChatRequest)
    requires request.hasNavigator
    ensures var talk, run := TalkAbout(world, settings, request), WholeRun(world, settings, request);
      && (run.fate == Answered ==>
            && talk.events != [] && run.replies != [] && Last(talk.events).Answer?
            && Last(talk.events).model == Last(run.replies).model
            && Last(talk.events).usage == Total(NOTHING_SPENT, run.replies))
      && (Overflowed(run.fate) && !talk.escaped ==>
            var reply := Hear(world.stream(|run.sent|).pieces).response;
            && talk.events != []
            && if reply.None? then Last(talk.events).Failed?
               else
                 && Last(talk.events).Answer? && Last(talk.events).model == reply.value.model
                 && Last(talk.events).usage == Total(NOTHING_SPENT, [reply.value]))
  {
    hide *;
    var run := WholeRun(world, settings, request);
    EventsOfTalk(world, settings, request);
    if run.fate == Answered {
      WholeRunSpends(world, settings, request);
      AnsweredIsNoOverflow(run.fate);
      LastOfConcat(Prologue(request), run.events);
      assert Prologue(request) + run.events + [] == Prologue(request) + run.events;
    } else if Overflowed(run.fate) && !TalkAbout(world, settings, request).escaped {
      PresetSpends(world, settings, request, |run.sent|);
      var preset := PresetTalk(world, settings, request, |run.sent|).events;
      LastIsKept(preset);
      LastOfConcat(Prologue(request) + run.events + [Note(Overflow)], WithoutNotes(preset));
    }
  }

  lemma LastOfConcat(a: seq<Event>, b: seq<Event>)
    requires b != []
    ensures a + b != [] && Last(a + b) == Last(b)
  {
  }

  lemma AnsweredIsNoOverflow(fate: Fate)
    requires fate == Answered
    ensures !Overflowed(fate)
  {
  }

  lemma WholeRunSpends(world: World, settings: Settings, request: ChatRequest)
    requires WholeRun(world, settings, request).fate == Answered
    ensures var run := WholeRun(world, settings, request);
      && run.replies != [] && run.events != [] && Last(run.events).Answer?
      && Last(run.events).model == Last(run.replies).model
      && Last(run.events).usage == Total(NOTHING_SPENT, run.replies)
  {
    hide RunFrom, Total;
    RunSpends(world, settings, 0, Start(world, settings, request));
  }

  lemma PresetSpends(world: World, settings: Settings, request: ChatRequest, n: nat)
    requires !PresetTalk(world, settings, request, n).escaped
    ensures var events, reply := PresetTalk(world, settings, request, n).events, Hear(world.stream(n).pieces).response;
      && events != [] && Last(events).IsEnding()
      && if reply.None? then Last(events).Failed?
         else
           && Last(events).Answer? && Last(events).model == reply.value.model
           && Last(events).usage == Total(NOTHING_SPENT, [reply.value])
  {
    hide Hear, Opening;
    var reply := Hear(world.stream(n).pieces).response;
    if reply.Some? {
      assert [reply.value][1..] == [];
    }
  }

  lemma {:induction false} LastIsKept(events: seq<Event>)
    requires events != [] && Last(events).IsEnding()
    ensures WithoutNotes(events) != [] && Last(WithoutNotes(events)) == Last(events)
  {
    if |events| > 1 {
      LastIsKept(events[1..]);
    }
  }

  // ---- tools ------------------------------------------------------------------------------------

  function Only(events: seq<Event>, keep: Event -> bool): seq<Event> {
    if events == [] then [] else (if keep(events[0]) then [events[0]] else []) + Only(events[1..], keep)
  }

  predicate IsToolEvent(event: Event) {
    event.ToolCalled? || event.ToolAnswered?
  }

  predicate IsNudge(event: Event) {
    event == Note(DeadEnd)
  }

  lemma {:induction false} OnlyConcat(a: seq<Event>, b: seq<Event>, keep: Event -> bool)
    ensures Only(a + b, keep) == Only(a, keep) + Only(b, keep)
  {
    if a == [] {
      assert a + b == b && [] + Only(b, keep) == Only(b, keep);
    } else {
      OnlyConcat(a[1..], b, keep);
      HeadAndTail(a, b);
      OnlyOfCons(a[0], a[1..] + b, keep);
      OnlyOfCons(a[0], a[1..], keep);
      hide Only;
      Associates(if keep(a[0]) then [a[0]] else [], Only(a[1..], keep), Only(b, keep));
    }
  }

  lemma OnlyOfCons(event: Event, rest: seq<Event>, keep: Event -> bool)
    ensures Only([event] + rest, keep) == (if keep(event) then [event] else []) + Only(rest, keep)
  {
    assert ([event] + rest)[1..] == rest;
  }

  lemma {:induction false} HearingIsPlain(pieces: seq<StreamPiece>)
    ensures Only(Hear(pieces).events, IsToolEvent) == [] && Only(Hear(pieces).events, IsNudge) == []
  {
    if pieces != [] && !pieces[0].Final? {
      HearingIsPlain(pieces[1..]);
      assert Hear(pieces).events[1..] == Hear(pieces[1..]).events;
    }
  }

  /** The events of these calls, executed one after another, the first being the `first`-th of all. */
  function Exchanges(world: World, calls: seq<ToolCall>, first: nat): seq<Event> {
    if calls == [] then []
    else
      [ToolCalled(calls[0]), ToolAnswered(calls[0], world.execute(first))]
      + Exchanges(world, calls[1..], first + 1)
  }

  /** The calls of all replies, in order. */
  function Requested(replies: seq<StreamedResponse>): seq<ToolCall> {
    if replies == [] then [] else replies[0].toolCalls + Requested(replies[1..])
  }

  lemma {:induction false} ExchangesConcat(world: World, a: seq<ToolCall>, b: seq<ToolCall>, first: nat)
    ensures Exchanges(world, a + b, first) == Exchanges(world, a, first) + Exchanges(world, b, first + |a|)
  {
    if a == [] {
      assert a + b == b;
    } else {
      ExchangesConcat(world, a[1..], b, first + 1);
      assert (a + b)[1..] == a[1..] + b;
    }
  }

  lemma {:induction false} CallingIsExchanging(world: World, state: State, calls: seq<ToolCall>)
    ensures var turn := Called(world, state, calls);
      && turn.events == Exchanges(world, calls, state.executed)
      && Only(turn.events, IsToolEvent) == turn.events && Only(turn.events, IsNudge) == []
      && turn.state.executed == state.executed + |calls|
    decreases calls
  {
    if calls != [] {
      var result := world.execute(state.executed);
      var next := state.(messages := state.messages + [Tool(result, calls[0].id)], executed := state.executed + 1);
      CallingIsExchanging(world, next, calls[1..]);
      var rest := Called(world, next, calls[1..]).events;
      var two := [ToolCalled(calls[0]), ToolAnswered(calls[0], result)];
      TwoToolEvents(calls[0], result);
      OnlyConcat(two, rest, IsToolEvent);
      OnlyConcat(two, rest, IsNudge);
      hide Only;
    }
  }

  lemma TwoToolEvents(call: ToolCall, result: string)
    ensures var two := [ToolCalled(call), ToolAnswered(call, result)];
      Only(two, IsToolEvent) == two && Only(two, IsNudge) == []
  {
    var two := [ToolCalled(call), ToolAnswered(call, result)];
    var second := [ToolAnswered(call, result)];
    assert two[1..] == second && second[1..] == [];
    assert Only(second, IsToolEvent) == second && Only(second, IsNudge) == [];
  }

  lemma StepExchanges(world: World, isLast: bool, asking: State, heard: Heard, ending: Ending)
    requires Only(heard.events, IsToolEvent) == [] && Only(heard.events, IsNudge) == []
    ensures var turn := TakeStep(world, isLast, asking, heard, ending);
      var calls := if heard.response.Some? then heard.response.value.toolCalls else [];
      && Only(turn.events, IsToolEvent) == Exchanges(world, calls, asking.executed)
      && turn.state.executed == asking.executed + |calls|
      && |Only(turn.events, IsNudge)| == (if turn.state.nudged && !asking.nudged then 1 else 0)
      && (asking.nudged ==> turn.state.nudged)
  {
    if heard.response.Some? {
      var response := heard.response.value;
      var counted := Recorded(asking, WordsOf(heard), response);
      var told := Respond(world, isLast, asking, WordsOf(heard), response);
      CallingIsExchanging(world, counted, response.toolCalls);
      CallingIsFree(world, counted, response.toolCalls);
      OnlyConcat(heard.events, told.events, IsToolEvent);
      OnlyConcat(heard.events, told.events, IsNudge);
      if response.toolCalls == [] {
        OnlyOfOne(told.events);
      }
      hide Only;
    }
  }

  lemma OnlyOfOne(events: seq<Event>)
    requires |events| == 1 && (events[0].Answer? || events[0] == Note(DeadEnd))
    ensures Only(events, IsToolEvent) == []
    ensures |Only(events, IsNudge)| == if events[0].Answer? then 0 else 1
  {
    assert events[1..] == [];
  }

  lemma ToolEventsOfBoth(
    world: World, told: seq<Event>, rest: seq<Event>, calls: seq<ToolCall>, more: seq<ToolCall>, first: nat)
    requires Only(told, IsToolEvent) == Exchanges(world, calls, first)
    requires Only(rest, IsToolEvent) == Exchanges(world, more, first + |calls|)
    ensures Only(told + rest, IsToolEvent) == Exchanges(world, calls + more, first)
    ensures |Only(told + rest, IsNudge)| == |Only(told, IsNudge)| + |Only(rest, IsNudge)|
  {
    hide Only, Exchanges;
    OnlyConcat(told, rest, IsToolEvent);
    OnlyConcat(told, rest, IsNudge);
    ExchangesConcat(world, calls, more, first);
  }

  /** One turn of a run, what it exchanged, and the rest of the run. */
  lemma FirstTurn(world: World, settings: Settings, step: nat, state: State)
    returns (turn: Turn, calls: seq<ToolCall>, rest: Run)
    requires step < settings.maxSteps
    ensures var run := RunFrom(world, settings, step, state);
      && run.events == turn.events + rest.events
      && Requested(run.replies) == calls + Requested(rest.replies)
    ensures rest == if turn.fate.Some? then Run([], [], [], turn.fate.value)
                    else RunFrom(world, settings, step + 1, turn.state)
    ensures Only(turn.events, IsToolEvent) == Exchanges(world, calls, state.executed)
    ensures turn.state.executed == state.executed + |calls|
    ensures |Only(turn.events, IsNudge)| == (if turn.state.nudged && !state.nudged then 1 else 0)
    ensures state.nudged ==> turn.state.nudged
  {
    var isLast, stream := step + 1 == settings.maxSteps, world.stream(step);
    var asking, heard := Asking(state, isLast), Hear(stream.pieces);
    turn := TakeStep(world, isLast, asking, heard, stream.ending);
    HearingIsPlain(stream.pieces);
    StepExchanges(world, isLast, asking, heard, stream.ending);
    calls := if heard.response.Some? then heard.response.value.toolCalls else [];
    rest := if turn.fate.Some? then Run([], [], [], turn.fate.value) else RunFrom(world, settings, step + 1, turn.state);
    hide Hear, TakeStep, Only, Exchanges;
    RequestedOfOption(heard.response, rest.replies);
  }

  lemma RequestedOfOption(reply: Option<StreamedResponse>, rest: seq<StreamedResponse>)
    ensures Requested((if reply.Some? then [reply.value] else []) + rest)
         == (if reply.Some? then reply.value.toolCalls else []) + Requested(rest)
  {
    if reply.Some? {
      assert ([reply.value] + rest)[1..] == rest;
    } else {
      assert [] + rest == rest && [] + Requested(rest) == Requested(rest);
    }
  }

  lemma NothingExchanged(world: World, first: nat)
    ensures Only([], IsToolEvent) == Exchanges(world, Requested([]), first) && Only([], IsNudge) == []
  {
  }

  lemma {:induction false} RunExchanges(world: World, settings: Settings, step: nat, state: State)
    ensures var run := RunFrom(world, settings, step, state);
      && Only(run.events, IsToolEvent) == Exchanges(world, Requested(run.replies), state.executed)
      && |Only(run.events, IsNudge)| <= if state.nudged then 0 else 1
    decreases settings.maxSteps - step
  {
    hide *;
    if step < settings.maxSteps {
      var turn, calls, rest := FirstTurn(world, settings, step, state);
      if turn.fate.None? {
        RunExchanges(world, settings, step + 1, turn.state);
      } else {
        NothingExchanged(world, turn.state.executed);
      }
      ToolEventsOfBoth(world, turn.events, rest.events, calls, Requested(rest.replies), state.executed);
    } else {
      NothingExchanged(world, state.executed);
      NoTurnsLeft(world, settings, step, state);
    }
  }

  lemma NoTurnsLeft(world: World, settings: Settings, step: nat, state: State)
    requires step >= settings.maxSteps
    ensures RunFrom(world, settings, step, state) == Run([], [], [], OutOfSteps)
  {
  }

  /** No event of a tool and no nudge. */
  predicate Plain(events: seq<Event>) {
    Only(events, IsToolEvent) == [] && Only(events, IsNudge) == []
  }

  lemma PlainOne(event: Event)
    requires !IsToolEvent(event) && !IsNudge(event)
    ensures Plain([event]) && Plain([])
  {
    assert [event][1..] == [];
  }

  lemma PlainAround(before: seq<Event>, events: seq<Event>, after: seq<Event>, keep: Event -> bool)
    requires Only(before, keep) == [] && Only(after, keep) == []
    ensures Only(before + events + after, keep) == Only(events, keep)
  {
    hide Only;
    OnlyConcat(before, events, keep);
    OnlyConcat(before + events, after, keep);
  }

  lemma PlainConcat(a: seq<Event>, b: seq<Event>)
    requires Plain(a) && Plain(b)
    ensures Plain(a + b)
  {
    hide Only;
    OnlyConcat(a, b, IsToolEvent);
    OnlyConcat(a, b, IsNudge);
  }

  lemma {:induction false} DroppingKeepsPlain(events: seq<Event>)
    requires Plain(events)
    ensures Plain(WithoutNotes(events))
  {
    if events != [] {
      DroppingKeepsPlain(events[1..]);
      if events[0].Note? {
        assert [] + WithoutNotes(events[1..]) == WithoutNotes(events[1..]);
      } else {
        PlainOne(events[0]);
        hide Plain, WithoutNotes;
        PlainConcat([events[0]], WithoutNotes(events[1..]));
      }
    }
  }

  lemma PrologueIsPlain(request: ChatRequest)
    ensures Plain(Prologue(request))
  {
    PlainOne(Note(WithoutTools));
    if request.revision != "" {
      PlainOne(Note(IndexRevision(request.revision[..Min(REVISION_CHARS, |request.revision|)])));
    }
    if request.document.Some? {
      PlainOne(Note(DocumentAttached(request.document.value.name)));
    }
    hide Plain;
    PlainConcat(
      if request.revision != "" then [Note(IndexRevision(request.revision[..Min(REVISION_CHARS, |request.revision|)]))]
      else [],
      if request.document.Some? then [Note(DocumentAttached(request.document.value.name))] else []);
  }

  lemma PresetIsPlain(world: World, settings: Settings, request: ChatRequest, n: nat)
    ensures Plain(PresetTalk(world, settings, request, n).events)
  {
    var talk := PresetTalk(world, settings, request, n);
    PlainOne(Note(WithoutTools));
    if !talk.escaped {
      HearingIsPlain(world.stream(n).pieces);
      PlainOne(Last(talk.events));
      var heard := Hear(world.stream(n).pieces).events;
      assert talk.events == [Note(WithoutTools)] + heard + [Last(talk.events)] && Plain(heard);
      hide Plain;
      PlainConcat([Note(WithoutTools)], heard);
      PlainConcat([Note(WithoutTools)] + heard, [Last(talk.events)]);
    }
  }

  lemma WholeRunExchanges(world: World, settings: Settings, request: ChatRequest)
    ensures var run := WholeRun(world, settings, request);
      && Only(run.events, IsToolEvent) == Exchanges(world, Requested(run.replies), 0)
      && |Only(run.events, IsNudge)| <= 1
  {
    RunExchanges(world, settings, 0, Start(world, settings, request));
    hide RunFrom, Only, Exchanges;
  }

  /** What a talk adds around its run is about no tool. */
  lemma SurroundingsArePlain(world: World, settings: Settings, request: ChatRequest) returns (after: seq<Event>)
    requires request.hasNavigator
    ensures Plain(Prologue(request)) && Plain(after)
    ensures TalkAbout(world, settings, request).events
         == Prologue(request) + WholeRun(world, settings, request).events + after
  {
    hide *;
    var run := WholeRun(world, settings, request);
    var preset := WithoutNotes(PresetTalk(world, settings, request, |run.sent|).events);
    PrologueIsPlain(request);
    EventsOfTalk(world, settings, request);
    PlainEndings(if run.fate.Broke? then run.fate.error else NoReply);
    if Overflowed(run.fate) {
      after := [Note(Overflow)] + preset;
      PresetIsPlain(world, settings, request, |run.sent|);
      DroppingKeepsPlain(PresetTalk(world, settings, request, |run.sent|).events);
      PlainConcat([Note(Overflow)], preset);
      Associates(Prologue(request) + run.events, [Note(Overflow)], preset);
    } else {
      after := if run.fate.Broke? then [Failed(run.fate.error)] else [];
    }
  }

  lemma PlainEndings(error: ChatError)
    ensures Plain([]) && Plain([Note(Overflow)]) && Plain([Failed(error)])
  {
    PlainOne(Note(Overflow));
    PlainOne(Failed(error));
  }

  /**
   The reader sees every call of every reply announced and then answered, in order,
   with the result of that execution, and nothing else about tools. An answer that
   gives up is sent back at most once.
   */
  lemma CallsAreShownInOrder(world: World, settings: Settings, request: ChatRequest)
    requires request.hasNavigator
    ensures var talk, run := TalkAbout(world, settings, request), WholeRun(world, settings, request);
      && Only(talk.events, IsToolEvent) == Exchanges(world, Requested(run.replies), 0)
      && |Only(talk.events, IsNudge)| <= 1
  {
    var run := WholeRun(world, settings, request);
    var after := SurroundingsArePlain(world, settings, request);
    hide TalkAbout, WholeRun, Only, Exchanges, Prologue;
    WholeRunExchanges(world, settings, request);
    PlainAround(Prologue(request), run.events, after, IsToolEvent);
    PlainAround(Prologue(request), run.events, after, IsNudge);
  }

  // ---- the answer itself ------------------------------------------------------------------------------

  lemma StepAnswers(world: World, isLast: bool, asking: State, heard: Heard, ending: Ending)
    requires TakeStep(world, isLast, asking, heard, ending).fate == Some(Answered)
    ensures heard.response.Some?
    ensures var events, answer := TakeStep(world, isLast, asking, heard, ending).events,
                AnswerText(world, isLast, WordsOf(heard));
      && events != [] && Last(events).Answer? && Last(events).answer == answer
      && (isLast ==> answer != "")
      && (isLast || asking.nudged || !world.isDeadEnd(answer))
  {
    var response := heard.response.value;
    CallingIsQuiet(
      world, Recorded(asking, WordsOf(heard), response), response.toolCalls);
  }

  /** The answer is made of the words of the last stream, and why it was let through. */
  ghost predicate IsGoodAnswer(world: World, settings: Settings, step: nat, nudged: bool, run: Run) {
    && run.sent != [] && run.events != [] && Last(run.events).Answer?
    && var last := step + |run.sent| - 1;
    var isLast, heard := last + 1 == settings.maxSteps, Hear(world.stream(last).pieces);
    && heard.response.Some?
    && Last(run.events).answer == AnswerText(world, isLast, WordsOf(heard))
    && (isLast ==> Last(run.events).answer != "")
    && (isLast || nudged || Only(run.events, IsNudge) != [] || !world.isDeadEnd(Last(run.events).answer))
  }

  lemma LongerGoodAnswer(
    world: World, settings: Settings, step: nat, before: bool, after: bool, turn: Turn, rest: Run, run: Run)
    requires IsGoodAnswer(world, settings, step + 1, after, rest)
    requires |run.sent| == |rest.sent| + 1 && run.events == turn.events + rest.events
    requires |Only(turn.events, IsNudge)| == (if after && !before then 1 else 0)
    ensures IsGoodAnswer(world, settings, step, before, run)
  {
    hide Only, Hear, AnswerText;
    OnlyConcat(turn.events, rest.events, IsNudge);
    LastOfConcat(turn.events, rest.events);
  }

  lemma {:induction false} AnswersAreGood(world: World, settings: Settings, step: nat, state: State)
    requires RunFrom(world, settings, step, state).fate == Answered
    ensures IsGoodAnswer(world, settings, step, state.nudged, RunFrom(world, settings, step, state))
    decreases settings.maxSteps - step
  {
    var run := RunFrom(world, settings, step, state);
    var isLast, stream := step + 1 == settings.maxSteps, world.stream(step);
    var asking, heard := Asking(state, isLast), Hear(stream.pieces);
    var turn := TakeStep(world, isLast, asking, heard, stream.ending);
    HearingIsPlain(stream.pieces);
    StepExchanges(world, isLast, asking, heard, stream.ending);
    if turn.fate.None? {
      var rest := RunFrom(world, settings, step + 1, turn.state);
      assert run.events == turn.events + rest.events && |run.sent| == |rest.sent| + 1 && rest.fate == Answered;
      hide RunFrom, TakeStep, Hear, Only, IsGoodAnswer;
      AnswersAreGood(world, settings, step + 1, turn.state);
      LongerGoodAnswer(world, settings, step, state.nudged, turn.state.nudged, turn, rest, run);
    } else {
      assert run.events == turn.events + [] == turn.events && run.sent == [Sent(asking.messages, !isLast)];
      hide RunFrom, TakeStep, Hear, Only, AnswerText;
      StepAnswers(world, isLast, asking, heard, stream.ending);
    }
  }

  /**
   An answer of the investigation is made of the words of its last stream, is never
   empty in the last step, and may give up only in the last step or after the agent
   was sent back once.
   */
  lemma AnswerIsNoDeadEnd(world: World, settings: Settings, request: ChatRequest)
    requires WholeRun(world, settings, request).fate == Answered
    ensures IsGoodAnswer(world, settings, 0, false, WholeRun(world, settings, request))
  {
    hide RunFrom, IsGoodAnswer;
    AnswersAreGood(world, settings, 0, Start(world, settings, request));
  }

  lemma {:induction false} SpokenIsPlain(world: World, history: seq<ChatMessage>)
    ensures forall m :: m in Spoken(world, history) <==> m in history && !m.role.FromTool? && !world.isBlank(m.content)
  {
    if history != [] {
      SpokenIsPlain(world, Init(history));
      assert history == Init(history) + [Last(history)];
    }
  }

  /**
   Of the history the model gets only what was said, the most recent of it, and not
   more than the limit; but a limit of zero lets everything through.
   */
  lemma RecentIsTheTail(world: World, settings: Settings, request: ChatRequest)
    ensures var recent, spoken, limit :=
                Recent(world, settings, request), Spoken(world, request.history), settings.historyLimit;
      && (forall m :: m in recent ==> m in request.history && !m.role.FromTool? && !world.isBlank(m.content))
      && |recent| <= |spoken| && recent == spoken[|spoken| - |recent|..]
      && (limit > 0 ==> |recent| == Min(limit, |spoken|))
      && (limit == 0 ==> recent == spoken)
  {
    SpokenIsPlain(world, request.history);
    hide Spoken;
  }

  // ---- the transcript -----------------------------------------------------------------------------------

  lemma {:induction false} CallingGrows(world: World, state: State, calls: seq<ToolCall>)
    ensures state.messages <= Called(world, state, calls).state.messages
    decreases calls
  {
    CallsAreAnswered(world, state, calls);
  }

  lemma StepGrows(world: World, isLast: bool, asking: State, heard: Heard, ending: Ending)
    ensures asking.messages <= TakeStep(world, isLast, asking, heard, ending).state.messages
  {
    if heard.response.Some? {
      var response := heard.response.value;
      var asked := Recorded(asking, WordsOf(heard), response);
      CallingGrows(world, asked, response.toolCalls);
      hide Called;
    }
  }

  lemma {:induction false} RunGrows(world: World, settings: Settings, step: nat, state: State, n: nat)
    requires n < |RunFrom(world, settings, step, state).sent|
    ensures var sent := RunFrom(world, settings, step, state).sent;
      && state.messages <= sent[n].messages
      && (n + 1 < |sent| ==> sent[n].messages <= sent[n + 1].messages)
      && (step + n + 1 == settings.maxSteps ==>
            sent[n].messages != [] && Last(sent[n].messages) == User(FINAL_INSTRUCTION))
    decreases settings.maxSteps - step
  {
    var isLast, stream := step + 1 == settings.maxSteps, world.stream(step);
    var asking, heard := Asking(state, isLast), Hear(stream.pieces);
    var turn := TakeStep(world, isLast, asking, heard, stream.ending);
    StepGrows(world, isLast, asking, heard, stream.ending);
    hide Hear, TakeStep;
    if turn.fate.None? {
      var rest := RunFrom(world, settings, step + 1, turn.state);
      if n > 0 {
        RunGrows(world, settings, step + 1, turn.state, n - 1);
      } else if rest.sent != [] {
        RunGrows(world, settings, step + 1, turn.state, 0);
      }
    }
  }

  /**
   A transcript only grows: it begins with the opening, every request carries the
   one before it, and the last request the settings allow ends with the instruction
   that it is the last.
   */
  lemma TranscriptGrows(world: World, settings: Settings, request: ChatRequest, n: nat)
    requires n < |WholeRun(world, settings, request).sent|
    ensures var sent := WholeRun(world, settings, request).sent;
      && Opening(world, settings, request) <= sent[n].messages
      && (n + 1 < |sent| ==> sent[n].messages <= sent[n + 1].messages)
      && (n + 1 == settings.maxSteps ==>
            sent[n].messages != [] && Last(sent[n].messages) == User(FINAL_INSTRUCTION))
  {
    hide RunFrom, Opening;
    RunGrows(world, settings, 0, Start(world, settings, request), n);
  }

  // ---- what the model sees of the tools --------------------------------------------------------------

  /** The texts of the tool messages. */
  function ToolTexts(messages: seq<Message>): seq<string> {
    if messages == [] then []
    else ToolTexts(Init(messages)) + if Last(messages).Tool? then [Last(messages).content] else []
  }

  lemma ToolTextsOfOneMore(messages: seq<Message>, message: Message)
    ensures ToolTexts(messages + [message]) == ToolTexts(messages) + if message.Tool? then [message.content] else []
  {
    assert Init(messages + [message]) == messages;
  }

  /** The transcript holds the results of all executions so far, unchanged and in order. */
  predicate HoldsResults(world: World, messages: seq<Message>, executed: nat) {
    ToolTexts(messages) == seq(executed, i requires 0 <= i => world.execute(i))
  }

  lemma PlainMessageHoldsResults(world: World, messages: seq<Message>, message: Message, executed: nat)
    requires HoldsResults(world, messages, executed) && !message.Tool?
    ensures HoldsResults(world, messages + [message], executed)
  {
    ToolTextsOfOneMore(messages, message);
    assert ToolTexts(messages) + [] == ToolTexts(messages);
  }

  lemma CallingUnfolds(world: World, state: State, calls: seq<ToolCall>)
    requires calls != []
    ensures var first := Tool(world.execute(state.executed), calls[0].id);
      var next := state.(messages := state.messages + [first], executed := state.executed + 1);
      Called(world, state, calls).state == Called(world, next, calls[1..]).state
  {
  }

  lemma OneMoreResult(world: World, messages: seq<Message>, id: string, executed: nat)
    requires HoldsResults(world, messages, executed)
    ensures HoldsResults(world, messages + [Tool(world.execute(executed), id)], executed + 1)
  {
    ToolTextsOfOneMore(messages, Tool(world.execute(executed), id));
  }

  lemma {:induction false} CallingHoldsResults(world: World, state: State, calls: seq<ToolCall>)
    requires HoldsResults(world, state.messages, state.executed)
    ensures var after := Called(world, state, calls).state;
      after.executed == state.executed + |calls| && HoldsResults(world, after.messages, after.executed)
    decreases calls
  {
    if calls != [] {
      var first := Tool(world.execute(state.executed), calls[0].id);
      var next := state.(messages := state.messages + [first], executed := state.executed + 1);
      CallingUnfolds(world, state, calls);
      hide HoldsResults, Called;
      OneMoreResult(world, state.messages, calls[0].id, state.executed);
      CallingHoldsResults(world, next, calls[1..]);
    }
  }

  lemma StepHoldsResults(world: World, isLast: bool, asking: State, heard: Heard, ending: Ending)
    requires HoldsResults(world, asking.messages, asking.executed)
    ensures var after := TakeStep(world, isLast, asking, heard, ending).state;
      && after.executed == asking.executed + (if heard.response.Some? then |heard.response.value.toolCalls| else 0)
      && HoldsResults(world, after.messages, after.executed)
  {
    hide HoldsResults;
    if heard.response.Some? {
      var response := heard.response.value;
      var words, calls := WordsOf(heard), response.toolCalls;
      if calls == [] {
        var text := AnswerText(world, isLast, words);
        PlainMessageHoldsResults(world, asking.messages, Assistant(text, []), asking.executed);
        PlainMessageHoldsResults(
          world, asking.messages + [Assistant(text, [])], User(DEAD_END_MESSAGE), asking.executed);
      } else {
        var asked := Recorded(asking, words, response);
        PlainMessageHoldsResults(world, asking.messages, Assistant(words, calls), asking.executed);
        CallingHoldsResults(world, asked, calls);
        hide Called;
      }
    }
  }

  lemma {:induction false} RunHoldsResults(world: World, settings: Settings, step: nat, state: State, n: nat)
    requires HoldsResults(world, state.messages, state.executed)
    requires n < |RunFrom(world, settings, step, state).sent|
    ensures var run := RunFrom(world, settings, step, state);
      && n <= |run.replies|
      && HoldsResults(world, run.sent[n].messages, state.executed + |Requested(run.replies[..n])|)
    decreases settings.maxSteps - step
  {
    hide HoldsResults, Hear, TakeStep;
    var isLast, stream := step + 1 == settings.maxSteps, world.stream(step);
    var asking, heard := Asking(state, isLast), Hear(stream.pieces);
    var turn := TakeStep(world, isLast, asking, heard, stream.ending);
    var run := RunFrom(world, settings, step, state);
    PlainMessageHoldsResults(world, state.messages, User(FINAL_INSTRUCTION), state.executed);
    if n == 0 {
      assert run.sent[0].messages == asking.messages && Requested(run.replies[..0]) == [];
    } else {
      assert turn.fate.None?;
      StepEndsKnown(world, isLast, asking, heard, stream.ending);
      StepHoldsResults(world, isLast, asking, heard, stream.ending);
      RunHoldsResults(world, settings, step + 1, turn.state, n - 1);
      var rest := RunFrom(world, settings, step + 1, turn.state);
      assert run.sent == [Sent(asking.messages, !isLast)] + rest.sent;
      assert run.replies == [heard.response.value] + rest.replies;
      assert run.replies[..n][1..] == rest.replies[..n - 1];
    }
  }

  lemma StepEndsKnown(world: World, isLast: bool, asking: State, heard: Heard, ending: Ending)
    requires TakeStep(world, isLast, asking, heard, ending).fate.None?
    ensures heard.response.Some?
  {
  }

  lemma {:induction false} HistoryHasNoResults(world: World, messages: seq<Message>, history: seq<ChatMessage>)
    requires HoldsResults(world, messages, 0)
    ensures HoldsResults(world, messages + ToMessages(history), 0)
  {
    if history == [] {
      assert messages + [] == messages;
    } else {
      HistoryHasNoResults(world, messages, Init(history));
      hide HoldsResults;
      PlainMessageHoldsResults(world, messages + ToMessages(Init(history)), Last(ToMessages(history)), 0);
      assert messages + ToMessages(history)
          == messages + ToMessages(Init(history)) + [Last(ToMessages(history))];
    }
  }

  lemma NothingHoldsResults(world: World)
    ensures HoldsResults(world, [], 0)
  {
  }

  lemma PromptHasNoResults(world: World, request: ChatRequest)
    ensures HoldsResults(world, Prompt(world, request), 0)
  {
    hide *;
    NothingHoldsResults(world);
    var first := ShapeOfPrompt(world, request);
    PlainMessageHoldsResults(world, [], first, 0);
    if request.document.Some? {
      PlainMessageHoldsResults(world, [] + [first], System(world.describe(request.document.value)), 0);
    }
  }

  lemma OpeningHasNoResults(world: World, settings: Settings, request: ChatRequest)
    ensures HoldsResults(world, Opening(world, settings, request), 0)
  {
    hide HoldsResults, ToMessages, Recent, Prompt;
    var prompt, recent := Prompt(world, request), Recent(world, settings, request);
    PromptHasNoResults(world, request);
    HistoryHasNoResults(world, prompt, recent);
    PlainMessageHoldsResults(world, prompt + ToMessages(recent), User(request.question), 0);
  }

  /**
   What the model is shown is what the reader is shown: the n-th request holds the
   results of all calls of the earlier replies, unchanged and in order, and no others.
   */
  lemma RequestsHoldAllResults(world: World, settings: Settings, request: ChatRequest, n: nat)
    requires n < |WholeRun(world, settings, request).sent|
    ensures var run := WholeRun(world, settings, request);
      n <= |run.replies| && HoldsResults(world, run.sent[n].messages, |Requested(run.replies[..n])|)
  {
    hide HoldsResults, RunFrom, Opening;
    OpeningHasNoResults(world, settings, request);
    RunHoldsResults(world, settings, 0, Start(world, settings, request), n);
  }

  // ---- over the failover client --------------------------------------------------------------------

  predicate Unfinished(pieces: seq<StreamPiece>) {
    forall piece :: piece in pieces ==> !piece.Final?
  }

  lemma {:induction false} HearingAll(pieces: seq<StreamPiece>, response: Option<StreamedResponse>)
    requires Unfinished(pieces)
    ensures var heard := Hear(pieces + if response.Some? then [Final(response.value)] else []);
      heard.said == FailoverRuns.Spoken(pieces) && heard.response == response
  {
    var end := if response.Some? then [Final(response.value)] else [];
    if pieces == [] {
      assert [] + end == end;
    } else {
      hide FailoverRuns.Spoken;
      assert pieces[0] in pieces && Unfinished(pieces[1..]);
      hide Unfinished;
      HearingAll(pieces[1..], response);
      FailoverRuns.SpokenOne(pieces[0]);
      FailoverRuns.SpokenConcat([pieces[0]], pieces[1..]);
      HeadAndTail(pieces, end);
      assert (pieces + end)[1..] == pieces[1..] + end;
    }
  }

  lemma {:induction false} NoticesAreUnfinished(order: seq<Router.ModelChoice>, attempts: nat -> Attempt, n: nat)
    requires n < |order| && AllRefused(attempts, n)
    ensures Unfinished(Notices(order, attempts, n))
  {
    hide RefusedSilently;
    if n > 0 {
      NoticesAreUnfinished(order, attempts, n - 1);
    }
  }

  lemma TextsAreUnfinished(chunks: seq<Chunk>)
    ensures Unfinished(Texts(chunks))
  {
    FailoverRuns.TextsAreTexts(chunks);
    hide Texts;
  }

  lemma UnfinishedConcat(a: seq<StreamPiece>, b: seq<StreamPiece>)
    requires Unfinished(a) && Unfinished(b)
    ensures Unfinished(a + b)
  {
  }

  /** A stream of the failover client is words and notices, and then its response if it completed. */
  lemma ShapeOfStream(
    order: seq<Router.ModelChoice>, attempts: nat -> Attempt, pieces: seq<StreamPiece>, ending: Ending, refused: nat)
    returns (words: seq<StreamPiece>)
    requires IsStream(order, attempts, pieces, ending, refused)
    ensures Unfinished(words)
    ensures pieces == words + if ending == Completed then [Last(pieces)] else []
    ensures ending == Completed ==> Last(pieces).Final?
  {
    var replaced := if refused < |order| then refused else refused - 1;
    words := Notices(order, attempts, replaced);
    NoticesAreUnfinished(order, attempts, replaced);
    if refused < |order| {
      var notices, texts := words, Texts(attempts(refused).chunks);
      TextsAreUnfinished(attempts(refused).chunks);
      words := notices + texts;
      hide Notices, Texts, AbsorbAll, FinishOf, RefusedSilently, Unfinished, AllRefused;
      UnfinishedConcat(notices, texts);
      Associates(notices, texts, if ending == Completed then [Last(pieces)] else []);
    }
    assert words + [] == words;
  }

  /**
   Over the failover client a stream that completes is heard to its end: the tokens
   shown for it spell exactly the content of its response, so the words an answer is
   made from never mix two models. A stream that fails brings no response, and the
   failure reported is the client's own.
   */
  lemma WhatIsHeardIsOneModel(
    order: seq<Router.ModelChoice>, attempts: nat -> Attempt, pieces: seq<StreamPiece>, ending: Ending, refused: nat)
    requires IsStream(order, attempts, pieces, ending, refused)
    ensures var heard := Hear(pieces);
      if ending == Completed then
        && refused < |order|
        && heard.response == Some(FinishOf(AbsorbAll(attempts(refused).chunks), order[refused]))
        && heard.said == heard.response.value.content && WordsOf(heard) == heard.said
      else
        heard.response.None? && ErrorAfter(ending) == FromModel(ending.error)
  {
    hide IsStream, AbsorbAll, FinishOf, FailoverRuns.Spoken, Hear, Unfinished;
    var words := ShapeOfStream(order, attempts, pieces, ending, refused);
    if ending == Completed {
      FailoverRuns.CompletedStreamHasOneVoice(order, attempts, pieces, ending, refused);
      var final := Last(pieces);
      HearingAll(words, Some(final.response));
      assert final == Final(final.response);
      FailoverRuns.SpokenConcat(words, [final]);
      FailoverRuns.SpokenOne(final);
      assert FailoverRuns.Spoken(words) + "" == FailoverRuns.Spoken(words);
    } else {
      HearingAll(words, None);
    }
  }
}
