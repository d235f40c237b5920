/**
 The chat agent: it answers a question by a stream of events, investigating with
 tools while it has steps, and falls back to an answer from one search when the
 dialogue no longer fits. The model, the tools and the search are arbitrary.
 */
module ChatAgent {
  import opened Prelude
  import opened Dialogue
  import opened StreamCollector
  import opened Failover

  const FINAL_INSTRUCTION := "this is your last turn: the tools are gone"
  const DEAD_END_MESSAGE := "do the lookup yourself instead"
  const OUT_OF_STEPS := "I ran out of steps"
  const SYSTEM_PROMPT := "answer questions about the code"
  const REVISION_CHARS := 12

  datatype ChatUsage = ChatUsage(inputTokens: int, outputTokens: int)

  const NOTHING_SPENT := ChatUsage(0, 0)

  function Plus(spent: ChatUsage, response: StreamedResponse): ChatUsage {
    ChatUsage(spent.inputTokens + response.usage.inputTokens, spent.outputTokens + response.usage.outputTokens)
  }

  datatype Role = FromUser | FromAssistant | FromTool

  datatype ChatMessage = ChatMessage(role: Role, content: string)

  datatype Document = Document(name: string, text: string)

  datatype ChatRequest = ChatRequest(
    question: string,
    history: seq<ChatMessage>,
    revision: string,
    document: Option<Document>,
    hasNavigator: bool)

  datatype Settings = Settings(maxSteps: int, historyLimit: int)

  /** What one request to the model brings: pieces, and how the stream ends if it runs dry. */
  datatype Stream = Stream(pieces: seq<StreamPiece>, ending: Ending)

  /**
   Everything the agent does not decide: the n-th stream, the text of the n-th tool
   result, the one search of the fallback, which may fail, and the text functions.
   */
  datatype World = World(
    stream: nat -> Stream,
    execute: nat -> string,
    search: Option<string>,
    isBlank: string -> bool,
    describe: Document -> string,
    clean: string -> string,
    isDeadEnd: string -> bool)

  datatype ChatError = FromModel(error: StreamError) | NoReply

  datatype NoteKind =
    | IndexRevision(revision: string)
    | DocumentAttached(name: string)
    | WithoutTools
    | Overflow
    | DeadEnd
    | ModelReplaced(refused: string, failure: Failure, next: string)

  datatype Event =
    | Note(note: NoteKind)
    | Token(text: string)
    | ToolCalled(call: ToolCall)
    | ToolAnswered(call: ToolCall, result: string)
    | Answer(answer: string, model: string, usage: ChatUsage)
    | Failed(error: ChatError)
  {
    predicate IsEnding() {
      Answer? || Failed?
    }
  }

  // ---- the opening ---------------------------------------------------------------------

  function Spoken(world: World, history: seq<ChatMessage>): seq<ChatMessage> {
    if history == [] then []
    else
      Spoken(world, Init(history))
      + if Last(history).role.FromTool? || world.isBlank(Last(history).content) then [] else [Last(history)]
  }

  /** `s[-limit:]`: a limit of zero keeps everything, a negative one drops from the front. */
  function TailOf<T>(s: seq<T>, limit: int): seq<T> {
    s[if limit > 0 then Max(0, |s| - limit) else Min(-limit, |s|)..]
  }

  function ToMessages(history: seq<ChatMessage>): seq<Message> {
    if history == [] then []
    else
      ToMessages(Init(history))
      + [if Last(history).role.FromUser? then User(Last(history).content) else Assistant(Last(history).content, [])]
  }

  function Prompt(world: World, request: ChatRequest): seq<Message> {
    [System(SYSTEM_PROMPT)]
    + if request.document.Some? then [System(world.describe(request.document.value))] else []
  }

  function Recent(world: World, settings: Settings, request: ChatRequest): seq<ChatMessage> {
    TailOf(Spoken(world, request.history), settings.historyLimit)
  }

  function Opening(world: World, settings: Settings, request: ChatRequest): (messages: seq<Message>)
    ensures messages != [] && Last(messages) == User(request.question)
  {
    Prompt(world, request) + ToMessages(Recent(world, settings, request)) + [User(request.question)]
  }

  // ---- one stream ----------------------------------------------------------------------

  /** What is taken from a stream up to its response: events, the words, and the response if it came. */
  datatype Heard = Heard(events: seq<Event>, said: string, response: Option<StreamedResponse>)

  function EventOf(piece: StreamPiece): Event
    requires !piece.Final?
  {
    match piece
    case Text(text) => Token(text)
    case Notice(refused, failure, next) => Note(ModelReplaced(refused, failure, next))
  }

  function Hear(pieces: seq<StreamPiece>): Heard {
    if pieces == [] then Heard([], "", None)
    else if pieces[0].Final? then Heard([], "", Some(pieces[0].response))
    else
      var rest := Hear(pieces[1..]);
      Heard(
        [EventOf(pieces[0])] + rest.events,
        (if pieces[0].Text? then pieces[0].text else "") + rest.said,
        rest.response)
  }

  function ErrorAfter(ending: Ending): ChatError {
    match ending
    case Completed => NoReply
    case Raised(error) => FromModel(error)
  }

  function WordsOf(heard: Heard): string
    requires heard.response.Some?
  {
    if heard.said != "" then heard.said else heard.response.value.content
  }

  // ---- one step ------------------------------------------------------------------------

  datatype State = State(messages: seq<Message>, spent: ChatUsage, nudged: bool, executed: nat)

  datatype Fate = Answered | OutOfSteps | Broke(error: ChatError)

  /** One step: its events, the state behind it, and the fate of the run if it is decided. */
  datatype Turn = Turn(events: seq<Event>, state: State, fate: Option<Fate>)

  function Called(world: World, state: State, calls: seq<ToolCall>): Turn
    decreases calls
  {
    if calls == [] then Turn([], state, None)
    else
      var result := world.execute(state.executed);
      var after := state.(messages := state.messages + [Tool(result, calls[0].id)], executed := state.executed + 1);
      var rest := Called(world, after, calls[1..]);
      rest.(events := [ToolCalled(calls[0]), ToolAnswered(calls[0], result)] + rest.events)
  }

  /** The words without calls printed as text; if nothing remains, an excuse in the last step, the words before it. */
  function AnswerText(world: World, isLast: bool, words: string): string {
    var cleaned := world.clean(words);
    if cleaned != "" then cleaned else if isLast then OUT_OF_STEPS else words
  }

  /** The state with a reply counted and taken into the transcript. */
  function Recorded(state: State, words: string, response: StreamedResponse): State {
    state.(
      spent := Plus(state.spent, response),
      messages := state.messages + [Assistant(words, response.toolCalls)])
  }

  function Respond(world: World, isLast: bool, state: State, words: string, response: StreamedResponse): Turn {
    var counted := state.(spent := Plus(state.spent, response));
    if response.toolCalls == [] then
      var text := AnswerText(world, isLast, words);
      if !isLast && !state.nudged && world.isDeadEnd(text) then
        var messages := state.messages + [Assistant(text, [])] + [User(DEAD_END_MESSAGE)];
        Turn([Note(DeadEnd)], counted.(messages := messages, nudged := true), None)
      else
        Turn([Answer(text, response.model, counted.spent)], counted, Some(Answered))
    else
      Called(world, Recorded(state, words, response), response.toolCalls)
  }

  /** The state a step asks in: the last one is told that it is the last. */
  function Asking(state: State, isLast: bool): State {
    if isLast then state.(messages := state.messages + [User(FINAL_INSTRUCTION)]) else state
  }

  /** What a step makes of what it heard. */
  function TakeStep(world: World, isLast: bool, asking: State, heard: Heard, ending: Ending): Turn {
    if heard.response.None? then
      Turn(heard.events, asking, Some(Broke(ErrorAfter(ending))))
    else
      var turn := Respond(world, isLast, asking, WordsOf(heard), heard.response.value);
      turn.(events := heard.events + turn.events)
  }

  // ---- one investigation ------------------------------------------------------------------

  /** A request as sent; the tools are withheld from the last one. */
  datatype Sent = Sent(messages: seq<Message>, withTools: bool)

  datatype Run = Run(events: seq<Event>, sent: seq<Sent>, replies: seq<StreamedResponse>, fate: Fate)

  function RunFrom(world: World, settings: Settings, step: nat, state: State): Run
    decreases settings.maxSteps - step
  {
    if step >= settings.maxSteps then Run([], [], [], OutOfSteps)
    else
      var isLast := step + 1 == settings.maxSteps;
      var asking, heard := Asking(state, isLast), Hear(world.stream(step).pieces);
      var turn := TakeStep(world, isLast, asking, heard, world.stream(step).ending);
      var rest :=
        if turn.fate.Some? then Run([], [], [], turn.fate.value) else RunFrom(world, settings, step + 1, turn.state);
      Run(
        turn.events + rest.events,
        [Sent(asking.messages, !isLast)] + rest.sent,
        (if heard.response.Some? then [heard.response.value] else []) + rest.replies,
        rest.fate)
  }

  function Start(world: World, settings: Settings, request: ChatRequest): State {
    State(Opening(world, settings, request), NOTHING_SPENT, false, 0)
  }

  function WholeRun(world: World, settings: Settings, request: ChatRequest): Run {
    RunFrom(world, settings, 0, Start(world, settings, request))
  }

  // ---- the answer ----------------------------------------------------------------------------

  /** Everything a question led to; `escaped` when an error left the agent instead of becoming an event. */
  datatype Talk = Talk(events: seq<Event>, sent: seq<Sent>, escaped: bool)

  /** The fallback: one search by the question, one request without tools, its `n`-th stream. */
  function PresetTalk(world: World, settings: Settings, request: ChatRequest, n: nat): Talk {
    if request.hasNavigator && world.search.None? then Talk([Note(WithoutTools)], [], true)
    else
      var opening, heard := Opening(world, settings, request), Hear(world.stream(n).pieces);
      var messages :=
        if request.hasNavigator then Init(opening) + [User(request.question + "\n\n" + world.search.value)]
        else opening;
      var ending :=
        if heard.response.None? then Failed(ErrorAfter(world.stream(n).ending))
        else Answer(WordsOf(heard), heard.response.value.model, Plus(NOTHING_SPENT, heard.response.value));
      Talk([Note(WithoutTools)] + heard.events + [ending], [Sent(messages, false)], false)
  }

  function WithoutNotes(events: seq<Event>): seq<Event> {
    if events == [] then []
    else (if events[0].Note? then [] else [events[0]]) + WithoutNotes(events[1..])
  }

  function Prologue(request: ChatRequest): seq<Event> {
    (if request.revision != "" then
       [Note(IndexRevision(request.revision[..Min(REVISION_CHARS, |request.revision|)]))]
     else [])
    + if request.document.Some? then [Note(DocumentAttached(request.document.value.name))] else []
  }

  predicate Overflowed(fate: Fate) {
    fate.Broke? && fate.error.FromModel? && fate.error.error.ContextOverflow?
  }

  function TalkAbout(world: World, settings: Settings, request: ChatRequest): Talk {
    var prologue := Prologue(request);
    if !request.hasNavigator then Talk(prologue, [], false)
    else
      var run := WholeRun(world, settings, request);
      if Overflowed(run.fate) then
        var preset := PresetTalk(world, settings, request, |run.sent|);
        Talk(
          prologue + run.events + [Note(Overflow)] + WithoutNotes(preset.events), run.sent + preset.sent,
          preset.escaped)
      else if run.fate.Broke? then
        Talk(prologue + run.events + [Failed(run.fate.error)], run.sent, false)
      else
        Talk(prologue + run.events, run.sent, false)
  }

  // ---- the agent itself ---------------------------------------------------------------------

  method Listen(pieces: seq<StreamPiece>) returns (events: seq<Event>, said: string, response: Option<StreamedResponse>)
    ensures Heard(events, said, response) == Hear(pieces)
  {
    events, said, response := [], "", None;
    assert pieces[0..] == pieces && [] + Hear(pieces).events == Hear(pieces).events;
    assert "" + Hear(pieces).said == Hear(pieces).said;
    for i := 0 to |pieces|
      invariant response.None?
      invariant Hear(pieces) == var rest := Hear(pieces[i..]); Heard(events + rest.events, said + rest.said, rest.response)
    {
      HearStep(pieces, i, events, said);
      if pieces[i].Final? {
        response := Some(pieces[i].response);
        return;
      }
      if pieces[i].Text? {
        said := said + pieces[i].text;
      }
      events := events + [EventOf(pieces[i])];
    }
  }

  lemma HearStep(pieces: seq<StreamPiece>, i: nat, events: seq<Event>, said: string)
    requires i < |pieces|
    ensures var here, rest := Hear(pieces[i..]), Hear(pieces[i + 1..]);
      if pieces[i].Final? then
        here.response == Some(pieces[i].response) && events + here.events == events && said + here.said == said
      else
        && here.response == rest.response
        && events + here.events == events + [EventOf(pieces[i])] + rest.events
        && said + here.said == said + (if pieces[i].Text? then pieces[i].text else "") + rest.said
  {
    assert pieces[i..][1..] == pieces[i + 1..];
  }

  method RunTools(world: World, state: State, calls: seq<ToolCall>) returns (events: seq<Event>, after: State)
    ensures Turn(events, after, None) == Called(world, state, calls)
  {
    events, after := [], state;
    assert calls[0..] == calls && [] + Called(world, state, calls).events == Called(world, state, calls).events;
    for i := 0 to |calls|
      invariant Called(world, state, calls)
             == var rest := Called(world, after, calls[i..]); rest.(events := events + rest.events)
    {
      var call := calls[i];
      assert calls[i..][1..] == calls[i + 1..];
      events := events + [ToolCalled(call)];
      var result := world.execute(after.executed);
      events := events + [ToolAnswered(call, result)];
      after := after.(messages := after.messages + [Tool(result, call.id)], executed := after.executed + 1);
    }
  }

  /** The run so far, before what is still to come. */
  function Before(run: Run, rest: Run): Run {
    Run(run.events + rest.events, run.sent + rest.sent, run.replies + rest.replies, rest.fate)
  }

  /** The run so far with one more step. */
  function WithStep(run: Run, turn: Turn, sent: Sent, heard: Heard): Run {
    Before(run, Run(turn.events, [sent], if heard.response.Some? then [heard.response.value] else [], run.fate))
  }

  lemma RunStep(world: World, settings: Settings, step: nat, state: State, run: Run)
    requires step < settings.maxSteps
    ensures var isLast := step + 1 == settings.maxSteps;
      var asking, heard := Asking(state, isLast), Hear(world.stream(step).pieces);
      var turn := TakeStep(world, isLast, asking, heard, world.stream(step).ending);
      var longer := WithStep(run, turn, Sent(asking.messages, !isLast), heard);
      Before(run, RunFrom(world, settings, step, state))
      == if turn.fate.Some? then longer.(fate := turn.fate.value)
         else Before(longer, RunFrom(world, settings, step + 1, turn.state))
  {
    hide TakeStep, Hear, Asking;
  }

  method Investigate(world: World, settings: Settings, request: ChatRequest)
    returns (events: seq<Event>, fate: Fate, steps: nat, ghost sent: seq<Sent>)
    ensures var run := WholeRun(world, settings, request);
      events == run.events && fate == run.fate && sent == run.sent && steps == |sent|
  {
    var state := Start(world, settings, request);
    events, steps, sent := [], 0, [];
    ghost var run := Run([], [], [], OutOfSteps);
    ghost var whole := WholeRun(world, settings, request);
    assert Before(run, whole) == whole;
    hide RunFrom, TakeStep, Hear, Respond, Called, Start;
    while steps < settings.maxSteps
      invariant steps == |sent| && sent == run.sent && events == run.events && run.fate == OutOfSteps
      invariant whole == Before(run, RunFrom(world, settings, steps, state))
    {
      var isLast := steps + 1 == settings.maxSteps;
      var stream := world.stream(steps);
      RunStep(world, settings, steps, state, run);
      state := Asking(state, isLast);
      sent := sent + [Sent(state.messages, !isLast)];
      var heard, said, response := Listen(stream.pieces);
      ghost var turn := TakeStep(world, isLast, state, Hear(stream.pieces), stream.ending);
      run := WithStep(run, turn, Last(sent), Hear(stream.pieces));
      steps := steps + 1;
      var told, fateNow;
      told, state, fateNow := Step(world, isLast, state, heard, said, response, stream.ending);
      events := events + told;
      if fateNow.Some? {
        fate := fateNow.value;
        run := run.(fate := fate);
        return;
      }
    }
    fate := OutOfSteps;
    NoStepsLeft(world, settings, steps, state, run);
  }

  lemma NoStepsLeft(world: World, settings: Settings, step: nat, state: State, run: Run)
    requires step >= settings.maxSteps && run.fate == OutOfSteps
    ensures Before(run, RunFrom(world, settings, step, state)) == run
  {
  }

  method Step(world: World, isLast: bool, asking: State, heard: seq<Event>, said: string,
              response: Option<StreamedResponse>, ending: Ending)
    returns (events: seq<Event>, state: State, fate: Option<Fate>)
    ensures Turn(events, state, fate) == TakeStep(world, isLast, asking, Heard(heard, said, response), ending)
  {
    if response.None? {
      return heard, asking, Some(Broke(ErrorAfter(ending)));
    }
    var words := if said != "" then said else response.value.content;
    state := asking.(spent := Plus(asking.spent, response.value));
    if response.value.toolCalls == [] {
      var text := world.clean(words);
      if text == "" {
        text := if isLast then OUT_OF_STEPS else words;
      }
      if !isLast && !state.nudged && world.isDeadEnd(text) {
        var messages := state.messages + [Assistant(text, [])] + [User(DEAD_END_MESSAGE)];
        return heard + [Note(DeadEnd)], state.(messages := messages, nudged := true), None;
      }
      return heard + [Answer(text, response.value.model, state.spent)], state, Some(Answered);
    }
    state := state.(messages := state.messages + [Assistant(words, response.value.toolCalls)]);
    var told;
    told, state := RunTools(world, state, response.value.toolCalls);
    events, fate := heard + told, None;
  }

  method PresetAnswer(world: World, settings: Settings, request: ChatRequest, n: nat)
    returns (events: seq<Event>, escaped: bool, ghost sent: seq<Sent>)
    ensures Talk(events, sent, escaped) == PresetTalk(world, settings, request, n)
  {
    hide Opening, Hear;
    events, escaped, sent := [Note(WithoutTools)], false, [];
    var messages := Opening(world, settings, request);
    if request.hasNavigator {
      if world.search.None? {
        escaped := true;
        return;
      }
      ReplaceLast(messages, User(request.question + "\n\n" + world.search.value));
      messages := messages[|messages| - 1 := User(request.question + "\n\n" + world.search.value)];
    }
    sent := [Sent(messages, false)];
    var heard, said, response := Listen(world.stream(n).pieces);
    var ending := if response.None? then Failed(ErrorAfter(world.stream(n).ending))
    else Answer(
        if said != "" then said else response.value.content,
        response.value.model, Plus(NOTHING_SPENT, response.value));
    events := events + heard + [ending];
  }

  lemma ReplaceLast(messages: seq<Message>, message: Message)
    requires messages != []
    ensures messages[|messages| - 1 := message] == Init(messages) + [message]
  {
  }

  method AnswerQuestion(world: World, settings: Settings, request: ChatRequest)
    returns (events: seq<Event>, escaped: bool, ghost sent: seq<Sent>)
    ensures Talk(events, sent, escaped) == TalkAbout(world, settings, request)
  {
    hide WholeRun, PresetTalk;
    events, escaped, sent := [], false, [];
    if request.revision != "" {
      events := [Note(IndexRevision(request.revision[..Min(REVISION_CHARS, |request.revision|)]))];
    }
    if request.document.Some? {
      events := events + [Note(DocumentAttached(request.document.value.name))];
    }
    assert events == Prologue(request);
    if !request.hasNavigator {
      return;
    }
    var found, fate, steps;
    found, fate, steps, sent := Investigate(world, settings, request);
    events := events + found;
    if fate.Broke? {
      if Overflowed(fate) {
        var preset;
        ghost var again;
        preset, escaped, again := PresetAnswer(world, settings, request, steps);
        sent := sent + again;
        var kept := DropNotes(preset);
        events := events + [Note(Overflow)] + kept;
      } else {
        events := events + [Failed(fate.error)];
      }
    }
  }

  method DropNotes(events: seq<Event>) returns (kept: seq<Event>)
    ensures kept == WithoutNotes(events)
  {
    kept := [];
    for i := 0 to |events|
      invariant WithoutNotes(events) == kept + WithoutNotes(events[i..])
    {
      assert events[i..][1..] == events[i + 1..];
      if !events[i].Note? {
        kept := kept + [events[i]];
      }
    }
  }
}
