# Verification of the ducktective core

This project models the in-process logic of the ducktective code review platform in
Dafny and proves what that logic keeps. Models, tools, searches, parsers of text and
clocks are arbitrary parameters, so every statement holds whatever they answer.

Four clusters are modelled.

* **The journal tail** (`LogFile`, `Splitting`, `Utf8Lines`). A file is read from its end
  in blocks by a generator with state; a filter on top of it stops early. It is proved to
  agree with splitting, filtering and cutting the whole file.
* **Conversations with models** (`Dialogue`, `Reviewer`, `ReviewerRuns`, `ChatAgent`,
  `ChatAgentRuns`, `StreamCollector`, `Fragmentation`, `Failover`, `FailoverRuns`, `Router`,
  `Search`, `ReviewerTranscript`, `ChatTranscript`). The loops are imperative methods proved against specifications of whole runs: every request
  message by message and every event, well-formed transcripts, bounds, calls executed once, one voice per streamed answer, one ending per
  chat answer, and the egress policy.
* **Chunking and tree walks** (`Tokens`, `TextChunks`, `Chunking`, `ModuleCode`,
  `SyntaxTree`, `Definitions`, `NestedDefinitions`, `SymbolForest`, `SymbolUniqueness`,
  `DefinitionsByKind`, `Ownership`, `OwnBody`). A syntax tree is a datatype with spans; a node is identified by its path.
  Of the grammar only the span laws are assumed: children lie inside their parent, one
  after another.
* **The key cache** (`KeyCache`). A small timed state machine.

An object whose methods change its fields is a class here as well (`ReverseLines`,
`Collector`, `LiteLlmClient`, `OidcIdentityVerifier`); loops are loops, and their methods
are tied by `ensures` to functions whose properties the lemmas state. Beside the main ones
stand statements of the results in terms of the inputs alone, which do not use those
functions (`LogFile.ShowsTail`, `FailoverRuns.HowAStreamEnds`, `ReviewerTranscript`,
`ChatTranscript`, `DefinitionsByKind` and others).

To check everything: `dafny verify dfyconfig.toml`.

## Where the code and its documentation differ

The model follows the code.

* `LogTail.truncated` is documented as "more matches exist earlier"; it is also set when
  exactly `limit` lines match (`LogFile.TailRecords` states when).
* `_merge_small` guards a sum of rounded estimates, so a merged fragment can reach 513
  tokens (`Chunking.MergedIsBounded`, `Chunking.MergedReachesTheBound`).
* `_flush` is documented to cut only single nodes by lines, with exact line numbers. It
  also cuts groups of several nodes (`Chunking.GroupCanOverflow`), and then the numbers
  of the pieces are exact if and only if the nodes follow each other without a gap
  (`ModuleCode.PieceNumbersAreExactIffContiguous`, `ModuleCode.GapShiftsNumbers`).
* A named definition becomes two symbols if it stands in an error node that is the body of
  a collected definition (`SymbolUniqueness.NoNodeIsCollectedTwice`,
  `SymbolUniqueness.NodeCollectedTwice`).
* Increments of a tool call are documented to be tied by their index; one without an index
  takes its position in its own chunk, so there the grouping into chunks matters
  (`Fragmentation.PlacedIncrementsMayMove`).
* The reviewer's nudge is documented as "while no tool was called"; the code asks whether
  any fragment was shown (`ReviewerRuns.NudgedByTheGuard`, `ReviewerRuns.NudgedAfterATool`).
* The token budget is looked at after executed tools only, so truncated replies and a nudge
  let the loop go on past it (`ReviewerRuns.SpentBudgetEndsTheLoop`).
* The history limit is documented as the number of past messages sent; zero sends all of
  them (`ChatAgentRuns.RecentIsTheTail`).
* A chat answer that fell back after an overflow reports only the fallback's tokens
  (`ChatAgentRuns.AnswerReportsSpending`).
* The key cache promises at most one fetch per cooldown; a failing provider is asked by
  every unforced request (`KeyCache.AttemptsWithinTheCooldown`).

## Model

| member | source | states |
|---|---|---|
| `LogFile.ReverseLines.Next` | packages/observability/src/ducktective/observability/logfile.py:152-174 | the generator step: yields the decoded last line not yet yielded, or nothing exactly when the yielded lines are all lines of the file; the bytes read exceed the lines yielded by less than one block |
| `LogFile.ReverseLines.ReadBlock` | packages/observability/src/ducktective/observability/logfile.py:163-170 | one turn of the reading loop keeps the incomplete first line and the complete lines equal to the newline split of everything read so far, and holds back less than one block |
| `LogFile.ReverseLines.DeliverRemainder` | packages/observability/src/ducktective/observability/logfile.py:173-174 | what is left at the start of the file is a line unless it is empty, and with it every line has been delivered |
| `LogFile.LinesFromEnd` | packages/observability/src/ducktective/observability/logfile.py:152-174 | for every file and every block size of at least one, the lines come out decoded one by one and in reverse, as the split of the whole file gives them, an empty first line left out |
| `LogFile.TailGivesLastLines` | packages/observability/src/ducktective/observability/logfile.py:167-172 | the complete lines of any suffix of the file are the last lines of the file, so a block boundary inside a line or a character changes nothing |
| `Utf8Lines.ByteLinesAreTextLines` | packages/observability/src/ducktective/observability/logfile.py:167-171 | cutting UTF-8 text (section 3 of RFC 3629) at newline bytes gives exactly the encodings of its text lines, so only whole lines are decoded |
| `LogFile.WhatAQueryMeans` | packages/observability/src/ducktective/observability/logfile.py:81-103 | every query is accepted but one with an unknown minimum level; a record passes an accepted one if and only if its level is known and at least the minimum, its logger begins as asked and the text occurs in its line in any case; what is not given or empty asks for nothing |
| `LogFile.EveryLineIsAccountedFor` | packages/observability/src/ducktective/observability/logfile.py:92-103 | every nonblank line is unparsable, filtered out or kept |
| `LogFile.TailRecords` | packages/observability/src/ducktective/observability/logfile.py:74-115 | the records are, in file order, those of the lines it read that hold a record the query asks for, and every other line it read is blank, holds no record or is not asked for; it read to the first line unless it shows as many as the limit allows, and then stopped at the first record shown; scanned and skipped lines are counted one by one; less than one block is read beyond them |
| `StreamCollector.Collector.Absorb` | packages/llm/src/ducktective/llm/client.py:432-455 | an increment adds its text, its call parts, its finish reason and its usage to what was collected, and nothing else |
| `StreamCollector.Collector.AbsorbToolCalls` | packages/llm/src/ducktective/llm/client.py:477-497 | the increments of a chunk are added each under its index, or under its position when it has none |
| `Fragmentation.CallsOfStream` | packages/llm/src/ducktective/llm/client.py:432-497 | collecting a stream chunk by chunk is collecting all its increments one after another |
| `Fragmentation.AssembledFromOwnPieces` | packages/llm/src/ducktective/llm/client.py:477-497 | a call is made of the increments of its own index alone: the last identifier, the last name, all argument text in order |
| `Fragmentation.FragmentationDoesNotMatter` | packages/llm/src/ducktective/llm/client.py:432-497 | two streams of chunks whose increments bring the same index by index end in responses with the same calls, however they are cut, interleaved and grouped |
| `Fragmentation.RegroupingKeepsCalls` | packages/llm/src/ducktective/llm/client.py:432-497 | the same increments in other chunks give the same calls when each names its index or brings nothing |
| `Fragmentation.CuttingKeepsCalls` | packages/llm/src/ducktective/llm/client.py:457-497 | cutting the argument text of an increment anywhere, the halves in any chunks, gives the same calls |
| `Fragmentation.PlacedIncrementsMayMove` | packages/llm/src/ducktective/llm/client.py:477-481 | an increment may move to another chunk in every stream if and only if it names its index or brings nothing |
| `Fragmentation.RegroupingBreaksCalls` | packages/llm/src/ducktective/llm/client.py:477-481 | for every other increment, which takes its position in its chunk for its index, two streams with the same increments and different calls |
| `Fragmentation.CarriedCallsComeOut` | packages/llm/src/ducktective/llm/client.py:457-475 | whatever a stream carries comes out whole: one call per named index in ascending order, with what was sent, or the stated replacement for a missing identifier or missing arguments; nameless indices are dropped |
| `Fragmentation.IndexIsReadBack` | packages/llm/src/ducktective/llm/client.py:457-475 | the identifier given to a call without one tells its index again, so no two such calls share it |
| `Fragmentation.ResponseOfStream` | packages/llm/src/ducktective/llm/client.py:432-475 | a finished response holds all words of the stream in order, the usage reported last and the names of the choice; it counts as cut exactly when the last reason given for its end is the length limit |
| `Failover.LiteLlmClient.Stream` | packages/llm/src/ducktective/llm/client.py:132-198 | over the candidates with resting ones last, the pieces and the ending are those of a stream, whose end `FailoverRuns.HowAStreamEnds` spells out: silent refusals, one notice per replacement, then one model that decides; every refusal is noted with its time |
| `Failover.LiteLlmClient.AskInTurn` | packages/llm/src/ducktective/llm/client.py:159-198 | the loop over the candidates: overflow ends it at once, a failure after text ends it, a silent failure moves to the next candidate |
| `Failover.LiteLlmClient.Ask` | packages/llm/src/ducktective/llm/client.py:173-196 | one attempt yields exactly the texts of its chunks and, if it completes, the collected response |
| `Failover.LiteLlmClient.StartCooldown` | packages/llm/src/ducktective/llm/client.py:237-243 | a refusal makes a model rest five minutes after a rate limit and one minute otherwise |
| `FailoverRuns.CompletedStreamHasOneVoice` | packages/llm/src/ducktective/llm/client.py:159-196 | the text a completed stream yields is the content of its response and comes from one model; before it come exactly the notices, one per refused candidate |
| `FailoverRuns.NobodySpeaksAfterAnother` | packages/llm/src/ducktective/llm/client.py:159-198 | however a stream ends, only the last model asked has spoken |
| `FailoverRuns.HowAStreamEnds` | packages/llm/src/ducktective/llm/client.py:159-198 | the candidates before the deciding one failed without a word and not for want of context, and that one did not; the stream completes, or ends with an overflow exactly when that candidate overflowed, with a rate limit or with an unavailable model; when all moved on, the last one names the error |
| `FailoverRuns.OverflowEndsTheStream` | packages/llm/src/ducktective/llm/client.py:181-185 | a candidate that overflows, by its kind of error or by its words, ends the stream at once, whatever it had said, and is not made to rest |
| `FailoverRuns.RefusalsAreNoted` | packages/llm/src/ducktective/llm/client.py:237-243 | each refusal is noted once, in order: five minutes from the clock reading behind it after a rate limit, one minute otherwise |
| `FailoverRuns.LiveFirstIsStablePermutation` | packages/llm/src/ducktective/llm/client.py:224-235 | ordering candidates keeps all of them, and keeps the order of the live and of the resting ones |
| `FailoverRuns.CoolingIsLatestExpiry` | packages/llm/src/ducktective/llm/client.py:237-243 | over any history the table says of every model when its latest refusal stops counting |
| `FailoverRuns.StreamOnce` | packages/llm/src/ducktective/llm/client.py:132-198 | a client that has served a session of streams serves one more: history, clock readings and order are those of the longer session |
| `FailoverRuns.RestingModelsAreAskedLast` | packages/llm/src/ducktective/llm/client.py:151-192 | over any session of streams and any clock that never goes back, a model asked before its latest refusal expires is asked only after every candidate live at the start of that stream was asked in it and refused |
| `FailoverRuns.EachCandidateIsAskedOnce` | packages/llm/src/ducktective/llm/client.py:151-157 | no stream has a candidate twice, and none the trust policy forbids |
| `Router.SelectSatisfies` | packages/llm/src/ducktective/llm/router.py:100-124 | the selected model is in the catalogue, and meets the requirements if and only if some model there does |
| `Router.SelectStaysInsidePolicy` | packages/llm/src/ducktective/llm/router.py:100-124 | the selected model is allowed by the trust policy if and only if the local model is or some model of the catalogue meets the requirements |
| `Router.RemoteNeedsAReason` | packages/llm/src/ducktective/llm/router.py:100-124 | another model than the local one is selected only if it was named, the local one falls short, or deep reasoning is asked |
| `Router.HowAModelIsSelected` | packages/llm/src/ducktective/llm/router.py:100-160 | the first model of the asked name if it does what is asked; else the local one if it does and no deep reasoning is asked; else the first remote one of the registry that does; else the local one |
| `Router.CandidatesAreTheSatisfyingModels` | packages/llm/src/ducktective/llm/router.py:126-143 | selection and alternatives list every satisfying model of the catalogue exactly once, and beyond them at most the local one alone |
| `Router.AlternativesKeepOrder` | packages/llm/src/ducktective/llm/router.py:126-143 | the alternatives are exactly the other models of the catalogue that do what is asked, in its order; a model that does not tell its window has enough of it |
| `Router.AllowedKeepOrder` | packages/llm/src/ducktective/llm/router.py:145-150 | the remote models of the catalogue are exactly those the policy lets code travel to, in the order of the registry |
| `Router.CandidatesStayInsidePolicy` | packages/llm/src/ducktective/llm/router.py:78-89 | with a local model of local trust no candidate exceeds the allowed trust |
| `Dialogue.CallsAreAnsweredInOrder` | packages/llm/src/ducktective/llm/agentic_reviewer.py:697-712 | what a well-formed transcript is: every call of an assistant message is answered by one tool message with its identifier, in order, directly behind it |
| `Dialogue.ExchangeKeepsForm` | packages/llm/src/ducktective/llm/agentic_reviewer.py:357-366 | a reply with calls followed by one answer per call keeps a transcript well formed |
| `Reviewer.RefusedCalls` | packages/llm/src/ducktective/llm/agentic_reviewer.py:697-712 | a truncated reply has every call answered, in order |
| `ReviewerRuns.RepeatedCallNamesItsExecution` | packages/llm/src/ducktective/llm/agentic_reviewer.py:433-442 | a repeated call is answered with the step of the one execution it repeats: executed calls carry steps that grow with the order of execution |
| `Reviewer.RunTools` | packages/llm/src/ducktective/llm/agentic_reviewer.py:357-366 | the calls of a reply are answered in order, and the size of the dialogue grows by the answers |
| `Reviewer.Investigate` | packages/llm/src/ducktective/llm/agentic_reviewer.py:254-403 | every execution of the loop is a run: each request carries the transcript so far, each ending is the one its last reply calls for |
| `Reviewer.Conclude` | packages/llm/src/ducktective/llm/agentic_reviewer.py:459-532 | the closing question is asked without tools, repeated once if its answer does not parse, and ends the run |
| `Reviewer.ReviewFile` | packages/llm/src/ducktective/llm/agentic_reviewer.py:199-252 | without a navigator, after an overflow or after two unparsable closing answers the file goes to the one-pass reviewer; other errors are raised |
| `ReviewerRuns.RequestsAreWellFormed` | packages/llm/src/ducktective/llm/agentic_reviewer.py:289-532 | every request carries a well-formed transcript, on the truncated, repeated, nudge and closing paths; the repeated closing request does if and only if the first closing reply asked for no tools |
| `ReviewerRuns.ClosingCallBreaksTheForm` | packages/llm/src/ducktective/llm/agentic_reviewer.py:487-516 | a run whose repeated closing request is not well formed, because the first closing reply called a tool |
| `ReviewerRuns.RequestsAreBounded` | packages/llm/src/ducktective/llm/agentic_reviewer.py:289-532 | a run sends at most two requests more than `max_steps` |
| `ReviewerRuns.EachCallIsExecutedOnce` | packages/llm/src/ducktective/llm/agentic_reviewer.py:433-442 | the executed calls are the first of each name and canonical arguments among the calls of all untruncated replies, so none is executed twice and no call of a truncated reply is executed |
| `ReviewerRuns.ShownIsWhatToolsReturned` | packages/llm/src/ducktective/llm/agentic_reviewer.py:405-457 | a finished run shows exactly the fragments of its executed calls in order, and reports the sum of the usage of all replies |
| `ReviewerRuns.NudgedAtMostOnce` | packages/llm/src/ducktective/llm/agentic_reviewer.py:334-344 | an answer is sent back for unproven claims at most once in a run |
| `ReviewerRuns.NudgedByTheGuard` | packages/llm/src/ducktective/llm/agentic_reviewer.py:329-344 | a reply is sent back if and only if it has no calls, parses, claims unseen code while no fragment was shown, and none was sent back before |
| `ReviewerRuns.NudgedAfterATool` | packages/llm/src/ducktective/llm/agentic_reviewer.py:334-344 | a run whose reply is sent back although a tool was executed, since it showed nothing |
| `ReviewerRuns.SpentBudgetEndsTheLoop` | packages/llm/src/ducktective/llm/agentic_reviewer.py:312-391 | once the token budget is spent the loop asks again if and only if it is below its ceiling and the last reply was truncated with calls or met the guard of the nudge |
| `ReviewerRuns.TranscriptOnlyGrows` | packages/llm/src/ducktective/llm/agentic_reviewer.py:289-516 | every request carries the opening and every earlier request as its beginning |
| `Reviewer.UsageIsTotal` | packages/llm/src/ducktective/llm/agentic_reviewer.py:731-736 | the usage counted so far is the sum over all replies |
| `ReviewerTranscript.WhatTheModelIsTold` | packages/llm/src/ducktective/llm/agentic_reviewer.py:289-528 | every request, message by message, from the replies alone: the opening, then each reply with an answer to each of its calls and the remark behind it; a call of a cut reply is refused, the first of its name and arguments gets the result of its execution, any other the step of that first one; then the closing question, repeated once behind a reply that does not parse |
| `ReviewerTranscript.HowARunEnds` | packages/llm/src/ducktective/llm/agentic_reviewer.py:289-532 | it is asked on while neither the ceiling, nor an answer, nor the budget or the window after executed tools ends it; what a run finishes with, under which model name, and which refusals and stops end it otherwise |
| `ReviewerTranscript.SameCallsAgree` | packages/llm/src/ducktective/llm/agentic_reviewer.py:722-728 | calls of tools whose names hold no colon count as the same exactly when their names and their canonical arguments agree |
| `ChatAgent.AnswerQuestion` | packages/llm/src/ducktective/llm/chat_agent.py:213-235 | the events of an answer, the requests sent for it, and whether an error escaped: notes, the investigation, and after an overflow the fallback without its notes |
| `ChatAgent.Investigate` | packages/llm/src/ducktective/llm/chat_agent.py:237-331 | the events, the requests sent and the end of the loop over the steps, with the final instruction and without tools in the last one |
| `ChatAgent.PresetAnswer` | packages/llm/src/ducktective/llm/chat_agent.py:358-403 | the events and the one request of the fallback: one search, no tools, every failure of the model turned into an event |
| `ChatAgent.Listen` | packages/llm/src/ducktective/llm/chat_agent.py:263-277 | a stream is heard up to its response: notices become notes, texts tokens |
| `ChatAgentRuns.EndsExactlyOnce` | packages/llm/src/ducktective/llm/chat_agent.py:213-331 | a question gets exactly one answer or failure, as its last event, if and only if there is a navigator and at least one step, the reply to the request without tools asks for none, and the search of a needed fallback works; otherwise it gets none |
| `ChatAgentRuns.WithheldToolLeavesNoEnding` | packages/llm/src/ducktective/llm/chat_agent.py:255-331 | a question left without an ending because the last reply calls a withheld tool |
| `ChatAgentRuns.FailingSearchLeavesNoEnding` | packages/llm/src/ducktective/llm/chat_agent.py:229-233 | a question left without an ending, by an error that escapes, because the fallback's search fails |
| `ChatAgentRuns.RequestsAreWellFormed` | packages/llm/src/ducktective/llm/chat_agent.py:257-331 | every request, the fallback's included, carries a well-formed transcript; tools are withheld from the last step and the fallback alone; at most `max_steps` + 1 requests are sent |
| `ChatAgentRuns.TranscriptGrows` | packages/llm/src/ducktective/llm/chat_agent.py:253-331 | every request carries the opening and the one before it; the last one the settings allow ends with the final instruction |
| `ChatAgentRuns.AnswerIsNoDeadEnd` | packages/llm/src/ducktective/llm/chat_agent.py:282-305 | an answer is made of the words of the last stream, is never empty in the last step, and admits a dead end only in the last step or after one nudge |
| `ChatAgentRuns.RecentIsTheTail` | packages/llm/src/ducktective/llm/chat_agent.py:481-487 | the history sent is the most recent of what was said, at most the limit; a limit of zero sends all of it |
| `ChatAgentRuns.AnswerReportsSpending` | packages/llm/src/ducktective/llm/chat_agent.py:279-305 | an answer reports the tokens of every reply of its investigation and the model of the last; after an overflow only those of the fallback's own reply |
| `ChatAgentRuns.CallsAreShownInOrder` | packages/llm/src/ducktective/llm/chat_agent.py:285-331 | the reader sees every requested call announced and then answered, in order, with the result of that execution; a dead end is sent back at most once |
| `ChatAgentRuns.RequestsHoldAllResults` | packages/llm/src/ducktective/llm/chat_agent.py:307-331 | the n-th request holds the results of all calls of the earlier replies, unchanged and in order, and no others |
| `ChatAgentRuns.OnlyNotesAreDropped` | packages/llm/src/ducktective/llm/chat_agent.py:230-233 | of the fallback the reader misses the notes and nothing else |
| `ChatAgentRuns.WhatIsHeardIsOneModel` | packages/llm/src/ducktective/llm/chat_agent.py:263-282 | over the failover client the tokens of a completed stream spell the content of its response, and a stream that closes without answering cannot happen |
| `ChatTranscript.OpeningIsHistory` | packages/llm/src/ducktective/llm/chat_agent.py:411-439 | the prompt, the notice of a document if there is one, then the most recent messages of the history that are neither a tool's nor blank, each as its speaker's, and last the question |
| `ChatTranscript.WhatAnInvestigationSends` | packages/llm/src/ducktective/llm/chat_agent.py:235-331 | every request and every event of an investigation, from its streams alone: the opening, the replies so far with the results of their calls, the instruction in the last step; where it stops and why |
| `ChatTranscript.WhatTheFallbackSends` | packages/llm/src/ducktective/llm/chat_agent.py:362-403 | the same opening with the result of one search behind the question, one request without tools, the words of its stream and one ending |
| `ChatTranscript.WhatAnAnswerSends` | packages/llm/src/ducktective/llm/chat_agent.py:206-331 | every request behind an answer: those of the steps, beginning with the recent history and the question; and after an overflow one that opens anew with the search result behind the question, without tools |
| `ChatTranscript.WhatTheReaderSees` | packages/llm/src/ducktective/llm/chat_agent.py:206-233 | the notes on the index and the document, the events of the steps, and behind them a failure, or after an overflow a note, the tokens of the fallback and its ending |
| `Search.SearchCode` | packages/llm/src/ducktective/llm/tools.py:433-468 | the answer is the first `limit` of all searches merged without repeated locations, and the searching stops at the first term after which there is enough |
| `Search.EnoughIsEnough` | packages/llm/src/ducktective/llm/tools.py:448-456 | once `limit` fragments are collected no later search changes the answer |
| `Search.MergedAreTheFirst` | packages/llm/src/ducktective/llm/tools.py:450-456 | merging keeps the first fragment of every location, none twice, and loses no location |
| `Tokens.EstimateIsNearest` | packages/indexing/src/ducktective/indexing/hashing.py:31-38 | the estimate is the integer nearest to a third of the length |
| `Tokens.EstimateOfJoin` | packages/indexing/src/ducktective/indexing/hashing.py:31-38 | joining two texts with a newline costs at most one estimated token more than the two |
| `TextChunks.ChunksOf` | packages/indexing/src/ducktective/indexing/text_parser.py:98-123 | chunks follow each other from line 1, each ends at the first line where it may, and lines left over are blank |
| `TextChunks.ChunkBounds` | packages/indexing/src/ducktective/indexing/text_parser.py:109-143 | every chunk holds the text of its own lines; all but the last reached 400 tokens; none exceeds 800 and the estimate of its last line |
| `TextChunks.ChunkText` | packages/indexing/src/ducktective/indexing/text_parser.py:126-143 | the content is the joined lines of the chunk without the newlines at both ends, and loses nothing else |
| `TextChunks.ChunksEndWhenEnough` | packages/indexing/src/ducktective/indexing/text_parser.py:108-121 | a chunk ends at the first of its lines where the lines so far are estimated at 800 tokens, or at 400 with three lines and a blank last one; only the last chunk may end before that, with the file |
| `TextChunks.EveryLineIsInOneChunk` | packages/indexing/src/ducktective/indexing/text_parser.py:98-123 | every line that is not blank is in exactly one chunk |
| `Chunking.SplitByLines` | packages/indexing/src/ducktective/indexing/chunking.py:176-199 | the pieces are consecutive windows of the lines with the line numbers of their text, and exactly the last reaches the end; the loop ends |
| `Chunking.PiecesOverlap` | packages/indexing/src/ducktective/indexing/chunking.py:183-197 | starts grow strictly and neighbours share exactly min(2, step - 1) lines |
| `Chunking.PiecesRebuildTheFragment` | packages/indexing/src/ducktective/indexing/chunking.py:183-199 | dropping the overlaps from the texts of the pieces gives back every line in order |
| `Chunking.PiecesTakeTheirShare` | packages/indexing/src/ducktective/indexing/chunking.py:178-186 | a piece takes as many lines as make 512 tokens at the average share of a line, and at least one; only the last may take fewer |
| `Chunking.GroupedByBudget` | packages/indexing/src/ducktective/indexing/chunking.py:241-255 | the groups hold the fragments in order, keep the budget unless they are a single fragment, and are packed greedily |
| `Chunking.JoinedGroupExcess` | packages/indexing/src/ducktective/indexing/chunking.py:241-264 | the joined text of a group exceeds the sum of its estimates by at most two thirds of a token per fragment |
| `Chunking.GroupCanOverflow` | packages/indexing/src/ducktective/indexing/chunking.py:231-236 | two fragments within the budget whose joined text is over it |
| `ModuleCode.Flush` | packages/indexing/src/ducktective/indexing/chunking.py:215-238 | code between definitions becomes the packed groups in order, each one fragment or, if its text is too large, the windows of its lines |
| `ModuleCode.PiecesKeepTheText` | packages/indexing/src/ducktective/indexing/chunking.py:231-238 | no text of a group is lost but a newline at the very end of one that is cut; every piece stays at module level |
| `ModuleCode.PieceNumbersAreExactIffContiguous` | packages/indexing/src/ducktective/indexing/chunking.py:176-236 | every line of every piece of a cut group has its own number in the file if and only if every node of the group starts on the line after the one before it ends |
| `ModuleCode.GapShiftsNumbers` | packages/indexing/src/ducktective/indexing/chunking.py:231-236 | two nodes within the budget, one line apart, whose pieces carry wrong numbers |
| `ModuleCode.JoinedLinesComeFromTheFile` | packages/indexing/src/ducktective/indexing/chunking.py:258-264 | the lines of a group's text lie on the lines of its nodes in the file, one for one, also where a node shares a line with other code |
| `Chunking.MergeSmall` | packages/indexing/src/ducktective/indexing/chunking.py:267-300 | merging cuts the input into consecutive runs and glues each; a run ends only where the next fragment may not be joined |
| `Chunking.MergingKeepsText` | packages/indexing/src/ducktective/indexing/chunking.py:267-300 | the joined text of the merged fragments is the joined text of the input |
| `Chunking.MergedReachesTheBound` | packages/indexing/src/ducktective/indexing/chunking.py:279-296 | two fragments that are merged into one of 513 tokens |
| `Chunking.MergedKeepsText` | packages/indexing/src/ducktective/indexing/chunking.py:287-296 | a merged fragment spans its run and holds the texts of the run joined by newlines |
| `Chunking.MergedByTheRules` | packages/indexing/src/ducktective/indexing/chunking.py:279-298 | a fragment joins what was merged before it exactly when neither is module level, that is below 48 tokens, both keep 512 and the lines do not go back |
| `Chunking.MergedPointsToItsSymbol` | packages/indexing/src/ducktective/indexing/chunking.py:303-309 | a merged fragment points to a symbol of one of its fragments, to the only one they point to if there is one, and to none of two that differ |
| `Chunking.ModuleLevelStaysAlone` | packages/indexing/src/ducktective/indexing/chunking.py:279-286 | module-level fragments are never merged |
| `Chunking.MergedIsBounded` | packages/indexing/src/ducktective/indexing/chunking.py:279-296 | a merged fragment never exceeds 513 estimated tokens |
| `Chunking.GluedOverflows` | packages/indexing/src/ducktective/indexing/chunking.py:283-291 | two joinable fragments exceed 512 tokens together exactly when their texts have more than 1536 characters |
| `Chunking.CommonOwner` | packages/indexing/src/ducktective/indexing/chunking.py:312-323 | the owner is the longest common beginning of both dotted names, or the one that is known |
| `Chunking.CommonOwnerIsInnermost` | packages/indexing/src/ducktective/indexing/chunking.py:312-323 | the common owner encloses both, and every scope that encloses both encloses it |
| `Chunking.MergedOwnerEncloses` | packages/indexing/src/ducktective/indexing/chunking.py:287-323 | in a file under one named module the owner of a merged fragment encloses the owners of all its fragments |
| `SyntaxTree.SpansAreLaminar` | packages/indexing/src/ducktective/indexing/script_parser.py:382-392 | under the span laws two nodes are nested when one is an ancestor of the other, and disjoint otherwise |
| `Definitions.CollectDefinitions` | packages/indexing/src/ducktective/indexing/python_parser.py:196-219 | the recursive collection: each named definition directly before those inside it |
| `Definitions.FindDefinitionChildren` | packages/indexing/src/ducktective/indexing/python_parser.py:222-237 | the loops over containers and children, through error nodes, sorted by start |
| `NestedDefinitions.DefinitionChildrenAreReached` | packages/indexing/src/ducktective/indexing/script_parser.py:194-209 | the search finds exactly the definitions a container holds directly or behind error nodes alone, in source order |
| `NestedDefinitions.SortedIsStable` | packages/indexing/src/ducktective/indexing/script_parser.py:209-209 | sorting by start keeps the order of nodes that start together |
| `NestedDefinitions.DefinitionChildrenAreDistinct` | packages/indexing/src/ducktective/indexing/python_parser.py:222-253 | no definition is found twice, except if and only if a Python definition's body field names an error node that holds definitions |
| `NestedDefinitions.FoundTwiceInErrorBodies` | packages/indexing/src/ducktective/indexing/python_parser.py:222-253 | exactly the definitions in an error body are found more than once |
| `NestedDefinitions.FoundAreUnrelated` | packages/indexing/src/ducktective/indexing/script_parser.py:194-209 | of two definitions found in one node neither holds the other |
| `SymbolForest.EverySymbolHasItsParent` | packages/indexing/src/ducktective/indexing/script_parser.py:173-191 | the symbols are a forest in preorder: every symbol but the module has its parent before it with only the parent's descendants between, lies inside the parent and extends its qualified name by one name |
| `SymbolForest.SymbolsAreNamedDefinitions` | packages/indexing/src/ducktective/indexing/script_parser.py:173-191 | every symbol but the module stands for a definition node and carries the name of the definition behind it |
| `SymbolForest.EveryNamedDefinitionIsASymbol` | packages/indexing/src/ducktective/indexing/script_parser.py:173-191 | each named definition found inside the module or inside the definition behind a symbol has a symbol that belongs to it |
| `DefinitionsByKind.WhatIsADefinition` | packages/indexing/src/ducktective/indexing/script_parser.py:226-266 | what is a definition, by kinds and fields: classes, functions and decorated ones in Python; classes, functions, methods, types, values that hold a function, and exports of declarations other than plain values in scripts |
| `DefinitionsByKind.FoundAreHeld` | packages/indexing/src/ducktective/indexing/script_parser.py:194-223 | what the search finds inside a node, by kinds and fields: in the body of a script class, nothing in its other definitions, what an export exports, the children of the module and of any other node; in Python in the body of a class or function and in the error nodes beside it |
| `DefinitionsByKind.UnwrapIsBehind` | packages/indexing/src/ducktective/indexing/script_parser.py:236-249 | the definition behind a decorator or an export, or the node itself |
| `DefinitionsByKind.NameIsCalled` | packages/indexing/src/ducktective/indexing/script_parser.py:269-275 | a value is called like the first function it declares, everything else by its own name |
| `DefinitionsByKind.EveryHeldDefinitionIsASymbol` | packages/indexing/src/ducktective/indexing/script_parser.py:173-223 | every definition with a name that the module or a symbol's definition holds is a symbol of that parent under that name; so the methods of a collected class are symbols |
| `DefinitionsByKind.EverySymbolIsAHeldDefinition` | packages/indexing/src/ducktective/indexing/script_parser.py:158-191 | nothing else is a symbol: the first one is the module's, every other is held by the definition of the symbol it names as its parent, spans its node, and extends that symbol's qualified name |
| `SymbolForest.SymbolsAreLaminar` | packages/indexing/src/ducktective/indexing/script_parser.py:278-299 | the spans of any two symbols are nested or disjoint |
| `SymbolUniqueness.NoNodeIsCollectedTwice` | packages/indexing/src/ducktective/indexing/python_parser.py:196-253 | no node becomes two symbols if and only if inside no symbol's definition the body is an error node with a named definition in it; in JavaScript and TypeScript it never does |
| `SymbolUniqueness.NodeCollectedTwice` | packages/indexing/src/ducktective/indexing/python_parser.py:196-253 | a module under the span laws in which one named function becomes two symbols |
| `Ownership.FindOwner` | packages/indexing/src/ducktective/indexing/script_parser.py:382-392 | the loop keeps the last symbol in (start, -end) order that contains the node |
| `Ownership.OwnerIsInnermost` | packages/indexing/src/ducktective/indexing/script_parser.py:324-392 | the owner contains the node and no symbol around the node is strictly smaller; for a nonempty node every symbol around it spans the owner |
| `Ownership.OrderingIsStable` | packages/indexing/src/ducktective/indexing/script_parser.py:337-337 | ordering keeps every symbol as often as it was, and those of one span in their order |
| `Ownership.Walk` | packages/indexing/src/ducktective/indexing/script_parser.py:395-399 | the recursive walk lists a node and then what is below each child |
| `Ownership.PreorderReaches` | packages/indexing/src/ducktective/indexing/script_parser.py:395-399 | the walk reaches every node of the tree and nothing else |
| `Ownership.CollectReferences` | packages/indexing/src/ducktective/indexing/script_parser.py:324-361 | the loop over all nodes that makes a reference for each call and import with a target |
| `Ownership.EveryCallAndImportIsReferred` | packages/indexing/src/ducktective/indexing/script_parser.py:324-361 | the references of a file are one for each call and import with a target, wherever it stands in the tree, in document order, each to that target and made by the owner of its node |
| `OwnBody.WalkOwnBody` | packages/indexing/src/ducktective/indexing/references.py:271-292 | the stack walk gives exactly the recursive listing of the body, last child first, without nested definitions |
| `OwnBody.WalkStack` | packages/indexing/src/ducktective/indexing/references.py:284-292 | popping, skipping and pushing children equals the recursive listing of the stack, and ends |
| `OwnBody.Walk` | packages/indexing/src/ducktective/indexing/references.py:295-302 | the plain stack walk equals the recursive listing of the whole tree |
| `OwnBody.WalkReachesAll` | packages/indexing/src/ducktective/indexing/references.py:295-302 | it reaches every node below its start and no other |
| `OwnBody.OwnBodyIsNearest` | packages/indexing/src/ducktective/indexing/references.py:265-292 | a node is in the own body of a definition if and only if it lies inside its body, is no definition and has that definition as its nearest; each node is listed once |
| `OwnBody.EachNodeHasOneBody` | packages/indexing/src/ducktective/indexing/references.py:265-292 | no node is in the own bodies of two definitions, a decorated definition and its wrapper counting as one |
| `OwnBody.NodeIsInTheBodyAroundIt` | packages/indexing/src/ducktective/indexing/references.py:271-292 | a node inside the body of its nearest definition is in that own body; one in its heading or decorators is in no own body |
| `OwnBody.OwnBodyByKinds` | packages/indexing/src/ducktective/indexing/references.py:265-292 | for any node: every node strictly below the body of the definition behind its decorators from which no class, function or decorated definition separates it, itself included |
| `OwnBody.NothingBehindDecorators` | packages/indexing/src/ducktective/indexing/references.py:265-275 | a decorated node without a definition has no own body |
| `OwnBody.OwnBodyIsInPopOrder` | packages/indexing/src/ducktective/indexing/references.py:279-292 | it comes out with every node before those below it and the last of siblings first |
| `KeyCache.OidcIdentityVerifier.Keys` | packages/auth/src/ducktective/auth/oidc.py:130-157 | when the provider is asked, what is answered, and what the cache holds afterwards, for every failure too |
| `KeyCache.OidcIdentityVerifier.ResolveKey` | packages/auth/src/ducktective/auth/oidc.py:78-95 | an unknown key asks once more by force; the errors of each step |
| `KeyCache.AttemptsAreSpaced` | packages/auth/src/ducktective/auth/oidc.py:130-157 | over any run, after a successful fetch no fetch follows before the shorter of cooldown and lifetime has passed |
| `KeyCache.AttemptsWithinTheCooldown` | packages/auth/src/ducktective/auth/oidc.py:130-157 | within the cooldown after the last fetch a request asks again if and only if it is not forced and that fetch left no keys still fresh |
| `KeyCache.AFailingProviderIsAskedEveryTime` | packages/auth/src/ducktective/auth/oidc.py:132-142 | while the provider fails every ordinary request asks it, at any pace |
| `KeyCache.OneLookupAsksOnce` | packages/auth/src/ducktective/auth/oidc.py:78-95 | resolving one key asks the provider twice only if the first fetch succeeded and the cooldown passed in between |
| `KeyCache.WhenTheProviderIsAsked` | packages/auth/src/ducktective/auth/oidc.py:130-141 | over any run an ordinary request asks unless the last fetch that brought keys is younger than the lifetime, a forced one unless the last attempt is within the cooldown, or before any attempt the clock itself is |
| `KeyCache.WhatARequestAnswers` | packages/auth/src/ducktective/auth/oidc.py:130-157 | all keys of the last fetch that brought any and no others, for an ordinary request never older than the lifetime; it fails exactly when it asks in vain |
| `KeyCache.WhatALookupGives` | packages/auth/src/ducktective/auth/oidc.py:78-95 | the key under the identifier in the cache as it is left, or that it is not there after a forced request, or the failure of the last request |

## Left out

- The web interface, the HTTP API, the command line, the process supervisor, the database
  and its migrations, and the review graph: plumbing over libraries.
- Prompts and messages to people are abbreviated to short constants; only where they stand
  in a transcript matters to the proofs.
- JSON, regular expressions, Unicode case folding, blank tests, decoding and JWT checks are
  arbitrary functions.
- Concurrency: every call is sequential. A log file does not change while it is read, and a
  reader of a stream does not stop early.
- `LiteLlmClient.complete` with its response cache and its retries; the latency of an answer;
  rounding of costs, which are exact reals here.
- The closing request's output budget, the size limit of tool results, the recording of the
  investigation's steps, and errors of the database behind them.
- Canonical JSON of call arguments is an arbitrary partial function: two spellings of one
  call count as one when it says so.
- The expansion of a query into candidates: they are an arbitrary list of terms.
- `build_chunks`, breadcrumbs and `_split_if_large`, which drops the code between and after
  inner definitions, so no coverage is claimed for it.
- Chunking.MergedPointsToItsSymbol: three or more fragments that point apart, where a missing
  symbol and a conflict look the same to the next merge.
- Kinds, signatures, docstrings and content hashes of symbols; identifiers are the paths of
  the nodes they stand for.
- `_nodes_by_position` and the resolution of names in Python references: different nodes may
  share a span, so nothing is claimed about which node a symbol gets back.
- Discovery of the key address: it is part of a fetch that succeeds or fails.
- ModuleCode.PieceNumbersAreExactIffContiguous: for texts whose only line breaks are
  newlines; the splitter of the code also breaks lines at a few other characters.
- OwnBody.OwnBodyIsNearest: for definitions whose body is not itself a definition and whose
  decorators wrap one, as the grammar has it.
