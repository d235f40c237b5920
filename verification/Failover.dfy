/**
 Streaming an answer with failover: a model that refuses before its first word is
 replaced by the next candidate, and rests for a while before it is asked first again.
 */
module Failover {
  import opened Prelude
  import opened Dialogue
  import opened Router
  import opened StreamCollector

  const RATE_LIMIT_COOLDOWN_SECONDS := 300.0
  const FAILURE_COOLDOWN_SECONDS := 60.0

  datatype FailureKind = ContextWindow | RateLimit | Timeout | OtherError

  /** A provider's refusal; `saysOverflow` when its words name the context window. */
  datatype Failure = Failure(kind: FailureKind, saysOverflow: bool)
  {
    predicate IsOverflow() {
      kind.ContextWindow? || saysOverflow
    }

    function Cooldown(): real {
      if kind.RateLimit? then RATE_LIMIT_COOLDOWN_SECONDS else FAILURE_COOLDOWN_SECONDS
    }
  }

  /** What one model does when asked: the chunks that arrive, and how it breaks off, if it does. */
  datatype Attempt = Attempt(chunks: seq<Chunk>, failure: Option<Failure>)

  datatype StreamPiece =
    | Text(text: string)
    | Notice(refused: string, failure: Failure, next: string)
    | Final(response: StreamedResponse)

  datatype StreamError = ContextOverflow(model: string) | RateLimited(model: string) | Unavailable(model: string)

  datatype Ending = Completed | Raised(error: StreamError)

  function ErrorOf(model: string, failure: Failure): StreamError {
    if failure.kind.RateLimit? then RateLimited(model) else Unavailable(model)
  }

  // ---- one stream -----------------------------------------------------------------------

  function Texts(chunks: seq<Chunk>): seq<StreamPiece> {
    if chunks == [] then []
    else Texts(Init(chunks)) + if TextOf(Last(chunks)) != "" then [Text(TextOf(Last(chunks)))] else []
  }

  /** Refused before the first word, and not for want of context: the next model may be asked. */
  predicate RefusedSilently(attempt: Attempt) {
    attempt.failure.Some? && !attempt.failure.value.IsOverflow() && Texts(attempt.chunks) == []
  }

  /** What the reader gets from the model whose attempt decides the stream. */
  function Delivered(choice: ModelChoice, attempt: Attempt): seq<StreamPiece> {
    Texts(attempt.chunks) + if attempt.failure.None? then [Final(FinishOf(AbsorbAll(attempt.chunks), choice))] else []
  }

  function EndingFor(choice: ModelChoice, failure: Option<Failure>): Ending {
    match failure
    case None => Completed
    case Some(f) => Raised(if f.IsOverflow() then ContextOverflow(choice.model) else ErrorOf(choice.model, f))
  }

  ghost predicate AllRefused(attempts: nat -> Attempt, n: nat) {
    forall j :: 0 <= j < n ==> RefusedSilently(attempts(j))
  }

  /** One notice for each of the first `n` replacements. */
  function Notices(order: seq<ModelChoice>, attempts: nat -> Attempt, n: nat): (notices: seq<StreamPiece>)
    requires n < |order| && AllRefused(attempts, n)
    ensures |notices| == n
  {
    if n == 0 then []
    else
      Notices(order, attempts, n - 1) + [Notice(order[n - 1].name, attempts(n - 1).failure.value, order[n].name)]
  }

  /** The whole stream over candidates in this order, of which `refused` refused silently. */
  ghost predicate IsStream(
    order: seq<ModelChoice>, attempts: nat -> Attempt, pieces: seq<StreamPiece>, ending: Ending, refused: nat)
  {
    && order != [] && refused <= |order| && AllRefused(attempts, refused)
    && if refused < |order| then
         && !RefusedSilently(attempts(refused))
         && pieces == Notices(order, attempts, refused) + Delivered(order[refused], attempts(refused))
         && ending == EndingFor(order[refused], attempts(refused).failure)
       else
         && pieces == Notices(order, attempts, refused - 1)
         && ending == Raised(ErrorOf(Last(order).model, attempts(refused - 1).failure.value))
  }

  // ---- who is asked first -------------------------------------------------------------------

  datatype Refusal = Refusal(name: string, until: real)

  function Cooling(history: seq<Refusal>): map<string, real> {
    if history == [] then map[] else Cooling(Init(history))[Last(history).name := Last(history).until]
  }

  /** When the latest refusal of this model stops counting. */
  function LatestExpiry(history: seq<Refusal>, name: string): real {
    if history == [] then 0.0
    else if Last(history).name == name then Last(history).until
    else LatestExpiry(Init(history), name)
  }

  predicate IsLive(cooling: map<string, real>, now: real, choice: ModelChoice) {
    (if choice.name in cooling then cooling[choice.name] else 0.0) <= now
  }

  /** The candidates that are live, or those that are resting, in their order. */
  function Pick(candidates: seq<ModelChoice>, live: bool, cooling: map<string, real>, now: real): seq<ModelChoice> {
    if candidates == [] then []
    else
      (if IsLive(cooling, now, candidates[0]) == live then [candidates[0]] else [])
      + Pick(candidates[1..], live, cooling, now)
  }

  function LiveFirst(candidates: seq<ModelChoice>, cooling: map<string, real>, now: real): seq<ModelChoice> {
    Pick(candidates, true, cooling, now) + Pick(candidates, false, cooling, now)
  }

  /** The refusals of one stream, each with the clock reading it was noted at. */
  function Refusals(order: seq<ModelChoice>, attempts: nat -> Attempt, clock: nat -> real, first: nat, n: nat)
    : (refusals: seq<Refusal>)
    requires n <= |order| && AllRefused(attempts, n)
    ensures |refusals| == n
  {
    if n == 0 then []
    else
      Refusals(order, attempts, clock, first, n - 1)
      + [Refusal(order[n - 1].name, clock(first + n - 1) + attempts(n - 1).failure.value.Cooldown())]
  }

  ghost predicate NeverGoesBack(clock: nat -> real) {
    forall i, j :: i <= j ==> clock(i) <= clock(j)
  }

  /** The history grew by this refusal, noted at this time. */
  predicate NotesOne(before: seq<Refusal>, after: seq<Refusal>, name: string, time: real, failure: Failure) {
    after == before + [Refusal(name, time + failure.Cooldown())]
  }

  class LiteLlmClient {
    const router: ModelRouter
    const clock: nat -> real
    var ticks: nat
    var cooling: map<string, real>
    ghost var history: seq<Refusal>

    ghost predicate Valid()
      reads this
    {
      cooling == Cooling(history) && NeverGoesBack(clock)
    }

    constructor (router: ModelRouter, clock: nat -> real)
      requires NeverGoesBack(clock)
      ensures Valid() && history == [] && ticks == 0 && this.router == router && this.clock == clock
    {
      this.router, this.clock := router, clock;
      ticks, cooling, history := 0, map[], [];
    }

    method Now() returns (time: real)
      modifies this`ticks
      ensures time == clock(old(ticks)) && ticks == old(ticks) + 1
    {
      time := clock(ticks);
      ticks := ticks + 1;
    }

    method StartCooldown(name: string, failure: Failure)
      requires Valid()
      modifies this
      ensures Valid() && ticks == old(ticks) + 1
      ensures NotesOne(old(history), history, name, clock(old(ticks)), failure)
    {
      var now := Now();
      var until := now + failure.Cooldown();
      cooling := cooling[name := until];
      history := history + [Refusal(name, until)];
      assert Init(history) == old(history);
    }

    /** Asks the candidates in turn until one of them speaks, completes or overflows. */
    method Stream(requirements: Requirements, attempts: nat -> Attempt)
      returns (pieces: seq<StreamPiece>, ending: Ending, ghost order: seq<ModelChoice>, ghost now: real, ghost refused: nat)
      requires Valid()
      modifies this
      ensures Valid()
      ensures now == clock(old(ticks))
      ensures order == LiveFirst(router.Candidates(requirements), Cooling(old(history)), now)
      ensures IsStream(order, attempts, pieces, ending, refused)
      ensures Noted(history, old(history), order, attempts, clock, old(ticks) + 1, refused)
      ensures ticks == old(ticks) + 1 + refused
    {
      hide IsStream, Cooling, NeverGoesBack, Noted;
      var candidates := router.Candidates(requirements);
      var time := Now();
      now := time;
      var queue := LiveFirst(candidates, cooling, time);
      order := queue;
      LiveFirstKeepsLength(candidates, cooling, time);
      pieces, ending, refused := AskInTurn(queue, attempts);
    }

    /** The loop over the candidates in the order they are asked. */
    method AskInTurn(queue: seq<ModelChoice>, attempts: nat -> Attempt)
      returns (pieces: seq<StreamPiece>, ending: Ending, ghost refused: nat)
      requires Valid() && queue != []
      modifies this
      ensures Valid()
      ensures IsStream(queue, attempts, pieces, ending, refused)
      ensures Noted(history, old(history), queue, attempts, clock, old(ticks), refused)
      ensures ticks == old(ticks) + refused
    {
      pieces := [];
      var lastError: Option<Failure> := None;
      var lastRefused := queue[0];
      var position: nat := 0;
      ghost var first, before := ticks, history;
      NothingTried(queue, attempts, history, clock, first, lastError, lastRefused);
      hide *;
      while position < |queue|
        invariant position <= |queue|
        invariant Valid() && ticks == first + position
        invariant Going(queue, attempts, pieces, position, lastError, lastRefused)
        invariant Noted(history, before, queue, attempts, clock, first, position)
        decreases |queue| - position
      {
        var choice := queue[position];
        ghost var earlier := pieces;
        HasRefused(queue, attempts, pieces, position, lastError, lastRefused);
        if position > 0 {
          pieces := pieces + [Notice(lastRefused.name, lastError.value, choice.name)];
        }
        Announces(queue, attempts, earlier, pieces, position, lastError, lastRefused);
        var said, failure := Ask(choice, attempts(position));
        if failure.None? || failure.value.IsOverflow() || said != [] {
          Decides(queue, attempts, pieces, said, position);
          return pieces + said, EndingFor(choice, failure), position;
        }
        Refuses(queue, attempts, pieces, position);
        ghost var noted, tick := history, ticks;
        StartCooldown(choice.name, failure.value);
        NotesRefusal(noted, history, before, queue, attempts, clock, first, position, tick);
        lastError, lastRefused := failure, choice;
        position := position + 1;
      }
      refused := position;
      HasRefused(queue, attempts, pieces, position, lastError, lastRefused);
      ending := Raised(ErrorOf(lastRefused.model, lastError.value));
      Exhausts(queue, attempts, pieces, lastError, lastRefused);
    }

    /** One attempt of one model with a collector of its own. */
    method Ask(choice: ModelChoice, attempt: Attempt) returns (said: seq<StreamPiece>, failure: Option<Failure>)
      ensures said == Delivered(choice, attempt) && failure == attempt.failure
    {
      var collected := new Collector();
      said := [];
      var chunks := attempt.chunks;
      for i := 0 to |chunks|
        invariant fresh(collected)
        invariant collected.Contents() == AbsorbAll(chunks[..i])
        invariant said == Texts(chunks[..i])
      {
        hide AbsorbOne, TextOf;
        assert Init(chunks[..i + 1]) == chunks[..i];
        var text := collected.Absorb(chunks[i]);
        if text != "" {
          said := said + [Text(text)];
        }
      }
      assert chunks[..|chunks|] == chunks;
      failure := attempt.failure;
      if failure.None? {
        var response := collected.Finish(choice);
        said := said + [Final(response)];
      }
    }
  }

  /** The loop before its next attempt: every earlier one refused, every replacement was announced. */
  ghost predicate Trying(order: seq<ModelChoice>, attempts: nat -> Attempt, pieces: seq<StreamPiece>, position: nat) {
    && order != [] && position <= |order| && AllRefused(attempts, position)
    && pieces == if position == 0 then [] else Notices(order, attempts, position - 1)
  }

  /** The same with the last refusal at hand. */
  ghost predicate Going(
    order: seq<ModelChoice>, attempts: nat -> Attempt, pieces: seq<StreamPiece>, position: nat,
    lastError: Option<Failure>, lastRefused: ModelChoice)
  {
    && Trying(order, attempts, pieces, position)
    && (position > 0 ==>
          lastError.Some? && lastRefused == order[position - 1] && attempts(position - 1).failure == lastError)
  }

  lemma NothingTried(
    order: seq<ModelChoice>, attempts: nat -> Attempt, history: seq<Refusal>, clock: nat -> real, first: nat,
    lastError: Option<Failure>, lastRefused: ModelChoice)
    requires order != []
    ensures Going(order, attempts, [], 0, lastError, lastRefused)
    ensures Noted(history, history, order, attempts, clock, first, 0)
  {
    assert history + [] == history;
  }

  lemma HasRefused(
    order: seq<ModelChoice>, attempts: nat -> Attempt, pieces: seq<StreamPiece>, position: nat,
    lastError: Option<Failure>, lastRefused: ModelChoice)
    requires Going(order, attempts, pieces, position, lastError, lastRefused)
    ensures order != [] && (position > 0 ==> lastError.Some?)
  {
  }

  /** The same with the replacement at this position announced. */
  ghost predicate Announced(order: seq<ModelChoice>, attempts: nat -> Attempt, pieces: seq<StreamPiece>, position: nat) {
    position < |order| && AllRefused(attempts, position) && pieces == Notices(order, attempts, position)
  }

  lemma Announces(
    order: seq<ModelChoice>, attempts: nat -> Attempt, earlier: seq<StreamPiece>, pieces: seq<StreamPiece>, position: nat,
    lastError: Option<Failure>, lastRefused: ModelChoice)
    requires position < |order| && Going(order, attempts, earlier, position, lastError, lastRefused)
    requires position > 0 ==> lastError.Some?
    requires pieces == if position == 0 then earlier
                       else earlier + [Notice(lastRefused.name, lastError.value, order[position].name)]
    ensures Announced(order, attempts, pieces, position)
  {
    hide RefusedSilently;
  }

  lemma SilenceOf(attempt: Attempt, choice: ModelChoice)
    ensures RefusedSilently(attempt) <==>
            attempt.failure.Some? && !attempt.failure.value.IsOverflow() && Delivered(choice, attempt) == []
  {
    if attempt.failure.Some? {
      assert Delivered(choice, attempt) == Texts(attempt.chunks);
    }
  }

  lemma Decides(
    order: seq<ModelChoice>, attempts: nat -> Attempt, pieces: seq<StreamPiece>, said: seq<StreamPiece>, position: nat)
    requires Announced(order, attempts, pieces, position)
    requires said == Delivered(order[position], attempts(position))
    requires attempts(position).failure.None? || attempts(position).failure.value.IsOverflow() || said != []
    ensures IsStream(order, attempts, pieces + said, EndingFor(order[position], attempts(position).failure), position)
  {
    hide Delivered, RefusedSilently;
    SilenceOf(attempts(position), order[position]);
  }

  lemma Refuses(order: seq<ModelChoice>, attempts: nat -> Attempt, pieces: seq<StreamPiece>, position: nat)
    requires Announced(order, attempts, pieces, position)
    requires attempts(position).failure.Some? && !attempts(position).failure.value.IsOverflow()
    requires Delivered(order[position], attempts(position)) == []
    ensures Going(order, attempts, pieces, position + 1, attempts(position).failure, order[position])
    ensures AllRefused(attempts, position + 1)
  {
    hide Delivered, RefusedSilently;
    SilenceOf(attempts(position), order[position]);
  }

  lemma Exhausts(
    order: seq<ModelChoice>, attempts: nat -> Attempt, pieces: seq<StreamPiece>, lastError: Option<Failure>,
    lastRefused: ModelChoice)
    requires order != [] && Going(order, attempts, pieces, |order|, lastError, lastRefused) && lastError.Some?
    ensures IsStream(order, attempts, pieces, Raised(ErrorOf(lastRefused.model, lastError.value)), |order|)
  {
    hide RefusedSilently;
  }

  /** The history grew by the refusals of this stream. */
  ghost predicate Noted(
    history: seq<Refusal>, before: seq<Refusal>, order: seq<ModelChoice>, attempts: nat -> Attempt,
    clock: nat -> real, first: nat, n: nat)
  {
    n <= |order| && AllRefused(attempts, n) && history == before + Refusals(order, attempts, clock, first, n)
  }

  lemma NotesRefusal(
    history: seq<Refusal>, longer: seq<Refusal>, before: seq<Refusal>, order: seq<ModelChoice>,
    attempts: nat -> Attempt, clock: nat -> real, first: nat, n: nat, tick: nat)
    requires Noted(history, before, order, attempts, clock, first, n) && tick == first + n
    requires n < |order| && AllRefused(attempts, n + 1) && attempts(n).failure.Some?
    requires NotesOne(history, longer, order[n].name, clock(tick), attempts(n).failure.value)
    ensures Noted(longer, before, order, attempts, clock, first, n + 1)
  {
    hide RefusedSilently;
  }

  lemma {:induction false} LiveFirstKeepsLength(candidates: seq<ModelChoice>, cooling: map<string, real>, now: real)
    ensures |LiveFirst(candidates, cooling, now)| == |candidates|
  {
    hide IsLive;
    if candidates != [] {
      LiveFirstKeepsLength(candidates[1..], cooling, now);
    }
  }
}
