/** What every stream and every sequence of streams keeps, whatever the providers do. */
module FailoverRuns {
  import opened Prelude
  import opened Dialogue
  import opened Router
  import opened StreamCollector
  import opened Failover

  // ---- one voice per answer --------------------------------------------------------------

  /** The words a reader saw. */
  function Spoken(pieces: seq<StreamPiece>): string {
    if pieces == [] then ""
    else Spoken(Init(pieces)) + if Last(pieces).Text? then Last(pieces).text else ""
  }

  lemma {:induction false} SpokenConcat(a: seq<StreamPiece>, b: seq<StreamPiece>)
    ensures Spoken(a + b) == Spoken(a) + Spoken(b)
  {
    if b == [] {
      assert a + b == a && Spoken(a) + "" == Spoken(a);
    } else {
      SpokenConcat(a, Init(b));
      assert Init(a + b) == a + Init(b);
      var word := if Last(b).Text? then Last(b).text else "";
      assert Spoken(a) + Spoken(Init(b)) + word == Spoken(a) + (Spoken(Init(b)) + word);
    }
  }

  lemma SpokenOne(piece: StreamPiece)
    ensures Spoken([piece]) == if piece.Text? then piece.text else ""
  {
    assert Init([piece]) == [];
    assert Spoken([piece]) == "" + if piece.Text? then piece.text else "";
  }

  lemma {:induction false} NoticesAreSilent(order: seq<ModelChoice>, attempts: nat -> Attempt, n: nat)
    requires n < |order| && AllRefused(attempts, n)
    ensures Spoken(Notices(order, attempts, n)) == ""
    ensures forall i :: 0 <= i < n ==>
              Notices(order, attempts, n)[i] == Notice(order[i].name, attempts(i).failure.value, order[i + 1].name)
  {
    hide RefusedSilently;
    if n > 0 {
      assert RefusedSilently(attempts(n - 1));
      NoticesAreSilent(order, attempts, n - 1);
      var notices := Notices(order, attempts, n);
      assert Init(notices) == Notices(order, attempts, n - 1);
    }
  }

  lemma {:induction false} TextsAreTexts(chunks: seq<Chunk>)
    ensures forall i :: 0 <= i < |Texts(chunks)| ==> Texts(chunks)[i].Text?
  {
    if chunks != [] {
      TextsAreTexts(Init(chunks));
      TextsUnfold(chunks);
      hide Texts;
    }
  }

  lemma {:induction false} TextsAreAbsorbed(chunks: seq<Chunk>)
    ensures Spoken(Texts(chunks)) == Flatten(AbsorbAll(chunks).text)
    decreases |chunks|
  {
    hide *;
    if chunks == [] {
      NothingIsAbsorbed();
    } else {
      var text, texts := TextOf(Last(chunks)), Texts(Init(chunks));
      LastIsTaken(chunks);
      TextsUnfold(chunks);
      AbsorbedUnfold(chunks);
      TextsAreAbsorbed(Init(chunks));
      SpokenConcat(texts, [Text(text)]);
      SpokenOne(Text(text));
      FlattenAppend(AbsorbAll(Init(chunks)).text, text);
      assert texts + [] == texts;
    }
  }

  lemma NothingIsAbsorbed()
    ensures Spoken(Texts([])) == Flatten(AbsorbAll([]).text)
  {
  }

  lemma LastIsTaken<T>(s: seq<T>)
    requires s != []
    ensures |Init(s)| < |s|
  {
  }

  lemma TextsUnfold(chunks: seq<Chunk>)
    requires chunks != []
    ensures Texts(chunks)
         == Texts(Init(chunks)) + if TextOf(Last(chunks)) != "" then [Text(TextOf(Last(chunks)))] else []
  {
  }

  lemma AbsorbedUnfold(chunks: seq<Chunk>)
    requires chunks != []
    ensures AbsorbAll(chunks).text
         == if TextOf(Last(chunks)) != "" then AbsorbAll(Init(chunks)).text + [TextOf(Last(chunks))]
            else AbsorbAll(Init(chunks)).text
  {
  }

  /**
   A completed stream: one notice for every replacement, naming the refused model
   and the next one; then the words of the one model that answered; then its
   response, whose content is exactly the words the reader saw.
   */
  lemma CompletedStreamHasOneVoice(
    order: seq<ModelChoice>, attempts: nat -> Attempt, pieces: seq<StreamPiece>, ending: Ending, refused: nat)
    requires IsStream(order, attempts, pieces, ending, refused) && ending == Completed
    ensures refused < |order| && |pieces| > refused && Last(pieces).Final?
    ensures Last(pieces).response == FinishOf(AbsorbAll(attempts(refused).chunks), order[refused])
    ensures Spoken(pieces) == Last(pieces).response.content
    ensures forall i :: 0 <= i < refused ==>
              pieces[i] == Notice(order[i].name, attempts(i).failure.value, order[i + 1].name)
    ensures forall i :: refused <= i < |pieces| - 1 ==> pieces[i].Text?
  {
    var attempt := attempts(refused);
    var notices, texts := Notices(order, attempts, refused), Texts(attempt.chunks);
    var final := Final(FinishOf(AbsorbAll(attempt.chunks), order[refused]));
    assert pieces == notices + (texts + [final]);
    NoticesAreSilent(order, attempts, refused);
    TextsAreTexts(attempt.chunks);
    TextsAreAbsorbed(attempt.chunks);
    hide Spoken, Texts, AbsorbAll, Notices, FinishOf, RefusedSilently;
    SpokenConcat(notices, texts + [final]);
    SpokenConcat(texts, [final]);
    SpokenOne(final);
    ContentIsText(AbsorbAll(attempt.chunks), order[refused]);
    assert Spoken(texts) + "" == Spoken(texts);
    assert "" + Spoken(texts) == Spoken(texts);
  }

  lemma ContentIsText(c: Collected, choice: ModelChoice)
    ensures FinishOf(c, choice).content == Flatten(c.text)
  {
  }

  /**
   Whatever happened, only the last model asked can have spoken: every model
   before it was silent, so a broken answer is never continued by another.
   */
  lemma NobodySpeaksAfterAnother(
    order: seq<ModelChoice>, attempts: nat -> Attempt, pieces: seq<StreamPiece>, ending: Ending, refused: nat)
    requires IsStream(order, attempts, pieces, ending, refused)
    ensures Spoken(pieces) == if refused < |order| then Spoken(Texts(attempts(refused).chunks)) else ""
    ensures forall j :: 0 <= j < refused ==> Texts(attempts(j).chunks) == []
  {
    if refused < |order| {
      var delivered := Delivered(order[refused], attempts(refused));
      assert pieces == Notices(order, attempts, refused) + delivered;
      hide Spoken, Texts, AbsorbAll, Notices, Delivered;
      NoticesAreSilent(order, attempts, refused);
      SpokenConcat(Notices(order, attempts, refused), delivered);
      SpokenDelivered(order[refused], attempts(refused));
      assert "" + Spoken(delivered) == Spoken(delivered);
    } else {
      hide Spoken, Texts, AbsorbAll, Notices, Delivered;
      NoticesAreSilent(order, attempts, refused - 1);
    }
  }

  lemma SpokenDelivered(choice: ModelChoice, attempt: Attempt)
    ensures Spoken(Delivered(choice, attempt)) == Spoken(Texts(attempt.chunks))
  {
    hide Spoken, Texts, AbsorbAll;
    var texts := Texts(attempt.chunks);
    if attempt.failure.None? {
      var final := Final(FinishOf(AbsorbAll(attempt.chunks), choice));
      SpokenConcat(texts, [final]);
      SpokenOne(final);
      assert Spoken(texts) + "" == Spoken(texts);
    } else {
      assert Delivered(choice, attempt) == texts;
    }
  }

  // ---- how a stream ends ----------------------------------------------------------------------

  /** Words have arrived. */
  predicate Spoke(chunks: seq<Chunk>) {
    exists i :: 0 <= i < |chunks|
      && chunks[i].choice.Some? && chunks[i].choice.value.delta.Some? && chunks[i].choice.value.delta.value.content != ""
  }

  lemma {:induction false} TextsAreWords(chunks: seq<Chunk>)
    ensures Texts(chunks) != [] <==> Spoke(chunks)
  {
    if chunks != [] {
      var front := Init(chunks);
      TextsAreWords(front);
      if Spoke(front) {
        var i :| 0 <= i < |front|
          && front[i].choice.Some? && front[i].choice.value.delta.Some? && front[i].choice.value.delta.value.content != "";
        assert chunks[i] == front[i];
      }
      assert forall i :: 0 <= i < |front| ==> front[i] == chunks[i];
      assert Last(chunks) == chunks[|front|];
      TextsUnfold(chunks);
      hide Texts;
    }
  }

  /** The failure of this attempt, if it has one, replaces the model by the next. */
  predicate MovesOn(attempt: Attempt) {
    && attempt.failure.Some?
    && !attempt.failure.value.kind.ContextWindow? && !attempt.failure.value.saysOverflow
    && !Spoke(attempt.chunks)
  }

  /**
   Which candidate decides a stream, and what it ends with. The candidates before it
   failed without a word and not for want of context; it did not. The stream ends with
   an overflow if and only if that candidate overflowed, whatever it had said; a rate
   limit is called by its name and any other failure is an unavailable model. When all
   of them moved on, the last of them says which error is raised.
   */
  lemma HowAStreamEnds(
    order: seq<ModelChoice>, attempts: nat -> Attempt, pieces: seq<StreamPiece>, ending: Ending, refused: nat)
    requires IsStream(order, attempts, pieces, ending, refused)
    ensures order != [] && refused <= |order|
    ensures forall j :: 0 <= j < refused ==> MovesOn(attempts(j))
    ensures refused < |order| ==> !MovesOn(attempts(refused))
    ensures ending == Completed <==> refused < |order| && attempts(refused).failure.None?
    ensures var last := if refused < |order| then refused else |order| - 1;
      var failure, model := attempts(last).failure, order[last].model;
      ending.Raised? ==>
        && failure.Some?
        && ending.error == if failure.value.kind.ContextWindow? || failure.value.saysOverflow then ContextOverflow(model)
                           else if failure.value.kind.RateLimit? then RateLimited(model)
                           else Unavailable(model)
  {
    var last := if refused < |order| then refused else |order| - 1;
    hide Spoke, Texts, Notices, Delivered;
    forall j | 0 <= j <= last
      ensures RefusedSilently(attempts(j)) <==> MovesOn(attempts(j))
    {
      TextsAreWords(attempts(j).chunks);
    }
    assert refused == |order| ==> RefusedSilently(attempts(last));
  }

  /** An overflow ends the stream at the model that met it, and that model is not made to rest. */
  lemma OverflowEndsTheStream(
    order: seq<ModelChoice>, attempts: nat -> Attempt, pieces: seq<StreamPiece>, ending: Ending, refused: nat, k: nat,
    history: seq<Refusal>, before: seq<Refusal>, clock: nat -> real, first: nat)
    requires IsStream(order, attempts, pieces, ending, refused) && k < |order| && k <= refused
    requires Noted(history, before, order, attempts, clock, first, refused)
    requires attempts(k).failure.Some?
    requires attempts(k).failure.value.kind.ContextWindow? || attempts(k).failure.value.saysOverflow
    ensures refused == k && ending == Raised(ContextOverflow(order[k].model))
    ensures |history| == |before| + k && forall j :: 0 <= j < k ==> history[|before| + j].name == order[j].name
  {
    hide IsStream;
    HowAStreamEnds(order, attempts, pieces, ending, refused);
    RefusalsAreNoted(history, before, order, attempts, clock, first, refused);
    assert !MovesOn(attempts(k));
  }

  /**
   Every refusal is noted once, in the order of the candidates: a model that named a
   rate limit rests for five minutes from the reading of the clock behind its refusal,
   any other for one.
   */
  lemma RefusalsAreNoted(
    history: seq<Refusal>, before: seq<Refusal>, order: seq<ModelChoice>, attempts: nat -> Attempt,
    clock: nat -> real, first: nat, n: nat)
    requires Noted(history, before, order, attempts, clock, first, n)
    ensures before <= history && |history| == |before| + n
    ensures forall j :: 0 <= j < n ==>
              && attempts(j).failure.Some?
              && history[|before| + j]
                 == Refusal(
                      order[j].name,
                      clock(first + j) + if attempts(j).failure.value.kind.RateLimit? then 300.0 else 60.0)
  {
    hide RefusedSilently;
    forall j | 0 <= j < n
      ensures attempts(j).failure.Some?
      ensures history[|before| + j]
           == Refusal(
                order[j].name,
                clock(first + j) + if attempts(j).failure.value.kind.RateLimit? then 300.0 else 60.0)
    {
      RefusalAt(order, attempts, clock, first, n, j);
    }
  }

  lemma {:induction false} RefusalAt(
    order: seq<ModelChoice>, attempts: nat -> Attempt, clock: nat -> real, first: nat, n: nat, j: nat)
    requires j < n <= |order| && AllRefused(attempts, n)
    ensures attempts(j).failure.Some?
    ensures Refusals(order, attempts, clock, first, n)[j]
         == Refusal(
              order[j].name,
              clock(first + j) + if attempts(j).failure.value.kind.RateLimit? then 300.0 else 60.0)
  {
    assert RefusedSilently(attempts(j));
    hide RefusedSilently;
    if j < n - 1 {
      RefusalAt(order, attempts, clock, first, n - 1, j);
    }
  }

  // ---- resting models ----------------------------------------------------------------------

  /** The cooling table says of every model when its latest refusal stops counting. */
  lemma {:induction false} CoolingIsLatestExpiry(history: seq<Refusal>, name: string)
    ensures (if name in Cooling(history) then Cooling(history)[name] else 0.0) == LatestExpiry(history, name)
  {
    if history != [] {
      CoolingIsLatestExpiry(Init(history), name);
    }
  }

  /** Ordering keeps every candidate, and the candidates of either kind keep their order. */
  lemma LiveFirstIsStablePermutation(candidates: seq<ModelChoice>, cooling: map<string, real>, now: real)
    ensures var order := LiveFirst(candidates, cooling, now);
      && multiset(order) == multiset(candidates)
      && forall live :: Pick(order, live, cooling, now) == Pick(candidates, live, cooling, now)
  {
    var first, second := Pick(candidates, true, cooling, now), Pick(candidates, false, cooling, now);
    PickIsPartition(candidates, cooling, now);
    forall live
      ensures Pick(first + second, live, cooling, now) == Pick(candidates, live, cooling, now)
    {
      PickOfConcat(first, second, live, cooling, now);
      PickAgain(candidates, true, live, cooling, now);
      PickAgain(candidates, false, live, cooling, now);
      assert first + [] == first && [] + second == second;
    }
  }

  lemma {:induction false} PickIsPartition(candidates: seq<ModelChoice>, cooling: map<string, real>, now: real)
    ensures multiset(Pick(candidates, true, cooling, now) + Pick(candidates, false, cooling, now)) == multiset(candidates)
  {
    hide IsLive;
    if candidates != [] {
      PickIsPartition(candidates[1..], cooling, now);
      assert candidates == [candidates[0]] + candidates[1..];
      var live, resting := Pick(candidates[1..], true, cooling, now), Pick(candidates[1..], false, cooling, now);
      assert multiset(live + resting) == multiset(live) + multiset(resting);
      assert multiset([candidates[0]] + live) == multiset([candidates[0]]) + multiset(live);
      assert multiset([candidates[0]] + resting) == multiset([candidates[0]]) + multiset(resting);
    }
  }

  lemma PickOfCons(choice: ModelChoice, rest: seq<ModelChoice>, live: bool, cooling: map<string, real>, now: real)
    ensures Pick([choice] + rest, live, cooling, now)
         == (if IsLive(cooling, now, choice) == live then [choice] else []) + Pick(rest, live, cooling, now)
  {
    hide IsLive;
    assert ([choice] + rest)[1..] == rest;
  }

  lemma {:induction false} PickOfConcat(
    a: seq<ModelChoice>, b: seq<ModelChoice>, live: bool, cooling: map<string, real>, now: real)
    ensures Pick(a + b, live, cooling, now) == Pick(a, live, cooling, now) + Pick(b, live, cooling, now)
  {
    if a == [] {
      assert a + b == b && [] + Pick(b, live, cooling, now) == Pick(b, live, cooling, now);
    } else {
      hide Pick, IsLive;
      var head := if IsLive(cooling, now, a[0]) == live then [a[0]] else [];
      PickOfConcat(a[1..], b, live, cooling, now);
      PickOfCons(a[0], a[1..] + b, live, cooling, now);
      PickOfCons(a[0], a[1..], live, cooling, now);
      HeadAndTail(a, b);
      Associates(head, Pick(a[1..], live, cooling, now), Pick(b, live, cooling, now));
    }
  }

  lemma {:induction false} PickAgain(
    candidates: seq<ModelChoice>, first: bool, second: bool, cooling: map<string, real>, now: real)
    ensures Pick(Pick(candidates, first, cooling, now), second, cooling, now)
         == if first == second then Pick(candidates, first, cooling, now) else []
  {
    hide IsLive;
    if candidates != [] {
      PickAgain(candidates[1..], first, second, cooling, now);
      PickOfCons(candidates[0], Pick(candidates[1..], first, cooling, now), second, cooling, now);
      assert [] + Pick(candidates[1..], first, cooling, now) == Pick(candidates[1..], first, cooling, now);
    }
  }

  lemma {:induction false} PickMembers(candidates: seq<ModelChoice>, live: bool, cooling: map<string, real>, now: real)
    ensures forall c :: c in Pick(candidates, live, cooling, now) <==> c in candidates && IsLive(cooling, now, c) == live
  {
    hide IsLive;
    if candidates != [] {
      PickMembers(candidates[1..], live, cooling, now);
    }
  }

  /** One stream of a session: whom it could ask, what they did, and what came of it. */
  datatype Call = Call(
    candidates: seq<ModelChoice>, attempts: nat -> Attempt, pieces: seq<StreamPiece>, ending: Ending, refused: nat)

  /** How often the clock was read by these streams: at the start of each and at each refusal. */
  function TicksOf(calls: seq<Call>): nat {
    if calls == [] then 0 else TicksOf(Init(calls)) + 1 + Last(calls).refused
  }

  /** What the first streams leave behind, and the order of the last. */
  ghost predicate IsSession(clock: nat -> real, calls: seq<Call>, history: seq<Refusal>) {
    if calls == [] then history == []
    else
      exists before :: IsSession(clock, Init(calls), before)
        && IsNextStream(clock, before, TicksOf(Init(calls)), Last(calls), history)
  }

  function OrderOf(clock: nat -> real, before: seq<Refusal>, tick: nat, call: Call): seq<ModelChoice> {
    LiveFirst(call.candidates, Cooling(before), clock(tick))
  }

  /** The stream that starts at this tick with this history, and the history behind it. */
  ghost predicate IsNextStream(
    clock: nat -> real, before: seq<Refusal>, tick: nat, call: Call, history: seq<Refusal>)
  {
    var order := OrderOf(clock, before, tick, call);
    && IsStream(order, call.attempts, call.pieces, call.ending, call.refused)
    && Noted(history, before, order, call.attempts, clock, tick + 1, call.refused)
  }

  /** A client that has served a session serves one stream more: its contract is a session again. */
  method StreamOnce(
    client: LiteLlmClient, requirements: Requirements, attempts: nat -> Attempt, ghost calls: seq<Call>)
    returns (pieces: seq<StreamPiece>, ending: Ending, ghost longer: seq<Call>)
    requires client.Valid() && client.ticks == TicksOf(calls) && IsSession(client.clock, calls, client.history)
    modifies client
    ensures client.Valid() && client.ticks == TicksOf(longer) && IsSession(client.clock, longer, client.history)
    ensures longer != [] && Init(longer) == calls && Last(longer).attempts == attempts
    ensures Last(longer).candidates == client.router.Candidates(requirements)
    ensures Last(longer).pieces == pieces && Last(longer).ending == ending
  {
    hide IsStream, Noted, Cooling, NeverGoesBack, LiveFirst;
    ghost var before := client.history;
    ghost var order, now, refused;
    pieces, ending, order, now, refused := client.Stream(requirements, attempts);
    var candidates := client.router.Candidates(requirements);
    longer := calls + [Call(candidates, attempts, pieces, ending, refused)];
    assert Init(longer) == calls;
    assert IsNextStream(client.clock, before, TicksOf(calls), Last(longer), client.history);
  }

  /**
   Over any session and a clock that never goes back: a model that a stream asks at
   any tick of its own while the cooldown of the model's latest earlier refusal still
   runs is asked only after every candidate that was not resting when the stream
   began has been asked in it and refused.
   */
  lemma RestingModelsAreAskedLast(
    clock: nat -> real, calls: seq<Call>, before: seq<Refusal>, call: Call, history: seq<Refusal>,
    position: nat, tick: nat, other: ModelChoice)
    returns (earlier: nat)
    requires NeverGoesBack(clock) && IsSession(clock, calls, before)
    requires IsNextStream(clock, before, TicksOf(calls), call, history)
    requires var order := OrderOf(clock, before, TicksOf(calls), call);
      && position < |order| && position <= call.refused
      && TicksOf(calls) <= tick && clock(tick) < LatestExpiry(before, order[position].name)
    requires other in call.candidates && LatestExpiry(before, other.name) <= clock(TicksOf(calls))
    ensures var order := OrderOf(clock, before, TicksOf(calls), call);
      earlier < position && order[earlier] == other && RefusedSilently(call.attempts(earlier))
  {
    var now := clock(TicksOf(calls));
    assert now <= clock(tick);
    var cooling, order := Cooling(before), OrderOf(clock, before, TicksOf(calls), call);
    hide RefusedSilently, Cooling, Notices, Delivered, Noted, IsSession, TicksOf, NeverGoesBack;
    CoolingIsLatestExpiry(before, order[position].name);
    CoolingIsLatestExpiry(before, other.name);
    PickMembers(call.candidates, true, cooling, now);
    var live := Pick(call.candidates, true, cooling, now);
    assert other in live;
    earlier :| 0 <= earlier < |live| && live[earlier] == other;
    forall k | 0 <= k < |live|
      ensures IsLive(cooling, now, order[k])
    {
      assert order[k] == live[k] && live[k] in live;
    }
  }

  /** With the router's candidates no model is asked twice in one stream, and none the policy forbids. */
  lemma EachCandidateIsAskedOnce(
    router: ModelRouter, requirements: Requirements, cooling: map<string, real>, now: real)
    requires DistinctKeys(router.Catalogue(requirements.allowedTrust)) && router.localChoice.trust == Local
    ensures var order := LiveFirst(router.Candidates(requirements), cooling, now);
      && Distinct(order)
      && forall c :: c in order ==> c.trust.IsAllowedBy(requirements.allowedTrust)
  {
    var candidates := router.Candidates(requirements);
    var order := LiveFirst(candidates, cooling, now);
    CandidatesAreTheSatisfyingModels(router, requirements);
    CandidatesStayInsidePolicy(router, requirements);
    LiveFirstIsStablePermutation(candidates, cooling, now);
    DistinctOfPermutation(candidates, order);
    forall c | c in order
      ensures c.trust.IsAllowedBy(requirements.allowedTrust)
    {
      assert c in multiset(order);
    }
  }
}
