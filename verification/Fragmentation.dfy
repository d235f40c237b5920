/** Why it does not matter how a stream cuts its tool calls into increments, and when it does. */
module Fragmentation {
  import opened Prelude
  import opened Dialogue
  import opened Router
  import opened StreamCollector

  // ---- the calls of a whole stream --------------------------------------------------------

  /** The increments of all chunks, in order, each with the index its own chunk gives it. */
  function AllPieces(chunks: seq<Chunk>): seq<Piece> {
    if chunks == [] then [] else AllPieces(Init(chunks)) + PiecesOf(Last(chunks))
  }

  lemma {:induction false} AssembleConcat(calls: map<int, CallParts>, a: seq<Piece>, b: seq<Piece>)
    ensures Assemble(calls, a + b) == Assemble(Assemble(calls, a), b)
  {
    if b == [] {
      assert a + b == a;
    } else {
      AssembleConcat(calls, a, Init(b));
      assert Init(a + b) == a + Init(b);
    }
  }

  /** Collecting chunk by chunk is collecting all increments one after another. */
  lemma {:induction false} CallsOfStream(chunks: seq<Chunk>)
    ensures AbsorbAll(chunks).calls == Assemble(map[], AllPieces(chunks))
  {
    if chunks != [] {
      CallsOfStream(Init(chunks));
      AssembleConcat(map[], AllPieces(Init(chunks)), PiecesOf(Last(chunks)));
      hide Assemble, PiecesOf;
    }
  }

  /** The increments of one call, in the order they came. */
  function Of(pieces: seq<Piece>, index: int): seq<Piece> {
    if pieces == [] then []
    else Of(Init(pieces), index) + if Last(pieces).index == index then [Last(pieces)] else []
  }

  function LastId(pieces: seq<Piece>): string {
    if pieces == [] then "" else if Last(pieces).id != "" then Last(pieces).id else LastId(Init(pieces))
  }

  function LastName(pieces: seq<Piece>): string {
    if pieces == [] then "" else if Last(pieces).name != "" then Last(pieces).name else LastName(Init(pieces))
  }

  function WholeArguments(pieces: seq<Piece>): string {
    if pieces == [] then "" else WholeArguments(Init(pieces)) + Last(pieces).arguments
  }

  /** A call is assembled from its own increments only: its last id, its last name, all its argument text. */
  lemma {:induction false} AssembledFromOwnPieces(pieces: seq<Piece>, index: int)
    ensures index in Assemble(map[], pieces) <==> Of(pieces, index) != []
    ensures index in Assemble(map[], pieces) ==>
              Assemble(map[], pieces)[index] == PartsOf(Of(pieces, index))
  {
    if pieces != [] {
      var earlier, last := Of(Init(pieces), index), Last(pieces);
      AssembledFromOwnPieces(Init(pieces), index);
      PartsOfAppend(earlier, last);
      if earlier == [] {
        assert PartsOf(earlier) == NO_PARTS;
      }
      hide PartsOf;
      assert Of(pieces, index) == if last.index == index then earlier + [last] else earlier;
    }
  }

  lemma PartsOfAppend(pieces: seq<Piece>, piece: Piece)
    ensures PartsOf(pieces + [piece]) == AddPart(PartsOf(pieces), piece)
  {
    assert Init(pieces + [piece]) == pieces;
  }

  lemma OfAppend(pieces: seq<Piece>, piece: Piece, index: int)
    ensures Of(pieces + [piece], index) == Of(pieces, index) + if piece.index == index then [piece] else []
  {
    assert Init(pieces + [piece]) == pieces;
  }

  lemma {:induction false} OfConcat(a: seq<Piece>, b: seq<Piece>, index: int)
    ensures Of(a + b, index) == Of(a, index) + Of(b, index)
  {
    if b == [] {
      assert a + b == a;
    } else {
      OfConcat(a, Init(b), index);
      OfAppend(a + Init(b), Last(b), index);
      assert a + Init(b) + [Last(b)] == a + b;
    }
  }

  function PartsOf(pieces: seq<Piece>): CallParts {
    CallParts(LastId(pieces), LastName(pieces), WholeArguments(pieces))
  }

  function Combine(a: CallParts, b: CallParts): CallParts {
    CallParts(
      if b.id != "" then b.id else a.id,
      if b.name != "" then b.name else a.name,
      a.arguments + b.arguments)
  }

  lemma {:induction false} PartsOfConcat(a: seq<Piece>, b: seq<Piece>)
    ensures PartsOf(a + b) == Combine(PartsOf(a), PartsOf(b))
  {
    if b == [] {
      assert a + b == a;
      assert WholeArguments(a) + "" == WholeArguments(a);
    } else {
      hide PartsOf;
      PartsOfConcat(a, Init(b));
      assert a + Init(b) + [Last(b)] == a + b && Init(b) + [Last(b)] == b;
      PartsOfAppend(a + Init(b), Last(b));
      PartsOfAppend(Init(b), Last(b));
      CombineIsAssociative(PartsOf(a), PartsOf(Init(b)), Last(b));
    }
  }

  lemma CombineIsAssociative(a: CallParts, b: CallParts, piece: Piece)
    ensures AddPart(Combine(a, b), piece) == Combine(a, AddPart(b, piece))
  {
    assert (a.arguments + b.arguments) + piece.arguments == a.arguments + (b.arguments + piece.arguments);
  }

  // ---- what the calls depend on --------------------------------------------------------------

  function PartsIn(calls: map<int, CallParts>, index: int): CallParts {
    if index in calls then calls[index] else NO_PARTS
  }

  predicate IsNamed(calls: map<int, CallParts>, index: int) {
    PartsIn(calls, index).name != ""
  }

  predicate IsAscending(indices: seq<int>) {
    forall i, j :: 0 <= i < j < |indices| ==> indices[i] < indices[j]
  }

  /** The call is what these parts say, with the stated replacements for what is missing. */
  predicate IsCallOf(index: int, parts: CallParts, call: ToolCall) {
    && call.name == parts.name
    && (if parts.id != "" then call.id == parts.id else call.id == "call_" + IntText(index))
    && (if parts.arguments != "" then call.arguments == parts.arguments else call.arguments == "{}")
  }

  /** These are the named calls among these indices. */
  ghost predicate AreCallsOf(calls: map<int, CallParts>, named: seq<int>, result: seq<ToolCall>) {
    && |result| == |named|
    && forall k :: 0 <= k < |named| ==>
                     IsNamed(calls, named[k]) && IsCallOf(named[k], PartsIn(calls, named[k]), result[k])
  }

  lemma CallIs(index: int, parts: CallParts, call: ToolCall)
    ensures IsCallOf(index, parts, call) <==> call == CallOf(index, parts)
  {
    hide IntText;
  }

  lemma RestOfAscending(a: seq<int>)
    requires IsAscending(a) && a != []
    ensures IsAscending(a[1..]) && forall x :: x in a[1..] <==> x in a && x != a[0]
  {
    assert forall i, j :: 0 <= i < j < |a[1..]| ==> a[1..][i] == a[i + 1] && a[1..][j] == a[j + 1];
    forall x | x in a[1..]
      ensures x in a && x != a[0]
    {
      var k :| 0 <= k < |a[1..]| && a[1..][k] == x;
      assert a[k + 1] == x;
    }
    assert a == [a[0]] + a[1..];
  }

  lemma AscendingCons(first: int, indices: seq<int>)
    requires IsAscending(indices) && forall index :: index in indices ==> first < index
    ensures IsAscending([first] + indices)
  {
    forall j | 0 <= j < |indices|
      ensures first < indices[j]
    {
      assert indices[j] in indices;
    }
  }

  lemma HeadIsLeast(indices: seq<int>)
    requires IsAscending(indices) && indices != []
    ensures forall index :: index in indices[1..] ==> indices[0] < index
  {
    forall index | index in indices[1..]
      ensures indices[0] < index
    {
      var k :| 0 <= k < |indices[1..]| && indices[1..][k] == index;
      assert indices[0] < indices[k + 1];
    }
  }

  lemma CallsOfCons(calls: map<int, CallParts>, first: int, named: seq<int>, result: seq<ToolCall>)
    requires IsNamed(calls, first) && AreCallsOf(calls, named, result)
    ensures AreCallsOf(calls, [first] + named, [CallOf(first, PartsIn(calls, first))] + result)
  {
    CallIs(first, PartsIn(calls, first), CallOf(first, PartsIn(calls, first)));
    hide IsNamed, CallOf, IsCallOf;
  }

  lemma NamedCallsUnfold(calls: map<int, CallParts>, indices: seq<int>)
    requires indices != [] && forall k :: 0 <= k < |indices| ==> indices[k] in calls
    ensures forall k :: 0 <= k < |indices[1..]| ==> indices[1..][k] in calls
    ensures NamedCalls(calls, indices)
         == if IsNamed(calls, indices[0]) then
              [CallOf(indices[0], PartsIn(calls, indices[0]))] + NamedCalls(calls, indices[1..])
            else NamedCalls(calls, indices[1..])
  {
    hide CallOf;
    assert [] + NamedCalls(calls, indices[1..]) == NamedCalls(calls, indices[1..]);
  }

  lemma {:induction false} NamedAmong(calls: map<int, CallParts>, indices: seq<int>) returns (named: seq<int>)
    requires IsAscending(indices) && forall k :: 0 <= k < |indices| ==> indices[k] in calls
    ensures IsAscending(named) && AreCallsOf(calls, named, NamedCalls(calls, indices))
    ensures forall index :: index in named <==> index in indices && IsNamed(calls, index)
  {
    if indices == [] {
      named := [];
    } else {
      var first, rest := indices[0], indices[1..];
      assert indices == [first] + rest;
      RestOfAscending(indices);
      HeadIsLeast(indices);
      NamedCallsUnfold(calls, indices);
      hide CallOf, NamedCalls, IsAscending, AreCallsOf, IsNamed;
      var more := NamedAmong(calls, rest);
      if IsNamed(calls, first) {
        named := [first] + more;
        AscendingCons(first, more);
        CallsOfCons(calls, first, more, NamedCalls(calls, rest));
      } else {
        named := more;
      }
    }
  }

  /** The calls of a response are the named ones, once each, in the order of their indices. */
  lemma ToolCallsAreTheNamed(calls: map<int, CallParts>) returns (named: seq<int>)
    ensures IsAscending(named) && AreCallsOf(calls, named, ToolCallsOf(calls))
    ensures forall index :: index in named <==> IsNamed(calls, index)
  {
    named := NamedAmong(calls, Ascending(calls.Keys));
    hide AreCallsOf, IsAscending, NamedCalls, Ascending;
    forall index
      ensures index in named <==> IsNamed(calls, index)
    {
      assert index in calls.Keys <==> index in calls;
    }
  }

  lemma SomeElement(indices: seq<int>) returns (x: int)
    ensures indices == [] || x in indices
  {
    x := if indices == [] then 0 else indices[0];
  }

  lemma {:induction false} AscendingIsUnique(a: seq<int>, b: seq<int>)
    requires IsAscending(a) && IsAscending(b) && forall x :: x in a <==> x in b
    ensures a == b
  {
    if a == [] {
      var x := SomeElement(b);
      assert x !in a;
    } else {
      assert a[0] in a && b != [];
      assert b[0] in b;
      assert a[0] == b[0];
      RestOfAscending(a);
      RestOfAscending(b);
      hide IsAscending;
      AscendingIsUnique(a[1..], b[1..]);
      assert a == [a[0]] + a[1..] && b == [b[0]] + b[1..];
    }
  }

  /** The parts one index brings: its last id, its last name and its whole argument text, if any. */
  function PartsAt(pieces: seq<Piece>, index: int): CallParts {
    PartsOf(Of(pieces, index))
  }

  /** Index by index both streams bring the same. */
  ghost predicate SameCalls(a: seq<Piece>, b: seq<Piece>) {
    forall index :: PartsAt(a, index) == PartsAt(b, index)
  }

  lemma PartsInStream(pieces: seq<Piece>, index: int)
    ensures PartsIn(Assemble(map[], pieces), index) == PartsAt(pieces, index)
  {
    AssembledFromOwnPieces(pieces, index);
    assert PartsOf([]) == NO_PARTS;
    hide Assemble, Of, PartsOf;
  }

  lemma SamePartsSameCalls(a: map<int, CallParts>, b: map<int, CallParts>)
    requires forall index :: PartsIn(a, index) == PartsIn(b, index)
    ensures ToolCallsOf(a) == ToolCallsOf(b)
  {
    hide CallOf, ToolCallsOf, IsAscending, PartsIn;
    var m := ToolCallsAreTheNamed(a);
    var n := ToolCallsAreTheNamed(b);
    AscendingIsUnique(m, n);
  }

  lemma SameCallsInStreams(a: seq<Piece>, b: seq<Piece>)
    requires SameCalls(a, b)
    ensures ToolCallsOf(Assemble(map[], a)) == ToolCallsOf(Assemble(map[], b))
  {
    hide Assemble, PartsAt, ToolCallsOf, PartsIn;
    forall index
      ensures PartsIn(Assemble(map[], a), index) == PartsIn(Assemble(map[], b), index)
    {
      assert PartsAt(a, index) == PartsAt(b, index);
      PartsInStream(a, index);
      PartsInStream(b, index);
    }
    SamePartsSameCalls(Assemble(map[], a), Assemble(map[], b));
  }

  /**
   Two streams of chunks whose increments bring the same index by index end in the
   same calls, however the increments are cut, interleaved and grouped into chunks.
   */
  lemma FragmentationDoesNotMatter(a: seq<Chunk>, b: seq<Chunk>, choice: ModelChoice)
    requires SameCalls(AllPieces(a), AllPieces(b))
    ensures FinishOf(AbsorbAll(a), choice).toolCalls == FinishOf(AbsorbAll(b), choice).toolCalls
  {
    hide AbsorbAll, AllPieces, Assemble, ToolCallsOf, SameCalls;
    CallsOfStream(a);
    CallsOfStream(b);
    SameCallsInStreams(AllPieces(a), AllPieces(b));
  }

  /** The increments of the stream bring these parts, index by index, cut and interleaved in any way. */
  ghost predicate Carries(chunks: seq<Chunk>, calls: map<int, CallParts>) {
    forall index :: PartsAt(AllPieces(chunks), index) == PartsIn(calls, index)
  }

  /**
   Whatever calls a stream carries come out whole: the response has one call for
   each index that brings a name, in the order of the indices, with the identifier
   and the arguments sent, or in their place `call_` and the index, and an empty
   object. An index that never brings a name is dropped.
   */
  lemma CarriedCallsComeOut(chunks: seq<Chunk>, choice: ModelChoice, calls: map<int, CallParts>)
    returns (named: seq<int>)
    requires Carries(chunks, calls)
    ensures IsAscending(named) && forall index :: index in named <==> IsNamed(calls, index)
    ensures AreCallsOf(calls, named, FinishOf(AbsorbAll(chunks), choice).toolCalls)
  {
    hide AbsorbAll, AllPieces, Assemble, PartsAt, PartsIn, ToolCallsOf, AreCallsOf, IsAscending, IsNamed;
    CallsOfStream(chunks);
    var collected := Assemble(map[], AllPieces(chunks));
    forall index
      ensures PartsIn(collected, index) == PartsIn(calls, index)
    {
      assert PartsAt(AllPieces(chunks), index) == PartsIn(calls, index);
      PartsInStream(AllPieces(chunks), index);
    }
    SamePartsSameCalls(collected, calls);
    named := ToolCallsAreTheNamed(calls);
  }

  // ---- regrouping into other chunks ------------------------------------------------------------

  function DeltasOf(chunk: Chunk): seq<CallDelta> {
    if chunk.choice.Some? && chunk.choice.value.delta.Some? then chunk.choice.value.delta.value.toolCalls else []
  }

  /** The increments as they were sent, whatever chunks they came in. */
  function Increments(chunks: seq<Chunk>): seq<CallDelta> {
    if chunks == [] then [] else Increments(Init(chunks)) + DeltasOf(Last(chunks))
  }

  /** The increment says which call it belongs to, or brings nothing at all. */
  predicate IsPlaced(delta: CallDelta) {
    delta.index.Some? || (delta.id == "" && delta.name == "" && delta.arguments == "")
  }

  predicate ArePlaced(deltas: seq<CallDelta>) {
    forall delta :: delta in deltas ==> IsPlaced(delta)
  }

  /** The increments with position 0 for every missing index. */
  function Fixed(deltas: seq<CallDelta>): seq<Piece> {
    if deltas == [] then [] else Fixed(Init(deltas)) + [Resolve(Last(deltas), 0)]
  }

  lemma PlacedOfConcat(a: seq<CallDelta>, b: seq<CallDelta>)
    ensures ArePlaced(a + b) <==> ArePlaced(a) && ArePlaced(b)
  {
    if ArePlaced(a + b) {
      forall delta | delta in a || delta in b
        ensures IsPlaced(delta)
      {
        assert delta in a + b;
      }
    }
  }

  lemma {:induction false} FixedOfConcat(a: seq<CallDelta>, b: seq<CallDelta>)
    ensures Fixed(a + b) == Fixed(a) + Fixed(b)
  {
    if b == [] {
      assert a + b == a;
    } else {
      FixedOfConcat(a, Init(b));
      assert Init(a + b) == a + Init(b);
    }
  }

  lemma PartsAtConcat(a: seq<Piece>, b: seq<Piece>, index: int)
    ensures PartsAt(a + b, index) == Combine(PartsAt(a, index), PartsAt(b, index))
  {
    hide Of, PartsOf, Combine;
    OfConcat(a, b, index);
    PartsOfConcat(Of(a, index), Of(b, index));
  }

  /** A placed increment brings the same wherever it stands in its chunk. */
  lemma PlacedBringsTheSame(delta: CallDelta, position: nat, other: nat, index: int)
    requires IsPlaced(delta)
    ensures PartsAt([Resolve(delta, position)], index) == PartsAt([Resolve(delta, other)], index)
  {
    BringsOne(Resolve(delta, position), index);
    BringsOne(Resolve(delta, other), index);
  }

  lemma BringsOne(piece: Piece, index: int)
    ensures PartsAt([piece], index)
         == if piece.index == index then CallParts(piece.id, piece.name, piece.arguments) else NO_PARTS
  {
    var one := [piece];
    assert Init(one) == [] && Last(one) == piece;
    assert Of(one, index) == [] + if piece.index == index then one else [];
    assert Of(one, index) == if piece.index == index then one else [];
    assert WholeArguments(one) == "" + piece.arguments == piece.arguments;
    assert LastId(one) == piece.id && LastName(one) == piece.name;
  }

  lemma {:induction false} ResolvedIsFixed(deltas: seq<CallDelta>, index: int)
    requires ArePlaced(deltas)
    ensures PartsAt(Resolved(deltas), index) == PartsAt(Fixed(deltas), index)
  {
    if deltas != [] {
      assert deltas == Init(deltas) + [Last(deltas)];
      PlacedOfConcat(Init(deltas), [Last(deltas)]);
      assert Last(deltas) in deltas;
      hide PartsAt, Combine, IsPlaced, Resolve;
      ResolvedIsFixed(Init(deltas), index);
      PartsAtConcat(Resolved(Init(deltas)), [Resolve(Last(deltas), |deltas| - 1)], index);
      PartsAtConcat(Fixed(Init(deltas)), [Resolve(Last(deltas), 0)], index);
      PlacedBringsTheSame(Last(deltas), |deltas| - 1, 0, index);
    }
  }

  lemma PiecesAreResolved(chunk: Chunk)
    ensures PiecesOf(chunk) == Resolved(DeltasOf(chunk))
  {
  }

  lemma {:induction false} StreamIsFixed(chunks: seq<Chunk>, index: int)
    requires ArePlaced(Increments(chunks))
    ensures PartsAt(AllPieces(chunks), index) == PartsAt(Fixed(Increments(chunks)), index)
  {
    if chunks != [] {
      PiecesAreResolved(Last(chunks));
      hide PartsAt, Combine, ArePlaced, Resolved, Fixed, PiecesOf, DeltasOf;
      PlacedOfConcat(Increments(Init(chunks)), DeltasOf(Last(chunks)));
      StreamIsFixed(Init(chunks), index);
      ResolvedIsFixed(DeltasOf(Last(chunks)), index);
      PartsAtConcat(AllPieces(Init(chunks)), PiecesOf(Last(chunks)), index);
      FixedOfConcat(Increments(Init(chunks)), DeltasOf(Last(chunks)));
      PartsAtConcat(Fixed(Increments(Init(chunks))), Fixed(DeltasOf(Last(chunks))), index);
    }
  }

  /** Increments that say where they belong may come in any chunks. */
  lemma RegroupingKeepsCalls(a: seq<Chunk>, b: seq<Chunk>, choice: ModelChoice)
    requires Increments(a) == Increments(b) && ArePlaced(Increments(a))
    ensures FinishOf(AbsorbAll(a), choice).toolCalls == FinishOf(AbsorbAll(b), choice).toolCalls
  {
    hide AbsorbAll, AllPieces, Increments, PartsAt, ArePlaced, ToolCallsOf, Fixed;
    forall index
      ensures PartsAt(AllPieces(a), index) == PartsAt(AllPieces(b), index)
    {
      StreamIsFixed(a, index);
      StreamIsFixed(b, index);
    }
    FragmentationDoesNotMatter(a, b, choice);
  }

  /** And their argument text may be cut anywhere, the halves coming in any chunks as well. */
  lemma CuttingKeepsCalls(
    a: seq<Chunk>, b: seq<Chunk>, choice: ModelChoice,
    before: seq<CallDelta>, delta: CallDelta, first: string, second: string, after: seq<CallDelta>)
    requires ArePlaced(before) && delta.index.Some? && ArePlaced(after) && delta.arguments == first + second
    requires Increments(a) == before + [delta] + after
    requires Increments(b) == before + [delta.(arguments := first), CallDelta(delta.index, "", "", second)] + after
    ensures FinishOf(AbsorbAll(a), choice).toolCalls == FinishOf(AbsorbAll(b), choice).toolCalls
  {
    var whole, cut := [delta], [delta.(arguments := first), CallDelta(delta.index, "", "", second)];
    assert ArePlaced(whole) && ArePlaced(cut);
    hide AbsorbAll, AllPieces, Increments, PartsAt, ArePlaced, ToolCallsOf, Fixed, Combine;
    PlacedAround(before, whole, after);
    PlacedAround(before, cut, after);
    forall index
      ensures PartsAt(AllPieces(a), index) == PartsAt(AllPieces(b), index)
    {
      StreamIsFixed(a, index);
      StreamIsFixed(b, index);
      CutBringsTheSame(delta, first, second, index);
      FixedAround(before, whole, after, index);
      FixedAround(before, cut, after, index);
    }
    FragmentationDoesNotMatter(a, b, choice);
  }

  lemma PlacedAround(a: seq<CallDelta>, b: seq<CallDelta>, c: seq<CallDelta>)
    requires ArePlaced(a) && ArePlaced(b) && ArePlaced(c)
    ensures ArePlaced(a + b + c)
  {
    PlacedOfConcat(a, b);
    PlacedOfConcat(a + b, c);
  }

  lemma FixedAround(a: seq<CallDelta>, b: seq<CallDelta>, c: seq<CallDelta>, index: int)
    ensures PartsAt(Fixed(a + b + c), index)
         == Combine(Combine(PartsAt(Fixed(a), index), PartsAt(Fixed(b), index)), PartsAt(Fixed(c), index))
  {
    hide PartsAt, Combine, Fixed;
    FixedOfConcat(a, b);
    FixedOfConcat(a + b, c);
    PartsAtConcat(Fixed(a), Fixed(b), index);
    PartsAtConcat(Fixed(a + b), Fixed(c), index);
  }

  lemma CutBringsTheSame(delta: CallDelta, first: string, second: string, index: int)
    requires delta.index.Some? && delta.arguments == first + second
    ensures PartsAt(Fixed([delta]), index)
         == PartsAt(Fixed([delta.(arguments := first), CallDelta(delta.index, "", "", second)]), index)
  {
    var one, two := delta.(arguments := first), CallDelta(delta.index, "", "", second);
    FixedOne(delta);
    FixedOne(one);
    FixedOne(two);
    assert [one, two] == [one] + [two];
    FixedOfConcat([one], [two]);
    PartsAtConcat([Resolve(one, 0)], [Resolve(two, 0)], index);
    BringsOne(Resolve(delta, 0), index);
    BringsOne(Resolve(one, 0), index);
    BringsOne(Resolve(two, 0), index);
    assert "" + "" == "";
    hide PartsAt, Fixed;
  }

  lemma FixedOne(delta: CallDelta)
    ensures Fixed([delta]) == [Resolve(delta, 0)]
  {
    assert Init([delta]) == [];
  }

  // ---- when regrouping breaks calls -------------------------------------------------------------

  function ChunkWith(deltas: seq<CallDelta>): Chunk {
    Chunk(None, Some(Choice("", Some(Delta("", deltas)))))
  }

  /** Two calls open, and then this increment: in a chunk of its own, or in the chunk of the second call. */
  function Apart(delta: CallDelta): seq<Chunk> {
    [ChunkWith([FirstCall(delta)]), ChunkWith([SecondCall(delta)]), ChunkWith([delta])]
  }

  function Together(delta: CallDelta): seq<Chunk> {
    [ChunkWith([FirstCall(delta)]), ChunkWith([SecondCall(delta), delta])]
  }

  function FirstCall(delta: CallDelta): CallDelta {
    CallDelta(Some(0), delta.id + "x", delta.name + "x", "y")
  }

  function SecondCall(delta: CallDelta): CallDelta {
    CallDelta(Some(1), delta.id + "x", delta.name + "x", "z")
  }

  lemma PiecesOfTwo(delta: CallDelta)
    ensures var first, second := Resolve(FirstCall(delta), 0), Resolve(SecondCall(delta), 0);
      && AllPieces(Apart(delta)) == [first] + [second] + [Resolve(delta, 0)]
      && AllPieces(Together(delta)) == [first] + [second] + [Resolve(delta, 1)]
      && Increments(Apart(delta)) == [FirstCall(delta), SecondCall(delta), delta] == Increments(Together(delta))
  {
    var one, two := FirstCall(delta), SecondCall(delta);
    var a, b, c, d := ChunkWith([one]), ChunkWith([two]), ChunkWith([delta]), ChunkWith([two, delta]);
    assert Init([one]) == [] && Init([two]) == [] && Init([delta]) == [] && Init([two, delta]) == [two];
    assert PiecesOf(a) == [Resolve(one, 0)] && PiecesOf(b) == [Resolve(two, 0)] && PiecesOf(c) == [Resolve(delta, 0)];
    assert PiecesOf(d) == [Resolve(two, 0), Resolve(delta, 1)];
    assert Init([a, b, c]) == [a, b] && Init([a, b]) == [a] && Init([a]) == [] && Init([a, d]) == [a];
    assert AllPieces([a]) == [] + PiecesOf(a) && Increments([a]) == [] + DeltasOf(a);
    assert AllPieces([a, b]) == AllPieces([a]) + PiecesOf(b) && Increments([a, b]) == Increments([a]) + DeltasOf(b);
  }

  function Brought(piece: Piece, index: int): CallParts {
    if piece.index == index then CallParts(piece.id, piece.name, piece.arguments) else NO_PARTS
  }

  lemma PartsOfThree(first: Piece, second: Piece, third: Piece, index: int)
    ensures PartsAt([first] + [second] + [third], index)
         == Combine(Combine(Brought(first, index), Brought(second, index)), Brought(third, index))
  {
    BringsOne(first, index);
    BringsOne(second, index);
    BringsOne(third, index);
    hide PartsAt, Combine;
    PartsAtConcat([first], [second], index);
    PartsAtConcat([first] + [second], [third], index);
  }

  lemma CombineNothing(parts: CallParts)
    ensures Combine(parts, NO_PARTS) == parts && Combine(NO_PARTS, parts) == parts
  {
    assert parts.arguments + "" == parts.arguments && "" + parts.arguments == parts.arguments;
  }

  lemma PartsOfApart(delta: CallDelta)
    requires delta.index.None?
    ensures PartsAt(AllPieces(Apart(delta)), 0)
         == Combine(Brought(Resolve(FirstCall(delta), 0), 0), Brought(Resolve(delta, 0), 0))
  {
    PiecesOfTwo(delta);
    hide AllPieces, Apart, PartsAt, Combine;
    var first, second := Resolve(FirstCall(delta), 0), Resolve(SecondCall(delta), 0);
    PartsOfThree(first, second, Resolve(delta, 0), 0);
    CombineNothing(Brought(first, 0));
  }

  lemma PartsOfTogether(delta: CallDelta, index: int)
    requires delta.index.None?
    ensures PartsAt(AllPieces(Together(delta)), index)
         == if index == 0 then Brought(Resolve(FirstCall(delta), 0), 0)
            else if index == 1 then Combine(Brought(Resolve(SecondCall(delta), 0), 1), Brought(Resolve(delta, 1), 1))
            else NO_PARTS
  {
    PiecesOfTwo(delta);
    hide AllPieces, Together, PartsAt, Combine;
    var first, second := Resolve(FirstCall(delta), 0), Resolve(SecondCall(delta), 0);
    PartsOfThree(first, second, Resolve(delta, 1), index);
    CombineNothing(Brought(first, 0));
    CombineNothing(Brought(second, 1));
    CombineNothing(NO_PARTS);
  }

  /** The call at index 0 of the one stream is none of the calls of the other. */
  lemma CallsDiffer(delta: CallDelta)
    requires !IsPlaced(delta)
    ensures var first, second := Brought(Resolve(FirstCall(delta), 0), 0), Brought(Resolve(SecondCall(delta), 0), 1);
      var moved := Brought(Resolve(delta, 0), 0);
      && moved == Brought(Resolve(delta, 1), 1) && Combine(first, moved).name != ""
      && CallOf(0, Combine(first, moved)) != CallOf(0, first)
      && CallOf(0, Combine(first, moved)) != CallOf(1, Combine(second, moved))
  {
    var moved := Brought(Resolve(delta, 0), 0);
    assert ("y" + delta.arguments)[0] == 'y' && ("z" + delta.arguments)[0] == 'z';
    assert |delta.id + "x"| == |delta.id| + 1 && |delta.name + "x"| == |delta.name| + 1;
    assert |"y" + delta.arguments| == 1 + |delta.arguments|;
  }

  lemma CallIsThere(calls: map<int, CallParts>, index: int)
    requires IsNamed(calls, index)
    ensures CallOf(index, PartsIn(calls, index)) in ToolCallsOf(calls)
  {
    hide ToolCallsOf, CallOf, IsCallOf, IsAscending, IsNamed;
    var named := ToolCallsAreTheNamed(calls);
    var k :| 0 <= k < |named| && named[k] == index;
    CallIs(index, PartsIn(calls, index), ToolCallsOf(calls)[k]);
    assert ToolCallsOf(calls)[k] == CallOf(index, PartsIn(calls, index));
  }

  lemma CallIsNot(calls: map<int, CallParts>, call: ToolCall)
    requires forall index :: IsNamed(calls, index) ==> CallOf(index, PartsIn(calls, index)) != call
    ensures call !in ToolCallsOf(calls)
  {
    hide ToolCallsOf, CallOf, IsCallOf, IsAscending, IsNamed;
    var named := ToolCallsAreTheNamed(calls);
    forall k | 0 <= k < |ToolCallsOf(calls)|
      ensures ToolCallsOf(calls)[k] != call
    {
      assert named[k] in named;
      CallIs(named[k], PartsIn(calls, named[k]), ToolCallsOf(calls)[k]);
    }
  }

  /**
   An increment that does not say where it belongs and brings anything at all: there
   are two streams with the same increments, all others placed, whose calls differ.
   */
  lemma RegroupingBreaksCalls(delta: CallDelta, choice: ModelChoice)
    requires !IsPlaced(delta)
    ensures var a, b := Apart(delta), Together(delta);
      && Increments(a) == [FirstCall(delta), SecondCall(delta), delta] == Increments(b)
      && FinishOf(AbsorbAll(a), choice).toolCalls != FinishOf(AbsorbAll(b), choice).toolCalls
  {
    var a, b := Apart(delta), Together(delta);
    PiecesOfTwo(delta);
    CallsDiffer(delta);
    hide Apart, Together, AllPieces, AbsorbAll, Assemble, PartsAt, ToolCallsOf, CallOf, Combine, PartsIn, IsPlaced;
    hide FirstCall, SecondCall, Brought, Resolve;
    var x, y := Assemble(map[], AllPieces(a)), Assemble(map[], AllPieces(b));
    CallsOfStream(a);
    CallsOfStream(b);
    PartsInStream(AllPieces(a), 0);
    PartsOfApart(delta);
    var one := CallOf(0, PartsIn(x, 0));
    CallIsThere(x, 0);
    forall index | IsNamed(y, index)
      ensures CallOf(index, PartsIn(y, index)) != one
    {
      PartsInStream(AllPieces(b), index);
      PartsOfTogether(delta, index);
    }
    CallIsNot(y, one);
  }

  /** Streams with the same increments, of which all but this one are placed, end in the same calls. */
  ghost predicate MayMove(delta: CallDelta, choice: ModelChoice) {
    forall a, b :: Increments(a) == Increments(b) && OthersPlaced(delta, Increments(a)) ==>
                     FinishOf(AbsorbAll(a), choice).toolCalls == FinishOf(AbsorbAll(b), choice).toolCalls
  }

  predicate OthersPlaced(delta: CallDelta, deltas: seq<CallDelta>) {
    forall other :: other in deltas ==> other == delta || IsPlaced(other)
  }

  /** Exactly the placed increments may move to another chunk in every stream. */
  lemma PlacedIncrementsMayMove(delta: CallDelta, choice: ModelChoice)
    ensures MayMove(delta, choice) <==> IsPlaced(delta)
  {
    hide AbsorbAll, FinishOf, Increments, FirstCall, SecondCall;
    if IsPlaced(delta) {
      forall a, b | Increments(a) == Increments(b) && OthersPlaced(delta, Increments(a))
        ensures FinishOf(AbsorbAll(a), choice).toolCalls == FinishOf(AbsorbAll(b), choice).toolCalls
      {
        RegroupingKeepsCalls(a, b, choice);
      }
    } else {
      RegroupingBreaksCalls(delta, choice);
      CallsArePlaced(delta);
      var a, b := Apart(delta), Together(delta);
      assert FinishOf(AbsorbAll(a), choice).toolCalls != FinishOf(AbsorbAll(b), choice).toolCalls;
    }
  }

  lemma CallsArePlaced(delta: CallDelta)
    ensures IsPlaced(FirstCall(delta)) && IsPlaced(SecondCall(delta))
  {
  }

  // ---- the rest of the response ------------------------------------------------------------------

  /** The words of all chunks that bring any, in order. */
  function ContentsOf(chunks: seq<Chunk>): seq<string> {
    if chunks == [] then []
    else
      ContentsOf(Init(chunks)) + match Last(chunks).choice
      case Some(Choice(_, Some(delta))) => [delta.content]
      case _ => []
  }

  /** Why the answer ends, if the chunk says so. */
  function ReasonIn(chunk: Chunk): string {
    match chunk.choice
    case Some(Choice(reason, _)) => reason
    case None => ""
  }

  /** The chunk at `i` is the last that says why the answer ended. */
  predicate IsLastReason(chunks: seq<Chunk>, i: nat, reason: string) {
    && i < |chunks| && reason != "" && ReasonIn(chunks[i]) == reason
    && forall j :: i < j < |chunks| ==> ReasonIn(chunks[j]) == ""
  }

  predicate NoReason(chunks: seq<Chunk>) {
    forall j :: 0 <= j < |chunks| ==> ReasonIn(chunks[j]) == ""
  }

  /** The chunk at `i` is the last that reports the usage. */
  predicate IsLastUsage(chunks: seq<Chunk>, i: nat, usage: Usage) {
    && i < |chunks| && chunks[i].usage == Some(usage)
    && forall j :: i < j < |chunks| ==> chunks[j].usage.None?
  }

  lemma {:induction false} TextIsAllContents(chunks: seq<Chunk>)
    ensures Flatten(AbsorbAll(chunks).text) == Flatten(ContentsOf(chunks))
  {
    if chunks != [] {
      TextIsAllContents(Init(chunks));
      ContentsUnfold(chunks);
      var earlier, text := AbsorbAll(Init(chunks)).text, TextOf(Last(chunks));
      assert AbsorbAll(chunks).text == if text != "" then earlier + [text] else earlier;
      hide AbsorbAll, ContentsOf, Flatten;
      FlattenAppend(earlier, text);
      FlattenAppend(ContentsOf(Init(chunks)), text);
      assert Flatten(earlier) + "" == Flatten(earlier);
    }
  }

  lemma ContentsUnfold(chunks: seq<Chunk>)
    requires chunks != []
    ensures var front := ContentsOf(Init(chunks));
      || ContentsOf(chunks) == front + [TextOf(Last(chunks))]
      || (ContentsOf(chunks) == front && TextOf(Last(chunks)) == "")
  {
  }

  lemma ReasonUnfolds(chunks: seq<Chunk>)
    requires chunks != []
    ensures AbsorbAll(chunks).finishReason
         == if ReasonIn(Last(chunks)) != "" then ReasonIn(Last(chunks)) else AbsorbAll(Init(chunks)).finishReason
  {
    hide Assemble, PiecesOf, TextOf;
  }

  lemma ReasonOfOneMore(chunks: seq<Chunk>, chunk: Chunk, i: nat, reason: string)
    ensures NoReason(chunks) && ReasonIn(chunk) == "" ==> NoReason(chunks + [chunk])
    ensures IsLastReason(chunks, i, reason) && ReasonIn(chunk) == "" ==> IsLastReason(chunks + [chunk], i, reason)
    ensures ReasonIn(chunk) != "" ==> IsLastReason(chunks + [chunk], |chunks|, ReasonIn(chunk))
  {
    hide ReasonIn;
    assert forall j :: 0 <= j < |chunks| ==> (chunks + [chunk])[j] == chunks[j];
  }

  lemma {:induction false} ReasonIsTheLast(chunks: seq<Chunk>) returns (i: nat)
    ensures var reason := AbsorbAll(chunks).finishReason;
      if reason == "" then NoReason(chunks) else IsLastReason(chunks, i, reason)
    decreases |chunks|
  {
    i := 0;
    if chunks != [] {
      ReasonUnfolds(chunks);
      assert chunks == Init(chunks) + [Last(chunks)];
      var earlier := ReasonIsTheLast(Init(chunks));
      hide AbsorbAll, IsLastReason, NoReason, ReasonIn;
      ReasonOfOneMore(Init(chunks), Last(chunks), earlier, AbsorbAll(Init(chunks)).finishReason);
      i := if ReasonIn(Last(chunks)) != "" then |chunks| - 1 else earlier;
    }
  }

  lemma {:induction false} UsageIsTheLast(chunks: seq<Chunk>) returns (i: nat)
    ensures var usage := AbsorbAll(chunks).usage;
      if forall j :: 0 <= j < |chunks| ==> chunks[j].usage.None? then usage == NO_USAGE
      else IsLastUsage(chunks, i, usage)
  {
    i := 0;
    if chunks != [] {
      var front, last := Init(chunks), Last(chunks);
      assert forall j :: 0 <= j < |front| ==> chunks[j] == front[j];
      var earlier := UsageIsTheLast(front);
      assert AbsorbAll(chunks).usage == if last.usage.Some? then last.usage.value else AbsorbAll(front).usage;
      hide AbsorbAll;
      i := if last.usage.Some? then |front| else earlier;
    }
  }

  /**
   What a finished response says beside its calls: all words of the stream in order;
   the usage reported last; the names of the choice; and that it was cut exactly when
   the last reason given for its end is the length limit.
   */
  lemma ResponseOfStream(chunks: seq<Chunk>, choice: ModelChoice) returns (reported: nat)
    ensures var response := FinishOf(AbsorbAll(chunks), choice);
      && response.content == Flatten(ContentsOf(chunks))
      && response.model == choice.model && response.provider == choice.provider
      && response.contextWindow == choice.contextWindow
      && (response.isTruncated <==> exists i :: IsLastReason(chunks, i, "length"))
      && (if forall j :: 0 <= j < |chunks| ==> chunks[j].usage.None? then response.usage == NO_USAGE
          else IsLastUsage(chunks, reported, response.usage))
  {
    TextIsAllContents(chunks);
    var ended := ReasonIsTheLast(chunks);
    reported := UsageIsTheLast(chunks);
    assert "length" != "";
    hide AbsorbAll, ContentsOf, Flatten, ToolCallsOf, IsLastUsage, ReasonIn;
  }

  // ---- the replacement for a missing identifier ----------------------------------------------------

  function DigitOf(c: char): nat {
    if '0' <= c <= '9' then c as nat - '0' as nat else 0
  }

  function Decimal(text: string): nat {
    if text == "" then 0 else 10 * Decimal(Init(text)) + DigitOf(Last(text))
  }

  /** The number a text of digits, perhaps with a sign, stands for. */
  function NumberOf(text: string): int {
    if text != "" && text[0] == '-' then 0 - Decimal(text[1..]) else Decimal(text)
  }

  lemma {:induction false} DigitsAreDecimal(n: nat)
    ensures Digits(n) != "" && Digits(n)[0] != '-' && Decimal(Digits(n)) == n
  {
    var digit := "0123456789"[n % 10];
    assert DigitOf(digit) == n % 10;
    if n < 10 {
      assert Init([digit]) == "";
    } else {
      DigitsAreDecimal(n / 10);
      assert Init(Digits(n / 10) + [digit]) == Digits(n / 10);
    }
  }

  /** So calls of different indices that bring no identifier never share the one they are given. */
  lemma IndexIsReadBack(n: int)
    ensures NumberOf(IntText(n)) == n
  {
    DigitsAreDecimal(if n < 0 then -n else n);
    if n < 0 {
      assert ("-" + Digits(-n))[1..] == Digits(-n);
    }
    hide Digits, Decimal;
  }
}
