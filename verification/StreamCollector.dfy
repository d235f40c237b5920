/** Assembling a model's answer from the increments of a stream. */
module StreamCollector {
  import opened Prelude
  import opened Dialogue
  import opened Router

  /** One increment of one tool call; absent fields are empty, as the protocol's falsy values are. */
  datatype CallDelta = CallDelta(index: Option<int>, id: string, name: string, arguments: string)

  datatype Delta = Delta(content: string, toolCalls: seq<CallDelta>)

  datatype Choice = Choice(finishReason: string, delta: Option<Delta>)

  datatype Chunk = Chunk(usage: Option<Usage>, choice: Option<Choice>)

  datatype CallParts = CallParts(id: string, name: string, arguments: string)

  const NO_PARTS := CallParts("", "", "")

  datatype StreamedResponse = StreamedResponse(
    content: string,
    model: string,
    provider: string,
    usage: Usage,
    isTruncated: bool,
    contextWindow: int,
    toolCalls: seq<ToolCall>)

  // ---- tool calls -----------------------------------------------------------------------

  /** A call increment with its index resolved. */
  datatype Piece = Piece(index: int, id: string, name: string, arguments: string)

  /** An increment without an index takes its position in the list. */
  function Resolve(delta: CallDelta, position: nat): Piece {
    Piece(if delta.index.Some? then delta.index.value else position, delta.id, delta.name, delta.arguments)
  }

  function Resolved(deltas: seq<CallDelta>): (pieces: seq<Piece>)
    ensures |pieces| == |deltas|
  {
    if deltas == [] then [] else Resolved(Init(deltas)) + [Resolve(Last(deltas), |deltas| - 1)]
  }

  function AddPart(parts: CallParts, piece: Piece): CallParts {
    CallParts(
      if piece.id != "" then piece.id else parts.id,
      if piece.name != "" then piece.name else parts.name,
      parts.arguments + piece.arguments)
  }

  function AddPiece(calls: map<int, CallParts>, piece: Piece): map<int, CallParts> {
    calls[piece.index := AddPart(if piece.index in calls then calls[piece.index] else NO_PARTS, piece)]
  }

  function Assemble(calls: map<int, CallParts>, pieces: seq<Piece>): map<int, CallParts> {
    if pieces == [] then calls else AddPiece(Assemble(calls, Init(pieces)), Last(pieces))
  }

  lemma AssembleNext(calls: map<int, CallParts>, deltas: seq<CallDelta>, position: nat)
    requires position < |deltas|
    ensures Assemble(calls, Resolved(deltas[..position + 1]))
         == AddPiece(Assemble(calls, Resolved(deltas[..position])), Resolve(deltas[position], position))
  {
    assert Init(deltas[..position + 1]) == deltas[..position];
    var pieces := Resolved(deltas[..position + 1]);
    assert Init(pieces) == Resolved(deltas[..position]);
  }

  predicate IsLeast(s: set<int>, m: int) {
    m in s && forall x :: x in s ==> m <= x
  }

  lemma AnyOf<T>(s: set<T>) returns (x: T)
    requires s != {}
    ensures x in s
  {
    x :| x in s;
  }

  lemma {:induction false} HasLeast(s: set<int>)
    requires s != {}
    ensures exists m :: IsLeast(s, m)
    decreases |s|
  {
    var m := AnyOf(s);
    var rest := s - {m};
    if rest == {} {
      assert forall x :: x in s ==> x == m || x in rest;
      assert IsLeast(s, m);
    } else {
      HasLeast(rest);
      var n :| IsLeast(rest, n);
      assert forall x :: x in s ==> x == m || x in rest;
      assert IsLeast(s, Min(m, n));
    }
  }

  /** The indices in ascending order. */
  function Ascending(s: set<int>): (r: seq<int>)
    ensures forall k :: 0 <= k < |r| ==> r[k] in s
    ensures forall x :: x in s ==> x in r
    ensures forall i, j :: 0 <= i < j < |r| ==> r[i] < r[j]
  {
    if s == {} then []
    else
      HasLeast(s);
      var m :| IsLeast(s, m);
      var rest := Ascending(s - {m});
      assert forall k :: 0 <= k < |rest| ==> rest[k] in s && rest[k] != m;
      assert forall x :: x in s ==> x == m || x in s - {m};
      [m] + rest
  }

  function Digits(n: nat): string {
    if n < 10 then ["0123456789"[n]] else Digits(n / 10) + ["0123456789"[n % 10]]
  }

  function IntText(n: int): string {
    if n < 0 then "-" + Digits(-n) else Digits(n)
  }

  function CallOf(index: int, parts: CallParts): ToolCall {
    ToolCall(
      if parts.id != "" then parts.id else "call_" + IntText(index),
      parts.name,
      if parts.arguments != "" then parts.arguments else "{}")
  }

  /** The calls that got a name, in the given order of indices. */
  function NamedCalls(calls: map<int, CallParts>, indices: seq<int>): seq<ToolCall>
    requires forall k :: 0 <= k < |indices| ==> indices[k] in calls
  {
    if indices == [] then []
    else
      (if calls[indices[0]].name != "" then [CallOf(indices[0], calls[indices[0]])] else [])
      + NamedCalls(calls, indices[1..])
  }

  function ToolCallsOf(calls: map<int, CallParts>): seq<ToolCall> {
    NamedCalls(calls, Ascending(calls.Keys))
  }

  // ---- the collector ----------------------------------------------------------------------

  datatype Collected = Collected(text: seq<string>, calls: map<int, CallParts>, finishReason: string, usage: Usage)

  const NOTHING := Collected([], map[], "", NO_USAGE)

  function TextOf(chunk: Chunk): string {
    if chunk.choice.Some? && chunk.choice.value.delta.Some? then chunk.choice.value.delta.value.content else ""
  }

  function PiecesOf(chunk: Chunk): seq<Piece> {
    if chunk.choice.Some? && chunk.choice.value.delta.Some? then Resolved(chunk.choice.value.delta.value.toolCalls) else []
  }

  function AbsorbOne(c: Collected, chunk: Chunk): Collected {
    Collected(
      if TextOf(chunk) != "" then c.text + [TextOf(chunk)] else c.text,
      Assemble(c.calls, PiecesOf(chunk)),
      if chunk.choice.Some? && chunk.choice.value.finishReason != "" then chunk.choice.value.finishReason
      else c.finishReason,
      if chunk.usage.Some? then chunk.usage.value else c.usage)
  }

  /** What the collector holds after these chunks. */
  function AbsorbAll(chunks: seq<Chunk>): Collected {
    if chunks == [] then NOTHING else AbsorbOne(AbsorbAll(Init(chunks)), Last(chunks))
  }

  function FinishOf(c: Collected, choice: ModelChoice): StreamedResponse {
    StreamedResponse(
      Flatten(c.text), choice.model, choice.provider, c.usage, c.finishReason == "length", choice.contextWindow,
      ToolCallsOf(c.calls))
  }

  class Collector {
    var text: seq<string>
    var calls: map<int, CallParts>
    var finishReason: string
    var usage: Usage

    function Contents(): Collected
      reads this
    {
      Collected(text, calls, finishReason, usage)
    }

    constructor ()
      ensures Contents() == NOTHING
    {
      text, calls, finishReason, usage := [], map[], "", NO_USAGE;
    }

    method Absorb(chunk: Chunk) returns (piece: string)
      modifies this
      ensures Contents() == AbsorbOne(old(Contents()), chunk)
      ensures piece == TextOf(chunk)
    {
      if chunk.usage.Some? {
        usage := chunk.usage.value;
      }
      if chunk.choice.None? {
        return "";
      }
      var first := chunk.choice.value;
      finishReason := if first.finishReason != "" then first.finishReason else finishReason;
      if first.delta.None? {
        return "";
      }
      AbsorbToolCalls(first.delta.value);
      piece := first.delta.value.content;
      if piece != "" {
        text := text + [piece];
      }
    }

    method AbsorbToolCalls(delta: Delta)
      modifies this`calls
      ensures calls == Assemble(old(calls), Resolved(delta.toolCalls))
    {
      var deltas := delta.toolCalls;
      for position := 0 to |deltas|
        invariant calls == Assemble(old(calls), Resolved(deltas[..position]))
      {
        hide Assemble;
        var raw := deltas[position];
        ghost var piece := Resolve(raw, position);
        AssembleNext(old(calls), deltas, position);
        var index := if raw.index.None? then position else raw.index.value;
        var call := if index in calls then calls[index] else NO_PARTS;
        ghost var before := call;
        if raw.id != "" {
          call := call.(id := raw.id);
        }
        if raw.name != "" {
          call := call.(name := raw.name);
        }
        if raw.arguments != "" {
          call := call.(arguments := call.arguments + raw.arguments);
        } else {
          assert before.arguments + raw.arguments == before.arguments;
        }
        assert call == AddPart(before, piece);
        calls := calls[index := call];
      }
      assert deltas[..|deltas|] == deltas;
    }

    method Finish(choice: ModelChoice) returns (response: StreamedResponse)
      ensures response == FinishOf(Contents(), choice)
    {
      response := StreamedResponse(
        Flatten(text), choice.model, choice.provider, usage, finishReason == "length", choice.contextWindow,
        ToolCallsOf(calls));
    }
  }
}
