/** Cutting files without symbols into chunks by size and blank lines. */
module TextChunks {
  import opened Prelude
  import opened Splitting
  import opened Tokens

  const MAX_CHUNK_TOKENS := 400
  const HARD_CHUNK_TOKENS := 800
  const MIN_CHUNK_LINES := 3

  datatype TextChunk = TextChunk(startLine: nat, endLine: nat, content: string, tokenCount: nat)

  function TrimStart(text: string): (r: string)
    ensures |r| <= |text|
  {
    if text != "" && text[0] == '\n' then TrimStart(text[1..]) else text
  }

  function TrimEnd(text: string): (r: string)
    ensures |r| <= |text|
  {
    if text != "" && Last(text) == '\n' then TrimEnd(Init(text)) else text
  }

  /** Python's `text.strip("\n")`. */
  function StripNewlines(text: string): (r: string)
    ensures |r| <= |text|
  {
    TrimEnd(TrimStart(text))
  }

  function TokensOf(lines: seq<string>): nat {
    EstimateTokens(|Join(lines, '\n')|)
  }

  /** A chunk of these lines is complete at its last line. */
  predicate Closes(lines: seq<string>, isBlank: string -> bool)
    requires lines != []
  {
    || (isBlank(Last(lines)) && |lines| >= MIN_CHUNK_LINES && TokensOf(lines) >= MAX_CHUNK_TOKENS)
    || TokensOf(lines) >= HARD_CHUNK_TOKENS
  }

  function ChunkOf(lines: seq<string>, start: nat, end: nat): TextChunk {
    var text := StripNewlines(Join(lines, '\n'));
    TextChunk(start, Max(end, start), text, EstimateTokens(|text|))
  }

  /** The line after the first `n` chunks. */
  function StartOf(chunks: seq<TextChunk>, n: nat): nat
    requires n <= |chunks|
  {
    if n == 0 then 1 else chunks[n - 1].endLine + 1
  }

  /** The lines after `from` up to `to` make a complete chunk. */
  predicate ClosesAt(lines: seq<string>, isBlank: string -> bool, from: nat, to: nat)
    requires from < to <= |lines|
  {
    Closes(lines[from..to], isBlank)
  }

  /** No chunk that starts after line `from` could have been closed by line `to`. */
  ghost predicate StaysOpen(lines: seq<string>, isBlank: string -> bool, from: nat, to: nat)
    requires to <= |lines|
  {
    forall k :: from < k <= to ==> !ClosesAt(lines, isBlank, from, k)
  }

  /** The chunk holds the lines from `start` to the first line where it could close. */
  ghost predicate ClosedTile(lines: seq<string>, isBlank: string -> bool, start: nat, chunk: TextChunk) {
    && 1 <= start <= chunk.endLine <= |lines|
    && chunk == ChunkOf(lines[start - 1..chunk.endLine], start, chunk.endLine)
    && ClosesAt(lines, isBlank, start - 1, chunk.endLine)
    && StaysOpen(lines, isBlank, start - 1, chunk.endLine - 1)
  }

  ghost predicate TileAt(lines: seq<string>, isBlank: string -> bool, chunks: seq<TextChunk>, i: nat)
    requires i < |chunks|
  {
    ClosedTile(lines, isBlank, StartOf(chunks, i), chunks[i])
  }

  /** The first `closed` chunks follow each other from line 1. */
  ghost predicate ClosedTiles(lines: seq<string>, isBlank: string -> bool, chunks: seq<TextChunk>, closed: nat)
    requires closed <= |chunks|
  {
    forall i :: 0 <= i < closed ==> TileAt(lines, isBlank, chunks, i)
  }

  lemma TilesOfPrefix(lines: seq<string>, isBlank: string -> bool, chunks: seq<TextChunk>, more: seq<TextChunk>)
    requires ClosedTiles(lines, isBlank, chunks, |chunks|)
    ensures ClosedTiles(lines, isBlank, chunks + more, |chunks|)
  {
    forall i | 0 <= i < |chunks|
      ensures TileAt(lines, isBlank, chunks + more, i)
    {
      assert TileAt(lines, isBlank, chunks, i);
    }
  }

  /**
   The whole result: closed chunks follow each other from line 1, and one more
   chunk holds the rest unless the rest is blank.
   */
  ghost predicate Tiles(lines: seq<string>, isBlank: string -> bool, chunks: seq<TextChunk>, closed: nat) {
    && closed <= |chunks| <= closed + 1
    && ClosedTiles(lines, isBlank, chunks, closed)
    && var rest := StartOf(chunks, closed) - 1;
      && 0 <= rest <= |lines|
      && StaysOpen(lines, isBlank, rest, |lines|)
      && (|chunks| == closed <==> AllBlank(lines[rest..], isBlank))
      && (|chunks| == closed + 1 ==> chunks[closed] == ChunkOf(lines[rest..], rest + 1, |lines|))
  }

  /** The chunks tile the lines, with some number of them closed. */
  ghost predicate IsTiled(lines: seq<string>, isBlank: string -> bool, chunks: seq<TextChunk>) {
    exists closed :: Tiles(lines, isBlank, chunks, closed)
  }

  predicate AllBlank(lines: seq<string>, isBlank: string -> bool) {
    forall i :: 0 <= i < |lines| ==> isBlank(lines[i])
  }

  lemma CloseTile(lines: seq<string>, isBlank: string -> bool, chunks: seq<TextChunk>, end: nat)
    requires ClosedTiles(lines, isBlank, chunks, |chunks|)
    requires 1 <= StartOf(chunks, |chunks|) <= end <= |lines|
    requires ClosesAt(lines, isBlank, StartOf(chunks, |chunks|) - 1, end)
    requires StaysOpen(lines, isBlank, StartOf(chunks, |chunks|) - 1, end - 1)
    ensures var start := StartOf(chunks, |chunks|);
      var extended := chunks + [ChunkOf(lines[start - 1..end], start, end)];
      && StartOf(extended, |extended|) == end + 1
      && ClosedTiles(lines, isBlank, extended, |extended|)
  {
    hide Join, StripNewlines, ClosesAt;
    var start := StartOf(chunks, |chunks|);
    var chunk := ChunkOf(lines[start - 1..end], start, end);
    TilesOfPrefix(lines, isBlank, chunks, [chunk]);
    assert TileAt(lines, isBlank, chunks + [chunk], |chunks|);
  }

  /** After `number` lines: closed chunks, and the lines collected since the last of them. */
  ghost predicate Scanning(
    lines: seq<string>, isBlank: string -> bool, chunks: seq<TextChunk>, current: seq<string>, start: nat, number: nat)
  {
    && 1 <= start == StartOf(chunks, |chunks|) <= number + 1 <= |lines| + 1
    && current == lines[start - 1..number]
    && ClosedTiles(lines, isBlank, chunks, |chunks|)
    && StaysOpen(lines, isBlank, start - 1, number)
  }

  lemma ScanLine(
    lines: seq<string>, isBlank: string -> bool, chunks: seq<TextChunk>, current: seq<string>, start: nat, number: nat)
    requires number < |lines| && Scanning(lines, isBlank, chunks, current, start, number)
    ensures var longer := current + [lines[number]];
      if Closes(longer, isBlank) then
        Scanning(lines, isBlank, chunks + [ChunkOf(longer, start, number + 1)], [], number + 2, number + 1)
      else
        Scanning(lines, isBlank, chunks, longer, start, number + 1)
  {
    hide Closes, ChunkOf, ClosedTiles;
    var longer := current + [lines[number]];
    assert longer == lines[start - 1..number + 1];
    if Closes(longer, isBlank) {
      CloseTile(lines, isBlank, chunks, number + 1);
    }
  }

  lemma FinishTiles(
    lines: seq<string>, isBlank: string -> bool, chunks: seq<TextChunk>, current: seq<string>, start: nat)
    requires Scanning(lines, isBlank, chunks, current, start, |lines|)
    ensures Tiles(lines, isBlank,
                  if AllBlank(current, isBlank) then chunks else chunks + [ChunkOf(current, start, |lines|)],
                  |chunks|)
  {
    hide ChunkOf, StaysOpen, TileAt, ClosedTiles, AllBlank;
    assert lines[start - 1..|lines|] == lines[start - 1..] == current;
    if !AllBlank(current, isBlank) {
      TilesOfPrefix(lines, isBlank, chunks, [ChunkOf(current, start, |lines|)]);
      assert (chunks + [ChunkOf(current, start, |lines|)])[..|chunks|] == chunks;
    }
  }

  method IsComplete(current: seq<string>, isBlank: string -> bool) returns (complete: bool)
    requires current != []
    ensures complete == Closes(current, isBlank)
  {
    var tokens := EstimateTokens(|Join(current, '\n')|);
    var isBoundary := isBlank(Last(current)) && |current| >= MIN_CHUNK_LINES;
    var isFull := tokens >= MAX_CHUNK_TOKENS;
    return (isBoundary && isFull) || tokens >= HARD_CHUNK_TOKENS;
  }

  method ChunksOf(lines: seq<string>, isBlank: string -> bool) returns (chunks: seq<TextChunk>, ghost closed: nat)
    ensures Tiles(lines, isBlank, chunks, closed) && IsTiled(lines, isBlank, chunks)
  {
    chunks := [];
    var current: seq<string> := [];
    var start := 1;
    assert Scanning(lines, isBlank, [], [], 1, 0);
    hide Closes, ChunkOf, Scanning, Tiles;
    for number := 0 to |lines|
      invariant Scanning(lines, isBlank, chunks, current, start, number)
    {
      ScanLine(lines, isBlank, chunks, current, start, number);
      current := current + [lines[number]];
      var complete := IsComplete(current, isBlank);
      if complete {
        chunks := chunks + [ChunkOf(current, start, number + 1)];
        current := [];
        start := number + 2;
      }
    }
    closed := |chunks|;
    FinishTiles(lines, isBlank, chunks, current, start);
    if exists i :: 0 <= i < |current| && !isBlank(current[i]) {
      chunks := chunks + [ChunkOf(current, start, |lines|)];
    }
  }

  // ---- consequences ------------------------------------------------------------

  lemma JoinLength(lines: seq<string>)
    requires lines != []
    ensures |lines| == 1 ==> |Join(lines, '\n')| == |Last(lines)|
    ensures |lines| > 1 ==> |Join(lines, '\n')| == |Join(Init(lines), '\n')| + 1 + |Last(lines)|
  {
    if |lines| > 1 {
      assert lines == Init(lines) + [Last(lines)];
      JoinOfAppend(Init(lines), Last(lines), '\n');
    }
  }

  /** A chunk that could not be closed one line earlier is at most one line over the hard limit. */
  lemma OpenChunkIsSmall(lines: seq<string>, isBlank: string -> bool)
    requires lines != [] && (|lines| > 1 ==> !Closes(Init(lines), isBlank))
    ensures TokensOf(lines) <= HARD_CHUNK_TOKENS + EstimateTokens(|Last(lines)|)
  {
    JoinLength(lines);
    if |lines| > 1 {
      EstimateOfJoin(|Join(Init(lines), '\n')|, |Last(lines)|);
    }
  }

  function ContentLines(lines: seq<string>, chunk: TextChunk): seq<string>
    requires 1 <= chunk.startLine <= chunk.endLine <= |lines|
  {
    lines[chunk.startLine - 1..chunk.endLine]
  }

  /**
   Every chunk starts where the one before it ended, holds its own lines, and
   its size is bounded on both sides; only the last one may be small.
   */
  lemma ChunkBounds(lines: seq<string>, isBlank: string -> bool, chunks: seq<TextChunk>, closed: nat, i: nat)
    requires Tiles(lines, isBlank, chunks, closed) && i < |chunks|
    ensures var c := chunks[i];
      && c.startLine == StartOf(chunks, i)
      && 1 <= c.startLine <= c.endLine <= |lines|
      && c.content == StripNewlines(Join(ContentLines(lines, c), '\n'))
      && (i < |chunks| - 1 ==> TokensOf(ContentLines(lines, c)) >= MAX_CHUNK_TOKENS)
      && c.tokenCount <= TokensOf(ContentLines(lines, c)) <= HARD_CHUNK_TOKENS + EstimateTokens(|lines[c.endLine - 1]|)
  {
    hide *;
    var c := chunks[i];
    ChunkHoldsItsLines(lines, isBlank, chunks, closed, i);
    var own := ContentLines(lines, c);
    OpenChunkIsSmall(own, isBlank);
    EstimateIsMonotone(|c.content|, |Join(own, '\n')|);
    EstimateOf(lines, c);
    if i < closed {
      ClosedIsLarge(own, isBlank);
    }
  }

  lemma EstimateOf(lines: seq<string>, chunk: TextChunk)
    requires 1 <= chunk.startLine <= chunk.endLine <= |lines|
    ensures TokensOf(ContentLines(lines, chunk)) == EstimateTokens(|Join(ContentLines(lines, chunk), '\n')|)
    ensures ContentLines(lines, chunk) != []
    ensures Last(ContentLines(lines, chunk)) == lines[chunk.endLine - 1]
  {
    hide Join;
  }

  /** Where a chunk stands, what it holds, and that it could not have ended one line earlier. */
  lemma ChunkHoldsItsLines(
    lines: seq<string>, isBlank: string -> bool, chunks: seq<TextChunk>, closed: nat, i: nat)
    requires Tiles(lines, isBlank, chunks, closed) && i < |chunks|
    ensures closed <= |chunks| <= closed + 1
    ensures var c := chunks[i];
      && c.startLine == StartOf(chunks, i) && 1 <= c.startLine <= c.endLine <= |lines|
      && var own := ContentLines(lines, c);
      && own != [] && c.content == StripNewlines(Join(own, '\n')) && c.tokenCount == EstimateTokens(|c.content|)
      && |c.content| <= |Join(own, '\n')|
      && (|own| > 1 ==> !Closes(Init(own), isBlank))
      && (i < closed ==> Closes(own, isBlank))
  {
    hide Join, StripNewlines, Closes, ClosedTiles;
    var c := chunks[i];
    if i < closed {
      TileOf(lines, isBlank, chunks, closed, i);
    } else {
      assert lines[c.startLine - 1..] == lines[c.startLine - 1..c.endLine];
    }
    if c.startLine < c.endLine {
      InitOfSlice(lines, c.startLine - 1, c.endLine);
      assert !ClosesAt(lines, isBlank, c.startLine - 1, c.endLine - 1);
    }
  }

  lemma InitOfSlice(lines: seq<string>, from: nat, to: nat)
    requires from < to <= |lines|
    ensures Init(lines[from..to]) == lines[from..to - 1]
  {
  }

  lemma TileOf(lines: seq<string>, isBlank: string -> bool, chunks: seq<TextChunk>, closed: nat, i: nat)
    requires i < closed <= |chunks| && ClosedTiles(lines, isBlank, chunks, closed)
    ensures TileAt(lines, isBlank, chunks, i)
  {
  }

  lemma ClosedIsLarge(lines: seq<string>, isBlank: string -> bool)
    requires lines != [] && Closes(lines, isBlank)
    ensures TokensOf(lines) >= MAX_CHUNK_TOKENS
  {
  }

  lemma {:induction false} ChunksAreOrdered(
    lines: seq<string>, isBlank: string -> bool, chunks: seq<TextChunk>, closed: nat, i: nat, j: nat)
    requires Tiles(lines, isBlank, chunks, closed) && i < j < |chunks|
    ensures chunks[i].endLine < chunks[j].startLine
  {
    hide Tiles;
    ChunkBounds(lines, isBlank, chunks, closed, j);
    if i < j - 1 {
      ChunksAreOrdered(lines, isBlank, chunks, closed, i, j - 1);
      ChunkBounds(lines, isBlank, chunks, closed, j - 1);
    }
  }

  /** Each line that is not blank lies in exactly one chunk. */
  lemma {:induction false} EveryLineIsInOneChunk(
    lines: seq<string>, isBlank: string -> bool, chunks: seq<TextChunk>, closed: nat, line: nat)
    returns (i: nat)
    requires Tiles(lines, isBlank, chunks, closed) && 1 <= line <= |lines| && !isBlank(lines[line - 1])
    ensures i < |chunks| && chunks[i].startLine <= line <= chunks[i].endLine
    ensures forall j :: 0 <= j < |chunks| && chunks[j].startLine <= line <= chunks[j].endLine ==> j == i
  {
    i := 0;
    while i < |chunks| && chunks[i].endLine < line
      invariant i <= |chunks|
      invariant i > 0 ==> chunks[i - 1].endLine < line
    {
      i := i + 1;
    }
    if i == |chunks| {
      BlankRest(lines, isBlank, chunks, closed, line);
    }
    ChunkBounds(lines, isBlank, chunks, closed, i);
    forall j | 0 <= j < |chunks| && chunks[j].startLine <= line <= chunks[j].endLine
      ensures j == i
    {
      if i < j {
        ChunksAreOrdered(lines, isBlank, chunks, closed, i, j);
      } else if j < i {
        ChunksAreOrdered(lines, isBlank, chunks, closed, j, i);
      }
    }
  }

  lemma BlankRest(lines: seq<string>, isBlank: string -> bool, chunks: seq<TextChunk>, closed: nat, line: nat)
    requires Tiles(lines, isBlank, chunks, closed) && StartOf(chunks, |chunks|) <= line <= |lines|
    ensures isBlank(lines[line - 1])
  {
    hide Join, StripNewlines, TileAt;
    var rest := StartOf(chunks, closed) - 1;
    if |chunks| == closed {
      assert lines[rest..][line - 1 - rest] == lines[line - 1];
    }
  }

  // ---- where chunks end, and their text ------------------------------------------------

  predicate OnlyNewlines(text: string) {
    forall i :: 0 <= i < |text| ==> text[i] == '\n'
  }

  lemma {:induction false} TrimStartDrops(text: string) returns (i: nat)
    ensures i <= |text| && OnlyNewlines(text[..i]) && TrimStart(text) == text[i..]
    ensures TrimStart(text) != "" ==> TrimStart(text)[0] != '\n'
  {
    i := 0;
    assert text[0..] == text;
    if text != "" && text[0] == '\n' {
      var k := TrimStartDrops(text[1..]);
      i := k + 1;
      assert text[..i] == [text[0]] + text[1..][..k];
      assert text[1..][k..] == text[i..];
    }
  }

  lemma {:induction false} TrimEndDrops(text: string) returns (j: nat)
    ensures j <= |text| && OnlyNewlines(text[j..]) && TrimEnd(text) == text[..j]
    ensures TrimEnd(text) != "" ==> Last(TrimEnd(text)) != '\n'
  {
    j := |text|;
    assert text[..j] == text;
    if text != "" && Last(text) == '\n' {
      j := TrimEndDrops(Init(text));
      assert text[j..] == Init(text)[j..] + [Last(text)];
      assert Init(text)[..j] == text[..j];
    }
  }

  /** The text from `i` to `j` is all of it but the newlines at both ends. */
  predicate IsStripped(text: string, i: nat, j: nat, stripped: string) {
    && i <= j <= |text| && stripped == text[i..j] && OnlyNewlines(text[..i]) && OnlyNewlines(text[j..])
    && (stripped != "" ==> stripped[0] != '\n' && Last(stripped) != '\n')
  }

  lemma StripDropsNewlines(text: string) returns (i: nat, j: nat)
    ensures IsStripped(text, i, j, StripNewlines(text))
  {
    i := TrimStartDrops(text);
    var inner := TrimStart(text);
    var k := TrimEndDrops(inner);
    j := i + k;
    assert inner[k..] == text[j..] && inner[..k] == text[i..j];
    hide TrimStart, TrimEnd;
    if inner[..k] != "" {
      assert inner[..k][0] == inner[0];
    }
  }

  /** The content of a chunk is the text of its lines without the newlines at both ends, and nothing else is lost. */
  lemma ChunkText(lines: seq<string>, isBlank: string -> bool, chunks: seq<TextChunk>, closed: nat, n: nat)
    returns (i: nat, j: nat)
    requires Tiles(lines, isBlank, chunks, closed) && n < |chunks|
    ensures 1 <= chunks[n].startLine <= chunks[n].endLine <= |lines|
    ensures IsStripped(Join(lines[chunks[n].startLine - 1..chunks[n].endLine], '\n'), i, j, chunks[n].content)
    ensures chunks[n].tokenCount == EstimateTokens(|chunks[n].content|)
  {
    ChunkHoldsItsLines(lines, isBlank, chunks, closed, n);
    hide Join, StripNewlines, Tiles, Closes;
    i, j := StripDropsNewlines(Join(ContentLines(lines, chunks[n]), '\n'));
  }

  /**
   These lines make a chunk: they are estimated at 800 tokens, or there are three of
   them at 400 tokens and the last is blank.
   */
  predicate AreEnough(lines: seq<string>, isBlank: string -> bool)
    requires lines != []
  {
    var tokens := EstimateTokens(|Join(lines, '\n')|);
    tokens >= 800 || (tokens >= 400 && |lines| >= 3 && isBlank(lines[|lines| - 1]))
  }

  /** The lines behind `from` up to `to` make a chunk. */
  predicate AreEnoughAt(lines: seq<string>, isBlank: string -> bool, from: nat, to: nat)
    requires from < to <= |lines|
  {
    AreEnough(lines[from..to], isBlank)
  }

  ghost predicate NeverEnough(lines: seq<string>, isBlank: string -> bool, from: nat, to: nat)
    requires to <= |lines|
  {
    forall k :: from < k <= to ==> !AreEnoughAt(lines, isBlank, from, k)
  }

  lemma EnoughCloses(lines: seq<string>, isBlank: string -> bool, from: nat, to: nat)
    requires from < to <= |lines|
    ensures ClosesAt(lines, isBlank, from, to) <==> AreEnoughAt(lines, isBlank, from, to)
  {
    hide Join;
  }

  /**
   Every chunk ends at the first of its lines where the lines so far are enough; only a
   last one may never come to that, and holds all lines that are left.
   */
  lemma ChunksEndWhenEnough(lines: seq<string>, isBlank: string -> bool, chunks: seq<TextChunk>, closed: nat, n: nat)
    requires Tiles(lines, isBlank, chunks, closed) && n < |chunks|
    ensures var start, end := chunks[n].startLine, chunks[n].endLine;
      && 1 <= start <= end <= |lines| && start == StartOf(chunks, n)
      && NeverEnough(lines, isBlank, start - 1, end - 1)
      && (AreEnoughAt(lines, isBlank, start - 1, end) || (n == |chunks| - 1 && end == |lines|))
  {
    var from, end := chunks[n].startLine - 1, chunks[n].endLine;
    ChunkHoldsItsLines(lines, isBlank, chunks, closed, n);
    hide Join, StripNewlines, ClosesAt, AreEnoughAt;
    if n < closed {
      TileOf(lines, isBlank, chunks, closed, n);
    }
    forall k | from < k <= end
      ensures ClosesAt(lines, isBlank, from, k) <==> AreEnoughAt(lines, isBlank, from, k)
    {
      EnoughCloses(lines, isBlank, from, k);
    }
  }
}
