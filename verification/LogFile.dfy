/**
 The journal tail: lines are read from the end of the file in blocks, and a
 filter stops the reading as soon as it has matched enough of them.
 */
module LogFile {
  import opened Prelude
  import opened Splitting

  newtype Byte = b: int | 0 <= b < 256

  const NEWLINE: Byte := 10
  const MAX_LIMIT := 1000
  const LEVEL_ORDER: seq<string> := ["debug", "info", "warning", "error", "critical"]

  datatype LogRecord = LogRecord(
    timestamp: Option<string>,
    level: Option<string>,
    logger: Option<string>,
    event: string,
    exception: Option<string>,
    fields: map<string, string>)

  datatype LogQuery = LogQuery(
    limit: int,
    minLevel: Option<string>,
    logger: Option<string>,
    text: Option<string>)

  datatype LogTail = LogTail(
    records: seq<LogRecord>,
    sizeBytes: nat,
    scannedLines: nat,
    skippedLines: nat,
    truncated: bool)

  datatype QueryError = UnknownLevel(level: string)

  /** Decoding, JSON parsing, case folding and the blank test, left arbitrary. */
  datatype Codec = Codec(
    decode: seq<Byte> -> string,
    parse: string -> Option<LogRecord>,
    lower: string -> string,
    isBlank: string -> bool)

  // ---- lines of a file -------------------------------------------------------

  /** The lines of the whole file in file order; an empty first line is not a line. */
  function RawLines(data: seq<Byte>): seq<seq<Byte>> {
    var parts := Split(data, NEWLINE);
    if parts[0] == [] then parts[1..] else parts
  }

  function Decoded(decode: seq<Byte> -> string, raw: seq<seq<Byte>>): (lines: seq<string>)
    ensures |lines| == |raw|
  {
    if raw == [] then [] else [decode(raw[0])] + Decoded(decode, raw[1..])
  }

  lemma {:induction false} DecodedSuffix(decode: seq<Byte> -> string, raw: seq<seq<Byte>>, start: nat)
    requires start <= |raw|
    ensures Decoded(decode, raw)[start..] == Decoded(decode, raw[start..])
  {
    if start > 0 {
      DecodedSuffix(decode, raw[1..], start - 1);
      assert raw[1..][start - 1..] == raw[start..];
    }
  }

  predicate EndsWith<T(==)>(s: seq<T>, t: seq<T>) {
    |t| <= |s| && s[|s| - |t|..] == t
  }

  /** The complete lines of what was read are the last lines of the file. */
  lemma {:induction false} TailGivesLastLines(head: seq<Byte>, tail: seq<Byte>, first: seq<Byte>, rest: seq<seq<Byte>>)
    requires Split(tail, NEWLINE) == [first] + rest
    ensures EndsWith(RawLines(head + tail), rest)
    ensures head == [] ==> RawLines(head + tail) == (if first == [] then rest else [first] + rest)
  {
    SplitAbsorbs(head, tail, NEWLINE, first, rest);
    var left := Split(head + first, NEWLINE);
    assert (left + rest)[1..] == left[1..] + rest;
    if head == [] {
      assert head + tail == tail;
    }
  }

  lemma EndsWithPart<T>(s: seq<T>, a: seq<T>, b: seq<T>)
    requires EndsWith(s, a + b)
    ensures EndsWith(s, b)
  {
    assert s[|s| - |b|..] == s[|s| - |a + b|..][|a|..];
  }

  /**
   The generator over the lines of a file, last line first. `delivered` is what
   it has yielded so far, in file order.
   */
  class ReverseLines {
    const data: seq<Byte>
    const blockSize: nat
    const decode: seq<Byte> -> string
    var position: nat
    var remainder: seq<Byte>
    var pending: seq<seq<Byte>>
    var exhausted: bool
    ghost var delivered: seq<seq<Byte>>

    ghost predicate Valid()
      reads this
    {
      && blockSize >= 1
      && position <= |data|
      && |remainder| + Weight(pending) < blockSize
      && |data| - position < Weight(delivered) + blockSize
      && EndsWith(RawLines(data), delivered)
      && if exhausted then position == 0 && pending == [] && delivered == RawLines(data) else Consistent()
    }

    ghost predicate Consistent()
      requires position <= |data|
      reads this
    {
      Split(data[position..], NEWLINE) == [remainder] + (pending + delivered)
    }

    /** Less than one block is held back once the last pending line is gone. */
    ghost predicate HeldBackIsSmall()
      reads this
    {
      pending != [] ==> |remainder| + Weight(Init(pending)) < blockSize
    }

    constructor (data: seq<Byte>, blockSize: nat, decode: seq<Byte> -> string)
      requires blockSize >= 1
      ensures Valid() && delivered == [] && position == |data|
      ensures this.data == data && this.blockSize == blockSize && this.decode == decode
    {
      this.data, this.blockSize, this.decode := data, blockSize, decode;
      position, remainder, pending, exhausted := |data|, [], [], false;
      delivered := [];
    }

    /**
     Yields the next line from the end, or nothing once every line was yielded.
     A block is read only when no complete line is at hand, so the bytes read
     exceed the lines yielded by less than one block.
     */
    method Next() returns (line: Option<string>)
      requires Valid()
      modifies this
      ensures Valid()
      ensures line.Some? ==>
                delivered != [] && delivered[1..] == old(delivered) && line.value == decode(delivered[0])
      ensures line.None? ==> delivered == old(delivered) == RawLines(data)
      ensures position <= old(position)
      ensures |data| - position < Weight(delivered) + blockSize
    {
      hide Split, Weight, RawLines;
      if exhausted {
        return None;
      }
      ReadUntilLine();
      if pending != [] {
        line := Some(decode(Last(pending)));
        DeliverPending();
      } else {
        line := if remainder == [] then None else Some(decode(remainder));
        DeliverRemainder();
      }
    }

    /** What is left at the start of the file is a line unless it is empty. */
    method DeliverRemainder()
      requires !exhausted && blockSize >= 1 && position == 0 && pending == [] && Consistent()
      modifies this`remainder, this`exhausted, this`delivered
      ensures Valid() && exhausted && delivered == RawLines(data)
      ensures delivered == (if old(remainder) == [] then [] else [old(remainder)]) + old(delivered)
    {
      hide Split, Weight, RawLines;
      var rest := if remainder == [] then [] else [remainder];
      assert |data| <= |remainder| + Weight(delivered) <= Weight(rest + delivered) && Weight(pending) == 0 by {
        CountBytes();
        WeightWithRemainder(remainder, pending, delivered);
      }
      assert RawLines(data) == rest + delivered by {
        assert data[position..] == data && pending + delivered == delivered;
        TailGivesLastLines([], data, remainder, delivered);
        assert [] + data == data && [] + delivered == delivered;
      }
      delivered := rest + delivered;
      remainder, exhausted := [], true;
      assert delivered[0..] == delivered;
    }

    static lemma WeightWithRemainder(remainder: seq<Byte>, pending: seq<seq<Byte>>, delivered: seq<seq<Byte>>)
      requires pending == []
      ensures Weight(pending) == 0
      ensures |remainder| + Weight(delivered) <= Weight((if remainder == [] then [] else [remainder]) + delivered)
    {
      if remainder == [] {
        assert [] + delivered == delivered;
      } else {
        assert ([remainder] + delivered)[1..] == delivered;
      }
    }

    /** Reads blocks until a complete line is at hand or the file is read. */
    method ReadUntilLine()
      requires Valid() && !exhausted
      modifies this`position, this`remainder, this`pending
      ensures position <= old(position) && position <= |data| && Consistent()
      ensures pending == [] ==> position == 0
      ensures HeldBackIsSmall()
    {
      if pending != [] {
        WeightOfInit(pending);
      }
      while pending == [] && position > 0
        invariant position <= |data| && position <= old(position) && Consistent() && HeldBackIsSmall()
        decreases position
      {
        ReadBlock();
      }
    }

    /** One turn of the reading loop: the incomplete line joins the block before it. */
    method ReadBlock()
      requires 0 < position <= |data| && pending == [] && blockSize >= 1 && Consistent()
      modifies this`position, this`remainder, this`pending
      ensures position < old(position) && Consistent() && HeldBackIsSmall()
    {
      hide Split, Weight;
      ghost var incomplete, tail := remainder, data[position..];
      var size := Min(blockSize, position);
      position := position - size;
      var block := data[position..position + size];
      var lines := Split(block + remainder, NEWLINE);
      remainder := lines[0];
      pending := lines[1..];

      assert Split(tail, NEWLINE) == [incomplete] + delivered;
      assert data[position..] == block + tail;
      SplitAbsorbs(block, tail, NEWLINE, incomplete, delivered);
      assert lines == [remainder] + pending;
      assert lines + delivered == [remainder] + (pending + delivered);
      if pending != [] {
        assert NEWLINE !in incomplete by {
          JoinOfSplit(tail, NEWLINE);
          assert incomplete == Split(tail, NEWLINE)[0];
        }
        BlockIsSmall(block, incomplete, lines, size);
        assert Init(lines) == [remainder] + Init(pending);
      }
    }

    static lemma BlockIsSmall(block: seq<Byte>, incomplete: seq<Byte>, lines: seq<seq<Byte>>, size: nat)
      requires NEWLINE !in incomplete && |block| == size && lines == Split(block + incomplete, NEWLINE) && |lines| > 1
      ensures |lines[0]| + Weight(Init(lines[1..])) < size
    {
      LastPartIsLong(block, incomplete, NEWLINE);
      WeightOfSplit(block + incomplete, NEWLINE);
      WeightOfInit(lines);
      assert Init(lines) == [lines[0]] + Init(lines[1..]);
      WeightOfConcat([lines[0]], Init(lines[1..]));
    }

    method DeliverPending()
      requires !exhausted && blockSize >= 1 && position <= |data| && pending != []
      requires Consistent() && HeldBackIsSmall()
      modifies this`pending, this`delivered
      ensures Valid() && delivered == [old(Last(pending))] + old(delivered)
    {
      hide Split, RawLines, Weight, EndsWith;
      CountBytes();
      WeightOfInit(pending);
      ghost var raw := Last(pending);
      WeightOfOneMore(raw, delivered);
      assert pending + delivered == Init(pending) + ([raw] + delivered);
      pending := Init(pending);
      delivered := [raw] + delivered;
      TailGivesLastLines(data[..position], data[position..], remainder, pending + delivered);
      assert data[..position] + data[position..] == data;
      EndsWithPart(RawLines(data), pending, delivered);
    }

    static lemma WeightOfOneMore(line: seq<Byte>, delivered: seq<seq<Byte>>)
      ensures Weight([line] + delivered) == |line| + 1 + Weight(delivered)
    {
      assert ([line] + delivered)[1..] == delivered;
    }

    /** Everything read is either delivered or held back. */
    lemma CountBytes()
      requires position <= |data| && Consistent()
      ensures |data| - position == |remainder| + Weight(pending) + Weight(delivered)
    {
      WeightOfSplit(data[position..], NEWLINE);
      WeightOfConcat([remainder], pending + delivered);
      WeightOfConcat(pending, delivered);
      assert [remainder][1..] == [];
    }
  }

  /** Draining the generator gives the decoded lines in reverse, whatever the block size. */
  method LinesFromEnd(data: seq<Byte>, blockSize: nat, decode: seq<Byte> -> string) returns (lines: seq<string>)
    requires blockSize >= 1
    ensures Reverse(lines) == Decoded(decode, RawLines(data))
  {
    var reader := new ReverseLines(data, blockSize, decode);
    lines := [];
    while true
      invariant fresh(reader) && reader.Valid() && reader.data == data && reader.decode == decode
      invariant Reverse(lines) == Decoded(decode, reader.delivered)
      decreases |RawLines(data)| - |reader.delivered|
    {
      var next := reader.Next();
      if next.None? {
        break;
      }
      ReverseAppend(lines, next.value);
      lines := lines + [next.value];
    }
  }

  // ---- filtering -------------------------------------------------------------

  function IndexOf(level: string, levels: seq<string>): (i: int)
    ensures i == -1 ==> level !in levels
    ensures i != -1 ==> 0 <= i < |levels| && levels[i] == level && level !in levels[..i]
  {
    if levels == [] then -1
    else if levels[0] == level then 0
    else
      var i := IndexOf(level, levels[1..]);
      if i == -1 then -1 else i + 1
  }

  /** Severity of a record: an unknown or missing level is below every known one. */
  function Rank(codec: Codec, level: Option<string>): int {
    match level
    case None => -1
    case Some(name) => IndexOf(codec.lower(name), LEVEL_ORDER)
  }

  predicate Contains(text: string, part: string) {
    exists i :: 0 <= i <= |text| && part <= text[i..]
  }

  datatype Filter = Filter(minRank: Option<int>, logger: string, needle: Option<string>)

  function FilterOf(codec: Codec, query: LogQuery): (r: Result<Filter, QueryError>)
    ensures r.Error? <==> query.minLevel.Some? && query.minLevel.value != "" && query.minLevel.value !in LEVEL_ORDER
  {
    var logger := if query.logger.Some? then query.logger.value else "";
    var needle := if query.text.Some? && query.text.value != "" then Some(codec.lower(query.text.value)) else None;
    if query.minLevel.None? || query.minLevel.value == "" then
      Ok(Filter(None, logger, needle))
    else
      var rank := IndexOf(query.minLevel.value, LEVEL_ORDER);
      if rank == -1 then Error(UnknownLevel(query.minLevel.value)) else Ok(Filter(Some(rank), logger, needle))
  }

  /** The record and the line it came from pass all three filters. */
  predicate Passes(codec: Codec, filter: Filter, line: string, record: LogRecord) {
    && (filter.minRank.Some? ==> Rank(codec, record.level) >= filter.minRank.value)
    && (filter.logger != "" ==> filter.logger <= if record.logger.Some? then record.logger.value else "")
    && (filter.needle.Some? ==> Contains(codec.lower(line), filter.needle.value))
  }

  /** The record says one of the known levels, and one at least as severe as this. */
  ghost predicate IsAtLeast(codec: Codec, level: Option<string>, least: string) {
    && level.Some?
    && exists i, j ::
         0 <= i <= j < |LEVEL_ORDER| && LEVEL_ORDER[i] == least && LEVEL_ORDER[j] == codec.lower(level.value)
  }

  predicate IsGiven(part: Option<string>) {
    part.Some? && part.value != ""
  }

  /** The record and the line it came from are what the query asks for; what is not given asks for nothing. */
  ghost predicate IsAskedFor(codec: Codec, query: LogQuery, line: string, record: LogRecord) {
    && (IsGiven(query.minLevel) ==> IsAtLeast(codec, record.level, query.minLevel.value))
    && (IsGiven(query.logger) ==> query.logger.value <= if record.logger.Some? then record.logger.value else "")
    && (IsGiven(query.text) ==> Contains(codec.lower(line), codec.lower(query.text.value)))
  }

  lemma LevelsAreDistinct(i: nat, j: nat)
    requires i < |LEVEL_ORDER| && j < |LEVEL_ORDER| && LEVEL_ORDER[i] == LEVEL_ORDER[j]
    ensures i == j
  {
    assert LEVEL_ORDER[0][0] == 'd' && LEVEL_ORDER[1][0] == 'i' && LEVEL_ORDER[2][0] == 'w';
    assert LEVEL_ORDER[3][0] == 'e' && LEVEL_ORDER[4][0] == 'c';
  }

  /**
   What a query asks for. Every query is accepted but one with an unknown minimum
   level. A record passes an accepted one if and only if it has a known level at
   least as severe as the minimum, its logger begins with the given one, and the
   text occurs in its line whatever the case; a part that is not given, or empty,
   asks for nothing. So a record of unknown level is hidden by any minimum.
   */
  lemma WhatAQueryMeans(codec: Codec, query: LogQuery, line: string, record: LogRecord)
    ensures FilterOf(codec, query).Error? <==> IsGiven(query.minLevel) && query.minLevel.value !in LEVEL_ORDER
    ensures FilterOf(codec, query).Ok? ==>
              (Passes(codec, FilterOf(codec, query).value, line, record) <==> IsAskedFor(codec, query, line, record))
  {
    if FilterOf(codec, query).Ok? && IsGiven(query.minLevel) {
      RankIsSeverity(codec, record.level, query.minLevel.value);
    }
    hide Contains, IndexOf, Rank, IsAtLeast;
  }

  lemma RankIsSeverity(codec: Codec, level: Option<string>, least: string)
    requires least in LEVEL_ORDER
    ensures Rank(codec, level) >= IndexOf(least, LEVEL_ORDER) <==> IsAtLeast(codec, level, least)
  {
    hide IndexOf;
    var i := IndexOf(least, LEVEL_ORDER);
    if level.Some? {
      var name := codec.lower(level.value);
      var j := IndexOf(name, LEVEL_ORDER);
      if IsAtLeast(codec, level, least) {
        var m, n :| 0 <= m <= n < |LEVEL_ORDER| && LEVEL_ORDER[m] == least && LEVEL_ORDER[n] == name;
        LevelsAreDistinct(i, m);
        LevelsAreDistinct(j, n);
      }
    }
  }

  datatype Verdict = Blank | Unparsable | FilteredOut | Match(record: LogRecord)

  function Classify(codec: Codec, filter: Filter, line: string): Verdict {
    if codec.isBlank(line) then Blank
    else match codec.parse(line)
      case None => Unparsable
      case Some(record) => if Passes(codec, filter, line, record) then Match(record) else FilteredOut
  }

  /** The records a plain forward scan would keep, in file order. */
  function Matches(codec: Codec, filter: Filter, lines: seq<string>): seq<LogRecord> {
    if lines == [] then []
    else
      var verdict := Classify(codec, filter, lines[0]);
      (if verdict.Match? then [verdict.record] else []) + Matches(codec, filter, lines[1..])
  }

  function Count(codec: Codec, filter: Filter, lines: seq<string>, wanted: Verdict -> bool): nat {
    if lines == [] then 0
    else (if wanted(Classify(codec, filter, lines[0])) then 1 else 0) + Count(codec, filter, lines[1..], wanted)
  }

  function LastOf<T>(s: seq<T>, n: nat): seq<T> {
    if |s| <= n then s else s[|s| - n..]
  }

  lemma {:induction false} MatchesOfConcat(codec: Codec, filter: Filter, a: seq<string>, b: seq<string>)
    ensures Matches(codec, filter, a + b) == Matches(codec, filter, a) + Matches(codec, filter, b)
  {
    if a == [] {
      assert [] + b == b;
    } else {
      assert (a + b)[1..] == a[1..] + b;
      MatchesOfConcat(codec, filter, a[1..], b);
    }
  }

  predicate IsUnparsable(verdict: Verdict) {
    verdict == Unparsable
  }

  predicate IsFilteredOut(verdict: Verdict) {
    verdict == FilteredOut
  }

  predicate IsRead(verdict: Verdict) {
    verdict != Blank
  }

  /** Every nonblank line is unparsable, filtered out or kept: nothing is lost. */
  lemma {:induction false} EveryLineIsAccountedFor(codec: Codec, filter: Filter, lines: seq<string>)
    ensures Count(codec, filter, lines, IsRead)
         == Count(codec, filter, lines, IsUnparsable) + Count(codec, filter, lines, IsFilteredOut)
            + |Matches(codec, filter, lines)|
  {
    if lines != [] {
      EveryLineIsAccountedFor(codec, filter, lines[1..]);
    }
  }

  method ReadLine(codec: Codec, filter: Filter, line: string) returns (verdict: Verdict)
    ensures verdict == Classify(codec, filter, line)
  {
    if codec.isBlank(line) {
      return Blank;
    }
    var record := codec.parse(line);
    if record.None? {
      return Unparsable;
    }
    if filter.minRank.Some? && Rank(codec, record.value.level) < filter.minRank.value {
      return FilteredOut;
    }
    if filter.logger != "" && !(filter.logger <= if record.value.logger.Some? then record.value.logger.value else "") {
      return FilteredOut;
    }
    if filter.needle.Some? && !Contains(codec.lower(line), filter.needle.value) {
      return FilteredOut;
    }
    return Match(record.value);
  }

  /** The state of the scan once the lines from `start` on have been read. */
  ghost predicate Scanned(
    codec: Codec, filter: Filter, lines: seq<string>, start: nat, matched: seq<LogRecord>, scanned: nat, skipped: nat)
  {
    && start <= |lines|
    && Reverse(matched) == Matches(codec, filter, lines[start..])
    && scanned == Count(codec, filter, lines[start..], IsRead)
    && skipped == Count(codec, filter, lines[start..], IsUnparsable)
  }

  lemma {:induction false} ScanStep(
    codec: Codec, filter: Filter, lines: seq<string>, start: nat, matched: seq<LogRecord>, scanned: nat, skipped: nat)
    requires 0 < start <= |lines| && Scanned(codec, filter, lines, start, matched, scanned, skipped)
    ensures match Classify(codec, filter, lines[start - 1])
      case Blank => Scanned(codec, filter, lines, start - 1, matched, scanned, skipped)
      case Unparsable => Scanned(codec, filter, lines, start - 1, matched, scanned + 1, skipped + 1)
      case FilteredOut => Scanned(codec, filter, lines, start - 1, matched, scanned + 1, skipped)
      case Match(record) => Scanned(codec, filter, lines, start - 1, matched + [record], scanned + 1, skipped)
  {
    assert lines[start - 1..][1..] == lines[start..];
    var verdict := Classify(codec, filter, lines[start - 1]);
    if verdict.Match? {
      ReverseAppend(matched, verdict.record);
    }
  }

  /**
   What a tail promises. The lines from `start` on are the ones the scan consumed;
   it stops at the first one, read backwards, that completes the limit.
   */
  ghost predicate IsTail(codec: Codec, filter: Filter, lines: seq<string>, limit: nat, start: nat, tail: LogTail) {
    && start <= |lines|
    && tail.records == LastOf(Matches(codec, filter, lines), limit)
    && tail.records == Matches(codec, filter, lines[start..])
    && (tail.truncated <==> |Matches(codec, filter, lines)| >= limit)
    && (tail.truncated ==> start < |lines| && Classify(codec, filter, lines[start]).Match?)
    && (!tail.truncated ==> start == 0)
    && tail.scannedLines == Count(codec, filter, lines[start..], IsRead)
    && tail.skippedLines == Count(codec, filter, lines[start..], IsUnparsable)
    && tail.scannedLines == tail.skippedLines + Count(codec, filter, lines[start..], IsFilteredOut) + |tail.records|
  }

  lemma {:induction false} ScanIsTail(
    codec: Codec, filter: Filter, lines: seq<string>, limit: nat, start: nat, matched: seq<LogRecord>, tail: LogTail)
    requires Scanned(codec, filter, lines, start, matched, tail.scannedLines, tail.skippedLines)
    requires tail.records == Reverse(matched) && |matched| <= limit
    requires tail.truncated <==> |matched| == limit
    requires if tail.truncated then start < |lines| && Classify(codec, filter, lines[start]).Match? else start == 0
    ensures IsTail(codec, filter, lines, limit, start, tail)
  {
    EveryLineIsAccountedFor(codec, filter, lines[start..]);
    MatchesOfConcat(codec, filter, lines[..start], lines[start..]);
    assert lines[..start] + lines[start..] == lines;
  }

  // ---- what a tail shows -------------------------------------------------------

  /** The line holds this record, and the query asks for it. */
  ghost predicate Shows(codec: Codec, query: LogQuery, line: string, record: LogRecord) {
    !codec.isBlank(line) && codec.parse(line) == Some(record) && IsAskedFor(codec, query, line, record)
  }

  /** The line is blank, or no record, or a record the query does not ask for. */
  ghost predicate IsHidden(codec: Codec, query: LogQuery, line: string) {
    || codec.isBlank(line)
    || codec.parse(line).None?
    || !IsAskedFor(codec, query, line, codec.parse(line).value)
  }

  /** The records are those of the lines `kept`, in file order; every other line from `start` on is hidden. */
  ghost predicate ShowsExactly(
    codec: Codec, query: LogQuery, lines: seq<string>, start: nat, kept: seq<nat>, records: seq<LogRecord>)
  {
    && |kept| == |records|
    && (forall i :: 0 <= i < |kept| ==> start <= kept[i] < |lines| && Shows(codec, query, lines[kept[i]], records[i]))
    && IsIncreasing(kept)
    && forall n :: start <= n < |lines| && n !in kept ==> IsHidden(codec, query, lines[n])
  }

  ghost function LinesRead(codec: Codec, lines: seq<string>, start: nat): set<nat> {
    set n | start <= n < |lines| && !codec.isBlank(lines[n])
  }

  ghost function UnparsableLines(codec: Codec, lines: seq<string>, start: nat): set<nat> {
    set n | start <= n < |lines| && !codec.isBlank(lines[n]) && codec.parse(lines[n]).None?
  }

  lemma VerdictOfQuery(codec: Codec, query: LogQuery, line: string)
    requires FilterOf(codec, query).Ok?
    ensures var verdict := Classify(codec, FilterOf(codec, query).value, line);
      && (if verdict.Match? then Shows(codec, query, line, verdict.record) else IsHidden(codec, query, line))
      && (verdict != Blank <==> !codec.isBlank(line))
      && (verdict == Unparsable <==> !codec.isBlank(line) && codec.parse(line).None?)
  {
    if codec.parse(line).Some? {
      WhatAQueryMeans(codec, query, line, codec.parse(line).value);
    }
    hide FilterOf, Passes, IsAskedFor;
  }

  /** One line more in front of the ones that are shown. */
  lemma HiddenCons(
    codec: Codec, query: LogQuery, lines: seq<string>, start: nat, kept: seq<nat>, records: seq<LogRecord>)
    requires start < |lines| && ShowsExactly(codec, query, lines, start + 1, kept, records)
    requires IsHidden(codec, query, lines[start])
    ensures ShowsExactly(codec, query, lines, start, kept, records)
  {
    hide Shows, IsHidden;
  }

  lemma ShownCons(
    codec: Codec, query: LogQuery, lines: seq<string>, start: nat, kept: seq<nat>, record: LogRecord,
    records: seq<LogRecord>)
    requires start < |lines| && ShowsExactly(codec, query, lines, start + 1, kept, records)
    requires Shows(codec, query, lines[start], record)
    ensures ShowsExactly(codec, query, lines, start, [start] + kept, [record] + records)
  {
    hide Shows, IsHidden;
    var more := [start] + kept;
    forall n | start <= n < |lines| && n !in more
      ensures IsHidden(codec, query, lines[n])
    {
      assert more[0] == start && n !in more[1..];
      assert more[1..] == kept;
    }
  }

  lemma NothingShown(codec: Codec, query: LogQuery, lines: seq<string>)
    ensures ShowsExactly(codec, query, lines, |lines|, [], [])
  {
  }

  lemma CountCons(codec: Codec, filter: Filter, lines: seq<string>, start: nat)
    requires start < |lines|
    ensures var verdict, later := Classify(codec, filter, lines[start]), lines[start + 1..];
      && Matches(codec, filter, lines[start..])
      == (if verdict.Match? then [verdict.record] else []) + Matches(codec, filter, later)
      && Count(codec, filter, lines[start..], IsRead)
      == (if verdict != Blank then 1 else 0) + Count(codec, filter, later, IsRead)
      && Count(codec, filter, lines[start..], IsUnparsable)
      == (if verdict == Unparsable then 1 else 0) + Count(codec, filter, later, IsUnparsable)
  {
    assert lines[start..][0] == lines[start] && lines[start..][1..] == lines[start + 1..];
    hide Classify;
  }

  lemma {:induction false} MatchesAreShown(codec: Codec, query: LogQuery, lines: seq<string>, start: nat)
    returns (kept: seq<nat>)
    requires FilterOf(codec, query).Ok? && start <= |lines|
    ensures ShowsExactly(
              codec, query, lines, start, kept, Matches(codec, FilterOf(codec, query).value, lines[start..]))
    decreases |lines| - start
  {
    if start == |lines| {
      kept := [];
      assert lines[start..] == [];
      NothingShown(codec, query, lines);
    } else {
      var filter := FilterOf(codec, query).value;
      hide *;
      VerdictOfQuery(codec, query, lines[start]);
      var later := MatchesAreShown(codec, query, lines, start + 1);
      CountCons(codec, filter, lines, start);
      var verdict, records := Classify(codec, filter, lines[start]), Matches(codec, filter, lines[start + 1..]);
      if verdict.Match? {
        kept := [start] + later;
        ShownCons(codec, query, lines, start, later, verdict.record, records);
      } else {
        kept := later;
        HiddenCons(codec, query, lines, start, later, records);
        assert [] + Matches(codec, filter, lines[start + 1..]) == Matches(codec, filter, lines[start + 1..]);
      }
    }
  }

  lemma ReadOfOneMore(codec: Codec, lines: seq<string>, start: nat)
    requires start < |lines|
    ensures |LinesRead(codec, lines, start)|
         == |LinesRead(codec, lines, start + 1)| + if codec.isBlank(lines[start]) then 0 else 1
  {
    var all, later := LinesRead(codec, lines, start), LinesRead(codec, lines, start + 1);
    forall n
      ensures n in all <==> n in later || (n == start && !codec.isBlank(lines[start]))
    {
    }
    hide LinesRead;
    OneMoreLine(all, later, start, !codec.isBlank(lines[start]));
  }

  lemma UnparsableOfOneMore(codec: Codec, lines: seq<string>, start: nat)
    requires start < |lines|
    ensures |UnparsableLines(codec, lines, start)|
         == |UnparsableLines(codec, lines, start + 1)|
            + if !codec.isBlank(lines[start]) && codec.parse(lines[start]).None? then 1 else 0
  {
    var all, later := UnparsableLines(codec, lines, start), UnparsableLines(codec, lines, start + 1);
    var isOne := !codec.isBlank(lines[start]) && codec.parse(lines[start]).None?;
    forall n
      ensures n in all <==> n in later || (n == start && isOne)
    {
    }
    hide UnparsableLines;
    OneMoreLine(all, later, start, isOne);
  }

  lemma {:induction false} CountsAreOfLines(codec: Codec, query: LogQuery, lines: seq<string>, start: nat)
    requires FilterOf(codec, query).Ok? && start <= |lines|
    ensures Count(codec, FilterOf(codec, query).value, lines[start..], IsRead) == |LinesRead(codec, lines, start)|
    ensures Count(codec, FilterOf(codec, query).value, lines[start..], IsUnparsable)
         == |UnparsableLines(codec, lines, start)|
    decreases |lines| - start
  {
    if start < |lines| {
      hide *;
      VerdictOfQuery(codec, query, lines[start]);
      CountsAreOfLines(codec, query, lines, start + 1);
      CountCons(codec, FilterOf(codec, query).value, lines, start);
      ReadOfOneMore(codec, lines, start);
      UnparsableOfOneMore(codec, lines, start);
    } else {
      NoLinesLeft(codec, lines);
      hide FilterOf;
    }
  }

  lemma NoLinesLeft(codec: Codec, lines: seq<string>)
    ensures |LinesRead(codec, lines, |lines|)| == 0 && |UnparsableLines(codec, lines, |lines|)| == 0
  {
    assert LinesRead(codec, lines, |lines|) == {} && UnparsableLines(codec, lines, |lines|) == {};
  }

  lemma OneMoreLine(all: set<nat>, later: set<nat>, n: nat, isOne: bool)
    requires n !in later && forall m :: m in all <==> m in later || (m == n && isOne)
    ensures |all| == |later| + if isOne then 1 else 0
  {
    assert all == later + if isOne then {n} else {};
  }

  /**
   What a tail shows, line by line: the records of the lines from `start` on that hold
   one the query asks for, in file order, and of no others. It reached back to the
   first line unless it showed as many as the limit allows; then it stopped at the
   line of its first record. It counted every line that is not blank, and apart from
   them those that hold no record.
   */
  ghost predicate ShowsTail(
    codec: Codec, query: LogQuery, lines: seq<string>, limit: nat, start: nat, kept: seq<nat>, tail: LogTail)
  {
    && start <= |lines| && ShowsExactly(codec, query, lines, start, kept, tail.records)
    && |tail.records| <= limit
    && (tail.truncated <==> |tail.records| == limit)
    && (if tail.truncated then kept != [] && kept[0] == start else start == 0)
    && tail.scannedLines == |LinesRead(codec, lines, start)|
    && tail.skippedLines == |UnparsableLines(codec, lines, start)|
  }

  lemma FirstIsLeast(kept: seq<nat>, i: nat)
    requires i < |kept| && IsIncreasing(kept)
    ensures kept[0] <= kept[i]
  {
  }

  lemma TailIsShown(codec: Codec, query: LogQuery, lines: seq<string>, limit: nat, start: nat, tail: LogTail)
    returns (kept: seq<nat>)
    requires FilterOf(codec, query).Ok? && limit >= 1
    requires IsTail(codec, FilterOf(codec, query).value, lines, limit, start, tail)
    ensures ShowsTail(codec, query, lines, limit, start, kept, tail)
  {
    var filter := FilterOf(codec, query).value;
    hide FilterOf, Classify, Matches, Count, IsHidden;
    kept := MatchesAreShown(codec, query, lines, start);
    CountsAreOfLines(codec, query, lines, start);
    if tail.truncated {
      VerdictOfQuery(codec, query, lines[start]);
      assert start in kept;
      var i :| 0 <= i < |kept| && kept[i] == start;
      FirstIsLeast(kept, i);
    }
  }

  lemma ScanEnds(
    codec: Codec, query: LogQuery, lines: seq<string>, limit: nat, start: nat, matched: seq<LogRecord>, tail: LogTail)
    returns (kept: seq<nat>)
    requires FilterOf(codec, query).Ok? && limit >= 1
    requires var filter := FilterOf(codec, query).value;
      && Scanned(codec, filter, lines, start, matched, tail.scannedLines, tail.skippedLines)
      && (if tail.truncated then start < |lines| && Classify(codec, filter, lines[start]).Match? else start == 0)
    requires tail.records == Reverse(matched) && |matched| <= limit && (tail.truncated <==> |matched| == limit)
    ensures IsTail(codec, FilterOf(codec, query).value, lines, limit, start, tail)
    ensures ShowsTail(codec, query, lines, limit, start, kept, tail)
  {
    hide *;
    ScanIsTail(codec, FilterOf(codec, query).value, lines, limit, start, matched, tail);
    kept := TailIsShown(codec, query, lines, limit, start, tail);
  }

  /**
   The last `limit` matching records, read from the end of the file. Less than
   one block is read beyond the lines the scan consumed.
   */
  method TailRecords(codec: Codec, data: seq<Byte>, blockSize: nat, query: LogQuery)
    returns (result: Result<LogTail, QueryError>, ghost start: nat, ghost kept: seq<nat>, ghost bytesRead: nat)
    requires blockSize >= 1
    ensures result.Error? <==> FilterOf(codec, query).Error?
    ensures result.Ok? ==> result.value.sizeBytes == |data|
    ensures result.Ok? ==>
              IsTail(codec, FilterOf(codec, query).value, Decoded(codec.decode, RawLines(data)),
                     Max(1, Min(query.limit, MAX_LIMIT)), start, result.value)
    ensures result.Ok? ==>
              ShowsTail(codec, query, Decoded(codec.decode, RawLines(data)),
                        Max(1, Min(query.limit, MAX_LIMIT)), start, kept, result.value)
    ensures result.Ok? ==> start <= |RawLines(data)| && bytesRead < Weight(RawLines(data)[start..]) + blockSize
  {
    hide Split, Weight, RawLines;
    start, kept, bytesRead := 0, [], 0;
    var prepared := FilterOf(codec, query);
    if prepared.Error? {
      return Error(prepared.error), 0, [], 0;
    }
    var filter := prepared.value;
    var limit := Max(1, Min(query.limit, MAX_LIMIT));
    ghost var raw := RawLines(data);
    ghost var lines := Decoded(codec.decode, raw);
    var matched: seq<LogRecord> := [];
    var scanned, skipped, truncated := 0, 0, false;
    var reader := new ReverseLines(data, blockSize, codec.decode);
    start := |lines|;
    assert Scanned(codec, filter, lines, start, matched, scanned, skipped);
    hide Classify, Matches, Count, Reverse, Scanned, IsTail, ShowsTail, Decoded, FilterOf;
    while !truncated
      invariant fresh(reader) && reader.Valid() && reader.data == data && reader.decode == codec.decode
      invariant start <= |raw| && reader.delivered == raw[start..]
      invariant Scanned(codec, filter, lines, start, matched, scanned, skipped)
      invariant |matched| <= limit && (truncated <==> |matched| == limit)
      invariant truncated ==> start < |lines| && Classify(codec, filter, lines[start]).Match?
      decreases start, !truncated
    {
      var next := reader.Next();
      if next.None? {
        break;
      }
      ScanStep(codec, filter, lines, start, matched, scanned, skipped);
      start := start - 1;
      DecodedSuffix(codec.decode, raw, start);
      assert next.value == lines[start];
      var verdict := ReadLine(codec, filter, next.value);
      match verdict {
        case Blank =>
        case Unparsable => scanned, skipped := scanned + 1, skipped + 1;
        case FilteredOut => scanned := scanned + 1;
        case Match(record) =>
          scanned := scanned + 1;
          matched := matched + [record];
          truncated := |matched| == limit;
      }
    }
    bytesRead := |data| - reader.position;
    result := Ok(LogTail(Reverse(matched), |data|, scanned, skipped, truncated));
    kept := ScanEnds(codec, query, lines, limit, start, matched, result.value);
  }
}
