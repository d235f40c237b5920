/** The code between definitions: collected, packed under the budget, and cut where it still overflows. */
module ModuleCode {
  import opened Prelude
  import opened Splitting
  import opened Tokens
  import opened Chunking

  function ModuleFragment(group: seq<Fragment>): Fragment
    requires group != []
  {
    Fragment(group[0].startLine, Last(group).endLine, JoinedText(group), None, None, true)
  }

  /** What a group becomes: one fragment, or the windows of one that is too large. */
  ghost predicate IsFlushOf(group: seq<Fragment>, splitLines: string -> seq<string>, part: seq<Fragment>) {
    && group != []
    && var whole := ModuleFragment(group);
    var lines := splitLines(whole.text);
    if whole.Tokens() <= MAX_CHUNK_TOKENS then part == [whole]
    else Windows(whole, lines, StepOf(lines, whole.Tokens()), part)
  }

  ghost predicate AreFlushesOf(groups: seq<seq<Fragment>>, splitLines: string -> seq<string>, parts: seq<seq<Fragment>>) {
    |parts| == |groups| && forall i :: 0 <= i < |groups| ==> IsFlushOf(groups[i], splitLines, parts[i])
  }

  /** The pieces come from some greedy packing of the module's code, group by group. */
  ghost predicate IsFlushing(moduleLines: seq<Fragment>, splitLines: string -> seq<string>, pieces: seq<Fragment>) {
    exists groups, parts ::
      Packs(groups, moduleLines) && AreFlushesOf(groups, splitLines, parts) && pieces == Flatten(parts)
  }

  method Flush(moduleLines: seq<Fragment>, splitLines: string -> seq<string>)
    returns (pieces: seq<Fragment>, ghost groups: seq<seq<Fragment>>, ghost parts: seq<seq<Fragment>>)
    ensures Packs(groups, moduleLines) && AreFlushesOf(groups, splitLines, parts) && pieces == Flatten(parts)
    ensures IsFlushing(moduleLines, splitLines, pieces)
  {
    pieces, groups, parts := [], [], [];
    if moduleLines == [] {
      return;
    }
    var packed := GroupedByBudget(moduleLines);
    groups := packed;
    hide Packs, IsFlushOf, ModuleFragment, Flatten;
    for i := 0 to |packed|
      invariant AreFlushesOf(packed[..i], splitLines, parts) && pieces == Flatten(parts)
    {
      hide AreFlushesOf;
      GroupIsNotEmpty(packed, moduleLines, i);
      var part := FlushGroup(packed[i], splitLines);
      FlattenAppend(parts, part);
      FlushesOfOneMore(packed, splitLines, parts, i, part);
      pieces := pieces + part;
      parts := parts + [part];
    }
    assert packed[..|packed|] == packed;
  }

  lemma FlushesOfOneMore(
    groups: seq<seq<Fragment>>, splitLines: string -> seq<string>, parts: seq<seq<Fragment>>, i: nat, part: seq<Fragment>)
    requires i < |groups| && AreFlushesOf(groups[..i], splitLines, parts) && IsFlushOf(groups[i], splitLines, part)
    ensures AreFlushesOf(groups[..i + 1], splitLines, parts + [part])
  {
    hide IsFlushOf;
    assert groups[..i + 1] == groups[..i] + [groups[i]];
  }

  lemma GroupIsNotEmpty(groups: seq<seq<Fragment>>, fragments: seq<Fragment>, i: nat)
    requires Packs(groups, fragments) && i < |groups|
    ensures groups[i] != []
  {
    assert WithinBudget(groups[i]);
  }

  method FlushGroup(group: seq<Fragment>, splitLines: string -> seq<string>) returns (part: seq<Fragment>)
    requires group != []
    ensures IsFlushOf(group, splitLines, part)
  {
    hide Windows, JoinedText;
    var collected := ModuleFragment(group);
    if collected.Tokens() <= MAX_CHUNK_TOKENS {
      return [collected];
    }
    part := SplitByLines(collected, splitLines);
  }

  // ---- nothing is lost -----------------------------------------------------------------------

  /** The text of a group, read back from what it became. */
  function TextOf(part: seq<Fragment>): string {
    if |part| == 1 then part[0].text else Join(Rebuilt(part, |part|), '\n')
  }

  /** Python's `text.splitlines()` where newlines are the only line breaks: no line after a last newline. */
  function SplitLines(text: string): seq<string> {
    var parts := Split(text, '\n');
    if Last(parts) == "" then Init(parts) else parts
  }

  /** The text without the newline it ends with, if it does. */
  function WithoutLastNewline(text: string): string {
    if text != "" && Last(text) == '\n' then Init(text) else text
  }

  lemma JoinOfSplitLines(text: string)
    requires text != "" && text != "\n"
    ensures SplitLines(text) != [] && Free(SplitLines(text), '\n')
    ensures Join(SplitLines(text), '\n') == WithoutLastNewline(text)
  {
    var parts := Split(text, '\n');
    JoinOfSplit(text, '\n');
    hide Split, Join;
    assert parts == Init(parts) + [Last(parts)];
    if |parts| == 1 {
      SingleJoin(parts[0]);
      assert Last(text) !in [] && Last(text) in parts[0];
    } else {
      JoinOfAppend(Init(parts), Last(parts), '\n');
      var front := Join(Init(parts), '\n');
      assert text == front + ['\n'] + Last(parts);
      if Last(parts) == "" {
        assert text == front + ['\n'];
      } else {
        assert Last(text) == Last(Last(parts)) && Last(text) in Last(parts);
      }
    }
  }

  lemma SingleJoin(line: string)
    ensures Join([line], '\n') == line
  {
  }

  /**
   A group that is cut keeps its whole text but for a newline at the very end, and
   one that is not cut keeps all of it; every piece stays at module level.
   */
  lemma PiecesKeepTheText(group: seq<Fragment>, splitLines: string -> seq<string>, part: seq<Fragment>)
    requires IsFlushOf(group, splitLines, part) && splitLines(JoinedText(group)) == SplitLines(JoinedText(group))
    ensures TextOf(part) == if ModuleFragment(group).Tokens() <= MAX_CHUNK_TOKENS then JoinedText(group)
                            else WithoutLastNewline(JoinedText(group))
    ensures forall i :: 0 <= i < |part| ==> part[i].isModuleLevel
    ensures EstimateTokens(|JoinedText(group)|) <= 512 ==>
              part == [Fragment(group[0].startLine, Last(group).endLine, JoinedText(group), None, None, true)]
  {
    var whole := ModuleFragment(group);
    var lines := splitLines(whole.text);
    if whole.Tokens() > MAX_CHUNK_TOKENS {
      var step := StepOf(lines, whole.Tokens());
      JoinOfSplitLines(whole.text);
      hide JoinedText, Join, Split, Rebuilt, SplitLines, WithoutLastNewline;
      PiecesRebuildTheFragment(whole, lines, step, part);
      PiecesAreModuleLevel(whole, lines, step, part);
      if |part| == 1 {
        OneWindowIsAll(whole, lines, step, part);
      }
    }
  }

  lemma PiecesAreModuleLevel(fragment: Fragment, lines: seq<string>, step: nat, pieces: seq<Fragment>)
    requires step >= 1 && Windows(fragment, lines, step, pieces)
    ensures forall i :: 0 <= i < |pieces| ==> pieces[i].isModuleLevel == fragment.isModuleLevel
  {
    forall i | 0 <= i < |pieces|
      ensures pieces[i].isModuleLevel == fragment.isModuleLevel
    {
      assert IsWindow(fragment, lines, step, i, pieces[i]);
    }
  }

  lemma OneWindowIsAll(fragment: Fragment, lines: seq<string>, step: nat, pieces: seq<Fragment>)
    requires step >= 1 && Windows(fragment, lines, step, pieces) && |pieces| == 1
    ensures pieces[0].text == Join(lines, '\n')
  {
    hide Join;
    assert IsWindow(fragment, lines, step, 0, pieces[0]);
    assert lines[..|lines|] == lines;
  }

  // ---- line numbers -----------------------------------------------------------------------------

  ghost predicate IsPartOf(part: string, line: string) {
    exists from, to :: 0 <= from <= to <= |line| && part == line[from..to]
  }

  /**
   The fragment lies on these lines of the file: each line of its text is a part of
   the file's line, which may go on before it or behind it.
   */
  ghost predicate LiesOn(file: seq<string>, fragment: Fragment) {
    && 1 <= fragment.startLine <= fragment.endLine <= |file|
    && |Split(fragment.text, '\n')| == fragment.endLine - fragment.startLine + 1
    && forall k :: 0 <= k < |Split(fragment.text, '\n')| ==>
                     IsPartOf(Split(fragment.text, '\n')[k], file[fragment.startLine - 1 + k])
  }

  function Range(start: int, end: int): (numbers: seq<int>)
    requires start <= end + 1
    ensures |numbers| == end + 1 - start
    ensures forall i :: 0 <= i < |numbers| ==> numbers[i] == start + i
  {
    seq(end + 1 - start, i requires 0 <= i => start + i)
  }

  predicate AreNumbered(group: seq<Fragment>) {
    forall i :: 0 <= i < |group| ==> group[i].startLine <= group[i].endLine
  }

  /** The file line each line of the joined text comes from. */
  function SourceLines(group: seq<Fragment>): seq<int>
    requires AreNumbered(group)
  {
    if group == [] then []
    else SourceLines(Init(group)) + Range(Last(group).startLine, Last(group).endLine)
  }

  predicate FollowsDirectly(previous: Fragment, next: Fragment) {
    next.startLine == previous.endLine + 1
  }

  ghost predicate Contiguous(group: seq<Fragment>) {
    forall i, j :: 0 <= i && j == i + 1 && j < |group| ==> FollowsDirectly(group[i], group[j])
  }

  /** Numbering the joined lines from the first fragment's line gives every line its own number. */
  ghost predicate NumbersAreExact(group: seq<Fragment>)
    requires group != [] && AreNumbered(group)
  {
    SourceLines(group) == Range(group[0].startLine, group[0].startLine + |SourceLines(group)| - 1)
  }

  lemma ContiguousOfOneMore(group: seq<Fragment>)
    requires |group| > 1
    ensures Contiguous(group) <==> Contiguous(Init(group)) && FollowsDirectly(Last(Init(group)), Last(group))
  {
    hide FollowsDirectly;
    if Contiguous(Init(group)) && FollowsDirectly(Last(Init(group)), Last(group)) {
      forall i, j | 0 <= i && j == i + 1 && j < |group|
        ensures FollowsDirectly(group[i], group[j])
      {
        assert j < |group| - 1 ==> FollowsDirectly(Init(group)[i], Init(group)[j]);
      }
    }
    if Contiguous(group) {
      forall i, j | 0 <= i && j == i + 1 && j < |Init(group)|
        ensures FollowsDirectly(Init(group)[i], Init(group)[j])
      {
        assert FollowsDirectly(group[i], group[j]);
      }
      assert FollowsDirectly(group[|group| - 2], group[|group| - 1]);
    }
  }

  lemma RangesConcat(first: int, middle: int, start: int, end: int, numbers: seq<int>)
    requires first <= middle + 1 && start <= end
    requires numbers == Range(first, middle) + Range(start, end)
    ensures numbers == Range(first, first + |numbers| - 1) <==> start == middle + 1
  {
    assert numbers[middle + 1 - first] == start;
    if start == middle + 1 {
      assert forall i :: 0 <= i < |numbers| ==> numbers[i] == first + i;
    } else {
      assert Range(first, first + |numbers| - 1)[middle + 1 - first] == middle + 1;
    }
  }

  lemma PrefixOfRange(first: int, numbers: seq<int>, more: seq<int>)
    ensures numbers + more == Range(first, first + |numbers + more| - 1) ==>
              numbers == Range(first, first + |numbers| - 1)
  {
    if numbers + more == Range(first, first + |numbers + more| - 1) {
      forall i | 0 <= i < |numbers|
        ensures numbers[i] == first + i
      {
        assert (numbers + more)[i] == numbers[i];
      }
    }
  }

  /**
   A piece of several nodes is numbered as if its lines followed each other in the
   file. That is right exactly when every node starts on the line after the one
   before it ends; a blank line between two nodes shifts all numbers behind it.
   */
  lemma {:induction false} NumbersAreExactIffContiguous(group: seq<Fragment>)
    requires group != [] && AreNumbered(group)
    ensures NumbersAreExact(group) <==> Contiguous(group)
    ensures NumbersAreExact(group) ==> |SourceLines(group)| == Last(group).endLine - group[0].startLine + 1
    ensures SourceLines(group) != []
  {
    var last := Last(group);
    if |group| == 1 {
      assert SourceLines(group) == [] + Range(last.startLine, last.endLine) == Range(last.startLine, last.endLine);
    } else {
      var front := Init(group);
      assert AreNumbered(front) && front[0] == group[0];
      NumbersAreExactIffContiguous(front);
      ContiguousOfOneMore(group);
      var numbers := SourceLines(front);
      assert SourceLines(group) == numbers + Range(last.startLine, last.endLine);
      hide SourceLines, Contiguous;
      PrefixOfRange(group[0].startLine, numbers, Range(last.startLine, last.endLine));
      if NumbersAreExact(front) {
        RangesConcat(group[0].startLine, Last(front).endLine, last.startLine, last.endLine, SourceLines(group));
      }
    }
  }

  lemma SplitOfTwo(a: string, b: string)
    ensures Split(a + ['\n'] + b, '\n') == Split(a, '\n') + Split(b, '\n')
  {
    SplitOfCons('\n', b, '\n');
    assert ['\n'] + b == ['\n'] + b && a + ['\n'] + b == a + (['\n'] + b);
    SplitAbsorbs(a, ['\n'] + b, '\n', [], Split(b, '\n'));
    assert a + [] == a;
  }

  /** These are parts of the lines of the file with these numbers. */
  ghost predicate ArePartsOf(file: seq<string>, lines: seq<string>, numbers: seq<int>) {
    && |lines| == |numbers|
    && forall i :: 0 <= i < |lines| ==> 1 <= numbers[i] <= |file| && IsPartOf(lines[i], file[numbers[i] - 1])
  }

  lemma PartsConcat(file: seq<string>, a: seq<string>, b: seq<string>, m: seq<int>, n: seq<int>)
    requires ArePartsOf(file, a, m) && ArePartsOf(file, b, n)
    ensures ArePartsOf(file, a + b, m + n)
  {
    hide IsPartOf;
  }

  lemma OwnLines(file: seq<string>, fragment: Fragment)
    requires LiesOn(file, fragment)
    ensures ArePartsOf(file, Split(fragment.text, '\n'), Range(fragment.startLine, fragment.endLine))
  {
    hide Split, IsPartOf;
  }

  lemma NumbersUnfold(group: seq<Fragment>)
    requires group != [] && AreNumbered(group)
    ensures Last(group).startLine <= Last(group).endLine
    ensures |group| == 1 ==> SourceLines(group) == Range(Last(group).startLine, Last(group).endLine)
    ensures |group| > 1 ==>
              && AreNumbered(Init(group)) && Init(group) != []
              && SourceLines(group) == SourceLines(Init(group)) + Range(Last(group).startLine, Last(group).endLine)
  {
    var last := Last(group);
    if |group| == 1 {
      assert SourceLines(group) == [] + Range(last.startLine, last.endLine) == Range(last.startLine, last.endLine);
    }
  }

  /** The lines of the joined text lie on the lines of the file that `SourceLines` names, one for one. */
  lemma {:induction false} JoinedLinesComeFromTheFile(file: seq<string>, group: seq<Fragment>)
    requires group != [] && AreNumbered(group) && forall fragment :: fragment in group ==> LiesOn(file, fragment)
    ensures ArePartsOf(file, Split(JoinedText(group), '\n'), SourceLines(group))
  {
    LastIn(group);
    hide *;
    var last := Last(group);
    JoinedOfOneMore(group);
    NumbersUnfold(group);
    OwnLines(file, last);
    if |group| > 1 {
      var front := Init(group);
      JoinedLinesComeFromTheFile(file, front);
      SplitOfTwo(JoinedText(front), last.text);
      PartsConcat(
        file, Split(JoinedText(front), '\n'), Split(last.text, '\n'), SourceLines(front),
        Range(last.startLine, last.endLine));
    }
  }

  lemma LastIn<T>(s: seq<T>)
    requires s != []
    ensures Last(s) in s && |Init(s)| < |s| && forall x :: x in Init(s) ==> x in s
  {
  }

  // ---- the numbers the pieces carry ----------------------------------------------------------------

  /** The first `n` lines of the joined text have the numbers that counting from the first node gives. */
  predicate CountsRight(group: seq<Fragment>, n: nat)
    requires group != [] && AreNumbered(group) && n <= |SourceLines(group)|
  {
    SourceLines(group)[..n] == Range(group[0].startLine, group[0].startLine + n - 1)
  }

  lemma CountsIntoTheLast(first: int, front: seq<int>, start: int, end: int, n: nat)
    requires start <= end && |front| < n <= |front| + (end - start + 1)
    ensures (front + Range(start, end))[..n] == Range(first, first + n - 1) <==>
            front == Range(first, first + |front| - 1) && start == first + |front|
  {
    var numbers := front + Range(start, end);
    assert numbers[|front|] == start;
    if numbers[..n] == Range(first, first + n - 1) {
      assert numbers[..n][|front|] == start;
      forall i | 0 <= i < |front|
        ensures front[i] == first + i
      {
        assert numbers[..n][i] == front[i];
      }
    }
    if front == Range(first, first + |front| - 1) && start == first + |front| {
      assert forall i :: 0 <= i < n ==> numbers[i] == first + i;
    }
  }

  /** Counting right into the last node is counting right to the end. */
  lemma CountsRightIffContiguous(group: seq<Fragment>, n: nat)
    requires group != [] && AreNumbered(group)
    requires |SourceLines(Init(group))| < n <= |SourceLines(group)|
    ensures CountsRight(group, n) <==> Contiguous(group)
  {
    var last, front := Last(group), Init(group);
    NumbersUnfold(group);
    if |group| > 1 {
      assert front[0] == group[0];
      NumbersAreExactIffContiguous(front);
      ContiguousOfOneMore(group);
      hide SourceLines, Contiguous;
      CountsIntoTheLast(group[0].startLine, SourceLines(front), last.startLine, last.endLine, n);
    } else {
      hide SourceLines;
      assert Contiguous(group);
    }
  }

  /** The line a piece gives the number `number` comes from the line of the file with that number. */
  predicate NumberIsExact(group: seq<Fragment>, number: int)
    requires group != [] && AreNumbered(group)
  {
    var i := number - group[0].startLine;
    0 <= i < |SourceLines(group)| && SourceLines(group)[i] == number
  }

  /** Every line of every piece carries the number of the file's line it comes from. */
  ghost predicate PieceNumbersAreExact(group: seq<Fragment>, part: seq<Fragment>)
    requires group != [] && AreNumbered(group)
  {
    forall k, number :: 0 <= k < |part| && part[k].startLine <= number <= part[k].endLine ==>
                          NumberIsExact(group, number)
  }

  lemma {:induction false} WindowsCover(
    fragment: Fragment, lines: seq<string>, step: nat, pieces: seq<Fragment>, n: nat, i: nat)
    returns (k: nat)
    requires step >= 1 && Windows(fragment, lines, step, pieces) && 1 <= n <= |pieces|
    requires fragment.startLine + i <= pieces[n - 1].endLine
    ensures k < n && pieces[k].startLine <= fragment.startLine + i <= pieces[k].endLine
  {
    hide Join, Windows, IsWindow;
    WindowAt(fragment, lines, step, pieces, n - 1);
    if pieces[n - 1].startLine <= fragment.startLine + i {
      k := n - 1;
    } else {
      PiecesOverlap(fragment, lines, step, pieces, n - 2);
      k := WindowsCover(fragment, lines, step, pieces, n - 1, i);
    }
  }

  lemma WindowSpan(fragment: Fragment, lines: seq<string>, step: nat, pieces: seq<Fragment>, k: nat)
    requires step >= 1 && Windows(fragment, lines, step, pieces) && k < |pieces|
    ensures fragment.startLine <= pieces[k].startLine <= pieces[k].endLine < fragment.startLine + |lines|
    ensures Last(pieces).endLine == fragment.startLine + |lines| - 1
  {
    hide Join;
    assert IsWindow(fragment, lines, step, k, pieces[k]);
    assert Last(pieces) == pieces[|pieces| - 1];
  }

  /** Every number from the first node's line on, for `n` lines, is the number of the line it counts. */
  ghost predicate AreExactFrom(group: seq<Fragment>, n: nat)
    requires group != [] && AreNumbered(group)
  {
    forall number :: group[0].startLine <= number < group[0].startLine + n ==> NumberIsExact(group, number)
  }

  lemma CountsRightAt(group: seq<Fragment>, n: nat)
    requires group != [] && AreNumbered(group) && n <= |SourceLines(group)|
    ensures CountsRight(group, n) <==> AreExactFrom(group, n)
  {
    hide SourceLines;
    var numbers, first := SourceLines(group), group[0].startLine;
    if CountsRight(group, n) {
      forall number | first <= number < first + n
        ensures NumberIsExact(group, number)
      {
        assert numbers[..n][number - first] == numbers[number - first];
      }
    }
    if AreExactFrom(group, n) {
      forall i | 0 <= i < n
        ensures numbers[..n][i] == first + i
      {
        assert NumberIsExact(group, first + i);
      }
    }
  }

  lemma PiecesCarryAll(
    group: seq<Fragment>, fragment: Fragment, lines: seq<string>, step: nat, part: seq<Fragment>)
    requires group != [] && AreNumbered(group) && fragment.startLine == group[0].startLine
    requires step >= 1 && Windows(fragment, lines, step, part) && part != []
    ensures PieceNumbersAreExact(group, part) <==> AreExactFrom(group, |lines|)
  {
    var n, first := |lines|, group[0].startLine;
    hide Windows, SourceLines, NumberIsExact, AreNumbered;
    if AreExactFrom(group, n) {
      forall k, number | 0 <= k < |part| && part[k].startLine <= number <= part[k].endLine
        ensures NumberIsExact(group, number)
      {
        WindowSpan(fragment, lines, step, part, k);
      }
    }
    WindowSpan(fragment, lines, step, part, 0);
    if PieceNumbersAreExact(group, part) {
      forall number | first <= number < first + n
        ensures NumberIsExact(group, number)
      {
        var k := WindowsCover(fragment, lines, step, part, |part|, number - first);
      }
    }
  }

  /** The nodes whose text the cut pieces hold: a last node without any text leaves no line. */
  function Reached(group: seq<Fragment>): seq<Fragment>
    requires group != []
  {
    if Last(group).text == "" then Init(group) else group
  }

  /** How many lines of the joined text are cut into pieces. */
  lemma LinesReached(file: seq<string>, group: seq<Fragment>)
    requires group != [] && AreNumbered(group) && forall fragment :: fragment in group ==> LiesOn(file, fragment)
    requires JoinedText(group) != "" && JoinedText(group) != "\n"
    ensures var n := |SplitLines(JoinedText(group))|;
      && 0 < n <= |SourceLines(group)| && Reached(group) != []
      && if Last(group).text == "" then n == |SourceLines(Init(group))| else |SourceLines(Init(group))| < n
  {
    var last, front := Last(group), Init(group);
    JoinedLinesComeFromTheFile(file, group);
    JoinOfSplitLines(JoinedText(group));
    JoinedOfOneMore(group);
    NumbersUnfold(group);
    LastIn(group);
    assert LiesOn(file, last);
    if |group| > 1 {
      SplitOfTwo(JoinedText(front), last.text);
      assert Last(Split(JoinedText(group), '\n')) == Last(Split(last.text, '\n'));
    } else {
      assert SourceLines(front) == [];
    }
    JoinOfSplit(last.text, '\n');
    OneEmptyLine(last.text);
    hide JoinedText, Split, Join, SourceLines;
  }

  lemma OneEmptyLine(text: string)
    ensures text == "" <==> Last(Split(text, '\n')) == "" && |Split(text, '\n')| == 1
  {
    JoinOfSplit(text, '\n');
    hide Split;
    if |Split(text, '\n')| == 1 {
      assert Split(text, '\n') == [Last(Split(text, '\n'))];
      SingleJoin(Last(Split(text, '\n')));
    } else if text == "" {
      SplitOfFree<char>("", '\n');
    }
  }

  /**
   A group that is cut by lines: the lines of its pieces carry the numbers they have
   in the file if and only if every node of the group starts on the line after the
   one before it ends. A blank line between two nodes shifts all numbers behind it.
   Nodes may share their lines with other code; a last node without text leaves no
   line behind and does not matter.
   */
  lemma PieceNumbersAreExactIffContiguous(
    file: seq<string>, group: seq<Fragment>, splitLines: string -> seq<string>, part: seq<Fragment>)
    requires IsFlushOf(group, splitLines, part) && splitLines(JoinedText(group)) == SplitLines(JoinedText(group))
    requires forall fragment :: fragment in group ==> LiesOn(file, fragment)
    requires ModuleFragment(group).Tokens() > MAX_CHUNK_TOKENS
    ensures AreNumbered(group)
    ensures PieceNumbersAreExact(group, part) <==> Contiguous(Reached(group))
  {
    var whole, lines := ModuleFragment(group), SplitLines(JoinedText(group));
    assert AreNumbered(group) by {
      forall i | 0 <= i < |group|
        ensures group[i].startLine <= group[i].endLine
      {
        assert group[i] in group;
      }
    }
    var step := StepOf(lines, whole.Tokens());
    assert Windows(whole, lines, step, part) && (part == [] <==> lines == []);
    assert JoinedText(group) != "" && JoinedText(group) != "\n";
    hide Windows, Contiguous, JoinedText, SourceLines, LiesOn, SplitLines, IsFlushOf, CountsRight, AreExactFrom;
    hide PieceNumbersAreExact;
    LinesReached(file, group);
    PiecesCarryAll(group, whole, lines, step, part);
    CountsRightAt(group, |lines|);
    if Last(group).text == "" {
      CountsRightToTheFront(group);
    } else {
      CountsRightIffContiguous(group, |lines|);
    }
  }

  lemma CountsRightToTheFront(group: seq<Fragment>)
    requires |group| > 1 && AreNumbered(group)
    ensures AreNumbered(Init(group)) && |SourceLines(Init(group))| <= |SourceLines(group)|
    ensures CountsRight(group, |SourceLines(Init(group))|) <==> Contiguous(Init(group))
  {
    var front := Init(group);
    NumbersUnfold(group);
    NumbersAreExactIffContiguous(front);
    assert front[0] == group[0] && SourceLines(group)[..|SourceLines(front)|] == SourceLines(front);
    hide SourceLines, Contiguous;
  }

  /** Two nodes within the budget, on lines 1 and 3, whose pieces carry wrong numbers. */
  lemma GapShiftsNumbers(splitLines: string -> seq<string>, part: seq<Fragment>)
    returns (file: seq<string>, group: seq<Fragment>)
    ensures (forall fragment :: fragment in group ==> LiesOn(file, fragment))
    ensures |group| == 2 && AreNumbered(group) && WithinBudget(group)
    ensures ModuleFragment(group).Tokens() > MAX_CHUNK_TOKENS
    ensures IsFlushOf(group, splitLines, part) && splitLines(JoinedText(group)) == SplitLines(JoinedText(group)) ==>
              !PieceNumbersAreExact(group, part)
  {
    var text := seq(769, i => 'x');
    var first, second := Fragment(1, 1, text, None, None, true), Fragment(3, 3, text, None, None, true);
    file, group := [text, "", text], [first, second];
    GroupCanOverflow(first, second);
    SplitOfFree(text, '\n');
    assert text == text[0..|text|];
    assert IsPartOf(text, text) && LiesOn(file, first) && LiesOn(file, second);
    assert !FollowsDirectly(Reached(group)[0], Reached(group)[1]);
    hide JoinedText, Split, SourceLines, LiesOn, SplitLines;
    if IsFlushOf(group, splitLines, part) && splitLines(JoinedText(group)) == SplitLines(JoinedText(group)) {
      PieceNumbersAreExactIffContiguous(file, group, splitLines, part);
    }
  }
}
