/**
 Cutting code fragments: a large one by lines with an overlap, module-level
 nodes into groups under a budget, small neighbours merged.
 */
module Chunking {
  import opened Prelude
  import opened Splitting
  import opened Tokens

  const MAX_CHUNK_TOKENS := 512
  const MIN_CHUNK_TOKENS := 48
  const OVERLAP_LINES := 2

  datatype Fragment = Fragment(
    startLine: int,
    endLine: int,
    text: string,
    symbolId: Option<int>,
    owner: Option<string>,
    isModuleLevel: bool)
  {
    function Tokens(): nat {
      EstimateTokens(|text|)
    }
  }

  // ---- splitting by lines --------------------------------------------------------

  function StepOf(lines: seq<string>, tokens: nat): (step: nat)
    ensures step >= 1
  {
    Max(1, |lines| * MAX_CHUNK_TOKENS / Max(tokens, 1))
  }

  function StrideOf(step: nat): (stride: nat)
    ensures stride >= 1
  {
    Max(step - OVERLAP_LINES, 1)
  }

  /** The `k`-th piece: lines from `k` strides on, one step of them unless the text ends before. */
  predicate IsWindow(fragment: Fragment, lines: seq<string>, step: nat, k: nat, piece: Fragment) {
    var start := k * StrideOf(step);
    var end := Min(start + step, |lines|);
    && start < end
    && piece == Fragment(
                  fragment.startLine + start,
                  fragment.startLine + end - 1,
                  Join(lines[start..end], '\n'),
                  if k == 0 then fragment.symbolId else None,
                  fragment.owner,
                  fragment.isModuleLevel)
  }

  /** Pieces are consecutive windows; exactly the last one reaches the end of the text. */
  ghost predicate Windows(fragment: Fragment, lines: seq<string>, step: nat, pieces: seq<Fragment>) {
    && (forall k :: 0 <= k < |pieces| ==> IsWindow(fragment, lines, step, k, pieces[k]))
    && (forall k {:trigger pieces[k]} :: 0 <= k < |pieces| ==>
          (pieces[k].endLine == fragment.startLine + |lines| - 1 <==> k == |pieces| - 1))
    && (pieces == [] <==> lines == [])
  }

  method SplitByLines(fragment: Fragment, splitLines: string -> seq<string>) returns (pieces: seq<Fragment>)
    ensures var lines := splitLines(fragment.text);
      Windows(fragment, lines, StepOf(lines, fragment.Tokens()), pieces)
  {
    hide Join;
    var lines := splitLines(fragment.text);
    var step := Max(1, |lines| * MAX_CHUNK_TOKENS / Max(fragment.Tokens(), 1));
    ghost var stride := StrideOf(step);
    pieces := [];
    var start := 0;
    while start < |lines|
      invariant 0 <= start == |pieces| * stride
      invariant if lines == [] then pieces == [] else start < |lines|
      invariant forall k :: 0 <= k < |pieces| ==> IsWindow(fragment, lines, step, k, pieces[k])
      invariant forall k {:trigger pieces[k]} :: 0 <= k < |pieces| ==> pieces[k].endLine < fragment.startLine + |lines| - 1
      decreases |lines| - start
    {
      var end := Min(start + step, |lines|);
      var piece := Fragment(
        fragment.startLine + start,
        fragment.startLine + end - 1,
        Join(lines[start..end], '\n'),
        if start == 0 then fragment.symbolId else None,
        fragment.owner,
        fragment.isModuleLevel);
      PositiveProduct(|pieces|, stride);
      pieces := pieces + [piece];
      if end >= |lines| {
        break;
      }
      NextMultiple(|pieces| - 1, stride);
      start := Max(end - OVERLAP_LINES, start + 1);
    }
  }

  lemma PositiveProduct(k: nat, stride: nat)
    requires stride >= 1
    ensures k * stride == 0 <==> k == 0
  {
  }

  lemma NextMultiple(k: nat, stride: nat)
    ensures (k + 1) * stride == k * stride + stride
  {
  }

  /** Neighbouring pieces share exactly `min(2, step - 1)` lines and starts grow strictly. */
  lemma PiecesOverlap(fragment: Fragment, lines: seq<string>, step: nat, pieces: seq<Fragment>, k: nat)
    requires step >= 1 && Windows(fragment, lines, step, pieces) && k + 1 < |pieces|
    ensures pieces[k].startLine < pieces[k + 1].startLine
    ensures pieces[k].endLine - pieces[k + 1].startLine + 1 == Min(OVERLAP_LINES, step - 1)
    ensures pieces[k].endLine < pieces[k + 1].endLine
  {
    hide Join;
    NextMultiple(k, StrideOf(step));
    assert IsWindow(fragment, lines, step, k, pieces[k]);
    assert IsWindow(fragment, lines, step, k + 1, pieces[k + 1]);
  }

  lemma QuotientBounds(a: nat, d: nat)
    requires d >= 1
    ensures a / d * d <= a < (a / d + 1) * d
  {
  }

  lemma StepIsTheShare(lines: seq<string>, tokens: nat, n: nat)
    requires tokens >= 1 && 1 <= n <= StepOf(lines, tokens)
    ensures n == 1 || n * tokens <= |lines| * 512
    ensures n == StepOf(lines, tokens) ==> |lines| * 512 < (n + 1) * tokens
  {
    var a := |lines| * 512;
    QuotientBounds(a, tokens);
    if n > 1 {
      MoreTimes(n, a / tokens, tokens);
    }
    if n == StepOf(lines, tokens) {
      MoreTimes(a / tokens + 1, n + 1, tokens);
    }
  }

  lemma MoreTimes(m: nat, n: nat, d: nat)
    requires m <= n
    ensures m * d <= n * d
  {
  }

  /**
   A piece takes as many lines as make 512 tokens when every line has its average share
   of the estimate, and at least one; only the last piece may take fewer.
   */
  lemma PiecesTakeTheirShare(fragment: Fragment, lines: seq<string>, pieces: seq<Fragment>, k: nat)
    requires Windows(fragment, lines, StepOf(lines, fragment.Tokens()), pieces) && k < |pieces|
    ensures var n, tokens := pieces[k].endLine - pieces[k].startLine + 1, EstimateTokens(|fragment.text|);
      && 1 <= n && (n == 1 || n * tokens <= |lines| * 512)
      && (k < |pieces| - 1 ==> |lines| * 512 < (n + 1) * tokens)
  {
    var step := StepOf(lines, fragment.Tokens());
    assert IsWindow(fragment, lines, step, k, pieces[k]);
    hide Join, StepOf;
    StepIsTheShare(lines, fragment.Tokens(), pieces[k].endLine - pieces[k].startLine + 1);
  }

  /** The lines a piece adds to the ones before it, read back from its text. */
  function NewLines(pieces: seq<Fragment>, k: nat): seq<string>
    requires k < |pieces|
  {
    var own := Split(pieces[k].text, '\n');
    var seen := if k == 0 then 0 else pieces[k - 1].endLine - pieces[k].startLine + 1;
    if 0 <= seen <= |own| then own[seen..] else []
  }

  function Rebuilt(pieces: seq<Fragment>, n: nat): seq<string>
    requires n <= |pieces|
  {
    if n == 0 then [] else Rebuilt(pieces, n - 1) + NewLines(pieces, n - 1)
  }

  /** The text of a window splits back into the lines it was cut from. */
  lemma WindowLines(fragment: Fragment, lines: seq<string>, step: nat, k: nat, piece: Fragment)
    requires step >= 1 && IsWindow(fragment, lines, step, k, piece) && Free(lines, '\n')
    ensures var start := piece.startLine - fragment.startLine;
      var end := piece.endLine - fragment.startLine + 1;
      0 <= start < end <= |lines| && Split(piece.text, '\n') == lines[start..end]
  {
    hide Split, Join;
    var start := k * StrideOf(step);
    SplitOfJoin(lines[start..Min(start + step, |lines|)], '\n');
  }

  lemma {:induction false} RebuiltPrefix(fragment: Fragment, lines: seq<string>, step: nat, pieces: seq<Fragment>, n: nat)
    requires step >= 1 && Windows(fragment, lines, step, pieces) && Free(lines, '\n') && 1 <= n <= |pieces|
    ensures 0 <= pieces[n - 1].endLine - fragment.startLine < |lines|
    ensures Rebuilt(pieces, n) == lines[..pieces[n - 1].endLine - fragment.startLine + 1]
  {
    hide Split, Join, Windows, IsWindow, Rebuilt;
    var k := n - 1;
    WindowAt(fragment, lines, step, pieces, k);
    WindowLines(fragment, lines, step, k, pieces[k]);
    var start, end := pieces[k].startLine - fragment.startLine, pieces[k].endLine - fragment.startLine + 1;
    if k > 0 {
      RebuiltPrefix(fragment, lines, step, pieces, k);
      PiecesOverlap(fragment, lines, step, pieces, k - 1);
      RebuiltStep(lines, pieces, k, start, pieces[k - 1].endLine - fragment.startLine + 1, end);
    } else {
      RebuiltStep(lines, pieces, 0, 0, 0, end);
    }
  }

  lemma RebuiltStep(lines: seq<string>, pieces: seq<Fragment>, k: nat, start: nat, before: nat, end: nat)
    requires k < |pieces| && start <= before <= end <= |lines|
    requires Split(pieces[k].text, '\n') == lines[start..end]
    requires if k == 0 then before == start == 0
             else before - start == pieces[k - 1].endLine - pieces[k].startLine + 1
                  && Rebuilt(pieces, k) == lines[..before]
    ensures Rebuilt(pieces, k + 1) == lines[..end]
  {
    hide Split;
    DropOverlap(lines, start, before, end);
    assert NewLines(pieces, k) == lines[start..end][before - start..];
  }

  lemma DropOverlap(lines: seq<string>, start: nat, before: nat, end: nat)
    requires start <= before <= end <= |lines|
    ensures lines[..before] + lines[start..end][before - start..] == lines[..end]
  {
  }

  lemma WindowAt(fragment: Fragment, lines: seq<string>, step: nat, pieces: seq<Fragment>, k: nat)
    requires step >= 1 && Windows(fragment, lines, step, pieces) && k < |pieces|
    ensures IsWindow(fragment, lines, step, k, pieces[k])
    ensures k == 0 ==> pieces[k].startLine == fragment.startLine
  {
  }

  /** Dropping the overlaps from the pieces' texts gives back every line of the fragment, in order. */
  lemma PiecesRebuildTheFragment(fragment: Fragment, lines: seq<string>, step: nat, pieces: seq<Fragment>)
    requires step >= 1 && Windows(fragment, lines, step, pieces) && Free(lines, '\n')
    ensures Rebuilt(pieces, |pieces|) == lines
  {
    hide Split, Join, IsWindow;
    if pieces != [] {
      assert Last(pieces).endLine == fragment.startLine + |lines| - 1;
      hide Windows;
      RebuiltPrefix(fragment, lines, step, pieces, |pieces|);
      assert lines[..|lines|] == lines;
    }
  }

  // ---- grouping by budget ----------------------------------------------------------

  function TotalTokens(group: seq<Fragment>): nat {
    if group == [] then 0 else TotalTokens(Init(group)) + Last(group).Tokens()
  }

  function JoinedText(group: seq<Fragment>): string {
    Join(Texts(group), '\n')
  }

  function Texts(group: seq<Fragment>): (texts: seq<string>)
    ensures |texts| == |group|
  {
    if group == [] then [] else Texts(Init(group)) + [Last(group).text]
  }

  /** A group fits the budget unless it is a single fragment. */
  predicate WithinBudget(group: seq<Fragment>) {
    group != [] && (|group| == 1 || TotalTokens(group) <= MAX_CHUNK_TOKENS)
  }

  /** The group could not have taken the fragment that opens the next one. */
  predicate IsFull(group: seq<Fragment>, next: seq<Fragment>) {
    next != [] && TotalTokens(group) + next[0].Tokens() > MAX_CHUNK_TOKENS
  }

  /** The groups hold the fragments in order, keep the budget and are packed greedily. */
  ghost predicate Packs(groups: seq<seq<Fragment>>, fragments: seq<Fragment>) {
    && Flatten(groups) == fragments
    && (forall i :: 0 <= i < |groups| ==> WithinBudget(groups[i]))
    && (forall i, j :: 0 <= i && j == i + 1 && j < |groups| ==> IsFull(groups[i], groups[j]))
  }

  lemma OpenGroup(groups: seq<seq<Fragment>>, fragments: seq<Fragment>, fragment: Fragment)
    requires Packs(groups, fragments)
    requires groups != [] ==> TotalTokens(Last(groups)) + fragment.Tokens() > MAX_CHUNK_TOKENS
    ensures Packs(groups + [[fragment]], fragments + [fragment]) && TotalTokens([fragment]) == fragment.Tokens()
  {
    FlattenAppend(groups, [fragment]);
    assert TotalTokens([fragment]) == TotalTokens([]) + fragment.Tokens();
  }

  lemma ExtendGroup(groups: seq<seq<Fragment>>, current: seq<Fragment>, fragments: seq<Fragment>, fragment: Fragment)
    requires Packs(groups + [current], fragments) && TotalTokens(current) + fragment.Tokens() <= MAX_CHUNK_TOKENS
    ensures Packs(groups + [current + [fragment]], fragments + [fragment])
    ensures TotalTokens(current + [fragment]) == TotalTokens(current) + fragment.Tokens()
  {
    hide TotalTokens, Flatten, WithinBudget;
    var longer := current + [fragment];
    var before, after := groups + [current], groups + [longer];
    assert WithinBudget(before[|groups|]);
    BudgetOfAppend(current, fragment);
    assert Flatten(after) == fragments + [fragment] by {
      FlattenAppend(groups, current);
      FlattenAppend(groups, longer);
    }
    forall i | 0 <= i < |after|
      ensures WithinBudget(after[i])
    {
      assert WithinBudget(before[i]);
    }
    forall i, j | 0 <= i && j == i + 1 && j < |after|
      ensures IsFull(after[i], after[j])
    {
      assert IsFull(before[i], before[j]);
    }
  }

  lemma BudgetOfAppend(group: seq<Fragment>, fragment: Fragment)
    ensures TotalTokens(group + [fragment]) == TotalTokens(group) + fragment.Tokens()
    ensures TotalTokens(group) + fragment.Tokens() <= MAX_CHUNK_TOKENS ==> WithinBudget(group + [fragment])
  {
    assert Init(group + [fragment]) == group;
  }

  /** The packing after these fragments: the closed groups, and the one that is still open. */
  ghost predicate Grouping(
    groups: seq<seq<Fragment>>, current: seq<Fragment>, total: int, fragments: seq<Fragment>)
  {
    if fragments == [] then current == [] && groups == [] && total == 0
    else total == TotalTokens(current) && current != [] && Packs(groups + [current], fragments)
  }

  lemma GroupNext(
    groups: seq<seq<Fragment>>, current: seq<Fragment>, total: int, fragments: seq<Fragment>, fragment: Fragment)
    requires Grouping(groups, current, total, fragments)
    ensures var size := fragment.Tokens();
      if current != [] && total + size > MAX_CHUNK_TOKENS then
        Grouping(groups + [current], [fragment], size, fragments + [fragment])
      else
        Grouping(groups, current + [fragment], total + size, fragments + [fragment])
  {
    hide TotalTokens, Packs;
    if fragments == [] {
      assert [] + [fragment] == [fragment] && [] + [[fragment]] == [[fragment]];
      NothingPacked();
      OpenGroup([], [], fragment);
    } else if total + fragment.Tokens() > MAX_CHUNK_TOKENS {
      assert Last(groups + [current]) == current;
      OpenGroup(groups + [current], fragments, fragment);
    } else {
      ExtendGroup(groups, current, fragments, fragment);
    }
  }

  lemma NothingPacked()
    ensures Packs([], [])
  {
  }

  method GroupedByBudget(moduleLines: seq<Fragment>) returns (groups: seq<seq<Fragment>>)
    ensures if moduleLines == [] then groups == [[]] else Packs(groups, moduleLines)
  {
    groups := [];
    var current: seq<Fragment> := [];
    var total := 0;
    assert Grouping([], [], 0, []);
    hide TotalTokens, Packs;
    for n := 0 to |moduleLines|
      invariant Grouping(groups, current, total, moduleLines[..n])
    {
      hide Grouping;
      var fragment := moduleLines[n];
      assert moduleLines[..n + 1] == moduleLines[..n] + [fragment];
      GroupNext(groups, current, total, moduleLines[..n], fragment);
      if current != [] && total + fragment.Tokens() > MAX_CHUNK_TOKENS {
        groups := groups + [current];
        current := [];
        total := 0;
        assert [] + [fragment] == [fragment];
      }
      current := current + [fragment];
      total := total + fragment.Tokens();
    }
    assert moduleLines[..|moduleLines|] == moduleLines;
    groups := groups + [current];
  }

  lemma {:induction false} JoinedLength(group: seq<Fragment>)
    requires group != []
    ensures |JoinedText(group)| + 1 <= 3 * TotalTokens(group) + 2 * |group|
  {
    if |group| == 1 {
      assert Texts(group) == [group[0].text];
      assert TotalTokens(group) == TotalTokens([]) + group[0].Tokens();
    } else {
      JoinedLength(Init(group));
      JoinOfAppend(Texts(Init(group)), Last(group).text, '\n');
    }
  }

  /**
   The estimate of a group's joined text exceeds the sum the budget was checked
   against by at most two thirds of a token per fragment.
   */
  lemma JoinedGroupExcess(group: seq<Fragment>)
    requires group != []
    ensures EstimateTokens(|JoinedText(group)|) <= TotalTokens(group) + 2 * |group| / 3
  {
    JoinedLength(group);
  }

  /** So a group of several nodes can overflow a chunk although its budget held. */
  lemma GroupCanOverflow(first: Fragment, second: Fragment)
    requires |first.text| == |second.text| == 769
    ensures WithinBudget([first, second]) && EstimateTokens(|JoinedText([first, second])|) == MAX_CHUNK_TOKENS + 1
  {
    var group := [first, second];
    assert Init(group) == [first] && Init([first]) == [];
    assert TotalTokens([first]) == TotalTokens([]) + first.Tokens();
    assert Texts([first]) == [first.text] && Texts(group) == [first.text, second.text];
    JoinOfAppend([first.text], second.text, '\n');
    assert [first.text] + [second.text] == Texts(group);
  }

  // ---- merging small neighbours ------------------------------------------------------

  function CommonPrefix<T(==)>(a: seq<T>, b: seq<T>): seq<T> {
    if a == [] || b == [] || a[0] != b[0] then [] else [a[0]] + CommonPrefix(a[1..], b[1..])
  }

  function CommonOwnerOf(first: Option<string>, second: Option<string>): Option<string> {
    if first.None? then second
    else if second.None? then (if first.value == "" then second else first)
    else
      var name := Join(CommonPrefix(Split(first.value, '.'), Split(second.value, '.')), '.');
      if name == "" then None else Some(name)
  }

  method CommonOwner(first: Option<string>, second: Option<string>) returns (owner: Option<string>)
    ensures owner == CommonOwnerOf(first, second)
  {
    if first.None? || second.None? {
      return if first.Some? && first.value != "" then first else second;
    }
    hide Split, Join;
    var left, right := Split(first.value, '.'), Split(second.value, '.');
    var shared: seq<string> := [];
    var i := 0;
    while i < |left| && i < |right|
      invariant 0 <= i <= |left| && i <= |right|
      invariant shared + CommonPrefix(left[i..], right[i..]) == CommonPrefix(left, right)
    {
      if left[i] != right[i] {
        break;
      }
      shared := shared + [left[i]];
      i := i + 1;
    }
    assert CommonPrefix(left[i..], right[i..]) == [];
    assert shared == CommonPrefix(left, right);
    owner := if Join(shared, '.') == "" then None else Some(Join(shared, '.'));
  }

  function MergedSymbolId(previous: Option<int>, next: Option<int>): Option<int> {
    if previous.None? then next
    else if next.None? || next == previous then previous
    else None
  }

  predicate Joinable(previous: Fragment, next: Fragment) {
    && !previous.isModuleLevel
    && !next.isModuleLevel
    && previous.Tokens() < MIN_CHUNK_TOKENS
    && previous.Tokens() + next.Tokens() <= MAX_CHUNK_TOKENS
    && next.startLine >= previous.endLine
  }

  function Glue(previous: Fragment, next: Fragment): Fragment {
    Fragment(
      previous.startLine,
      next.endLine,
      previous.text + "\n" + next.text,
      MergedSymbolId(previous.symbolId, next.symbolId),
      CommonOwnerOf(previous.owner, next.owner),
      false)
  }

  /** A run of input fragments glued from left to right. */
  function Merged(run: seq<Fragment>): Fragment
    requires run != []
  {
    if |run| == 1 then run[0] else Glue(Merged(Init(run)), Last(run))
  }

  /** Every gluing step in the run was allowed. */
  predicate IsRun(run: seq<Fragment>) {
    run != [] && (|run| > 1 ==> IsRun(Init(run)) && Joinable(Merged(Init(run)), Last(run)))
  }

  predicate IsMergeOf(merged: Fragment, run: seq<Fragment>) {
    IsRun(run) && merged == Merged(run)
  }

  predicate StopsBefore(merged: Fragment, run: seq<Fragment>) {
    run != [] && !Joinable(merged, run[0])
  }

  /** The merged fragments are the gluings of consecutive runs of the input. */
  ghost predicate MergesRuns(merged: seq<Fragment>, runs: seq<seq<Fragment>>, fragments: seq<Fragment>) {
    && |runs| == |merged| && Flatten(runs) == fragments
    && (forall i :: 0 <= i < |merged| ==> IsMergeOf(merged[i], runs[i]))
    && (forall i, j :: 0 <= i && j == i + 1 && j < |merged| ==> StopsBefore(merged[i], runs[j]))
  }

  /** The fragments are cut into some runs, and each run is glued. */
  ghost predicate IsMerging(merged: seq<Fragment>, fragments: seq<Fragment>) {
    exists runs :: MergesRuns(merged, runs, fragments)
  }

  lemma StartRun(merged: seq<Fragment>, runs: seq<seq<Fragment>>, fragments: seq<Fragment>, fragment: Fragment)
    requires MergesRuns(merged, runs, fragments) && (merged != [] ==> !Joinable(Last(merged), fragment))
    ensures MergesRuns(merged + [fragment], runs + [[fragment]], fragments + [fragment])
  {
    hide Joinable, Glue;
    FlattenAppend(runs, [fragment]);
    SingleRun(fragment);
  }

  lemma ExtendRun(merged: seq<Fragment>, runs: seq<seq<Fragment>>, fragments: seq<Fragment>, fragment: Fragment)
    requires MergesRuns(merged, runs, fragments) && merged != [] && Joinable(Last(merged), fragment)
    ensures MergesRuns(
              Init(merged) + [Glue(Last(merged), fragment)], Init(runs) + [Last(runs) + [fragment]], fragments + [fragment])
  {
    hide Joinable, Glue, Merged, IsRun;
    var longer := Last(runs) + [fragment];
    assert runs == Init(runs) + [Last(runs)];
    FlattenAppend(Init(runs), Last(runs));
    FlattenAppend(Init(runs), longer);
    assert IsMergeOf(Last(merged), Last(runs));
    LongerRun(Last(merged), Last(runs), fragment);
    var merged', runs' := Init(merged) + [Glue(Last(merged), fragment)], Init(runs) + [longer];
    forall i, j | 0 <= i && j == i + 1 && j < |merged'|
      ensures StopsBefore(merged'[i], runs'[j])
    {
      assert StopsBefore(merged[i], runs[j]);
    }
  }

  /**
   Merging cuts the input into consecutive runs and glues each of them; a run
   ends only where the next fragment could not be joined.
   */
  method MergeSmall(fragments: seq<Fragment>) returns (merged: seq<Fragment>, ghost runs: seq<seq<Fragment>>)
    ensures MergesRuns(merged, runs, fragments) && IsMerging(merged, fragments)
    ensures JoinedText(merged) == JoinedText(fragments)
  {
    merged, runs := [], [];
    assert MergesRuns([], [], []);
    hide Joinable, Glue, MergesRuns;
    for n := 0 to |fragments|
      invariant |runs| == |merged| && MergesRuns(merged, runs, fragments[..n])
    {
      var fragment := fragments[n];
      assert fragments[..n + 1] == fragments[..n] + [fragment];
      if merged != [] && Joinable(Last(merged), fragment) {
        ExtendRun(merged, runs, fragments[..n], fragment);
        merged := Init(merged) + [Glue(Last(merged), fragment)];
        runs := Init(runs) + [Last(runs) + [fragment]];
      } else {
        StartRun(merged, runs, fragments[..n], fragment);
        merged := merged + [fragment];
        runs := runs + [[fragment]];
      }
    }
    assert fragments[..|fragments|] == fragments;
    hide JoinedText;
    MergingKeepsText(merged, runs, fragments);
  }

  lemma SingleRun(fragment: Fragment)
    ensures IsMergeOf(fragment, [fragment])
  {
  }

  lemma LongerRun(merged: Fragment, run: seq<Fragment>, fragment: Fragment)
    requires IsMergeOf(merged, run) && Joinable(merged, fragment)
    ensures IsMergeOf(Glue(merged, fragment), run + [fragment])
  {
    assert Init(run + [fragment]) == run;
  }

  /** A merged fragment spans its run and holds exactly the run's texts, joined by newlines. */
  lemma {:induction false} MergedKeepsText(run: seq<Fragment>)
    requires run != []
    ensures Merged(run).text == JoinedText(run)
    ensures Merged(run).startLine == run[0].startLine && Merged(run).endLine == Last(run).endLine
  {
    if |run| == 1 {
      assert Texts(run) == [run[0].text];
    } else {
      MergedKeepsText(Init(run));
      JoinOfAppend(Texts(Init(run)), Last(run).text, '\n');
    }
  }

  lemma {:induction false} JoinedOfConcat(a: seq<Fragment>, b: seq<Fragment>)
    requires a != [] && b != []
    ensures JoinedText(a + b) == JoinedText(a) + ['\n'] + JoinedText(b)
  {
    hide Join;
    assert Init(a + b) == a + Init(b) && Last(a + b) == Last(b);
    JoinedOfOneMore(a + b);
    JoinedOfOneMore(b);
    if |b| > 1 {
      JoinedOfConcat(a, Init(b));
      hide Texts, JoinedText;
      Associates(JoinedText(a) + ['\n'], JoinedText(Init(b)), ['\n'] + Last(b).text);
      Associates(JoinedText(a) + ['\n'] + JoinedText(Init(b)), ['\n'], Last(b).text);
      Associates(JoinedText(Init(b)), ['\n'], Last(b).text);
    } else {
      assert Init(b) == [] && a + [] == a;
    }
  }

  lemma JoinedOfOneMore(group: seq<Fragment>)
    requires group != []
    ensures |group| == 1 ==> JoinedText(group) == Last(group).text
    ensures |group| > 1 ==> JoinedText(group) == JoinedText(Init(group)) + ['\n'] + Last(group).text
  {
    if |group| == 1 {
      assert Texts(group) == [Last(group).text];
    } else {
      assert Texts(group) == Texts(Init(group)) + [Last(group).text] && Texts(Init(group)) != [];
      hide Texts, Join;
      JoinOfAppend(Texts(Init(group)), Last(group).text, '\n');
    }
  }

  lemma RunsOfInit(merged: seq<Fragment>, runs: seq<seq<Fragment>>, fragments: seq<Fragment>)
    requires MergesRuns(merged, runs, fragments) && merged != []
    ensures MergesRuns(Init(merged), Init(runs), Flatten(Init(runs)))
    ensures fragments == Flatten(Init(runs)) + Last(runs) && IsMergeOf(Last(merged), Last(runs))
    ensures Init(runs) == [] ==> Flatten(Init(runs)) == []
    ensures Init(runs) != [] ==> Flatten(Init(runs)) != []
  {
    hide IsMergeOf, StopsBefore;
    assert runs == Init(runs) + [Last(runs)];
    FlattenAppend(Init(runs), Last(runs));
    forall i, j | 0 <= i && j == i + 1 && j < |merged| - 1
      ensures StopsBefore(Init(merged)[i], Init(runs)[j])
    {
      assert StopsBefore(merged[i], runs[j]);
    }
    if Init(runs) != [] {
      assert IsMergeOf(merged[0], runs[0]);
      RunIsNotEmpty(merged[0], runs[0]);
    }
  }

  lemma RunIsNotEmpty(merged: Fragment, run: seq<Fragment>)
    requires IsMergeOf(merged, run)
    ensures run != [] && merged == Merged(run)
  {
  }

  /** Merging keeps the text of the whole input, joined by newlines. */
  lemma {:induction false} MergingKeepsText(merged: seq<Fragment>, runs: seq<seq<Fragment>>, fragments: seq<Fragment>)
    requires MergesRuns(merged, runs, fragments)
    ensures JoinedText(merged) == JoinedText(fragments)
  {
    if merged == [] {
      assert runs == [] && fragments == [];
    } else {
      RunsOfInit(merged, runs, fragments);
      RunIsNotEmpty(Last(merged), Last(runs));
      MergedKeepsText(Last(runs));
      assert |Init(merged)| == |Init(runs)|;
      hide *;
      var front := Flatten(Init(runs));
      MergingKeepsText(Init(merged), Init(runs), front);
      JoinedOfOneMore(merged);
      SingleOrMore(merged, runs);
      if |merged| > 1 {
        JoinedOfConcat(front, Last(runs));
      } else {
        assert [] + Last(runs) == Last(runs);
      }
    }
  }

  lemma SingleOrMore<S, T>(a: seq<S>, b: seq<T>)
    requires |a| == |b| > 0
    ensures |a| == 1 <==> Init(b) == []
  {
  }

  /** Module-level fragments are never merged with anything. */
  lemma {:induction false} ModuleLevelStaysAlone(run: seq<Fragment>, i: nat)
    requires IsRun(run) && i < |run| && run[i].isModuleLevel
    ensures run == [run[i]] && Merged(run) == run[i]
  {
    if |run| > 1 && i < |run| - 1 {
      ModuleLevelStaysAlone(Init(run), i);
    }
  }

  /** A merged fragment never exceeds 513 estimated tokens. */
  lemma MergedIsBounded(run: seq<Fragment>)
    requires IsRun(run) && |run| > 1
    ensures Merged(run).Tokens() <= MAX_CHUNK_TOKENS + 1
  {
    EstimateOfJoin(|Merged(Init(run)).text|, |Last(run).text|);
  }

  /** Two fragments of 142 and 1396 characters make one of 513 tokens. */
  lemma MergedReachesTheBound() returns (merged: seq<Fragment>, fragments: seq<Fragment>)
    ensures IsMerging(merged, fragments) && |merged| == 1 && |fragments| == 2
    ensures merged[0].Tokens() == MAX_CHUNK_TOKENS + 1
  {
    var first := Fragment(1, 1, seq(142, i => 'x'), None, None, false);
    var second := Fragment(2, 2, seq(1396, i => 'y'), None, None, false);
    fragments := [first, second];
    assert MergesRuns([], [], []) && Joinable(first, second);
    StartRun([], [], [], first);
    assert [] + [first] == [first] && [] + [[first]] == [[first]];
    ExtendRun([first], [[first]], [first], second);
    assert Init([first]) == [] && Init([[first]]) == [] && [first] + [second] == fragments;
    merged := [] + [Glue(first, second)];
    hide MergesRuns;
    assert MergesRuns(merged, [] + [[first] + [second]], fragments);
  }

  /** Exactly when gluing two fragments passes the limit the guard was meant to keep. */
  lemma GluedOverflows(previous: Fragment, next: Fragment)
    requires Joinable(previous, next)
    ensures Glue(previous, next).Tokens() > MAX_CHUNK_TOKENS
            <==> |previous.text| + |next.text| > 3 * MAX_CHUNK_TOKENS
  {
  }

  /**
   What is joined: neither fragment stands between definitions, the first is below 48
   tokens, both together keep 512, and the second does not start above the first's end.
   */
  predicate MayJoin(previous: Fragment, next: Fragment) {
    var size, more := EstimateTokens(|previous.text|), EstimateTokens(|next.text|);
    && !previous.isModuleLevel && !next.isModuleLevel
    && size < 48 && size + more <= 512
    && previous.endLine <= next.startLine
  }

  lemma {:induction false} RunJoins(run: seq<Fragment>, m: nat)
    requires IsRun(run) && 1 <= m < |run|
    ensures MayJoin(Merged(run[..m]), run[m])
  {
    if m == |run| - 1 {
      assert run[..m] == Init(run) && run[m] == Last(run);
    } else {
      RunJoins(Init(run), m);
      assert Init(run)[..m] == run[..m];
    }
  }

  /** Fragments are merged exactly as long as they may be joined to what was merged before them. */
  lemma MergedByTheRules(merged: seq<Fragment>, runs: seq<seq<Fragment>>, fragments: seq<Fragment>, i: nat)
    requires MergesRuns(merged, runs, fragments) && i < |merged|
    ensures runs[i] != [] && merged[i] == Merged(runs[i])
    ensures forall m :: 1 <= m < |runs[i]| ==> MayJoin(Merged(runs[i][..m]), runs[i][m])
    ensures i + 1 < |merged| ==> runs[i + 1] != [] && !MayJoin(merged[i], runs[i + 1][0])
  {
    assert IsMergeOf(merged[i], runs[i]);
    RunIsNotEmpty(merged[i], runs[i]);
    hide Merged;
    forall m | 1 <= m < |runs[i]|
      ensures MayJoin(Merged(runs[i][..m]), runs[i][m])
    {
      RunJoins(runs[i], m);
    }
    if i + 1 < |merged| {
      assert StopsBefore(merged[i], runs[i + 1]);
    }
  }

  /** Every fragment of the run that points to a symbol points to this one. */
  predicate PointsOnlyTo(run: seq<Fragment>, symbol: int) {
    forall i :: 0 <= i < |run| ==> run[i].symbolId == None || run[i].symbolId == Some(symbol)
  }

  /**
   A merged fragment points to a symbol of one of its fragments, and to the only one they
   point to if there is only one; of two that point apart it points to neither.
   */
  lemma {:induction false} MergedPointsToItsSymbol(run: seq<Fragment>, symbol: int)
    requires run != []
    ensures Merged(run).symbolId == Some(symbol) ==> exists i :: 0 <= i < |run| && run[i].symbolId == Some(symbol)
    ensures PointsOnlyTo(run, symbol) ==>
              (Merged(run).symbolId == Some(symbol) <==>
               exists i :: 0 <= i < |run| && run[i].symbolId == Some(symbol))
    ensures |run| == 2 && run[0].symbolId.Some? && run[1].symbolId.Some? && run[0].symbolId != run[1].symbolId ==>
              Merged(run).symbolId == None
  {
    if |run| > 1 {
      var front, last := Init(run), Last(run);
      MergedPointsToItsSymbol(front, symbol);
      assert last == run[|run| - 1] && forall i :: 0 <= i < |front| ==> front[i] == run[i];
      assert Merged(run).symbolId == MergedSymbolId(Merged(front).symbolId, last.symbolId);
      hide Glue;
      if PointsOnlyTo(run, symbol) {
        assert PointsOnlyTo(front, symbol);
        OnlySymbol(front, symbol);
      }
    }
  }

  lemma {:induction false} OnlySymbol(run: seq<Fragment>, symbol: int)
    requires run != [] && PointsOnlyTo(run, symbol)
    ensures Merged(run).symbolId == None || Merged(run).symbolId == Some(symbol)
  {
    if |run| > 1 {
      assert PointsOnlyTo(Init(run), symbol) && Last(run) == run[|run| - 1];
      OnlySymbol(Init(run), symbol);
    }
  }

  // ---- the owner of a merged fragment ---------------------------------------------------

  /** `scope` names `owner` itself or a scope that encloses it. */
  predicate Encloses(scope: string, owner: string) {
    Split(scope, '.') <= Split(owner, '.')
  }

  lemma {:induction false} CommonPrefixIsGreatest<T>(a: seq<T>, b: seq<T>, p: seq<T>)
    ensures CommonPrefix(a, b) <= a && CommonPrefix(a, b) <= b
    ensures p <= a && p <= b ==> p <= CommonPrefix(a, b)
  {
    if a != [] && b != [] && a[0] == b[0] {
      CommonPrefixIsGreatest(a[1..], b[1..], if p == [] then [] else p[1..]);
      if p != [] && p <= a && p <= b {
        assert p == [p[0]] + p[1..];
      }
    }
  }

  /** The common owner is the innermost scope enclosing both, whenever some named scope does. */
  lemma CommonOwnerIsInnermost(first: string, second: string, scope: string)
    requires scope != "" && Encloses(scope, first) && Encloses(scope, second)
    ensures var owner := CommonOwnerOf(Some(first), Some(second));
      owner.Some? && Encloses(owner.value, first) && Encloses(owner.value, second) && Encloses(scope, owner.value)
  {
    var a, b, p := Split(first, '.'), Split(second, '.'), Split(scope, '.');
    var shared := CommonPrefix(a, b);
    CommonPrefixIsGreatest(a, b, p);
    JoinOfSplit(first, '.');
    JoinOfSplit(scope, '.');
    LongerJoinIsNamed(p, shared);
    SplitOfJoin(shared, '.');
  }

  lemma LongerJoinIsNamed(shorter: seq<string>, longer: seq<string>)
    requires shorter != [] && shorter <= longer && Join(shorter, '.') != ""
    ensures Join(longer, '.') != ""
  {
  }

  lemma EnclosedIsNamed(scope: string, owner: string)
    requires scope != "" && Encloses(scope, owner)
    ensures owner != ""
  {
    JoinOfSplit(scope, '.');
    JoinOfSplit(owner, '.');
    LongerJoinIsNamed(Split(scope, '.'), Split(owner, '.'));
  }

  /**
   In a file whose symbols all live under one named module, the owner of a merged
   fragment encloses the owner of every fragment it was glued from.
   */
  lemma {:induction false} MergedOwnerEncloses(run: seq<Fragment>, modulePath: string)
    requires run != [] && modulePath != ""
    requires forall i :: 0 <= i < |run| && run[i].owner.Some? ==> Encloses(modulePath, run[i].owner.value)
    ensures Merged(run).owner.Some? ==> Encloses(modulePath, Merged(run).owner.value)
    ensures forall i :: 0 <= i < |run| && run[i].owner.Some? ==>
              Merged(run).owner.Some? && Encloses(Merged(run).owner.value, run[i].owner.value)
  {
    hide Encloses, CommonOwnerOf;
    if |run| > 1 {
      var before, last := Merged(Init(run)).owner, Last(run).owner;
      MergedOwnerEncloses(Init(run), modulePath);
      assert Merged(run).owner == CommonOwnerOf(before, last);
      OwnerOfGlue(before, last, modulePath);
      forall i | 0 <= i < |run| && run[i].owner.Some?
        ensures Merged(run).owner.Some? && Encloses(Merged(run).owner.value, run[i].owner.value)
      {
        if i < |run| - 1 {
          assert run[i] == Init(run)[i];
          EnclosesIsTransitive(Merged(run).owner.value, before.value, run[i].owner.value);
        }
      }
    } else {
      EnclosesItself(run[0].owner);
    }
  }

  lemma EnclosesItself(owner: Option<string>)
    ensures owner.Some? ==> Encloses(owner.value, owner.value)
  {
  }

  lemma EnclosesIsTransitive(outer: string, middle: string, inner: string)
    requires Encloses(outer, middle) && Encloses(middle, inner)
    ensures Encloses(outer, inner)
  {
  }

  lemma OwnerOfGlue(first: Option<string>, second: Option<string>, modulePath: string)
    requires modulePath != ""
    requires first.Some? ==> Encloses(modulePath, first.value)
    requires second.Some? ==> Encloses(modulePath, second.value)
    ensures var owner := CommonOwnerOf(first, second);
      && (first.Some? ==> owner.Some? && Encloses(owner.value, first.value))
      && (second.Some? ==> owner.Some? && Encloses(owner.value, second.value))
      && (owner.Some? ==> Encloses(modulePath, owner.value))
  {
    if first.Some? && second.Some? {
      CommonOwnerIsInnermost(first.value, second.value, modulePath);
    } else if first.Some? {
      EnclosedIsNamed(modulePath, first.value);
    }
  }
}
