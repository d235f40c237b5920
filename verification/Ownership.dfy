/** Calls and imports of a JavaScript or TypeScript file, and the symbols they belong to. */
module Ownership {
  import opened Prelude
  import opened SyntaxTree
  import opened Definitions
  import opened SymbolForest

  datatype EdgeKind = Calls | Imports

  datatype Reference = Reference(source: Path, target: string, kind: EdgeKind)

  // ---- order of symbols ----------------------------------------------------------------------

  /** The sorting key: the start, and for one start the longer span first. */
  predicate NotLater(a: Symbol, b: Symbol) {
    a.start < b.start || (a.start == b.start && b.end <= a.end)
  }

  predicate Ordered(symbols: seq<Symbol>) {
    forall i, j :: 0 <= i < j < |symbols| ==> NotLater(symbols[i], symbols[j])
  }

  function InsertSymbol(symbol: Symbol, symbols: seq<Symbol>): seq<Symbol> {
    if symbols == [] then [symbol]
    else if NotLater(symbol, symbols[0]) then [symbol] + symbols
    else [symbols[0]] + InsertSymbol(symbol, symbols[1..])
  }

  function Sorted(symbols: seq<Symbol>): seq<Symbol> {
    if symbols == [] then [] else InsertSymbol(symbols[0], Sorted(symbols[1..]))
  }

  lemma {:induction false} InsertKeepsOrdered(symbol: Symbol, symbols: seq<Symbol>)
    requires Ordered(symbols)
    ensures Ordered(InsertSymbol(symbol, symbols))
    ensures forall s :: s in InsertSymbol(symbol, symbols) <==> s == symbol || s in symbols
  {
    if symbols != [] {
      if NotLater(symbol, symbols[0]) {
        assert forall j :: 0 <= j < |symbols| ==> NotLater(symbols[0], symbols[j]);
      } else {
        InsertKeepsOrdered(symbol, symbols[1..]);
        var rest := InsertSymbol(symbol, symbols[1..]);
        forall j | 0 <= j < |rest|
          ensures NotLater(symbols[0], rest[j])
        {
          assert rest[j] in rest;
          if rest[j] != symbol {
            var k :| 0 <= k < |symbols[1..]| && symbols[1..][k] == rest[j];
            assert symbols[k + 1] == rest[j];
          }
        }
      }
    }
  }

  lemma {:induction false} SortedIsOrdered(symbols: seq<Symbol>)
    ensures Ordered(Sorted(symbols))
    ensures forall s :: s in Sorted(symbols) <==> s in symbols
  {
    if symbols != [] {
      SortedIsOrdered(symbols[1..]);
      InsertKeepsOrdered(symbols[0], Sorted(symbols[1..]));
      assert symbols == [symbols[0]] + symbols[1..];
    }
  }

  /** The symbols among these that span exactly these places. */
  function Spanning(symbols: seq<Symbol>, start: nat, end: nat): seq<Symbol> {
    if symbols == [] then []
    else
      (if symbols[0].start == start && symbols[0].end == end then [symbols[0]] else [])
      + Spanning(symbols[1..], start, end)
  }

  lemma SpanningCons(symbol: Symbol, symbols: seq<Symbol>, start: nat, end: nat)
    ensures Spanning([symbol] + symbols, start, end)
         == if symbol.start == start && symbol.end == end then [symbol] + Spanning(symbols, start, end)
            else Spanning(symbols, start, end)
  {
    assert ([symbol] + symbols)[1..] == symbols;
    assert [] + Spanning(symbols, start, end) == Spanning(symbols, start, end);
  }

  lemma {:induction false} InsertSymbolIsStable(symbol: Symbol, symbols: seq<Symbol>, start: nat, end: nat)
    ensures Spanning(InsertSymbol(symbol, symbols), start, end) == Spanning([symbol] + symbols, start, end)
  {
    SpanningCons(symbol, symbols, start, end);
    if symbols == [] {
      assert [symbol] + symbols == [symbol];
    } else {
      assert symbols == [symbols[0]] + symbols[1..];
      SpanningCons(symbols[0], symbols[1..], start, end);
      if !NotLater(symbol, symbols[0]) {
        InsertSymbolIsStable(symbol, symbols[1..], start, end);
        SpanningCons(symbols[0], InsertSymbol(symbol, symbols[1..]), start, end);
        SpanningCons(symbol, symbols[1..], start, end);
      }
    }
  }

  /** Ordering keeps every symbol as often as it was, and the order of those that span the same places. */
  lemma {:induction false} OrderingIsStable(symbols: seq<Symbol>, start: nat, end: nat)
    ensures Spanning(Sorted(symbols), start, end) == Spanning(symbols, start, end)
  {
    if symbols != [] {
      assert symbols == [symbols[0]] + symbols[1..];
      OrderingIsStable(symbols[1..], start, end);
      InsertSymbolIsStable(symbols[0], Sorted(symbols[1..]), start, end);
      SpanningCons(symbols[0], Sorted(symbols[1..]), start, end);
      SpanningCons(symbols[0], symbols[1..], start, end);
    }
  }

  // ---- the owner of a node -----------------------------------------------------------------------

  predicate Contains(symbol: Symbol, node: Node) {
    symbol.start <= node.start && node.end <= symbol.end
  }

  /** The last symbol that contains the node; the first of all if none does. */
  function OwnerOf(node: Node, ordered: seq<Symbol>): (owner: Symbol)
    requires ordered != []
    ensures owner in ordered
  {
    if Contains(Last(ordered), node) || |ordered| == 1 then Last(ordered) else OwnerOf(node, Init(ordered))
  }

  method FindOwner(node: Node, ordered: seq<Symbol>) returns (owner: Symbol)
    requires ordered != []
    ensures owner == OwnerOf(node, ordered)
  {
    owner := ordered[0];
    for i := 0 to |ordered|
      invariant i == 0 ==> owner == ordered[0]
      invariant i > 0 ==> owner == OwnerOf(node, ordered[..i])
    {
      assert Init(ordered[..i + 1]) == ordered[..i] && Last(ordered[..i + 1]) == ordered[i];
      if Contains(ordered[i], node) {
        owner := ordered[i];
      }
    }
    assert ordered[..|ordered|] == ordered;
  }

  lemma {:induction false} OwnerIsLast(node: Node, ordered: seq<Symbol>, i: nat)
    requires Ordered(ordered) && i < |ordered| && Contains(ordered[i], node)
    ensures Contains(OwnerOf(node, ordered), node)
    ensures ordered[i] == OwnerOf(node, ordered) || NotLater(ordered[i], OwnerOf(node, ordered))
  {
    if !Contains(Last(ordered), node) {
      OwnerIsLast(node, Init(ordered), i);
    }
  }

  predicate StrictlyInside(inner: Symbol, outer: Symbol) {
    SymbolInside(inner, outer) && (inner.start != outer.start || inner.end != outer.end)
  }

  /**
   Every node of the file lies inside its owner, and no symbol around the node is
   strictly smaller than the owner. A node that is not empty has the smallest of all
   symbols around it: each of them spans the owner.
   */
  lemma OwnerIsInnermost(
    language: Language, root: Node, text: (nat, nat) -> string, modulePath: string, name: string, at: Path)
    requires Lawful(root) && IsPath(root, at)
    ensures var symbols, node := Symbols(language, root, text, modulePath, name), At(root, at);
      && Sorted(symbols) != []
      && var owner := OwnerOf(node, Sorted(symbols));
      && owner in symbols && owner.start <= node.start && node.end <= owner.end
      && forall s :: s in symbols && s.start <= node.start && node.end <= s.end ==>
                       && !StrictlyInside(s, owner)
                       && (node.start < node.end ==> SymbolInside(owner, s))
  {
    var symbols, node := Symbols(language, root, text, modulePath, name), At(root, at);
    ModuleContains(language, root, text, modulePath, name, at);
    SymbolsAreLaminar(language, root, text, modulePath, name);
    SortedIsOrdered(symbols);
    hide *;
    forall s
      ensures Contains(s, node) <==> s.start <= node.start && node.end <= s.end
    {
      WhatContains(s, node);
    }
    forall s | s in symbols && Contains(s, node)
      ensures Sorted(symbols) != []
      ensures Contains(OwnerOf(node, Sorted(symbols)), node)
      ensures !StrictlyInside(s, OwnerOf(node, Sorted(symbols)))
      ensures node.start < node.end ==> SymbolInside(OwnerOf(node, Sorted(symbols)), s)
    {
      OwnerIsInsideContainer(symbols, Sorted(symbols), node, s);
    }
  }

  lemma WhatContains(s: Symbol, node: Node)
    ensures Contains(s, node) <==> s.start <= node.start && node.end <= s.end
  {
  }

  lemma ModuleContains(
    language: Language, root: Node, text: (nat, nat) -> string, modulePath: string, name: string, at: Path)
    requires Lawful(root) && IsPath(root, at)
    ensures var top := ModuleSymbol(root, modulePath, name);
      top in Symbols(language, root, text, modulePath, name) && Contains(top, At(root, at))
  {
    hide Collected;
    DescendantIsInside(root, at);
    assert Symbols(language, root, text, modulePath, name)[0] == ModuleSymbol(root, modulePath, name);
  }

  lemma OwnerIsInsideContainer(symbols: seq<Symbol>, ordered: seq<Symbol>, node: Node, s: Symbol)
    requires AreLaminar(symbols) && Ordered(ordered) && forall t :: t in ordered <==> t in symbols
    requires s in symbols && Contains(s, node)
    ensures ordered != []
    ensures var owner := OwnerOf(node, ordered);
      && Contains(owner, node) && !StrictlyInside(s, owner)
      && (node.start < node.end ==> SymbolInside(owner, s))
  {
    assert s in ordered;
    var i :| 0 <= i < |ordered| && ordered[i] == s;
    OwnerIsLast(node, ordered, i);
    assert OwnerOf(node, ordered) in ordered;
    hide OwnerOf, Ordered;
  }

  // ---- the walk over the file -----------------------------------------------------------------------

  function Preorder(root: Node, at: Path): seq<Path>
    requires IsPath(root, at)
    decreases Height(At(root, at)), 1, 0
  {
    [at] + PreorderOfChildren(root, at, |At(root, at).children|)
  }

  function PreorderOfChildren(root: Node, at: Path, n: nat): seq<Path>
    requires IsPath(root, at) && n <= |At(root, at).children|
    decreases Height(At(root, at)), 0, n
  {
    if n == 0 then []
    else
      AtChild(root, at, n - 1);
      LowerBelow(root, at, at + [n - 1]);
      PreorderOfChildren(root, at, n - 1) + Preorder(root, at + [n - 1])
  }

  method Walk(root: Node, at: Path) returns (collected: seq<Path>)
    requires IsPath(root, at)
    ensures collected == Preorder(root, at)
    decreases Height(At(root, at))
  {
    collected := [at];
    assert [at] + [] == [at];
    hide Height;
    for i := 0 to |At(root, at).children|
      invariant collected == [at] + PreorderOfChildren(root, at, i)
    {
      AtChild(root, at, i);
      LowerBelow(root, at, at + [i]);
      var below := Walk(root, at + [i]);
      Associates([at], PreorderOfChildren(root, at, i), below);
      collected := collected + below;
    }
  }

  lemma {:induction false} PreorderReaches(root: Node, at: Path, p: Path)
    requires IsPath(root, at)
    ensures p in Preorder(root, at) <==> at <= p && IsPath(root, p)
    decreases Height(At(root, at)), 1, 0
  {
    ChildrenReach(root, at, |At(root, at).children|, p);
    assert Preorder(root, at) == [at] + PreorderOfChildren(root, at, |At(root, at).children|);
    if at < p && IsPath(root, p) {
      assert at + [p[|at|]] <= p;
      PrefixIsPath(root, at + [p[|at|]], p);
      AtChild(root, at, p[|at|]);
    }
    assert at <= p <==> at < p || at == p;
    hide PreorderOfChildren, Height, Preorder;
  }

  lemma {:induction false} ChildrenReach(root: Node, at: Path, n: nat, p: Path)
    requires IsPath(root, at) && n <= |At(root, at).children|
    ensures p in PreorderOfChildren(root, at, n) <==> at < p && p[|at|] < n && IsPath(root, p)
    decreases Height(At(root, at)), 0, n
  {
    if n > 0 {
      AtChild(root, at, n - 1);
      LowerBelow(root, at, at + [n - 1]);
      ChildrenReach(root, at, n - 1, p);
      PreorderReaches(root, at + [n - 1], p);
      hide Preorder, Height, IsPath;
      assert at < p ==> at + [p[|at|]] <= p;
    }
  }

  // ---- references -------------------------------------------------------------------------------------

  function KindOfEdge(kind: Kind): Option<EdgeKind> {
    match kind
    case Call => Some(Calls)
    case Import => Some(Imports)
    case _ => None
  }

  /** The reference a node makes, if it is a call or an import whose target can be named. */
  function ReferenceOf(node: Node, ordered: seq<Symbol>, target: Node -> string): Option<Reference>
    requires ordered != []
  {
    var kind := KindOfEdge(node.kind);
    if kind.None? || target(node) == "" then None
    else Some(Reference(OwnerOf(node, ordered).path, target(node), kind.value))
  }

  function ReferencesOf(root: Node, ordered: seq<Symbol>, target: Node -> string, paths: seq<Path>): seq<Reference>
    requires ordered != [] && forall p :: p in paths ==> IsPath(root, p)
  {
    if paths == [] then []
    else
      assert forall p :: p in Init(paths) ==> p in paths;
      assert Last(paths) in paths;
      var made := ReferenceOf(At(root, Last(paths)), ordered, target);
      ReferencesOf(root, ordered, target, Init(paths)) + if made.Some? then [made.value] else []
  }

  lemma PreorderIsPaths(root: Node)
    ensures forall p :: p in Preorder(root, []) <==> IsPath(root, p)
  {
    forall p
      ensures p in Preorder(root, []) <==> IsPath(root, p)
    {
      PreorderReaches(root, [], p);
    }
  }

  method CollectReferences(root: Node, symbols: seq<Symbol>, target: Node -> string)
    returns (references: seq<Reference>)
    requires symbols != []
    ensures Sorted(symbols) != [] && forall p :: p in Preorder(root, []) ==> IsPath(root, p)
    ensures references == ReferencesOf(root, Sorted(symbols), target, Preorder(root, []))
  {
    references := [];
    var ordered := Sorted(symbols);
    SortedIsOrdered(symbols);
    assert symbols[0] in ordered;
    var paths := Walk(root, []);
    PreorderIsPaths(root);
    hide Sorted, Preorder, OwnerOf, IsPath;
    for i := 0 to |paths|
      invariant forall p :: p in paths[..i] ==> p in paths
      invariant references == ReferencesOf(root, ordered, target, paths[..i])
    {
      assert Init(paths[..i + 1]) == paths[..i] && paths[i] in paths;
      var node := At(root, paths[i]);
      var kind := KindOfEdge(node.kind);
      if kind.None? {
        continue;
      }
      var named := target(node);
      if named == "" {
        continue;
      }
      var owner := FindOwner(node, ordered);
      references := references + [Reference(owner.path, named, kind.value)];
    }
    assert paths[..|paths|] == paths;
  }

  /** The reference is that of a call or an import to its target, made by the owner of its node. */
  predicate Makes(root: Node, ordered: seq<Symbol>, target: Node -> string, p: Path, r: Reference)
    requires ordered != []
  {
    && IsPath(root, p) && r.target == target(At(root, p)) && r.target != ""
    && (match r.kind
        case Calls => At(root, p).kind == Call
        case Imports => At(root, p).kind == Import)
    && r.source == OwnerOf(At(root, p), ordered).path
  }

  /** The nodes among these that make a reference. */
  function MakersAmong(root: Node, target: Node -> string, paths: seq<Path>): seq<Path>
    requires forall p :: p in paths ==> IsPath(root, p)
  {
    if paths == [] then []
    else
      assert forall p :: p in Init(paths) ==> p in paths;
      assert Last(paths) in paths;
      MakersAmong(root, target, Init(paths)) + if Refers(At(root, Last(paths)), target) then [Last(paths)] else []
  }

  /** A call or an import with a target. */
  predicate Refers(node: Node, target: Node -> string) {
    KindOfEdge(node.kind).Some? && target(node) != ""
  }

  /** One reference for each of these nodes, in their order. */
  ghost predicate MadeBy(
    root: Node, ordered: seq<Symbol>, target: Node -> string, makers: seq<Path>, references: seq<Reference>)
    requires ordered != []
  {
    && |references| == |makers|
    && forall k :: 0 <= k < |makers| ==> Makes(root, ordered, target, makers[k], references[k])
  }

  lemma {:induction false} MakersMake(root: Node, ordered: seq<Symbol>, target: Node -> string, paths: seq<Path>)
    requires ordered != [] && Distinct(paths) && forall p :: p in paths ==> IsPath(root, p)
    ensures var makers := MakersAmong(root, target, paths);
      && MadeBy(root, ordered, target, makers, ReferencesOf(root, ordered, target, paths))
      && Distinct(makers)
      && forall p :: p in makers <==> p in paths && IsPath(root, p) && Refers(At(root, p), target)
  {
    if paths != [] {
      var front, last := Init(paths), Last(paths);
      assert paths == front + [last] && last in paths;
      assert forall p :: p in front ==> p in paths;
      assert Distinct(front) && last !in front;
      MakersMake(root, ordered, target, front);
      assert Refers(At(root, last), target) ==>
             Makes(root, ordered, target, last, ReferenceOf(At(root, last), ordered, target).value);
      hide Makes, IsPath, At;
      DistinctConcat(MakersAmong(root, target, front), [last]);
    }
  }

  lemma {:induction false} PreorderIsDistinct(root: Node, at: Path)
    requires IsPath(root, at)
    ensures Distinct(Preorder(root, at))
    decreases Height(At(root, at)), 1, 0
  {
    var n := |At(root, at).children|;
    ChildrenAreDistinct(root, at, n);
    ChildrenReach(root, at, n, at);
    assert Preorder(root, at) == [at] + PreorderOfChildren(root, at, n);
    hide Preorder, PreorderOfChildren, Height, IsPath;
    DistinctConcat([at], PreorderOfChildren(root, at, n));
  }

  lemma {:induction false} ChildrenAreDistinct(root: Node, at: Path, n: nat)
    requires IsPath(root, at) && n <= |At(root, at).children|
    ensures Distinct(PreorderOfChildren(root, at, n))
    decreases Height(At(root, at)), 0, n
  {
    if n > 0 {
      AtChild(root, at, n - 1);
      LowerBelow(root, at, at + [n - 1]);
      ChildrenAreDistinct(root, at, n - 1);
      PreorderIsDistinct(root, at + [n - 1]);
      var earlier, here := PreorderOfChildren(root, at, n - 1), Preorder(root, at + [n - 1]);
      assert PreorderOfChildren(root, at, n) == earlier + here;
      hide Preorder, PreorderOfChildren, Height, IsPath, Distinct;
      forall p | p in earlier
        ensures p !in here
      {
        ChildrenReach(root, at, n - 1, p);
        PreorderReaches(root, at + [n - 1], p);
      }
      DistinctConcat(earlier, here);
    }
  }

  /**
   The references of a file: one for each call and import with a target, wherever it
   stands in the tree, made by the owner of its node, in the order of the walk.
   */
  lemma EveryCallAndImportIsReferred(root: Node, symbols: seq<Symbol>, target: Node -> string)
    returns (makers: seq<Path>)
    requires symbols != []
    ensures Sorted(symbols) != [] && forall p :: p in Preorder(root, []) ==> IsPath(root, p)
    ensures forall p :: p in makers <==>
                        && IsPath(root, p) && (At(root, p).kind == Call || At(root, p).kind == Import)
                        && target(At(root, p)) != ""
    ensures Distinct(makers) && InDocumentOrder(makers)
    ensures MadeBy(
              root, Sorted(symbols), target, makers,
              ReferencesOf(root, Sorted(symbols), target, Preorder(root, [])))
  {
    SortedIsOrdered(symbols);
    assert symbols[0] in Sorted(symbols);
    PreorderIsPaths(root);
    PreorderIsDistinct(root, []);
    PreorderIsOrdered(root, []);
    hide Sorted, Preorder, Makes, IsPath, At, ReferencesOf, Distinct, MadeBy, InDocumentOrder;
    MakersMake(root, Sorted(symbols), target, Preorder(root, []));
    MakersAreOrdered(root, target, Preorder(root, []));
    makers := MakersAmong(root, target, Preorder(root, []));
  }

  lemma {:induction false} PreorderIsOrdered(root: Node, at: Path)
    requires IsPath(root, at)
    ensures InDocumentOrder(Preorder(root, at))
    decreases Height(At(root, at)), 1, 0
  {
    var n := |At(root, at).children|;
    var below := PreorderOfChildren(root, at, n);
    ChildrenAreOrdered(root, at, n);
    assert Preorder(root, at) == [at] + below;
    hide Preorder, PreorderOfChildren, Height, IsPath, InDocumentOrder, Precedes;
    OrderOfOne(at);
    forall q | q in below
      ensures Precedes(at, q)
    {
      ChildrenReach(root, at, n, q);
      OuterPrecedes(at, q);
    }
    OrderConcat([at], below);
  }

  lemma {:induction false} ChildrenAreOrdered(root: Node, at: Path, n: nat)
    requires IsPath(root, at) && n <= |At(root, at).children|
    ensures InDocumentOrder(PreorderOfChildren(root, at, n))
    decreases Height(At(root, at)), 0, n
  {
    if n > 0 {
      AtChild(root, at, n - 1);
      LowerBelow(root, at, at + [n - 1]);
      ChildrenAreOrdered(root, at, n - 1);
      PreorderIsOrdered(root, at + [n - 1]);
      var earlier, here := PreorderOfChildren(root, at, n - 1), Preorder(root, at + [n - 1]);
      assert PreorderOfChildren(root, at, n) == earlier + here;
      hide Preorder, PreorderOfChildren, Height, IsPath, InDocumentOrder, Precedes;
      forall p, q | p in earlier && q in here
        ensures Precedes(p, q)
      {
        ChildrenReach(root, at, n - 1, p);
        PreorderReaches(root, at + [n - 1], q);
        SiblingPrecedes(at, p, q);
      }
      OrderConcat(earlier, here);
    } else {
      OrderOfOne(at);
    }
  }

  lemma OrderOfInit(paths: seq<Path>)
    requires paths != [] && InDocumentOrder(paths)
    ensures InDocumentOrder(Init(paths)) && forall p :: p in Init(paths) ==> Precedes(p, Last(paths))
  {
    hide Precedes;
  }

  lemma {:induction false} MakersAreOrdered(root: Node, target: Node -> string, paths: seq<Path>)
    requires InDocumentOrder(paths) && forall p :: p in paths ==> IsPath(root, p)
    ensures InDocumentOrder(MakersAmong(root, target, paths))
    ensures forall p :: p in MakersAmong(root, target, paths) ==> p in paths
  {
    if paths != [] {
      var front, last := Init(paths), Last(paths);
      assert forall p :: p in front ==> p in paths;
      assert last in paths;
      OrderOfInit(paths);
      OrderOfOne(last);
      hide InDocumentOrder, Precedes, IsPath, At, Refers;
      MakersAreOrdered(root, target, front);
      OrderConcat(MakersAmong(root, target, front), [last]);
      assert MakersAmong(root, target, front) + [] == MakersAmong(root, target, front);
    } else {
      OrderOfOne([]);
    }
  }
}
