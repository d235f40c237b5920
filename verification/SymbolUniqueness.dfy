/** When a node becomes two symbols, and that it otherwise becomes at most one. */
module SymbolUniqueness {
  import opened Prelude
  import opened SyntaxTree
  import opened Definitions
  import opened NestedDefinitions
  import opened SymbolForest

  // ---- no node twice ---------------------------------------------------------------------------------

  predicate DistinctPaths(symbols: seq<Symbol>) {
    forall i, j :: 0 <= i < j < |symbols| ==> symbols[i].path != symbols[j].path
  }

  predicate ShareNoPath(a: seq<Symbol>, b: seq<Symbol>) {
    forall s, t :: s in a && t in b ==> s.path != t.path
  }

  lemma PathsConcat(a: seq<Symbol>, b: seq<Symbol>)
    ensures DistinctPaths(a + b) <==> DistinctPaths(a) && DistinctPaths(b) && ShareNoPath(a, b)
  {
    if DistinctPaths(a) && DistinctPaths(b) && ShareNoPath(a, b) {
      forall i, j | 0 <= i < j < |a + b|
        ensures (a + b)[i].path != (a + b)[j].path
      {
        if i < |a| <= j {
          assert (a + b)[i] in a && (a + b)[j] in b;
        }
      }
    }
    if DistinctPaths(a + b) {
      PathsOfParts(a, b);
    }
  }

  lemma PathsOfParts(a: seq<Symbol>, b: seq<Symbol>)
    requires DistinctPaths(a + b)
    ensures DistinctPaths(a) && DistinctPaths(b) && ShareNoPath(a, b)
  {
    forall i, j | 0 <= i < j < |a|
      ensures a[i].path != a[j].path
    {
      assert (a + b)[i] == a[i] && (a + b)[j] == a[j];
    }
    forall i, j | 0 <= i < j < |b|
      ensures b[i].path != b[j].path
    {
      assert (a + b)[|a| + i] == b[i] && (a + b)[|a| + j] == b[j];
    }
    forall s, t | s in a && t in b
      ensures s.path != t.path
    {
      var i :| 0 <= i < |a| && a[i] == s;
      var j :| 0 <= j < |b| && b[j] == t;
      assert (a + b)[i] == s && (a + b)[|a| + j] == t;
    }
  }

  lemma OneAlone(symbol: Symbol)
    ensures DistinctPaths([symbol]) && DistinctPaths([])
  {
  }

  /** A symbol in front of what lies strictly below it adds no repetition. */
  lemma PathsBelow(symbol: Symbol, inner: seq<Symbol>)
    requires forall s :: s in inner ==> symbol.path < s.path
    ensures DistinctPaths([symbol] + inner) <==> DistinctPaths(inner)
  {
    OneAlone(symbol);
    PathsConcat([symbol], inner);
    hide DistinctPaths;
  }

  // The found definitions with a name; only they become symbols.

  /** Of these nodes no named one comes twice. */
  predicate NamedOnce(language: Language, root: Node, text: (nat, nat) -> string, found: seq<Path>) {
    forall i, j :: 0 <= i < j < |found| && found[i] == found[j] ==> !IsNamed(language, root, text, found[i])
  }

  /** Two related nodes among these are the same. */
  predicate RelatedAreEqual(found: seq<Path>) {
    forall p, q :: p in found && q in found && p <= q ==> p == q
  }

  lemma NamedOnceOfOneMore(language: Language, root: Node, text: (nat, nat) -> string, found: seq<Path>)
    requires found != []
    ensures NamedOnce(language, root, text, found) <==>
            && NamedOnce(language, root, text, Init(found))
            && !(Last(found) in Init(found) && IsNamed(language, root, text, Last(found)))
  {
    hide IsNamed;
    var front, last := Init(found), Last(found);
    if NamedOnce(language, root, text, found) {
      forall i, j | 0 <= i < j < |front| && front[i] == front[j]
        ensures !IsNamed(language, root, text, front[i])
      {
        assert found[i] == front[i] && found[j] == front[j];
      }
      if last in front {
        var i :| 0 <= i < |front| && front[i] == last;
        assert found[i] == found[|found| - 1];
      }
    }
    if NamedOnce(language, root, text, front) && !(last in front && IsNamed(language, root, text, last)) {
      forall i, j | 0 <= i < j < |found| && found[i] == found[j]
        ensures !IsNamed(language, root, text, found[i])
      {
        if j == |found| - 1 {
          assert front[i] in front;
        } else {
          assert front[i] == front[j];
        }
      }
    }
  }

  lemma {:induction false} TwiceIsCounted(found: seq<Path>, p: Path)
    ensures multiset(found)[p] > 1 <==> exists i, j :: 0 <= i < j < |found| && found[i] == p && found[j] == p
  {
    if found != [] {
      var front, last := Init(found), Last(found);
      TwiceIsCounted(front, p);
      assert found == front + [last] && multiset(found) == multiset(front) + multiset([last]);
      assert p in multiset(front) <==> p in front;
      if exists i, j :: 0 <= i < j < |front| && front[i] == p && front[j] == p {
        var i, j :| 0 <= i < j < |front| && front[i] == p && front[j] == p;
        assert found[i] == p && found[j] == p;
      } else if p in front && last == p {
        var i :| 0 <= i < |front| && front[i] == p;
        assert found[i] == p && found[|found| - 1] == p;
      }
      if exists i, j :: 0 <= i < j < |found| && found[i] == p && found[j] == p {
        var i, j :| 0 <= i < j < |found| && found[i] == p && found[j] == p;
        assert front[i] == p;
        if j < |front| {
          assert front[j] == p;
        }
      }
    }
  }

  /** The body of the definition is an error node, and the definition found in it at `p` has a name. */
  predicate RepeatsNamed(language: Language, root: Node, text: (nat, nat) -> string, at: Path, p: Path) {
    IsPath(root, at) && RepeatsAt(language, root, at, p) && IsNamed(language, root, text, p)
  }

  /** Inside this node no named definition is found twice. */
  ghost predicate RepeatsNone(language: Language, root: Node, text: (nat, nat) -> string, at: Path) {
    forall p :: !RepeatsNamed(language, root, text, at, p)
  }

  lemma NamedOnceIffNoneRepeats(language: Language, root: Node, text: (nat, nat) -> string, at: Path)
    requires IsPath(root, at)
    ensures NamedOnce(language, root, text, DefinitionChildren(language, root, at)) <==>
            RepeatsNone(language, root, text, at)
  {
    var found := DefinitionChildren(language, root, at);
    hide DefinitionChildren, RepeatsAt, IsNamed;
    if NamedOnce(language, root, text, found) {
      forall p
        ensures !RepeatsNamed(language, root, text, at, p)
      {
        FoundTwiceInErrorBodies(language, root, at, p);
        TwiceIsCounted(found, p);
      }
    }
    if RepeatsNone(language, root, text, at) {
      forall i, j | 0 <= i < j < |found| && found[i] == found[j]
        ensures !IsNamed(language, root, text, found[i])
      {
        FoundTwiceInErrorBodies(language, root, at, found[i]);
        TwiceIsCounted(found, found[i]);
        assert !RepeatsNamed(language, root, text, at, found[i]);
      }
    }
  }

  /** Inside the definitions behind these symbols nothing repeats. */
  ghost predicate RepeatNone(language: Language, root: Node, text: (nat, nat) -> string, symbols: seq<Symbol>) {
    forall s :: s in symbols && IsPath(root, s.path) ==>
                  RepeatsNone(language, root, text, Unwrap(language, root, s.path))
  }

  lemma RepeatNoneOfConcat(
    language: Language, root: Node, text: (nat, nat) -> string, a: seq<Symbol>, b: seq<Symbol>)
    ensures RepeatNone(language, root, text, a + b) <==>
            RepeatNone(language, root, text, a) && RepeatNone(language, root, text, b)
  {
    assert forall s :: s in a + b <==> s in a || s in b;
    hide Unwrap, IsPath, RepeatsNone;
  }

  lemma RepeatNoneOfOne(language: Language, root: Node, text: (nat, nat) -> string, symbol: Symbol)
    requires IsPath(root, symbol.path)
    ensures RepeatNone(language, root, text, [symbol]) <==>
            RepeatsNone(language, root, text, Unwrap(language, root, symbol.path))
    ensures RepeatNone(language, root, text, [])
  {
    assert symbol in [symbol];
    hide Unwrap, IsPath, RepeatsNone;
  }

  lemma {:induction false} SymbolsStemFromFound(
    language: Language, root: Node, text: (nat, nat) -> string, found: seq<Path>, height: nat, parent: Symbol, s: Symbol)
    returns (p: Path)
    requires AreLower(root, found, height) && s in CollectedFrom(language, root, text, found, height, parent)
    ensures p in found && p <= s.path
    decreases |found|
  {
    FoundSplits(language, root, text, found, height, parent);
    LastInFound(found);
    hide *;
    if s in CollectedAt(language, root, text, Last(found), parent) {
      p := Last(found);
      OneIsStrictlyBelow(language, root, text, Last(found), parent, s);
    } else {
      p := SymbolsStemFromFound(language, root, text, Init(found), height, parent, s);
    }
  }

  lemma LastInFound(found: seq<Path>)
    ensures found != [] ==> Last(found) in found && forall p :: p in Init(found) ==> p in found
  {
  }

  lemma OneIsStrictlyBelow(
    language: Language, root: Node, text: (nat, nat) -> string, outer: Path, parent: Symbol, s: Symbol)
    requires IsPath(root, outer) && s in CollectedAt(language, root, text, outer, parent)
    ensures outer <= s.path
  {
    hide *;
    var definition, symbol := OneUnfolds(language, root, text, outer, parent);
    CollectedAreBelow(language, root, text, definition, symbol);
    BelowSelf(root, definition, symbol, Collected(language, root, text, definition, symbol));
  }

  lemma BelowSelf(root: Node, definition: Path, symbol: Symbol, inner: seq<Symbol>)
    requires AreBelow(root, definition, inner) && symbol.path <= definition
    ensures forall s :: s in inner ==> symbol.path < s.path
    ensures forall s :: s in [symbol] + inner ==> symbol.path <= s.path
  {
  }

  lemma RelatedOfInit(found: seq<Path>)
    requires RelatedAreEqual(found) && found != []
    ensures RelatedAreEqual(Init(found)) && |Init(found)| < |found|
  {
    LastInFound(found);
  }

  lemma RelatedToLast(found: seq<Path>, p: Path, q: Path)
    requires RelatedAreEqual(found) && found != [] && p in Init(found) && p <= q && Last(found) <= q
    ensures p == Last(found)
  {
    LastInFound(found);
    AreComparable(p, Last(found), q);
  }

  lemma AreComparable(p: Path, q: Path, r: Path)
    requires p <= r && q <= r
    ensures p <= q || q <= p
  {
  }

  // ---- counting the symbols -------------------------------------------------------------------

  lemma FirstOfOne(symbol: Symbol, inner: seq<Symbol>)
    ensures symbol in [symbol] + inner
  {
  }

  /** Symbols of the last found node share a path with those before it exactly when it was found before. */
  lemma LastSharesNoPath(
    language: Language, root: Node, text: (nat, nat) -> string, found: seq<Path>, height: nat, parent: Symbol)
    requires AreLower(root, found, height) && found != [] && RelatedAreEqual(found)
    ensures AreLower(root, Init(found), height) && IsPath(root, Last(found))
    ensures ShareNoPath(
              CollectedFrom(language, root, text, Init(found), height, parent),
              CollectedAt(language, root, text, Last(found), parent))
            <==> !(Last(found) in Init(found) && IsNamed(language, root, text, Last(found)))
  {
    FoundSplits(language, root, text, found, height, parent);
    hide CollectedFrom, CollectedAt, AreLower, IsNamed, RelatedAreEqual, HasChild, IsPath;
    var front := CollectedFrom(language, root, text, Init(found), height, parent);
    var back := CollectedAt(language, root, text, Last(found), parent);
    var definition, symbol := OneUnfolds(language, root, text, Last(found), parent);
    if Last(found) in Init(found) && IsNamed(language, root, text, Last(found)) {
      FoundIsCollected(language, root, text, Init(found), height, parent, Last(found));
      var s := ItsChild(front, parent.path, Last(found));
      FirstOfOne(symbol, Collected(language, root, text, definition, symbol));
      assert symbol in back && s.path == symbol.path;
    } else {
      forall s, t | s in front && t in back
        ensures s.path != t.path
      {
        var p := SymbolsStemFromFound(language, root, text, Init(found), height, parent, s);
        OneIsStrictlyBelow(language, root, text, Last(found), parent, t);
        if s.path == t.path {
          RelatedToLast(found, p, t.path);
        }
      }
    }
  }

  lemma {:induction false} FoundOnce(
    language: Language, root: Node, text: (nat, nat) -> string, found: seq<Path>, height: nat, parent: Symbol)
    requires AreLower(root, found, height) && RelatedAreEqual(found)
    ensures var symbols := CollectedFrom(language, root, text, found, height, parent);
      DistinctPaths(symbols) <==>
      NamedOnce(language, root, text, found) && RepeatNone(language, root, text, symbols)
    decreases height, 0, |found|
  {
    hide *;
    FoundSplits(language, root, text, found, height, parent);
    if found == [] {
      NothingRepeats(language, root, text);
    } else {
      var front := CollectedFrom(language, root, text, Init(found), height, parent);
      var back := CollectedAt(language, root, text, Last(found), parent);
      RelatedOfInit(found);
      FoundOnce(language, root, text, Init(found), height, parent);
      OneOnce(language, root, text, Last(found), parent);
      PathsConcat(front, back);
      RepeatNoneOfConcat(language, root, text, front, back);
      NamedOnceOfOneMore(language, root, text, found);
      LastSharesNoPath(language, root, text, found, height, parent);
    }
  }

  lemma NothingRepeats(language: Language, root: Node, text: (nat, nat) -> string)
    ensures DistinctPaths([]) && NamedOnce(language, root, text, []) && RepeatNone(language, root, text, [])
  {
  }

  lemma {:induction false} OneOnce(
    language: Language, root: Node, text: (nat, nat) -> string, outer: Path, parent: Symbol)
    requires IsPath(root, outer)
    ensures var symbols := CollectedAt(language, root, text, outer, parent);
      DistinctPaths(symbols) <==> RepeatNone(language, root, text, symbols)
    decreases Height(At(root, outer)), 2, 0
  {
    hide *;
    var definition, symbol := OneUnfolds(language, root, text, outer, parent);
    if CollectedAt(language, root, text, outer, parent) == [] {
      NothingRepeats(language, root, text);
    } else {
      var inner := Collected(language, root, text, definition, symbol);
      CollectedOnce(language, root, text, definition, symbol);
      CollectedAreBelow(language, root, text, definition, symbol);
      BelowSelf(root, definition, symbol, inner);
      PathsBelow(symbol, inner);
      RepeatNoneOfConcat(language, root, text, [symbol], inner);
      RepeatNoneOfOne(language, root, text, symbol);
    }
  }

  lemma {:induction false} CollectedOnce(
    language: Language, root: Node, text: (nat, nat) -> string, at: Path, parent: Symbol)
    requires IsPath(root, at)
    ensures var symbols := Collected(language, root, text, at, parent);
      DistinctPaths(symbols) <==>
      RepeatsNone(language, root, text, at) && RepeatNone(language, root, text, symbols)
    decreases Height(At(root, at)), 1, 0
  {
    var found := DefinitionChildren(language, root, at);
    DefinitionChildrenAreLower(language, root, at);
    hide DefinitionChildren, CollectedFrom, RepeatNone, RepeatsNone, DistinctPaths, NamedOnce, IsPath, Height;
    forall p, q | p in found && q in found && p <= q
      ensures p == q
    {
      FoundAreUnrelated(language, root, at, p, q);
    }
    NamedOnceIffNoneRepeats(language, root, text, at);
    FoundOnce(language, root, text, found, Height(At(root, at)), parent);
  }

  /** What is collected inside a symbol, and inside no symbol of these does a named definition repeat. */
  ghost predicate NothingRepeatsInside(
    language: Language, root: Node, text: (nat, nat) -> string, symbols: seq<Symbol>)
  {
    forall s :: s in symbols && IsPath(root, s.path) ==>
                  RepeatsNone(language, root, text, InsideOf(language, root, s))
  }

  /**
   No node becomes two symbols, through however many error nodes, if and only if no
   symbol's definition has an error node for its body with a named definition in it.
   Only Python looks for bodies among error nodes, so in JavaScript and TypeScript it
   never happens.
   */
  lemma NoNodeIsCollectedTwice(
    language: Language, root: Node, text: (nat, nat) -> string, modulePath: string, name: string)
    ensures var symbols := Symbols(language, root, text, modulePath, name);
      && (DistinctPaths(symbols) <==> NothingRepeatsInside(language, root, text, symbols))
      && (language == Script ==> DistinctPaths(symbols))
  {
    var top := ModuleSymbol(root, modulePath, name);
    var inner := Collected(language, root, text, [], top);
    SymbolsUnfold(language, root, text, modulePath, name);
    CollectedOnce(language, root, text, [], top);
    CollectedAreBelow(language, root, text, [], top);
    BelowSelf(root, [], top, inner);
    PathsBelow(top, inner);
    assert top in [top] + inner && InsideOf(language, root, top) == [];
    InsideOfCollected(language, root, text, top);
    ScriptRepeatsNothing(language, root, text);
    hide Symbols, Collected, DistinctPaths, RepeatsNone, IsPath, InsideOf, Unwrap;
  }

  lemma InsideOfCollected(language: Language, root: Node, text: (nat, nat) -> string, top: Symbol)
    requires top.path == [] && top.parent.None?
    ensures var inner := Collected(language, root, text, [], top);
      forall s :: s in inner && IsPath(root, s.path) ==>
                    InsideOf(language, root, s) == Unwrap(language, root, s.path)
  {
    assert IsPath(root, []);
    hide Collected, IsPath, Unwrap;
    forall s | s in Collected(language, root, text, [], top) && IsPath(root, s.path)
      ensures InsideOf(language, root, s) == Unwrap(language, root, s.path)
    {
      CollectedHaveParents(language, root, text, [], top, s);
    }
  }

  lemma ScriptRepeatsNothing(language: Language, root: Node, text: (nat, nat) -> string)
    ensures language == Script ==> forall at :: RepeatsNone(language, root, text, at)
  {
    hide AmongChildren, BodyOf, IsPath, IsNamed;
  }

  /** A named function whose second child is its body, an error node with a named function in it. */
  predicate HasErrorBody(outer: Node) {
    && outer.kind.Function? && FieldOf(outer, Name).Some? && FieldOf(outer, Body) == Some(1)
    && outer.children[1].kind == ErrorNode && |outer.children[1].children| == 1
    && outer.children[1].children[0].kind.Function?
    && FieldOf(outer.children[1].children[0], Name).Some?
  }

  lemma ErrorBodyIsCollectedTwice(root: Node, text: (nat, nat) -> string, modulePath: string, name: string)
    requires root.kind == Other && root.children != [] && HasErrorBody(root.children[0])
    ensures !DistinctPaths(Symbols(Python, root, text, modulePath, name))
  {
    var at := [] + [0];
    AtChild(root, [], 0);
    ErrorBodyHolds(root, text, at);
    var symbol := FunctionIsASymbol(root, text, modulePath, name);
    InsideOfFunction(root, symbol);
    hide Symbols, DistinctPaths, RepeatsAt, IsNamed, InsideOf, HasErrorBody;
    assert RepeatsNamed(Python, root, text, at, at + [1] + [0]);
    NoNodeIsCollectedTwice(Python, root, text, modulePath, name);
  }

  /** A module under the span laws in which one function becomes two symbols. */
  lemma NodeCollectedTwice(text: (nat, nat) -> string, modulePath: string, name: string) returns (root: Node)
    ensures Lawful(root) && root.kind == Other
    ensures !DistinctPaths(Symbols(Python, root, text, modulePath, name))
  {
    var word := Node(Other, 4, 5, [], map[]);
    var inner := Node(Function, 4, 8, [word], map[Name := 0]);
    var error := Node(ErrorNode, 3, 9, [inner], map[]);
    var header := Node(Other, 1, 2, [], map[]);
    var outer := Node(Function, 0, 9, [header, error], map[Name := 0, Body := 1]);
    root := Node(Other, 0, 9, [outer], map[]);
    assert Lawful(word) && Lawful(header) && Lawful(inner) && Lawful(error) && Lawful(outer);
    hide Symbols, DistinctPaths;
    ErrorBodyIsCollectedTwice(root, text, modulePath, name);
  }

  lemma FunctionLeads(root: Node, at: Path, i: nat)
    requires IsPath(root, at) && i < |At(root, at).children| && At(root, at).children[i].kind.Function?
    ensures Leads(Python, root, at, at + [i])
  {
    assert (at + [i])[|at|..] == [i];
  }

  lemma FunctionIsNamed(root: Node, text: (nat, nat) -> string, p: Path)
    requires IsPath(root, p) && At(root, p).kind.Function? && FieldOf(At(root, p), Name).Some?
    ensures IsNamed(Python, root, text, p) && Unwrap(Python, root, p) == p
  {
  }

  lemma FunctionIsASymbol(root: Node, text: (nat, nat) -> string, modulePath: string, name: string)
    returns (symbol: Symbol)
    requires root.kind == Other && root.children != [] && root.children[0].kind.Function?
    requires FieldOf(root.children[0], Name).Some?
    ensures symbol in Symbols(Python, root, text, modulePath, name)
    ensures symbol.path == [] + [0] && symbol.parent == Some([])
  {
    var top := ModuleSymbol(root, modulePath, name);
    var start: Path, p: Path := [], [] + [0];
    AtChild(root, start, 0);
    FunctionLeads(root, start, 0);
    FunctionIsNamed(root, text, p);
    DefinitionChildrenAreReached(Python, root, start);
    assert ContainersOf(Python, root, start) == [start];
    assert start in [start] && LeadsFrom(Python, root, [start], p);
    SymbolsUnfold(Python, root, text, modulePath, name);
    FirstOfOne(top, Collected(Python, root, text, [], top));
    assert InsideOf(Python, root, top) == [];
    hide Symbols, Collected, DefinitionChildren, IsNamed, LeadsFrom, HasChild, IsPath;
    EveryNamedDefinitionIsASymbol(Python, root, text, modulePath, name, top, p);
    symbol := ItsChild(Symbols(Python, root, text, modulePath, name), [], p);
  }

  lemma ItsChild(symbols: seq<Symbol>, parent: Path, p: Path) returns (t: Symbol)
    requires HasChild(symbols, parent, p)
    ensures t in symbols && t.path == p && t.parent == Some(parent)
  {
    t :| t in symbols && t.path == p && t.parent == Some(parent);
  }

  lemma InsideOfFunction(root: Node, s: Symbol)
    requires IsPath(root, s.path) && At(root, s.path).kind.Function? && s.parent.Some?
    ensures InsideOf(Python, root, s) == s.path
  {
  }

  lemma ErrorBodyHolds(root: Node, text: (nat, nat) -> string, at: Path)
    requires IsPath(root, at) && HasErrorBody(At(root, at))
    ensures RepeatsAt(Python, root, at, at + [1] + [0]) && IsNamed(Python, root, text, at + [1] + [0])
  {
    AtChild(root, at, 1);
    AtChild(root, at + [1], 0);
    FunctionLeads(root, at + [1], 0);
    FunctionIsNamed(root, text, at + [1] + [0]);
    AmongChildrenLead(Python, root, at + [1], 1, at + [1] + [0]);
    assert BodyOf(root, at) == [at + [1]];
    hide AmongChildren, Leads, IsNamed;
  }
}
