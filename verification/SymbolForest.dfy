/** What every list of collected symbols keeps: it is a forest in preorder, and its spans nest. */
module SymbolForest {
  import opened Prelude
  import opened SyntaxTree
  import opened Definitions

  // ---- where symbols come from ------------------------------------------------------------

  /** The symbol's node exists, and the symbol spans exactly that node. */
  predicate Describes(root: Node, symbol: Symbol) {
    && IsPath(root, symbol.path)
    && symbol.start == At(root, symbol.path).start && symbol.end == At(root, symbol.path).end
  }

  predicate AreBelow(root: Node, at: Path, symbols: seq<Symbol>) {
    forall s :: s in symbols ==> Describes(root, s) && at < s.path
  }

  lemma BelowConcat(root: Node, at: Path, a: seq<Symbol>, b: seq<Symbol>)
    requires AreBelow(root, at, a) && AreBelow(root, at, b)
    ensures AreBelow(root, at, a + b)
  {
  }

  lemma {:induction false} CollectedAreBelow(
    language: Language, root: Node, text: (nat, nat) -> string, at: Path, parent: Symbol)
    requires IsPath(root, at)
    ensures AreBelow(root, at, Collected(language, root, text, at, parent))
    decreases Height(At(root, at)), 1, 0
  {
    var found := DefinitionChildren(language, root, at);
    DefinitionChildrenAreLower(language, root, at);
    assert forall p :: p in found ==> at < p by {
      forall p | p in found
        ensures at < p
      {
        assert IsFoundIn(language, root, at, p);
      }
    }
    FoundAreBelow(language, root, text, at, found, Height(At(root, at)), parent);
  }

  lemma {:induction false} FoundAreBelow(
    language: Language, root: Node, text: (nat, nat) -> string, at: Path, found: seq<Path>, height: nat, parent: Symbol)
    requires AreLower(root, found, height) && forall p :: p in found ==> at < p
    ensures AreBelow(root, at, CollectedFrom(language, root, text, found, height, parent))
    decreases height, 0, |found|
  {
    if found != [] {
      assert forall p :: p in Init(found) ==> p in found;
      assert Last(found) in found;
      FoundAreBelow(language, root, text, at, Init(found), height, parent);
      OneIsBelow(language, root, text, at, Last(found), parent);
      hide AreBelow, CollectedAt;
      BelowConcat(
        root, at, CollectedFrom(language, root, text, Init(found), height, parent),
        CollectedAt(language, root, text, Last(found), parent));
    }
  }

  /** The definition behind this node has a name. */
  predicate IsNamed(language: Language, root: Node, text: (nat, nat) -> string, outer: Path) {
    IsPath(root, outer) && NameOf(language, text, At(root, Unwrap(language, root, outer))).Some?
  }

  /** What one definition contributes: nothing, or its symbol and then everything inside it. */
  lemma OneUnfolds(language: Language, root: Node, text: (nat, nat) -> string, outer: Path, parent: Symbol)
    returns (definition: Path, symbol: Symbol)
    requires IsPath(root, outer)
    ensures IsPath(root, definition) && outer <= definition && Height(At(root, definition)) <= Height(At(root, outer))
    ensures definition == Unwrap(language, root, outer)
    ensures Describes(root, symbol) && symbol.path == outer && symbol.parent == Some(parent.path)
    ensures symbol.qualifiedName == parent.qualifiedName + "." + symbol.name
    ensures var collected := CollectedAt(language, root, text, outer, parent);
      collected == [] || collected == [symbol] + Collected(language, root, text, definition, symbol)
    ensures CollectedAt(language, root, text, outer, parent) != [] <==> IsNamed(language, root, text, outer)
    ensures IsNamed(language, root, text, outer) ==>
              NameOf(language, text, At(root, definition)) == Some(symbol.name)
  {
    definition := Unwrap(language, root, outer);
    var name := NameOf(language, text, At(root, definition));
    symbol := SymbolOf(root, outer, if name.Some? then name.value else "", parent);
    LowerBelow(root, outer, definition);
    hide Collected, Unwrap, NameOf, Height;
  }

  lemma BelowCons(root: Node, at: Path, symbol: Symbol, definition: Path, inner: seq<Symbol>)
    requires Describes(root, symbol) && at < symbol.path <= definition && AreBelow(root, definition, inner)
    ensures AreBelow(root, at, [symbol] + inner)
    ensures forall s :: s in [symbol] + inner ==> symbol.path <= s.path
  {
  }

  lemma NoneAreBelow(root: Node, at: Path)
    ensures AreBelow(root, at, [])
  {
  }

  lemma {:induction false} OneIsBelow(
    language: Language, root: Node, text: (nat, nat) -> string, at: Path, outer: Path, parent: Symbol)
    requires IsPath(root, outer) && at < outer
    ensures AreBelow(root, at, CollectedAt(language, root, text, outer, parent))
    ensures forall s :: s in CollectedAt(language, root, text, outer, parent) ==> outer <= s.path
    decreases Height(At(root, outer)), 2, 0
  {
    hide *;
    var definition, symbol := OneUnfolds(language, root, text, outer, parent);
    if CollectedAt(language, root, text, outer, parent) == [] {
      NoneAreBelow(root, at);
    } else {
      CollectedAreBelow(language, root, text, definition, symbol);
      BelowCons(root, at, symbol, definition, Collected(language, root, text, definition, symbol));
    }
  }

  // ---- parents ---------------------------------------------------------------------------------

  /**
   The k-th symbol belongs to the j-th: it names it as its parent, lies inside it,
   extends its qualified name by one name, and between the two there are only
   symbols that lie below the j-th in the tree as well.
   */
  predicate IsParent(symbols: seq<Symbol>, j: nat, k: nat)
    requires j < k < |symbols|
  {
    && symbols[k].parent == Some(symbols[j].path)
    && symbols[k].qualifiedName == symbols[j].qualifiedName + "." + symbols[k].name
    && symbols[j].start <= symbols[k].start && symbols[k].end <= symbols[j].end
    && forall m :: j < m <= k ==> symbols[j].path < symbols[m].path
  }

  lemma ParentInFront(front: seq<Symbol>, symbols: seq<Symbol>, j: nat, k: nat)
    requires j < k < |symbols| && IsParent(symbols, j, k)
    ensures IsParent(front + symbols, |front| + j, |front| + k)
  {
    forall m | |front| + j < m <= |front| + k
      ensures (front + symbols)[|front| + j].path < (front + symbols)[m].path
    {
      assert (front + symbols)[m] == symbols[m - |front|];
    }
  }

  lemma ParentBehind(symbols: seq<Symbol>, behind: seq<Symbol>, j: nat, k: nat)
    requires j < k < |symbols| && IsParent(symbols, j, k)
    ensures IsParent(symbols + behind, j, k)
  {
  }

  lemma NewestChild(parent: Symbol, symbols: seq<Symbol>, child: Symbol, inner: seq<Symbol>)
    requires child.parent == Some(parent.path)
    requires child.qualifiedName == parent.qualifiedName + "." + child.name
    requires parent.start <= child.start && child.end <= parent.end && parent.path < child.path
    requires forall s :: s in symbols ==> parent.path < s.path
    ensures IsParent([parent] + symbols + ([child] + inner), 0, |symbols| + 1)
  {
    var all := [parent] + symbols + ([child] + inner);
    assert all[|symbols| + 1] == child;
    forall m | 0 < m <= |symbols| + 1
      ensures parent.path < all[m].path
    {
      if m <= |symbols| {
        assert all[m] == symbols[m - 1] && symbols[m - 1] in symbols;
      }
    }
  }

  /** The parent of every symbol below `parent`, given the symbols of these children. */
  lemma {:induction false} ParentAmongFound(
    language: Language, root: Node, text: (nat, nat) -> string, at: Path, found: seq<Path>, height: nat,
    parent: Symbol, k: nat)
    returns (j: nat)
    requires Lawful(root) && Describes(root, parent) && parent.path <= at
    requires AreLower(root, found, height) && forall p :: p in found ==> at < p
    requires 1 <= k < 1 + |CollectedFrom(language, root, text, found, height, parent)|
    ensures j < k && IsParent([parent] + CollectedFrom(language, root, text, found, height, parent), j, k)
    decreases height, 0, |found|
  {
    hide *;
    FoundUnfolds(language, root, text, at, found, height, parent);
    var front := CollectedFrom(language, root, text, Init(found), height, parent);
    var back := CollectedAt(language, root, text, Last(found), parent);
    Associates([parent], front, back);
    if k < 1 + |front| {
      j := ParentAmongFound(language, root, text, at, Init(found), height, parent, k);
      ParentBehind([parent] + front, back, j, k);
    } else {
      FoundAreBelow(language, root, text, at, Init(found), height, parent);
      BelowParent(root, parent, at, front);
      j := ParentWithin(language, root, text, at, Last(found), parent, front, k - 1 - |front|);
    }
  }

  lemma FoundUnfolds(
    language: Language, root: Node, text: (nat, nat) -> string, at: Path, found: seq<Path>, height: nat, parent: Symbol)
    requires AreLower(root, found, height) && forall p :: p in found ==> at < p
    requires CollectedFrom(language, root, text, found, height, parent) != []
    ensures found != [] && IsPath(root, Last(found)) && at < Last(found) && Height(At(root, Last(found))) < height
    ensures AreLower(root, Init(found), height) && |Init(found)| < |found| && forall p :: p in Init(found) ==> at < p
    ensures CollectedFrom(language, root, text, found, height, parent)
         == CollectedFrom(language, root, text, Init(found), height, parent)
            + CollectedAt(language, root, text, Last(found), parent)
  {
    assert forall p :: p in Init(found) ==> p in found;
    assert Last(found) in found;
    hide CollectedAt, Height;
  }

  lemma BelowParent(root: Node, parent: Symbol, at: Path, symbols: seq<Symbol>)
    requires AreBelow(root, at, symbols) && parent.path <= at
    ensures forall s :: s in symbols ==> parent.path < s.path
  {
  }

  /** The parent of a symbol of one definition, behind the symbols of the definitions before it. */
  lemma {:induction false} ParentWithin(
    language: Language, root: Node, text: (nat, nat) -> string, at: Path, outer: Path, parent: Symbol,
    front: seq<Symbol>, k: nat)
    returns (j: nat)
    requires Lawful(root) && Describes(root, parent) && IsPath(root, outer) && parent.path <= at < outer
    requires k < |CollectedAt(language, root, text, outer, parent)|
    requires forall s :: s in front ==> parent.path < s.path
    ensures j < 1 + |front| + k
    ensures IsParent([parent] + front + CollectedAt(language, root, text, outer, parent), j, 1 + |front| + k)
    decreases Height(At(root, outer)), 2, 0
  {
    hide *;
    var definition, symbol := OneUnfolds(language, root, text, outer, parent);
    var inner := Collected(language, root, text, definition, symbol);
    if k == 0 {
      j := 0;
      ChildLiesInside(root, parent, symbol);
      NewestChild(parent, front, symbol, inner);
    } else {
      var within := ParentBelow(language, root, text, definition, symbol, k);
      j := 1 + |front| + within;
      ParentInFront([parent] + front, [symbol] + inner, within, k);
    }
  }

  lemma ChildLiesInside(root: Node, parent: Symbol, child: Symbol)
    requires Lawful(root) && Describes(root, parent) && Describes(root, child) && parent.path <= child.path
    ensures parent.start <= child.start && child.end <= parent.end
  {
    SpansAreLaminar(root, parent.path, child.path);
  }

  /** The parent of every symbol below a node, in the list that begins with the node's own symbol. */
  lemma {:induction false} ParentBelow(
    language: Language, root: Node, text: (nat, nat) -> string, at: Path, parent: Symbol, k: nat)
    returns (j: nat)
    requires Lawful(root) && IsPath(root, at) && Describes(root, parent) && parent.path <= at
    requires 1 <= k < 1 + |Collected(language, root, text, at, parent)|
    ensures j < k && IsParent([parent] + Collected(language, root, text, at, parent), j, k)
    decreases Height(At(root, at)), 1, 0
  {
    var found := DefinitionChildren(language, root, at);
    DefinitionChildrenAreLower(language, root, at);
    forall p | p in found
      ensures at < p
    {
      assert IsFoundIn(language, root, at, p);
    }
    hide CollectedFrom, IsParent, Lawful, DefinitionChildren;
    j := ParentAmongFound(language, root, text, at, found, Height(At(root, at)), parent, k);
  }

  /**
   The symbols of a file are a forest in preorder under the module: every other
   symbol has its parent before it, with nothing but the parent's descendants between.
   */
  lemma EverySymbolHasItsParent(
    language: Language, root: Node, text: (nat, nat) -> string, modulePath: string, name: string, k: nat)
    returns (j: nat)
    requires Lawful(root) && 1 <= k < |Symbols(language, root, text, modulePath, name)|
    ensures j < k && IsParent(Symbols(language, root, text, modulePath, name), j, k)
  {
    hide Collected, IsParent, Lawful;
    j := ParentBelow(language, root, text, [], ModuleSymbol(root, modulePath, name), k);
  }

  // ---- spans -------------------------------------------------------------------------------------

  predicate SymbolInside(inner: Symbol, outer: Symbol) {
    outer.start <= inner.start && inner.end <= outer.end
  }

  predicate SymbolsApart(a: Symbol, b: Symbol) {
    a.end <= b.start || b.end <= a.start
  }

  /** Spans are pairwise nested or disjoint. */
  predicate AreLaminar(symbols: seq<Symbol>) {
    forall a, b :: a in symbols && b in symbols ==> SymbolInside(a, b) || SymbolInside(b, a) || SymbolsApart(a, b)
  }

  lemma SymbolsDescribeNodes(
    language: Language, root: Node, text: (nat, nat) -> string, modulePath: string, name: string)
    ensures forall s :: s in Symbols(language, root, text, modulePath, name) ==> Describes(root, s)
  {
    hide Collected;
    CollectedAreBelow(language, root, text, [], ModuleSymbol(root, modulePath, name));
  }

  lemma SymbolsAreLaminar(
    language: Language, root: Node, text: (nat, nat) -> string, modulePath: string, name: string)
    requires Lawful(root)
    ensures AreLaminar(Symbols(language, root, text, modulePath, name))
  {
    var symbols := Symbols(language, root, text, modulePath, name);
    SymbolsDescribeNodes(language, root, text, modulePath, name);
    hide Symbols, Lawful, IsPath, At;
    forall a, b | a in symbols && b in symbols
      ensures SymbolInside(a, b) || SymbolInside(b, a) || SymbolsApart(a, b)
    {
      SpansAreLaminar(root, a.path, b.path);
    }
  }

  // ---- which nodes become symbols -------------------------------------------------------------------

  /** The symbol stands for a definition node, and carries the name of the definition behind it. */
  predicate IsSymbolOfDefinition(language: Language, root: Node, text: (nat, nat) -> string, s: Symbol) {
    && IsPath(root, s.path) && IsDefinition(language, At(root, s.path))
    && NameOf(language, text, At(root, Unwrap(language, root, s.path))) == Some(s.name)
  }

  predicate AreSymbolsOfDefinitions(
    language: Language, root: Node, text: (nat, nat) -> string, symbols: seq<Symbol>)
  {
    forall s :: s in symbols ==> IsSymbolOfDefinition(language, root, text, s)
  }

  predicate AreDefinitions(language: Language, root: Node, found: seq<Path>) {
    forall p :: p in found ==> IsPath(root, p) && IsDefinition(language, At(root, p))
  }

  lemma DefinitionsConcat(
    language: Language, root: Node, text: (nat, nat) -> string, a: seq<Symbol>, b: seq<Symbol>)
    requires AreSymbolsOfDefinitions(language, root, text, a) && AreSymbolsOfDefinitions(language, root, text, b)
    ensures AreSymbolsOfDefinitions(language, root, text, a + b)
  {
  }

  lemma OneOfDefinition(language: Language, root: Node, text: (nat, nat) -> string, s: Symbol)
    ensures IsPath(root, s.path) && IsDefinition(language, At(root, s.path))
            && NameOf(language, text, At(root, Unwrap(language, root, s.path))) == Some(s.name) ==>
              AreSymbolsOfDefinitions(language, root, text, [s])
    ensures AreSymbolsOfDefinitions(language, root, text, [])
  {
  }

  lemma {:induction false} FoundAreNamed(
    language: Language, root: Node, text: (nat, nat) -> string, found: seq<Path>, height: nat, parent: Symbol)
    requires AreLower(root, found, height) && AreDefinitions(language, root, found)
    ensures AreSymbolsOfDefinitions(language, root, text, CollectedFrom(language, root, text, found, height, parent))
    decreases height, 0, |found|
  {
    FoundSplits(language, root, text, found, height, parent);
    DefinitionsOfInit(language, root, found);
    hide *;
    if found != [] {
      FoundAreNamed(language, root, text, Init(found), height, parent);
      OneIsNamed(language, root, text, Last(found), parent);
      DefinitionsConcat(
        language, root, text, CollectedFrom(language, root, text, Init(found), height, parent),
        CollectedAt(language, root, text, Last(found), parent));
    } else {
      OneOfDefinition(language, root, text, parent);
    }
  }

  lemma DefinitionsOfInit(language: Language, root: Node, found: seq<Path>)
    requires AreDefinitions(language, root, found)
    ensures found != [] ==>
              && AreDefinitions(language, root, Init(found)) && |Init(found)| < |found|
              && IsPath(root, Last(found)) && IsDefinition(language, At(root, Last(found)))
  {
    if found != [] {
      assert Last(found) in found;
      assert forall p :: p in Init(found) ==> p in found;
    }
  }

  lemma FoundSplits(
    language: Language, root: Node, text: (nat, nat) -> string, found: seq<Path>, height: nat, parent: Symbol)
    requires AreLower(root, found, height)
    ensures found == [] ==> CollectedFrom(language, root, text, found, height, parent) == []
    ensures found != [] ==>
              && |Init(found)| < |found| && found == Init(found) + [Last(found)]
              && AreLower(root, Init(found), height)
              && IsPath(root, Last(found)) && Height(At(root, Last(found))) < height
              && CollectedFrom(language, root, text, found, height, parent)
              == CollectedFrom(language, root, text, Init(found), height, parent)
                 + CollectedAt(language, root, text, Last(found), parent)
  {
    if found != [] {
      assert Last(found) in found;
      assert forall p :: p in Init(found) ==> p in found;
      hide CollectedAt, Height;
    }
  }

  lemma {:induction false} OneIsNamed(
    language: Language, root: Node, text: (nat, nat) -> string, outer: Path, parent: Symbol)
    requires IsPath(root, outer) && IsDefinition(language, At(root, outer))
    ensures AreSymbolsOfDefinitions(language, root, text, CollectedAt(language, root, text, outer, parent))
    decreases Height(At(root, outer)), 2, 0
  {
    hide *;
    var definition, symbol := OneUnfolds(language, root, text, outer, parent);
    OneOfDefinition(language, root, text, symbol);
    if CollectedAt(language, root, text, outer, parent) != [] {
      BelowAreNamed(language, root, text, definition, symbol);
      DefinitionsConcat(
        language, root, text, [symbol], Collected(language, root, text, definition, symbol));
    }
  }

  lemma {:induction false} BelowAreNamed(
    language: Language, root: Node, text: (nat, nat) -> string, at: Path, parent: Symbol)
    requires IsPath(root, at)
    ensures AreSymbolsOfDefinitions(language, root, text, Collected(language, root, text, at, parent))
    decreases Height(At(root, at)), 1, 0
  {
    var found := DefinitionChildren(language, root, at);
    DefinitionChildrenAreLower(language, root, at);
    forall p | p in found
      ensures IsPath(root, p) && IsDefinition(language, At(root, p))
    {
      assert IsFoundIn(language, root, at, p);
    }
    hide CollectedFrom, DefinitionChildren, AreSymbolsOfDefinitions;
    FoundAreNamed(language, root, text, found, Height(At(root, at)), parent);
  }

  /** Every symbol but the module stands for a definition node and has the name written there. */
  lemma SymbolsAreNamedDefinitions(
    language: Language, root: Node, text: (nat, nat) -> string, modulePath: string, name: string, s: Symbol)
    requires s in Symbols(language, root, text, modulePath, name) && s != ModuleSymbol(root, modulePath, name)
    ensures IsSymbolOfDefinition(language, root, text, s)
  {
    BelowAreNamed(language, root, text, [], ModuleSymbol(root, modulePath, name));
    hide Collected, IsSymbolOfDefinition;
  }

  /** Among these symbols the node at `p` has one that belongs to `parent`. */
  ghost predicate HasChild(symbols: seq<Symbol>, parent: Path, p: Path) {
    exists t :: t in symbols && t.path == p && t.parent == Some(parent)
  }

  lemma ChildOfConcat(a: seq<Symbol>, b: seq<Symbol>, parent: Path, p: Path)
    requires HasChild(a, parent, p) || HasChild(b, parent, p)
    ensures HasChild(a + b, parent, p)
  {
    if HasChild(a, parent, p) {
      var t :| t in a && t.path == p && t.parent == Some(parent);
      assert t in a + b;
    } else {
      var t :| t in b && t.path == p && t.parent == Some(parent);
      assert t in a + b;
    }
  }

  lemma FirstIsChild(symbol: Symbol, inner: seq<Symbol>, parent: Path)
    requires symbol.parent == Some(parent)
    ensures HasChild([symbol] + inner, parent, symbol.path)
  {
    assert symbol in [symbol] + inner;
  }

  lemma {:induction false} FoundIsCollected(
    language: Language, root: Node, text: (nat, nat) -> string, found: seq<Path>, height: nat, parent: Symbol, p: Path)
    requires AreLower(root, found, height) && p in found && IsNamed(language, root, text, p)
    ensures HasChild(CollectedFrom(language, root, text, found, height, parent), parent.path, p)
    decreases |found|
  {
    FoundSplits(language, root, text, found, height, parent);
    hide *;
    var front := CollectedFrom(language, root, text, Init(found), height, parent);
    var back := CollectedAt(language, root, text, Last(found), parent);
    if p == Last(found) {
      var definition, symbol := OneUnfolds(language, root, text, p, parent);
      FirstIsChild(symbol, Collected(language, root, text, definition, symbol), parent.path);
    } else {
      FoundIsCollected(language, root, text, Init(found), height, parent, p);
    }
    ChildOfConcat(front, back, parent.path, p);
  }

  lemma BelowIsCollected(
    language: Language, root: Node, text: (nat, nat) -> string, at: Path, parent: Symbol, p: Path)
    requires IsPath(root, at) && p in DefinitionChildren(language, root, at) && IsNamed(language, root, text, p)
    ensures HasChild(Collected(language, root, text, at, parent), parent.path, p)
  {
    DefinitionChildrenAreLower(language, root, at);
    hide CollectedFrom, DefinitionChildren, HasChild, IsNamed;
    FoundIsCollected(
      language, root, text, DefinitionChildren(language, root, at), Height(At(root, at)), parent, p);
  }

  lemma {:induction false} InnerOfFound(
    language: Language, root: Node, text: (nat, nat) -> string, found: seq<Path>, height: nat, parent: Symbol,
    s: Symbol, p: Path)
    requires AreLower(root, found, height) && s in CollectedFrom(language, root, text, found, height, parent)
    requires IsPath(root, s.path) && p in DefinitionChildren(language, root, Unwrap(language, root, s.path))
    requires IsNamed(language, root, text, p)
    ensures HasChild(CollectedFrom(language, root, text, found, height, parent), s.path, p)
    decreases height, 0, |found|
  {
    FoundSplits(language, root, text, found, height, parent);
    hide *;
    var front := CollectedFrom(language, root, text, Init(found), height, parent);
    var back := CollectedAt(language, root, text, Last(found), parent);
    if s in back {
      InnerOfOne(language, root, text, Last(found), parent, s, p);
    } else {
      InnerOfFound(language, root, text, Init(found), height, parent, s, p);
    }
    ChildOfConcat(front, back, s.path, p);
  }

  lemma {:induction false} InnerOfOne(
    language: Language, root: Node, text: (nat, nat) -> string, outer: Path, parent: Symbol, s: Symbol, p: Path)
    requires IsPath(root, outer) && s in CollectedAt(language, root, text, outer, parent)
    requires IsPath(root, s.path) && p in DefinitionChildren(language, root, Unwrap(language, root, s.path))
    requires IsNamed(language, root, text, p)
    ensures HasChild(CollectedAt(language, root, text, outer, parent), s.path, p)
    decreases Height(At(root, outer)), 2, 0
  {
    hide *;
    var definition, symbol := OneUnfolds(language, root, text, outer, parent);
    var inner := Collected(language, root, text, definition, symbol);
    if s == symbol {
      BelowIsCollected(language, root, text, definition, symbol, p);
    } else {
      InnerOfBelow(language, root, text, definition, symbol, s, p);
    }
    ChildOfConcat([symbol], inner, s.path, p);
  }

  lemma {:induction false} InnerOfBelow(
    language: Language, root: Node, text: (nat, nat) -> string, at: Path, parent: Symbol, s: Symbol, p: Path)
    requires IsPath(root, at) && s in Collected(language, root, text, at, parent)
    requires IsPath(root, s.path) && p in DefinitionChildren(language, root, Unwrap(language, root, s.path))
    requires IsNamed(language, root, text, p)
    ensures HasChild(Collected(language, root, text, at, parent), s.path, p)
    decreases Height(At(root, at)), 1, 0
  {
    DefinitionChildrenAreLower(language, root, at);
    hide CollectedFrom, DefinitionChildren, HasChild, IsNamed, Unwrap;
    InnerOfFound(
      language, root, text, DefinitionChildren(language, root, at), Height(At(root, at)), parent, s, p);
  }

  /** Where the definitions right inside a symbol are looked for. */
  function InsideOf(language: Language, root: Node, s: Symbol): Path
    requires IsPath(root, s.path)
    ensures IsPath(root, InsideOf(language, root, s))
  {
    if s.parent.None? then [] else Unwrap(language, root, s.path)
  }

  lemma SymbolsUnfold(language: Language, root: Node, text: (nat, nat) -> string, modulePath: string, name: string)
    ensures IsPath(root, []) && ModuleSymbol(root, modulePath, name).path == []
    ensures var top := ModuleSymbol(root, modulePath, name);
      Symbols(language, root, text, modulePath, name) == [top] + Collected(language, root, text, [], top)
  {
    hide Collected;
  }

  /**
   No named definition is missed: each one found right inside the module, or inside
   the definition behind a symbol, has a symbol that belongs to it.
   */
  lemma EveryNamedDefinitionIsASymbol(
    language: Language, root: Node, text: (nat, nat) -> string, modulePath: string, name: string, s: Symbol, p: Path)
    requires s in Symbols(language, root, text, modulePath, name) && IsPath(root, s.path)
    requires p in DefinitionChildren(language, root, InsideOf(language, root, s)) && IsNamed(language, root, text, p)
    ensures HasChild(Symbols(language, root, text, modulePath, name), s.path, p)
  {
    var top := ModuleSymbol(root, modulePath, name);
    var inner := Collected(language, root, text, [], top);
    SymbolsUnfold(language, root, text, modulePath, name);
    hide Collected, Symbols, DefinitionChildren, HasChild, IsNamed, Unwrap;
    if s == top {
      BelowIsCollected(language, root, text, [], top, p);
    } else {
      CollectedHaveParents(language, root, text, [], top, s);
      InnerOfBelow(language, root, text, [], top, s, p);
    }
    ChildOfConcat([top], inner, s.path, p);
  }

  lemma {:induction false} CollectedHaveParents(
    language: Language, root: Node, text: (nat, nat) -> string, at: Path, parent: Symbol, s: Symbol)
    requires IsPath(root, at) && s in Collected(language, root, text, at, parent)
    ensures s.parent.Some?
    decreases Height(At(root, at)), 1, 0
  {
    DefinitionChildrenAreLower(language, root, at);
    hide CollectedFrom, DefinitionChildren;
    FoundHaveParents(language, root, text, DefinitionChildren(language, root, at), Height(At(root, at)), parent, s);
  }

  lemma {:induction false} FoundHaveParents(
    language: Language, root: Node, text: (nat, nat) -> string, found: seq<Path>, height: nat, parent: Symbol, s: Symbol)
    requires AreLower(root, found, height) && s in CollectedFrom(language, root, text, found, height, parent)
    ensures s.parent.Some?
    decreases height, 0, |found|
  {
    FoundSplits(language, root, text, found, height, parent);
    hide *;
    if s in CollectedAt(language, root, text, Last(found), parent) {
      var definition, symbol := OneUnfolds(language, root, text, Last(found), parent);
      if s != symbol {
        CollectedHaveParents(language, root, text, definition, symbol, s);
      }
    } else {
      FoundHaveParents(language, root, text, Init(found), height, parent, s);
    }
  }
}
