/**
 What the collection of definitions comes to, kind by kind: what is a definition, where
 nested ones are looked for, how a symbol is named, and that the symbols of a file are
 exactly the named definitions that symbols hold.
 */
module DefinitionsByKind {
  import opened Prelude
  import opened SyntaxTree
  import opened Definitions
  import opened NestedDefinitions
  import opened SymbolForest

  // ---- what is a definition -------------------------------------------------------------------

  /** The child at `i` declares a name and gives it a function. */
  predicate DeclaresFunctionAt(node: Node, i: nat) {
    && i < |node.children| && node.children[i].kind == Declarator
    && var value := FieldOf(node.children[i], Value);
    value.Some? && node.children[i].children[value.value].kind == FunctionValue
  }

  ghost predicate DeclaresFunction(node: Node) {
    exists i :: DeclaresFunctionAt(node, i)
  }

  lemma {:induction false} DeclaratorIsFirst(node: Node, from: nat)
    ensures var index := FirstFunctionDeclarator(node.children, from);
      && (index.Some? ==> from <= index.value && DeclaresFunctionAt(node, index.value))
      && forall i :: from <= i && (index.Some? ==> i < index.value) ==> !DeclaresFunctionAt(node, i)
    decreases |node.children| - from
  {
    if from < |node.children| {
      DeclaratorIsFirst(node, from + 1);
    }
  }

  /** An export of a declaration, other than of plain values. */
  ghost predicate ExportsDefinition(node: Node, i: nat) {
    && node.kind.Export? && Names(node, Declaration, i)
    && (node.children[i].kind == ValueDeclaration ==> DeclaresFunction(node.children[i]))
  }

  lemma WhatIsExported(node: Node, i: nat)
    requires node.kind.Export?
    ensures ExportedDeclaration(node) == Some(i) <==> ExportsDefinition(node, i)
  {
    if Names(node, Declaration, i) {
      DeclaratorIsFirst(node.children[i], 0);
    }
    hide FirstFunctionDeclarator;
  }

  /**
   Python's definitions are classes, functions and decorated ones. A script's are
   classes, functions, methods and types, values that hold a function, and the exports
   of declarations, those of plain values excepted.
   */
  lemma WhatIsADefinition(node: Node)
    ensures IsDefinition(Python, node) <==> node.kind in {Kind.Class, Function, Decorated}
    ensures IsDefinition(Script, node) <==>
            || node.kind in {Kind.Class, Function, Method, TypeDeclaration}
            || (node.kind.ValueDeclaration? && DeclaresFunction(node))
            || exists i :: ExportsDefinition(node, i)
  {
    DeclaratorIsFirst(node, 0);
    if node.kind.Export? && ExportedDeclaration(node).Some? {
      WhatIsExported(node, ExportedDeclaration(node).value);
    }
    forall i: nat | ExportsDefinition(node, i)
      ensures ExportedDeclaration(node) == Some(i)
    {
      WhatIsExported(node, i);
    }
    hide FirstFunctionDeclarator;
  }

  // ---- where nested ones are looked for ---------------------------------------------------------

  /** The child at `i` leads to the definition at `p`, through nothing but error nodes. */
  predicate LeadsBelow(language: Language, root: Node, at: Path, i: nat, p: Path)
    requires IsPath(root, at)
  {
    IsPath(root, at + [i]) && Leads(language, root, at + [i], p)
  }

  /** The body of the node leads to the definition. */
  ghost predicate BodyLeads(language: Language, root: Node, at: Path, p: Path)
    requires IsPath(root, at)
  {
    exists i :: Names(At(root, at), Body, i) && LeadsBelow(language, root, at, i, p)
  }

  ghost predicate ErrorLeads(language: Language, root: Node, at: Path, p: Path)
    requires IsPath(root, at)
  {
    exists i :: 0 <= i < |At(root, at).children| && At(root, at).children[i].kind == ErrorNode
      && LeadsBelow(language, root, at, i, p)
  }

  /**
   The node at `at` holds the definition at `p`. A class of a script holds what is in its
   body, its other definitions hold nothing, and an export holds what it exports. A class
   or a function of Python holds what is in its body and what parsing left beside it in
   error nodes. The module and every other node hold their own children.
   */
  ghost predicate Holds(language: Language, root: Node, at: Path, p: Path)
    requires IsPath(root, at)
  {
    var node := At(root, at);
    match language
    case Python =>
      if node.kind.Class? || node.kind.Function? then
        BodyLeads(language, root, at, p) || ErrorLeads(language, root, at, p)
      else Leads(language, root, at, p)
    case Script =>
      match node.kind
      case Class => BodyLeads(language, root, at, p)
      case Function | Method | TypeDeclaration => false
      case ValueDeclaration => !DeclaresFunction(node) && Leads(language, root, at, p)
      case _ => Leads(language, root, at, p)
  }

  lemma LedByOne(language: Language, root: Node, c: Path, p: Path)
    requires IsPath(root, c)
    ensures LeadsFrom(language, root, [c], p) <==> Leads(language, root, c, p)
  {
    assert c in [c];
    hide Leads;
  }

  lemma LedByNone(language: Language, root: Node, p: Path)
    ensures !LeadsFrom(language, root, [], p)
  {
  }

  lemma LedByBody(language: Language, root: Node, at: Path, p: Path)
    requires IsPath(root, at)
    ensures LeadsFrom(language, root, BodyOf(root, at), p) <==> BodyLeads(language, root, at, p)
  {
    var body := FieldOf(At(root, at), Body);
    if body.Some? {
      AtChild(root, at, body.value);
      LedByOne(language, root, at + [body.value], p);
      assert Names(At(root, at), Body, body.value);
    } else {
      LedByNone(language, root, p);
    }
    hide Leads, LeadsFrom, IsPath;
  }

  lemma ErrorChildAt(root: Node, at: Path, c: Path)
    requires IsPath(root, at) && c in ErrorChildren(root, at, |At(root, at).children|)
    ensures |at| < |c| && c == at + [c[|at|]] && c[|at|] < |At(root, at).children|
    ensures At(root, at).children[c[|at|]].kind == ErrorNode
  {
    var n := |At(root, at).children|;
    ErrorChildrenAreChildren(root, at, n);
    assert IsChildBefore(at, n, c);
    assert c == at + [c[|at|]];
    hide IsPath, At, ErrorChildren;
    ErrorChildIs(root, at, n, c[|at|]);
  }

  lemma LedByErrors(language: Language, root: Node, at: Path, p: Path)
    requires IsPath(root, at)
    ensures LeadsFrom(language, root, ErrorChildren(root, at, |At(root, at).children|), p) <==>
            ErrorLeads(language, root, at, p)
  {
    var n := |At(root, at).children|;
    var errors := ErrorChildren(root, at, n);
    hide Leads, ErrorChildren, IsPath, At;
    if LeadsFrom(language, root, errors, p) {
      var c :| c in errors && IsPath(root, c) && Leads(language, root, c, p);
      ErrorChildAt(root, at, c);
      assert LeadsBelow(language, root, at, c[|at|], p);
    }
    if ErrorLeads(language, root, at, p) {
      var i :| 0 <= i < n && At(root, at).children[i].kind == ErrorNode && LeadsBelow(language, root, at, i, p);
      ErrorChildIs(root, at, n, i);
      assert at + [i] in errors;
    }
  }

  lemma LedByBoth(language: Language, root: Node, a: seq<Path>, b: seq<Path>, p: Path)
    ensures LeadsFrom(language, root, a + b, p) <==> LeadsFrom(language, root, a, p) || LeadsFrom(language, root, b, p)
  {
    hide Leads, IsPath;
    if LeadsFrom(language, root, a, p) {
      var c :| c in a && IsPath(root, c) && Leads(language, root, c, p);
      assert c in a + b;
    }
    if LeadsFrom(language, root, b, p) {
      var c :| c in b && IsPath(root, c) && Leads(language, root, c, p);
      assert c in a + b;
    }
  }

  /** What the search finds inside a node is what the node holds. */
  lemma FoundAreHeld(language: Language, root: Node, at: Path, p: Path)
    requires IsPath(root, at)
    ensures p in DefinitionChildren(language, root, at) <==> Holds(language, root, at, p)
  {
    DefinitionChildrenAreReached(language, root, at);
    WhatIsADefinition(At(root, at));
    LedByBody(language, root, at, p);
    LedByErrors(language, root, at, p);
    LedByOne(language, root, at, p);
    LedByNone(language, root, p);
    LedByBoth(language, root, BodyOf(root, at), ErrorChildren(root, at, |At(root, at).children|), p);
    hide DefinitionChildren, LeadsFrom, Leads, BodyLeads, ErrorLeads, BodyOf, ErrorChildren, InOrder, DeclaresFunction;
  }

  // ---- what a symbol is called --------------------------------------------------------------------

  /** The definition behind the node at `p`: behind its decorators or its export, or itself. */
  ghost predicate IsBehind(language: Language, root: Node, p: Path, definition: Path)
    requires IsPath(root, p)
  {
    var node := At(root, p);
    match language
    case Python =>
      if node.kind.Decorated? && exists i :: Names(node, Definition, i) then
        exists i :: Names(node, Definition, i) && definition == p + [i]
      else definition == p
    case Script =>
      if exists i :: ExportsDefinition(node, i) then exists i :: ExportsDefinition(node, i) && definition == p + [i]
      else definition == p
  }

  lemma UnwrapIsBehind(language: Language, root: Node, p: Path)
    requires IsPath(root, p)
    ensures forall definition :: IsBehind(language, root, p, definition) <==> definition == Unwrap(language, root, p)
  {
    var node := At(root, p);
    if node.kind.Export? {
      forall i: nat
        ensures ExportedDeclaration(node) == Some(i) <==> ExportsDefinition(node, i)
      {
        WhatIsExported(node, i);
      }
      hide ExportsDefinition, ExportedDeclaration, IsPath, At;
      var exported := ExportedDeclaration(node);
      assert exported.Some? ==> ExportsDefinition(node, exported.value);
    } else {
      hide ExportedDeclaration, IsPath, At;
      var field := FieldOf(node, Definition);
      assert field.Some? ==> Names(node, Definition, field.value);
    }
  }

  /** The child the name field names reads like this. */
  ghost predicate ReadsAs(text: (nat, nat) -> string, node: Node, name: string) {
    exists i: nat :: Names(node, Name, i) && name == text(node.children[i].start, node.children[i].end)
  }

  /** A value of a script is called like the first function it declares, anything else by its own name. */
  ghost predicate IsCalled(language: Language, text: (nat, nat) -> string, node: Node, name: string) {
    if language == Script && node.kind == ValueDeclaration then
      exists i: nat :: DeclaresFunctionAt(node, i) && (forall j :: 0 <= j < i ==> !DeclaresFunctionAt(node, j))
        && ReadsAs(text, node.children[i], name)
    else ReadsAs(text, node, name)
  }

  lemma FieldReadsAs(text: (nat, nat) -> string, node: Node, name: string)
    ensures FieldText(text, node) == Some(name) <==> ReadsAs(text, node, name)
  {
    var field := FieldOf(node, Name);
    if field.Some? {
      assert Names(node, Name, field.value);
    }
  }

  lemma NameIsCalled(language: Language, text: (nat, nat) -> string, node: Node, name: string)
    ensures NameOf(language, text, node) == Some(name) <==> IsCalled(language, text, node, name)
  {
    FieldReadsAs(text, node, name);
    var first := DeclaredFunction(node);
    DeclaratorIsFirst(node, 0);
    if first.Some? {
      FieldReadsAs(text, node.children[first.value], name);
    }
    hide FieldText, ReadsAs, FirstFunctionDeclarator, DeclaresFunctionAt;
  }

  // ---- exactly the held definitions are symbols ----------------------------------------------------

  /** Where the definitions of a symbol are looked for: in the module, or in the definition behind its node. */
  ghost predicate IsInside(language: Language, root: Node, s: Symbol, at: Path) {
    if s.parent.None? then at == [] else IsPath(root, s.path) && IsBehind(language, root, s.path, at)
  }

  /** The symbol `t` belongs to the symbol `s`, which looks for its definitions at `at`. */
  predicate BelongsTo(language: Language, root: Node, s: Symbol, at: Path, t: Symbol) {
    && IsPath(root, at) && t.parent == Some(s.path)
    && t.qualifiedName == s.qualifiedName + "." + t.name
    && t.path in DefinitionChildren(language, root, at)
  }

  ghost predicate BelongsWithin(language: Language, root: Node, symbols: seq<Symbol>, t: Symbol) {
    exists s :: s in symbols && IsPath(root, s.path) && s.parent.Some?
      && BelongsTo(language, root, s, Unwrap(language, root, s.path), t)
  }

  lemma WithinMore(language: Language, root: Node, symbols: seq<Symbol>, more: seq<Symbol>, t: Symbol)
    requires BelongsWithin(language, root, symbols, t) && forall s :: s in symbols ==> s in more
    ensures BelongsWithin(language, root, more, t)
  {
    hide BelongsTo, Unwrap, IsPath;
  }

  lemma {:induction false} FoundBelong(
    language: Language, root: Node, text: (nat, nat) -> string, found: seq<Path>, height: nat, parent: Symbol, t: Symbol)
    requires AreLower(root, found, height) && t in CollectedFrom(language, root, text, found, height, parent)
    ensures || BelongsWithin(language, root, CollectedFrom(language, root, text, found, height, parent), t)
            || (&& t.parent == Some(parent.path) && t.path in found
                && t.qualifiedName == parent.qualifiedName + "." + t.name)
    decreases height, 0, |found|
  {
    FoundSplits(language, root, text, found, height, parent);
    hide *;
    var front := CollectedFrom(language, root, text, Init(found), height, parent);
    var back := CollectedAt(language, root, text, Last(found), parent);
    InConcat(front, back);
    InConcat(Init(found), [Last(found)]);
    if t in back {
      OneBelongs(language, root, text, Last(found), parent, t);
      if BelongsWithin(language, root, back, t) {
        WithinMore(language, root, back, front + back, t);
      }
    } else {
      FoundBelong(language, root, text, Init(found), height, parent, t);
      if BelongsWithin(language, root, front, t) {
        WithinMore(language, root, front, front + back, t);
      }
    }
  }

  lemma InConcat<T>(a: seq<T>, b: seq<T>)
    ensures forall x :: x in a + b <==> x in a || x in b
  {
  }

  lemma {:induction false} OneBelongs(
    language: Language, root: Node, text: (nat, nat) -> string, outer: Path, parent: Symbol, t: Symbol)
    requires IsPath(root, outer) && t in CollectedAt(language, root, text, outer, parent)
    ensures || BelongsWithin(language, root, CollectedAt(language, root, text, outer, parent), t)
            || (&& t.parent == Some(parent.path) && t.path == outer
                && t.qualifiedName == parent.qualifiedName + "." + t.name)
    decreases Height(At(root, outer)), 2, 0
  {
    hide *;
    var definition, symbol := OneUnfolds(language, root, text, outer, parent);
    var inner := Collected(language, root, text, definition, symbol);
    DescribesPath(root, symbol);
    if t != symbol {
      BelowBelong(language, root, text, definition, symbol, t);
      if BelongsWithin(language, root, inner, t) {
        WithinMore(language, root, inner, [symbol] + inner, t);
      } else {
        WithinFirst(language, root, symbol, inner, t);
      }
    }
  }

  lemma DescribesPath(root: Node, symbol: Symbol)
    requires Describes(root, symbol)
    ensures IsPath(root, symbol.path)
  {
  }

  lemma WithinFirst(language: Language, root: Node, symbol: Symbol, inner: seq<Symbol>, t: Symbol)
    requires IsPath(root, symbol.path) && symbol.parent.Some?
    requires BelongsTo(language, root, symbol, Unwrap(language, root, symbol.path), t)
    ensures BelongsWithin(language, root, [symbol] + inner, t)
  {
    hide BelongsTo, Unwrap, IsPath;
    assert symbol in [symbol] + inner;
  }

  lemma {:induction false} BelowBelong(
    language: Language, root: Node, text: (nat, nat) -> string, at: Path, parent: Symbol, t: Symbol)
    requires IsPath(root, at) && t in Collected(language, root, text, at, parent)
    ensures BelongsWithin(language, root, Collected(language, root, text, at, parent), t)
            || BelongsTo(language, root, parent, at, t)
    decreases Height(At(root, at)), 1, 0
  {
    DefinitionChildrenAreLower(language, root, at);
    hide CollectedFrom, DefinitionChildren, BelongsWithin;
    FoundBelong(language, root, text, DefinitionChildren(language, root, at), Height(At(root, at)), parent, t);
  }

  /**
   No definition is missed: whatever definition the module or a symbol's definition
   holds is a symbol of that parent, under the name it is called by, if it has one.
   */
  lemma EveryHeldDefinitionIsASymbol(
    language: Language, root: Node, text: (nat, nat) -> string, modulePath: string, name: string,
    s: Symbol, at: Path, p: Path, definition: Path, called: string)
    returns (t: Symbol)
    requires s in Symbols(language, root, text, modulePath, name)
    requires IsInside(language, root, s, at) && IsPath(root, at) && Holds(language, root, at, p)
    requires IsPath(root, p) && IsBehind(language, root, p, definition) && IsPath(root, definition)
    requires IsCalled(language, text, At(root, definition), called)
    ensures t in Symbols(language, root, text, modulePath, name)
    ensures t.path == p && t.parent == Some(s.path) && t.name == called
  {
    var symbols := Symbols(language, root, text, modulePath, name);
    SymbolsDescribeNodes(language, root, text, modulePath, name);
    DescribesPath(root, s);
    UnwrapIsBehind(language, root, p);
    UnwrapIsBehind(language, root, s.path);
    FoundAreHeld(language, root, at, p);
    NameIsCalled(language, text, At(root, definition), called);
    assert IsNamed(language, root, text, p);
    assert InsideOf(language, root, s) == at;
    hide *;
    EveryNamedDefinitionIsASymbol(language, root, text, modulePath, name, s, p);
    t := ChildOf(symbols, s.path, p);
    TopHasNoParent(root, modulePath, name);
    SymbolsAreNamedDefinitions(language, root, text, modulePath, name, t);
    NameOfSymbol(language, root, text, t);
  }

  lemma ChildOf(symbols: seq<Symbol>, parent: Path, p: Path) returns (t: Symbol)
    requires HasChild(symbols, parent, p)
    ensures t in symbols && t.path == p && t.parent == Some(parent)
  {
    t :| t in symbols && t.path == p && t.parent == Some(parent);
  }

  lemma TopHasNoParent(root: Node, modulePath: string, name: string)
    ensures ModuleSymbol(root, modulePath, name).parent.None?
  {
  }

  lemma NameOfSymbol(language: Language, root: Node, text: (nat, nat) -> string, t: Symbol)
    requires IsSymbolOfDefinition(language, root, text, t)
    ensures IsPath(root, t.path)
    ensures NameOf(language, text, At(root, Unwrap(language, root, t.path))) == Some(t.name)
  {
    hide NameOf, Unwrap;
  }

  /**
   And nothing else is a symbol: the list begins with the module's; every other symbol
   stands for a definition that the module or another symbol's definition holds, is
   called by its name, and extends the qualified name of the one it belongs to.
   */
  lemma EverySymbolIsAHeldDefinition(
    language: Language, root: Node, text: (nat, nat) -> string, modulePath: string, name: string, t: Symbol)
    returns (s: Symbol, at: Path, definition: Path)
    requires t in Symbols(language, root, text, modulePath, name)
    ensures Symbols(language, root, text, modulePath, name)[0] == Symbol([], name, modulePath, root.start, root.end, None)
    ensures t.parent.None? ==> t == Symbols(language, root, text, modulePath, name)[0]
    ensures t.parent.Some? ==>
              && s in Symbols(language, root, text, modulePath, name) && t.parent == Some(s.path)
              && t.qualifiedName == s.qualifiedName + "." + t.name
              && IsInside(language, root, s, at) && IsPath(root, at) && Holds(language, root, at, t.path)
              && IsPath(root, t.path) && IsBehind(language, root, t.path, definition) && IsPath(root, definition)
              && IsCalled(language, text, At(root, definition), t.name)
              && t.start == At(root, t.path).start && t.end == At(root, t.path).end
  {
    var top := ModuleSymbol(root, modulePath, name);
    var inner := Collected(language, root, text, [], top);
    SymbolsUnfold(language, root, text, modulePath, name);
    SymbolsDescribeNodes(language, root, text, modulePath, name);
    assert top == Symbol([], name, modulePath, root.start, root.end, None);
    s, at, definition := top, [], [];
    hide Symbols, Collected;
    InConcat([top], inner);
    if t in inner {
      CollectedHaveParents(language, root, text, [], top, t);
      TopIsNoChild(top, t);
      SymbolsAreNamedDefinitions(language, root, text, modulePath, name, t);
      NameOfSymbol(language, root, text, t);
      definition := Unwrap(language, root, t.path);
      UnwrapIsBehind(language, root, t.path);
      NameIsCalled(language, text, At(root, definition), t.name);
      hide IsBehind, IsCalled, Holds, BelongsTo, BelongsWithin, Unwrap, NameOf, DefinitionChildren;
      BelowBelong(language, root, text, [], top, t);
      if BelongsWithin(language, root, inner, t) {
        s := HolderOf(language, root, inner, t);
        at := Unwrap(language, root, s.path);
        UnwrapIsBehind(language, root, s.path);
      }
      WhatBelongs(language, root, s, at, t);
      FoundAreHeld(language, root, at, t.path);
    }
  }

  lemma TopIsNoChild(top: Symbol, t: Symbol)
    requires top.parent.None? && t.parent.Some?
    ensures t != top
  {
  }

  lemma HolderOf(language: Language, root: Node, symbols: seq<Symbol>, t: Symbol) returns (s: Symbol)
    requires BelongsWithin(language, root, symbols, t)
    ensures s in symbols && IsPath(root, s.path) && s.parent.Some?
    ensures BelongsTo(language, root, s, Unwrap(language, root, s.path), t)
  {
    s :| s in symbols && IsPath(root, s.path) && s.parent.Some?
      && BelongsTo(language, root, s, Unwrap(language, root, s.path), t);
  }

  lemma WhatBelongs(language: Language, root: Node, s: Symbol, at: Path, t: Symbol)
    requires BelongsTo(language, root, s, at, t)
    ensures IsPath(root, at) && t.path in DefinitionChildren(language, root, at)
    ensures t.parent == Some(s.path) && t.qualifiedName == s.qualifiedName + "." + t.name
  {
  }
}
