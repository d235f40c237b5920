/**
 The definitions of a file, collected from its syntax tree by the Python parser
 and by the JavaScript and TypeScript parser. They walk alike and differ in what
 they call a definition and in where they look for nested ones.
 */
module Definitions {
  import opened Prelude
  import opened SyntaxTree

  datatype Language = Python | Script

  /** A symbol; the path of its node stands for its identifier, which no other node shares. */
  datatype Symbol = Symbol(
    path: Path, name: string, qualifiedName: string, start: nat, end: nat, parent: Option<Path>)

  // ---- what a definition is ---------------------------------------------------------------

  function FirstFunctionDeclarator(nodes: seq<Node>, from: nat): (index: Option<nat>)
    ensures index.Some? ==> index.value < |nodes|
    decreases |nodes| - from
  {
    if from >= |nodes| then None
    else
      var value := FieldOf(nodes[from], Value);
      if nodes[from].kind == Declarator && value.Some? && nodes[from].children[value.value].kind == FunctionValue then
        Some(from)
      else FirstFunctionDeclarator(nodes, from + 1)
  }

  function DeclaredFunction(node: Node): Option<nat> {
    FirstFunctionDeclarator(node.children, 0)
  }

  function ExportedDeclaration(node: Node): (index: Option<nat>)
    ensures index.Some? ==> index.value < |node.children|
  {
    var declaration := FieldOf(node, Declaration);
    if declaration.None? then None
    else
      var declared := node.children[declaration.value];
      if declared.kind == ValueDeclaration && DeclaredFunction(declared).None? then None else declaration
  }

  predicate IsDefinition(language: Language, node: Node) {
    match language
    case Python => node.kind.Class? || node.kind.Function? || node.kind.Decorated?
    case Script =>
      match node.kind
      case Class | Function | Method | TypeDeclaration => true
      case Export => ExportedDeclaration(node).Some?
      case ValueDeclaration => DeclaredFunction(node).Some?
      case _ => false
  }

  /** The definition behind a decorator or an export. */
  function Unwrap(language: Language, root: Node, at: Path): (definition: Path)
    requires IsPath(root, at)
    ensures IsPath(root, definition) && at <= definition
  {
    var node := At(root, at);
    var inner := match language
      case Python => if node.kind.Decorated? then FieldOf(node, Definition) else None
      case Script => if node.kind.Export? then ExportedDeclaration(node) else None;
    if inner.None? then at else AtChild(root, at, inner.value); at + [inner.value]
  }

  function NameOf(language: Language, text: (nat, nat) -> string, node: Node): Option<string> {
    if language == Script && node.kind == ValueDeclaration then
      var declarator := DeclaredFunction(node);
      if declarator.None? then None else FieldText(text, node.children[declarator.value])
    else FieldText(text, node)
  }

  function FieldText(text: (nat, nat) -> string, node: Node): Option<string> {
    var name := FieldOf(node, Name);
    if name.None? then None else Some(text(node.children[name.value].start, node.children[name.value].end))
  }

  // ---- where definitions are looked for -------------------------------------------------------

  function ErrorChildren(root: Node, at: Path, n: nat): (paths: seq<Path>)
    requires IsPath(root, at) && n <= |At(root, at).children|
    ensures forall p :: p in paths ==> at < p && IsPath(root, p)
  {
    if n == 0 then []
    else
      AtChild(root, at, n - 1);
      ErrorChildren(root, at, n - 1) + if At(root, at).children[n - 1].kind == ErrorNode then [at + [n - 1]] else []
  }

  function BodyOf(root: Node, at: Path): (paths: seq<Path>)
    requires IsPath(root, at)
    ensures |paths| <= 1
    ensures forall p :: p in paths ==> at < p && IsPath(root, p)
  {
    var body := FieldOf(At(root, at), Body);
    if body.None? then [] else AtChild(root, at, body.value); [at + [body.value]]
  }

  function ContainersOf(language: Language, root: Node, at: Path): (containers: seq<Path>)
    requires IsPath(root, at)
    ensures forall c :: c in containers ==> at <= c && IsPath(root, c)
  {
    var node := At(root, at);
    match language
    case Python =>
      if node.kind.Class? || node.kind.Function? then
        BodyOf(root, at) + ErrorChildren(root, at, |node.children|)
      else [at]
    case Script =>
      if node.kind.Class? then BodyOf(root, at)
      else if node.kind.Export? then [at]
      else if IsDefinition(Script, node) then []
      else [at]
  }

  // ---- definitions right inside a node ---------------------------------------------------------

  predicate IsFoundIn(language: Language, root: Node, at: Path, p: Path) {
    at < p && IsPath(root, p) && IsDefinition(language, At(root, p))
  }

  function StartOf(root: Node, p: Path): nat
    requires IsPath(root, p)
  {
    At(root, p).start
  }

  /** Before the first path that starts later or at the same place. */
  function Insert(root: Node, p: Path, paths: seq<Path>): (more: seq<Path>)
    requires IsPath(root, p) && forall q :: q in paths ==> IsPath(root, q)
    ensures multiset(more) == multiset{p} + multiset(paths)
  {
    if paths == [] then [p]
    else if StartOf(root, p) <= StartOf(root, paths[0]) then [p] + paths
    else
      assert paths == [paths[0]] + paths[1..];
      [paths[0]] + Insert(root, p, paths[1..])
  }

  /** Sorted by where the nodes start; nodes that start together keep their order. */
  function SortedByStart(root: Node, paths: seq<Path>): (sorted: seq<Path>)
    requires forall q :: q in paths ==> IsPath(root, q)
    ensures multiset(sorted) == multiset(paths)
    ensures forall p :: p in sorted <==> p in paths
  {
    if paths == [] then []
    else
      assert paths == [paths[0]] + paths[1..];
      var rest := SortedByStart(root, paths[1..]);
      assert forall q :: q in rest ==> q in paths[1..] && IsPath(root, q);
      var sorted := Insert(root, paths[0], rest);
      SameElements(sorted, paths);
      sorted
  }

  lemma SameElements<T>(a: seq<T>, b: seq<T>)
    requires multiset(a) == multiset(b)
    ensures forall x :: x in a <==> x in b
  {
    forall x
      ensures x in a <==> x in b
    {
      assert x in multiset(a) <==> x in multiset(b);
    }
  }

  /** Among the first `n` children: the definitions, and through error nodes the definitions inside them. */
  function AmongChildren(language: Language, root: Node, at: Path, n: nat): (found: seq<Path>)
    requires IsPath(root, at) && n <= |At(root, at).children|
    ensures forall p :: p in found ==> IsFoundIn(language, root, at, p) && p[|at|] < n
    decreases Height(At(root, at)), 0, n
  {
    if n == 0 then []
    else
      AtChild(root, at, n - 1);
      LowerBelow(root, at, at + [n - 1]);
      var child := at + [n - 1];
      AmongChildren(language, root, at, n - 1)
      + if IsDefinition(language, At(root, child)) then [child]
        else if At(root, child).kind == ErrorNode then DefinitionChildren(language, root, child)
        else []
  }

  function InContainers(language: Language, root: Node, at: Path, containers: seq<Path>): (found: seq<Path>)
    requires IsPath(root, at) && forall c :: c in containers ==> at <= c && IsPath(root, c)
    ensures forall p :: p in found ==> IsFoundIn(language, root, at, p)
    decreases Height(At(root, at)), 1, |containers|
  {
    if containers == [] then []
    else
      LowerBelow(root, at, Last(containers));
      assert forall c :: c in Init(containers) ==> c in containers;
      InContainers(language, root, at, Init(containers))
      + AmongChildren(language, root, Last(containers), |At(root, Last(containers)).children|)
  }

  function DefinitionChildren(language: Language, root: Node, at: Path): (found: seq<Path>)
    requires IsPath(root, at)
    ensures forall p :: p in found ==> IsFoundIn(language, root, at, p)
    decreases Height(At(root, at)), 2, 0
  {
    SortedByStart(root, InContainers(language, root, at, ContainersOf(language, root, at)))
  }

  // ---- all definitions ---------------------------------------------------------------------------

  function SymbolOf(root: Node, path: Path, name: string, parent: Symbol): Symbol
    requires IsPath(root, path)
  {
    Symbol(
      path, name, parent.qualifiedName + "." + name, At(root, path).start, At(root, path).end, Some(parent.path))
  }

  predicate AreLower(root: Node, paths: seq<Path>, height: nat) {
    forall p :: p in paths ==> IsPath(root, p) && Height(At(root, p)) < height
  }

  lemma DefinitionChildrenAreLower(language: Language, root: Node, at: Path)
    requires IsPath(root, at)
    ensures AreLower(root, DefinitionChildren(language, root, at), Height(At(root, at)))
  {
    forall p | p in DefinitionChildren(language, root, at)
      ensures IsPath(root, p) && Height(At(root, p)) < Height(At(root, at))
    {
      assert IsFoundIn(language, root, at, p);
      LowerBelow(root, at, p);
    }
  }

  /** Every definition below a node, each directly before those inside it. */
  function Collected(language: Language, root: Node, text: (nat, nat) -> string, at: Path, parent: Symbol): seq<Symbol>
    requires IsPath(root, at)
    decreases Height(At(root, at)), 1, 0
  {
    DefinitionChildrenAreLower(language, root, at);
    CollectedFrom(
      language, root, text, DefinitionChildren(language, root, at), Height(At(root, at)), parent)
  }

  function CollectedFrom(
    language: Language, root: Node, text: (nat, nat) -> string, found: seq<Path>, height: nat, parent: Symbol)
    : seq<Symbol>
    requires AreLower(root, found, height)
    decreases height, 0, |found|
  {
    if found == [] then []
    else
      assert forall p :: p in Init(found) ==> p in found;
      CollectedFrom(language, root, text, Init(found), height, parent)
      + CollectedAt(language, root, text, Last(found), parent)
  }

  function CollectedAt(language: Language, root: Node, text: (nat, nat) -> string, outer: Path, parent: Symbol)
    : seq<Symbol>
    requires IsPath(root, outer)
    decreases Height(At(root, outer)), 2, 0
  {
    var definition := Unwrap(language, root, outer);
    var name := NameOf(language, text, At(root, definition));
    if name.None? then []
    else
      LowerBelow(root, outer, definition);
      var symbol := SymbolOf(root, outer, name.value, parent);
      [symbol] + Collected(language, root, text, definition, symbol)
  }

  function ModuleSymbol(root: Node, modulePath: string, name: string): Symbol {
    Symbol([], name, modulePath, root.start, root.end, None)
  }

  function Symbols(language: Language, root: Node, text: (nat, nat) -> string, modulePath: string, name: string)
    : seq<Symbol>
  {
    var top := ModuleSymbol(root, modulePath, name);
    [top] + Collected(language, root, text, [], top)
  }

  // ---- the walk itself -----------------------------------------------------------------------------

  method FindDefinitionChildren(language: Language, root: Node, at: Path) returns (found: seq<Path>)
    requires IsPath(root, at)
    ensures found == DefinitionChildren(language, root, at)
    decreases Height(At(root, at)), 1
  {
    found := [];
    var containers := ContainersOf(language, root, at);
    assert forall c :: c in containers ==> at <= c && IsPath(root, c);
    hide ContainersOf, AmongChildren, IsDefinition;
    for c := 0 to |containers|
      invariant forall d :: d in containers[..c] ==> d in containers
      invariant found == InContainers(language, root, at, containers[..c])
    {
      var container := containers[c];
      assert container in containers;
      assert Init(containers[..c + 1]) == containers[..c];
      LowerBelow(root, at, container);
      var inside := FindAmongChildren(language, root, container);
      found := found + inside;
    }
    assert containers[..|containers|] == containers;
    found := SortedByStart(root, found);
  }

  method FindAmongChildren(language: Language, root: Node, container: Path) returns (found: seq<Path>)
    requires IsPath(root, container)
    ensures found == AmongChildren(language, root, container, |At(root, container).children|)
    decreases Height(At(root, container)), 0
  {
    found := [];
    hide IsDefinition, DefinitionChildren, Height;
    for i := 0 to |At(root, container).children|
      invariant found == AmongChildren(language, root, container, i)
    {
      var child := container + [i];
      AtChild(root, container, i);
      LowerBelow(root, container, child);
      if IsDefinition(language, At(root, child)) {
        found := found + [child];
      } else if At(root, child).kind == ErrorNode {
        var inner := FindDefinitionChildren(language, root, child);
        found := found + inner;
      }
    }
  }

  lemma CollectedStep(
    language: Language, root: Node, text: (nat, nat) -> string, found: seq<Path>, height: nat, parent: Symbol, i: nat)
    requires AreLower(root, found, height) && i < |found|
    ensures IsPath(root, found[i]) && Height(At(root, found[i])) < height
    ensures AreLower(root, found[..i], height) && AreLower(root, found[..i + 1], height)
    ensures CollectedFrom(language, root, text, found[..i + 1], height, parent)
         == CollectedFrom(language, root, text, found[..i], height, parent)
            + CollectedAt(language, root, text, found[i], parent)
  {
    assert Init(found[..i + 1]) == found[..i] && found[i] in found;
    assert forall p :: p in found[..i + 1] ==> p in found;
    assert forall p :: p in found[..i] ==> p in found;
    hide CollectedAt, Height;
  }

  lemma CollectedAll(language: Language, root: Node, text: (nat, nat) -> string, at: Path, parent: Symbol)
    requires IsPath(root, at)
    ensures var found, height := DefinitionChildren(language, root, at), Height(At(root, at));
      && AreLower(root, found, height) && AreLower(root, found[..0], height)
      && Collected(language, root, text, at, parent)
      == CollectedFrom(language, root, text, found[..|found|], height, parent)
      && CollectedFrom(language, root, text, found[..0], height, parent) == []
  {
    DefinitionChildrenAreLower(language, root, at);
    var found := DefinitionChildren(language, root, at);
    assert found[..|found|] == found && found[..0] == [];
  }

  method CollectDefinitions(language: Language, root: Node, text: (nat, nat) -> string, at: Path, parent: Symbol)
    returns (collected: seq<Symbol>)
    requires IsPath(root, at)
    ensures collected == Collected(language, root, text, at, parent)
    decreases Height(At(root, at)), 1
  {
    hide *;
    collected := [];
    var found := FindDefinitionChildren(language, root, at);
    ghost var height := Height(At(root, at));
    CollectedAll(language, root, text, at, parent);
    for i := 0 to |found|
      invariant AreLower(root, found[..i], height)
      invariant collected == CollectedFrom(language, root, text, found[..i], height, parent)
    {
      CollectedStep(language, root, text, found, height, parent, i);
      var child := found[i];
      var inner := CollectDefinition(language, root, text, child, parent);
      collected := collected + inner;
    }
  }

  /** One definition and everything inside it; a definition without a name is passed over. */
  method CollectDefinition(language: Language, root: Node, text: (nat, nat) -> string, child: Path, parent: Symbol)
    returns (collected: seq<Symbol>)
    requires IsPath(root, child)
    ensures collected == CollectedAt(language, root, text, child, parent)
    decreases Height(At(root, child)), 2
  {
    var definition := Unwrap(language, root, child);
    var name := NameOf(language, text, At(root, definition));
    if name.None? {
      return [];
    }
    LowerBelow(root, child, definition);
    var symbol := SymbolOf(root, child, name.value, parent);
    hide Collected, Unwrap, NameOf, SymbolOf;
    var inner := CollectDefinitions(language, root, text, definition, symbol);
    collected := [symbol] + inner;
  }
}
