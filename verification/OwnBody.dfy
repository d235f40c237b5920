/**
 The own body of a Python definition: everything in its body except nested
 definitions, collected with an explicit stack.
 */
module OwnBody {
  import opened Prelude
  import opened SyntaxTree

  predicate IsDefinitionKind(kind: Kind) {
    kind.Class? || kind.Function? || kind.Decorated?
  }

  predicate Nowhere(kind: Kind) {
    false
  }

  predicate ArePaths(root: Node, paths: seq<Path>) {
    forall p :: p in paths ==> IsPath(root, p)
  }

  lemma PathsOfInit(root: Node, paths: seq<Path>)
    requires ArePaths(root, paths) && paths != []
    ensures ArePaths(root, Init(paths)) && IsPath(root, Last(paths))
  {
    assert forall p :: p in Init(paths) ==> p in paths;
    assert Last(paths) in paths;
  }

  function HeightOf(root: Node, paths: seq<Path>): nat
    requires ArePaths(root, paths)
  {
    if paths == [] then 0
    else PathsOfInit(root, paths); Max(Height(At(root, Last(paths))), HeightOf(root, Init(paths)))
  }

  function ChildrenOf(root: Node, at: Path, n: nat): (paths: seq<Path>)
    requires IsPath(root, at) && n <= |At(root, at).children|
    ensures ArePaths(root, paths) && HeightOf(root, paths) < Height(At(root, at))
  {
    if n == 0 then []
    else
      AtChild(root, at, n - 1);
      LowerBelow(root, at, at + [n - 1]);
      ChildrenOf(root, at, n - 1) + [at + [n - 1]]
  }

  function AllChildren(root: Node, at: Path): (paths: seq<Path>)
    requires IsPath(root, at)
    ensures ArePaths(root, paths) && HeightOf(root, paths) < Height(At(root, at))
  {
    ChildrenOf(root, at, |At(root, at).children|)
  }

  // ---- the recursive walk -------------------------------------------------------------------

  /** A node and everything below it, last child first, leaving out what is skipped. */
  function Visited(root: Node, at: Path, skips: Kind -> bool): seq<Path>
    requires IsPath(root, at)
    decreases Height(At(root, at)), 0, 0
  {
    if skips(At(root, at).kind) then [] else [at] + AllVisited(root, AllChildren(root, at), skips)
  }

  function AllVisited(root: Node, paths: seq<Path>, skips: Kind -> bool): seq<Path>
    requires ArePaths(root, paths)
    decreases HeightOf(root, paths), 1, |paths|
  {
    if paths == [] then []
    else
      PathsOfInit(root, paths);
      Visited(root, Last(paths), skips) + AllVisited(root, Init(paths), skips)
  }

  /** The definition behind a decorator, if there is one. */
  function DefinitionOf(root: Node, at: Path): (definition: Option<Path>)
    requires IsPath(root, at)
    ensures definition.Some? ==> IsPath(root, definition.value) && at <= definition.value
  {
    if At(root, at).kind.Decorated? then
      var inner := FieldOf(At(root, at), Definition);
      if inner.None? then None else AtChild(root, at, inner.value); Some(at + [inner.value])
    else Some(at)
  }

  /** The body of the definition; a node without one is its own body. */
  function BodyOf(root: Node, definition: Path): (body: Path)
    requires IsPath(root, definition)
    ensures IsPath(root, body) && definition <= body
  {
    var field := FieldOf(At(root, definition), Body);
    if field.None? then definition else AtChild(root, definition, field.value); definition + [field.value]
  }

  function OwnNodes(root: Node, at: Path): seq<Path>
    requires IsPath(root, at)
  {
    var definition := DefinitionOf(root, at);
    if definition.None? then []
    else AllVisited(root, AllChildren(root, BodyOf(root, definition.value)), IsDefinitionKind)
  }

  // ---- the walk with a stack --------------------------------------------------------------------

  lemma {:induction false} VisitedConcat(root: Node, a: seq<Path>, b: seq<Path>, skips: Kind -> bool)
    requires ArePaths(root, a) && ArePaths(root, b)
    ensures ArePaths(root, a + b)
    ensures AllVisited(root, a + b, skips) == AllVisited(root, b, skips) + AllVisited(root, a, skips)
  {
    if b == [] {
      assert a + b == a && [] + AllVisited(root, a, skips) == AllVisited(root, a, skips);
    } else {
      PathsOfInit(root, b);
      VisitedConcat(root, a, Init(b), skips);
      assert Init(a + b) == a + Init(b) && Last(a + b) == Last(b);
      hide Visited, ArePaths, HeightOf;
      Associates(Visited(root, Last(b), skips), AllVisited(root, Init(b), skips), AllVisited(root, a, skips));
    }
  }

  lemma PopVisits(root: Node, stack: seq<Path>, skips: Kind -> bool)
    requires ArePaths(root, stack) && stack != []
    ensures ArePaths(root, Init(stack)) && IsPath(root, Last(stack))
    ensures ArePaths(root, Init(stack) + AllChildren(root, Last(stack)))
    ensures AllVisited(root, stack, skips)
         == if skips(At(root, Last(stack)).kind) then AllVisited(root, Init(stack), skips)
            else [Last(stack)] + AllVisited(root, Init(stack) + AllChildren(root, Last(stack)), skips)
  {
    PathsOfInit(root, stack);
    var below := AllChildren(root, Last(stack));
    VisitedConcat(root, Init(stack), below, skips);
    assert AllVisited(root, stack, skips)
        == Visited(root, Last(stack), skips) + AllVisited(root, Init(stack), skips);
    if skips(At(root, Last(stack)).kind) {
      assert [] + AllVisited(root, Init(stack), skips) == AllVisited(root, Init(stack), skips);
    } else {
      assert Visited(root, Last(stack), skips) == [Last(stack)] + AllVisited(root, below, skips);
      hide AllVisited, Visited, ArePaths, HeightOf;
      Associates([Last(stack)], AllVisited(root, below, skips), AllVisited(root, Init(stack), skips));
    }
  }

  /** Pops a node, takes it unless it is skipped, and pushes its children. */
  method WalkStack(root: Node, start: seq<Path>, skips: Kind -> bool) returns (collected: seq<Path>)
    requires ArePaths(root, start)
    ensures collected == AllVisited(root, start, skips)
  {
    collected := [];
    var stack := start;
    assert [] + AllVisited(root, start, skips) == AllVisited(root, start, skips);
    hide AllVisited, Visited, ArePaths, HeightOf, AllChildren;
    while stack != []
      invariant ArePaths(root, stack)
      invariant AllVisited(root, start, skips) == collected + AllVisited(root, stack, skips)
      decreases |AllVisited(root, stack, Nowhere)|
    {
      PopVisits(root, stack, skips);
      PopVisits(root, stack, Nowhere);
      ChildrenVisits(root, stack);
      var current := Last(stack);
      stack := Init(stack);
      if skips(At(root, current).kind) {
        continue;
      }
      collected := collected + [current];
      stack := stack + AllChildren(root, current);
    }
    NothingVisited(root, skips);
  }

  lemma NothingVisited(root: Node, skips: Kind -> bool)
    ensures ArePaths(root, []) && AllVisited(root, [], skips) == []
  {
  }

  lemma ChildrenVisits(root: Node, stack: seq<Path>)
    requires ArePaths(root, stack) && stack != []
    ensures ArePaths(root, Init(stack)) && IsPath(root, Last(stack))
    ensures ArePaths(root, Init(stack) + AllChildren(root, Last(stack)))
    ensures |AllVisited(root, Init(stack), Nowhere)| < |AllVisited(root, stack, Nowhere)|
    ensures |AllVisited(root, Init(stack) + AllChildren(root, Last(stack)), Nowhere)|
         < |AllVisited(root, stack, Nowhere)|
  {
    PopVisits(root, stack, Nowhere);
    VisitedConcat(root, Init(stack), AllChildren(root, Last(stack)), Nowhere);
    hide AllVisited, Visited, ArePaths, HeightOf, AllChildren;
  }

  method WalkOwnBody(root: Node, at: Path) returns (collected: seq<Path>)
    requires IsPath(root, at)
    ensures collected == OwnNodes(root, at)
  {
    var definition := DefinitionOf(root, at);
    if definition.None? {
      return [];
    }
    collected := WalkStack(root, AllChildren(root, BodyOf(root, definition.value)), IsDefinitionKind);
  }

  /** The plain walk, over every node; imports are read from it. */
  method Walk(root: Node, at: Path) returns (collected: seq<Path>)
    requires IsPath(root, at)
    ensures collected == Visited(root, at, Nowhere)
  {
    assert ArePaths(root, [at]) && Init([at]) == [];
    assert AllVisited(root, [at], Nowhere) == Visited(root, at, Nowhere) + [] == Visited(root, at, Nowhere);
    collected := WalkStack(root, [at], Nowhere);
  }

  // ---- which nodes are visited ----------------------------------------------------------------------

  /** Nothing is skipped on the way down from the node, its own end included. */
  predicate OpenBelow(node: Node, path: Path, skips: Kind -> bool) {
    path == [] ||
    (path[0] < |node.children| && !skips(node.children[path[0]].kind)
     && OpenBelow(node.children[path[0]], path[1..], skips))
  }

  /** The walk reaches `p` from `at`. */
  predicate IsOpen(root: Node, at: Path, p: Path, skips: Kind -> bool)
    requires IsPath(root, at)
  {
    at <= p && OpenBelow(At(root, at), p[|at|..], skips)
  }

  lemma OpenThroughChild(root: Node, at: Path, i: nat, p: Path, skips: Kind -> bool)
    requires IsPath(root, at) && i < |At(root, at).children| && at + [i] <= p
    ensures IsPath(root, at + [i])
    ensures IsOpen(root, at, p, skips) <==>
            !skips(At(root, at + [i]).kind) && IsOpen(root, at + [i], p, skips)
  {
    AtChild(root, at, i);
    assert p[|at|..][0] == i && p[|at|..][1..] == p[|at + [i]|..];
  }

  lemma NoChildren(root: Node, at: Path, skips: Kind -> bool)
    requires IsPath(root, at)
    ensures AllVisited(root, ChildrenOf(root, at, 0), skips) == []
    ensures Distinct(AllVisited(root, ChildrenOf(root, at, 0), skips))
  {
  }

  lemma {:induction false} ChildrenVisited(root: Node, at: Path, n: nat, p: Path, skips: Kind -> bool)
    requires IsPath(root, at) && n <= |At(root, at).children|
    ensures p in AllVisited(root, ChildrenOf(root, at, n), skips) <==>
            at < p && IsOpen(root, at, p, skips) && p[|at|] < n
    decreases Height(At(root, at)), 0, n
  {
    hide *;
    if n > 0 {
      var child := at + [n - 1];
      ChildrenUnfold(root, at, n, skips);
      ChildrenVisited(root, at, n - 1, p, skips);
      NodeIsVisited(root, child, p, skips);
      ChildOrOther(root, at, n - 1, p, skips);
    } else {
      NoChildren(root, at, skips);
    }
  }

  lemma ChildrenUnfold(root: Node, at: Path, n: nat, skips: Kind -> bool)
    requires IsPath(root, at) && 0 < n <= |At(root, at).children|
    ensures IsPath(root, at + [n - 1]) && Height(At(root, at + [n - 1])) < Height(At(root, at))
    ensures AllVisited(root, ChildrenOf(root, at, n), skips)
         == Visited(root, at + [n - 1], skips) + AllVisited(root, ChildrenOf(root, at, n - 1), skips)
  {
    AtChild(root, at, n - 1);
    LowerBelow(root, at, at + [n - 1]);
    var paths := ChildrenOf(root, at, n);
    assert Init(paths) == ChildrenOf(root, at, n - 1) && Last(paths) == at + [n - 1];
    hide Visited, Height, HeightOf, ChildrenOf;
  }

  lemma ChildOrOther(root: Node, at: Path, i: nat, p: Path, skips: Kind -> bool)
    requires IsPath(root, at) && i < |At(root, at).children| && IsPath(root, at + [i])
    ensures !skips(At(root, at + [i]).kind) && IsOpen(root, at + [i], p, skips) <==>
            at < p && IsOpen(root, at, p, skips) && p[|at|] == i
  {
    assert at < p ==> at + [p[|at|]] <= p;
    if at + [i] <= p {
      OpenThroughChild(root, at, i, p, skips);
    }
  }

  lemma {:induction false} NodeIsVisited(root: Node, at: Path, p: Path, skips: Kind -> bool)
    requires IsPath(root, at)
    ensures p in Visited(root, at, skips) <==> !skips(At(root, at).kind) && IsOpen(root, at, p, skips)
    decreases Height(At(root, at)), 1, 0
  {
    if !skips(At(root, at).kind) {
      ChildrenVisited(root, at, |At(root, at).children|, p, skips);
      if p == at {
        assert p[|at|..] == [];
      } else if at < p {
        assert p[|at|..][0] == p[|at|];
      }
      hide AllVisited, ChildrenOf, Height;
    }
  }

  lemma {:induction false} OpenIsPath(node: Node, path: Path, skips: Kind -> bool)
    requires OpenBelow(node, path, skips)
    ensures IsPath(node, path)
  {
    if path != [] {
      OpenIsPath(node.children[path[0]], path[1..], skips);
    }
  }

  /** The plain walk reaches every node below its start, and no others. */
  lemma WalkReachesAll(root: Node, at: Path, p: Path)
    requires IsPath(root, at)
    ensures p in Visited(root, at, Nowhere) <==> at <= p && IsPath(root, p)
  {
    NodeIsVisited(root, at, p, Nowhere);
    if at <= p {
      AtConcat(root, at, p[|at|..]);
      assert p == at + p[|at|..];
      PathIsOpen(At(root, at), p[|at|..]);
    }
  }

  lemma {:induction false} PathIsOpen(node: Node, path: Path)
    ensures OpenBelow(node, path, Nowhere) <==> IsPath(node, path)
  {
    if path != [] && path[0] < |node.children| {
      PathIsOpen(node.children[path[0]], path[1..]);
    }
  }

  // ---- no node twice --------------------------------------------------------------------------------

  lemma {:induction false} ChildrenVisitedOnce(root: Node, at: Path, n: nat, skips: Kind -> bool)
    requires IsPath(root, at) && n <= |At(root, at).children|
    ensures Distinct(AllVisited(root, ChildrenOf(root, at, n), skips))
    decreases Height(At(root, at)), 0, n
  {
    hide *;
    if n > 0 {
      var child := at + [n - 1];
      ChildrenUnfold(root, at, n, skips);
      VisitedOnce(root, child, skips);
      ChildrenVisitedOnce(root, at, n - 1, skips);
      var here, others := Visited(root, child, skips), AllVisited(root, ChildrenOf(root, at, n - 1), skips);
      forall p | p in here
        ensures p !in others
      {
        NodeIsVisited(root, child, p, skips);
        ChildrenVisited(root, at, n - 1, p, skips);
        ChildOrOther(root, at, n - 1, p, skips);
      }
      DistinctConcat(here, others);
    } else {
      NoChildren(root, at, skips);
    }
  }

  lemma {:induction false} VisitedOnce(root: Node, at: Path, skips: Kind -> bool)
    requires IsPath(root, at)
    ensures Distinct(Visited(root, at, skips))
    decreases Height(At(root, at)), 1, 0
  {
    if !skips(At(root, at).kind) {
      var n := |At(root, at).children|;
      ChildrenVisitedOnce(root, at, n, skips);
      ChildrenVisited(root, at, n, at, skips);
      hide AllVisited, ChildrenOf, Height;
      DistinctConcat([at], AllVisited(root, ChildrenOf(root, at, n), skips));
    }
  }

  // ---- whose body a node is in ---------------------------------------------------------------------------

  predicate IsDefinitionAt(root: Node, at: Path)
    requires IsPath(root, at)
  {
    IsDefinitionKind(At(root, at).kind)
  }

  /** The nearest definition strictly around a node; the root if there is none. */
  function Nearest(root: Node, p: Path): (definition: Path)
    requires IsPath(root, p)
    ensures IsPath(root, definition) && definition <= p
    decreases |p|
  {
    if p == [] then []
    else
      PrefixIsPath(root, Init(p), p);
      if IsDefinitionAt(root, Init(p)) then Init(p) else Nearest(root, Init(p))
  }

  lemma {:induction false} OpenSnoc(node: Node, path: Path, i: nat, skips: Kind -> bool)
    requires IsPath(node, path + [i])
    ensures IsPath(node, path)
    ensures OpenBelow(node, path + [i], skips) <==>
            OpenBelow(node, path, skips) && !skips(At(node, path + [i]).kind)
  {
    if path == [] {
      assert path + [i] == [i] && [i][1..] == [];
    } else {
      assert (path + [i])[1..] == path[1..] + [i];
      OpenSnoc(node.children[path[0]], path[1..], i, skips);
    }
  }

  lemma OpenOneMore(root: Node, body: Path, p: Path)
    requires IsPath(root, p) && body < p
    ensures IsPath(root, body) && IsPath(root, Init(p)) && body <= Init(p)
    ensures IsOpen(root, body, p, IsDefinitionKind) <==>
            IsOpen(root, body, Init(p), IsDefinitionKind) && !IsDefinitionAt(root, p)
  {
    PrefixIsPath(root, body, p);
    PrefixIsPath(root, Init(p), p);
    var rest := Init(p)[|body|..];
    assert p[|body|..] == rest + [Last(p)];
    OpenSnoc(At(root, body), rest, Last(p), IsDefinitionKind);
  }

  /** Below a body: a node is open exactly when it is no definition and its nearest one is around the body. */
  lemma {:induction false} OpenIsNearest(root: Node, definition: Path, body: Path, p: Path)
    requires IsPath(root, p) && definition <= body < p
    requires IsPath(root, definition) && (definition == [] || IsDefinitionAt(root, definition))
    requires IsPath(root, body)
    requires body == definition || (|body| == |definition| + 1 && !IsDefinitionAt(root, body))
    ensures IsOpen(root, body, p, IsDefinitionKind) <==> !IsDefinitionAt(root, p) && Nearest(root, p) == definition
    decreases |p|
  {
    OpenOneMore(root, body, p);
    hide IsOpen, IsDefinitionAt, IsPath;
    if Init(p) == body {
      BodyIsOpen(root, body);
      if body != definition {
        assert Init(body) == definition;
      }
    } else {
      OpenIsNearest(root, definition, body, Init(p));
    }
  }

  lemma BodyIsOpen(root: Node, body: Path)
    requires IsPath(root, body)
    ensures IsOpen(root, body, body, IsDefinitionKind)
  {
    assert body[|body|..] == [];
  }

  /**
   A place whose own body is asked for: the root, a definition or a decorated one,
   with a definition behind its decorators, and with a body that is no definition itself.
   */
  predicate IsUnit(root: Node, at: Path) {
    && IsPath(root, at)
    && (at == [] || IsDefinitionAt(root, at))
    && var definition := DefinitionOf(root, at);
    definition.Some? ==>
      && (definition.value == [] || IsDefinitionAt(root, definition.value))
      && !At(root, definition.value).kind.Decorated?
      && (BodyOf(root, definition.value) == definition.value || !IsDefinitionAt(root, BodyOf(root, definition.value)))
  }

  /**
   The own body holds exactly the nodes inside the body, other than definitions,
   whose nearest definition is this one; and it holds each of them once.
   */
  lemma OwnBodyIsNearest(root: Node, at: Path, p: Path)
    requires IsUnit(root, at)
    ensures var definition := DefinitionOf(root, at);
      p in OwnNodes(root, at) <==>
      && definition.Some? && IsPath(root, p) && BodyOf(root, definition.value) < p
      && !IsDefinitionAt(root, p) && Nearest(root, p) == definition.value
    ensures Distinct(OwnNodes(root, at))
  {
    var definition := DefinitionOf(root, at);
    if definition.Some? {
      var body := BodyOf(root, definition.value);
      var n := |At(root, body).children|;
      ChildrenVisited(root, body, n, p, IsDefinitionKind);
      ChildrenVisitedOnce(root, body, n, IsDefinitionKind);
      if body < p {
        if IsOpen(root, body, p, IsDefinitionKind) {
          OpenIsPath(At(root, body), p[|body|..], IsDefinitionKind);
          AtConcat(root, body, p[|body|..]);
          assert body + p[|body|..] == p && p[|body|..][0] == p[|body|];
        }
        if IsPath(root, p) {
          hide AllVisited, ChildrenOf, Height, IsOpen, IsDefinitionAt, IsPath, Nearest;
          OpenIsNearest(root, definition.value, body, p);
        }
      }
    }
  }

  /** No node is in the bodies of two definitions; a decorated definition and its wrapper count as one. */
  lemma EachNodeHasOneBody(root: Node, at: Path, other: Path, p: Path)
    requires IsUnit(root, at) && IsUnit(root, other)
    requires p in OwnNodes(root, at) && p in OwnNodes(root, other)
    ensures DefinitionOf(root, at) == DefinitionOf(root, other)
  {
    SameSome(DefinitionOf(root, at), DefinitionOf(root, other));
    hide *;
    OwnBodyIsNearest(root, at, p);
    OwnBodyIsNearest(root, other, p);
  }

  lemma SameSome(a: Option<Path>, b: Option<Path>)
    ensures a.Some? && b.Some? && a.value == b.value ==> a == b
  {
  }

  /**
   A node that is no definition is in the own body of its nearest definition if it
   lies inside that definition's body. If it lies in the heading instead, or among
   the decorators, it is in no own body at all.
   */
  lemma NodeIsInTheBodyAroundIt(root: Node, p: Path, other: Path)
    requires IsPath(root, p) && !IsDefinitionAt(root, p) && IsUnit(root, Nearest(root, p)) && IsUnit(root, other)
    ensures if !At(root, Nearest(root, p)).kind.Decorated? && BodyOf(root, Nearest(root, p)) < p then
              p in OwnNodes(root, Nearest(root, p))
            else p !in OwnNodes(root, other)
  {
    DefinitionIsNotDecorated(root, other);
    hide *;
    OwnBodyIsNearest(root, Nearest(root, p), p);
    OwnBodyIsNearest(root, other, p);
    if !At(root, Nearest(root, p)).kind.Decorated? {
      PlainDefinition(root, Nearest(root, p));
    }
  }

  lemma DefinitionIsNotDecorated(root: Node, at: Path)
    requires IsUnit(root, at)
    ensures var definition := DefinitionOf(root, at);
      definition.Some? ==> !At(root, definition.value).kind.Decorated?
  {
  }

  lemma PlainDefinition(root: Node, at: Path)
    requires IsPath(root, at) && !At(root, at).kind.Decorated?
    ensures DefinitionOf(root, at) == Some(at)
  {
  }

  // ---- the own body by kinds and fields ---------------------------------------------------------------

  /** The node whose body is asked for: the one behind the decorators, or the node itself. */
  ghost predicate IsBehindDecorators(root: Node, at: Path, definition: Path)
    requires IsPath(root, at)
  {
    if At(root, at).kind == Decorated then exists i: nat :: Names(At(root, at), Definition, i) && definition == at + [i]
    else definition == at
  }

  /** Its body: the child the body field names, or the node itself if there is none. */
  ghost predicate IsBody(root: Node, definition: Path, body: Path)
    requires IsPath(root, definition)
  {
    var node := At(root, definition);
    if exists i: nat :: Names(node, Body, i) then exists i: nat :: Names(node, Body, i) && body == definition + [i]
    else body == definition
  }

  /** From the body down to the node, its own end included, stands no class, function or decorated definition. */
  ghost predicate IsFreeOfDefinitions(root: Node, body: Path, p: Path)
    requires IsPath(root, p)
  {
    forall q :: body < q <= p && IsPath(root, q) ==> At(root, q).kind !in {Kind.Class, Function, Decorated}
  }

  lemma {:induction false} OpenIsFree(root: Node, body: Path, p: Path)
    requires IsPath(root, p) && body <= p
    ensures IsPath(root, body)
    ensures IsOpen(root, body, p, IsDefinitionKind) <==> IsFreeOfDefinitions(root, body, p)
    decreases |p|
  {
    PrefixIsPath(root, body, p);
    if body == p {
      BodyIsOpen(root, body);
    } else {
      OpenOneMore(root, body, p);
      OpenIsFree(root, body, Init(p));
      FreeOneMore(root, body, p);
      hide IsOpen, IsFreeOfDefinitions, IsPath;
    }
  }

  lemma PrefixOfOneMore(q: Path, p: Path)
    requires p != []
    ensures q <= p <==> q <= Init(p) || q == p
  {
  }

  lemma FreeOneMore(root: Node, body: Path, p: Path)
    requires p != [] && IsPath(root, p) && IsPath(root, Init(p)) && body <= Init(p)
    ensures IsFreeOfDefinitions(root, body, p) <==>
            IsFreeOfDefinitions(root, body, Init(p)) && !IsDefinitionAt(root, p)
  {
    forall q | IsPath(root, q)
      ensures q <= p <==> q <= Init(p) || q == p
    {
      PrefixOfOneMore(q, p);
    }
    hide IsPath, At;
  }

  lemma DefinitionIsBehind(root: Node, at: Path, definition: Path)
    requires IsPath(root, at)
    ensures DefinitionOf(root, at) == Some(definition) <==> IsBehindDecorators(root, at, definition)
  {
    var inner := FieldOf(At(root, at), Definition);
    assert inner.Some? ==> Names(At(root, at), Definition, inner.value);
    hide IsPath, At;
  }

  lemma BodyIs(root: Node, definition: Path, body: Path)
    requires IsPath(root, definition)
    ensures BodyOf(root, definition) == body <==> IsBody(root, definition, body)
  {
    var field := FieldOf(At(root, definition), Body);
    assert field.Some? ==> Names(At(root, definition), Body, field.value);
    hide IsPath, At;
  }

  /**
   The own body of any node, by kinds and fields: every node strictly below the body of
   the definition behind its decorators from which no class, function or decorated
   definition separates it. A decorated node without a definition has none.
   */
  lemma OwnBodyByKinds(root: Node, at: Path, definition: Path, body: Path, p: Path)
    requires IsPath(root, at) && IsBehindDecorators(root, at, definition)
    requires IsPath(root, definition) && IsBody(root, definition, body)
    ensures p in OwnNodes(root, at) <==> body < p && IsPath(root, p) && IsFreeOfDefinitions(root, body, p)
  {
    DefinitionIsBehind(root, at, definition);
    BodyIs(root, definition, body);
    assert IsPath(root, body);
    var n := |At(root, body).children|;
    ChildrenVisited(root, body, n, p, IsDefinitionKind);
    if body < p {
      if IsOpen(root, body, p, IsDefinitionKind) {
        OpenIsPath(At(root, body), p[|body|..], IsDefinitionKind);
        AtConcat(root, body, p[|body|..]);
        assert body + p[|body|..] == p && p[|body|..][0] == p[|body|];
      }
      if IsPath(root, p) {
        hide AllVisited, ChildrenOf, Height, IsOpen, IsPath, IsFreeOfDefinitions, IsBody, IsBehindDecorators;
        OpenIsFree(root, body, p);
      }
    }
  }

  lemma NothingBehindDecorators(root: Node, at: Path)
    requires IsPath(root, at) && forall definition :: !IsBehindDecorators(root, at, definition)
    ensures OwnNodes(root, at) == []
  {
    if DefinitionOf(root, at).Some? {
      DefinitionIsBehind(root, at, DefinitionOf(root, at).value);
    }
    hide IsBehindDecorators;
  }

  // ---- in which order ------------------------------------------------------------------------------------

  /** The stack gives one node before another: around it, or below a later sibling. */
  predicate PopsBefore(p: Path, q: Path) {
    q != [] && (p == [] || p[0] > q[0] || (p[0] == q[0] && PopsBefore(p[1..], q[1..])))
  }

  ghost predicate InPopOrder(paths: seq<Path>) {
    forall i, j :: 0 <= i < j < |paths| ==> PopsBefore(paths[i], paths[j])
  }

  lemma {:induction false} OuterPopsBefore(p: Path, q: Path)
    requires p < q
    ensures PopsBefore(p, q)
  {
    if p != [] {
      OuterPopsBefore(p[1..], q[1..]);
    }
  }

  lemma {:induction false} LaterPopsBefore(at: Path, p: Path, q: Path)
    requires at < p && at < q && p[|at|] > q[|at|]
    ensures PopsBefore(p, q)
  {
    if at != [] {
      LaterPopsBefore(at[1..], p[1..], q[1..]);
    }
  }

  lemma PopOrderConcat(a: seq<Path>, b: seq<Path>)
    requires InPopOrder(a) && InPopOrder(b) && forall p, q :: p in a && q in b ==> PopsBefore(p, q)
    ensures InPopOrder(a + b)
  {
    hide PopsBefore;
  }

  lemma PopOrderOfOne(p: Path)
    ensures InPopOrder([p]) && InPopOrder([])
  {
  }

  lemma {:induction false} ChildrenInPopOrder(root: Node, at: Path, n: nat, skips: Kind -> bool)
    requires IsPath(root, at) && n <= |At(root, at).children|
    ensures InPopOrder(AllVisited(root, ChildrenOf(root, at, n), skips))
    decreases Height(At(root, at)), 0, n
  {
    hide *;
    if n > 0 {
      var child := at + [n - 1];
      ChildrenUnfold(root, at, n, skips);
      VisitedInPopOrder(root, child, skips);
      ChildrenInPopOrder(root, at, n - 1, skips);
      var here, others := Visited(root, child, skips), AllVisited(root, ChildrenOf(root, at, n - 1), skips);
      forall p, q | p in here && q in others
        ensures PopsBefore(p, q)
      {
        NodeIsVisited(root, child, p, skips);
        ChildOrOther(root, at, n - 1, p, skips);
        ChildrenVisited(root, at, n - 1, q, skips);
        LaterPopsBefore(at, p, q);
      }
      PopOrderConcat(here, others);
    } else {
      NoChildren(root, at, skips);
      PopOrderOfOne(at);
    }
  }

  lemma {:induction false} VisitedInPopOrder(root: Node, at: Path, skips: Kind -> bool)
    requires IsPath(root, at)
    ensures InPopOrder(Visited(root, at, skips))
    decreases Height(At(root, at)), 1, 0
  {
    PopOrderOfOne(at);
    if !skips(At(root, at).kind) {
      var n := |At(root, at).children|;
      ChildrenInPopOrder(root, at, n, skips);
      var below := AllVisited(root, ChildrenOf(root, at, n), skips);
      assert Visited(root, at, skips) == [at] + below;
      hide AllVisited, ChildrenOf, Height, Visited, PopsBefore, InPopOrder, IsPath;
      forall q | q in below
        ensures PopsBefore(at, q)
      {
        ChildrenVisited(root, at, n, q, skips);
        OuterPopsBefore(at, q);
      }
      PopOrderConcat([at], below);
    }
  }

  /** The own body comes out with every node before those below it, and the last of siblings first. */
  lemma OwnBodyIsInPopOrder(root: Node, at: Path)
    requires IsPath(root, at)
    ensures InPopOrder(OwnNodes(root, at))
  {
    var definition := DefinitionOf(root, at);
    PopOrderOfOne(at);
    if definition.Some? {
      var body := BodyOf(root, definition.value);
      hide InPopOrder, Height;
      ChildrenInPopOrder(root, body, |At(root, body).children|, IsDefinitionKind);
    }
  }
}
