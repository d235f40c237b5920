/** What the search for nested definitions finds: which nodes, in which order, and how often. */
module NestedDefinitions {
  import opened Prelude
  import opened SyntaxTree
  import opened Definitions

  // ---- which nodes -------------------------------------------------------------------------

  /** The path leads down to a definition, and through nothing but error nodes. */
  predicate Reaches(language: Language, node: Node, path: Path) {
    && path != [] && path[0] < |node.children|
    && var child := node.children[path[0]];
    if |path| == 1 then IsDefinition(language, child)
    else child.kind == ErrorNode && Reaches(language, child, path[1..])
  }

  /** From the node at `at` the search reaches the node at `p`. */
  predicate Leads(language: Language, root: Node, at: Path, p: Path)
    requires IsPath(root, at)
  {
    at < p && Reaches(language, At(root, at), p[|at|..])
  }

  lemma LeadsThroughChild(language: Language, root: Node, at: Path, i: nat, p: Path)
    requires IsPath(root, at) && i < |At(root, at).children| && at + [i] <= p
    ensures IsPath(root, at + [i])
    ensures Leads(language, root, at, p) <==>
            if p == at + [i] then IsDefinition(language, At(root, p))
            else At(root, at + [i]).kind == ErrorNode && Leads(language, root, at + [i], p)
  {
    AtChild(root, at, i);
    assert p[|at|..][0] == i && p[|at|..][1..] == p[|at + [i]|..];
  }

  lemma FirstStep(at: Path, p: Path)
    requires at < p
    ensures at + [p[|at|]] <= p
  {
  }

  /** What one child contributes to the search. */
  function AmongChild(language: Language, root: Node, child: Path): seq<Path>
    requires IsPath(root, child)
  {
    if IsDefinition(language, At(root, child)) then [child]
    else if At(root, child).kind == ErrorNode then DefinitionChildren(language, root, child)
    else []
  }

  lemma AmongUnfolds(language: Language, root: Node, at: Path, n: nat)
    requires IsPath(root, at) && 0 < n <= |At(root, at).children|
    ensures IsPath(root, at + [n - 1]) && Height(At(root, at + [n - 1])) < Height(At(root, at))
    ensures AmongChildren(language, root, at, n)
         == AmongChildren(language, root, at, n - 1) + AmongChild(language, root, at + [n - 1])
  {
    AtChild(root, at, n - 1);
    LowerBelow(root, at, at + [n - 1]);
    hide IsDefinition, DefinitionChildren, Height;
  }

  lemma NothingAmongNone(language: Language, root: Node, at: Path)
    requires IsPath(root, at)
    ensures AmongChildren(language, root, at, 0) == []
  {
  }

  /** An error node is searched through its own children. */
  lemma ErrorNodeUnfolds(language: Language, root: Node, at: Path)
    requires IsPath(root, at) && At(root, at).kind == ErrorNode
    ensures forall p :: p in DefinitionChildren(language, root, at) <==>
                        p in AmongChildren(language, root, at, |At(root, at).children|)
    ensures multiset(DefinitionChildren(language, root, at))
         == multiset(AmongChildren(language, root, at, |At(root, at).children|))
  {
    assert ContainersOf(language, root, at) == [at] && Init([at]) == [];
    hide AmongChildren;
    var among := AmongChildren(language, root, at, |At(root, at).children|);
    assert InContainers(language, root, at, [at]) == [] + among == among;
  }

  lemma {:induction false} AmongChildrenLead(language: Language, root: Node, at: Path, n: nat, p: Path)
    requires IsPath(root, at) && n <= |At(root, at).children|
    ensures p in AmongChildren(language, root, at, n) <==> Leads(language, root, at, p) && p[|at|] < n
    decreases Height(At(root, at)), 0, n
  {
    hide *;
    LeadIsDeeper(language, root, at, p);
    if n > 0 {
      AmongUnfolds(language, root, at, n);
      AmongChildrenLead(language, root, at, n - 1, p);
      AmongChildLeads(language, root, at, n - 1, p);
    } else {
      NothingAmongNone(language, root, at);
    }
  }

  lemma LeadIsDeeper(language: Language, root: Node, at: Path, p: Path)
    requires IsPath(root, at)
    ensures Leads(language, root, at, p) ==> at < p && p[|at|] < |At(root, at).children|
  {
  }

  lemma {:induction false} AmongChildLeads(language: Language, root: Node, at: Path, i: nat, p: Path)
    requires IsPath(root, at) && i < |At(root, at).children|
    requires IsPath(root, at + [i]) && Height(At(root, at + [i])) < Height(At(root, at))
    ensures p in AmongChild(language, root, at + [i]) <==> Leads(language, root, at, p) && p[|at|] == i
    decreases Height(At(root, at + [i])), 2, 0
  {
    var child := at + [i];
    if child <= p {
      LeadsThroughChild(language, root, at, i, p);
    } else if at < p {
      FirstStep(at, p);
    }
    if At(root, child).kind == ErrorNode {
      ErrorNodeLeads(language, root, child, p);
    }
    LeadIsDeeper(language, root, child, p);
    hide Leads, DefinitionChildren, Height;
  }

  lemma {:induction false} ErrorNodeLeads(language: Language, root: Node, at: Path, p: Path)
    requires IsPath(root, at) && At(root, at).kind == ErrorNode
    ensures p in DefinitionChildren(language, root, at) <==> Leads(language, root, at, p)
    decreases Height(At(root, at)), 1, 0
  {
    hide *;
    ErrorNodeUnfolds(language, root, at);
    AmongChildrenLead(language, root, at, |At(root, at).children|, p);
    LeadIsDeeper(language, root, at, p);
  }

  /** A container of the node that leads to this path. */
  ghost predicate LeadsFrom(language: Language, root: Node, containers: seq<Path>, p: Path) {
    exists c :: c in containers && IsPath(root, c) && Leads(language, root, c, p)
  }

  lemma InContainersUnfolds(language: Language, root: Node, at: Path, containers: seq<Path>)
    requires IsPath(root, at) && containers != [] && forall c :: c in containers ==> at <= c && IsPath(root, c)
    ensures IsPath(root, Last(containers))
    ensures forall c :: c in containers <==> c in Init(containers) || c == Last(containers)
    ensures InContainers(language, root, at, containers)
         == InContainers(language, root, at, Init(containers))
            + AmongChildren(language, root, Last(containers), |At(root, Last(containers)).children|)
  {
    assert containers == Init(containers) + [Last(containers)];
    hide AmongChildren;
  }

  lemma {:induction false} InContainersLead(
    language: Language, root: Node, at: Path, containers: seq<Path>, p: Path)
    requires IsPath(root, at) && forall c :: c in containers ==> at <= c && IsPath(root, c)
    ensures p in InContainers(language, root, at, containers) <==> LeadsFrom(language, root, containers, p)
  {
    if containers != [] {
      InContainersUnfolds(language, root, at, containers);
      var last := Last(containers);
      hide InContainers, AmongChildren, Leads, IsPath;
      InContainersLead(language, root, at, Init(containers), p);
      AmongChildrenLead(language, root, last, |At(root, last).children|, p);
      LeadIsDeeper(language, root, last, p);
    }
  }

  /** The nodes start one after another, or together. */
  predicate InOrder(root: Node, paths: seq<Path>) {
    forall i, j :: 0 <= i < j < |paths| ==> NotAfter(root, paths[i], paths[j])
  }

  predicate NotAfter(root: Node, p: Path, q: Path) {
    IsPath(root, p) && IsPath(root, q) && StartOf(root, p) <= StartOf(root, q)
  }

  /**
   The search finds exactly the definitions that a container of the node holds,
   directly or behind error nodes, and finds them in source order.
   */
  lemma DefinitionChildrenAreReached(language: Language, root: Node, at: Path)
    requires IsPath(root, at)
    ensures var found := DefinitionChildren(language, root, at);
      && (forall p :: p in found <==> LeadsFrom(language, root, ContainersOf(language, root, at), p))
      && InOrder(root, found)
  {
    var containers := ContainersOf(language, root, at);
    var unsorted := InContainers(language, root, at, containers);
    SortedInOrder(root, unsorted);
    hide LeadsFrom, InOrder, IsPath, InContainers, ContainersOf, SortedByStart;
    forall p
      ensures p in DefinitionChildren(language, root, at) <==> LeadsFrom(language, root, containers, p)
    {
      InContainersLead(language, root, at, containers, p);
    }
  }

  lemma NotAfterIsTransitive(root: Node, p: Path, q: Path, r: Path)
    requires NotAfter(root, p, q) && NotAfter(root, q, r)
    ensures NotAfter(root, p, r)
  {
  }

  lemma OrderCons(root: Node, p: Path, paths: seq<Path>)
    requires InOrder(root, paths) && forall q :: q in paths ==> NotAfter(root, p, q)
    ensures InOrder(root, [p] + paths)
  {
    hide NotAfter;
  }

  lemma HeadIsFirst(root: Node, paths: seq<Path>, q: Path)
    requires InOrder(root, paths) && paths != [] && q in paths && IsPath(root, paths[0])
    ensures NotAfter(root, paths[0], q)
    ensures InOrder(root, paths[1..])
  {
    var k :| 0 <= k < |paths| && paths[k] == q;
  }

  lemma {:induction false} InsertKeepsOrder(root: Node, p: Path, paths: seq<Path>)
    requires IsPath(root, p) && (forall q :: q in paths ==> IsPath(root, q)) && InOrder(root, paths)
    ensures InOrder(root, Insert(root, p, paths))
  {
    if paths == [] {
      assert InOrder(root, [p]);
    } else {
      assert paths == [paths[0]] + paths[1..] && paths[0] in paths;
      HeadIsFirst(root, paths, paths[0]);
      if StartOf(root, p) <= StartOf(root, paths[0]) {
        assert NotAfter(root, p, paths[0]);
        forall q | q in paths
          ensures NotAfter(root, p, q)
        {
          HeadIsFirst(root, paths, q);
          NotAfterIsTransitive(root, p, paths[0], q);
        }
        OrderCons(root, p, paths);
      } else {
        assert NotAfter(root, paths[0], p);
        hide NotAfter, InOrder, StartOf, IsPath;
        InsertKeepsOrder(root, p, paths[1..]);
        var rest := Insert(root, p, paths[1..]);
        forall q | q in rest
          ensures NotAfter(root, paths[0], q)
        {
          assert q in multiset(rest);
          if q != p {
            assert q in paths[1..];
            HeadIsFirst(root, paths, q);
          }
        }
        OrderCons(root, paths[0], rest);
      }
    }
  }

  lemma {:induction false} SortedInOrder(root: Node, paths: seq<Path>)
    requires forall q :: q in paths ==> IsPath(root, q)
    ensures InOrder(root, SortedByStart(root, paths))
  {
    if paths == [] {
      assert SortedByStart(root, paths) == [];
    } else {
      hide InOrder, IsPath, Insert;
      assert paths == [paths[0]] + paths[1..];
      SortedInOrder(root, paths[1..]);
      InsertKeepsOrder(root, paths[0], SortedByStart(root, paths[1..]));
    }
  }

  /** The nodes among these that start at this place. */
  function StartingAt(root: Node, paths: seq<Path>, start: nat): seq<Path>
    requires forall q :: q in paths ==> IsPath(root, q)
  {
    if paths == [] then []
    else
      assert paths == [paths[0]] + paths[1..];
      (if StartOf(root, paths[0]) == start then [paths[0]] else []) + StartingAt(root, paths[1..], start)
  }

  lemma StartingAtCons(root: Node, p: Path, paths: seq<Path>, start: nat)
    requires IsPath(root, p) && forall q :: q in paths ==> IsPath(root, q)
    ensures forall q :: q in [p] + paths ==> IsPath(root, q)
    ensures StartingAt(root, [p] + paths, start)
         == if StartOf(root, p) == start then [p] + StartingAt(root, paths, start) else StartingAt(root, paths, start)
  {
    assert ([p] + paths)[1..] == paths;
    assert forall q :: q in [p] + paths ==> q == p || q in paths;
    hide StartOf, IsPath;
    assert [] + StartingAt(root, paths, start) == StartingAt(root, paths, start);
  }

  lemma {:induction false} InsertIsStable(root: Node, p: Path, paths: seq<Path>, start: nat)
    requires IsPath(root, p) && forall q :: q in paths ==> IsPath(root, q)
    ensures forall q :: q in Insert(root, p, paths) ==> IsPath(root, q)
    ensures StartingAt(root, Insert(root, p, paths), start)
         == if StartOf(root, p) == start then [p] + StartingAt(root, paths, start) else StartingAt(root, paths, start)
    decreases |paths|
  {
    StartingAtCons(root, p, paths, start);
    SameElements(Insert(root, p, paths), [p] + paths);
    if paths == [] {
      assert [p] + paths == [p];
    } else {
      assert paths == [paths[0]] + paths[1..];
      StartingAtCons(root, paths[0], paths[1..], start);
      if StartOf(root, paths[0]) < StartOf(root, p) {
        InsertIsStable(root, p, paths[1..], start);
        StartingAtCons(root, paths[0], Insert(root, p, paths[1..]), start);
      }
    }
  }

  /** Sorting keeps the order of the nodes that start at the same place. */
  lemma {:induction false} SortedIsStable(root: Node, paths: seq<Path>, start: nat)
    requires forall q :: q in paths ==> IsPath(root, q)
    ensures StartingAt(root, SortedByStart(root, paths), start) == StartingAt(root, paths, start)
    decreases |paths|
  {
    if paths != [] {
      assert paths == [paths[0]] + paths[1..];
      SortedIsStable(root, paths[1..], start);
      InsertIsStable(root, paths[0], SortedByStart(root, paths[1..]), start);
      StartingAtCons(root, paths[0], paths[1..], start);
    }
  }

  // ---- how often ------------------------------------------------------------------------------

  /** No way to a definition leads through another definition. */
  lemma {:induction false} ReachesOnce(language: Language, node: Node, a: Path, b: Path)
    requires Reaches(language, node, a) && Reaches(language, node, b) && a <= b
    ensures a == b
  {
    if |a| > 1 {
      ReachesOnce(language, node.children[a[0]], a[1..], b[1..]);
    }
  }

  lemma LeadsOnce(language: Language, root: Node, c: Path, d: Path, p: Path, q: Path)
    requires IsPath(root, c) && IsPath(root, d) && |c| == |d|
    requires Leads(language, root, c, p) && Leads(language, root, d, q) && p <= q
    ensures p == q && c == d
  {
    assert c == q[..|c|] && d == q[..|d|];
    assert p[|c|..] <= q[|c|..];
    ReachesOnce(language, At(root, c), p[|c|..], q[|c|..]);
    assert p == p[..|c|] + p[|c|..] && q == q[..|c|] + q[|c|..];
  }

  lemma {:induction false} AmongChildrenAreDistinct(language: Language, root: Node, at: Path, n: nat)
    requires IsPath(root, at) && n <= |At(root, at).children|
    ensures Distinct(AmongChildren(language, root, at, n))
    decreases Height(At(root, at)), 0, n
  {
    hide *;
    if n > 0 {
      AmongUnfolds(language, root, at, n);
      AmongChildrenAreDistinct(language, root, at, n - 1);
      var earlier, child := AmongChildren(language, root, at, n - 1), AmongChild(language, root, at + [n - 1]);
      AmongChildIsDistinct(language, root, at + [n - 1]);
      forall p | p in earlier
        ensures p !in child
      {
        AmongChildrenLead(language, root, at, n - 1, p);
        AmongChildLeads(language, root, at, n - 1, p);
      }
      DistinctConcat(earlier, child);
    } else {
      NothingAmongNone(language, root, at);
      NoneAreDistinct<Path>();
    }
  }

  lemma NoneAreDistinct<T>()
    ensures Distinct<T>([])
  {
  }

  lemma {:induction false} AmongChildIsDistinct(language: Language, root: Node, child: Path)
    requires IsPath(root, child)
    ensures Distinct(AmongChild(language, root, child))
    decreases Height(At(root, child)), 2, 0
  {
    if !IsDefinition(language, At(root, child)) && At(root, child).kind == ErrorNode {
      ErrorNodeUnfolds(language, root, child);
      AmongChildrenAreDistinct(language, root, child, |At(root, child).children|);
      hide DefinitionChildren, AmongChildren, Distinct;
      DistinctOfPermutation(
        AmongChildren(language, root, child, |At(root, child).children|), DefinitionChildren(language, root, child));
    }
  }

  predicate AllOfLength(paths: seq<Path>, n: nat) {
    forall p :: p in paths ==> |p| == n
  }

  lemma {:induction false} InContainersAreDistinct(
    language: Language, root: Node, at: Path, containers: seq<Path>, n: nat)
    requires IsPath(root, at) && forall c :: c in containers ==> at <= c && IsPath(root, c)
    requires Distinct(containers) && AllOfLength(containers, n)
    ensures Distinct(InContainers(language, root, at, containers))
  {
    if containers != [] {
      InContainersUnfolds(language, root, at, containers);
      assert Distinct(Init(containers)) && Last(containers) !in Init(containers) && AllOfLength(Init(containers), n);
      assert |Last(containers)| == n;
      hide InContainers, AmongChildren, Leads, IsPath, Distinct;
      var last := Last(containers);
      var earlier, inside := InContainers(language, root, at, Init(containers)),
        AmongChildren(language, root, last, |At(root, last).children|);
      InContainersAreDistinct(language, root, at, Init(containers), n);
      AmongChildrenAreDistinct(language, root, last, |At(root, last).children|);
      forall p | p in earlier
        ensures p !in inside
      {
        InContainersLead(language, root, at, Init(containers), p);
        AmongChildrenLead(language, root, last, |At(root, last).children|, p);
        if p in inside {
          var c :| c in Init(containers) && IsPath(root, c) && Leads(language, root, c, p);
          LeadsOnce(language, root, c, last, p, p);
        }
      }
      DistinctConcat(earlier, inside);
    }
  }

  /** The path is that of one of the first `n` children. */
  predicate IsChildBefore(at: Path, n: nat, p: Path) {
    |p| == |at| + 1 && p[..|at|] == at && p[|at|] < n
  }

  lemma {:induction false} ErrorChildrenAreChildren(root: Node, at: Path, n: nat)
    requires IsPath(root, at) && n <= |At(root, at).children|
    ensures forall p :: p in ErrorChildren(root, at, n) ==> IsChildBefore(at, n, p)
    ensures Distinct(ErrorChildren(root, at, n))
  {
    if n > 0 {
      ErrorChildrenAreChildren(root, at, n - 1);
      var earlier, last := ErrorChildren(root, at, n - 1),
        if At(root, at).children[n - 1].kind == ErrorNode then [at + [n - 1]] else [];
      assert ErrorChildren(root, at, n) == earlier + last;
      assert IsChildBefore(at, n, at + [n - 1]) && !IsChildBefore(at, n - 1, at + [n - 1]);
      hide IsPath, At, ErrorChildren, Distinct;
      OneIsDistinct(at + [n - 1]);
      DistinctConcat(earlier, last);
    }
  }

  lemma OneIsDistinct<T>(x: T)
    ensures Distinct([x]) && Distinct<T>([])
  {
  }

  lemma {:induction false} ErrorChildIs(root: Node, at: Path, n: nat, i: nat)
    requires IsPath(root, at) && n <= |At(root, at).children| && i < |At(root, at).children|
    ensures at + [i] in ErrorChildren(root, at, n) <==> i < n && At(root, at).children[i].kind == ErrorNode
  {
    if n > 0 {
      ErrorChildIs(root, at, n - 1, i);
      assert (at + [i])[|at|] == i && (at + [n - 1])[|at|] == n - 1;
      hide IsPath, At;
    }
  }

  lemma ErrorChildrenAreErrors(root: Node, at: Path)
    requires IsPath(root, at)
    ensures var errors := ErrorChildren(root, at, |At(root, at).children|);
      && Distinct(errors) && AllOfLength(errors, |at| + 1)
      && forall i: nat :: i < |At(root, at).children| ==>
                            (at + [i] in errors <==> At(root, at).children[i].kind == ErrorNode)
  {
    var n := |At(root, at).children|;
    ErrorChildrenAreChildren(root, at, n);
    hide IsPath, At, ErrorChildren, Distinct;
    forall i: nat | i < n
      ensures at + [i] in ErrorChildren(root, at, n) <==> At(root, at).children[i].kind == ErrorNode
    {
      ErrorChildIs(root, at, n, i);
    }
  }

  /** The body of the definition is itself an error node, and one that holds definitions. */
  predicate RepeatsBody(language: Language, root: Node, at: Path)
    requires IsPath(root, at)
  {
    var node := At(root, at);
    && language == Python && (node.kind.Class? || node.kind.Function?)
    && BodyOf(root, at) != [] && At(root, BodyOf(root, at)[0]).kind == ErrorNode
    && AmongChildren(
         language, root, BodyOf(root, at)[0], |At(root, BodyOf(root, at)[0]).children|) != []
  }

  lemma {:induction false} InContainersConcat(
    language: Language, root: Node, at: Path, a: seq<Path>, b: seq<Path>)
    requires IsPath(root, at) && forall c :: c in a + b ==> at <= c && IsPath(root, c)
    ensures (forall c :: c in a || c in b ==> at <= c && IsPath(root, c))
    ensures InContainers(language, root, at, a + b)
         == InContainers(language, root, at, a) + InContainers(language, root, at, b)
  {
    assert forall c :: c in a || c in b ==> c in a + b;
    if b == [] {
      assert a + b == a;
    } else {
      assert Init(a + b) == a + Init(b) && Last(a + b) == Last(b);
      InContainersUnfolds(language, root, at, a + b);
      InContainersUnfolds(language, root, at, b);
      hide InContainers, AmongChildren, IsPath;
      InContainersConcat(language, root, at, a, Init(b));
      Associates(
        InContainers(language, root, at, a), InContainers(language, root, at, Init(b)),
        AmongChildren(language, root, Last(b), |At(root, Last(b)).children|));
    }
  }

  lemma ContainersOfPythonDefinition(root: Node, at: Path)
    requires IsPath(root, at) && (At(root, at).kind.Class? || At(root, at).kind.Function?)
    ensures ContainersOf(Python, root, at) == BodyOf(root, at) + ErrorChildren(root, at, |At(root, at).children|)
    ensures BodyOf(root, at) != [] ==>
              var body := BodyOf(root, at)[0];
              && |body| == |at| + 1 && IsPath(root, body) && BodyOf(root, at) == [body]
              && (body in ErrorChildren(root, at, |At(root, at).children|) <==> At(root, body).kind == ErrorNode)
  {
    var body := FieldOf(At(root, at), Body);
    if body.Some? {
      AtChild(root, at, body.value);
      ErrorChildrenAreErrors(root, at);
    }
  }

  lemma InContainersOfOne(language: Language, root: Node, at: Path, container: Path)
    requires IsPath(root, at) && IsPath(root, container) && at <= container
    ensures InContainers(language, root, at, [container])
         == AmongChildren(language, root, container, |At(root, container).children|)
  {
    assert Init([container]) == [];
    hide AmongChildren, IsPath;
    assert [] + AmongChildren(language, root, container, |At(root, container).children|)
        == AmongChildren(language, root, container, |At(root, container).children|);
  }

  /** The definition at `p` stands in a body that is itself an error node. */
  predicate RepeatsAt(language: Language, root: Node, at: Path, p: Path)
    requires IsPath(root, at)
  {
    var node := At(root, at);
    && language == Python && (node.kind.Class? || node.kind.Function?)
    && BodyOf(root, at) != [] && At(root, BodyOf(root, at)[0]).kind == ErrorNode
    && p in AmongChildren(language, root, BodyOf(root, at)[0], |At(root, BodyOf(root, at)[0]).children|)
  }

  lemma CountInConcat<T>(a: seq<T>, b: seq<T>, x: T)
    requires Distinct(a) && Distinct(b)
    ensures multiset(a + b)[x] > 1 <==> x in a && x in b
  {
    CountsOfDistinct(a);
    CountsOfDistinct(b);
    assert multiset(a + b) == multiset(a) + multiset(b);
    assert multiset(a)[x] <= 1 && multiset(b)[x] <= 1;
    assert x in a <==> x in multiset(a);
    assert x in b <==> x in multiset(b);
    hide Distinct;
  }

  lemma CountInDistinct<T>(a: seq<T>, x: T)
    requires Distinct(a)
    ensures multiset(a)[x] <= 1
  {
    CountsOfDistinct(a);
  }

  /** What the body holds is found again exactly when the body is one of the error children. */
  lemma FoundInBodyAgain(root: Node, at: Path, body: Path, errors: seq<Path>, p: Path)
    requires IsPath(root, at) && IsPath(root, body) && |body| == |at| + 1
    requires AllOfLength(errors, |at| + 1) && forall c :: c in errors ==> at <= c && IsPath(root, c)
    requires p in AmongChildren(Python, root, body, |At(root, body).children|)
    ensures p in InContainers(Python, root, at, errors) <==> body in errors
  {
    AmongChildrenLead(Python, root, body, |At(root, body).children|, p);
    InContainersLead(Python, root, at, errors, p);
    hide InContainers, AmongChildren, IsPath, At, Leads;
    if LeadsFrom(Python, root, errors, p) {
      var c :| c in errors && IsPath(root, c) && Leads(Python, root, c, p);
      LeadsOnce(Python, root, c, body, p, p);
    }
  }

  lemma FoundTwiceInBody(root: Node, at: Path, body: Path, errors: seq<Path>, p: Path)
    requires IsPath(root, at) && IsPath(root, body) && at <= body && |body| == |at| + 1
    requires Distinct(errors) && AllOfLength(errors, |at| + 1)
    requires forall c :: c in errors ==> at <= c && IsPath(root, c)
    requires body in errors <==> At(root, body).kind == ErrorNode
    ensures forall c :: c in [body] + errors ==> at <= c && IsPath(root, c)
    ensures multiset(InContainers(Python, root, at, [body] + errors))[p] > 1 <==>
            At(root, body).kind == ErrorNode && p in AmongChildren(Python, root, body, |At(root, body).children|)
  {
    hide *;
    assert forall c :: c in [body] + errors ==> c == body || c in errors;
    var among := AmongChildren(Python, root, body, |At(root, body).children|);
    var others := InContainers(Python, root, at, errors);
    InContainersConcat(Python, root, at, [body], errors);
    InContainersOfOne(Python, root, at, body);
    AmongChildrenAreDistinct(Python, root, body, |At(root, body).children|);
    InContainersAreDistinct(Python, root, at, errors, |at| + 1);
    CountInConcat(among, others, p);
    if p in among {
      FoundInBodyAgain(root, at, body, errors, p);
    }
  }

  lemma LevelContainersFindOnce(language: Language, root: Node, at: Path, containers: seq<Path>, n: nat, p: Path)
    requires IsPath(root, at) && forall c :: c in containers ==> at <= c && IsPath(root, c)
    requires Distinct(containers) && AllOfLength(containers, n)
    ensures multiset(InContainers(language, root, at, containers))[p] <= 1
  {
    hide *;
    InContainersAreDistinct(language, root, at, containers, n);
    CountInDistinct(InContainers(language, root, at, containers), p);
  }

  lemma CountIsUnsorted(language: Language, root: Node, at: Path, p: Path)
    requires IsPath(root, at)
    ensures multiset(DefinitionChildren(language, root, at))[p]
         == multiset(InContainers(language, root, at, ContainersOf(language, root, at)))[p]
  {
    hide InContainers, ContainersOf;
  }

  lemma PythonFindsTwice(root: Node, at: Path, p: Path)
    requires IsPath(root, at) && (At(root, at).kind.Class? || At(root, at).kind.Function?)
    ensures multiset(InContainers(Python, root, at, ContainersOf(Python, root, at)))[p] > 1 <==>
            RepeatsAt(Python, root, at, p)
  {
    ContainersOfPythonDefinition(root, at);
    ErrorChildrenAreErrors(root, at);
    var body, errors := BodyOf(root, at), ErrorChildren(root, at, |At(root, at).children|);
    hide InContainers, ContainersOf, AmongChildren, ErrorChildren, BodyOf, Distinct, IsPath, At, AllOfLength;
    if body != [] {
      assert body[0] in body;
      FoundTwiceInBody(root, at, body[0], errors, p);
    } else {
      assert body + errors == errors;
      LevelContainersFindOnce(Python, root, at, errors, |at| + 1, p);
    }
  }

  lemma OthersFindOnce(language: Language, root: Node, at: Path, p: Path)
    requires IsPath(root, at) && !(language == Python && (At(root, at).kind.Class? || At(root, at).kind.Function?))
    ensures multiset(InContainers(language, root, at, ContainersOf(language, root, at)))[p] <= 1
  {
    var containers := ContainersOf(language, root, at);
    assert |containers| <= 1;
    var n := if containers == [] then 0 else |containers[0]|;
    assert Distinct(containers) && AllOfLength(containers, n);
    hide InContainers, ContainersOf, Distinct, AllOfLength, IsPath, At;
    LevelContainersFindOnce(language, root, at, containers, n, p);
  }

  /** Exactly the definitions in an error body are found more than once. */
  lemma FoundTwiceInErrorBodies(language: Language, root: Node, at: Path, p: Path)
    requires IsPath(root, at)
    ensures multiset(DefinitionChildren(language, root, at))[p] > 1 <==> RepeatsAt(language, root, at, p)
  {
    CountIsUnsorted(language, root, at, p);
    hide InContainers, ContainersOf, DefinitionChildren, AmongChildren, BodyOf, IsPath, At;
    if language == Python && (At(root, at).kind.Class? || At(root, at).kind.Function?) {
      PythonFindsTwice(root, at, p);
    } else {
      OthersFindOnce(language, root, at, p);
    }
  }

  /**
   No definition is found twice inside one node, through however many error nodes,
   except when the body field of a Python definition names an error node that holds
   definitions: then the body is searched as a body and again as an error.
   */
  lemma DefinitionChildrenAreDistinct(language: Language, root: Node, at: Path)
    requires IsPath(root, at)
    ensures Distinct(DefinitionChildren(language, root, at)) <==> !RepeatsBody(language, root, at)
  {
    var found := DefinitionChildren(language, root, at);
    CountsOfDistinct(found);
    RepeatsSomewhere(language, root, at);
    hide DefinitionChildren, RepeatsBody, RepeatsAt, Distinct;
    forall p
      ensures multiset(found)[p] <= 1 <==> !RepeatsAt(language, root, at, p)
    {
      FoundTwiceInErrorBodies(language, root, at, p);
    }
  }

  lemma RepeatsSomewhere(language: Language, root: Node, at: Path)
    requires IsPath(root, at)
    ensures RepeatsBody(language, root, at) <==> exists p :: RepeatsAt(language, root, at, p)
  {
    hide AmongChildren, BodyOf, IsPath, At;
    if RepeatsBody(language, root, at) {
      var body := BodyOf(root, at)[0];
      assert RepeatsAt(language, root, at, AmongChildren(language, root, body, |At(root, body).children|)[0]);
    }
  }

  lemma ContainersAreLevel(language: Language, root: Node, at: Path) returns (n: nat)
    requires IsPath(root, at)
    ensures AllOfLength(ContainersOf(language, root, at), n)
  {
    ErrorChildrenAreErrors(root, at);
    if language == Python && (At(root, at).kind.Class? || At(root, at).kind.Function?) {
      n := |at| + 1;
      ContainersOfPythonDefinition(root, at);
    } else {
      var containers := ContainersOf(language, root, at);
      n := if containers == [] then 0 else |containers[0]|;
    }
  }

  /** Of two definitions found inside one node neither holds the other. */
  lemma FoundAreUnrelated(language: Language, root: Node, at: Path, p: Path, q: Path)
    requires IsPath(root, at)
    requires p in DefinitionChildren(language, root, at) && q in DefinitionChildren(language, root, at) && p <= q
    ensures p == q
  {
    DefinitionChildrenAreReached(language, root, at);
    var containers := ContainersOf(language, root, at);
    var n := ContainersAreLevel(language, root, at);
    hide DefinitionChildren, ContainersOf, IsPath, Leads;
    var c :| c in containers && IsPath(root, c) && Leads(language, root, c, p);
    var d :| d in containers && IsPath(root, d) && Leads(language, root, d, q);
    assert |c| == n && |d| == n;
    LeadsOnce(language, root, c, d, p, q);
  }
}
