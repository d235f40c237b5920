/** Concrete syntax trees: nodes with byte spans, reached by paths of child indices. */
module SyntaxTree {
  import opened Prelude

  /** The node types the indexer tells apart. */
  datatype Kind =
    | Class | Function | Method | TypeDeclaration | ValueDeclaration | Declarator | FunctionValue
    | Export | Decorated | ErrorNode | Call | Import | Other

  datatype Field = Body | Name | Declaration | Definition | Value

  /** A node with its named children; a field names one of them by its index. */
  datatype Node = Node(kind: Kind, start: nat, end: nat, children: seq<Node>, fields: map<Field, nat>)

  type Path = seq<nat>

  function FieldOf(node: Node, field: Field): (index: Option<nat>)
    ensures index.Some? ==> index.value < |node.children|
  {
    if field in node.fields && node.fields[field] < |node.children| then Some(node.fields[field]) else None
  }

  /** The field names a child, and this is its place. */
  predicate Names(node: Node, field: Field, i: nat) {
    field in node.fields && node.fields[field] == i && i < |node.children|
  }

  // ---- paths ---------------------------------------------------------------------------

  predicate IsPath(node: Node, path: Path) {
    path == [] || (path[0] < |node.children| && IsPath(node.children[path[0]], path[1..]))
  }

  function At(node: Node, path: Path): Node
    requires IsPath(node, path)
  {
    if path == [] then node else At(node.children[path[0]], path[1..])
  }

  lemma {:induction false} AtConcat(node: Node, p: Path, q: Path)
    requires IsPath(node, p)
    ensures IsPath(node, p + q) <==> IsPath(At(node, p), q)
    ensures IsPath(node, p + q) ==> At(node, p + q) == At(At(node, p), q)
  {
    if p == [] {
      assert p + q == q;
    } else {
      AtConcat(node.children[p[0]], p[1..], q);
      assert (p + q)[1..] == p[1..] + q;
    }
  }

  lemma AtChild(node: Node, path: Path, i: nat)
    requires IsPath(node, path)
    ensures IsPath(node, path + [i]) <==> i < |At(node, path).children|
    ensures IsPath(node, path + [i]) ==> At(node, path + [i]) == At(node, path).children[i]
  {
    AtConcat(node, path, [i]);
    assert [i][1..] == [];
  }

  /** Every beginning of a path is a path. */
  lemma PrefixIsPath(node: Node, p: Path, q: Path)
    requires IsPath(node, q) && p <= q
    ensures IsPath(node, p) && IsPath(At(node, p), q[|p|..]) && At(node, q) == At(At(node, p), q[|p|..])
    decreases q
  {
    if p != [] {
      PrefixIsPath(node.children[p[0]], p[1..], q[1..]);
      assert q[1..][|p[1..]|..] == q[|p|..];
    } else {
      assert q[0..] == q;
    }
  }

  // ---- height ---------------------------------------------------------------------------

  function Height(node: Node): nat {
    1 + HeightOfAll(node.children)
  }

  function HeightOfAll(nodes: seq<Node>): nat {
    if nodes == [] then 0 else Max(Height(nodes[0]), HeightOfAll(nodes[1..]))
  }

  lemma {:induction false} HeightOfOne(nodes: seq<Node>, i: nat)
    requires i < |nodes|
    ensures Height(nodes[i]) <= HeightOfAll(nodes)
  {
    if i > 0 {
      HeightOfOne(nodes[1..], i - 1);
    }
  }

  lemma {:induction false} DeeperIsLower(node: Node, path: Path)
    requires IsPath(node, path)
    ensures Height(At(node, path)) <= Height(node)
    ensures path != [] ==> Height(At(node, path)) < Height(node)
    decreases path
  {
    if path != [] {
      HeightOfOne(node.children, path[0]);
      DeeperIsLower(node.children[path[0]], path[1..]);
    }
  }

  lemma LowerBelow(root: Node, p: Path, q: Path)
    requires IsPath(root, q) && p <= q
    ensures IsPath(root, p) && Height(At(root, q)) <= Height(At(root, p))
    ensures p < q ==> Height(At(root, q)) < Height(At(root, p))
  {
    PrefixIsPath(root, p, q);
    DeeperIsLower(At(root, p), q[|p|..]);
  }

  // ---- spans -----------------------------------------------------------------------------

  predicate Inside(inner: Node, outer: Node) {
    outer.start <= inner.start && inner.end <= outer.end
  }

  predicate Apart(a: Node, b: Node) {
    a.end <= b.start || b.end <= a.start
  }

  /** The span laws: children lie inside their parent, one after another. */
  predicate Lawful(node: Node) {
    && node.start <= node.end
    && (forall i :: 0 <= i < |node.children| ==> Inside(node.children[i], node) && Lawful(node.children[i]))
    && (forall i, j :: 0 <= i < j < |node.children| ==> node.children[i].end <= node.children[j].start)
  }

  lemma {:induction false} DescendantIsInside(node: Node, path: Path)
    requires Lawful(node) && IsPath(node, path)
    ensures Inside(At(node, path), node) && Lawful(At(node, path))
    decreases path
  {
    if path != [] {
      DescendantIsInside(node.children[path[0]], path[1..]);
    }
  }

  /** Under the span laws two nodes are nested when one's path begins the other's, and apart otherwise. */
  lemma {:induction false} SpansAreLaminar(node: Node, p: Path, q: Path)
    requires Lawful(node) && IsPath(node, p) && IsPath(node, q)
    ensures p <= q ==> Inside(At(node, q), At(node, p))
    ensures q <= p ==> Inside(At(node, p), At(node, q))
    ensures !(p <= q) && !(q <= p) ==> Apart(At(node, p), At(node, q))
    decreases p
  {
    if p == [] {
      DescendantIsInside(node, q);
    } else if q == [] {
      DescendantIsInside(node, p);
    } else if p[0] == q[0] {
      SpansAreLaminar(node.children[p[0]], p[1..], q[1..]);
    } else {
      DescendantIsInside(node.children[p[0]], p[1..]);
      DescendantIsInside(node.children[q[0]], q[1..]);
    }
  }

  // ---- document order ----------------------------------------------------------------------

  /** One node stands before another: around it, or below an earlier sibling. */
  predicate Precedes(p: Path, q: Path) {
    q != [] && (p == [] || p[0] < q[0] || (p[0] == q[0] && Precedes(p[1..], q[1..])))
  }

  ghost predicate InDocumentOrder(paths: seq<Path>) {
    forall i, j :: 0 <= i < j < |paths| ==> Precedes(paths[i], paths[j])
  }

  lemma {:induction false} OuterPrecedes(p: Path, q: Path)
    requires p < q
    ensures Precedes(p, q)
  {
    if p != [] {
      OuterPrecedes(p[1..], q[1..]);
    }
  }

  lemma {:induction false} SiblingPrecedes(at: Path, p: Path, q: Path)
    requires at < p && at < q && p[|at|] < q[|at|]
    ensures Precedes(p, q)
  {
    if at != [] {
      SiblingPrecedes(at[1..], p[1..], q[1..]);
    }
  }

  lemma OrderConcat(a: seq<Path>, b: seq<Path>)
    requires InDocumentOrder(a) && InDocumentOrder(b) && forall p, q :: p in a && q in b ==> Precedes(p, q)
    ensures InDocumentOrder(a + b)
  {
    hide Precedes;
  }

  lemma OrderOfOne(p: Path)
    ensures InDocumentOrder([p]) && InDocumentOrder([])
  {
  }
}
