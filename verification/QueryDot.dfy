/**
 Printing a query as a graph (components/tools/query_dot.cc): a recursion that
 threads a counter through both subtrees.  The output is kept as a sequence of
 lines; a node's label is any function of the node.
 */
module QueryDot {
  import opened Decimals
  import opened QueryAst

  datatype DotKind = DotValue | DotNumberSet | DotStringViewSet | DotUnion | DotDifference | DotIntersection

  /** The parts of a printed name; `Render` gives the text. */
  datatype DotName = DotName(kind: DotKind, number: nat)

  /** A line that declares a node, or one that joins a parent to a child. */
  datatype Line = NodeLine(name: DotName, caption: string) | EdgeLine(parent: DotName, child: DotName)

  /** The counter is a uint32_t: what is printed of a count is its remainder. */
  const WRAP := 0x1_0000_0000

  function KindOf(n: Node): DotKind {
    match n
    case ValueNode(_) => DotValue
    case NumberSetNode(_) => DotNumberSet
    case StringViewSetNode(_) => DotStringViewSet
    case OpNode(op, _, _) =>
      if op.Union? then DotUnion else if op.Difference? then DotDifference else DotIntersection
  }

  function DotNodeName(n: Node, count: nat): DotName {
    DotName(KindOf(n), count)
  }

  function KindText(k: DotKind): string {
    match k
    case DotValue => "Value"
    case DotNumberSet => "NumberSet"
    case DotStringViewSet => "StringViewSet"
    case DotUnion => "Union"
    case DotDifference => "Difference"
    case DotIntersection => "Intersection"
  }

  function Render(name: DotName): string {
    KindText(name.kind) + Decimal(name.number % WRAP)
  }

  /** The printed name of a node: what the node is, and what the counter keeps of its number. */
  lemma NamesTellTheNode(n: Node, count: nat)
    ensures var name, number := Render(DotNodeName(n, count)), Decimal(count % 0x1_0000_0000);
      && (n.ValueNode? ==> name == "Value" + number)
      && (n.NumberSetNode? ==> name == "NumberSet" + number)
      && (n.StringViewSetNode? ==> name == "StringViewSet" + number)
      && (n.OpNode? && n.op == Union ==> name == "Union" + number)
      && (n.OpNode? && n.op == Difference ==> name == "Difference" + number)
      && (n.OpNode? && n.op == Intersection ==> name == "Intersection" + number)
  {
  }

  /** The counter, shared by all the recursive calls. */
  class Counter {
    var count: nat

    constructor ()
      ensures count == 0
    {
      count := 0;
    }
  }

  /* ---------- what a printed tree looks like ---------- */

  /** The node at a position in preorder: the root, then the left subtree, then the right one. */
  function NodeAt(n: Node, i: nat): Node
    requires i < Size(n)
  {
    if i == 0 then n
    else if i <= Size(n.left) then NodeAt(n.left, i - 1)
    else NodeAt(n.right, i - 1 - Size(n.left))
  }

  /** The positions of all parent-child pairs, when the tree is numbered from `base`. */
  function Links(n: Node, base: nat): set<(nat, nat)> {
    if n.OpNode? then
      {(base, base + 1), (base, base + 1 + Size(n.left))}
      + Links(n.left, base + 1) + Links(n.right, base + 1 + Size(n.left))
    else {}
  }

  function NodeLines(lines: seq<Line>): seq<Line> {
    if lines == [] then []
    else (if lines[0].NodeLine? then [lines[0]] else []) + NodeLines(lines[1..])
  }

  function EdgeLines(lines: seq<Line>): seq<Line> {
    if lines == [] then []
    else (if lines[0].EdgeLine? then [lines[0]] else []) + EdgeLines(lines[1..])
  }

  lemma {:induction false} LinesAppend(a: seq<Line>, b: seq<Line>)
    ensures NodeLines(a + b) == NodeLines(a) + NodeLines(b)
    ensures EdgeLines(a + b) == EdgeLines(a) + EdgeLines(b)
  {
    if a == [] {
      assert a + b == b;
    } else {
      assert (a + b)[1..] == a[1..] + b && (a + b)[0] == a[0];
      LinesAppend(a[1..], b);
      var m, e := if a[0].NodeLine? then [a[0]] else [], if a[0].EdgeLine? then [a[0]] else [];
      assert m + (NodeLines(a[1..]) + NodeLines(b)) == (m + NodeLines(a[1..])) + NodeLines(b);
      assert e + (EdgeLines(a[1..]) + EdgeLines(b)) == (e + EdgeLines(a[1..])) + EdgeLines(b);
    }
  }

  /* ---------- the printer ---------- */

  /** What the recursion prints for a tree whose root gets number `base`. */
  function Body(n: Node, base: nat, caption: Node -> string): seq<Line> {
    if n.OpNode? then
      Assemble(n, base, caption, Body(n.left, base + 1, caption), Body(n.right, base + 1 + Size(n.left), caption))
    else [NodeLine(DotNodeName(n, base), caption(n))]
  }

  /** Lines of an operator node, from those of its subtrees. */
  function Assemble(n: Node, base: nat, caption: Node -> string, left: seq<Line>, right: seq<Line>): seq<Line>
    requires n.OpNode?
  {
    var me := DotNodeName(n, base);
    [NodeLine(me, caption(n)), EdgeLine(me, DotNodeName(n.left, base + 1))] + left
    + [EdgeLine(me, DotNodeName(n.right, base + 1 + Size(n.left)))] + right
  }

  /** An operator node's lines, in the order the printer appends them. */
  lemma AppendedIsBody(n: Node, base: nat, caption: Node -> string)
    requires n.OpNode?
    ensures var me := DotNodeName(n, base);
      var l, r := base + 1, base + 1 + Size(n.left);
      [NodeLine(me, caption(n))] + [EdgeLine(me, DotNodeName(n.left, l))] + Body(n.left, l, caption)
      + [EdgeLine(me, DotNodeName(n.right, r))] + Body(n.right, r, caption)
      == Body(n, base, caption)
  {
    var me := DotNodeName(n, base);
    var edge := EdgeLine(me, DotNodeName(n.left, base + 1));
    assert [NodeLine(me, caption(n))] + [edge] == [NodeLine(me, caption(n)), edge];
  }

  method ToDotGraphBody(n: Node, counter: Counter, caption: Node -> string) returns (dot: seq<Line>)
    modifies counter
    ensures dot == Body(n, old(counter.count), caption)
    ensures counter.count == old(counter.count) + Size(n) - 1
    decreases n
  {
    var name := DotNodeName(n, counter.count);
    dot := [NodeLine(name, caption(n))];
    if n.OpNode? {
      counter.count := counter.count + 1;
      var leftName := DotNodeName(n.left, counter.count);
      var left := ToDotGraphBody(n.left, counter, caption);
      dot := dot + [EdgeLine(name, leftName)] + left;
      counter.count := counter.count + 1;
      var rightName := DotNodeName(n.right, counter.count);
      var right := ToDotGraphBody(n.right, counter, caption);
      dot := dot + [EdgeLine(name, rightName)] + right;
      AppendedIsBody(n, old(counter.count), caption);
    }
  }

  /** WriteAst, without the title. */
  method WriteAst(root: Node, caption: Node -> string) returns (dot: seq<Line>)
    ensures dot == Body(root, 0, caption)
  {
    var counter := new Counter();
    dot := ToDotGraphBody(root, counter, caption);
  }

  /* ---------- what is printed is the tree ---------- */

  /** Picking the node lines, or the edge lines, out of an operator node's lines. */
  lemma PickFromOp(x: Line, e: Line, a: seq<Line>, f: Line, b: seq<Line>)
    requires x.NodeLine? && e.EdgeLine? && f.EdgeLine?
    ensures NodeLines([x, e] + a + [f] + b) == [x] + NodeLines(a) + NodeLines(b)
    ensures EdgeLines([x, e] + a + [f] + b) == [e] + EdgeLines(a) + [f] + EdgeLines(b)
  {
    PickFromLeaf(f);
    PickFromHead(x, e);
    var m, ae := [x, e] + a, [x, e] + a + [f];
    LinesAppend(ae, b);
    LinesAppend(m, [f]);
    LinesAppend([x, e], a);
    assert NodeLines(ae) == [x] + NodeLines(a) + [];
  }

  lemma PickFromHead(x: Line, e: Line)
    requires x.NodeLine? && e.EdgeLine?
    ensures NodeLines([x, e]) == [x] && EdgeLines([x, e]) == [e]
  {
    PickFromLeaf(e);
    assert [x, e][1..] == [e];
  }

  lemma PickFromLeaf(x: Line)
    ensures NodeLines([x]) == (if x.NodeLine? then [x] else [])
    ensures EdgeLines([x]) == (if x.EdgeLine? then [x] else [])
  {
    assert [x][1..] == [];
  }

  /** The node lines of a tree: root, left subtree, right subtree, numbered one by one. */
  function Declared(n: Node, base: nat, caption: Node -> string): (r: seq<Line>)
    ensures |r| == Size(n)
  {
    var me := [NodeLine(DotNodeName(n, base), caption(n))];
    if n.OpNode? then me + Declared(n.left, base + 1, caption) + Declared(n.right, base + 1 + Size(n.left), caption)
    else me
  }

  lemma {:induction false} PrintsDeclared(n: Node, base: nat, caption: Node -> string)
    ensures NodeLines(Body(n, base, caption)) == Declared(n, base, caption)
  {
    var me := DotNodeName(n, base);
    if n.OpNode? {
      var l, r := base + 1, base + 1 + Size(n.left);
      PrintsDeclared(n.left, l, caption);
      PrintsDeclared(n.right, r, caption);
      NodeLinesOfOp(n, base, caption);
    } else {
      PickFromLeaf(NodeLine(me, caption(n)));
    }
  }

  lemma NodeLinesOfOp(n: Node, base: nat, caption: Node -> string)
    requires n.OpNode?
    ensures NodeLines(Body(n, base, caption)) == [NodeLine(DotNodeName(n, base), caption(n))]
      + NodeLines(Body(n.left, base + 1, caption)) + NodeLines(Body(n.right, base + 1 + Size(n.left), caption))
  {
    var me, l, r := DotNodeName(n, base), base + 1, base + 1 + Size(n.left);
    PickFromOp(NodeLine(me, caption(n)), EdgeLine(me, DotNodeName(n.left, l)), Body(n.left, l, caption),
               EdgeLine(me, DotNodeName(n.right, r)), Body(n.right, r, caption));
  }

  lemma IndexThree(x: Line, a: seq<Line>, b: seq<Line>, i: nat)
    requires 0 < i < 1 + |a| + |b|
    ensures ([x] + a + b)[i] == if i <= |a| then a[i - 1] else b[i - 1 - |a|]
  {
  }

  lemma {:induction false} DeclaredAt(n: Node, base: nat, caption: Node -> string, i: nat)
    requires i < Size(n)
    ensures Declared(n, base, caption)[i] == NodeLine(DotNodeName(NodeAt(n, i), base + i), caption(NodeAt(n, i)))
  {
    if i > 0 {
      var l, r := base + 1, base + 1 + Size(n.left);
      IndexThree(NodeLine(DotNodeName(n, base), caption(n)),
                 Declared(n.left, l, caption), Declared(n.right, r, caption), i);
      if i <= Size(n.left) {
        DeclaredAt(n.left, l, caption, i - 1);
        assert l + (i - 1) == base + i;
      } else {
        DeclaredAt(n.right, r, caption, i - 1 - Size(n.left));
        assert r + (i - 1 - Size(n.left)) == base + i;
      }
    }
  }

  /** The printed node lines are the tree's nodes in preorder, the i-th one numbered i. */
  lemma PrintsNodesInPreOrder(root: Node, caption: Node -> string, i: nat)
    requires i < Size(root)
    ensures |NodeLines(Body(root, 0, caption))| == Size(root)
    ensures NodeLines(Body(root, 0, caption))[i] ==
            NodeLine(DotNodeName(NodeAt(root, i), i), caption(NodeAt(root, i)))
  {
    PrintsDeclared(root, 0, caption);
    DeclaredAt(root, 0, caption, i);
  }

  /** The child leads to a child of the parent, by position in a tree numbered from `base`. */
  ghost predicate ChildOf(n: Node, base: nat, p: nat, c: nat) {
    && base <= p < c < base + Size(n) && NodeAt(n, p - base).OpNode?
    && (NodeAt(n, c - base) == NodeAt(n, p - base).left || NodeAt(n, c - base) == NodeAt(n, p - base).right)
  }

  lemma ChildInLeft(n: Node, base: nat, p: nat, c: nat)
    requires n.OpNode? && ChildOf(n.left, base + 1, p, c)
    ensures ChildOf(n, base, p, c)
  {
  }

  lemma ChildInRight(n: Node, base: nat, p: nat, c: nat)
    requires n.OpNode? && ChildOf(n.right, base + 1 + Size(n.left), p, c)
    ensures ChildOf(n, base, p, c)
  {
  }

  lemma ChildrenOfRoot(n: Node, base: nat)
    requires n.OpNode?
    ensures ChildOf(n, base, base, base + 1) && ChildOf(n, base, base, base + 1 + Size(n.left))
  {
    assert NodeAt(n.left, 0) == n.left && NodeAt(n.right, 0) == n.right;
  }

  /** The parent-child pairs lead from a node to one of its children. */
  lemma {:induction false} LinksAreChildren(n: Node, base: nat, p: nat, c: nat)
    requires (p, c) in Links(n, base)
    ensures base <= p < c < base + Size(n)
    ensures NodeAt(n, p - base).OpNode?
    ensures NodeAt(n, c - base) == NodeAt(n, p - base).left || NodeAt(n, c - base) == NodeAt(n, p - base).right
  {
    var l, r := base + 1, base + 1 + Size(n.left);
    if (p, c) in Links(n.left, l) {
      LinksAreChildren(n.left, l, p, c);
      ChildInLeft(n, base, p, c);
    } else if (p, c) in Links(n.right, r) {
      LinksAreChildren(n.right, r, p, c);
      ChildInRight(n, base, p, c);
    } else {
      ChildrenOfRoot(n, base);
    }
  }

  /** Every node but the root is the child in exactly one pair. */
  lemma {:induction false} OneParentEach(n: Node, base: nat, c: nat)
    requires base < c < base + Size(n)
    ensures exists p :: (p, c) in Links(n, base)
    ensures forall p, q :: (p, c) in Links(n, base) && (q, c) in Links(n, base) ==> p == q
  {
    var l, r := base + 1, base + 1 + Size(n.left);
    forall p | (p, c) in Links(n.left, l) ensures l < c < r { LinksAreChildren(n.left, l, p, c); }
    forall p | (p, c) in Links(n.right, r) ensures r < c { LinksAreChildren(n.right, r, p, c); }
    if c == l {
      assert (base, c) in Links(n, base);
    } else if c == r {
      assert (base, c) in Links(n, base);
    } else if c < r {
      OneParentEach(n.left, l, c);
    } else {
      OneParentEach(n.right, r, c);
    }
  }

  /** The name of position `i` in a tree numbered from `base`. */
  function Named(n: Node, base: nat, i: nat): DotName
    requires base <= i < base + Size(n)
  {
    DotNodeName(NodeAt(n, i - base), i)
  }

  lemma ChildNames(n: Node, base: nat)
    requires n.OpNode?
    ensures var l, r := base + 1, base + 1 + Size(n.left);
      && Named(n, base, base) == DotNodeName(n, base)
      && Named(n, base, l) == DotNodeName(n.left, l)
      && Named(n, base, r) == DotNodeName(n.right, r)
  {
    assert NodeAt(n.left, 0) == n.left && NodeAt(n.right, 0) == n.right;
  }

  ghost predicate EdgeFor(n: Node, base: nat, line: Line, p: nat, c: nat) {
    && (p, c) in Links(n, base) && base <= p < base + Size(n) && base <= c < base + Size(n)
    && line == EdgeLine(Named(n, base, p), Named(n, base, c))
  }

  lemma EdgeLinesOfOp(n: Node, base: nat, caption: Node -> string)
    requires n.OpNode?
    ensures var me := DotNodeName(n, base);
      var l, r := base + 1, base + 1 + Size(n.left);
      EdgeLines(Body(n, base, caption)) ==
        [EdgeLine(me, DotNodeName(n.left, l))] + EdgeLines(Body(n.left, l, caption))
        + [EdgeLine(me, DotNodeName(n.right, r))] + EdgeLines(Body(n.right, r, caption))
  {
    var me := DotNodeName(n, base);
    var l, r := base + 1, base + 1 + Size(n.left);
    PickFromOp(NodeLine(me, caption(n)), EdgeLine(me, DotNodeName(n.left, l)), Body(n.left, l, caption),
               EdgeLine(me, DotNodeName(n.right, r)), Body(n.right, r, caption));
  }

  /** Positions of a subtree have the same names in the tree. */
  lemma NamedInSubtree(n: Node, base: nat, i: nat)
    requires n.OpNode? && base < i < base + Size(n)
    ensures var l, r := base + 1, base + 1 + Size(n.left);
      if i < r then Named(n, base, i) == Named(n.left, l, i) else Named(n, base, i) == Named(n.right, r, i)
  {
  }

  /** Inside a subtree, the edges of the subtree and of the tree are the same. */
  lemma EdgeInLeft(n: Node, base: nat, line: Line, p: nat, c: nat)
    requires n.OpNode? && (p, c) in Links(n.left, base + 1)
    ensures EdgeFor(n.left, base + 1, line, p, c) <==> EdgeFor(n, base, line, p, c)
  {
    LinksAreChildren(n.left, base + 1, p, c);
    NamedInSubtree(n, base, p);
    NamedInSubtree(n, base, c);
  }

  lemma EdgeInRight(n: Node, base: nat, line: Line, p: nat, c: nat)
    requires n.OpNode? && (p, c) in Links(n.right, base + 1 + Size(n.left))
    ensures EdgeFor(n.right, base + 1 + Size(n.left), line, p, c) <==> EdgeFor(n, base, line, p, c)
  {
    LinksAreChildren(n.right, base + 1 + Size(n.left), p, c);
    NamedInSubtree(n, base, p);
    NamedInSubtree(n, base, c);
  }

  /** The two edges an operator node prints itself. */
  lemma TopEdges(n: Node, base: nat)
    requires n.OpNode?
    ensures var me := DotNodeName(n, base);
      var l, r := base + 1, base + 1 + Size(n.left);
      && EdgeFor(n, base, EdgeLine(me, DotNodeName(n.left, l)), base, l)
      && EdgeFor(n, base, EdgeLine(me, DotNodeName(n.right, r)), base, r)
  {
    ChildNames(n, base);
  }

  /** Where an edge line of an operator node comes from. */
  lemma EdgeCases(n: Node, base: nat, caption: Node -> string, line: Line)
    requires n.OpNode?
    ensures var me := DotNodeName(n, base);
      var l, r := base + 1, base + 1 + Size(n.left);
      line in EdgeLines(Body(n, base, caption)) <==>
        || line == EdgeLine(me, DotNodeName(n.left, l)) || line == EdgeLine(me, DotNodeName(n.right, r))
        || line in EdgeLines(Body(n.left, l, caption)) || line in EdgeLines(Body(n.right, r, caption))
  {
    EdgeLinesOfOp(n, base, caption);
  }

  lemma TopEdgeJoins(n: Node, base: nat, line: Line) returns (p: nat, c: nat)
    requires n.OpNode?
    requires var me := DotNodeName(n, base);
      var l, r := base + 1, base + 1 + Size(n.left);
      line == EdgeLine(me, DotNodeName(n.left, l)) || line == EdgeLine(me, DotNodeName(n.right, r))
    ensures EdgeFor(n, base, line, p, c)
  {
    TopEdges(n, base);
    var l, r := base + 1, base + 1 + Size(n.left);
    p, c := base, if line == EdgeLine(DotNodeName(n, base), DotNodeName(n.left, l)) then l else r;
  }

  lemma LeafPrintsNoEdge(n: Node, base: nat, caption: Node -> string)
    requires !n.OpNode?
    ensures EdgeLines(Body(n, base, caption)) == []
  {
    PickFromLeaf(NodeLine(DotNodeName(n, base), caption(n)));
  }

  /** Every printed edge joins a parent to a child. */
  lemma {:induction false} PrintsOnlyLinks(n: Node, base: nat, caption: Node -> string, line: Line) returns (p: nat, c: nat)
    requires line in EdgeLines(Body(n, base, caption))
    ensures EdgeFor(n, base, line, p, c)
  {
    if n.OpNode? {
      var l, r := base + 1, base + 1 + Size(n.left);
      EdgeCases(n, base, caption, line);
      if line in EdgeLines(Body(n.left, l, caption)) {
        p, c := PrintsOnlyLinks(n.left, l, caption, line);
        EdgeInLeft(n, base, line, p, c);
      } else if line in EdgeLines(Body(n.right, r, caption)) {
        p, c := PrintsOnlyLinks(n.right, r, caption, line);
        EdgeInRight(n, base, line, p, c);
      } else {
        p, c := TopEdgeJoins(n, base, line);
      }
    } else {
      LeafPrintsNoEdge(n, base, caption);
    }
  }

  /** Every parent-child pair is printed. */
  lemma {:induction false} PrintsEveryLink(n: Node, base: nat, caption: Node -> string, line: Line, p: nat, c: nat)
    requires EdgeFor(n, base, line, p, c)
    ensures line in EdgeLines(Body(n, base, caption))
  {
    var l, r := base + 1, base + 1 + Size(n.left);
    EdgeCases(n, base, caption, line);
    if (p, c) in Links(n.left, l) {
      EdgeInLeft(n, base, line, p, c);
      PrintsEveryLink(n.left, l, caption, line, p, c);
    } else if (p, c) in Links(n.right, r) {
      EdgeInRight(n, base, line, p, c);
      PrintsEveryLink(n.right, r, caption, line, p, c);
    } else {
      TopEdges(n, base);
    }
  }

  lemma EdgesOfOpAt(x: Line, a: seq<Line>, y: Line, b: seq<Line>)
    ensures ([x] + a + [y] + b)[0] == x && ([x] + a + [y] + b)[|a| + 1] == y
  {
  }

  /** The left subtree is numbered before the right one: the first edge of an operator node leads to its left
      child, with the next number, and the other one, printed after the left subtree's, to its right
      child, with the first number after that subtree. */
  lemma LeftBeforeRight(n: Node, base: nat, caption: Node -> string)
    requires n.OpNode?
    ensures var edges := EdgeLines(Body(n, base, caption));
      && |edges| == Size(n) - 1 > Size(n.left)
      && edges[0] == EdgeLine(DotNodeName(n, base), DotNodeName(n.left, base + 1))
      && edges[Size(n.left)] == EdgeLine(DotNodeName(n, base), DotNodeName(n.right, base + 1 + Size(n.left)))
  {
    var me, l, r := DotNodeName(n, base), base + 1, base + 1 + Size(n.left);
    EdgeLinesOfOp(n, base, caption);
    EdgeCount(n.left, l, caption);
    EdgeCount(n, base, caption);
    EdgesOfOpAt(EdgeLine(me, DotNodeName(n.left, l)), EdgeLines(Body(n.left, l, caption)),
                EdgeLine(me, DotNodeName(n.right, r)), EdgeLines(Body(n.right, r, caption)));
  }

  /** There is one edge fewer than nodes. */
  lemma {:induction false} EdgeCount(n: Node, base: nat, caption: Node -> string)
    ensures |EdgeLines(Body(n, base, caption))| == Size(n) - 1
  {
    if n.OpNode? {
      EdgeLinesOfOp(n, base, caption);
      EdgeCount(n.left, base + 1, caption);
      EdgeCount(n.right, base + 1 + Size(n.left), caption);
    } else {
      PickFromLeaf(NodeLine(DotNodeName(n, base), caption(n)));
    }
  }

  /* ---------- names are unique ---------- */

  /** Where the letters of a printed name end. */
  lemma LettersThenDigits(name: DotName)
    ensures forall i :: 0 <= i < |KindText(name.kind)| ==> !IsDigit(Render(name)[i])
    ensures forall i :: |KindText(name.kind)| <= i < |Render(name)| ==> IsDigit(Render(name)[i])
  {
    var k := KindText(name.kind);
    assert forall i :: 0 <= i < |k| ==> !IsDigit(k[i]);
    assert forall i :: |k| <= i < |Render(name)| ==> Render(name)[i] == Decimal(name.number % WRAP)[i - |k|];
  }

  lemma KindTextDistinct(k: DotKind, l: DotKind)
    requires KindText(k) == KindText(l)
    ensures k == l
  {
    assert |KindText(k)| == |KindText(l)| && KindText(k)[0] == KindText(l)[0];
  }

  /** The printed text determines the kind and what is printed of the count. */
  lemma RenderInjective(a: DotName, b: DotName)
    requires Render(a) == Render(b)
    ensures a.kind == b.kind && a.number % WRAP == b.number % WRAP
  {
    LettersThenDigits(a);
    LettersThenDigits(b);
    SameLetters(Render(a), |KindText(a.kind)|, |KindText(b.kind)|);
    assert Render(a)[|KindText(a.kind)|..] == Decimal(a.number % WRAP);
    assert Render(b)[|KindText(b.kind)|..] == Decimal(b.number % WRAP);
    assert Render(a)[..|KindText(a.kind)|] == KindText(a.kind);
    assert Render(b)[..|KindText(b.kind)|] == KindText(b.kind);
    DecimalInjective(a.number % WRAP, b.number % WRAP);
    KindTextDistinct(a.kind, b.kind);
  }

  /** Letters up to a point and digits from there on: there is one such point. */
  lemma SameLetters(s: string, k: nat, l: nat)
    requires k < |s| && l < |s|
    requires forall i :: 0 <= i < k ==> !IsDigit(s[i])
    requires forall i :: k <= i < |s| ==> IsDigit(s[i])
    requires forall i :: 0 <= i < l ==> !IsDigit(s[i])
    requires forall i :: l <= i < |s| ==> IsDigit(s[i])
    ensures k == l
  {
    assert IsDigit(s[k]) && IsDigit(s[l]);
  }

  /** No two nodes of a printed tree share a name, as long as the counter does not wrap. */
  lemma NamesAreDistinct(root: Node, caption: Node -> string, i: nat, j: nat)
    requires i < j < Size(root) <= WRAP
    ensures var lines := NodeLines(Body(root, 0, caption));
      && |lines| == Size(root) && lines[i].NodeLine? && lines[j].NodeLine?
      && Render(lines[i].name) != Render(lines[j].name)
  {
    PrintsNodesInPreOrder(root, caption, i);
    PrintsNodesInPreOrder(root, caption, j);
    DifferentNumbers(DotNodeName(NodeAt(root, i), i), DotNodeName(NodeAt(root, j), j));
  }

  /** Two printed nodes share a name exactly when they are of one kind and their
      positions agree in what the counter keeps of them. */
  lemma NamesClashExactly(root: Node, caption: Node -> string, i: nat, j: nat)
    requires i < Size(root) && j < Size(root)
    ensures var lines := NodeLines(Body(root, 0, caption));
      && |lines| == Size(root) && lines[i].NodeLine? && lines[j].NodeLine?
      && (Render(lines[i].name) == Render(lines[j].name) <==>
          KindOf(NodeAt(root, i)) == KindOf(NodeAt(root, j)) && i % WRAP == j % WRAP)
  {
    PrintsNodesInPreOrder(root, caption, i);
    PrintsNodesInPreOrder(root, caption, j);
    var a, b := DotNodeName(NodeAt(root, i), i), DotNodeName(NodeAt(root, j), j);
    if Render(a) == Render(b) { RenderInjective(a, b); }
  }

  /** A left spine of unions. */
  function Spine(unions: nat): Node {
    if unions == 0 then ValueNode("k") else OpNode(Union, Spine(unions - 1), ValueNode("k"))
  }

  lemma {:induction false} SpineAt(unions: nat, i: nat)
    requires i < unions
    ensures i < Size(Spine(unions)) && KindOf(NodeAt(Spine(unions), i)) == DotUnion
  {
    if i > 0 { SpineAt(unions - 1, i - 1); }
  }

  /** Past 2^32 unions in a row, the root and a node deep below it share a name. */
  lemma LongSpineClashes(unions: nat, caption: Node -> string)
    requires unions > WRAP
    ensures var lines := NodeLines(Body(Spine(unions), 0, caption));
      && WRAP < |lines| && lines[0].NodeLine? && lines[WRAP].NodeLine?
      && Render(lines[0].name) == Render(lines[WRAP].name)
  {
    SpineAt(unions, 0);
    SpineAt(unions, WRAP);
    NamesClashExactly(Spine(unions), caption, 0, WRAP);
  }

  lemma DifferentNumbers(a: DotName, b: DotName)
    requires a.number < b.number < WRAP
    ensures Render(a) != Render(b)
  {
    if Render(a) == Render(b) { RenderInjective(a, b); }
  }
}
