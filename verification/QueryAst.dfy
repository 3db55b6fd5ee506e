/**
 The abstract syntax of set queries (components/query/ast.h), their recursive
 meaning, and the two worklist traversals of components/query/ast.cc.
 */
module QueryAst {
  import opened Basics
  import opened Status

  datatype SetOp = Union | Difference | Intersection

  /** The parser always gives an operator node both of its children. */
  datatype Node =
    | ValueNode(key: string)
    | NumberSetNode(numbers: set<uint64>)
    | StringViewSetNode(strings: set<string>)
    | OpNode(op: SetOp, left: Node, right: Node)

  /** Which of the three instantiations of the evaluator runs: hash sets of
      strings, 32-bit bitsets or 64-bit bitsets. */
  datatype Kind = StringSets | Bitsets32 | Bitsets64

  datatype Element = Text(text: string) | Number(number: int)

  type Elements = set<Element>

  type Lookup = string -> Elements

  const UNEXPECTED_SET_TYPE := Error(InvalidArgument, "Unexpected set type")

  /* ---------- recursive meaning ---------- */

  function Combine(op: SetOp, a: Elements, b: Elements): Elements {
    match op
    case Union => a + b
    case Difference => a - b
    case Intersection => a * b
  }

  /** Adding a literal to a 32-bit bitset narrows it. */
  function Narrow(kind: Kind, n: uint64): int {
    if kind.Bitsets32? then n % 0x1_0000_0000 else n
  }

  function Literal(kind: Kind, n: Node): Result<Elements>
    requires n.NumberSetNode? || n.StringViewSetNode?
  {
    if n.NumberSetNode? && !kind.StringSets? then Ok(set x | x in n.numbers :: Number(Narrow(kind, x)))
    else if n.StringViewSetNode? && kind.StringSets? then Ok(set x | x in n.strings :: Text(x))
    else Err(UNEXPECTED_SET_TYPE)
  }

  function Meaning(kind: Kind, n: Node, lookup: Lookup): Result<Elements> {
    match n
    case ValueNode(key) => Ok(lookup(key))
    case OpNode(op, l, r) =>
      var a := Meaning(kind, l, lookup);
      var b := Meaning(kind, r, lookup);
      if a.Err? then a else if b.Err? then b else Ok(Combine(op, a.value, b.value))
    case _ => Literal(kind, n)
  }

  /** A literal of a kind that the evaluator cannot hold. */
  predicate Misfit(kind: Kind, n: Node) {
    (n.NumberSetNode? && kind.StringSets?) || (n.StringViewSetNode? && !kind.StringSets?)
  }

  predicate HasMisfit(kind: Kind, n: Node) {
    Misfit(kind, n) || (n.OpNode? && (HasMisfit(kind, n.left) || HasMisfit(kind, n.right)))
  }

  lemma {:induction false} ErrsOnMisfits(kind: Kind, n: Node, lookup: Lookup)
    ensures Meaning(kind, n, lookup) == Err(UNEXPECTED_SET_TYPE) <==> HasMisfit(kind, n)
    ensures Meaning(kind, n, lookup).Ok? <==> !HasMisfit(kind, n)
  {
    if n.OpNode? {
      ErrsOnMisfits(kind, n.left, lookup);
      ErrsOnMisfits(kind, n.right, lookup);
    }
  }

  /* ---------- the meaning, element by element ---------- */

  /** What is in the value of an operator node, by what is in the values of its children. */
  lemma OperatorsByMembership(kind: Kind, l: Node, r: Node, lookup: Lookup, e: Element)
    requires Meaning(kind, l, lookup).Ok? && Meaning(kind, r, lookup).Ok?
    ensures Meaning(kind, OpNode(Union, l, r), lookup).Ok?
    ensures Meaning(kind, OpNode(Difference, l, r), lookup).Ok?
    ensures Meaning(kind, OpNode(Intersection, l, r), lookup).Ok?
    ensures var inLeft, inRight := e in Meaning(kind, l, lookup).value, e in Meaning(kind, r, lookup).value;
      && (e in Meaning(kind, OpNode(Union, l, r), lookup).value <==> inLeft || inRight)
      && (e in Meaning(kind, OpNode(Difference, l, r), lookup).value <==> inLeft && !inRight)
      && (e in Meaning(kind, OpNode(Intersection, l, r), lookup).value <==> inLeft && inRight)
  {
  }

  /** A value leaf stands for what the lookup gives for its key. */
  lemma ValueByMembership(kind: Kind, key: string, lookup: Lookup, e: Element)
    ensures Meaning(kind, ValueNode(key), lookup).Ok?
    ensures e in Meaning(kind, ValueNode(key), lookup).value <==> e in lookup(key)
  {
  }

  /** A literal of strings stands for its strings in hash sets, and is an error in bitsets. */
  lemma StringsByMembership(kind: Kind, strings: set<string>, lookup: Lookup)
    ensures Meaning(kind, StringViewSetNode(strings), lookup).Ok? <==> kind == StringSets
    ensures kind == StringSets ==> forall e ::
      e in Meaning(kind, StringViewSetNode(strings), lookup).value <==> e.Text? && e.text in strings
  {
  }

  /** A literal of numbers stands for its numbers in bitsets, cut to 32 bits in 32-bit ones, and is
      an error in hash sets. */
  lemma NumbersByMembership(kind: Kind, numbers: set<uint64>, lookup: Lookup)
    ensures Meaning(kind, NumberSetNode(numbers), lookup).Ok? <==> kind != StringSets
    ensures kind == Bitsets64 ==> forall e ::
      e in Meaning(kind, NumberSetNode(numbers), lookup).value <==> exists x :: x in numbers && e == Number(x)
    ensures kind == Bitsets32 ==> forall e ::
      e in Meaning(kind, NumberSetNode(numbers), lookup).value <==>
      exists x :: x in numbers && e == Number(x % 0x1_0000_0000)
  {
  }

  /** `m` is the node `n` or a node below it. */
  predicate Occurs(m: Node, n: Node) {
    m == n || (n.OpNode? && (Occurs(m, n.left) || Occurs(m, n.right)))
  }

  /** Evaluation fails exactly when a literal of numbers occurs in a query over strings, or a
      literal of strings in a query over numbers. */
  lemma {:induction false} ErrsOnOccurringMisfit(kind: Kind, n: Node, lookup: Lookup)
    ensures Meaning(kind, n, lookup).Err? <==>
      exists m :: Occurs(m, n) && if kind == StringSets then m.NumberSetNode? else m.StringViewSetNode?
    ensures Meaning(kind, n, lookup).Err? ==> Meaning(kind, n, lookup).error == UNEXPECTED_SET_TYPE
  {
    if n.OpNode? {
      ErrsOnOccurringMisfit(kind, n.left, lookup);
      ErrsOnOccurringMisfit(kind, n.right, lookup);
      if m :| Occurs(m, n.left) && if kind == StringSets then m.NumberSetNode? else m.StringViewSetNode? {
        assert Occurs(m, n);
      }
      if m :| Occurs(m, n.right) && if kind == StringSets then m.NumberSetNode? else m.StringViewSetNode? {
        assert Occurs(m, n);
      }
    } else {
      assert Occurs(n, n);
    }
  }

  function Size(n: Node): nat {
    if n.OpNode? then 1 + Size(n.left) + Size(n.right) else 1
  }

  function Depth(n: Node): nat {
    if n.OpNode? then
      1 + (if Depth(n.left) < Depth(n.right) then Depth(n.right) else Depth(n.left))
    else 1
  }

  /* ---------- keys of a query ---------- */

  /** The keys at value leaves. */
  function LeafKeys(n: Node): set<string> {
    match n
    case ValueNode(key) => {key}
    case OpNode(_, l, r) => LeafKeys(l) + LeafKeys(r)
    case _ => {}
  }

  predicate HasLiteral(n: Node) {
    match n
    case ValueNode(_) => false
    case OpNode(_, l, r) => HasLiteral(l) || HasLiteral(r)
    case _ => true
  }

  /** The leaf keys are exactly those of the value nodes that occur. */
  lemma {:induction false} LeafKeysOccur(n: Node, key: string)
    ensures key in LeafKeys(n) <==> Occurs(ValueNode(key), n)
  {
    if n.OpNode? {
      LeafKeysOccur(n.left, key);
      LeafKeysOccur(n.right, key);
    }
  }

  /** Evaluation only ever asks for leaf keys, so prefetching those is enough. */
  lemma {:induction false} MeaningNeedsOnlyLeafKeys(kind: Kind, n: Node, f: Lookup, g: Lookup)
    requires forall k :: k in LeafKeys(n) ==> f(k) == g(k)
    ensures Meaning(kind, n, f) == Meaning(kind, n, g)
  {
    if n.OpNode? {
      MeaningNeedsOnlyLeafKeys(kind, n.left, f, g);
      MeaningNeedsOnlyLeafKeys(kind, n.right, f, g);
    }
  }

  /** All that a worklist still holds: its nodes, their leaf keys, and whether a literal is among them. */
  datatype Backlog = Backlog(size: nat, keys: set<string>, literal: bool)

  function Plus(b: Backlog, n: Node): Backlog {
    Backlog(b.size + Size(n), b.keys + LeafKeys(n), b.literal || HasLiteral(n))
  }

  function BacklogOf(stack: seq<Node>): Backlog {
    if stack == [] then Backlog(0, {}, false)
    else Plus(BacklogOf(stack[..|stack| - 1]), stack[|stack| - 1])
  }

  lemma Push(stack: seq<Node>, n: Node)
    ensures BacklogOf(stack + [n]) == Plus(BacklogOf(stack), n)
  {
    assert (stack + [n])[..|stack + [n]| - 1] == stack;
  }

  /** The worklist after its last node is taken off and that node's children are put on. */
  function Unfolded(stack: seq<Node>): seq<Node>
    requires stack != []
  {
    var top := stack[|stack| - 1];
    var rest := stack[..|stack| - 1];
    if top.OpNode? then rest + [top.left] + [top.right] else rest
  }

  lemma UnfoldBacklog(stack: seq<Node>)
    requires stack != []
    ensures var b, b', top := BacklogOf(stack), BacklogOf(Unfolded(stack)), stack[|stack| - 1];
      && b'.size < b.size
      && (top.OpNode? ==> b'.keys == b.keys && b'.literal == b.literal)
      && (!top.OpNode? ==> b.keys == b'.keys + LeafKeys(top) && (b.literal <==> b'.literal || HasLiteral(top)))
  {
    var top := stack[|stack| - 1];
    var rest := stack[..|stack| - 1];
    if top.OpNode? {
      Push(rest, top.left);
      Push(rest + [top.left], top.right);
    }
  }

  /** What `Keys()` returns at a leaf. */
  function OwnKeys(n: Node): (r: set<string>)
    ensures !n.OpNode? ==> r == LeafKeys(n) && (|r| == 1 <==> !HasLiteral(n))
  {
    if n.ValueNode? then {n.key} else {}
  }

  /** Keys of any node; the worklist is that of operator nodes.  `asserted` tells whether
      the debug assertion that each leaf contributes one key held wherever it was reached. */
  method Keys(root: Node) returns (keys: set<string>, asserted: bool)
    ensures keys == LeafKeys(root)
    ensures asserted <==> !(root.OpNode? && HasLiteral(root))
  {
    if !root.OpNode? {
      return OwnKeys(root), true;
    }
    var nodes := [root];
    keys, asserted := {}, true;
    Push([], root);
    assert [] + [root] == nodes;
    while nodes != []
      invariant keys + BacklogOf(nodes).keys == LeafKeys(root)
      invariant HasLiteral(root) <==> !asserted || BacklogOf(nodes).literal
      decreases BacklogOf(nodes).size
    {
      var next := nodes[|nodes| - 1];
      UnfoldBacklog(nodes);
      ghost var unfolded := Unfolded(nodes);
      nodes := nodes[..|nodes| - 1];
      if next.OpNode? {
        nodes := nodes + [next.left];
        nodes := nodes + [next.right];
      } else {
        var valueKeys := OwnKeys(next);
        asserted := asserted && |valueKeys| == 1;
        keys := keys + valueKeys;
      }
      assert nodes == unfolded;
    }
  }

  /* ---------- postfix order ---------- */

  function PostOrder(n: Node): seq<Node> {
    if n.OpNode? then PostOrder(n.left) + PostOrder(n.right) + [n] else [n]
  }

  /** The order in which the worklist pops nodes: root, right subtree, left subtree. */
  function PopOrder(n: Node): seq<Node> {
    if n.OpNode? then [n] + PopOrder(n.right) + PopOrder(n.left) else [n]
  }

  function Pending(stack: seq<Node>): seq<Node> {
    if stack == [] then [] else PopOrder(stack[|stack| - 1]) + Pending(stack[..|stack| - 1])
  }

  lemma PendingPush(stack: seq<Node>, n: Node)
    ensures Pending(stack + [n]) == PopOrder(n) + Pending(stack)
  {
    assert (stack + [n])[..|stack + [n]| - 1] == stack;
  }

  lemma PendingExpand(stack: seq<Node>, n: Node)
    requires n.OpNode?
    ensures [n] + Pending(stack + [n.left] + [n.right]) == PopOrder(n) + Pending(stack)
  {
    PendingPush(stack, n.left);
    PendingPush(stack + [n.left], n.right);
  }

  lemma UnfoldPending(stack: seq<Node>)
    requires stack != []
    ensures Pending(stack) == [stack[|stack| - 1]] + Pending(Unfolded(stack))
  {
    var top := stack[|stack| - 1];
    var rest := stack[..|stack| - 1];
    assert Pending(stack) == PopOrder(top) + Pending(rest);
    if top.OpNode? {
      PendingExpand(rest, top);
    } else {
      assert Unfolded(stack) == rest && PopOrder(top) == [top];
    }
  }

  lemma ReversedAppend<T>(a: seq<T>, b: seq<T>)
    ensures Reversed(a + b) == Reversed(b) + Reversed(a)
  {
    var both, apart := Reversed(a + b), Reversed(b) + Reversed(a);
    forall i | 0 <= i < |both| ensures both[i] == apart[i] {
      assert both[i] == (a + b)[|a| + |b| - 1 - i];
    }
  }

  lemma {:induction false} ReversedPopOrder(n: Node)
    ensures Reversed(PopOrder(n)) == PostOrder(n)
  {
    if n.OpNode? {
      ReversedPopOrder(n.left);
      ReversedPopOrder(n.right);
      ReversedAppend([n] + PopOrder(n.right), PopOrder(n.left));
      ReversedAppend([n], PopOrder(n.right));
      assert PostOrder(n.left) + (PostOrder(n.right) + [n]) == PostOrder(n.left) + PostOrder(n.right) + [n];
    }
  }

  /** Postorder by position: first the left subtree, then the right one, and the root last. */
  lemma {:induction false} PostOrderByPosition(n: Node)
    ensures |PostOrder(n)| == Size(n) > 0 && PostOrder(n)[Size(n) - 1] == n
    ensures n.OpNode? ==>
      && PostOrder(n)[..Size(n.left)] == PostOrder(n.left)
      && PostOrder(n)[Size(n.left)..Size(n) - 1] == PostOrder(n.right)
  {
    if n.OpNode? {
      PostOrderByPosition(n.left);
      PostOrderByPosition(n.right);
    }
  }

  method ComputePostfixOrder(root: Node) returns (result: seq<Node>)
    ensures result == PostOrder(root)
  {
    result := [];
    var stack := [root];
    while stack != []
      invariant result + Pending(stack) == PopOrder(root)
      decreases BacklogOf(stack).size
    {
      var top := stack[|stack| - 1];
      UnfoldBacklog(stack);
      UnfoldPending(stack);
      ghost var unfolded := Unfolded(stack);
      assert result + ([top] + Pending(unfolded)) == (result + [top]) + Pending(unfolded);
      stack := stack[..|stack| - 1];
      result := result + [top];
      if top.OpNode? {
        stack := stack + [top.left];
        stack := stack + [top.right];
      }
      assert stack == unfolded;
    }
    assert result == PopOrder(root);
    ReversedPopOrder(root);
    result := Reversed(result);
  }
}
