/**
 Evaluation of set queries: the in-place operations on hash sets
 (components/query/sets.cc) and the stack visitor that runs a query in postfix
 order (components/query/ast.h), proved against the recursive meaning.
 */
module QueryEval {
  import opened Status
  import opened QueryAst

  /* ---------- hash sets, updated in place ---------- */

  class FlatHashSet {
    var elems: Elements

    constructor (elems: Elements)
      ensures this.elems == elems
    {
      this.elems := elems;
    }

    method Insert(e: Element)
      modifies this
      ensures elems == old(elems) + {e}
    {
      elems := elems + {e};
    }

    method Erase(e: Element)
      modifies this
      ensures elems == old(elems) - {e}
    {
      elems := elems - {e};
    }
  }

  /** Inserts the smaller set into the larger one and returns the latter. */
  method UnionInPlace(left: FlatHashSet, right: FlatHashSet) returns (r: FlatHashSet)
    requires left != right
    modifies left, right
    ensures r == left || r == right
    ensures r.elems == old(left.elems) + old(right.elems)
    ensures r == right <==> |old(left.elems)| <= |old(right.elems)|
  {
    var small := if |left.elems| <= |right.elems| then left else right;
    var big := if |left.elems| <= |right.elems| then right else left;
    var todo := small.elems;
    while todo != {}
      invariant small.elems == old(small.elems) && todo <= small.elems
      invariant big.elems == old(big.elems) + (small.elems - todo)
      decreases todo
    {
      var e :| e in todo;
      big.Insert(e);
      todo := todo - {e};
    }
    r := big;
  }

  /** Erases from the smaller set what the larger one lacks and returns the former. */
  method IntersectionInPlace(left: FlatHashSet, right: FlatHashSet) returns (r: FlatHashSet)
    requires left != right
    modifies left, right
    ensures r == left || r == right
    ensures r.elems == old(left.elems) * old(right.elems)
    ensures r == left <==> |old(left.elems)| <= |old(right.elems)|
  {
    var small := if |left.elems| <= |right.elems| then left else right;
    var big := if |left.elems| <= |right.elems| then right else left;
    var todo := small.elems;
    while todo != {}
      invariant big.elems == old(big.elems) && todo <= old(small.elems)
      invariant small.elems == todo + (old(small.elems) - todo) * big.elems
      decreases todo
    {
      var e :| e in todo;
      if e !in big.elems {
        small.Erase(e);
      }
      todo := todo - {e};
    }
    r := small;
  }

  /** Erases every element of the right set from the left one. */
  method DifferenceInPlace(left: FlatHashSet, right: FlatHashSet) returns (r: FlatHashSet)
    requires left != right
    modifies left, right
    ensures r == left && r.elems == old(left.elems) - old(right.elems)
    ensures right.elems == old(right.elems)
  {
    var todo := right.elems;
    while todo != {}
      invariant right.elems == old(right.elems) && todo <= right.elems
      invariant left.elems == old(left.elems) - (right.elems - todo)
      decreases todo
    {
      var element :| element in todo;
      left.Erase(element);
      todo := todo - {element};
    }
    r := left;
  }

  /* ---------- the stack machine ---------- */

  datatype Outcome = Done(stack: seq<Elements>) | WrongSetType | Underflow

  function Step(kind: Kind, lookup: Lookup, n: Node, stack: seq<Elements>): Outcome {
    match n
    case ValueNode(key) => Done(stack + [lookup(key)])
    case OpNode(op, _, _) =>
      if |stack| < 2 then Underflow
      else Done(stack[..|stack| - 2] + [Combine(op, stack[|stack| - 2], stack[|stack| - 1])])
    case _ =>
      var v := Literal(kind, n);
      if v.Ok? then Done(stack + [v.value]) else WrongSetType
  }

  function Run(kind: Kind, lookup: Lookup, prog: seq<Node>, stack: seq<Elements>): Outcome {
    if prog == [] then Done(stack)
    else
      var o := Step(kind, lookup, prog[0], stack);
      if o.Done? then Run(kind, lookup, prog[1..], o.stack) else o
  }

  lemma {:induction false} RunAppend(kind: Kind, lookup: Lookup, p: seq<Node>, q: seq<Node>, stack: seq<Elements>)
    ensures Run(kind, lookup, p + q, stack) ==
            var o := Run(kind, lookup, p, stack);
            if o.Done? then Run(kind, lookup, q, o.stack) else o
  {
    if p == [] {
      assert p + q == q;
    } else {
      assert (p + q)[1..] == p[1..] + q;
      var o := Step(kind, lookup, p[0], stack);
      if o.Done? { RunAppend(kind, lookup, p[1..], q, o.stack); }
    }
  }

  /** Compiling to postfix preserves meaning: the program pushes exactly the tree's value. */
  lemma {:induction false} PostfixComputesMeaning(kind: Kind, lookup: Lookup, n: Node, stack: seq<Elements>)
    ensures Run(kind, lookup, PostOrder(n), stack) ==
            var m := Meaning(kind, n, lookup);
            if m.Ok? then Done(stack + [m.value]) else WrongSetType
  {
    if n.OpNode? {
      PostfixComputesMeaning(kind, lookup, n.left, stack);
      RunAppend(kind, lookup, PostOrder(n.left) + PostOrder(n.right), [n], stack);
      RunAppend(kind, lookup, PostOrder(n.left), PostOrder(n.right), stack);
      var a := Meaning(kind, n.left, lookup);
      if a.Ok? {
        PostfixComputesMeaning(kind, lookup, n.right, stack + [a.value]);
        var b := Meaning(kind, n.right, lookup);
        if b.Ok? { RunOperator(kind, lookup, n, stack, a.value, b.value); }
      }
    } else {
      RunLeaf(kind, lookup, n, stack);
    }
  }

  lemma RunOperator(kind: Kind, lookup: Lookup, n: Node, stack: seq<Elements>, a: Elements, b: Elements)
    requires n.OpNode?
    ensures Run(kind, lookup, [n], stack + [a] + [b]) == Done(stack + [Combine(n.op, a, b)])
  {
    var full := stack + [a] + [b];
    assert full[..|full| - 2] == stack;
    assert [n][1..] == [];
  }

  lemma RunLeaf(kind: Kind, lookup: Lookup, n: Node, stack: seq<Elements>)
    ensures Run(kind, lookup, [n], stack) == Step(kind, lookup, n, stack)
  {
    assert [n][1..] == [];
  }

  /* ---------- how high the stack gets ---------- */

  /** No prefix of the program pops an empty stack, and none leaves more values
      above the initial stack than the tree is deep. */
  lemma {:induction false} StackStaysShallow(kind: Kind, lookup: Lookup, n: Node, stack: seq<Elements>, i: nat)
    requires i <= |PostOrder(n)|
    ensures var o := Run(kind, lookup, PostOrder(n)[..i], stack);
      !o.Underflow? && (o.Done? ==> |o.stack| <= |stack| + Depth(n))
  {
    var prog := PostOrder(n);
    if i == |prog| {
      assert prog[..i] == prog;
      PostfixComputesMeaning(kind, lookup, n, stack);
    } else if n.OpNode? {
      var p, q := PostOrder(n.left), PostOrder(n.right);
      if i <= |p| {
        assert prog[..i] == p[..i];
        StackStaysShallow(kind, lookup, n.left, stack, i);
      } else {
        assert prog[..i] == p + q[..i - |p|];
        RunAppend(kind, lookup, p, q[..i - |p|], stack);
        PostfixComputesMeaning(kind, lookup, n.left, stack);
        var a := Meaning(kind, n.left, lookup);
        if a.Ok? { StackStaysShallow(kind, lookup, n.right, stack + [a.value], i - |p|); }
      }
    } else {
      assert prog[..i] == [];
    }
  }

  /* ---------- the visitor ---------- */

  class AstPostOrderEvalVisitor {
    const kind: Kind
    const lookup: Lookup
    var stack: seq<Elements>

    constructor (kind: Kind, lookup: Lookup)
      ensures this.kind == kind && this.lookup == lookup
    {
      this.kind, this.lookup, this.stack := kind, lookup, [];
    }

    /** Visits one node; false is the "Unexpected set type" error. */
    method Visit(n: Node) returns (ok: bool)
      requires n.OpNode? ==> |stack| >= 2
      modifies this
      ensures ok <==> !Misfit(kind, n)
      ensures ok ==> Step(kind, lookup, n, old(stack)) == Done(stack)
      ensures !ok ==> Step(kind, lookup, n, old(stack)) == WrongSetType
    {
      match n
      case ValueNode(key) =>
        stack := stack + [lookup(key)];
        ok := true;
      case OpNode(op, _, _) =>
        var right := stack[|stack| - 1];
        stack := stack[..|stack| - 1];
        var left := stack[|stack| - 1];
        stack := stack[..|stack| - 1];
        var combined := Operate(op, left, right);
        stack := stack + [combined];
        ok := true;
      case NumberSetNode(numbers) =>
        ok := !kind.StringSets?;
        if ok {
          stack := stack + [set x | x in numbers :: Number(Narrow(kind, x))];
        }
      case StringViewSetNode(strings) =>
        ok := kind.StringSets?;
        if ok {
          stack := stack + [set x | x in strings :: Text(x)];
        }
    }

    /** Hash sets go through the in-place operations, bitsets through their operators. */
    method Operate(op: SetOp, left: Elements, right: Elements) returns (r: Elements)
      ensures r == Combine(op, left, right)
    {
      if kind.StringSets? {
        var l := new FlatHashSet(left);
        var rt := new FlatHashSet(right);
        var res: FlatHashSet;
        match op {
          case Union => res := UnionInPlace(l, rt);
          case Difference => res := DifferenceInPlace(l, rt);
          case Intersection => res := IntersectionInPlace(l, rt);
        }
        r := res.elems;
      } else {
        r := Combine(op, left, right);
      }
    }

    /** Runs the whole query: false is an error, otherwise one value is left on the stack. */
    method ConductVisit(root: Node) returns (ok: bool)
      modifies this
      ensures ok <==> Meaning(kind, root, lookup).Ok?
      ensures ok ==> stack == [Meaning(kind, root, lookup).value]
    {
      stack := [];
      var nodes := ComputePostfixOrder(root);
      PostfixComputesMeaning(kind, lookup, root, []);
      var i := 0;
      while i < |nodes|
        invariant 0 <= i <= |nodes|
        invariant Run(kind, lookup, nodes, []) == Run(kind, lookup, nodes[i..], stack)
        invariant Run(kind, lookup, nodes[..i], []) == Done(stack)
        invariant |stack| <= Depth(root)
      {
        StackStaysShallow(kind, lookup, root, [], i + 1);
        RunAppend(kind, lookup, nodes[..i], [nodes[i]], []);
        RunLeaf(kind, lookup, nodes[i], stack);
        assert nodes[..i] + [nodes[i]] == nodes[..i + 1];
        assert nodes[i..][1..] == nodes[i + 1..];
        var visited := Visit(nodes[i]);
        if !visited {
          return false;
        }
        i := i + 1;
      }
      ok := true;
    }

    method GetResult() returns (r: Elements)
      ensures r == if stack == [] then {} else stack[|stack| - 1]
    {
      r := if stack == [] then {} else stack[|stack| - 1];
    }
  }

  /** Eval: the iterative evaluator computes the recursive meaning, errors included. */
  method Eval(kind: Kind, root: Node, lookup: Lookup) returns (r: Result<Elements>)
    ensures r == Meaning(kind, root, lookup)
  {
    var visitor := new AstPostOrderEvalVisitor(kind, lookup);
    var ok := visitor.ConductVisit(root);
    ErrsOnMisfits(kind, root, lookup);
    if !ok {
      return Err(UNEXPECTED_SET_TYPE);
    }
    var v := visitor.GetResult();
    r := Ok(v);
  }
}
