/** Odoo search domains in prefix notation: the stack evaluator `_match` of `demo_odoo.py`. */
module DomainEval {
  import opened Prelude

  /** A domain token: an operator or a leaf condition of type `L`. */
  datatype Token<L> = Or | And | Not | Leaf(leaf: L)

  /** A domain tree. A domain is a list of trees, all of which must hold. */
  datatype Tree<L> =
    | Cond(leaf: L)
    | Either(left: Tree, right: Tree)
    | Both(left: Tree, right: Tree)
    | Neither(arg: Tree)

  function Truth<L>(t: Tree<L>, holds: L -> bool): bool {
    match t
    case Cond(l) => holds(l)
    case Either(a, b) => Truth(a, holds) || Truth(b, holds)
    case Both(a, b) => Truth(a, holds) && Truth(b, holds)
    case Neither(a) => !Truth(a, holds)
  }

  function Prefix<L>(t: Tree<L>): seq<Token<L>> {
    match t
    case Cond(l) => [Leaf(l)]
    case Either(a, b) => [Or] + Prefix(a) + Prefix(b)
    case Both(a, b) => [And] + Prefix(a) + Prefix(b)
    case Neither(a) => [Not] + Prefix(a)
  }

  function Domain<L>(trees: seq<Tree<L>>): seq<Token<L>> {
    if trees == [] then [] else Prefix(trees[0]) + Domain(trees[1..])
  }

  function Truths<L>(trees: seq<Tree<L>>, holds: L -> bool): seq<bool> {
    seq(|trees|, i requires 0 <= i < |trees| => Truth(trees[i], holds))
  }

  // ---- the stack machine --------------------------------------------------------------------------------

  /** One token on a stack whose top is its first element; None when the stack underflows. */
  function Push<L>(tok: Token<L>, stack: seq<bool>, holds: L -> bool): Option<seq<bool>> {
    match tok
    case Or => if |stack| < 2 then None else Some([stack[0] || stack[1]] + stack[2..])
    case And => if |stack| < 2 then None else Some([stack[0] && stack[1]] + stack[2..])
    case Not => if |stack| < 1 then None else Some([!stack[0]] + stack[1..])
    case Leaf(l) => Some([holds(l)] + stack)
  }

  /** The tokens taken from the right. */
  function Run<L>(tokens: seq<Token<L>>, stack: seq<bool>, holds: L -> bool): Option<seq<bool>> {
    if tokens == [] then Some(stack)
    else
      var last := |tokens| - 1;
      match Push(tokens[last], stack, holds)
      case None => None
      case Some(next) => Run(tokens[..last], next, holds)
  }

  predicate All(stack: seq<bool>) {
    forall i :: 0 <= i < |stack| ==> stack[i]
  }

  /** `_match`: None stands for the exception of popping an empty stack. */
  method Match<L>(domain: seq<Token<L>>, holds: L -> bool) returns (r: Option<bool>)
    ensures r == match Run(domain, [], holds) case None => None case Some(stack) => Some(All(stack))
  {
    var stack: seq<bool> := [];
    var n := |domain|;
    assert domain[..n] == domain;
    while n > 0
      invariant 0 <= n <= |domain|
      invariant Run(domain, [], holds) == Run(domain[..n], stack, holds)
    {
      n := n - 1;
      assert domain[..n + 1][..n] == domain[..n];
      match domain[n]
      case Or =>
        if |stack| < 2 { return None; }
        stack := [stack[0] || stack[1]] + stack[2..];
      case And =>
        if |stack| < 2 { return None; }
        stack := [stack[0] && stack[1]] + stack[2..];
      case Not =>
        if |stack| < 1 { return None; }
        stack := [!stack[0]] + stack[1..];
      case Leaf(l) =>
        stack := [holds(l)] + stack;
    }
    r := Some(All(stack));
  }

  // ---- running a well-formed domain --------------------------------------------------------------------------

  lemma {:induction false} RunConcat<L>(a: seq<Token<L>>, b: seq<Token<L>>, stack: seq<bool>, holds: L -> bool)
    ensures Run(a + b, stack, holds) ==
      match Run(b, stack, holds) case None => None case Some(next) => Run(a, next, holds)
  {
    if b == [] {
      assert a + b == a;
    } else {
      var last := |b| - 1;
      assert (a + b)[..|a + b| - 1] == a + b[..last];
      match Push(b[last], stack, holds) {
        case None =>
        case Some(next) => RunConcat(a, b[..last], next, holds);
      }
    }
  }

  lemma RunOne<L>(tok: Token<L>, stack: seq<bool>, holds: L -> bool)
    ensures Run([tok], stack, holds) == Push(tok, stack, holds)
  {
    assert [tok][..0] == [];
  }

  /** A tree pushes its truth value, whatever the stack. */
  lemma {:induction false} RunTree<L>(t: Tree<L>, stack: seq<bool>, holds: L -> bool)
    ensures Run(Prefix(t), stack, holds) == Some([Truth(t, holds)] + stack)
    decreases t, 1
  {
    match t
    case Cond(l) => RunOne(Leaf(l), stack, holds);
    case Either(_, _) => RunBinary(t, stack, holds);
    case Both(_, _) => RunBinary(t, stack, holds);
    case Neither(a) =>
      RunTree(a, stack, holds);
      RunConcat([Not], Prefix(a), stack, holds);
      RunOne(Not, [Truth(a, holds)] + stack, holds);
      assert ([Truth(a, holds)] + stack)[1..] == stack;
  }

  lemma {:induction false} RunBinary<L>(t: Tree<L>, stack: seq<bool>, holds: L -> bool)
    requires t.Either? || t.Both?
    ensures Run(Prefix(t), stack, holds) == Some([Truth(t, holds)] + stack)
    decreases t, 0
  {
    var op: Token<L> := if t.Either? then Or else And;
    var mid := [Truth(t.right, holds)] + stack;
    var top := [Truth(t.left, holds)] + mid;
    RunTree(t.right, stack, holds);
    RunTree(t.left, mid, holds);
    RunConcat([op] + Prefix(t.left), Prefix(t.right), stack, holds);
    RunConcat([op], Prefix(t.left), mid, holds);
    RunOne(op, top, holds);
    assert top[2..] == stack;
  }

  lemma {:induction false} RunDomain<L>(trees: seq<Tree<L>>, stack: seq<bool>, holds: L -> bool)
    ensures Run(Domain(trees), stack, holds) == Some(Truths(trees, holds) + stack)
  {
    if trees == [] {
      assert Truths(trees, holds) + stack == stack;
    } else {
      RunDomain(trees[1..], stack, holds);
      RunConcat(Prefix(trees[0]), Domain(trees[1..]), stack, holds);
      RunTree(trees[0], Truths(trees[1..], holds) + stack, holds);
      assert Truths(trees, holds) + stack == [Truth(trees[0], holds)] + (Truths(trees[1..], holds) + stack);
    }
  }

  /** On every well-formed domain the evaluator never underflows and answers whether all its trees hold. */
  lemma MatchIsConjunction<L>(trees: seq<Tree<L>>, holds: L -> bool)
    ensures Run(Domain(trees), [], holds) == Some(Truths(trees, holds))
    ensures All(Truths(trees, holds)) <==> forall t :: t in trees ==> Truth(t, holds)
  {
    RunDomain(trees, [], holds);
    assert Truths(trees, holds) + [] == Truths(trees, holds);
    assert forall i :: 0 <= i < |trees| ==> trees[i] in trees && Truths(trees, holds)[i] == Truth(trees[i], holds);
    if All(Truths(trees, holds)) {
      forall t | t in trees ensures Truth(t, holds) {
        var i :| 0 <= i < |trees| && trees[i] == t;
        assert Truths(trees, holds)[i];
      }
    }
  }

  /** What the operators say about two conditions: one of them, both, not the first, and, written side by side, both. */
  lemma OperatorsAre<L>(a: L, b: L, holds: L -> bool)
    ensures Run([Or, Leaf(a), Leaf(b)], [], holds) == Some([holds(a) || holds(b)])
    ensures Run([And, Leaf(a), Leaf(b)], [], holds) == Some([holds(a) && holds(b)])
    ensures Run([Not, Leaf(a)], [], holds) == Some([!holds(a)])
    ensures Run([Leaf(a), Leaf(b)], [], holds) == Some([holds(a), holds(b)])
  {
    RunTwo(Or, a, b, holds);
    RunTwo(And, a, b, holds);
    RunLeaves(a, b, holds);
    RunConcat([Not], [Leaf(a)], [], holds);
    RunLeaf(a, [], holds);
    RunOne(Not, [holds(a)], holds);
    var stack := [holds(a), holds(b)];
    assert [stack[0] || stack[1]] + stack[2..] == [holds(a) || holds(b)];
    assert [stack[0] && stack[1]] + stack[2..] == [holds(a) && holds(b)];
    assert [holds(a)] + [] == [holds(a)] && [!holds(a)] + [holds(a)][1..] == [!holds(a)];
    assert [Not, Leaf(a)] == [Not] + [Leaf(a)];
  }

  lemma RunLeaf<L>(a: L, stack: seq<bool>, holds: L -> bool)
    ensures Run([Leaf(a)], stack, holds) == Some([holds(a)] + stack)
  {
    RunOne(Leaf(a), stack, holds);
  }

  lemma RunLeaves<L>(a: L, b: L, holds: L -> bool)
    ensures Run([Leaf(a), Leaf(b)], [], holds) == Some([holds(a), holds(b)])
  {
    RunLeaf(b, [], holds);
    RunConcat([Leaf(a)], [Leaf(b)], [], holds);
    RunLeaf(a, [holds(b)], holds);
    assert [holds(b)] + [] == [holds(b)] && [holds(a)] + [holds(b)] == [holds(a), holds(b)];
    assert [Leaf(a), Leaf(b)] == [Leaf(a)] + [Leaf(b)];
  }

  lemma RunTwo<L>(op: Token<L>, a: L, b: L, holds: L -> bool)
    ensures Run([op, Leaf(a), Leaf(b)], [], holds) == Push(op, [holds(a), holds(b)], holds)
  {
    RunLeaves(a, b, holds);
    RunConcat([op], [Leaf(a), Leaf(b)], [], holds);
    RunOne(op, [holds(a), holds(b)], holds);
    assert [op, Leaf(a), Leaf(b)] == [op] + [Leaf(a), Leaf(b)];
  }

  // ---- and conversely: a run that does not underflow evaluates some domain ---------------------------------------

  /** The trees after one more token, when there are enough of them. */
  function Grow<L>(tok: Token<L>, below: seq<Tree<L>>): Option<seq<Tree<L>>> {
    match tok
    case Or => if |below| < 2 then None else Some([Either(below[0], below[1])] + below[2..])
    case And => if |below| < 2 then None else Some([Both(below[0], below[1])] + below[2..])
    case Not => if |below| < 1 then None else Some([Neither(below[0])] + below[1..])
    case Leaf(l) => Some([Cond(l)] + below)
  }

  lemma GrowPushes<L>(tok: Token<L>, below: seq<Tree<L>>, holds: L -> bool)
    ensures match Grow(tok, below)
      case None => Push(tok, Truths(below, holds), holds) == None
      case Some(next) => Push(tok, Truths(below, holds), holds) == Some(Truths(next, holds))
  {
    var stack := Truths(below, holds);
    match tok
    case Or => if |below| >= 2 { assert Truths(Grow(tok, below).value, holds) == [stack[0] || stack[1]] + stack[2..]; }
    case And => if |below| >= 2 { assert Truths(Grow(tok, below).value, holds) == [stack[0] && stack[1]] + stack[2..]; }
    case Not => if |below| >= 1 { assert Truths(Grow(tok, below).value, holds) == [!stack[0]] + stack[1..]; }
    case Leaf(l) => assert Truths(Grow(tok, below).value, holds) == [holds(l)] + stack;
  }

  lemma GrowReads<L>(tok: Token<L>, below: seq<Tree<L>>)
    ensures Grow(tok, below).Some? ==> Domain(Grow(tok, below).value) == [tok] + Domain(below)
  {
    if Grow(tok, below).Some? {
      var next := Grow(tok, below).value;
      match tok {
        case Or => TwoTrees(below); assert next[1..] == below[2..];
        case And => TwoTrees(below); assert next[1..] == below[2..];
        case Not => assert next[1..] == below[1..];
        case Leaf(l) => assert next[1..] == below;
      }
    }
  }

  /** The trees a token list denotes when it is read from the right onto a list of trees. */
  lemma {:induction false} ReadTrees<L>(tokens: seq<Token<L>>, below: seq<Tree<L>>, holds: L -> bool)
    returns (trees: seq<Tree<L>>)
    requires Run(tokens, Truths(below, holds), holds).Some?
    ensures Domain(trees) == tokens + Domain(below)
  {
    if tokens == [] {
      trees := below;
      assert tokens + Domain(below) == Domain(below);
    } else {
      var last := |tokens| - 1;
      GrowPushes(tokens[last], below, holds);
      GrowReads(tokens[last], below);
      trees := ReadTrees(tokens[..last], Grow(tokens[last], below).value, holds);
      assert tokens == tokens[..last] + [tokens[last]];
      assert tokens[..last] + ([tokens[last]] + Domain(below)) == tokens + Domain(below);
    }
  }

  lemma TwoTrees<L>(below: seq<Tree<L>>)
    requires |below| >= 2
    ensures Domain(below) == Prefix(below[0]) + Prefix(below[1]) + Domain(below[2..])
  {
    assert below[1..][1..] == below[2..];
  }

  /** A token list is evaluated without underflow exactly when it is the prefix form of some list of trees. */
  lemma EvaluatesIffWellFormed<L>(tokens: seq<Token<L>>, holds: L -> bool)
    ensures Run(tokens, [], holds).Some? <==> exists trees: seq<Tree<L>> :: Domain(trees) == tokens
  {
    if Run(tokens, [], holds).Some? {
      var none: seq<Tree<L>> := [];
      assert Truths(none, holds) == [];
      var trees := ReadTrees(tokens, none, holds);
      assert tokens + Domain(none) == tokens;
    }
    if trees: seq<Tree<L>> :| Domain(trees) == tokens {
      RunDomain(trees, [], holds);
    }
  }
}
